/** The lanes of a warp: how many there are, which local coordinates each
    one holds, and what SPECIAL gives them. */
module Lanes {
  import opened Uops
  import opened Semantics
  import Grid

  lemma {:induction false} ProdAppend(s: seq<nat>, x: nat)
    ensures Grid.Prod(s + [x]) == Grid.Prod(s) * x
    decreases |s|
  {
    if s == [] {
      assert [x][1..] == [];
      assert s + [x] == [x];
    } else {
      assert (s + [x])[1..] == s[1..] + [x];
      ProdAppend(s[1..], x);
    }
  }

  lemma {:induction false} ProdReverse(s: seq<nat>)
    ensures Grid.Prod(Reverse(s)) == Grid.Prod(s)
    decreases |s|
  {
    if s != [] {
      assert Reverse(s) == Reverse(s[1..]) + [s[0]];
      ProdReverse(s[1..]);
      ProdAppend(Reverse(s[1..]), s[0]);
    }
  }

  /** `warp_size`, the length of the warp, is the product of the local size. */
  lemma WarpSize(localSize: seq<nat>)
    ensures |Warp(localSize)| == Grid.Prod(localSize)
  {
    Grid.ProductLength(Reverse(localSize));
    ProdReverse(localSize);
  }

  /** For a local size `(lx, ly, lz)` lane `k` holds `(z, y, x)` with x varying
      fastest: `x = k % lx`, `y = (k / lx) % ly`, `z = k / (ly * lx)`. */
  lemma WarpLanes(lx: nat, ly: nat, lz: nat, k: nat)
    requires k < lx * ly * lz
    ensures |Warp([lx, ly, lz])| == lx * ly * lz
    ensures Warp([lx, ly, lz])[k] == [k / (ly * lx), (k / lx) % ly, k % lx]
  {
    assert Reverse([lx, ly, lz]) == [lz, ly, lx];
    assert lz * ly * lx == lx * ly * lz;
    Grid.Product3(lz, ly, lx, k);
  }

  /** The local coordinate of lane `k` along axis `d` (0 is x). */
  function LocalCoord(lx: nat, ly: nat, d: int, k: nat): int
    requires lx > 0 && ly > 0
  {
    if d == 0 then k % lx else if d == 1 then (k / lx) % ly else k / (ly * lx)
  }

  /** SPECIAL "l<d>" with d in 0..2 gives every lane its own local index
      along axis d, one entry per lane. */
  lemma SpecialLocal(env: Env, name: string, lx: nat, ly: nat, lz: nat, k: nat)
    requires env.warp == Warp([lx, ly, lz])
    requires |name| > 0 && name[0] == 'l' && '0' <= name[|name| - 1] <= '2'
    requires k < lx * ly * lz
    ensures var r := SpecialValue(env, Axis(name));
      r.Ok? && r.value.Define? && r.value.v.ListV? && |r.value.v.items| == lx * ly * lz &&
      r.value.v.items[k] == IntV(LocalCoord(lx, ly, name[|name| - 1] as int - '0' as int, k))
  {
    assert lx > 0 && ly > 0;
    WarpLanes(lx, ly, lz, k);
    var d := name[|name| - 1] as int - '0' as int;
    var w := env.warp;
    forall l | 0 <= l < |w|
      ensures TupleIndex(w[l], 2 - d).Ok?
    {
      WarpLanes(lx, ly, lz, l);
    }
  }

  /** SPECIAL "g<d>" with d in 0..2 broadcasts the global index along axis d
      (the coordinate tuple is in reversed order, hence position `2 - d`). */
  lemma SpecialGlobal(env: Env, name: string)
    requires |env.idxs| == 3
    requires |name| > 0 && name[0] == 'g' && '0' <= name[|name| - 1] <= '2'
    ensures SpecialValue(env, Axis(name)) ==
      Ok(Define(Broadcast(IntV(env.idxs[2 - (name[|name| - 1] as int - '0' as int)]), |env.warp|)))
  {
  }

  /** A SPECIAL whose name starts with neither 'g' nor 'l' defines nothing. */
  lemma SpecialOther(env: Env, name: string)
    requires |name| > 0 && name[0] != 'g' && name[0] != 'l'
    ensures SpecialValue(env, Axis(name)) == Ok(Check)
  {
  }
}
