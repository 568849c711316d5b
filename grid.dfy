/** The iteration spaces of an invocation: the warp is
    `itertools.product(*[range(x) for x in local_size[::-1]])` and the global
    coordinates are the same product over `global_size[::-1]`. */
module Grid {
  import opened Arith

  /** `[[a] + t for a in range(n) for t in rest]`: the first position varies slowest. */
  function Prepend(n: nat, rest: seq<seq<int>>): seq<seq<int>>
    decreases n
  {
    if n == 0 then []
    else Prepend(n - 1, rest) + seq(|rest|, t requires 0 <= t < |rest| => [n - 1] + rest[t])
  }

  /** `list(itertools.product(*[range(x) for x in sizes]))` */
  function Product(sizes: seq<nat>): seq<seq<int>>
    decreases |sizes|
  {
    if sizes == [] then [[]] else Prepend(sizes[0], Product(sizes[1..]))
  }

  /** The product of the sizes. */
  function Prod(sizes: seq<nat>): nat
    decreases |sizes|
  {
    if sizes == [] then 1 else sizes[0] * Prod(sizes[1..])
  }

  lemma {:induction false} PrependLength(n: nat, rest: seq<seq<int>>)
    ensures |Prepend(n, rest)| == n * |rest|
    decreases n
  {
    if n > 0 {
      PrependLength(n - 1, rest);
    }
  }

  /** Element `k` of the product with one more leading range. */
  lemma {:induction false} PrependAt(n: nat, rest: seq<seq<int>>, k: nat)
    requires k < n * |rest|
    ensures |Prepend(n, rest)| == n * |rest|
    ensures Prepend(n, rest)[k] == [k / |rest|] + rest[k % |rest|]
    decreases n
  {
    PrependLength(n, rest);
    PrependLength(n - 1, rest);
    var m := |rest|;
    if k < (n - 1) * m {
      PrependAt(n - 1, rest, k);
    } else {
      var t := k - (n - 1) * m;
      assert 0 <= t < m;
      DivModUnique(k, m, n - 1, t);
    }
  }

  lemma {:induction false} ProductLength(sizes: seq<nat>)
    ensures |Product(sizes)| == Prod(sizes)
    decreases |sizes|
  {
    if sizes != [] {
      ProductLength(sizes[1..]);
      PrependLength(sizes[0], Product(sizes[1..]));
    }
  }

  lemma Product1(nx: nat, k: nat)
    requires k < nx
    ensures |Product([nx])| == nx && Product([nx])[k] == [k]
  {
    assert [nx][1..] == [];
    assert Product([nx]) == Prepend(nx, [[]]);
    PrependAt(nx, [[]], k);
    DivModUnique(k, 1, k, 0);
  }

  lemma Product2(ny: nat, nx: nat, k: nat)
    requires k < ny * nx
    ensures |Product([ny, nx])| == ny * nx && Product([ny, nx])[k] == [k / nx, k % nx]
  {
    assert [ny, nx][1..] == [nx];
    assert Product([ny, nx]) == Prepend(ny, Product([nx]));
    ProductLength([nx]);
    assert Prod([nx]) == nx;
    PrependAt(ny, Product([nx]), k);
    assert nx > 0;
    Product1(nx, k % nx);
  }

  /** Splitting `k` by `ny * nx` and then `r` by `nx` is splitting `k` by `nx`. */
  lemma MixedRadix(k: nat, ny: nat, nx: nat)
    requires ny > 0 && nx > 0
    ensures (k % (ny * nx)) / nx == (k / nx) % ny
    ensures (k % (ny * nx)) % nx == k % nx
  {
    var q, r := k / (ny * nx), k % (ny * nx);
    assert k == q * (ny * nx) + r;
    assert r == (r / nx) * nx + r % nx;
    assert k == (q * ny + r / nx) * nx + r % nx;
    DivModUnique(k, nx, q * ny + r / nx, r % nx);
    DivModUnique(q * ny + r / nx, ny, q, r / nx);
  }

  /** The warp has one lane per point of the local size, and lane `k` holds
      the coordinates `(k / (ny*nx), (k / nx) % ny, k % nx)` of the
      product over `[nz, ny, nx]`. */
  lemma Product3(nz: nat, ny: nat, nx: nat, k: nat)
    requires k < nz * ny * nx
    ensures |Product([nz, ny, nx])| == nz * ny * nx
    ensures Product([nz, ny, nx])[k] == [k / (ny * nx), (k / nx) % ny, k % nx]
  {
    var m := ny * nx;
    var p2 := Product([ny, nx]);
    assert Product([nz, ny, nx]) == Prepend(nz, p2) by {
      assert [nz, ny, nx][1..] == [ny, nx];
    }
    assert nz * ny * nx == nz * m;
    assert m > 0;
    Product2(ny, nx, k % m);
    PrependAt(nz, p2, k);
    MixedRadix(k, ny, nx);
  }
}
