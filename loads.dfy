/** What LOAD yields, stated over its operands: a vector load has one
    component per element of the result type, component `j` loading at offset
    `j`; an image load has four components, one per texel channel. */
module Loads {
  import opened Uops
  import opened Memory
  import opened Semantics

  /** Component `k` of the list built from component `j` on, which sits at
      `k - j`, is what `f` gives for `k`. */
  lemma {:induction false} ComponentsAt(f: nat -> Result<seq<Value>>, j: nat, count: nat, k: nat)
    requires j <= k < count && Components(f, j, count).Ok?
    ensures f(k).Ok? && Components(f, j, count).value[k - j] == ListV(f(k).value)
    decreases k - j
  {
    if k > j {
      ComponentsAt(f, j + 1, count, k);
    }
  }

  /** The list fails exactly when some component fails. */
  lemma {:induction false} ComponentsFail(f: nat -> Result<seq<Value>>, j: nat, count: nat)
    ensures Components(f, j, count).Err? <==> exists k :: j <= k < count && f(k).Err?
    decreases count - j
  {
    if j < count {
      ComponentsFail(f, j + 1, count);
    }
  }

  /** A vector LOAD from an ordinary buffer has one component per element of
      the result type; component `c` is `load` over component `c` of every
      vector operand (and the whole of every scalar one) at offset `c`. */
  lemma VectorLoad(mem: seq<seq<Value>>, dt: DType, ops: Operands, c: nat)
    requires |ops.vals| == |ops.types| > 0 && ops.types[0].image.None? && dt.count > 1 && c < dt.count
    requires LoadValue(mem, dt, ops).Ok?
    ensures var eff := LoadValue(mem, dt, ops).value;
      var inp := ComponentOperands(ops.vals, ops.types, c);
      && eff.Define? && eff.v.ListV? && |eff.v.items| == dt.count
      && inp.Ok? && Memory.Load(mem, inp.value, c).Ok?
      && eff.v.items[c] == ListV(Memory.Load(mem, inp.value, c).value)
  {
    ComponentsAt((j: nat) => VectorComponent(mem, ops, j), 0, dt.count, c);
  }

  /** An image LOAD has four components; component `c` reads channel `c` of
      each lane's texel (`ox = idx[0]`, `oy = idx[1]`), and 0 for a lane whose
      address lies outside the image. */
  lemma ImageLoad(mem: seq<seq<Value>>, dt: DType, ops: Operands, shape: ImageShape, c: nat)
    requires |ops.vals| == |ops.types| >= 2 && ops.types[0].image == Some(shape) && c < 4
    requires LoadValue(mem, dt, ops).Ok?
    ensures dt.count == 4
    ensures var eff := LoadValue(mem, dt, ops).value;
      var cols := [ops.vals[0], PyIndex(ops.vals[1], 0).value, PyIndex(ops.vals[1], 1).value];
      && PyIndex(ops.vals[1], 0).Ok? && PyIndex(ops.vals[1], 1).Ok? && AllLists(cols)
      && eff.Define? && eff.v.ListV? && |eff.v.items| == 4
      && var p := Prefixes(cols, ZipLen(cols));
         && ImageLanes(mem, p[0], p[1], p[2], shape, c).Ok?
         && eff.v.items[c] == ListV(ImageLanes(mem, p[0], p[1], p[2], shape, c).value)
  {
    var cols := [ops.vals[0], PyIndex(ops.vals[1], 0).value, PyIndex(ops.vals[1], 1).value];
    ComponentsAt((j: nat) => ImageComponent(mem, cols, shape, j), 0, 4, c);
  }
}
