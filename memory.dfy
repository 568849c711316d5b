/** The memory layer: bounds-checked element access (`_load`, `_store`), the
    gated lane-wise `load`, image loads, and the writes a STORE performs.
    Memory is one flat sequence of elements per buffer; a buffer handle
    `BufV(id)` names buffer `id`. */
module Memory {
  import opened Uops

  /** `_load(m, i)`: fails exactly when `i` is outside the buffer. */
  function LoadAt(m: seq<Value>, i: int): (r: Result<Value>)
    ensures r.Ok? <==> 0 <= i < |m|
    ensures r.Ok? ==> r.value == m[i]
    ensures r.Err? ==> r.fault == OutOfBounds
  {
    if i < 0 || i >= |m| then Err(OutOfBounds) else Ok(m[i])
  }

  /** `_store(m, i, v)` on the contents of one buffer: fails exactly when `i`
      is outside the buffer, and otherwise changes element `i` only. */
  function Put(m: seq<Value>, i: int, v: Value): (r: Result<seq<Value>>)
    ensures r.Ok? <==> 0 <= i < |m|
    ensures r.Err? ==> r.fault == OutOfBounds
    ensures r.Ok? ==> |r.value| == |m| && r.value[i] == v
    ensures r.Ok? ==> forall k :: 0 <= k < |m| && k != i ==> r.value[k] == m[k]
  {
    if i < 0 || i >= |m| then Err(OutOfBounds) else Ok(m[i := v])
  }

  /** The buffer a handle names. */
  function Deref(mem: seq<seq<Value>>, h: Value): (r: Result<seq<Value>>)
    ensures r.Ok? <==> h.BufV? && h.id < |mem|
    ensures r.Ok? ==> r.value == mem[h.id]
  {
    if h.BufV? && h.id < |mem| then Ok(mem[h.id]) else Err(Malformed)
  }

  /** `_store(m, i, v)` where `m` is a handle into the memory. */
  function PutMem(mem: seq<seq<Value>>, h: Value, i: int, v: Value): (r: Result<seq<seq<Value>>>)
    ensures r.Ok? <==> h.BufV? && h.id < |mem| && 0 <= i < |mem[h.id]|
    ensures r.Ok? ==> r.value == mem[h.id := mem[h.id][i := v]]
  {
    match Deref(mem, h)
    case Err(e) => Err(e)
    case Ok(buf) =>
      match Put(buf, i, v)
      case Err(e) => Err(e)
      case Ok(buf') => Ok(mem[h.id := buf'])
  }

  /** One lane of `load`: `_load(m, x + j)`. */
  function LoadLane(mem: seq<seq<Value>>, m: Value, x: Value, j: int): (r: Result<Value>)
    ensures r.Ok? <==> AsInt(x).Ok? && Deref(mem, m).Ok? && 0 <= AsInt(x).value + j < |mem[m.id]|
    ensures r.Ok? ==> r.value == mem[m.id][AsInt(x).value + j]
  {
    match AsInt(x)
    case Err(e) => Err(e)
    case Ok(o) =>
      match Deref(mem, m)
      case Err(e) => Err(e)
      case Ok(buf) => LoadAt(buf, o + j)
  }

  /** A gated load over the lanes: a lane whose gate is true reads its
      buffer at its index plus `j`, any other lane yields its default; the
      first lane whose read fails fails the whole load. */
  function GatedLanes(mem: seq<seq<Value>>, ms: seq<Value>, xs: seq<Value>, ds: seq<Value>, gs: seq<Value>, j: int)
    : (r: Result<seq<Value>>)
    requires |ms| == |xs| == |ds| == |gs|
    ensures r.Ok? ==> |r.value| == |ms|
    decreases |ms|
  {
    if |ms| == 0 then Ok([])
    else
      var head := if Truthy(gs[0]) then LoadLane(mem, ms[0], xs[0], j) else Ok(ds[0]);
      if head.Err? then Err(head.fault)
      else
        match GatedLanes(mem, ms[1..], xs[1..], ds[1..], gs[1..], j)
        case Err(e) => Err(e)
        case Ok(tail) => Ok([head.value] + tail)
  }

  /** A gated load succeeds exactly when every lane whose gate is true reads
      inside its buffer; it fails with the fault of such a lane. */
  lemma {:induction false} GatedLanesFail(mem: seq<seq<Value>>, ms: seq<Value>, xs: seq<Value>, ds: seq<Value>, gs: seq<Value>, j: int)
    requires |ms| == |xs| == |ds| == |gs|
    ensures var r := GatedLanes(mem, ms, xs, ds, gs, j);
      && (r.Ok? <==> forall k :: 0 <= k < |ms| && Truthy(gs[k]) ==> LoadLane(mem, ms[k], xs[k], j).Ok?)
      && (r.Err? ==> exists k :: 0 <= k < |ms| && Truthy(gs[k]) && LoadLane(mem, ms[k], xs[k], j) == Err(r.fault))
    decreases |ms|
  {
    if |ms| > 0 {
      GatedLanesFail(mem, ms[1..], xs[1..], ds[1..], gs[1..], j);
      assert forall k :: 1 <= k < |ms| ==> ms[1..][k - 1] == ms[k] && xs[1..][k - 1] == xs[k] && gs[1..][k - 1] == gs[k];
      var tail := GatedLanes(mem, ms[1..], xs[1..], ds[1..], gs[1..], j);
      if tail.Err? {
        var k :| 0 <= k < |ms| - 1 && Truthy(gs[1..][k]) && LoadLane(mem, ms[1..][k], xs[1..][k], j) == Err(tail.fault);
        assert Truthy(gs[k + 1]) && LoadLane(mem, ms[k + 1], xs[k + 1], j) == Err(tail.fault);
      }
    }
  }

  /** In a gated load that succeeds, a lane whose gate is false yields its
      default and reads nothing; a lane whose gate is true yields
      `_load(m, x+j)`. */
  lemma {:induction false} GatedLanesValues(mem: seq<seq<Value>>, ms: seq<Value>, xs: seq<Value>, ds: seq<Value>, gs: seq<Value>, j: int)
    requires |ms| == |xs| == |ds| == |gs|
    requires GatedLanes(mem, ms, xs, ds, gs, j).Ok?
    ensures var r := GatedLanes(mem, ms, xs, ds, gs, j).value;
      && (forall k :: 0 <= k < |ms| && !Truthy(gs[k]) ==> r[k] == ds[k])
      && (forall k :: 0 <= k < |ms| && Truthy(gs[k]) ==> LoadLane(mem, ms[k], xs[k], j) == Ok(r[k]))
    decreases |ms|
  {
    if |ms| > 0 {
      GatedLanesValues(mem, ms[1..], xs[1..], ds[1..], gs[1..], j);
      var r := GatedLanes(mem, ms, xs, ds, gs, j).value;
      var tail := GatedLanes(mem, ms[1..], xs[1..], ds[1..], gs[1..], j).value;
      assert forall k :: 1 <= k < |ms| ==>
        r[k] == tail[k - 1] && ms[1..][k - 1] == ms[k] && xs[1..][k - 1] == xs[k] && ds[1..][k - 1] == ds[k] && gs[1..][k - 1] == gs[k];
    }
  }

  /** The first `n` elements of every list. */
  function Prefixes(vs: seq<Value>, n: nat): (r: seq<seq<Value>>)
    requires AllLists(vs) && n <= ZipLen(vs)
    ensures |r| == |vs|
    ensures forall i :: 0 <= i < |vs| ==> r[i] == vs[i].items[..n]
  {
    seq(|vs|, i requires 0 <= i < |vs| => vs[i].items[..n])
  }

  /** All-true gates. */
  function AllTrue(n: nat): (r: seq<Value>)
    ensures |r| == n && forall k :: 0 <= k < n ==> r[k] == BoolV(true)
  {
    seq(n, _ => BoolV(true))
  }

  /** `load(inp, j)`: with four operands (buffer, index, default, gate) the
      gated comprehension, otherwise the ungated one over the first two. One
      result per tuple of the `zip`. */
  function Load(mem: seq<seq<Value>>, inp: seq<Value>, j: int): (r: Result<seq<Value>>)
    ensures |inp| < 2 ==> r == Err(Malformed)
  {
    if |inp| == 4 then
      if !AllLists(inp) then Err(Malformed)
      else
        var n := ZipLen(inp);
        var p := Prefixes(inp, n);
        GatedLanes(mem, p[0], p[1], p[2], p[3], j)
    else if |inp| < 2 || !AllLists(inp[..2]) then Err(Malformed)
    else
      var n := ZipLen(inp[..2]);
      var p := Prefixes(inp[..2], n);
      GatedLanes(mem, p[0], p[1], p[1], AllTrue(n), j)
  }

  /** What `load` returns: one result per tuple of the `zip`; with a gate a
      lane whose gate is false yields its default and reads nothing, one
      whose gate is true reads `_load(m, x+j)`; without a gate every lane
      reads. */
  lemma {:induction false} LoadLanes(mem: seq<seq<Value>>, inp: seq<Value>, j: int)
    ensures Load(mem, inp, j).Ok? && |inp| == 4 ==>
      && AllLists(inp)
      && |Load(mem, inp, j).value| == ZipLen(inp)
      && forall k :: 0 <= k < |Load(mem, inp, j).value| ==>
           if Truthy(inp[3].items[k]) then LoadLane(mem, inp[0].items[k], inp[1].items[k], j) == Ok(Load(mem, inp, j).value[k])
           else Load(mem, inp, j).value[k] == inp[2].items[k]
    ensures Load(mem, inp, j).Ok? && |inp| != 4 ==>
      && |inp| >= 2 && AllLists(inp[..2])
      && |Load(mem, inp, j).value| == ZipLen(inp[..2])
      && forall k :: 0 <= k < |Load(mem, inp, j).value| ==> LoadLane(mem, inp[0].items[k], inp[1].items[k], j) == Ok(Load(mem, inp, j).value[k])
  {
    if |inp| == 4 && AllLists(inp) {
      var p := Prefixes(inp, ZipLen(inp));
      if GatedLanes(mem, p[0], p[1], p[2], p[3], j).Ok? {
        GatedLanesValues(mem, p[0], p[1], p[2], p[3], j);
      }
    } else if |inp| >= 2 && AllLists(inp[..2]) {
      var n := ZipLen(inp[..2]);
      var p := Prefixes(inp[..2], n);
      if GatedLanes(mem, p[0], p[1], p[1], AllTrue(n), j).Ok? {
        GatedLanesValues(mem, p[0], p[1], p[1], AllTrue(n), j);
      }
    }
  }

  /** Whether an image address lies inside the image. */
  predicate InImage(shape: ImageShape, ox: int, oy: int) {
    0 <= ox < shape.width && 0 <= oy < shape.height
  }

  /** The element offset of component `j` of texel `(ox, oy)` in the
      4-interleaved buffer behind an image. */
  function TexelOffset(shape: ImageShape, ox: int, oy: int, j: int): int {
    ox * 4 + oy * shape.width * 4 + j
  }

  /** One lane of an image load: 0 outside the image, the texel component inside. */
  function ImageLane(mem: seq<seq<Value>>, m: Value, ox: Value, oy: Value, shape: ImageShape, j: int): Result<Value> {
    if AsInt(ox).Err? || AsInt(oy).Err? then Err(Malformed)
    else
      var x, y := AsInt(ox).value, AsInt(oy).value;
      if !InImage(shape, x, y) then Ok(IntV(0))
      else
        match Deref(mem, m)
        case Err(e) => Err(e)
        case Ok(buf) => LoadAt(buf, TexelOffset(shape, x, y, j))
  }

  /** Component `j` of an image load, over the lanes `zip(m, ox, oy)`,
      raising at the first lane whose read fails. */
  function ImageLanes(mem: seq<seq<Value>>, ms: seq<Value>, oxs: seq<Value>, oys: seq<Value>, shape: ImageShape, j: int)
    : (r: Result<seq<Value>>)
    requires |ms| == |oxs| == |oys|
    ensures r.Ok? ==> |r.value| == |ms|
    decreases |ms|
  {
    if |ms| == 0 then Ok([])
    else
      match ImageLane(mem, ms[0], oxs[0], oys[0], shape, j)
      case Err(e) => Err(e)
      case Ok(head) =>
        match ImageLanes(mem, ms[1..], oxs[1..], oys[1..], shape, j)
        case Err(e) => Err(e)
        case Ok(tail) => Ok([head] + tail)
  }

  /** An image load succeeds exactly when every lane does. */
  lemma {:induction false} ImageLanesOk(mem: seq<seq<Value>>, ms: seq<Value>, oxs: seq<Value>, oys: seq<Value>, shape: ImageShape, j: int)
    requires |ms| == |oxs| == |oys|
    ensures ImageLanes(mem, ms, oxs, oys, shape, j).Ok? <==>
      forall k :: 0 <= k < |ms| ==> ImageLane(mem, ms[k], oxs[k], oys[k], shape, j).Ok?
    decreases |ms|
  {
    if |ms| > 0 {
      ImageLanesOk(mem, ms[1..], oxs[1..], oys[1..], shape, j);
      assert forall k :: 1 <= k < |ms| ==> ms[1..][k - 1] == ms[k] && oxs[1..][k - 1] == oxs[k] && oys[1..][k - 1] == oys[k];
    }
  }

  /** In an image load that succeeds, a lane whose address lies outside the
      image reads 0 without an error, and one inside reads element
      `ox*4 + oy*width*4 + j` of its buffer. */
  lemma {:induction false} ImageLanesValues(mem: seq<seq<Value>>, ms: seq<Value>, oxs: seq<Value>, oys: seq<Value>, shape: ImageShape, j: int)
    requires |ms| == |oxs| == |oys|
    requires ImageLanes(mem, ms, oxs, oys, shape, j).Ok?
    ensures var r := ImageLanes(mem, ms, oxs, oys, shape, j).value;
      && (forall k :: 0 <= k < |ms| && oxs[k].IntV? && oys[k].IntV? && !InImage(shape, oxs[k].n, oys[k].n) ==> r[k] == IntV(0))
      && (forall k :: 0 <= k < |ms| && oxs[k].IntV? && oys[k].IntV? && InImage(shape, oxs[k].n, oys[k].n) ==>
            ms[k].BufV? && ms[k].id < |mem| && LoadAt(mem[ms[k].id], TexelOffset(shape, oxs[k].n, oys[k].n, j)) == Ok(r[k]))
    decreases |ms|
  {
    if |ms| > 0 {
      ImageLanesValues(mem, ms[1..], oxs[1..], oys[1..], shape, j);
      var r := ImageLanes(mem, ms, oxs, oys, shape, j).value;
      var tail := ImageLanes(mem, ms[1..], oxs[1..], oys[1..], shape, j).value;
      assert forall k :: 1 <= k < |ms| ==>
        r[k] == tail[k - 1] && ms[1..][k - 1] == ms[k] && oxs[1..][k - 1] == oxs[k] && oys[1..][k - 1] == oys[k];
    }
  }

  /** One write of a STORE (`_store(m, off, v)`), or the point where the
      store raises before writing anything more. */
  datatype Task = Write(buf: Value, off: int, v: Value) | Stop(fault: Fault)

  /** The memory after a sequence of tasks: the writes up to the first
      failure stay in place. */
  datatype MemOut = MemOk(mem: seq<seq<Value>>) | MemFault(fault: Fault, mem: seq<seq<Value>>)

  /** Two memories with the same buffers of the same sizes. */
  predicate SameShape(a: seq<seq<Value>>, b: seq<seq<Value>>) {
    |a| == |b| && forall k :: 0 <= k < |a| ==> |a[k]| == |b[k]|
  }

  /** Performs the tasks in order; stops at the first one that fails. */
  function ApplyTasks(mem: seq<seq<Value>>, ts: seq<Task>): (r: MemOut)
    ensures SameShape(mem, r.mem)
    ensures (forall t :: t in ts ==> t.Write?) ==> r.MemOk? || r.fault == OutOfBounds || r.fault == Malformed
    decreases |ts|
  {
    if ts == [] then MemOk(mem)
    else
      assert ts[0] in ts;
      match ts[0]
      case Stop(e) => MemFault(e, mem)
      case Write(h, o, v) =>
        match PutMem(mem, h, o, v)
        case Err(e) => MemFault(e, mem)
        case Ok(mem') =>
          assert forall t :: t in ts[1..] ==> t in ts;
          ApplyTasks(mem', ts[1..])
  }

  /** Whether some write of `ts` targets element `x` of buffer `b`. */
  predicate Targets(ts: seq<Task>, b: nat, x: int) {
    exists t :: t in ts && t.Write? && t.buf == BufV(b) && t.off == x
  }

  /** Every element no write targets keeps its value, whether the tasks
      complete or fail part way. */
  lemma {:induction false} ApplyTasksFrame(mem: seq<seq<Value>>, ts: seq<Task>, b: nat, x: int)
    requires b < |mem| && 0 <= x < |mem[b]|
    requires !Targets(ts, b, x)
    ensures ApplyTasks(mem, ts).mem[b][x] == mem[b][x]
    decreases |ts|
  {
    if ts != [] && ts[0].Write? {
      var h, o, v := ts[0].buf, ts[0].off, ts[0].v;
      var p := PutMem(mem, h, o, v);
      if p.Ok? {
        assert !(h == BufV(b) && o == x) by { assert ts[0] in ts; }
        assert !Targets(ts[1..], b, x) by {
          forall t | t in ts[1..] ensures !(t.Write? && t.buf == BufV(b) && t.off == x) {
            assert t in ts;
          }
        }
        ApplyTasksFrame(p.value, ts[1..], b, x);
      }
    }
  }

  /** Tasks after the first failure never run. */
  lemma {:induction false} ApplyTasksAppend(mem: seq<seq<Value>>, a: seq<Task>, b: seq<Task>)
    ensures ApplyTasks(mem, a + b) ==
      match ApplyTasks(mem, a)
      case MemOk(m) => ApplyTasks(m, b)
      case MemFault(e, m) => MemFault(e, m)
    decreases |a|
  {
    if a == [] {
      assert a + b == b;
    } else {
      assert (a + b)[0] == a[0];
      assert (a + b)[1..] == a[1..] + b;
      if a[0].Write? {
        var p := PutMem(mem, a[0].buf, a[0].off, a[0].v);
        if p.Ok? {
          ApplyTasksAppend(p.value, a[1..], b);
        }
      }
    }
  }

  /** Last write wins: when the tasks complete, an element holds the value
      of the last write that targets it. */
  lemma {:induction false} ApplyTasksLastWrite(mem: seq<seq<Value>>, a: seq<Task>, b: nat, x: int, v: Value, c: seq<Task>)
    requires b < |mem| && 0 <= x < |mem[b]| && !Targets(c, b, x)
    requires ApplyTasks(mem, a + [Write(BufV(b), x, v)] + c).MemOk?
    ensures ApplyTasks(mem, a + [Write(BufV(b), x, v)] + c).mem[b][x] == v
  {
    var w := [Write(BufV(b), x, v)];
    ApplyTasksAppend(mem, a + w, c);
    ApplyTasksAppend(mem, a, w);
    var m := ApplyTasks(mem, a).mem;
    assert w[1..] == [];
    var m' := ApplyTasks(m, w).mem;
    assert m' == m[b := m[b][x := v]];
    ApplyTasksFrame(m', c, b, x);
  }

  /** When the tasks complete, an element that some write targets holds the
      value those writes carry, if they all carry the same one (in
      particular, if only one write targets it). */
  lemma {:induction false} ApplyTasksWritten(mem: seq<seq<Value>>, ts: seq<Task>, b: nat, x: int, v: Value)
    requires b < |mem| && 0 <= x < |mem[b]| && Targets(ts, b, x)
    requires forall t :: t in ts && t.Write? && t.buf == BufV(b) && t.off == x ==> t.v == v
    requires ApplyTasks(mem, ts).MemOk?
    ensures ApplyTasks(mem, ts).mem[b][x] == v
    decreases |ts|
  {
    assert ts[0] in ts;
    var m' := PutMem(mem, ts[0].buf, ts[0].off, ts[0].v).value;
    assert forall t :: t in ts[1..] ==> t in ts;
    if Targets(ts[1..], b, x) {
      ApplyTasksWritten(m', ts[1..], b, x, v);
    } else {
      ApplyTasksFrame(m', ts[1..], b, x);
    }
  }

  /** One lane of a scalar or vector store: a lane whose gate is true writes
      its value at its offset plus `j`; any other lane writes nothing. */
  function LaneTask(m: Value, o: Value, v: Value, g: Value, j: int): (r: seq<Task>)
    ensures !Truthy(g) ==> r == []
    ensures Truthy(g) && AsInt(o).Ok? ==> r == [Write(m, AsInt(o).value + j, v)]
    ensures Truthy(g) && AsInt(o).Err? ==> r == [Stop(Malformed)]
  {
    if !Truthy(g) then []
    else match AsInt(o)
      case Ok(n) => [Write(m, n + j, v)]
      case Err(e) => [Stop(e)]
  }

  /** A lane's write: lane `k` writes `vs[k]` at `os[k] + j` in `ms[k]`. */
  predicate LaneWrite(t: Task, ms: seq<Value>, os: seq<Value>, vs: seq<Value>, gs: seq<Value>, j: int, k: int)
    requires |ms| == |os| == |vs| == |gs|
  {
    0 <= k < |ms| && Truthy(gs[k]) && AsInt(os[k]).Ok? && t == Write(ms[k], AsInt(os[k]).value + j, vs[k])
  }

  /** The lanes of a scalar or vector store component, in lane order. */
  function LaneTasks(ms: seq<Value>, os: seq<Value>, vs: seq<Value>, gs: seq<Value>, j: int): seq<Task>
    requires |ms| == |os| == |vs| == |gs|
    decreases |ms|
  {
    if |ms| == 0 then []
    else LaneTask(ms[0], os[0], vs[0], gs[0], j) + LaneTasks(ms[1..], os[1..], vs[1..], gs[1..], j)
  }

  /** A component whose gates are all false writes nothing. */
  lemma {:induction false} LaneTasksGatedOff(ms: seq<Value>, os: seq<Value>, vs: seq<Value>, gs: seq<Value>, j: int)
    requires |ms| == |os| == |vs| == |gs|
    requires forall k :: 0 <= k < |gs| ==> !Truthy(gs[k])
    ensures LaneTasks(ms, os, vs, gs, j) == []
    decreases |ms|
  {
    if |ms| > 0 {
      assert !Truthy(gs[0]);
      assert forall k :: 0 <= k < |gs| - 1 ==> gs[1..][k] == gs[k + 1];
      LaneTasksGatedOff(ms[1..], os[1..], vs[1..], gs[1..], j);
    }
  }

  /** Every write of a component comes from a lane whose gate is true and
      targets that lane's offset plus `j`. */
  lemma {:induction false} LaneTasksSound(ms: seq<Value>, os: seq<Value>, vs: seq<Value>, gs: seq<Value>, j: int, t: Task)
    requires |ms| == |os| == |vs| == |gs|
    requires t in LaneTasks(ms, os, vs, gs, j) && t.Write?
    ensures exists k :: LaneWrite(t, ms, os, vs, gs, j, k)
    decreases |ms|
  {
    var tail := LaneTasks(ms[1..], os[1..], vs[1..], gs[1..], j);
    if t in tail {
      LaneTasksSound(ms[1..], os[1..], vs[1..], gs[1..], j, t);
      var k :| LaneWrite(t, ms[1..], os[1..], vs[1..], gs[1..], j, k);
      assert LaneWrite(t, ms, os, vs, gs, j, k + 1);
    } else {
      assert LaneWrite(t, ms, os, vs, gs, j, 0);
    }
  }

  /** With every gate true and every offset an integer, each lane writes, in lane order. */
  lemma {:induction false} UngatedLaneTasks(ms: seq<Value>, os: seq<Value>, vs: seq<Value>, gs: seq<Value>, j: int)
    requires |ms| == |os| == |vs| == |gs|
    requires forall k :: 0 <= k < |gs| ==> gs[k] == BoolV(true) && os[k].IntV?
    ensures LaneTasks(ms, os, vs, gs, j) == seq(|ms|, k requires 0 <= k < |ms| => Write(ms[k], os[k].n + j, vs[k]))
    decreases |ms|
  {
    if |ms| > 0 {
      UngatedLaneTasks(ms[1..], os[1..], vs[1..], gs[1..], j);
    }
  }

  /** The lanes of one image-store component. The address is checked on every
      lane, gated or not; only a lane whose gate is true writes. */
  function ImageLaneTasks(ms: seq<Value>, oxs: seq<Value>, oys: seq<Value>, vs: seq<Value>, gs: seq<Value>,
                          shape: ImageShape, j: int): (r: seq<Task>)
    requires |ms| == |oxs| == |oys| == |vs| == |gs|
    decreases |ms|
  {
    if |ms| == 0 then []
    else
      var head :=
        if AsInt(oxs[0]).Err? || AsInt(oys[0]).Err? then [Stop(Malformed)]
        else
          var x, y := AsInt(oxs[0]).value, AsInt(oys[0]).value;
          if !InImage(shape, x, y) then [Stop(OutOfBounds)]
          else if Truthy(gs[0]) then [Write(ms[0], TexelOffset(shape, x, y, j), vs[0])]
          else [];
      head + ImageLaneTasks(ms[1..], oxs[1..], oys[1..], vs[1..], gs[1..], shape, j)
  }

  /** The writes of the components `comps`, component `j` first: for each
      component the lanes of `zip(m, o, val, gate)`, or of
      `zip(m, ox, oy, val, gate)` for an image. */
  function CompTasks(full: seq<Value>, comps: seq<Value>, j: int, image: Option<ImageShape>): (r: seq<Task>)
    requires |full| >= 4
    decreases |comps|
  {
    if comps == [] then []
    else
      var block :=
        if image.Some? then
          var ox := PyIndex(full[1], 0);
          var oy := PyIndex(full[1], 1);
          if ox.Err? || oy.Err? then [Stop(Malformed)]
          else
            var cols := [full[0], ox.value, oy.value, comps[0], full[3]];
            if !AllLists(cols) then [Stop(Malformed)]
            else
              var p := Prefixes(cols, ZipLen(cols));
              ImageLaneTasks(p[0], p[1], p[2], p[3], p[4], image.value, j)
        else
          var cols := [full[0], full[1], comps[0], full[3]];
          if !AllLists(cols) then [Stop(Malformed)]
          else
            var p := Prefixes(cols, ZipLen(cols));
            LaneTasks(p[0], p[1], p[2], p[3], j);
      block + CompTasks(full, comps[1..], j + 1, image)
  }

  /** The operands of a STORE with the default all-true gate appended when
      only three are given. */
  function WithGate(vals: seq<Value>): (r: Result<seq<Value>>)
    requires |vals| >= 3
    ensures r.Ok? ==> |r.value| >= 4 && r.value[..3] == vals[..3]
    ensures |vals| == 3 && vals[0].ListV? ==> r == Ok(vals + [Broadcast(BoolV(true), |vals[0].items|)])
    ensures |vals| > 3 ==> r == Ok(vals)
  {
    if |vals| == 3 then
      if vals[0].ListV? then Ok(vals + [Broadcast(BoolV(true), |vals[0].items|)]) else Err(Malformed)
    else Ok(vals)
  }

  /** The writes a STORE performs, given its operand values (buffer, offset
      or image address, value, optional gate) and their types. */
  function StorePlan(vals: seq<Value>, types: seq<DType>): seq<Task>
    requires |vals| == |types|
  {
    if |vals| < 3 then [Stop(Malformed)]
    else
      match WithGate(vals)
      case Err(e) => [Stop(e)]
      case Ok(full) =>
        if types[0].image.Some? then
          if types[2].count != 4 then [Stop(Unsupported)]
          else if !full[2].ListV? then [Stop(Malformed)]
          else CompTasks(full, full[2].items, 0, types[0].image)
        else if types[2].count > 1 then
          if !full[2].ListV? then [Stop(Malformed)]
          else CompTasks(full, full[2].items, 0, None)
        else if !AllLists(full) then [Stop(Malformed)]
        else
          var n := ZipLen(full);
          if n > 0 && |full| != 4 then [Stop(Malformed)]
          else
            var p := Prefixes(full, n);
            LaneTasks(p[0], p[1], p[2], p[3], 0)
  }
}
