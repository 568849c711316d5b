/** `PythonProgram.__call__` as the Python writes it: a loop over the global
    coordinates, and for each an instruction loop that updates the position
    maps, the object table and the cursors in place and writes the buffers,
    which are arrays, element by element. Each loop is proved to compute what
    module Semantics specifies. */
module Interpreter {
  import opened Uops
  import opened Memory
  import opened Semantics
  import Grid

  /** The contents of every buffer. */
  function Contents(heap: seq<array<Value>>): (m: seq<seq<Value>>)
    reads set a | a in heap
    ensures |m| == |heap|
    decreases |heap|
  {
    if heap == [] then [] else Contents(heap[..|heap| - 1]) + [heap[|heap| - 1][..]]
  }

  /** Buffer `k` of the memory is the contents of array `k`. */
  lemma {:induction false} ContentsAt(heap: seq<array<Value>>)
    ensures forall k :: 0 <= k < |heap| ==> Contents(heap)[k] == heap[k][..]
    decreases |heap|
  {
    if heap != [] {
      ContentsAt(heap[..|heap| - 1]);
    }
  }

  /** No two buffers are the same array. */
  predicate Distinct(heap: seq<array<Value>>) {
    forall i, j :: 0 <= i < j < |heap| ==> heap[i] != heap[j]
  }

  /** How one coordinate's run, or a whole invocation, ended. */
  datatype Status = Completed | Failed(fault: Fault) | Exhausted

  function StatusOf(r: RunResult): Status {
    match r
    case Done(_) => Completed
    case Aborted(e, _) => Failed(e)
    case OutOfFuel(_) => Exhausted
  }

  function GridStatus(g: GridResult): Status {
    match g
    case GridDone(_) => Completed
    case GridAborted(e, _) => Failed(e)
    case GridOutOfFuel(_) => Exhausted
  }

  /** `_store(m, i, v)`: refuses an index outside the buffer and otherwise
      overwrites element `i` only. */
  method StoreAt(m: array<Value>, i: int, v: Value) returns (ok: bool)
    modifies m
    ensures ok <==> 0 <= i < m.Length
    ensures m[..] == if ok then old(m[..])[i := v] else old(m[..])
    ensures Put(old(m[..]), i, v) == (if ok then Ok(m[..]) else Err(OutOfBounds))
  {
    if i < 0 || i >= m.Length {
      return false;
    }
    m[i] := v;
    return true;
  }

  /** The writes of a STORE, in order, up to the first that fails. */
  method PerformTasks(heap: seq<array<Value>>, ts: seq<Task>) returns (fault: Option<Fault>)
    requires Distinct(heap)
    modifies set a | a in heap
    ensures var r := ApplyTasks(old(Contents(heap)), ts);
      Contents(heap) == r.mem && (if r.MemOk? then fault == None else fault == Some(r.fault))
  {
    var i := 0;
    while i < |ts|
      invariant 0 <= i <= |ts|
      invariant ApplyTasks(old(Contents(heap)), ts) == ApplyTasks(Contents(heap), ts[i..])
    {
      assert ts[i..][1..] == ts[i + 1..];
      match ts[i] {
        case Stop(e) =>
          return Some(e);
        case Write(h, o, v) =>
          if !h.BufV? || h.id >= |heap| {
            return Some(Malformed);
          }
          ghost var before := Contents(heap);
          ContentsAt(heap);
          var ok := StoreAt(heap[h.id], o, v);
          ContentsAt(heap);
          if !ok {
            assert Contents(heap) == before;
            return Some(OutOfBounds);
          }
          assert Contents(heap) == before[h.id := before[h.id][o := v]] by {
            forall k | 0 <= k < |heap| && k != h.id ensures heap[k][..] == before[k] {
              assert heap[k] != heap[h.id];
            }
          }
      }
      i := i + 1;
    }
    return None;
  }

  /** Raises every lane by one, lane by lane, into a new sequence. */
  method IncLanes(items: seq<Value>) returns (r: Result<seq<Value>>)
    ensures r == IncAll(items)
  {
    var lanes: seq<Value> := [];
    var j := 0;
    while j < |items|
      invariant 0 <= j <= |items| && |lanes| == j
      invariant forall k :: 0 <= k < j ==> Inc(items[k]) == Ok(lanes[k])
    {
      var x := Inc(items[j]);
      if x.Err? {
        return Err(x.fault);
      }
      lanes := lanes + [x.value];
      j := j + 1;
    }
    assert IncAll(items).Ok?;
    assert IncAll(items).value == lanes;
    return Ok(lanes);
  }

  /** Overwrites the destination's lanes one by one with the source's; fails
      when the source runs out of lanes first. */
  method CopyLanes(dest: seq<Value>, src: seq<Value>) returns (r: Option<seq<Value>>)
    ensures r.Some? <==> |src| >= |dest|
    ensures r.Some? ==> r.value == src[..|dest|]
  {
    var lanes := dest;
    var j := 0;
    while j < |dest|
      invariant 0 <= j <= |dest| && j <= |src| && |lanes| == |dest|
      invariant lanes[..j] == src[..j]
    {
      if j >= |src| {
        return None;
      }
      lanes := lanes[j := src[j]];
      j := j + 1;
    }
    return Some(lanes);
  }

  /** The contents of the caller's buffers are the first part of the memory. */
  lemma ContentsPrefix(heap: seq<array<Value>>, bufs: seq<array<Value>>)
    requires |bufs| <= |heap| && forall k :: 0 <= k < |bufs| ==> heap[k] == bufs[k]
    ensures Contents(heap)[..|bufs|] == Contents(bufs)
  {
    ContentsAt(heap);
    ContentsAt(bufs);
  }

  /** The context of one coordinate apart from the memory. */
  datatype Ctx = Ctx(pc: nat, ul: map<nat, nat>, dl: map<nat, DType>, objs: seq<Value>,
                     loopEnds: map<nat, nat>, pbufs: seq<nat>, pvals: seq<int>)

  function Full(c: Ctx, mem: seq<seq<Value>>): (s: State)
    ensures s.pc == c.pc && s.ul == c.ul && s.objs == c.objs && s.mem == mem
  {
    State(c.pc, c.ul, c.dl, c.objs, c.loopEnds, c.pbufs, c.pvals, mem)
  }

  function CtxOf(s: State): (c: Ctx)
    ensures Full(c, s.mem) == s
  {
    Ctx(s.pc, s.ul, s.dl, s.objs, s.loopEnds, s.pbufs, s.pvals)
  }

  /** How a step ended, the memory aside. */
  datatype StepOut = Continue(ctx: Ctx) | Halt(fault: Fault)

  function AsOutcome(r: StepOut, mem: seq<seq<Value>>): Outcome {
    match r
    case Continue(c) => Next(Full(c, mem))
    case Halt(e) => Abort(e, mem)
  }

  /** A RANGE revisit: the counter's lanes go up by one, then the exit test. */
  method RangeInPlace(t: State, c: nat, bound: Option<nat>) returns (r: StepOut)
    ensures RangeStep(t, c, bound) == AsOutcome(r, t.mem)
  {
    if c >= |t.objs| || !t.objs[c].ListV? {
      return Halt(Malformed);
    }
    var inc := IncLanes(t.objs[c].items);
    if inc.Err? {
      return Halt(inc.fault);
    }
    var lanes := inc.value;
    if |lanes| == 0 || bound.None? || bound.value >= |t.objs| {
      return Halt(Malformed);
    }
    var objs := t.objs[c := ListV(lanes)];
    var b := PyIndex(objs[bound.value], 0);
    if b.Err? {
      return Halt(b.fault);
    }
    var ctx := CtxOf(t).(objs := objs);
    if PyEq(lanes[0], b.value) {
      if t.pc !in t.loopEnds {
        return Halt(Malformed);
      }
      return Continue(ctx.(ul := t.ul - {t.pc}, pc := t.loopEnds[t.pc] + 1));
    }
    return Continue(ctx.(pc := t.pc + 1));
  }

  /** ASSIGN: the destination object takes the source's lanes, and this
      position names the destination object. */
  method AssignInPlace(t: State, d: nat, src: Option<nat>) returns (r: StepOut)
    ensures AssignStep(t, d, src) == AsOutcome(r, t.mem)
  {
    if d >= |t.objs| || !t.objs[d].ListV? {
      return Halt(Malformed);
    }
    var ctx := CtxOf(t);
    if |t.objs[d].items| > 0 {
      if src.None? || src.value >= |t.objs| || !t.objs[src.value].ListV? {
        return Halt(Malformed);
      }
      var lanes := CopyLanes(t.objs[d].items, t.objs[src.value].items);
      if lanes.None? {
        return Halt(Malformed);
      }
      ctx := ctx.(objs := t.objs[d := ListV(lanes.value)]);
    }
    return Continue(ctx.(ul := t.ul[t.pc := d], pc := t.pc + 1));
  }

  /** Every effect that leaves the buffers alone. */
  method ApplyPure(env: Env, s: State, ins: Instr, eff: Effect) returns (r: StepOut)
    requires !eff.Stores? && !eff.NewLocal?
    ensures Apply(env, s, ins, eff) == AsOutcome(r, s.mem)
  {
    var w := |env.warp|;
    var t := Typed(s, ins);
    var ctx := CtxOf(t);
    match eff {
      case Advance =>
        return Continue(CtxOf(s).(pc := s.pc + 1));
      case CloseLoop(o) =>
        return Continue(CtxOf(s).(loopEnds := s.loopEnds[o := s.pc], pc := o));
      case Define(v) =>
        return Continue(CtxOf(Bind(t, v)));
      case Share(o) =>
        return Continue(ctx.(ul := t.ul[t.pc := o], pc := t.pc + 1));
      case PopBuffer =>
        if t.pbufs == [] {
          return Halt(Malformed);
        }
        return Continue(CtxOf(Bind(t.(pbufs := t.pbufs[1..]), Broadcast(BufV(t.pbufs[0]), w))));
      case PopVar =>
        if t.pvals == [] {
          return Halt(Malformed);
        }
        return Continue(CtxOf(Bind(t.(pvals := t.pvals[1..]), Broadcast(IntV(t.pvals[0]), w))));
      case AssignTo(d, src) =>
        r := AssignInPlace(t, d, src);
      case RangeNext(c, bound) =>
        r := RangeInPlace(t, c, bound);
      case Check =>
        if t.pc !in t.ul {
          return Halt(Unresolved);
        }
        return Continue(ctx.(pc := t.pc + 1));
    }
  }

  /** STORE: the writes go to the arrays, in order, up to the first that fails. */
  method StoreStep(env: Env, s: State, ins: Instr, ts: seq<Task>, heap: seq<array<Value>>) returns (r: StepOut)
    requires Distinct(heap) && s.mem == Contents(heap)
    modifies set a | a in heap
    ensures Apply(env, s, ins, Stores(ts)) == AsOutcome(r, Contents(heap))
  {
    var fault := PerformTasks(heap, ts);
    if fault.Some? {
      return Halt(fault.value);
    }
    return Continue(CtxOf(s).(pc := s.pc + 1));
  }

  /** DEFINE_LOCAL: a fresh array of `n` zero elements joins the memory. */
  method LocalStep(env: Env, s: State, ins: Instr, n: nat, z: Value, heap: seq<array<Value>>)
    returns (r: StepOut, heap': seq<array<Value>>)
    requires Distinct(heap) && s.mem == Contents(heap)
    ensures |heap'| == |heap| + 1 && (forall k :: 0 <= k < |heap| ==> heap'[k] == heap[k])
    ensures Distinct(heap') && fresh(heap'[|heap|])
    ensures Apply(env, s, ins, NewLocal(n, z)) == AsOutcome(r, Contents(heap'))
  {
    var a := new Value[n](_ => z);
    assert a[..] == seq(n, _ => z);
    r := Continue(CtxOf(Bind(Typed(s, ins), Broadcast(BufV(|heap|), |env.warp|))));
    heap' := heap + [a];
    assert heap'[..|heap|] == heap;
    assert Contents(heap') == Contents(heap) + [a[..]];
  }

  /** One step: the effect the instruction decides on, performed on the
      context and, for STORE and DEFINE_LOCAL, on the buffers; the run
      from the old state is the run from the new one. */
  method ExecuteStep(prog: seq<Instr>, env: Env, ctx: Ctx, heap: seq<array<Value>>,
                     ghost mem: seq<seq<Value>>, ghost left: nat, ghost run: RunResult)
    returns (r: StepOut, heap': seq<array<Value>>, ghost mem': seq<seq<Value>>)
    requires ctx.pc < |prog| && Distinct(heap) && left > 0 && mem == Contents(heap)
    requires run == Exec(prog, env, left, Full(ctx, mem))
    modifies set a | a in heap
    ensures |heap'| >= |heap| && (forall k :: 0 <= k < |heap| ==> heap'[k] == heap[k])
    ensures Distinct(heap') && forall k :: |heap| <= k < |heap'| ==> fresh(heap'[k])
    ensures mem' == Contents(heap')
    ensures r.Continue? ==> run == Exec(prog, env, left - 1, Full(r.ctx, mem'))
    ensures r.Halt? ==> run == Aborted(r.fault, mem')
  {
    r, heap' := PerformStep(prog, env, ctx, heap);
    mem' := Contents(heap');
    match r {
      case Continue(c) => ExecNext(prog, env, left, Full(ctx, mem), Full(c, mem'));
      case Halt(e) => ExecAbort(prog, env, left, Full(ctx, mem), e, mem');
    }
  }

  /** The effect of the instruction at the program counter, carried out. */
  method PerformStep(prog: seq<Instr>, env: Env, ctx: Ctx, heap: seq<array<Value>>)
    returns (r: StepOut, heap': seq<array<Value>>)
    requires ctx.pc < |prog| && Distinct(heap)
    modifies set a | a in heap
    ensures |heap'| >= |heap| && (forall k :: 0 <= k < |heap| ==> heap'[k] == heap[k])
    ensures Distinct(heap') && forall k :: |heap| <= k < |heap'| ==> fresh(heap'[k])
    ensures Step(prog, env, Full(ctx, old(Contents(heap)))) == AsOutcome(r, Contents(heap'))
  {
    heap' := heap;
    var cur := Full(ctx, Contents(heap));
    var prep := Prepare(prog, env, cur);
    if prep.Err? {
      return Halt(prep.fault), heap;
    }
    var eff := prep.value;
    var ins := prog[ctx.pc];
    assert Step(prog, env, cur) == Apply(env, cur, ins, eff);
    if eff.Stores? {
      r := StoreStep(env, cur, ins, eff.tasks, heap);
    } else if eff.NewLocal? {
      r, heap' := LocalStep(env, cur, ins, eff.size, eff.zero, heap);
    } else {
      r := ApplyPure(env, cur, ins, eff);
    }
  }

  /** Where the instruction loop stops, the run has ended: in the fault
      met, past the last instruction, or with the budget spent. */
  lemma RunEnds(prog: seq<Instr>, env: Env, left: nat, s: State, halted: Option<Fault>, run: RunResult)
    requires halted.None? ==> run == Exec(prog, env, left, s)
    requires halted.Some? ==> run == Aborted(halted.value, s.mem)
    requires halted.Some? || s.pc >= |prog| || left == 0
    ensures ResultMem(run) == s.mem
    ensures StatusOf(run) == if halted.Some? then Failed(halted.value) else if s.pc >= |prog| then Completed else Exhausted
  {
    if halted.None? {
      if s.pc >= |prog| {
        ExecDone(prog, env, left, s);
      } else {
        ExecNoFuel(prog, env, s);
      }
    }
  }

  /** The instruction loop for one global coordinate, from a fresh context
      over the caller's buffers: ends as `Exec` ends, with the caller's
      buffers holding what `Exec` leaves in them. */
  method RunCoord(prog: seq<Instr>, env: Env, fuel: nat, bufs: seq<array<Value>>, vals: seq<int>)
    returns (status: Status)
    requires Distinct(bufs)
    modifies set a | a in bufs
    ensures var run := Exec(prog, env, fuel, Init(old(Contents(bufs)), vals));
      |ResultMem(run)| >= |bufs| && Contents(bufs) == ResultMem(run)[..|bufs|] && status == StatusOf(run)
  {
    ghost var mem := Contents(bufs);
    var heap := bufs;
    var ctx := Ctx(0, map[], map[], [], map[], seq(|bufs|, k => k), vals);
    assert Full(ctx, mem) == Init(mem, vals);
    ghost var run := Exec(prog, env, fuel, Full(ctx, mem));
    var steps: nat := 0;
    var halted: Option<Fault> := None;
    while halted.None? && ctx.pc < |prog| && steps < fuel
      invariant steps <= fuel
      invariant |heap| >= |bufs| && forall k :: 0 <= k < |bufs| ==> heap[k] == bufs[k]
      invariant Distinct(heap) && forall a :: a in heap ==> a in bufs || fresh(a)
      invariant mem == Contents(heap)
      invariant halted.None? ==> run == Exec(prog, env, fuel - steps, Full(ctx, mem))
      invariant halted.Some? ==> run == Aborted(halted.value, mem)
      decreases fuel - steps, if halted.None? then 1 else 0
    {
      var r;
      r, heap, mem := ExecuteStep(prog, env, ctx, heap, mem, fuel - steps, run);
      if r.Halt? {
        halted := Some(r.fault);
      } else {
        ctx := r.ctx;
        steps := steps + 1;
      }
    }
    status := if halted.Some? then Failed(halted.value) else if ctx.pc >= |prog| then Completed else Exhausted;
    RunEnds(prog, env, fuel - steps, Full(ctx, mem), halted, run);
    ContentsPrefix(heap, bufs);
  }

  /** The program as the device holds it: the decoded list of micro-ops. */
  class PythonProgram {
    const uops: seq<Instr>

    constructor (uops: seq<Instr>)
      ensures this.uops == uops
    {
      this.uops := uops;
    }

    /** Runs the program once per global coordinate over the caller's
        buffers; the buffers end as `Invoke` specifies, and the run stops at
        the first coordinate that fails. */
    method Call(ext: Ext, bufs: seq<array<Value>>, globalSize: seq<nat>, localSize: seq<nat>,
                vals: seq<int>, fuel: nat) returns (status: Status)
      requires Distinct(bufs)
      modifies set a | a in bufs
      ensures var g := Invoke(uops, ext, old(Contents(bufs)), vals, globalSize, localSize, fuel);
        Contents(bufs) == g.mem && status == GridStatus(g)
    {
      var warp := Warp(localSize);
      var coords := Grid.Product(Reverse(globalSize));
      ghost var m0 := Contents(bufs);
      var c := 0;
      while c < |coords|
        invariant 0 <= c <= |coords|
        invariant Invoke(uops, ext, m0, vals, globalSize, localSize, fuel)
               == RunGrid(uops, ext, warp, coords[c..], Contents(bufs), vals, fuel)
      {
        assert coords[c..][1..] == coords[c + 1..];
        var st := RunCoord(uops, Env(warp, coords[c], ext), fuel, bufs, vals);
        if !st.Completed? {
          return st;
        }
        c := c + 1;
      }
      return Completed;
    }
  }
}
