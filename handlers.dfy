/** The value-producing handlers that need no loop state: CONST, VECTORIZE,
    CAST, BITCAST, GEP, WMMA and ALU, and the guards around every handler
    (the result-type assertion, the pass-through of BARRIER, IF and ENDIF,
    and the final check that the position received a value). */
module Handlers {
  import opened Uops
  import opened Casts
  import opened Semantics
  import Steps

  /** BARRIER, IF and ENDIF only move the program counter on: the warp always runs
      in lockstep. */
  lemma {:induction false} SyncAdvances(prog: seq<Instr>, env: Env, s: State)
    requires s.pc < |prog| && (prog[s.pc].op == Barrier || prog[s.pc].op == If || prog[s.pc].op == EndIf)
    requires Gather(prog, s, prog[s.pc].src).Ok?
    ensures Step(prog, env, s) == Next(s.(pc := s.pc + 1))
  {
    assert Prepare(prog, env, s) == Ok(Advance);
    Steps.StepApplies(prog, env, s, Advance);
  }

  /** An instruction that is not void and has no result type aborts, with
      the memory unchanged. */
  lemma {:induction false} MissingTypeAborts(prog: seq<Instr>, env: Env, s: State)
    requires s.pc < |prog| && !IsVoid(prog[s.pc].op) && prog[s.pc].op != DefineAcc && prog[s.pc].dtype.None?
    requires Gather(prog, s, prog[s.pc].src).Ok?
    ensures Step(prog, env, s) == Abort(MissingType, s.mem)
  {
    assert Prepare(prog, env, s) == Err(MissingType);
  }

  /** An instruction for which the interpreter has no handler, and a SPECIAL
      whose name is neither global nor local, define nothing: the step
      succeeds only when the position already holds a value. */
  lemma {:induction false} NoValueChecked(prog: seq<Instr>, env: Env, s: State)
    requires s.pc < |prog| && prog[s.pc].dtype.Some?
    requires prog[s.pc].op == Noop || (prog[s.pc].op == Special && prog[s.pc].arg.Axis? &&
               |prog[s.pc].arg.name| > 0 && prog[s.pc].arg.name[0] != 'g' && prog[s.pc].arg.name[0] != 'l')
    requires Gather(prog, s, prog[s.pc].src).Ok?
    ensures s.pc !in s.ul ==> Step(prog, env, s) == Abort(Unresolved, s.mem)
    ensures s.pc in s.ul ==> Step(prog, env, s) == Next(s.(dl := s.dl[s.pc := prog[s.pc].dtype.value], pc := s.pc + 1))
  {
    assert Prepare(prog, env, s) == Ok(Check);
    Steps.StepApplies(prog, env, s, Check);
  }

  /** CONST broadcasts its literal to every lane. */
  lemma ConstBroadcasts(env: Env, s: State, ins: Instr, dt: DType, ops: Operands)
    requires |ops.vals| == |ops.types| == |ops.ids| && ins.op == Const
    ensures Decide(env, s, ins, dt, ops).Ok? <==> ins.arg.Lit?
    ensures ins.arg.Lit? ==> Decide(env, s, ins, dt, ops) == Ok(Define(Broadcast(ins.arg.v, |env.warp|)))
  {
  }

  /** VECTORIZE builds a new list that holds its operand objects themselves,
      one per component, not copies of them; at this moment it denotes the
      list of the operands' values. */
  lemma {:induction false} VectorizePacks(env: Env, s: State, ins: Instr, dt: DType, ops: Operands)
    requires OperandsOf(s, ops) && ins.op == Vectorize
    ensures Decide(env, s, ins, dt, ops) == Ok(Define(ListV(Refs(ops.ids))))
    ensures Resolve(s.objs, ListV(Refs(ops.ids)), |s.objs| + 1) == Ok(ListV(ops.vals))
  {
    ResolveRefs(s.objs, ops.ids, |s.objs|);
    var r := Resolve(s.objs, ListV(Refs(ops.ids)), |s.objs| + 1);
    assert forall k :: 0 <= k < |ops.ids| ==> Current(s.objs, ops.ids[k]) == Ok(ops.vals[k]);
    assert r.value.items == ops.vals;
  }

  /** The VECTORIZE step: one new object, the list of the operand objects,
      for this position. */
  lemma {:induction false} VectorizeStep(prog: seq<Instr>, env: Env, s: State, ops: Operands)
    requires s.pc < |prog| && prog[s.pc].op == Vectorize && prog[s.pc].dtype.Some?
    requires Gather(prog, s, prog[s.pc].src) == Ok(ops)
    ensures Step(prog, env, s).Next?
    ensures var t := Step(prog, env, s).s;
      && t.objs == s.objs + [ListV(Refs(ops.ids))] && t.ul == s.ul[s.pc := |s.objs|]
      && t.pc == s.pc + 1 && t.mem == s.mem
      && Current(t.objs, |s.objs|) == Ok(ListV(ops.vals))
  {
    var pack := ListV(Refs(ops.ids));
    var objs := s.objs + [pack];
    assert Prepare(prog, env, s) == Ok(Define(pack));
    Steps.StepApplies(prog, env, s, Define(pack));
    forall k | 0 <= k < |ops.ids|
      ensures Resolve(objs, objs[ops.ids[k]], |s.objs|) == Ok(ops.vals[k])
    {
      assert objs[ops.ids[k]] == s.objs[ops.ids[k]];
      ResolveExtend(s.objs, [pack], s.objs[ops.ids[k]], |s.objs|);
    }
    ResolveRefs(objs, ops.ids, |s.objs|);
    assert Resolve(objs, pack, |s.objs| + 1).value.items == ops.vals;
  }

  /** A VECTORIZE list goes on following its operand objects: whatever has
      been done to them in place since, what it denotes is the list of their
      current values. */
  lemma {:induction false} PackTracks(objs: seq<Value>, p: nat, ids: seq<nat>)
    requires p < |objs| && objs[p] == ListV(Refs(ids)) && forall k :: 0 <= k < |ids| ==> ids[k] < |objs|
    ensures Current(objs, p).Ok? ==>
      var r := Current(objs, p).value;
      r.ListV? && |r.items| == |ids| && forall k :: 0 <= k < |ids| ==> Current(objs, ids[k]) == Ok(r.items[k])
    ensures (forall k :: 0 <= k < |ids| ==> Plain(objs[ids[k]])) ==>
      Current(objs, p) == Ok(ListV(seq(|ids|, k requires 0 <= k < |ids| => objs[ids[k]])))
  {
    var f := |objs| - 1;
    ResolveRefs(objs, ids, f);
    if Current(objs, p).Ok? {
      forall k | 0 <= k < |ids|
        ensures Current(objs, ids[k]) == Resolve(objs, objs[ids[k]], f)
      {
        ResolveMore(objs, objs[ids[k]], f, f + 1);
      }
    }
    if forall k :: 0 <= k < |ids| ==> Plain(objs[ids[k]]) {
      forall k | 0 <= k < |ids|
        ensures Resolve(objs, objs[ids[k]], f) == Ok(objs[ids[k]])
      {
        ResolvePlain(objs, objs[ids[k]], f);
      }
      assert Current(objs, p).value.items == seq(|ids|, k requires 0 <= k < |ids| => objs[ids[k]]);
    }
  }

  /** An in-place update of one object that is not the VECTORIZE list itself
      shows through the list wherever the list holds that object. */
  lemma {:induction false} PackSeesUpdate(objs: seq<Value>, c: nat, x: Value, p: nat, ids: seq<nat>)
    requires c < |objs| && p < |objs| && p != c && objs[p] == ListV(Refs(ids)) && Plain(x)
    requires forall k :: 0 <= k < |ids| ==> ids[k] < |objs| && Plain(objs[ids[k]])
    ensures Current(objs[c := x], p) == Ok(ListV(seq(|ids|, k requires 0 <= k < |ids| => if ids[k] == c then x else objs[ids[k]])))
  {
    var objs' := objs[c := x];
    assert forall k :: 0 <= k < |ids| ==> objs'[ids[k]] == if ids[k] == c then x else objs[ids[k]];
    PackTracks(objs', p, ids);
    assert seq(|ids|, k requires 0 <= k < |ids| => objs'[ids[k]])
        == seq(|ids|, k requires 0 <= k < |ids| => if ids[k] == c then x else objs[ids[k]]);
  }

  /** A RANGE revisit that counts up an object held in a VECTORIZE list is
      seen through that list: afterwards the list denotes the incremented
      counter in every component that holds it. */
  lemma {:induction false} CounterSeenThroughPack(prog: seq<Instr>, env: Env, s: State, ops: Operands,
                                                 lanes: seq<Value>, b: Value, p: nat, ids: seq<nat>)
    requires s.pc < |prog| && prog[s.pc].op == Range && prog[s.pc].dtype.Some? && s.pc in s.ul
    requires Gather(prog, s, prog[s.pc].src) == Ok(ops) && |ops.ids| >= 2
    requires s.ul[s.pc] < |s.objs| && s.objs[s.ul[s.pc]].ListV?
    requires IncAll(s.objs[s.ul[s.pc]].items) == Ok(lanes) && |lanes| > 0
    requires ops.ids[1] < |s.objs| && PyIndex(s.objs[s.ul[s.pc] := ListV(lanes)][ops.ids[1]], 0) == Ok(b)
    requires s.pc in s.loopEnds
    requires p < |s.objs| && p != s.ul[s.pc] && s.objs[p] == ListV(Refs(ids))
    requires forall k :: 0 <= k < |ids| ==> ids[k] < |s.objs| && Plain(s.objs[ids[k]])
    ensures Step(prog, env, s).Next?
    ensures var t := Step(prog, env, s).s; var c := s.ul[s.pc];
      Current(t.objs, p) == Ok(ListV(seq(|ids|, k requires 0 <= k < |ids| => if ids[k] == c then ListV(lanes) else s.objs[ids[k]])))
  {
    var c := s.ul[s.pc];
    Steps.RangeRevisit(prog, env, s, ops, lanes, b);
    forall k | 0 <= k < |lanes|
      ensures Plain(lanes[k])
    {
      assert Inc(s.objs[c].items[k]) == Ok(lanes[k]);
    }
    PackSeesUpdate(s.objs, c, ListV(lanes), p, ids);
  }

  /** GEP takes component `arg[0]` of its operand, and the argument must be a
      one-element tuple naming a component that exists. A component that is
      an object of its own (one of a VECTORIZE list's operands) is not
      copied: the position names that very object. Either way the position
      denotes the component of the operand's value. */
  lemma {:induction false} GepSelects(env: Env, s: State, ins: Instr, dt: DType, ops: Operands)
    requires OperandsOf(s, ops) && ins.op == Gep
    ensures Decide(env, s, ins, dt, ops).Ok? <==>
      ins.arg.Index? && |ins.arg.idx| == 1 && |ops.ids| > 0 && PyIndex(s.objs[ops.ids[0]], ins.arg.idx[0]).Ok?
    ensures Decide(env, s, ins, dt, ops).Ok? ==>
      var x := PyIndex(s.objs[ops.ids[0]], ins.arg.idx[0]).value;
      && PyIndex(ops.vals[0], ins.arg.idx[0]).Ok?
      && var y := PyIndex(ops.vals[0], ins.arg.idx[0]).value;
      && (x.RefV? ==> x.obj < |s.objs| && Decide(env, s, ins, dt, ops) == Ok(Share(x.obj)) && Current(s.objs, x.obj) == Ok(y))
      && (!x.RefV? ==> Decide(env, s, ins, dt, ops) == Ok(Define(x)) && Resolve(s.objs, x, |s.objs|) == Ok(y))
  {
    if Decide(env, s, ins, dt, ops).Ok? {
      var n := |s.objs|;
      var raw := s.objs[ops.ids[0]];
      var j := ins.arg.idx[0];
      var i := if j < 0 then |raw.items| + j else j;
      assert Resolve(s.objs, raw, n) == Ok(ops.vals[0]);
      var xs := ResolveItems(s.objs, raw.items, n).value;
      assert ops.vals[0] == ListV(xs);
      assert Resolve(s.objs, raw.items[i], n) == Ok(xs[i]);
      if raw.items[i].RefV? {
        ResolveMore(s.objs, s.objs[raw.items[i].obj], n - 1, n);
      }
    }
  }

  /** GEP of a VECTORIZE list names the packed operand object itself: nothing
      is copied, so later in-place updates of that object are seen here too. */
  lemma {:induction false} GepOfPack(prog: seq<Instr>, env: Env, s: State, ops: Operands, ids: seq<nat>)
    requires s.pc < |prog| && prog[s.pc].op == Gep && prog[s.pc].dtype.Some?
    requires prog[s.pc].arg.Index? && |prog[s.pc].arg.idx| == 1 && -|ids| <= prog[s.pc].arg.idx[0] < |ids|
    requires Gather(prog, s, prog[s.pc].src) == Ok(ops) && |ops.ids| > 0 && s.objs[ops.ids[0]] == ListV(Refs(ids))
    ensures Step(prog, env, s).Next?
    ensures var t := Step(prog, env, s).s; var j := prog[s.pc].arg.idx[0];
      && t.objs == s.objs && t.ul == s.ul[s.pc := ids[if j < 0 then |ids| + j else j]]
      && t.pc == s.pc + 1 && t.mem == s.mem
  {
    var j := prog[s.pc].arg.idx[0];
    var o := ids[if j < 0 then |ids| + j else j];
    assert Prepare(prog, env, s) == Ok(Share(o));
    Steps.StepApplies(prog, env, s, Share(o));
  }

  /** WMMA hands the warp size, the operands and the device family to the
      tensor-core model. */
  lemma WmmaDelegates(env: Env, s: State, ins: Instr, dt: DType, ops: Operands)
    requires |ops.vals| == |ops.types| == |ops.ids| && ins.op == Wmma && ins.arg.Device?
    ensures Decide(env, s, ins, dt, ops) == Ok(Define(env.ext.wmma(|env.warp|, ops.vals, ins.arg.device)))
  {
  }

  /** CAST and BITCAST need a buffer format on both sides. */
  lemma CastNeedsFormats(env: Env, s: State, ins: Instr, dt: DType, ops: Operands)
    requires |ops.vals| == |ops.types| == |ops.ids| && (ins.op == Cast || ins.op == Bitcast)
    requires |ops.vals| > 0 && !(ops.types[0].hasFmt && dt.hasFmt)
    ensures Decide(env, s, ins, dt, ops) == Err(Unsupported)
  {
  }

  /** CAST to an integer type: one value per lane, lane `k` being the
      operand's lane `k` truncated to an integer and wrapped into the
      type's width. */
  lemma {:induction false} CastWraps(env: Env, s: State, ins: Instr, dt: DType, ops: Operands, k: nat)
    requires |ops.vals| == |ops.types| == |ops.ids| && ins.op == Cast && dt.kind.IntKind?
    requires Decide(env, s, ins, dt, ops).Ok? && k < |env.warp|
    ensures ops.vals[0].ListV? && |ops.vals[0].items| == |env.warp|
    ensures var eff := Decide(env, s, ins, dt, ops).value;
      && eff.Define? && eff.v.ListV? && |eff.v.items| == |env.warp|
      && PyInt(ops.vals[0].items[k]).Ok?
      && eff.v.items[k] == IntV(Wrap(PyInt(ops.vals[0].items[k]).value, dt.itemsize * 8, dt.kind.signed))
  {
    var eff := CastValue(env.ext, dt, ops, |env.warp|, false);
    assert Decide(env, s, ins, dt, ops) == eff;
    var xs := ops.vals[0].items;
    var ys := CastLanes(env.ext, dt, xs).value;
    assert eff == Ok(Define(ListV(ys)));
    assert CastLane(env.ext, dt, xs[k]) == Ok(ys[k]);
  }

  /** BITCAST between formats of different widths fails: the packed lanes
      do not unpack into the same number of lanes. */
  lemma BitcastWidths(env: Env, s: State, ins: Instr, dt: DType, ops: Operands)
    requires |ops.vals| == |ops.types| == |ops.ids| && ins.op == Bitcast && |ops.vals| > 0
    requires ops.types[0].hasFmt && dt.hasFmt && ops.vals[0].ListV? && |ops.vals[0].items| == |env.warp| > 0
    requires ops.types[0].itemsize != dt.itemsize
    ensures Decide(env, s, ins, dt, ops) == Err(Unsupported)
  {
  }

  /** ALU succeeds exactly on operands that are lane lists of one length
      and, unless the operation is a comparison or a select, of the result
      type; lane `k` is then `exec_alu` on lane `k` of every operand. */
  lemma {:induction false} AluLanes(env: Env, s: State, ins: Instr, dt: DType, ops: Operands)
    requires |ops.vals| == |ops.types| == |ops.ids| && ins.op == Alu && ins.arg.AluArg?
    ensures Decide(env, s, ins, dt, ops).Ok? <==>
      && AllLists(ops.vals)
      && (forall k :: 0 <= k < |ops.vals| ==> |ops.vals[k].items| == |ops.vals[0].items|)
      && ((forall k :: 0 <= k < |ops.vals| ==> ops.types[k] == dt) || MixedTypesAllowed(ins.arg.alu))
    ensures Decide(env, s, ins, dt, ops).Err? ==>
      Decide(env, s, ins, dt, ops).fault == (if AllLists(ops.vals) then ShapeMismatch else Malformed)
  {
    assert Decide(env, s, ins, dt, ops) == AluValue(env.ext, dt, ins.arg.alu, ops);
  }

  /** The lanes of a successful ALU. */
  lemma {:induction false} AluLane(env: Env, s: State, ins: Instr, dt: DType, ops: Operands, k: nat)
    requires |ops.vals| == |ops.types| == |ops.ids| > 0 && ins.op == Alu && ins.arg.AluArg?
    requires Decide(env, s, ins, dt, ops).Ok? && k < |ops.vals[0].items|
    ensures var eff := Decide(env, s, ins, dt, ops).value;
      && AllLists(ops.vals) && k < ZipLen(ops.vals)
      && eff.Define? && eff.v.ListV? && |eff.v.items| == |ops.vals[0].items|
      && eff.v.items[k] == env.ext.alu(ins.arg.alu, dt, Column(ops.vals, k))
  {
    assert Decide(env, s, ins, dt, ops) == AluValue(env.ext, dt, ins.arg.alu, ops);
    assert ZipLen(ops.vals) == |ops.vals[0].items|;
  }
}
