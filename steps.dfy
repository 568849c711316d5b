/** What one iteration of the interpreter loop does, instruction kind by
    instruction kind: the loop-control jumps of RANGE and ENDRANGE, the
    in-place update of ASSIGN, the seeding of DEFINE_ACC, the consumption of
    the caller's buffers and scalars, and the rule that every instruction
    that is not void leaves a value at its own position or aborts. */
module Steps {
  import opened Uops
  import opened Memory
  import opened Semantics

  /** A step whose instruction has decided on an effect carries it out. */
  lemma {:induction false} StepApplies(prog: seq<Instr>, env: Env, s: State, eff: Effect)
    requires s.pc < |prog| && Prepare(prog, env, s) == Ok(eff)
    ensures Step(prog, env, s) == Apply(env, s, prog[s.pc], eff)
  {
  }

  /** ENDRANGE records where its loop closes and jumps back to the RANGE
      that opened it. */
  lemma {:induction false} EndRangeJumpsBack(prog: seq<Instr>, env: Env, s: State)
    requires s.pc < |prog| && prog[s.pc].op == EndRange && |prog[s.pc].src| > 0
    requires Gather(prog, s, prog[s.pc].src).Ok?
    ensures var o := prog[s.pc].src[0];
      Step(prog, env, s) == Next(s.(loopEnds := s.loopEnds[o := s.pc], pc := o))
  {
  }

  /** STORE decides on the writes of its operands. */
  lemma {:induction false} StorePrepare(prog: seq<Instr>, env: Env, s: State, ops: Operands)
    requires s.pc < |prog| && prog[s.pc].op == Store && Gather(prog, s, prog[s.pc].src) == Ok(ops)
    ensures Prepare(prog, env, s) == Ok(Stores(StorePlan(ops.vals, ops.types)))
  {
  }

  /** STORE changes only the memory and moves on, or fails when a lane's
      write does. */
  lemma {:induction false} StoreStep(prog: seq<Instr>, env: Env, s: State, ops: Operands)
    requires s.pc < |prog| && prog[s.pc].op == Store && Gather(prog, s, prog[s.pc].src) == Ok(ops)
    ensures var out := ApplyTasks(s.mem, StorePlan(ops.vals, ops.types));
      && (out.MemOk? ==> Step(prog, env, s) == Next(s.(mem := out.mem, pc := s.pc + 1)))
      && (out.MemFault? ==> Step(prog, env, s) == Abort(out.fault, out.mem))
  {
    StorePrepare(prog, env, s, ops);
    StepApplies(prog, env, s, Stores(StorePlan(ops.vals, ops.types)));
  }

  /** The first visit of a RANGE: every lane of a fresh counter starts from
      lane 0 of the start value, and the body is entered without comparing
      against the bound. */
  lemma {:induction false} RangeFirstVisit(prog: seq<Instr>, env: Env, s: State, ops: Operands, x: Value)
    requires s.pc < |prog| && prog[s.pc].op == Range && prog[s.pc].dtype.Some? && s.pc !in s.ul
    requires Gather(prog, s, prog[s.pc].src) == Ok(ops) && |ops.vals| > 0 && PyIndex(ops.vals[0], 0) == Ok(x)
    ensures Step(prog, env, s).Next?
    ensures var t := Step(prog, env, s).s;
      && t.pc == s.pc + 1 && t.ul == s.ul[s.pc := |s.objs|] && t.mem == s.mem
      && |t.objs| == |s.objs| + 1 && t.objs[..|s.objs|] == s.objs
      && t.objs[|s.objs|].ListV? && |t.objs[|s.objs|].items| == |env.warp|
      && forall k :: 0 <= k < |env.warp| ==> t.objs[|s.objs|].items[k] == x
  {
    assert Step(prog, env, s) == Next(Bind(Typed(s, prog[s.pc]), Broadcast(x, |env.warp|)));
    assert (s.objs + [Broadcast(x, |env.warp|)])[..|s.objs|] == s.objs;
  }

  /** A revisit of a RANGE decides on the increment-and-test of its counter. */
  lemma {:induction false} RevisitPrepare(prog: seq<Instr>, env: Env, s: State, ops: Operands)
    requires s.pc < |prog| && prog[s.pc].op == Range && prog[s.pc].dtype.Some? && s.pc in s.ul
    requires Gather(prog, s, prog[s.pc].src) == Ok(ops) && |ops.ids| >= 2
    ensures Prepare(prog, env, s) == Ok(RangeNext(s.ul[s.pc], Some(ops.ids[1])))
  {
  }

  /** A revisit of a RANGE increments every lane of its counter in place,
      then compares lane 0 with lane 0 of the bound: on equality the counter
      is retired and control passes the loop's ENDRANGE, otherwise the body
      runs again. */
  lemma {:induction false} RangeRevisit(prog: seq<Instr>, env: Env, s: State, ops: Operands, lanes: seq<Value>, b: Value)
    requires s.pc < |prog| && prog[s.pc].op == Range && prog[s.pc].dtype.Some? && s.pc in s.ul
    requires Gather(prog, s, prog[s.pc].src) == Ok(ops) && |ops.ids| >= 2
    requires s.ul[s.pc] < |s.objs| && s.objs[s.ul[s.pc]].ListV?
    requires IncAll(s.objs[s.ul[s.pc]].items) == Ok(lanes) && |lanes| > 0
    requires ops.ids[1] < |s.objs| && PyIndex(s.objs[s.ul[s.pc] := ListV(lanes)][ops.ids[1]], 0) == Ok(b)
    requires s.pc in s.loopEnds
    ensures Step(prog, env, s).Next?
    ensures var t := Step(prog, env, s).s; var c := s.ul[s.pc];
      && t.objs == s.objs[c := ListV(lanes)] && t.mem == s.mem
      && (forall k :: 0 <= k < |lanes| ==> Inc(s.objs[c].items[k]) == Ok(lanes[k]))
      && (PyEq(lanes[0], b) ==> t.pc == s.loopEnds[s.pc] + 1 && t.ul == s.ul - {s.pc})
      && (!PyEq(lanes[0], b) ==> t.pc == s.pc + 1 && t.ul == s.ul)
  {
    var c := s.ul[s.pc];
    RevisitPrepare(prog, env, s, ops);
    StepApplies(prog, env, s, RangeNext(c, Some(ops.ids[1])));
  }

  /** ASSIGN overwrites the destination's lanes in place with the source's
      and yields the destination object itself: no object is created, and
      every position holding the destination sees the new lanes. */
  lemma {:induction false} AssignInPlace(prog: seq<Instr>, env: Env, s: State, ops: Operands)
    requires s.pc < |prog| && prog[s.pc].op == Assign && prog[s.pc].dtype.Some?
    requires Gather(prog, s, prog[s.pc].src) == Ok(ops) && |ops.ids| >= 2
    requires s.objs[ops.ids[0]].ListV? && s.objs[ops.ids[1]].ListV?
    requires |s.objs[ops.ids[0]].items| <= |s.objs[ops.ids[1]].items|
    ensures Step(prog, env, s).Next?
    ensures var t := Step(prog, env, s).s; var d := ops.ids[0];
      var n := |s.objs[d].items|; var lanes := s.objs[ops.ids[1]].items[..n];
      && |t.objs| == |s.objs| && t.objs == s.objs[d := ListV(lanes)]
      && t.ul == s.ul[s.pc := d] && t.pc == s.pc + 1 && t.mem == s.mem
      && forall p :: p in s.ul && s.ul[p] == d ==> p in t.ul && t.objs[t.ul[p]] == ListV(lanes)
  {
    var d := ops.ids[0];
    assert OperandsOf(s, ops);
    assert Prepare(prog, env, s) == Ok(AssignTo(d, Some(ops.ids[1])));
    var t := Typed(s, prog[s.pc]);
    assert Step(prog, env, s) == AssignStep(t, d, Some(ops.ids[1]));
    if |s.objs[d].items| == 0 {
      assert s.objs[ops.ids[1]].items[..0] == [] == s.objs[d].items;
      assert s.objs[d := ListV([])] == s.objs;
    }
  }

  /** DEFINE_ACC reads only its first operand and decides on its seed. */
  lemma {:induction false} AccPrepare(prog: seq<Instr>, env: Env, s: State)
    requires s.pc < |prog| && prog[s.pc].op == DefineAcc && |prog[s.pc].src| > 0 && prog[s.pc].dtype.Some?
    requires Prepare(prog, env, s).Ok?
    ensures Gather(prog, s, [prog[s.pc].src[0]]).Ok?
    ensures Prepare(prog, env, s)
         == AccSeed(prog[s.pc].dtype.value, Gather(prog, s, [prog[s.pc].src[0]]).value.vals, |env.warp|)
  {
  }

  /** The seed of an accumulator: every lane (of every component) is lane 0
      (of component 0) of the initial value. */
  lemma {:induction false} AccSeedLanes(dt: DType, vals: seq<Value>, w: nat)
    requires AccSeed(dt, vals, w).Ok?
    ensures AccSeed(dt, vals, w).value.Define?
    ensures var acc := AccSeed(dt, vals, w).value.v;
      && |vals| > 0 && vals[0].ListV? && |vals[0].items| > 0 && acc.ListV?
      && var x := vals[0].items[0];
      && (dt.count <= 1 ==> |acc.items| == w && forall k :: 0 <= k < w ==> acc.items[k] == x)
      && (dt.count > 1 ==>
            && x.ListV? && |x.items| > 0 && |acc.items| == dt.count
            && forall c :: 0 <= c < dt.count ==> acc.items[c] == Broadcast(x.items[0], w))
  {
  }

  /** DEFINE_ACC starts a fresh accumulator whose every lane, of every
      component, is lane 0 (of component 0) of its initial value. */
  lemma {:induction false} DefineAccSeeds(prog: seq<Instr>, env: Env, s: State)
    requires s.pc < |prog| && prog[s.pc].op == DefineAcc && |prog[s.pc].src| > 0 && prog[s.pc].dtype.Some?
    requires Step(prog, env, s).Next?
    ensures Gather(prog, s, [prog[s.pc].src[0]]).Ok?
    ensures var t := Step(prog, env, s).s; var ops := Gather(prog, s, [prog[s.pc].src[0]]).value;
      var dt := prog[s.pc].dtype.value; var w := |env.warp|;
      && |ops.vals| > 0 && ops.vals[0].ListV? && |ops.vals[0].items| > 0
      && t.pc == s.pc + 1 && t.ul == s.ul[s.pc := |s.objs|] && |t.objs| == |s.objs| + 1
      && t.objs[..|s.objs|] == s.objs && t.objs[|s.objs|].ListV?
      && var acc := t.objs[|s.objs|].items; var x := ops.vals[0].items[0];
      && (dt.count <= 1 ==> |acc| == w && forall k :: 0 <= k < w ==> acc[k] == x)
      && (dt.count > 1 ==>
            && x.ListV? && |x.items| > 0 && |acc| == dt.count
            && forall c :: 0 <= c < dt.count ==> acc[c] == Broadcast(x.items[0], w))
  {
    var ins := prog[s.pc];
    AccPrepare(prog, env, s);
    var ops := Gather(prog, s, [ins.src[0]]).value;
    var dt := ins.dtype.value;
    AccSeedLanes(dt, ops.vals, |env.warp|);
    var v := AccSeed(dt, ops.vals, |env.warp|).value.v;
    StepApplies(prog, env, s, Define(v));
    assert (s.objs + [v])[..|s.objs|] == s.objs;
  }

  /** DEFINE_GLOBAL takes the first caller buffer not yet consumed and
      broadcasts its handle to every lane; with none left the run fails. */
  lemma {:induction false} DefineGlobalPops(prog: seq<Instr>, env: Env, s: State)
    requires s.pc < |prog| && prog[s.pc].op == DefineGlobal && prog[s.pc].dtype.Some? && prog[s.pc].dtype.value.hasFmt
    requires Gather(prog, s, prog[s.pc].src).Ok?
    ensures s.pbufs == [] ==> Step(prog, env, s) == Abort(Malformed, s.mem)
    ensures s.pbufs != [] ==> Step(prog, env, s).Next?
    ensures s.pbufs != [] ==>
      var t := Step(prog, env, s).s;
      && t.pbufs == s.pbufs[1..] && t.pvals == s.pvals && t.mem == s.mem
      && t.objs == s.objs + [Broadcast(BufV(s.pbufs[0]), |env.warp|)]
      && t.ul == s.ul[s.pc := |s.objs|] && t.pc == s.pc + 1
  {
  }

  /** DEFINE_VAR takes the first scalar argument not yet consumed; with none
      left the run fails. */
  lemma {:induction false} DefineVarPops(prog: seq<Instr>, env: Env, s: State)
    requires s.pc < |prog| && prog[s.pc].op == DefineVar && prog[s.pc].dtype.Some?
    requires Gather(prog, s, prog[s.pc].src).Ok?
    ensures s.pvals == [] ==> Step(prog, env, s) == Abort(Malformed, s.mem)
    ensures s.pvals != [] ==> Step(prog, env, s).Next?
    ensures s.pvals != [] ==>
      var t := Step(prog, env, s).s;
      && t.pvals == s.pvals[1..] && t.pbufs == s.pbufs && t.mem == s.mem
      && t.objs == s.objs + [Broadcast(IntV(s.pvals[0]), |env.warp|)]
      && t.ul == s.ul[s.pc := |s.objs|] && t.pc == s.pc + 1
  {
  }

  /** DEFINE_LOCAL allocates a new zero-filled buffer of `arg[1]` elements
      after every existing one and broadcasts its handle. */
  lemma {:induction false} DefineLocalAllocates(prog: seq<Instr>, env: Env, s: State)
    requires s.pc < |prog| && prog[s.pc].op == DefineLocal && prog[s.pc].dtype.Some? && prog[s.pc].dtype.value.hasFmt
    requires prog[s.pc].arg.Local? && prog[s.pc].arg.size >= 0
    requires Gather(prog, s, prog[s.pc].src).Ok?
    ensures Step(prog, env, s).Next?
    ensures var t := Step(prog, env, s).s; var n := prog[s.pc].arg.size;
      && |t.mem| == |s.mem| + 1 && t.mem[..|s.mem|] == s.mem
      && |t.mem[|s.mem|]| == n && (forall k :: 0 <= k < n ==> t.mem[|s.mem|][k] == Zero(prog[s.pc].dtype.value))
      && t.objs == s.objs + [Broadcast(BufV(|s.mem|), |env.warp|)] && t.pc == s.pc + 1
  {
    var ins := prog[s.pc];
    var z := seq(ins.arg.size, _ => Zero(ins.dtype.value));
    assert Step(prog, env, s) == Next(Bind(Typed(s, ins).(mem := s.mem + [z]), Broadcast(BufV(|s.mem|), |env.warp|)));
    assert (s.mem + [z])[..|s.mem|] == s.mem;
  }

  /** The effects that leave a value at the current position. */
  predicate ValueEffect(eff: Effect) {
    eff.Define? || eff.Share? || eff.Check? || eff.PopBuffer? || eff.PopVar? || eff.NewLocal? || eff.AssignTo?
  }

  /** What an instruction that produces a value, other than RANGE, decides
      to do leaves a value; only DEFINE_LOCAL allocates. */
  lemma {:induction false} DecideValue(env: Env, s: State, ins: Instr, dt: DType, ops: Operands)
    requires |ops.vals| == |ops.types| == |ops.ids|
    requires !IsVoid(ins.op) && ins.op != Range
    ensures Decide(env, s, ins, dt, ops).Ok? ==> ValueEffect(Decide(env, s, ins, dt, ops).value)
    ensures Decide(env, s, ins, dt, ops).Ok? && Decide(env, s, ins, dt, ops).value.NewLocal? ==> ins.op == DefineLocal
  {
  }

  /** Carrying out such an effect types the position, gives it a value and
      moves to the next instruction. */
  lemma {:induction false} ApplyValue(env: Env, s: State, ins: Instr, eff: Effect)
    requires ins.dtype.Some? && ValueEffect(eff)
    ensures Apply(env, s, ins, eff).Next? ==>
      var t := Apply(env, s, ins, eff).s;
      && t.dl == s.dl[s.pc := ins.dtype.value] && s.pc in t.ul && t.pc == s.pc + 1
      && (!eff.NewLocal? ==> t.mem == s.mem)
  {
  }

  /** Such an instruction, when it does not raise first, has a result type
      and decides on an effect that leaves a value. */
  lemma {:induction false} PrepareValue(prog: seq<Instr>, env: Env, s: State)
    requires s.pc < |prog| && !IsVoid(prog[s.pc].op) && prog[s.pc].op != Range
    ensures Prepare(prog, env, s).Ok? ==>
      && prog[s.pc].dtype.Some? && ValueEffect(Prepare(prog, env, s).value)
      && (Prepare(prog, env, s).value.NewLocal? ==> prog[s.pc].op == DefineLocal)
  {
    var ins := prog[s.pc];
    if ins.op != DefineAcc || |ins.src| > 0 {
      var idp := if ins.op == DefineAcc then [ins.src[0]] else ins.src;
      if Gather(prog, s, idp).Ok? && ins.dtype.Some? {
        var ops := Gather(prog, s, idp).value;
        assert Prepare(prog, env, s) == Decide(env, s, ins, ins.dtype.value, ops);
        DecideValue(env, s, ins, ins.dtype.value, ops);
      }
    }
  }

  /** Every instruction that produces a value, other than RANGE, either aborts
      or leaves a value and its type at its own position and moves to the
      next instruction; only DEFINE_LOCAL adds memory. */
  lemma {:induction false} ProducesValue(prog: seq<Instr>, env: Env, s: State)
    requires s.pc < |prog| && !IsVoid(prog[s.pc].op) && prog[s.pc].op != Range
    ensures Step(prog, env, s).Next? ==>
      var t := Step(prog, env, s).s;
      && prog[s.pc].dtype.Some? && t.dl == s.dl[s.pc := prog[s.pc].dtype.value]
      && s.pc in t.ul && t.pc == s.pc + 1
      && (prog[s.pc].op != DefineLocal ==> t.mem == s.mem)
  {
    PrepareValue(prog, env, s);
    var prep := Prepare(prog, env, s);
    if prep.Ok? {
      StepApplies(prog, env, s, prep.value);
      ApplyValue(env, s, prog[s.pc], prep.value);
    }
  }

  /** RANGE either aborts, or enters the body with a counter at its own
      position, or retires its counter and passes the loop's ENDRANGE. */
  lemma {:induction false} RangeProducesValue(prog: seq<Instr>, env: Env, s: State)
    requires s.pc < |prog| && prog[s.pc].op == Range
    ensures Step(prog, env, s).Next? ==>
      var t := Step(prog, env, s).s;
      && prog[s.pc].dtype.Some? && t.mem == s.mem
      && ((s.pc in t.ul && t.pc == s.pc + 1) || (s.pc !in t.ul && s.pc in s.loopEnds && t.pc == s.loopEnds[s.pc] + 1))
  {
    var ins := prog[s.pc];
    if Step(prog, env, s).Next? {
      assert Gather(prog, s, ins.src).Ok?;
      assert ins.dtype.Some?;
    }
  }
}
