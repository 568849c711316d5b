/** A loop counter read through a VECTORIZE list after the loop has ended:

      0: CONST 0        1: CONST 2        2: RANGE (0, 1)
      3: VECTORIZE (2, 2)                 4: ENDRANGE (2)
      5: GEP (3) component 0

    The list VECTORIZE builds holds the counter object itself, so the last
    increment of the counter, made by the RANGE revisit that leaves the
    loop, is seen through it: position 5 names the counter, which holds 2 in
    every lane when the run ends. A list of copies would still hold 1. */
module Sharing {
  import opened Uops
  import opened Semantics
  import opened Loops
  import Steps

  /** `dtypes.int32.vec(2)` */
  const I32x2 := DType(IntKind(true), 4, 2, true, None)

  function SharedCounter(): seq<Instr> {
    [ Instr(Const, Some(I32), [], Lit(IntV(0))),
      Instr(Const, Some(I32), [], Lit(IntV(2))),
      Instr(Range, Some(I32), [0, 1], NoArg),
      Instr(Vectorize, Some(I32x2), [2, 2], NoArg),
      Instr(EndRange, None, [2], NoArg),
      Instr(Gep, Some(I32), [3], Index([0])) ]
  }

  /** The same program, instruction by instruction. */
  predicate IsShared(prog: seq<Instr>) {
    && |prog| == 6
    && prog[0] == Instr(Const, Some(I32), [], Lit(IntV(0)))
    && prog[1] == Instr(Const, Some(I32), [], Lit(IntV(2)))
    && prog[2] == Instr(Range, Some(I32), [0, 1], NoArg)
    && prog[3] == Instr(Vectorize, Some(I32x2), [2, 2], NoArg)
    && prog[4] == Instr(EndRange, None, [2], NoArg)
    && prog[5] == Instr(Gep, Some(I32), [3], Index([0]))
  }

  /** The list VECTORIZE builds: the counter object, twice. */
  function Pack(): Value {
    ListV(Refs([2, 2]))
  }

  /** The state at the RANGE revisit after `passes` passes of the body: the
      start, the bound and the counter at `c` as objects 0, 1 and 2, and one
      VECTORIZE list per pass after them, the last one at position 3. */
  predicate Looping(s: State, w: nat, c: int, passes: nat) {
    && s.pc == 2 && passes > 0 && |s.objs| == 3 + passes
    && s.objs[0] == Broadcast(IntV(0), w) && s.objs[1] == Broadcast(IntV(2), w) && s.objs[2] == Broadcast(IntV(c), w)
    && (forall k :: 3 <= k < |s.objs| ==> s.objs[k] == Pack())
    && Slot(s, 0) && Slot(s, 1) && Slot(s, 2)
    && 3 in s.ul && s.ul[3] == |s.objs| - 1 && 3 in s.dl
    && 2 in s.loopEnds && s.loopEnds[2] == 4
  }

  /** The first visit of RANGE seeds the counter with lane 0 of the start. */
  lemma {:induction false} SeedNext(prog: seq<Instr>, env: Env, s: State)
    requires IsShared(prog) && |env.warp| > 0 && s.pc == 2 && 2 !in s.ul && |s.objs| >= 2
    requires s.objs[0] == Broadcast(IntV(0), |env.warp|) && s.objs[1] == Broadcast(IntV(2), |env.warp|)
    requires Slot(s, 0) && Slot(s, 1)
    ensures Step(prog, env, s) == Next(Bind(s.(dl := s.dl[2 := I32]), Broadcast(IntV(0), |env.warp|)))
  {
    Gather2(prog, s, 0, 1);
    var ops := Operands([0, 1], [s.objs[0], s.objs[1]], [I32, I32]);
    PrepareDecide(prog, env, s, ops);
    assert PyIndex(ops.vals[0], 0) == Ok(IntV(0));
    DefineNext(prog, env, s, Broadcast(IntV(0), |env.warp|));
  }

  /** VECTORIZE (2, 2) builds a list holding the counter object twice. */
  lemma {:induction false} PackNext(prog: seq<Instr>, env: Env, s: State)
    requires IsShared(prog) && s.pc == 3 && Slot(s, 2) && s.ul[2] < |s.objs| && Plain(s.objs[2])
    ensures Step(prog, env, s) == Next(Bind(s.(dl := s.dl[3 := I32x2]), Pack()))
  {
    Gather2(prog, s, 2, 2);
    var ops := Operands([2, 2], [s.objs[2], s.objs[2]], [I32, I32]);
    PrepareDecide(prog, env, s, ops);
    DefineNext(prog, env, s, Pack());
  }

  /** ENDRANGE (2) jumps back to the RANGE. */
  lemma {:induction false} CloseNext(prog: seq<Instr>, env: Env, s: State)
    requires IsShared(prog) && s.pc == 4 && Slot(s, 2) && s.ul[2] < |s.objs| && Plain(s.objs[2])
    ensures Step(prog, env, s) == Next(s.(loopEnds := s.loopEnds[2 := 4], pc := 2))
  {
    Gather1(prog, s, 2);
    Steps.EndRangeJumpsBack(prog, env, s);
  }

  /** A revisit of RANGE raises the counter from `c` to `c + 1` in place and
      leaves the loop exactly when that is the bound 2. */
  lemma {:induction false} CountNext(prog: seq<Instr>, env: Env, s: State, c: int)
    requires IsShared(prog) && |env.warp| > 0 && s.pc == 2 && |s.objs| >= 3
    requires s.objs[0] == Broadcast(IntV(0), |env.warp|) && s.objs[1] == Broadcast(IntV(2), |env.warp|)
    requires s.objs[2] == Broadcast(IntV(c), |env.warp|)
    requires Slot(s, 0) && Slot(s, 1) && Slot(s, 2) && 2 in s.loopEnds && s.loopEnds[2] == 4
    ensures var t := s.(dl := s.dl[2 := I32], objs := s.objs[2 := Broadcast(IntV(c + 1), |env.warp|)]);
      Step(prog, env, s) == Next(if c + 1 == 2 then t.(ul := s.ul - {2}, pc := 5) else t.(pc := 3))
  {
    var w := |env.warp|;
    Gather2(prog, s, 0, 1);
    var ops := Operands([0, 1], [s.objs[0], s.objs[1]], [I32, I32]);
    Steps.RevisitPrepare(prog, env, s, ops);
    Steps.StepApplies(prog, env, s, RangeNext(2, Some(1)));
    IncBroadcast(c, w);
    var objs := s.objs[2 := Broadcast(IntV(c + 1), w)];
    assert PyIndex(objs[1], 0) == Ok(IntV(2));
    assert PyEq(IntV(c + 1), IntV(2)) <==> c + 1 == 2;
  }

  /** The GEP's operand, gathered: the last VECTORIZE list, denoting the
      counter's lanes twice. */
  lemma {:induction false} GatherPack(prog: seq<Instr>, s: State)
    requires IsShared(prog) && |s.objs| == 5 && s.objs[4] == Pack() && Plain(s.objs[2])
    requires 3 in s.ul && s.ul[3] == 4 && 3 in s.dl
    ensures Gather(prog, s, [3]) == Ok(Operands([4], [ListV([s.objs[2], s.objs[2]])], [s.dl[3]]))
  {
    PackValue(s.objs);
    var x := ListV([s.objs[2], s.objs[2]]);
    assert !IsVoid(prog[3].op) && [3][1..] == [];
    assert Gather(prog, s, [3]) == Ok(Operands([4] + [], [x] + [], [s.dl[3]] + []));
    assert [4] + [] == [4] && [x] + [] == [x] && [s.dl[3]] + [] == [s.dl[3]];
  }

  /** GEP (3) component 0 of a VECTORIZE list names the counter object. */
  lemma {:induction false} SelectNext(prog: seq<Instr>, env: Env, s: State)
    requires IsShared(prog) && s.pc == 5 && |s.objs| == 5 && s.objs[4] == Pack() && Plain(s.objs[2])
    requires 3 in s.ul && s.ul[3] == 4 && 3 in s.dl
    ensures Step(prog, env, s) == Next(s.(dl := s.dl[5 := I32], ul := s.ul[5 := 2], pc := 6))
  {
    GatherPack(prog, s);
    var ops := Operands([4], [ListV([s.objs[2], s.objs[2]])], [s.dl[3]]);
    PrepareDecide(prog, env, s, ops);
    assert PyIndex(s.objs[4], 0) == Ok(RefV(2));
    assert Decide(env, s, prog[5], I32, ops) == Ok(Share(2));
    Steps.StepApplies(prog, env, s, Share(2));
  }

  /** The same steps as parts of the run: each hands the rest of `Exec` to
      the state after it. */
  lemma {:induction false} ExecSeed(prog: seq<Instr>, env: Env, fuel: nat, s: State) returns (t: State)
    requires IsShared(prog) && |env.warp| > 0 && fuel > 0 && s.pc == 2 && 2 !in s.ul && |s.objs| >= 2
    requires s.objs[0] == Broadcast(IntV(0), |env.warp|) && s.objs[1] == Broadcast(IntV(2), |env.warp|)
    requires Slot(s, 0) && Slot(s, 1)
    ensures Exec(prog, env, fuel, s) == Exec(prog, env, fuel - 1, t)
    ensures t == Bind(s.(dl := s.dl[2 := I32]), Broadcast(IntV(0), |env.warp|))
  {
    SeedNext(prog, env, s);
    t := Bind(s.(dl := s.dl[2 := I32]), Broadcast(IntV(0), |env.warp|));
    ExecNext(prog, env, fuel, s, t);
  }

  lemma {:induction false} ExecPack(prog: seq<Instr>, env: Env, fuel: nat, s: State) returns (t: State)
    requires IsShared(prog) && fuel > 0 && s.pc == 3 && Slot(s, 2) && s.ul[2] < |s.objs| && Plain(s.objs[2])
    ensures Exec(prog, env, fuel, s) == Exec(prog, env, fuel - 1, t)
    ensures t == Bind(s.(dl := s.dl[3 := I32x2]), Pack())
  {
    PackNext(prog, env, s);
    t := Bind(s.(dl := s.dl[3 := I32x2]), Pack());
    ExecNext(prog, env, fuel, s, t);
  }

  lemma {:induction false} ExecClose(prog: seq<Instr>, env: Env, fuel: nat, s: State) returns (t: State)
    requires IsShared(prog) && fuel > 0 && s.pc == 4 && Slot(s, 2) && s.ul[2] < |s.objs| && Plain(s.objs[2])
    ensures Exec(prog, env, fuel, s) == Exec(prog, env, fuel - 1, t)
    ensures t == s.(loopEnds := s.loopEnds[2 := 4], pc := 2)
  {
    CloseNext(prog, env, s);
    t := s.(loopEnds := s.loopEnds[2 := 4], pc := 2);
    ExecNext(prog, env, fuel, s, t);
  }

  lemma {:induction false} ExecCount(prog: seq<Instr>, env: Env, fuel: nat, s: State, c: int) returns (t: State)
    requires IsShared(prog) && |env.warp| > 0 && fuel > 0 && s.pc == 2 && |s.objs| >= 3
    requires s.objs[0] == Broadcast(IntV(0), |env.warp|) && s.objs[1] == Broadcast(IntV(2), |env.warp|)
    requires s.objs[2] == Broadcast(IntV(c), |env.warp|)
    requires Slot(s, 0) && Slot(s, 1) && Slot(s, 2) && 2 in s.loopEnds && s.loopEnds[2] == 4
    ensures Exec(prog, env, fuel, s) == Exec(prog, env, fuel - 1, t)
    ensures var u := s.(dl := s.dl[2 := I32], objs := s.objs[2 := Broadcast(IntV(c + 1), |env.warp|)]);
      t == if c + 1 == 2 then u.(ul := s.ul - {2}, pc := 5) else u.(pc := 3)
  {
    CountNext(prog, env, s, c);
    var u := s.(dl := s.dl[2 := I32], objs := s.objs[2 := Broadcast(IntV(c + 1), |env.warp|)]);
    t := if c + 1 == 2 then u.(ul := s.ul - {2}, pc := 5) else u.(pc := 3);
    ExecNext(prog, env, fuel, s, t);
  }

  lemma {:induction false} ExecSelect(prog: seq<Instr>, env: Env, fuel: nat, s: State) returns (t: State)
    requires IsShared(prog) && fuel > 0 && s.pc == 5 && |s.objs| == 5 && s.objs[4] == Pack() && Plain(s.objs[2])
    requires 3 in s.ul && s.ul[3] == 4 && 3 in s.dl
    ensures Exec(prog, env, fuel, s) == Done(t)
    ensures t == s.(dl := s.dl[5 := I32], ul := s.ul[5 := 2], pc := 6)
  {
    SelectNext(prog, env, s);
    t := s.(dl := s.dl[5 := I32], ul := s.ul[5 := 2], pc := 6);
    ExecNext(prog, env, fuel, s, t);
    ExecDone(prog, env, fuel - 1, t);
  }

  /** The first pass: the two constants, the first visit of RANGE seeding
      the counter with 0, the first VECTORIZE and the jump back. */
  lemma {:induction false} Enter(prog: seq<Instr>, env: Env, fuel: nat, mem: seq<seq<Value>>, vals: seq<int>) returns (t: State)
    requires IsShared(prog) && |env.warp| > 0 && fuel >= 5
    ensures Exec(prog, env, fuel, Init(mem, vals)) == Exec(prog, env, fuel - 5, t)
    ensures Looping(t, |env.warp|, 0, 1) && t.mem == mem
  {
    var s1 := ExecConst(prog, env, fuel, Init(mem, vals), IntV(0));
    var s2 := ExecConst(prog, env, fuel - 1, s1, IntV(2));
    var s3 := ExecSeed(prog, env, fuel - 2, s2);
    var s4 := ExecPack(prog, env, fuel - 3, s3);
    t := ExecClose(prog, env, fuel - 4, s4);
  }

  /** The revisit that finds the counter, now 1, short of the bound: the body
      runs again, with a second VECTORIZE list, and jumps back. */
  lemma {:induction false} Again(prog: seq<Instr>, env: Env, fuel: nat, s: State) returns (t: State)
    requires IsShared(prog) && |env.warp| > 0 && fuel >= 3 && Looping(s, |env.warp|, 0, 1)
    ensures Exec(prog, env, fuel, s) == Exec(prog, env, fuel - 3, t)
    ensures Looping(t, |env.warp|, 1, 2) && t.mem == s.mem
  {
    var s1 := ExecCount(prog, env, fuel, s, 0);
    var s2 := ExecPack(prog, env, fuel - 1, s1);
    t := ExecClose(prog, env, fuel - 2, s2);
  }

  /** The revisit that brings the counter to the bound leaves the loop; the
      GEP then names the counter object held in the last VECTORIZE list. */
  lemma {:induction false} Leave(prog: seq<Instr>, env: Env, fuel: nat, s: State) returns (u: State)
    requires IsShared(prog) && |env.warp| > 0 && fuel >= 2 && Looping(s, |env.warp|, 1, 2)
    ensures Exec(prog, env, fuel, s) == Done(u)
    ensures u.pc == 6 && 5 in u.ul && u.ul[5] == 2 && |u.objs| == 5 && u.mem == s.mem
    ensures u.objs[2] == Broadcast(IntV(2), |env.warp|)
  {
    var s1 := ExecCount(prog, env, fuel, s, 1);
    u := ExecSelect(prog, env, fuel - 1, s1);
  }

  /** With the counter at 2, the last VECTORIZE list denotes it twice. */
  lemma {:induction false} PackValue(objs: seq<Value>)
    requires |objs| == 5 && objs[4] == Pack() && Plain(objs[2])
    ensures Current(objs, 4) == Ok(ListV([objs[2], objs[2]]))
  {
    ResolvePlain(objs, objs[2], 4);
    ResolveRefs(objs, [2, 2], 4);
    assert Current(objs, 4).value.items == [objs[2], objs[2]];
  }

  /** The whole run: it ends, and position 5 names the counter object,
      whose lanes all hold 2, the value of its last increment. */
  lemma {:induction false} CounterSharedThroughGep(env: Env, fuel: nat, mem: seq<seq<Value>>, vals: seq<int>)
    requires |env.warp| > 0 && fuel >= 10
    ensures var r := Exec(SharedCounter(), env, fuel, Init(mem, vals));
      && r.Done? && r.s.mem == mem && 5 in r.s.ul && r.s.ul[5] < |r.s.objs|
      && Current(r.s.objs, r.s.ul[5]) == Ok(Broadcast(IntV(2), |env.warp|))
  {
    var prog := SharedCounter();
    assert IsShared(prog);
    var s := Enter(prog, env, fuel, mem, vals);
    var t := Again(prog, env, fuel - 5, s);
    var u := Leave(prog, env, fuel - 8, t);
    ResolvePlain(u.objs, u.objs[2], |u.objs|);
  }
}
