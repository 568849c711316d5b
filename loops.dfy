/** A counting loop run through the interpreter: an accumulator starts at 0
    and each pass of the body adds 1 to it, for a RANGE from `start` to
    `bound`:

      0: CONST 0      1: CONST start   2: CONST bound   3: CONST 1
      4: DEFINE_ACC (0)                5: RANGE (1, 2)
      6: ALU add (4, 3)                7: ASSIGN (4, 6)  8: ENDRANGE (5)

    With `start < bound` the run ends after `6 + 4 * (bound - start)`
    iterations of the interpreter loop with the accumulator at
    `bound - start` in every lane: the body runs once per value of the range.
    With `start >= bound` the body is entered anyway, because the first visit
    of RANGE does not compare with the bound, and the counter then climbs past
    the bound without ever equalling it, so the run never ends. */
module Loops {
  import opened Uops
  import opened Memory
  import opened Semantics

  /** `dtypes.int32` */
  const I32 := DType(IntKind(true), 4, 1, true, None)

  function Counting(start: int, bound: int): seq<Instr> {
    [ Instr(Const, Some(I32), [], Lit(IntV(0))),
      Instr(Const, Some(I32), [], Lit(IntV(start))),
      Instr(Const, Some(I32), [], Lit(IntV(bound))),
      Instr(Const, Some(I32), [], Lit(IntV(1))),
      Instr(DefineAcc, Some(I32), [0], NoArg),
      Instr(Range, Some(I32), [1, 2], NoArg),
      Instr(Alu, Some(I32), [4, 3], AluArg(Add)),
      Instr(Assign, Some(I32), [4, 6], NoArg),
      Instr(EndRange, None, [5], NoArg) ]
  }

  /** The same program, instruction by instruction. */
  predicate IsCounting(prog: seq<Instr>, start: int, bound: int) {
    && |prog| == 9
    && prog[0] == Instr(Const, Some(I32), [], Lit(IntV(0)))
    && prog[1] == Instr(Const, Some(I32), [], Lit(IntV(start)))
    && prog[2] == Instr(Const, Some(I32), [], Lit(IntV(bound)))
    && prog[3] == Instr(Const, Some(I32), [], Lit(IntV(1)))
    && prog[4] == Instr(DefineAcc, Some(I32), [0], NoArg)
    && prog[5] == Instr(Range, Some(I32), [1, 2], NoArg)
    && prog[6] == Instr(Alu, Some(I32), [4, 3], AluArg(Add))
    && prog[7] == Instr(Assign, Some(I32), [4, 6], NoArg)
    && prog[8] == Instr(EndRange, None, [5], NoArg)
  }

  /** The external ALU adds two 32-bit integers exactly (no overflow occurs
      in the runs considered). */
  ghost predicate AddsInts(ext: Ext) {
    forall x: seq<Value> :: |x| == 2 && x[0].IntV? && x[1].IntV? ==> ext.alu(Add, I32, x) == IntV(x[0].n + x[1].n)
  }

  /** Position `k` holds object `k`, of type int32. */
  predicate Slot(s: State, k: nat) {
    k in s.ul && s.ul[k] == k && k in s.dl && s.dl[k] == I32
  }

  /** The objects of the loop: the start, bound and step constants, the
      accumulator at `a` and the counter at `c`, in every one of `w` lanes. */
  predicate Frame(s: State, w: nat, start: int, bound: int, a: int, c: int) {
    && |s.objs| >= 6
    && s.objs[1] == Broadcast(IntV(start), w) && s.objs[2] == Broadcast(IntV(bound), w)
    && s.objs[3] == Broadcast(IntV(1), w) && s.objs[4] == Broadcast(IntV(a), w)
    && s.objs[5] == Broadcast(IntV(c), w)
    && Slot(s, 1) && Slot(s, 2) && Slot(s, 3) && Slot(s, 4) && Slot(s, 5)
  }


  lemma {:induction false} CountingShape(start: int, bound: int)
    ensures IsCounting(Counting(start, bound), start, bound)
  {
  }

  /** Gathering one operand that has a value. */
  lemma {:induction false} Gather1(prog: seq<Instr>, s: State, p: nat)
    requires p < |prog| && !IsVoid(prog[p].op) && p in s.ul && p in s.dl && s.ul[p] < |s.objs| && Plain(s.objs[s.ul[p]])
    ensures Gather(prog, s, [p]) == Ok(Operands([s.ul[p]], [s.objs[s.ul[p]]], [s.dl[p]]))
  {
    ResolvePlain(s.objs, s.objs[s.ul[p]], |s.objs|);
    assert [p][1..] == [];
    assert Gather(prog, s, []) == Ok(Operands([], [], []));
    assert [s.ul[p]] + [] == [s.ul[p]] && [s.objs[s.ul[p]]] + [] == [s.objs[s.ul[p]]] && [s.dl[p]] + [] == [s.dl[p]];
  }

  /** Gathering two operands that have values. */
  lemma {:induction false} Gather2(prog: seq<Instr>, s: State, p: nat, q: nat)
    requires p < |prog| && !IsVoid(prog[p].op) && p in s.ul && p in s.dl && s.ul[p] < |s.objs| && Plain(s.objs[s.ul[p]])
    requires q < |prog| && !IsVoid(prog[q].op) && q in s.ul && q in s.dl && s.ul[q] < |s.objs| && Plain(s.objs[s.ul[q]])
    ensures Gather(prog, s, [p, q]) == Ok(Operands([s.ul[p], s.ul[q]], [s.objs[s.ul[p]], s.objs[s.ul[q]]], [s.dl[p], s.dl[q]]))
  {
    assert [p, q][1..] == [q];
    Gather1(prog, s, q);
    ResolvePlain(s.objs, s.objs[s.ul[p]], |s.objs|);
    assert [s.ul[p]] + [s.ul[q]] == [s.ul[p], s.ul[q]];
    assert [s.objs[s.ul[p]]] + [s.objs[s.ul[q]]] == [s.objs[s.ul[p]], s.objs[s.ul[q]]];
    assert [s.dl[p]] + [s.dl[q]] == [s.dl[p], s.dl[q]];
  }

  /** An instruction that computes a value from its gathered operands. */
  lemma {:induction false} PrepareDecide(prog: seq<Instr>, env: Env, s: State, ops: Operands)
    requires s.pc < |prog| && prog[s.pc].dtype.Some? && !IsVoid(prog[s.pc].op) && prog[s.pc].op != DefineAcc
    requires Gather(prog, s, prog[s.pc].src) == Ok(ops)
    ensures |ops.vals| == |ops.types| == |ops.ids|
    ensures Prepare(prog, env, s) == Decide(env, s, prog[s.pc], prog[s.pc].dtype.value, ops)
  {
  }

  /** An instruction whose effect is to define a value binds it to a fresh
      object at its position. */
  lemma {:induction false} DefineNext(prog: seq<Instr>, env: Env, s: State, v: Value)
    requires s.pc < |prog| && prog[s.pc].dtype.Some? && Prepare(prog, env, s) == Ok(Define(v))
    ensures Step(prog, env, s) == Next(Bind(s.(dl := s.dl[s.pc := prog[s.pc].dtype.value]), v))
  {
  }

  /** CONST broadcasts its literal to a fresh object. */
  lemma {:induction false} ConstNext(prog: seq<Instr>, env: Env, s: State, dt: DType, v: Value)
    requires s.pc < |prog| && prog[s.pc] == Instr(Const, Some(dt), [], Lit(v))
    ensures Step(prog, env, s) == Next(Bind(s.(dl := s.dl[s.pc := dt]), Broadcast(v, |env.warp|)))
  {
    assert Prepare(prog, env, s) == Ok(Define(Broadcast(v, |env.warp|)));
    DefineNext(prog, env, s, Broadcast(v, |env.warp|));
  }

  /** DEFINE_ACC seeds the accumulator from lane 0 of the constant 0. */
  lemma {:induction false} AccNext(prog: seq<Instr>, env: Env, start: int, bound: int, s: State)
    requires IsCounting(prog, start, bound) && |env.warp| > 0 && s.pc == 4
    requires |s.objs| >= 1 && s.objs[0] == Broadcast(IntV(0), |env.warp|)
    requires 0 in s.ul && s.ul[0] == 0 && 0 in s.dl
    ensures Step(prog, env, s) == Next(Bind(s.(dl := s.dl[4 := I32]), Broadcast(IntV(0), |env.warp|)))
  {
    Gather1(prog, s, 0);
    assert Prepare(prog, env, s) == Ok(Define(Broadcast(IntV(0), |env.warp|)));
    DefineNext(prog, env, s, Broadcast(IntV(0), |env.warp|));
  }

  /** The first visit of RANGE starts the counter at lane 0 of `start`. */
  lemma {:induction false} FirstRangeNext(prog: seq<Instr>, env: Env, start: int, bound: int, s: State)
    requires IsCounting(prog, start, bound) && |env.warp| > 0 && s.pc == 5 && 5 !in s.ul
    requires |s.objs| >= 3 && s.objs[1] == Broadcast(IntV(start), |env.warp|) && s.objs[2] == Broadcast(IntV(bound), |env.warp|)
    requires 1 in s.ul && s.ul[1] == 1 && 1 in s.dl && 2 in s.ul && s.ul[2] == 2 && 2 in s.dl
    ensures Step(prog, env, s) == Next(Bind(s.(dl := s.dl[5 := I32]), Broadcast(IntV(start), |env.warp|)))
  {
    Gather2(prog, s, 1, 2);
    assert Prepare(prog, env, s) == Ok(Define(Broadcast(IntV(start), |env.warp|)));
    DefineNext(prog, env, s, Broadcast(IntV(start), |env.warp|));
  }

  /** The state after the ALU of the body: its sum `a + 1` is a fresh object. */
  predicate Summed(s: State, w: nat, start: int, bound: int, a: int, c: int) {
    && Frame(s, w, start, bound, a, c)
    && 6 in s.ul && 6 in s.dl && s.ul[6] < |s.objs| && s.objs[s.ul[6]] == Broadcast(IntV(a + 1), w)
  }

  /** `exec_alu` on every lane of two int32 operands, for an ALU that adds. */
  lemma {:induction false} AddLanes(ext: Ext, w: nat, a: int, ops: Operands)
    requires AddsInts(ext) && ops == Operands(ops.ids, [Broadcast(IntV(a), w), Broadcast(IntV(1), w)], [I32, I32]) && |ops.ids| == 2
    ensures AluValue(ext, I32, Add, ops) == Ok(Define(Broadcast(IntV(a + 1), w)))
  {
    var sum := ListV(seq(w, k requires 0 <= k < w => ext.alu(Add, I32, Column(ops.vals, k))));
    assert ZipLen(ops.vals) == w;
    assert AluValue(ext, I32, Add, ops) == Ok(Define(sum));
    assert sum == Broadcast(IntV(a + 1), w) by {
      forall k | 0 <= k < w ensures sum.items[k] == IntV(a + 1) {
        assert Column(ops.vals, k) == [IntV(a), IntV(1)];
      }
    }
  }

  /** The state after the ALU of the body. */
  function AfterAlu(s: State, w: nat, a: int): State {
    Bind(s.(dl := s.dl[6 := I32]), Broadcast(IntV(a + 1), w))
  }

  /** The ALU of the body reads the accumulator and the step. */
  lemma {:induction false} AluOperands(prog: seq<Instr>, env: Env, start: int, bound: int, s: State, a: int, c: int)
    requires IsCounting(prog, start, bound) && s.pc == 6 && Frame(s, |env.warp|, start, bound, a, c)
    ensures Prepare(prog, env, s) == Decide(env, s, Instr(Alu, Some(I32), [4, 3], AluArg(Add)), I32, Operands([4, 3], [s.objs[4], s.objs[3]], [I32, I32]))
  {
    Gather2(prog, s, 4, 3);
    PrepareDecide(prog, env, s, Operands([4, 3], [s.objs[4], s.objs[3]], [I32, I32]));
  }

  /** The ALU of the body on the accumulator and the step. */
  lemma {:induction false} AluDecide(env: Env, s: State, a: int, ops: Operands)
    requires AddsInts(env.ext)
    requires ops == Operands([4, 3], [Broadcast(IntV(a), |env.warp|), Broadcast(IntV(1), |env.warp|)], [I32, I32])
    ensures Decide(env, s, Instr(Alu, Some(I32), [4, 3], AluArg(Add)), I32, ops) == Ok(Define(Broadcast(IntV(a + 1), |env.warp|)))
  {
    assert Decide(env, s, Instr(Alu, Some(I32), [4, 3], AluArg(Add)), I32, ops) == AluValue(env.ext, I32, Add, ops);
    AddLanes(env.ext, |env.warp|, a, ops);
  }

  lemma {:induction false} AluPrepare(prog: seq<Instr>, env: Env, start: int, bound: int, s: State, a: int, c: int)
    requires IsCounting(prog, start, bound) && AddsInts(env.ext) && s.pc == 6 && Frame(s, |env.warp|, start, bound, a, c)
    ensures Prepare(prog, env, s) == Ok(Define(Broadcast(IntV(a + 1), |env.warp|)))
  {
    var ops := Operands([4, 3], [s.objs[4], s.objs[3]], [I32, I32]);
    AluOperands(prog, env, start, bound, s, a, c);
    AluDecide(env, s, a, ops);
  }

  /** ALU adds the step to every lane of the accumulator. */
  lemma {:induction false} AluNext(prog: seq<Instr>, env: Env, start: int, bound: int, s: State, a: int, c: int)
    requires IsCounting(prog, start, bound) && AddsInts(env.ext) && s.pc == 6 && Frame(s, |env.warp|, start, bound, a, c)
    ensures Step(prog, env, s) == Next(AfterAlu(s, |env.warp|, a))
  {
    AluPrepare(prog, env, start, bound, s, a, c);
    DefineNext(prog, env, s, Broadcast(IntV(a + 1), |env.warp|));
  }

  lemma {:induction false} AluFrame(s: State, w: nat, start: int, bound: int, a: int, c: int)
    requires s.pc == 6 && Frame(s, w, start, bound, a, c)
    ensures var t := AfterAlu(s, w, a);
      Summed(t, w, start, bound, a, c) && t.pc == 7 && t.mem == s.mem && t.loopEnds == s.loopEnds
  {
  }

  /** The state after the ASSIGN of the body. */
  function AfterAssign(s: State): State
    requires 6 in s.ul && s.ul[6] < |s.objs| && |s.objs| > 4
  {
    s.(dl := s.dl[7 := I32], objs := s.objs[4 := s.objs[s.ul[6]]], ul := s.ul[7 := 4], pc := 8)
  }

  /** ASSIGN copies the sum into the accumulator in place. */
  lemma {:induction false} AssignNext(prog: seq<Instr>, env: Env, start: int, bound: int, s: State, a: int, c: int)
    requires IsCounting(prog, start, bound) && s.pc == 7 && Summed(s, |env.warp|, start, bound, a, c)
    ensures Step(prog, env, s) == Next(AfterAssign(s))
  {
    var w := |env.warp|;
    var src := s.ul[6];
    var ops := Operands([4, src], [s.objs[4], s.objs[src]], [I32, s.dl[6]]);
    Gather2(prog, s, 4, 6);
    PrepareDecide(prog, env, s, ops);
    assert Prepare(prog, env, s) == Ok(AssignTo(4, Some(src)));
    assert s.objs[src].items[..w] == s.objs[src].items;
  }

  lemma {:induction false} AssignFrame(s: State, w: nat, start: int, bound: int, a: int, c: int)
    requires s.pc == 7 && Summed(s, w, start, bound, a, c)
    ensures var t := AfterAssign(s);
      Frame(t, w, start, bound, a + 1, c) && t.pc == 8 && t.mem == s.mem && t.loopEnds == s.loopEnds
  {
  }

  /** ENDRANGE records position 8 as the close of the loop opened at 5 and
      jumps back to 5. */
  lemma {:induction false} CloseNext(prog: seq<Instr>, env: Env, start: int, bound: int, s: State, a: int, c: int)
    requires IsCounting(prog, start, bound) && s.pc == 8 && Frame(s, |env.warp|, start, bound, a, c)
    ensures Step(prog, env, s) == Next(s.(loopEnds := s.loopEnds[5 := 8], pc := 5))
  {
    Gather1(prog, s, 5);
    assert Prepare(prog, env, s) == Ok(CloseLoop(5));
  }

  /** Incrementing every lane of a broadcast integer. */
  lemma {:induction false} IncBroadcast(c: int, w: nat)
    ensures IncAll(Broadcast(IntV(c), w).items) == Ok(Broadcast(IntV(c + 1), w).items)
  {
    var xs, ys := Broadcast(IntV(c), w).items, Broadcast(IntV(c + 1), w).items;
    assert forall k :: 0 <= k < |xs| ==> Inc(xs[k]) == Ok(ys[k]);
    var r := IncAll(xs);
    assert r.value == ys;
  }

  /** The state after a revisit of RANGE: the counter is at `c + 1`, and
      the loop is left when that is the bound. */
  function AfterRevisit(s: State, w: nat, bound: int, c: int): State
    requires |s.objs| > 5
  {
    var u := s.(dl := s.dl[5 := I32], objs := s.objs[5 := Broadcast(IntV(c + 1), w)]);
    if c + 1 == bound then u.(ul := u.ul - {5}, pc := 9) else u.(pc := 6)
  }

  /** A revisit of RANGE moves the counter to `c + 1` and leaves the loop
      exactly when that equals the bound. */
  lemma {:induction false} RevisitNext(prog: seq<Instr>, env: Env, start: int, bound: int, s: State, a: int, c: int)
    requires IsCounting(prog, start, bound) && |env.warp| > 0 && s.pc == 5 && Frame(s, |env.warp|, start, bound, a, c)
    requires 5 in s.loopEnds && s.loopEnds[5] == 8
    ensures Step(prog, env, s) == Next(AfterRevisit(s, |env.warp|, bound, c))
  {
    var w := |env.warp|;
    var ops := Operands([1, 2], [s.objs[1], s.objs[2]], [I32, I32]);
    Gather2(prog, s, 1, 2);
    PrepareDecide(prog, env, s, ops);
    assert Prepare(prog, env, s) == Ok(RangeNext(5, Some(2)));
    IncBroadcast(c, w);
    var u := s.(dl := s.dl[5 := I32]);
    assert Step(prog, env, s) == RangeStep(u, 5, Some(2));
    assert PyEq(IntV(c + 1), IntV(bound)) <==> c + 1 == bound;
  }

  lemma {:induction false} RevisitFrame(s: State, w: nat, start: int, bound: int, a: int, c: int)
    requires s.pc == 5 && Frame(s, w, start, bound, a, c)
    ensures var t := AfterRevisit(s, w, bound, c);
      && t.mem == s.mem && |t.objs| > 4 && t.objs[4] == s.objs[4]
      && (c + 1 == bound ==> t.pc == 9)
      && (c + 1 != bound ==> Frame(t, w, start, bound, a, c + 1) && t.pc == 6 && t.loopEnds == s.loopEnds)
  {
  }

  /** CONST, as one iteration of the run. */
  lemma {:induction false} ExecConst(prog: seq<Instr>, env: Env, fuel: nat, s: State, v: Value) returns (t: State)
    requires s.pc < |prog| && prog[s.pc] == Instr(Const, Some(I32), [], Lit(v)) && fuel > 0
    ensures Exec(prog, env, fuel, s) == Exec(prog, env, fuel - 1, t)
    ensures t == Bind(s.(dl := s.dl[s.pc := I32]), Broadcast(v, |env.warp|))
  {
    ConstNext(prog, env, s, I32, v);
    t := Bind(s.(dl := s.dl[s.pc := I32]), Broadcast(v, |env.warp|));
    ExecNext(prog, env, fuel, s, t);
  }

  /** The first two constants. */
  lemma {:induction false} FirstConstants(prog: seq<Instr>, env: Env, start: int, bound: int, fuel: nat, mem: seq<seq<Value>>, vals: seq<int>)
    returns (t: State)
    requires IsCounting(prog, start, bound) && fuel >= 2
    ensures Exec(prog, env, fuel, Init(mem, vals)) == Exec(prog, env, fuel - 2, t)
    ensures var w := |env.warp|;
      && t.objs == [Broadcast(IntV(0), w), Broadcast(IntV(start), w)]
      && t.ul == map[0 := 0][1 := 1] && t.dl == map[0 := I32][1 := I32]
      && t.pc == 2 && t.loopEnds == map[] && t.mem == mem
  {
    var s1 := ExecConst(prog, env, fuel, Init(mem, vals), IntV(0));
    t := ExecConst(prog, env, fuel - 1, s1, IntV(start));
  }

  /** The four constants. */
  lemma {:induction false} Constants(prog: seq<Instr>, env: Env, start: int, bound: int, fuel: nat, mem: seq<seq<Value>>, vals: seq<int>)
    returns (t: State)
    requires IsCounting(prog, start, bound) && fuel >= 4
    ensures Exec(prog, env, fuel, Init(mem, vals)) == Exec(prog, env, fuel - 4, t)
    ensures var w := |env.warp|;
      && t.objs == [Broadcast(IntV(0), w), Broadcast(IntV(start), w), Broadcast(IntV(bound), w), Broadcast(IntV(1), w)]
      && t.ul == map[0 := 0][1 := 1][2 := 2][3 := 3] && t.dl == map[0 := I32][1 := I32][2 := I32][3 := I32]
      && t.pc == 4 && t.loopEnds == map[] && t.mem == mem
  {
    var s2 := FirstConstants(prog, env, start, bound, fuel, mem, vals);
    var s3 := ExecConst(prog, env, fuel - 2, s2, IntV(bound));
    t := ExecConst(prog, env, fuel - 3, s3, IntV(1));
  }

  /** DEFINE_ACC, as one iteration of the run. */
  lemma {:induction false} ExecAcc(prog: seq<Instr>, env: Env, start: int, bound: int, fuel: nat, s: State) returns (t: State)
    requires IsCounting(prog, start, bound) && |env.warp| > 0 && s.pc == 4 && fuel > 0
    requires |s.objs| >= 1 && s.objs[0] == Broadcast(IntV(0), |env.warp|)
    requires 0 in s.ul && s.ul[0] == 0 && 0 in s.dl
    ensures Exec(prog, env, fuel, s) == Exec(prog, env, fuel - 1, t)
    ensures t == Bind(s.(dl := s.dl[4 := I32]), Broadcast(IntV(0), |env.warp|))
  {
    AccNext(prog, env, start, bound, s);
    t := Bind(s.(dl := s.dl[4 := I32]), Broadcast(IntV(0), |env.warp|));
    ExecNext(prog, env, fuel, s, t);
  }

  /** The first visit of RANGE, as one iteration of the run. */
  lemma {:induction false} ExecFirstRange(prog: seq<Instr>, env: Env, start: int, bound: int, fuel: nat, s: State) returns (t: State)
    requires IsCounting(prog, start, bound) && |env.warp| > 0 && s.pc == 5 && 5 !in s.ul && fuel > 0
    requires |s.objs| >= 3 && s.objs[1] == Broadcast(IntV(start), |env.warp|) && s.objs[2] == Broadcast(IntV(bound), |env.warp|)
    requires 1 in s.ul && s.ul[1] == 1 && 1 in s.dl && 2 in s.ul && s.ul[2] == 2 && 2 in s.dl
    ensures Exec(prog, env, fuel, s) == Exec(prog, env, fuel - 1, t)
    ensures t == Bind(s.(dl := s.dl[5 := I32]), Broadcast(IntV(start), |env.warp|))
  {
    FirstRangeNext(prog, env, start, bound, s);
    t := Bind(s.(dl := s.dl[5 := I32]), Broadcast(IntV(start), |env.warp|));
    ExecNext(prog, env, fuel, s, t);
  }

  /** The accumulator and the first visit of RANGE, which enters the body
      with the counter at `start` without a bound test. */
  lemma {:induction false} AccAndRange(prog: seq<Instr>, env: Env, start: int, bound: int, fuel: nat, s: State)
    returns (p: State)
    requires IsCounting(prog, start, bound) && |env.warp| > 0 && fuel >= 2
    requires var w := |env.warp|;
      && s.objs == [Broadcast(IntV(0), w), Broadcast(IntV(start), w), Broadcast(IntV(bound), w), Broadcast(IntV(1), w)]
      && s.ul == map[0 := 0][1 := 1][2 := 2][3 := 3] && s.dl == map[0 := I32][1 := I32][2 := I32][3 := I32]
      && s.pc == 4 && s.loopEnds == map[]
    ensures Exec(prog, env, fuel, s) == Exec(prog, env, fuel - 2, p)
    ensures Frame(p, |env.warp|, start, bound, 0, start) && p.pc == 6 && p.mem == s.mem
  {
    var s5 := ExecAcc(prog, env, start, bound, fuel, s);
    p := ExecFirstRange(prog, env, start, bound, fuel - 1, s5);
  }

  /** The constants, the accumulator and the first visit of RANGE. */
  lemma {:induction false} Prologue(prog: seq<Instr>, env: Env, start: int, bound: int, fuel: nat, mem: seq<seq<Value>>, vals: seq<int>)
    returns (p: State)
    requires IsCounting(prog, start, bound) && |env.warp| > 0 && fuel >= 6
    ensures Exec(prog, env, fuel, Init(mem, vals)) == Exec(prog, env, fuel - 6, p)
    ensures Frame(p, |env.warp|, start, bound, 0, start) && p.pc == 6 && p.mem == mem
  {
    var s4 := Constants(prog, env, start, bound, fuel, mem, vals);
    p := AccAndRange(prog, env, start, bound, fuel - 4, s4);
  }

  /** The ALU of the body, as one iteration of the run. */
  lemma {:induction false} ExecAlu(prog: seq<Instr>, env: Env, start: int, bound: int, fuel: nat, s: State, a: int, c: int)
    returns (t: State)
    requires IsCounting(prog, start, bound) && AddsInts(env.ext) && s.pc == 6 && Frame(s, |env.warp|, start, bound, a, c)
    requires fuel > 0
    ensures Exec(prog, env, fuel, s) == Exec(prog, env, fuel - 1, t)
    ensures Summed(t, |env.warp|, start, bound, a, c) && t.pc == 7 && t.mem == s.mem && t.loopEnds == s.loopEnds
  {
    AluNext(prog, env, start, bound, s, a, c);
    AluFrame(s, |env.warp|, start, bound, a, c);
    t := AfterAlu(s, |env.warp|, a);
    ExecNext(prog, env, fuel, s, t);
  }

  /** The ASSIGN of the body, as one iteration of the run. */
  lemma {:induction false} ExecAssign(prog: seq<Instr>, env: Env, start: int, bound: int, fuel: nat, s: State, a: int, c: int)
    returns (t: State)
    requires IsCounting(prog, start, bound) && s.pc == 7 && Summed(s, |env.warp|, start, bound, a, c)
    requires fuel > 0
    ensures Exec(prog, env, fuel, s) == Exec(prog, env, fuel - 1, t)
    ensures Frame(t, |env.warp|, start, bound, a + 1, c) && t.pc == 8 && t.mem == s.mem && t.loopEnds == s.loopEnds
  {
    AssignNext(prog, env, start, bound, s, a, c);
    AssignFrame(s, |env.warp|, start, bound, a, c);
    t := AfterAssign(s);
    ExecNext(prog, env, fuel, s, t);
  }

  /** The ENDRANGE of the body, as one iteration of the run. */
  lemma {:induction false} ExecClose(prog: seq<Instr>, env: Env, start: int, bound: int, fuel: nat, s: State, a: int, c: int)
    returns (t: State)
    requires IsCounting(prog, start, bound) && s.pc == 8 && Frame(s, |env.warp|, start, bound, a, c)
    requires fuel > 0
    ensures Exec(prog, env, fuel, s) == Exec(prog, env, fuel - 1, t)
    ensures Frame(t, |env.warp|, start, bound, a, c) && t.pc == 5 && t.mem == s.mem
    ensures 5 in t.loopEnds && t.loopEnds[5] == 8
  {
    CloseNext(prog, env, start, bound, s, a, c);
    t := s.(loopEnds := s.loopEnds[5 := 8], pc := 5);
    ExecNext(prog, env, fuel, s, t);
  }

  /** A revisit of RANGE, as one iteration of the run. */
  lemma {:induction false} ExecRevisit(prog: seq<Instr>, env: Env, start: int, bound: int, fuel: nat, s: State, a: int, c: int)
    returns (t: State)
    requires IsCounting(prog, start, bound) && |env.warp| > 0 && s.pc == 5 && Frame(s, |env.warp|, start, bound, a, c)
    requires 5 in s.loopEnds && s.loopEnds[5] == 8 && fuel > 0
    ensures Exec(prog, env, fuel, s) == Exec(prog, env, fuel - 1, t)
    ensures t.mem == s.mem && |t.objs| > 4 && t.objs[4] == s.objs[4]
    ensures c + 1 == bound ==> t.pc == 9
    ensures c + 1 != bound ==> Frame(t, |env.warp|, start, bound, a, c + 1) && t.pc == 6 && t.loopEnds == s.loopEnds
  {
    RevisitNext(prog, env, start, bound, s, a, c);
    RevisitFrame(s, |env.warp|, start, bound, a, c);
    t := AfterRevisit(s, |env.warp|, bound, c);
    ExecNext(prog, env, fuel, s, t);
  }

  /** The prologue and the first pass through the body, entered without a
      bound test, back to the loop head with the counter at `start`. */
  lemma {:induction false} FirstPass(prog: seq<Instr>, env: Env, start: int, bound: int, fuel: nat, mem: seq<seq<Value>>, vals: seq<int>)
    returns (h: State)
    requires IsCounting(prog, start, bound) && AddsInts(env.ext) && |env.warp| > 0 && fuel >= 9
    ensures Exec(prog, env, fuel, Init(mem, vals)) == Exec(prog, env, fuel - 9, h)
    ensures h.pc == 5 && Frame(h, |env.warp|, start, bound, 1, start) && h.mem == mem
    ensures 5 in h.loopEnds && h.loopEnds[5] == 8
  {
    var p := Prologue(prog, env, start, bound, fuel, mem, vals);
    h := Body(prog, env, start, bound, fuel - 6, p, 0, start);
  }

  /** One pass through the body, from ALU to ENDRANGE. */
  lemma {:induction false} Body(prog: seq<Instr>, env: Env, start: int, bound: int, fuel: nat, s: State, a: int, c: int)
    returns (t: State)
    requires IsCounting(prog, start, bound) && AddsInts(env.ext) && s.pc == 6 && Frame(s, |env.warp|, start, bound, a, c)
    requires fuel >= 3
    ensures Exec(prog, env, fuel, s) == Exec(prog, env, fuel - 3, t)
    ensures Frame(t, |env.warp|, start, bound, a + 1, c) && t.pc == 5 && t.mem == s.mem
    ensures 5 in t.loopEnds && t.loopEnds[5] == 8
  {
    var s1 := ExecAlu(prog, env, start, bound, fuel, s, a, c);
    var s2 := ExecAssign(prog, env, start, bound, fuel - 1, s1, a, c);
    t := ExecClose(prog, env, start, bound, fuel - 2, s2, a + 1, c);
  }

  /** From the loop head with the counter at `c < bound` and the accumulator
      at `c - start + 1`, the run ends with the accumulator at
      `bound - start`. */
  lemma {:induction false} Iterate(prog: seq<Instr>, env: Env, start: int, bound: int, fuel: nat, s: State, c: int)
    requires IsCounting(prog, start, bound) && AddsInts(env.ext) && |env.warp| > 0
    requires s.pc == 5 && Frame(s, |env.warp|, start, bound, c - start + 1, c) && 5 in s.loopEnds && s.loopEnds[5] == 8
    requires c < bound && fuel >= 4 * (bound - c) - 3
    ensures var r := Exec(prog, env, fuel, s);
      r.Done? && |r.s.objs| > 4 && r.s.objs[4] == Broadcast(IntV(bound - start), |env.warp|) && r.s.mem == s.mem
    decreases bound - c
  {
    var a := c - start + 1;
    var s1 := ExecRevisit(prog, env, start, bound, fuel, s, a, c);
    if c + 1 == bound {
      ExecDone(prog, env, fuel - 1, s1);
    } else {
      var s2 := Body(prog, env, start, bound, fuel - 1, s1, a, c + 1);
      Iterate(prog, env, start, bound, fuel - 4, s2, c + 1);
    }
  }

  /** From the loop head with the counter at or past the bound, fewer than
      four iterations end inside the body. */
  lemma {:induction false} ShortPass(prog: seq<Instr>, env: Env, start: int, bound: int, fuel: nat, s: State, a: int, c: int)
    requires IsCounting(prog, start, bound) && AddsInts(env.ext) && |env.warp| > 0
    requires s.pc == 5 && Frame(s, |env.warp|, start, bound, a, c) && 5 in s.loopEnds && s.loopEnds[5] == 8
    requires c >= bound && fuel < 4
    ensures Exec(prog, env, fuel, s).OutOfFuel?
  {
    if fuel == 0 {
      ExecNoFuel(prog, env, s);
    } else {
      var s1 := ExecRevisit(prog, env, start, bound, fuel, s, a, c);
      BodyCutOff(prog, env, start, bound, fuel - 1, s1, a, c + 1);
    }
  }

  /** From the loop head with the counter at or past the bound the loop
      never exits: the run is cut off wherever the budget ends. */
  lemma {:induction false} Diverge(prog: seq<Instr>, env: Env, start: int, bound: int, fuel: nat, s: State, a: int, c: int)
    requires IsCounting(prog, start, bound) && AddsInts(env.ext) && |env.warp| > 0
    requires s.pc == 5 && Frame(s, |env.warp|, start, bound, a, c) && 5 in s.loopEnds && s.loopEnds[5] == 8
    requires c >= bound
    ensures Exec(prog, env, fuel, s).OutOfFuel?
    decreases fuel
  {
    if fuel < 4 {
      ShortPass(prog, env, start, bound, fuel, s, a, c);
    } else {
      var s1 := ExecRevisit(prog, env, start, bound, fuel, s, a, c);
      var s2 := Body(prog, env, start, bound, fuel - 1, s1, a, c + 1);
      Diverge(prog, env, start, bound, fuel - 4, s2, a + 1, c + 1);
    }
  }

  /** Fewer than four iterations end among the constants. */
  lemma {:induction false} ConstantsCutOff(prog: seq<Instr>, env: Env, start: int, bound: int, fuel: nat, mem: seq<seq<Value>>, vals: seq<int>)
    requires IsCounting(prog, start, bound) && fuel < 4
    ensures Exec(prog, env, fuel, Init(mem, vals)).OutOfFuel?
  {
    var s0 := Init(mem, vals);
    if fuel == 0 {
      ExecNoFuel(prog, env, s0);
    } else {
      var s1 := ExecConst(prog, env, fuel, s0, IntV(0));
      if fuel == 1 {
        ExecNoFuel(prog, env, s1);
      } else {
        var s2 := ExecConst(prog, env, fuel - 1, s1, IntV(start));
        if fuel == 2 {
          ExecNoFuel(prog, env, s2);
        } else {
          var s3 := ExecConst(prog, env, fuel - 2, s2, IntV(bound));
          ExecNoFuel(prog, env, s3);
        }
      }
    }
  }

  /** After the constants, fewer than five iterations end before the loop
      head. */
  lemma {:induction false} FirstPassCutOff(prog: seq<Instr>, env: Env, start: int, bound: int, fuel: nat, s: State)
    requires IsCounting(prog, start, bound) && AddsInts(env.ext) && |env.warp| > 0 && fuel < 5
    requires var w := |env.warp|;
      && s.objs == [Broadcast(IntV(0), w), Broadcast(IntV(start), w), Broadcast(IntV(bound), w), Broadcast(IntV(1), w)]
      && s.ul == map[0 := 0][1 := 1][2 := 2][3 := 3] && s.dl == map[0 := I32][1 := I32][2 := I32][3 := I32]
      && s.pc == 4 && s.loopEnds == map[]
    ensures Exec(prog, env, fuel, s).OutOfFuel?
  {
    if fuel == 0 {
      ExecNoFuel(prog, env, s);
    } else if fuel == 1 {
      var s5 := ExecAcc(prog, env, start, bound, fuel, s);
      ExecNoFuel(prog, env, s5);
    } else {
      var p := AccAndRange(prog, env, start, bound, fuel, s);
      BodyCutOff(prog, env, start, bound, fuel - 2, p, 0, start);
    }
  }

  /** Fewer than three iterations end inside the body. */
  lemma {:induction false} BodyCutOff(prog: seq<Instr>, env: Env, start: int, bound: int, fuel: nat, s: State, a: int, c: int)
    requires IsCounting(prog, start, bound) && AddsInts(env.ext) && s.pc == 6 && Frame(s, |env.warp|, start, bound, a, c)
    requires fuel < 3
    ensures Exec(prog, env, fuel, s).OutOfFuel?
  {
    if fuel == 0 {
      ExecNoFuel(prog, env, s);
    } else {
      var s1 := ExecAlu(prog, env, start, bound, fuel, s, a, c);
      if fuel == 1 {
        ExecNoFuel(prog, env, s1);
      } else {
        var s2 := ExecAssign(prog, env, start, bound, fuel - 1, s1, a, c);
        ExecNoFuel(prog, env, s2);
      }
    }
  }

  /** `for i in range(start, bound)` with `start < bound` runs the body
      `bound - start` times and ends within `6 + 4 * (bound - start)`
      iterations, leaving memory as it was. */
  lemma {:induction false} CountsToBound(env: Env, start: int, bound: int, fuel: nat, mem: seq<seq<Value>>, vals: seq<int>)
    requires AddsInts(env.ext) && |env.warp| > 0 && start < bound && fuel >= 6 + 4 * (bound - start)
    ensures var r := Exec(Counting(start, bound), env, fuel, Init(mem, vals));
      r.Done? && |r.s.objs| > 4 && r.s.objs[4] == Broadcast(IntV(bound - start), |env.warp|) && r.s.mem == mem
  {
    var prog := Counting(start, bound);
    CountingShape(start, bound);
    var h := FirstPass(prog, env, start, bound, fuel, mem, vals);
    Iterate(prog, env, start, bound, fuel - 9, h, start);
  }

  /** With `start >= bound` the run never ends, whatever the budget. */
  lemma {:induction false} EmptyRangeNeverEnds(env: Env, start: int, bound: int, fuel: nat, mem: seq<seq<Value>>, vals: seq<int>)
    requires AddsInts(env.ext) && |env.warp| > 0 && start >= bound
    ensures Exec(Counting(start, bound), env, fuel, Init(mem, vals)).OutOfFuel?
  {
    var prog := Counting(start, bound);
    CountingShape(start, bound);
    if fuel < 4 {
      ConstantsCutOff(prog, env, start, bound, fuel, mem, vals);
    } else if fuel < 9 {
      var s4 := Constants(prog, env, start, bound, fuel, mem, vals);
      FirstPassCutOff(prog, env, start, bound, fuel - 4, s4);
    } else {
      var h := FirstPass(prog, env, start, bound, fuel, mem, vals);
      Diverge(prog, env, start, bound, fuel - 9, h, 1, start);
    }
  }
}
