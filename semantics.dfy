/** The interpreter `PythonProgram.__call__` as a state machine: one step
    executes the instruction at the program counter, `Exec` runs one
    global coordinate to completion (within a step budget), `RunGrid` runs
    every coordinate in order over the shared caller memory.

    A step first gathers the operand values, then decides what the
    instruction does (`Prepare`, pure), then carries that out on the state
    (`Apply`). The imperative interpreter in module Interpreter performs the
    same effects in place and is proved to agree with `Exec`. */
module Semantics {
  import opened Uops
  import opened Memory
  import opened Casts
  import Grid

  /** The primitives the interpreter calls but does not define. */
  datatype Ext = Ext(
    alu: (AluOp, DType, seq<Value>) -> Value,          // exec_alu(arg, dtype, one lane's operands)
    wmma: (nat, seq<Value>, string) -> Value,          // TensorCoreLayout(warp_size, inp).wmma_model(arg[4])
    bitcast: (DType, DType, Value) -> Value,           // one lane packed in the source format, unpacked in the destination's
    floatCast: (DType, Value) -> Value)                // float(), truncate and the round trip through the format

  /** What stays fixed through one coordinate's run: the warp's lane
      coordinates, the global coordinate and the external primitives. */
  datatype Env = Env(warp: seq<seq<int>>, idxs: seq<int>, ext: Ext)

  /** The execution context of one coordinate, together with the memory. */
  datatype State = State(
    pc: nat,                  // the program counter `i`
    ul: map<nat, nat>,        // position -> the object holding its value
    dl: map<nat, DType>,      // position -> its result type
    objs: seq<Value>,         // the objects, by identity
    loopEnds: map<nat, nat>,  // loop-open position -> loop-close position
    pbufs: seq<nat>,          // the buffers not yet consumed
    pvals: seq<int>,          // the scalar arguments not yet consumed
    mem: seq<seq<Value>>)     // the contents of every buffer, the caller's first

  /** A fresh context for one coordinate over the caller's `n` buffers. */
  function Init(mem: seq<seq<Value>>, vals: seq<int>): (s: State)
    ensures s.pc == 0 && s.ul == map[] && s.dl == map[] && s.loopEnds == map[] && s.objs == [] && s.mem == mem && s.pvals == vals
    ensures s.pbufs == seq(|mem|, k => k)
  {
    State(0, map[], map[], [], map[], seq(|mem|, k => k), vals, mem)
  }

  /** The operands of an instruction: object ids, their values and types. */
  datatype Operands = Operands(ids: seq<nat>, vals: seq<Value>, types: seq<DType>)

  predicate OperandsOf(s: State, ops: Operands) {
    && |ops.ids| == |ops.vals| == |ops.types|
    && forall k :: 0 <= k < |ops.ids| ==> ops.ids[k] < |s.objs| && Current(s.objs, ops.ids[k]) == Ok(ops.vals[k])
  }

  /** What value `v` denotes when every shared element in it is replaced by
      the current contents of the object it names. Following more than
      `fuel` references in a row (only a list that contains itself needs
      that many) is an error. */
  function Resolve(objs: seq<Value>, v: Value, fuel: nat): (r: Result<Value>)
    ensures r.Ok? ==> Plain(r.value)
    ensures r.Ok? && v.ListV? ==> r.value.ListV? && |r.value.items| == |v.items|
    ensures r.Err? ==> r.fault == Malformed
    decreases fuel, v, 1
  {
    match v
    case RefV(o) => if fuel == 0 || o >= |objs| then Err(Malformed) else Resolve(objs, objs[o], fuel - 1)
    case ListV(items) =>
      (match ResolveItems(objs, items, fuel)
       case Err(e) => Err(e)
       case Ok(xs) => Ok(ListV(xs)))
    case _ => Ok(v)
  }

  function ResolveItems(objs: seq<Value>, items: seq<Value>, fuel: nat): (r: Result<seq<Value>>)
    ensures r.Ok? ==> |r.value| == |items| && forall k :: 0 <= k < |items| ==> Resolve(objs, items[k], fuel) == Ok(r.value[k])
    ensures r.Err? ==> r.fault == Malformed && exists k :: 0 <= k < |items| && Resolve(objs, items[k], fuel).Err?
    decreases fuel, items, 0
  {
    if items == [] then Ok([])
    else
      match Resolve(objs, items[0], fuel)
      case Err(e) => Err(e)
      case Ok(x) =>
        match ResolveItems(objs, items[1..], fuel)
        case Err(e) =>
          assert exists k :: 0 <= k < |items| - 1 && Resolve(objs, items[1..][k], fuel).Err?;
          Err(e)
        case Ok(rest) =>
          assert forall k :: 1 <= k < |items| ==> items[1..][k - 1] == items[k];
          Ok([x] + rest)
  }

  /** The current value of object `o`, as an instruction reading it sees it. */
  function Current(objs: seq<Value>, o: nat): Result<Value>
    requires o < |objs|
  {
    Resolve(objs, objs[o], |objs|)
  }

  /** A value with nothing shared in it denotes itself. */
  lemma {:induction false} ResolvePlain(objs: seq<Value>, v: Value, fuel: nat)
    requires Plain(v)
    ensures Resolve(objs, v, fuel) == Ok(v)
    decreases v, 1
  {
    if v.ListV? {
      ResolveItemsPlain(objs, v.items, fuel);
    }
  }

  lemma {:induction false} ResolveItemsPlain(objs: seq<Value>, items: seq<Value>, fuel: nat)
    requires forall k :: 0 <= k < |items| ==> Plain(items[k])
    ensures ResolveItems(objs, items, fuel) == Ok(items)
    decreases items, 0
  {
    if items != [] {
      ResolvePlain(objs, items[0], fuel);
      assert forall k :: 0 <= k < |items| - 1 ==> items[1..][k] == items[k + 1];
      ResolveItemsPlain(objs, items[1..], fuel);
      assert [items[0]] + items[1..] == items;
    }
  }

  /** Once the references in a value can be followed, allowing more of them
      in a row changes nothing. */
  lemma {:induction false} ResolveMore(objs: seq<Value>, v: Value, f: nat, g: nat)
    requires f <= g && Resolve(objs, v, f).Ok?
    ensures Resolve(objs, v, g) == Resolve(objs, v, f)
    decreases f, v, 1
  {
    match v
    case RefV(o) => ResolveMore(objs, objs[o], f - 1, g - 1);
    case ListV(items) => ResolveItemsMore(objs, items, f, g);
    case _ =>
  }

  lemma {:induction false} ResolveItemsMore(objs: seq<Value>, items: seq<Value>, f: nat, g: nat)
    requires f <= g && ResolveItems(objs, items, f).Ok?
    ensures ResolveItems(objs, items, g) == ResolveItems(objs, items, f)
    decreases f, items, 0
  {
    if items != [] {
      ResolveMore(objs, items[0], f, g);
      ResolveItemsMore(objs, items[1..], f, g);
    }
  }

  /** New objects after the existing ones change nothing a resolvable value
      denotes. */
  lemma {:induction false} ResolveExtend(objs: seq<Value>, more: seq<Value>, v: Value, f: nat)
    requires Resolve(objs, v, f).Ok?
    ensures Resolve(objs + more, v, f) == Resolve(objs, v, f)
    decreases f, v, 1
  {
    match v
    case RefV(o) =>
      assert (objs + more)[o] == objs[o];
      ResolveExtend(objs, more, objs[o], f - 1);
    case ListV(items) => ResolveItemsExtend(objs, more, items, f);
    case _ =>
  }

  lemma {:induction false} ResolveItemsExtend(objs: seq<Value>, more: seq<Value>, items: seq<Value>, f: nat)
    requires ResolveItems(objs, items, f).Ok?
    ensures ResolveItems(objs + more, items, f) == ResolveItems(objs, items, f)
    decreases f, items, 0
  {
    if items != [] {
      ResolveExtend(objs, more, items[0], f);
      ResolveItemsExtend(objs, more, items[1..], f);
    }
  }

  /** A list holding the objects `ids` themselves denotes the list of their
      values: it resolves exactly when each of them does, and component `k`
      is then the value of object `ids[k]`. */
  lemma {:induction false} ResolveRefs(objs: seq<Value>, ids: seq<nat>, f: nat)
    requires forall k :: 0 <= k < |ids| ==> ids[k] < |objs|
    ensures Resolve(objs, ListV(Refs(ids)), f + 1).Ok? <==> forall k :: 0 <= k < |ids| ==> Resolve(objs, objs[ids[k]], f).Ok?
    ensures Resolve(objs, ListV(Refs(ids)), f + 1).Ok? ==>
      var r := Resolve(objs, ListV(Refs(ids)), f + 1).value;
      r.ListV? && |r.items| == |ids| && forall k :: 0 <= k < |ids| ==> Resolve(objs, objs[ids[k]], f) == Ok(r.items[k])
  {
    var refs := Refs(ids);
    forall k | 0 <= k < |ids|
      ensures Resolve(objs, refs[k], f + 1) == Resolve(objs, objs[ids[k]], f)
    {
    }
  }

  /** `inp` and `dtp`: the values and types of the operands that are not
      void instructions, in operand order. */
  function Gather(prog: seq<Instr>, s: State, idp: seq<nat>): (r: Result<Operands>)
    ensures r.Ok? ==> OperandsOf(s, r.value)
    ensures r.Ok? ==> |r.value.ids| <= |idp|
    decreases |idp|
  {
    if idp == [] then Ok(Operands([], [], []))
    else
      var v := idp[0];
      if v >= |prog| then Err(Malformed)
      else if IsVoid(prog[v].op) then Gather(prog, s, idp[1..])
      else if v !in s.ul || v !in s.dl || s.ul[v] >= |s.objs| then Err(Unresolved)
      else
        match Current(s.objs, s.ul[v])
        case Err(e) => Err(e)
        case Ok(x) =>
          match Gather(prog, s, idp[1..])
          case Err(e) => Err(e)
          case Ok(rest) =>
            Ok(Operands([s.ul[v]] + rest.ids, [x] + rest.vals, [s.dl[v]] + rest.types))
  }

  /** The operand positions that `inp` and `dtp` keep: every entry of `idp`
      except those naming a void instruction, in order. */
  function Live(prog: seq<Instr>, idp: seq<nat>): (r: seq<nat>)
    ensures |r| <= |idp|
  {
    if idp == [] then []
    else (if idp[0] < |prog| && IsVoid(prog[idp[0]].op) then [] else [idp[0]]) + Live(prog, idp[1..])
  }

  /** Operand position `v` can be read: it exists, and it is void or holds a
      typed object whose current value can be formed. */
  predicate Readable(prog: seq<Instr>, s: State, v: nat) {
    v < |prog| && (IsVoid(prog[v].op) || (v in s.ul && v in s.dl && s.ul[v] < |s.objs| && Current(s.objs, s.ul[v]).Ok?))
  }

  /** The error reading an unreadable position raises: an unknown
      instruction or a value that cannot be formed is malformed, an operand
      that has no value yet is unresolved. */
  function ReadFault(prog: seq<Instr>, s: State, v: nat): Fault {
    if v >= |prog| then Malformed
    else if v !in s.ul || v !in s.dl || s.ul[v] >= |s.objs| then Unresolved
    else Malformed
  }

  /** Gathering succeeds exactly when every operand position can be read. */
  lemma {:induction false} GatherOk(prog: seq<Instr>, s: State, idp: seq<nat>)
    ensures Gather(prog, s, idp).Ok? <==> forall k :: 0 <= k < |idp| ==> Readable(prog, s, idp[k])
    decreases |idp|
  {
    if idp != [] {
      GatherOk(prog, s, idp[1..]);
      assert forall k :: 1 <= k < |idp| ==> idp[1..][k - 1] == idp[k];
    }
  }

  /** Entry `k` of the gathered operands is the object, the type and the
      current value of kept position `live[k]`. */
  predicate KeptAt(s: State, ops: Operands, live: seq<nat>, k: int) {
    && 0 <= k < |live| && k < |ops.ids| && k < |ops.vals| && k < |ops.types|
    && live[k] in s.ul && live[k] in s.dl && ops.ids[k] == s.ul[live[k]] && ops.types[k] == s.dl[live[k]]
    && ops.ids[k] < |s.objs| && Current(s.objs, ops.ids[k]) == Ok(ops.vals[k])
  }

  /** A successful gathering holds, for each kept position in order, its
      object, that object's current value and the position's type. */
  lemma {:induction false} GatherLive(prog: seq<Instr>, s: State, idp: seq<nat>)
    requires Gather(prog, s, idp).Ok?
    ensures var ops, live := Gather(prog, s, idp).value, Live(prog, idp);
      && |ops.ids| == |ops.vals| == |ops.types| == |live|
      && forall k :: 0 <= k < |live| ==> KeptAt(s, ops, live, k)
    decreases |idp|
  {
    if idp != [] {
      var v, tail := idp[0], idp[1..];
      GatherLive(prog, s, tail);
      var ops, rest := Gather(prog, s, idp).value, Gather(prog, s, tail).value;
      var live, lt := Live(prog, idp), Live(prog, tail);
      if IsVoid(prog[v].op) {
        assert ops == rest && live == [] + lt;
        assert live == lt;
      } else {
        assert live == [v] + lt;
        assert ops.ids == [s.ul[v]] + rest.ids && ops.vals[1..] == rest.vals && ops.types == [s.dl[v]] + rest.types;
        forall k | 0 <= k < |live|
          ensures KeptAt(s, ops, live, k)
        {
          if k > 0 {
            assert KeptAt(s, rest, lt, k - 1);
            assert live[k] == lt[k - 1] && ops.ids[k] == rest.ids[k - 1] && ops.types[k] == rest.types[k - 1];
            assert ops.vals[k] == rest.vals[k - 1];
          }
        }
      }
    }
  }

  /** Position `k` of `idp` is the first one that cannot be read. */
  predicate FirstUnreadable(prog: seq<Instr>, s: State, idp: seq<nat>, k: int) {
    0 <= k < |idp| && !Readable(prog, s, idp[k]) && forall i :: 0 <= i < k ==> Readable(prog, s, idp[i])
  }

  /** A failed gathering fails with the error of the first position that
      cannot be read. */
  lemma {:induction false} GatherFault(prog: seq<Instr>, s: State, idp: seq<nat>)
    requires Gather(prog, s, idp).Err?
    ensures exists k :: FirstUnreadable(prog, s, idp, k) && Gather(prog, s, idp).fault == ReadFault(prog, s, idp[k])
    decreases |idp|
  {
    var v, tail := idp[0], idp[1..];
    if Readable(prog, s, v) {
      GatherFault(prog, s, tail);
      var k :| FirstUnreadable(prog, s, tail, k) && Gather(prog, s, tail).fault == ReadFault(prog, s, tail[k]);
      assert forall i :: 1 <= i < k + 1 ==> idp[i] == tail[i - 1];
      assert FirstUnreadable(prog, s, idp, k + 1);
    } else {
      assert FirstUnreadable(prog, s, idp, 0);
    }
  }

  /** What an instruction does to the state. */
  datatype Effect =
    | Advance                                // BARRIER, IF, ENDIF
    | CloseLoop(open: nat)                   // ENDRANGE
    | Stores(tasks: seq<Task>)               // STORE
    | Define(v: Value)                       // a fresh object for this position
    | Share(obj: nat)                        // GEP of a shared element: this position names that object
    | PopBuffer                              // DEFINE_GLOBAL
    | PopVar                                 // DEFINE_VAR
    | NewLocal(size: nat, zero: Value)       // DEFINE_LOCAL
    | AssignTo(dest: nat, src: Option<nat>)  // ASSIGN
    | RangeNext(counter: nat, bound: Option<nat>) // RANGE on a revisit
    | Check                                  // no handler: only `assert i in ul`

  /** The zero element of a freshly allocated buffer. */
  function Zero(dt: DType): Value {
    match dt.kind
    case IntKind(_) => IntV(0)
    case FloatKind => FloatV(0.0)
    case BoolKind => BoolV(false)
  }

  /** Coordinate `k` of every lane of the warp. */
  function Coords(warp: seq<seq<int>>, k: int): (r: Result<seq<Value>>)
    ensures r.Ok? <==> forall l :: 0 <= l < |warp| ==> TupleIndex(warp[l], k).Ok?
    ensures r.Ok? ==> |r.value| == |warp|
    ensures r.Ok? ==> forall l :: 0 <= l < |warp| ==> r.value[l] == IntV(TupleIndex(warp[l], k).value)
    decreases |warp|
  {
    if warp == [] then Ok([])
    else
      match TupleIndex(warp[0], k)
      case Err(e) => Err(e)
      case Ok(c) =>
        match Coords(warp[1..], k)
        case Err(e) =>
          assert exists l :: 0 <= l < |warp| - 1 && TupleIndex(warp[1..][l], k).Err?;
          Err(e)
        case Ok(rest) =>
          assert forall l :: 1 <= l < |warp| ==> warp[1..][l - 1] == warp[l];
          Ok([IntV(c)] + rest)
  }

  /** SPECIAL: "g<d>" broadcasts the global index along axis d, "l<d>" takes
      each lane's local index along axis d; any other name defines nothing. */
  function SpecialValue(env: Env, arg: Arg): Result<Effect> {
    if !arg.Axis? || |arg.name| == 0 then Err(Malformed)
    else
      var name := arg.name;
      if name[0] == 'g' then
        match Digit(name[|name| - 1])
        case Err(e) => Err(e)
        case Ok(d) =>
          match TupleIndex(env.idxs, 2 - d)
          case Err(e) => Err(e)
          case Ok(g) => Ok(Define(Broadcast(IntV(g), |env.warp|)))
      else if name[0] == 'l' then
        if env.warp == [] then Ok(Define(ListV([])))
        else
          match Digit(name[|name| - 1])
          case Err(e) => Err(e)
          case Ok(d) =>
            match Coords(env.warp, 2 - d)
            case Err(e) => Err(e)
            case Ok(lanes) => Ok(Define(ListV(lanes)))
      else Ok(Check)
  }

  /** DEFINE_ACC: every lane (of every component) starts from lane 0 of the
      initial operand (of its component 0). */
  function AccSeed(dt: DType, vals: seq<Value>, w: nat): Result<Effect> {
    if |vals| == 0 then Err(Malformed)
    else
      match PyIndex(vals[0], 0)
      case Err(e) => Err(e)
      case Ok(x) =>
        if dt.count > 1 then
          match PyIndex(x, 0)
          case Err(e) => Err(e)
          case Ok(y) => Ok(Define(ListV(seq(dt.count, _ => Broadcast(y, w)))))
        else Ok(Define(Broadcast(x, w)))
  }

  /** One lane of CAST. */
  function CastLane(ext: Ext, dt: DType, x: Value): (r: Result<Value>)
    ensures dt.kind.IntKind? ==> r == CastToInt(dt, x)
  {
    if dt.kind.IntKind? then CastToInt(dt, x)
    else if Numeric(x).None? then Err(Malformed)
    else if dt.kind.FloatKind? then Ok(ext.floatCast(dt, x))
    else Ok(BoolV(Truthy(x)))
  }

  /** Every lane converted to the result type, integers wrapped into its width. */
  function CastLanes(ext: Ext, dt: DType, xs: seq<Value>): (r: Result<seq<Value>>)
    ensures r.Ok? <==> forall k :: 0 <= k < |xs| ==> CastLane(ext, dt, xs[k]).Ok?
    ensures r.Ok? ==> |r.value| == |xs| && forall k :: 0 <= k < |xs| ==> CastLane(ext, dt, xs[k]) == Ok(r.value[k])
    decreases |xs|
  {
    if xs == [] then Ok([])
    else
      match CastLane(ext, dt, xs[0])
      case Err(e) => Err(e)
      case Ok(y) =>
        match CastLanes(ext, dt, xs[1..])
        case Err(e) =>
          assert exists k :: 0 <= k < |xs| - 1 && CastLane(ext, dt, xs[1..][k]).Err?;
          Err(e)
        case Ok(rest) =>
          assert forall k :: 1 <= k < |xs| ==> xs[1..][k - 1] == xs[k];
          Ok([y] + rest)
  }

  /** CAST and BITCAST: both formats must exist, the operand must hold one
      value per lane. */
  function CastValue(ext: Ext, dt: DType, ops: Operands, w: nat, bit: bool): Result<Effect>
    requires |ops.vals| == |ops.types|
  {
    if |ops.vals| == 0 then Err(Malformed)
    else if !(ops.types[0].hasFmt && dt.hasFmt) then Err(Unsupported)
    else if !ops.vals[0].ListV? then Err(Malformed)
    else
      var xs := ops.vals[0].items;
      if bit then
        if |xs| != w then Err(Malformed)
        else if w > 0 && ops.types[0].itemsize != dt.itemsize then Err(Unsupported)
        else Ok(Define(ListV(seq(w, k requires 0 <= k < w => ext.bitcast(ops.types[0], dt, xs[k])))))
      else
        match CastLanes(ext, dt, xs)
        case Err(e) => Err(e)
        case Ok(ys) => if |ys| != w then Err(Malformed) else Ok(Define(ListV(ys)))
  }

  /** `[f(j), f(j+1), ..., f(count-1)]` as a multi-component value, raising
      at the first component for which `f` fails. */
  function Components(f: nat -> Result<seq<Value>>, j: nat, count: nat): (r: Result<seq<Value>>)
    ensures r.Ok? ==> |r.value| == count - j || j > count
    decreases count - j
  {
    if j >= count then Ok([])
    else
      match f(j)
      case Err(e) => Err(e)
      case Ok(lanes) =>
        match Components(f, j + 1, count)
        case Err(e) => Err(e)
        case Ok(rest) => Ok([ListV(lanes)] + rest)
  }

  /** Component `j` of an image load: channel `j` of each lane's texel. */
  function ImageComponent(mem: seq<seq<Value>>, cols: seq<Value>, shape: ImageShape, j: nat): Result<seq<Value>>
    requires |cols| == 3 && AllLists(cols)
  {
    var p := Prefixes(cols, ZipLen(cols));
    ImageLanes(mem, p[0], p[1], p[2], shape, j)
  }

  /** The operands of component `j` of a vector load: component `j` of each
      vector operand, the whole of each scalar one. */
  function ComponentOperands(vals: seq<Value>, types: seq<DType>, j: int): (r: Result<seq<Value>>)
    requires |vals| == |types|
    ensures r.Ok? ==> |r.value| == |vals|
    decreases |vals|
  {
    if vals == [] then Ok([])
    else
      var head := if types[0].count > 1 then PyIndex(vals[0], j) else Ok(vals[0]);
      match head
      case Err(e) => Err(e)
      case Ok(v) =>
        match ComponentOperands(vals[1..], types[1..], j)
        case Err(e) => Err(e)
        case Ok(rest) => Ok([v] + rest)
  }

  /** Operand `k` of component `j` is component `j` of operand `k` when
      that operand has a vector type and the whole operand otherwise; the
      result fails exactly when some vector operand has no component `j`. */
  lemma {:induction false} ComponentOperandsAt(vals: seq<Value>, types: seq<DType>, j: int)
    requires |vals| == |types|
    ensures ComponentOperands(vals, types, j).Ok? <==>
      forall k :: 0 <= k < |vals| && types[k].count > 1 ==> PyIndex(vals[k], j).Ok?
    ensures ComponentOperands(vals, types, j).Ok? ==>
      forall k :: 0 <= k < |vals| ==>
        ComponentOperands(vals, types, j).value[k] == if types[k].count > 1 then PyIndex(vals[k], j).value else vals[k]
    decreases |vals|
  {
    if vals != [] {
      ComponentOperandsAt(vals[1..], types[1..], j);
      assert forall k :: 1 <= k < |vals| ==> vals[1..][k - 1] == vals[k] && types[1..][k - 1] == types[k];
      if ComponentOperands(vals, types, j).Ok? {
        var r := ComponentOperands(vals, types, j).value;
        var rest := ComponentOperands(vals[1..], types[1..], j).value;
        assert r == [r[0]] + rest;
        assert forall k :: 1 <= k < |vals| ==> r[k] == rest[k - 1];
      }
    }
  }

  /** Component `j` of a vector load: `load` over component `j` of the
      operands at offset `j`. */
  function VectorComponent(mem: seq<seq<Value>>, ops: Operands, j: nat): Result<seq<Value>>
    requires |ops.vals| == |ops.types|
  {
    match ComponentOperands(ops.vals, ops.types, j)
    case Err(e) => Err(e)
    case Ok(inp) => Memory.Load(mem, inp, j)
  }

  /** LOAD: image, vector or scalar. */
  function LoadValue(mem: seq<seq<Value>>, dt: DType, ops: Operands): Result<Effect>
    requires |ops.vals| == |ops.types|
  {
    if |ops.vals| == 0 then Err(Malformed)
    else if ops.types[0].image.Some? then
      if dt.count != 4 then Err(Unsupported)
      else if |ops.vals| < 2 then Err(Malformed)
      else
        var ox := PyIndex(ops.vals[1], 0);
        var oy := PyIndex(ops.vals[1], 1);
        if ox.Err? || oy.Err? then Err(Malformed)
        else
          var cols := [ops.vals[0], ox.value, oy.value];
          if !AllLists(cols) then Err(Malformed)
          else
            match Components((j: nat) => ImageComponent(mem, cols, ops.types[0].image.value, j), 0, 4)
            case Err(e) => Err(e)
            case Ok(comps) => Ok(Define(ListV(comps)))
    else if dt.count > 1 then
      match Components((j: nat) => VectorComponent(mem, ops, j), 0, dt.count)
      case Err(e) => Err(e)
      case Ok(comps) => Ok(Define(ListV(comps)))
    else
      match Memory.Load(mem, ops.vals, 0)
      case Err(e) => Err(e)
      case Ok(lanes) => Ok(Define(ListV(lanes)))
  }

  /** Whether an ALU operation is exempt from the equal-types check. */
  predicate MixedTypesAllowed(op: AluOp) {
    op == CmpNe || op == CmpLt || op == Where
  }

  /** ALU: equal operand lengths, equal types (except comparisons and
      select), then `exec_alu` once per lane. */
  function AluValue(ext: Ext, dt: DType, op: AluOp, ops: Operands): Result<Effect>
    requires |ops.vals| == |ops.types|
  {
    var vals := ops.vals;
    if !AllLists(vals) then Err(Malformed)
    else if !(forall k :: 0 <= k < |vals| ==> |vals[k].items| == |vals[0].items|) then Err(ShapeMismatch)
    else if !(forall k :: 0 <= k < |vals| ==> ops.types[k] == dt) && !MixedTypesAllowed(op) then Err(ShapeMismatch)
    else
      var n := ZipLen(vals);
      Ok(Define(ListV(seq(n, k requires 0 <= k < n => ext.alu(op, dt, Column(vals, k))))))
  }

  /** The elements of a list that holds the objects `ids` themselves. */
  function Refs(ids: seq<nat>): (r: seq<Value>)
    ensures |r| == |ids| && forall k :: 0 <= k < |ids| ==> r[k] == RefV(ids[k])
  {
    seq(|ids|, k requires 0 <= k < |ids| => RefV(ids[k]))
  }

  /** What a value-producing instruction does; `dt` is its result type. */
  function Decide(env: Env, s: State, ins: Instr, dt: DType, ops: Operands): Result<Effect>
    requires |ops.vals| == |ops.types| == |ops.ids|
  {
    var w := |env.warp|;
    match ins.op
    case DefineGlobal => if !dt.hasFmt then Err(Unsupported) else Ok(PopBuffer)
    case DefineLocal =>
      if !dt.hasFmt then Err(Unsupported)
      else if !ins.arg.Local? || ins.arg.size < 0 then Err(Malformed)
      else Ok(NewLocal(ins.arg.size, Zero(dt)))
    case DefineVar => Ok(PopVar)
    case Special => SpecialValue(env, ins.arg)
    case Const => if ins.arg.Lit? then Ok(Define(Broadcast(ins.arg.v, w))) else Err(Malformed)
    case DefineAcc => AccSeed(dt, ops.vals, w)
    case Range =>
      if s.pc in s.ul then Ok(RangeNext(s.ul[s.pc], if |ops.ids| >= 2 then Some(ops.ids[1]) else None))
      else if |ops.vals| == 0 then Err(Malformed)
      else
        (match PyIndex(ops.vals[0], 0)
         case Err(e) => Err(e)
         case Ok(x) => Ok(Define(Broadcast(x, w))))
    case Vectorize => Ok(Define(ListV(Refs(ops.ids))))
    case Cast => CastValue(env.ext, dt, ops, w, false)
    case Bitcast => CastValue(env.ext, dt, ops, w, true)
    case Load => LoadValue(s.mem, dt, ops)
    case Assign =>
      if |ops.ids| == 0 then Err(Malformed)
      else Ok(AssignTo(ops.ids[0], if |ops.ids| >= 2 then Some(ops.ids[1]) else None))
    case Gep =>
      if !ins.arg.Index? || |ins.arg.idx| != 1 || |ops.ids| == 0 || ops.ids[0] >= |s.objs| then Err(Malformed)
      else
        (match PyIndex(s.objs[ops.ids[0]], ins.arg.idx[0])
         case Err(e) => Err(e)
         case Ok(x) => if x.RefV? then Ok(Share(x.obj)) else Ok(Define(x)))
    case Wmma => if ins.arg.Device? then Ok(Define(env.ext.wmma(w, ops.vals, ins.arg.device))) else Err(Malformed)
    case Alu => if ins.arg.AluArg? then AluValue(env.ext, dt, ins.arg.alu, ops) else Err(Malformed)
    case _ => Ok(Check)
  }

  /** The instruction's effect, or the error it raises before changing anything. */
  function Prepare(prog: seq<Instr>, env: Env, s: State): Result<Effect>
    requires s.pc < |prog|
  {
    var ins := prog[s.pc];
    if ins.op == DefineAcc && |ins.src| == 0 then Err(Malformed)
    else
      var idp := if ins.op == DefineAcc then [ins.src[0]] else ins.src;
      match Gather(prog, s, idp)
      case Err(e) => Err(e)
      case Ok(ops) =>
        match ins.op
        case Store => Ok(Stores(StorePlan(ops.vals, ops.types)))
        case EndRange => if |ins.src| == 0 then Err(Malformed) else Ok(CloseLoop(ins.src[0]))
        case Barrier => Ok(Advance)
        case If => Ok(Advance)
        case EndIf => Ok(Advance)
        case _ =>
          if ins.dtype.None? then Err(MissingType)
          else Decide(env, s, ins, ins.dtype.value, ops)
  }

  /** The result of one step. */
  datatype Outcome = Next(s: State) | Abort(fault: Fault, mem: seq<seq<Value>>)

  function OutcomeMem(r: Outcome): seq<seq<Value>> {
    if r.Next? then r.s.mem else r.mem
  }

  /** The current position takes the instruction's result type. */
  function Typed(s: State, ins: Instr): State {
    if ins.dtype.Some? then s.(dl := s.dl[s.pc := ins.dtype.value]) else s
  }

  /** A fresh object `v` becomes the value of the current position, and the
      program counter moves on. */
  function Bind(s: State, v: Value): (t: State)
    ensures t.objs == s.objs + [v] && t.ul == s.ul[s.pc := |s.objs|] && t.pc == s.pc + 1
    ensures t.mem == s.mem && t.dl == s.dl && t.loopEnds == s.loopEnds
  {
    s.(objs := s.objs + [v], ul := s.ul[s.pc := |s.objs|], pc := s.pc + 1)
  }

  /** Every lane of a counter, one higher; fails at a lane that is not a number. */
  function IncAll(xs: seq<Value>): (r: Result<seq<Value>>)
    ensures r.Ok? <==> forall k :: 0 <= k < |xs| ==> Inc(xs[k]).Ok?
    ensures r.Ok? ==> |r.value| == |xs| && forall k :: 0 <= k < |xs| ==> Inc(xs[k]) == Ok(r.value[k])
    ensures r.Err? ==> r.fault == Malformed
    decreases |xs|
  {
    if xs == [] then Ok([])
    else
      match Inc(xs[0])
      case Err(e) => Err(e)
      case Ok(y) =>
        match IncAll(xs[1..])
        case Err(e) =>
          assert exists k :: 0 <= k < |xs| - 1 && Inc(xs[1..][k]).Err?;
          Err(e)
        case Ok(rest) =>
          assert forall k :: 1 <= k < |xs| ==> xs[1..][k - 1] == xs[k];
          Ok([y] + rest)
  }

  /** Memory `b` keeps every buffer of `a` at its size and may add buffers. */
  predicate Grows(a: seq<seq<Value>>, b: seq<seq<Value>>) {
    |a| <= |b| && forall k :: 0 <= k < |a| ==> |b[k]| == |a[k]|
  }

  /** The RANGE revisit: every lane of the counter object goes up by one;
      when lane 0 then equals lane 0 of the bound, the loop value is retired
      and control passes the matching ENDRANGE. */
  function RangeStep(t: State, c: nat, bound: Option<nat>): (r: Outcome)
    ensures r.Next? ==> r.s.mem == t.mem
  {
    if c >= |t.objs| || !t.objs[c].ListV? then Abort(Malformed, t.mem)
    else
      match IncAll(t.objs[c].items)
      case Err(e) => Abort(e, t.mem)
      case Ok(lanes) =>
        var objs := t.objs[c := ListV(lanes)];
        if |lanes| == 0 || bound.None? || bound.value >= |objs| then Abort(Malformed, t.mem)
        else
          match PyIndex(objs[bound.value], 0)
          case Err(e) => Abort(e, t.mem)
          case Ok(b) =>
            if PyEq(lanes[0], b) then
              if t.pc !in t.loopEnds then Abort(Malformed, t.mem)
              else Next(t.(objs := objs, ul := t.ul - {t.pc}, pc := t.loopEnds[t.pc] + 1))
            else Next(t.(objs := objs, pc := t.pc + 1))
  }

  /** ASSIGN: the destination object's lanes are overwritten in place by the
      source's, and the destination object becomes this position's value. */
  function AssignStep(t: State, d: nat, src: Option<nat>): (r: Outcome)
    ensures r.Next? ==> r.s.mem == t.mem
  {
    if d >= |t.objs| || !t.objs[d].ListV? then Abort(Malformed, t.mem)
    else
      var n := |t.objs[d].items|;
      if n == 0 then Next(t.(ul := t.ul[t.pc := d], pc := t.pc + 1))
      else if src.None? || src.value >= |t.objs| || !t.objs[src.value].ListV? || |t.objs[src.value].items| < n then
        Abort(Malformed, t.mem)
      else
        Next(t.(objs := t.objs[d := ListV(t.objs[src.value].items[..n])], ul := t.ul[t.pc := d], pc := t.pc + 1))
  }

  /** Carries out an effect. */
  function Apply(env: Env, s: State, ins: Instr, eff: Effect): (r: Outcome)
    ensures Grows(s.mem, OutcomeMem(r))
  {
    var w := |env.warp|;
    var t := Typed(s, ins);
    match eff
    case Advance => Next(s.(pc := s.pc + 1))
    case CloseLoop(o) => Next(s.(loopEnds := s.loopEnds[o := s.pc], pc := o))
    case Stores(ts) =>
      (match ApplyTasks(s.mem, ts)
       case MemOk(m) => Next(s.(mem := m, pc := s.pc + 1))
       case MemFault(e, m) => Abort(e, m))
    case Define(v) => Next(Bind(t, v))
    case Share(o) => Next(t.(ul := t.ul[t.pc := o], pc := t.pc + 1))
    case PopBuffer =>
      if t.pbufs == [] then Abort(Malformed, s.mem)
      else Next(Bind(t.(pbufs := t.pbufs[1..]), Broadcast(BufV(t.pbufs[0]), w)))
    case PopVar =>
      if t.pvals == [] then Abort(Malformed, s.mem)
      else Next(Bind(t.(pvals := t.pvals[1..]), Broadcast(IntV(t.pvals[0]), w)))
    case NewLocal(n, z) =>
      Next(Bind(t.(mem := t.mem + [seq(n, _ => z)]), Broadcast(BufV(|t.mem|), w)))
    case AssignTo(d, src) => AssignStep(t, d, src)
    case RangeNext(c, bound) => RangeStep(t, c, bound)
    case Check => if t.pc in t.ul then Next(t.(pc := t.pc + 1)) else Abort(Unresolved, s.mem)
  }

  /** One iteration of the interpreter loop. No step removes a buffer or
      changes a buffer's size. */
  function Step(prog: seq<Instr>, env: Env, s: State): (r: Outcome)
    requires s.pc < |prog|
    ensures Grows(s.mem, OutcomeMem(r))
  {
    match Prepare(prog, env, s)
    case Err(e) => Abort(e, s.mem)
    case Ok(eff) => Apply(env, s, prog[s.pc], eff)
  }

  /** The end of one coordinate's run. */
  datatype RunResult = Done(s: State) | Aborted(fault: Fault, mem: seq<seq<Value>>) | OutOfFuel(s: State)

  function ResultMem(r: RunResult): seq<seq<Value>> {
    match r
    case Done(s) => s.mem
    case Aborted(_, m) => m
    case OutOfFuel(s) => s.mem
  }

  /** The instruction loop of one coordinate, run until the program counter
      leaves the program, for at most `fuel` iterations. */
  function Exec(prog: seq<Instr>, env: Env, fuel: nat, s: State): (r: RunResult)
    ensures Grows(s.mem, ResultMem(r))
    ensures r.Done? ==> r.s.pc >= |prog|
    decreases fuel, 1
  {
    if s.pc >= |prog| then Done(s) else Tick(prog, env, fuel, s)
  }

  /** An iteration inside the program spends one unit of the budget. */
  function Tick(prog: seq<Instr>, env: Env, fuel: nat, s: State): (r: RunResult)
    requires s.pc < |prog|
    ensures Grows(s.mem, ResultMem(r))
    ensures r.Done? ==> r.s.pc >= |prog|
    decreases fuel, 0
  {
    if fuel == 0 then OutOfFuel(s) else Proceed(prog, env, fuel - 1, s)
  }

  /** One step from `s`, then the rest of the run. */
  function Proceed(prog: seq<Instr>, env: Env, fuel: nat, s: State): (r: RunResult)
    requires s.pc < |prog|
    ensures Grows(s.mem, ResultMem(r))
    ensures r.Done? ==> r.s.pc >= |prog|
    decreases fuel, 2
  {
    match Step(prog, env, s)
    case Abort(e, m) => Aborted(e, m)
    case Next(s') => Exec(prog, env, fuel, s')
  }

  /** A run that has passed the last instruction is done. */
  lemma ExecDone(prog: seq<Instr>, env: Env, fuel: nat, s: State)
    requires s.pc >= |prog|
    ensures Exec(prog, env, fuel, s) == Done(s)
  {}

  /** A run inside the program with no budget left stops where it is. */
  lemma ExecNoFuel(prog: seq<Instr>, env: Env, s: State)
    requires s.pc < |prog|
    ensures Exec(prog, env, 0, s) == OutOfFuel(s)
  {
    assert Exec(prog, env, 0, s) == Tick(prog, env, 0, s);
  }

  /** A step that continues leaves the rest of the run to the next state. */
  lemma ExecNext(prog: seq<Instr>, env: Env, fuel: nat, s: State, s': State)
    requires s.pc < |prog| && fuel > 0 && Step(prog, env, s) == Next(s')
    ensures Exec(prog, env, fuel, s) == Exec(prog, env, fuel - 1, s')
  {
    assert Exec(prog, env, fuel, s) == Tick(prog, env, fuel, s) == Proceed(prog, env, fuel - 1, s);
  }

  /** A step that aborts ends the run with its fault and memory. */
  lemma ExecAbort(prog: seq<Instr>, env: Env, fuel: nat, s: State, e: Fault, m: seq<seq<Value>>)
    requires s.pc < |prog| && fuel > 0 && Step(prog, env, s) == Abort(e, m)
    ensures Exec(prog, env, fuel, s) == Aborted(e, m)
  {
    assert Exec(prog, env, fuel, s) == Tick(prog, env, fuel, s) == Proceed(prog, env, fuel - 1, s);
  }

  /** The end of a whole invocation, with the caller's buffers. */
  datatype GridResult = GridDone(mem: seq<seq<Value>>) | GridAborted(fault: Fault, mem: seq<seq<Value>>) | GridOutOfFuel(mem: seq<seq<Value>>)

  /** Every coordinate in order, each from a fresh context over the caller's
      buffers; the local buffers of one coordinate are dropped before the
      next begins. Caller buffers keep their sizes. */
  function RunGrid(prog: seq<Instr>, ext: Ext, warp: seq<seq<int>>, coords: seq<seq<int>>,
                   mem: seq<seq<Value>>, vals: seq<int>, fuel: nat): (r: GridResult)
    ensures |r.mem| == |mem| && Grows(mem, r.mem)
    decreases |coords|
  {
    if coords == [] then GridDone(mem)
    else
      var run := Exec(prog, Env(warp, coords[0], ext), fuel, Init(mem, vals));
      var after := ResultMem(run)[..|mem|];
      match run
      case Done(_) => RunGrid(prog, ext, warp, coords[1..], after, vals, fuel)
      case Aborted(e, _) => GridAborted(e, after)
      case OutOfFuel(_) => GridOutOfFuel(after)
  }

  /** The lanes of the warp: the product over `local_size[::-1]`. */
  function Warp(localSize: seq<nat>): seq<seq<int>> {
    Grid.Product(Reverse(localSize))
  }

  function Reverse(s: seq<nat>): (r: seq<nat>)
    ensures |r| == |s| && forall k :: 0 <= k < |s| ==> r[k] == s[|s| - 1 - k]
  {
    seq(|s|, k requires 0 <= k < |s| => s[|s| - 1 - k])
  }

  /** `__call__`: runs the program once per global coordinate. */
  function Invoke(prog: seq<Instr>, ext: Ext, mem: seq<seq<Value>>, vals: seq<int>,
                  globalSize: seq<nat>, localSize: seq<nat>, fuel: nat): GridResult {
    RunGrid(prog, ext, Warp(localSize), Grid.Product(Reverse(globalSize)), mem, vals, fuel)
  }
}
