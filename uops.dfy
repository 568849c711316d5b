/** The instruction set, the run-time values and the data types of the
    micro-op interpreter, with the few pieces of Python value semantics the
    interpreter relies on (indexing, truthiness, `+= 1`, `==`, `int()`). */
module Uops {

  datatype Option<T> = None | Some(value: T)

  /** The fatal errors of one invocation. Every one of them aborts the run. */
  datatype Fault =
    | OutOfBounds   // a load/store index outside its buffer, or an image store outside its image
    | MissingType   // a value-producing instruction without a result type
    | ShapeMismatch // ALU operands of unequal lengths or unequal element types
    | Unsupported   // a type without a buffer format, an image access of count != 4, a bitcast of unequal widths
    | Unresolved    // an operand, or the instruction's own result, that was never produced
    | Malformed     // any other failure: a missing index or key, a value of the wrong shape or kind

  datatype Result<T> = Ok(value: T) | Err(fault: Fault)

  /** A Python object held by the interpreter. A lane-vector is a `ListV` of
      one scalar per lane; a multi-component value is a `ListV` of lane-vectors,
      one per component. `BufV(id)` is a handle on buffer `id` of the memory.
      `RefV(obj)` is an element that is another interpreter object, shared
      rather than copied: the list VECTORIZE builds holds its operands this way. */
  datatype Value =
    | IntV(n: int)
    | BoolV(b: bool)
    | FloatV(r: real)
    | BufV(id: nat)
    | ListV(items: seq<Value>)
    | RefV(obj: nat)

  /** A value with no shared element anywhere inside it. */
  predicate Plain(v: Value) {
    match v
    case RefV(_) => false
    case ListV(items) => forall k :: 0 <= k < |items| ==> Plain(items[k])
    case _ => true
  }

  datatype Kind = BoolKind | IntKind(signed: bool) | FloatKind

  datatype ImageShape = ImageShape(height: int, width: int)

  /** A data type: its scalar kind, size in bytes, vector width, whether it
      has a buffer format character, and the shape when it is an image type. */
  datatype DType = DType(kind: Kind, itemsize: nat, count: nat, hasFmt: bool, image: Option<ImageShape>)

  datatype AluOp = Add | CmpNe | CmpLt | Where | OtherAlu(code: nat)

  datatype Op =
    | DefineGlobal | DefineLocal | DefineVar | Special | Const | DefineAcc
    | Range | EndRange | Barrier | If | EndIf
    | Vectorize | Cast | Bitcast | Load | Store | Assign | Gep | Alu | Wmma
    | Noop  // any other kind: the interpreter has no handler for it

  /** The kind-dependent argument payload. */
  datatype Arg =
    | NoArg
    | Lit(v: Value)                   // CONST: the literal
    | Local(name: string, size: int)  // DEFINE_LOCAL: (name, element count)
    | Axis(name: string)              // SPECIAL: "gidx0", "lidx2", ...
    | AluArg(alu: AluOp)              // ALU: the operation
    | Index(idx: seq<int>)            // GEP: the component index tuple
    | Device(device: string)          // WMMA: the hardware family (element 4 of the tuple)

  /** One micro-op: kind, optional result type, operand positions, argument. */
  datatype Instr = Instr(op: Op, dtype: Option<DType>, src: seq<nat>, arg: Arg)

  /** The kinds that produce no value. */
  predicate IsVoid(op: Op) {
    op == Store || op == EndRange || op == Barrier || op == If || op == EndIf
  }

  /** `[v] * n` */
  function Broadcast(v: Value, n: nat): (r: Value)
    ensures r.ListV? && |r.items| == n
    ensures forall k :: 0 <= k < n ==> r.items[k] == v
  {
    ListV(seq(n, _ => v))
  }

  /** Python `v[k]` on a list, with negative indices counting from the end. */
  function PyIndex(v: Value, k: int): (r: Result<Value>)
    ensures r.Ok? <==> v.ListV? && -|v.items| <= k < |v.items|
    ensures r.Ok? ==> r.value == v.items[if k < 0 then |v.items| + k else k]
  {
    if v.ListV? && -|v.items| <= k < |v.items| then
      Ok(v.items[if k < 0 then |v.items| + k else k])
    else Err(Malformed)
  }

  /** Python `t[k]` on a tuple of integers. */
  function TupleIndex(t: seq<int>, k: int): (r: Result<int>)
    ensures r.Ok? <==> -|t| <= k < |t|
    ensures r.Ok? ==> r.value == t[if k < 0 then |t| + k else k]
  {
    if -|t| <= k < |t| then Ok(t[if k < 0 then |t| + k else k]) else Err(Malformed)
  }

  /** A value used as an integer index (`bool` is an `int` in Python). */
  function AsInt(v: Value): Result<int> {
    match v
    case IntV(n) => Ok(n)
    case BoolV(b) => Ok(if b then 1 else 0)
    case _ => Err(Malformed)
  }

  /** The numeric value of a number, for comparisons. */
  function Numeric(v: Value): Option<real> {
    match v
    case IntV(n) => Some(n as real)
    case BoolV(b) => Some(if b then 1.0 else 0.0)
    case FloatV(r) => Some(r)
    case _ => None
  }

  /** Python truthiness (`if g:`). A buffer handle is taken as true; so is a
      shared element, which the interpreter only tests once resolved. */
  predicate Truthy(v: Value) {
    match v
    case IntV(n) => n != 0
    case BoolV(b) => b
    case FloatV(r) => r != 0.0
    case BufV(_) => true
    case ListV(s) => |s| > 0
    case RefV(_) => true
  }

  /** Python `x += 1`. */
  function Inc(v: Value): (r: Result<Value>)
    ensures v.IntV? ==> r == Ok(IntV(v.n + 1))
    ensures r.Ok? <==> Numeric(v).Some?
    ensures r.Ok? ==> Numeric(r.value) == Some(Numeric(v).value + 1.0)
    ensures r.Err? ==> r.fault == Malformed
  {
    match v
    case IntV(n) => Ok(IntV(n + 1))
    case BoolV(b) => Ok(IntV(if b then 2 else 1))
    case FloatV(r) => Ok(FloatV(r + 1.0))
    case _ => Err(Malformed)
  }

  /** Python `a == b`: numbers compare by value across int, bool and float,
      lists element-wise, buffer handles by identity. */
  predicate PyEq(a: Value, b: Value)
    decreases a
  {
    if Numeric(a).Some? && Numeric(b).Some? then Numeric(a).value == Numeric(b).value
    else if a.BufV? && b.BufV? then a.id == b.id
    else if a.ListV? && b.ListV? then
      |a.items| == |b.items| && forall k :: 0 <= k < |a.items| ==> PyEq(a.items[k], b.items[k])
    else false
  }

  /** Python `int(c)` on a one-character string. */
  function Digit(c: char): (r: Result<int>)
    ensures r.Ok? <==> '0' <= c <= '9'
    ensures r.Ok? ==> 0 <= r.value <= 9
  {
    if '0' <= c <= '9' then Ok(c as int - '0' as int) else Err(Malformed)
  }

  /** True when every value is a list, so that `zip` can iterate over it. */
  predicate AllLists(vs: seq<Value>) {
    forall k :: 0 <= k < |vs| ==> vs[k].ListV?
  }

  /** The number of tuples `zip(*vs)` produces. */
  function ZipLen(vs: seq<Value>): (n: nat)
    requires AllLists(vs)
    ensures forall k :: 0 <= k < |vs| ==> n <= |vs[k].items|
    ensures |vs| > 0 ==> exists k :: 0 <= k < |vs| && n == |vs[k].items|
    decreases |vs|
  {
    if |vs| == 0 then 0
    else if |vs| == 1 then |vs[0].items|
    else
      var m := ZipLen(vs[1..]);
      assert forall k :: 1 <= k < |vs| ==> vs[1..][k - 1] == vs[k];
      if |vs[0].items| <= m then |vs[0].items| else m
  }

  /** Column `k` of `zip(*vs)`. */
  function Column(vs: seq<Value>, k: nat): (col: seq<Value>)
    requires AllLists(vs) && k < ZipLen(vs)
    ensures |col| == |vs|
    ensures forall i :: 0 <= i < |vs| ==> col[i] == vs[i].items[k]
  {
    seq(|vs|, i requires 0 <= i < |vs| => vs[i].items[k])
  }
}
