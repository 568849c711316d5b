/** The integer branch of CAST: `int()` conversion followed by wrap-around to
    the destination width, `((x + adj) % 2**bits) - adj` with `adj` half the
    range for signed types and 0 for unsigned ones. */
module Casts {
  import opened Uops
  import opened Arith

  function Pow2(n: nat): (r: int)
    ensures r >= 1
  {
    if n == 0 then 1 else 2 * Pow2(n - 1)
  }

  /** The signed range `[-2**(bits-1), 2**(bits-1))` or the unsigned range `[0, 2**bits)`. */
  predicate InRange(y: int, bits: nat, signed: bool)
    requires bits >= 1
  {
    if signed then -Pow2(bits - 1) <= y < Pow2(bits - 1) else 0 <= y < Pow2(bits)
  }

  /** `((x + adj) % 2**bits) - adj`: inside the destination range and
      congruent to `x` modulo `2**bits`. */
  function Wrap(x: int, bits: nat, signed: bool): (r: int)
    requires bits >= 1
    ensures InRange(r, bits, signed)
    ensures (x - r) % Pow2(bits) == 0
  {
    var m := Pow2(bits);
    var h := Pow2(bits - 1);
    assert m == 2 * h;
    var adj := if signed then h else 0;
    var s := x + adj;
    var r := s % m - adj;
    assert s == (s / m) * m + s % m;
    DivModUnique(x - r, m, s / m, 0);
    r
  }

  /** A value already inside the destination range is unchanged. */
  lemma WrapInRange(x: int, bits: nat, signed: bool)
    requires bits >= 1 && InRange(x, bits, signed)
    ensures Wrap(x, bits, signed) == x
  {
    var m := Pow2(bits);
    var h := Pow2(bits - 1);
    assert m == 2 * h;
    var adj := if signed then h else 0;
    DivModUnique(x + adj, m, 0, x + adj);
  }

  /** The wrapped value is the only value of the range congruent to `x`. */
  lemma WrapUnique(x: int, bits: nat, signed: bool, y: int)
    requires bits >= 1 && InRange(y, bits, signed)
    requires (x - y) % Pow2(bits) == 0
    ensures Wrap(x, bits, signed) == y
  {
    var m := Pow2(bits);
    var h := Pow2(bits - 1);
    assert m == 2 * h;
    var adj := if signed then h else 0;
    var b := (x - y) / m;
    assert x - y == b * m + (x - y) % m;
    DivModUnique(x + adj, m, b, y + adj);
  }

  /** Wrapping twice is wrapping once. */
  lemma WrapIdempotent(x: int, bits: nat, signed: bool)
    requires bits >= 1
    ensures Wrap(Wrap(x, bits, signed), bits, signed) == Wrap(x, bits, signed)
  {
    WrapInRange(Wrap(x, bits, signed), bits, signed);
  }

  /** 130 becomes -126 as an 8-bit signed integer and stays 130 as an
      8-bit unsigned one; -1 becomes 255 unsigned. */
  lemma WrapInt8Examples()
    ensures Wrap(130, 8, true) == -126
    ensures Wrap(130, 8, false) == 130
    ensures Wrap(-1, 8, false) == 255
  {
    assert Pow2(8) == 256 && Pow2(7) == 128;
    WrapUnique(130, 8, true, -126);
    WrapInRange(130, 8, false);
    WrapUnique(-1, 8, false, 255);
  }

  /** Python `int(x)`: truncation toward zero for a float. */
  function PyInt(v: Value): (r: Result<int>)
    ensures r.Ok? <==> Numeric(v).Some?
    ensures v.IntV? ==> r == Ok(v.n)
    ensures v.FloatV? && v.r >= 0.0 ==> 0 <= r.value && r.value as real <= v.r < r.value as real + 1.0
    ensures v.FloatV? && v.r < 0.0 ==> r.value <= 0 && r.value as real - 1.0 < v.r <= r.value as real
  {
    match v
    case IntV(n) => Ok(n)
    case BoolV(b) => Ok(if b then 1 else 0)
    case FloatV(x) => Ok(if x >= 0.0 then x.Floor else -((-x).Floor))
    case _ => Err(Malformed)
  }

  /** One lane of CAST to an integer type: `int()` and then the wrap to
      the destination's width and signedness. */
  function CastToInt(dt: DType, v: Value): (r: Result<Value>)
    requires dt.kind.IntKind?
    ensures r.Ok? <==> dt.itemsize >= 1 && Numeric(v).Some?
    ensures r.Ok? ==> r.value.IntV? && r.value.n == Wrap(PyInt(v).value, dt.itemsize * 8, dt.kind.signed)
  {
    if dt.itemsize == 0 then Err(Unsupported)
    else
      match PyInt(v)
      case Err(e) => Err(e)
      case Ok(x) => Ok(IntV(Wrap(x, dt.itemsize * 8, dt.kind.signed)))
  }
}
