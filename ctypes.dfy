/**
 * C++ arithmetic types as they appear in the core: fixed-width integers,
 * the implicit conversions between them, and the conversion of a double to
 * an integer (truncation toward zero).  Doubles are modelled as reals:
 * rounding to binary floating point is not represented.
 */
module CTypes {

  type EpicsUInt8 = x: int | 0 <= x < 0x100
  type EpicsInt16 = x: int | -0x8000 <= x < 0x8000
  type EpicsUInt16 = x: int | 0 <= x < 0x1_0000
  type EpicsInt32 = x: int | -0x8000_0000 <= x < 0x8000_0000
  type EpicsUInt32 = x: int | 0 <= x < 0x1_0000_0000
  type EpicsInt64 = x: int | -0x8000_0000_0000_0000 <= x < 0x8000_0000_0000_0000
  type EpicsUInt64 = x: int | 0 <= x < 0x1_0000_0000_0000_0000

  /** The arithmetic element types of EPICS fields and of the conversion templates. */
  datatype CType = Int8 | UInt8 | Int16 | UInt16 | Int32 | UInt32 | Int64 | UInt64 | Float32 | Float64
  {
    predicate IsFloating() { this == Float32 || this == Float64 }
    predicate IsSigned() { this == Int8 || this == Int16 || this == Int32 || this == Int64 }

    /** 2 to the power of the width of an integer type. */
    function Modulus(): (m: nat)
      requires !IsFloating()
      ensures m >= 0x100
    {
      match this
      case Int8 => 0x100
      case UInt8 => 0x100
      case Int16 => 0x1_0000
      case UInt16 => 0x1_0000
      case Int32 => 0x1_0000_0000
      case UInt32 => 0x1_0000_0000
      case Int64 => 0x1_0000_0000_0000_0000
      case UInt64 => 0x1_0000_0000_0000_0000
    }

    /** The least value of an integer type: minus half the modulus if signed, else zero. */
    function Min(): (v: int)
      requires !IsFloating()
      ensures v == if IsSigned() then -(Modulus() / 2) else 0
    {
      match this
      case Int8 => -0x80
      case Int16 => -0x8000
      case Int32 => -0x8000_0000
      case Int64 => -0x8000_0000_0000_0000
      case _ => 0
    }

    /** The greatest value of an integer type: Min() plus the modulus, less one. */
    function Max(): (v: int)
      requires !IsFloating()
      ensures v == Min() + Modulus() - 1
    {
      match this
      case Int8 => 0x7F
      case UInt8 => 0xFF
      case Int16 => 0x7FFF
      case UInt16 => 0xFFFF
      case Int32 => 0x7FFF_FFFF
      case UInt32 => 0xFFFF_FFFF
      case Int64 => 0x7FFF_FFFF_FFFF_FFFF
      case UInt64 => 0xFFFF_FFFF_FFFF_FFFF
    }

    predicate Holds(x: int)
      requires !IsFloating()
      ensures Holds(x) && IsSigned() ==> -0x8000_0000_0000_0000 <= x < 0x8000_0000_0000_0000
      ensures Holds(x) && !IsSigned() ==> 0 <= x < 0x1_0000_0000_0000_0000
    {
      Min() <= x <= Max()
    }
  }

  /**
   * Conversion of an integer to an integer type: the value modulo 2^width,
   * read as two's complement for a signed type.
   */
  function Wrap(t: CType, x: int): (r: int)
    requires !t.IsFloating()
    ensures t.Holds(r)
    ensures r % t.Modulus() == x % t.Modulus()
    ensures t.Holds(x) ==> r == x
  {
    var m := t.Modulus();
    ModuloFacts(m, x);
    var u := x % m;
    if u > t.Max() then u - m else u
  }

  /** The remainder modulo m, and the two ways of reading it back. */
  lemma ModuloFacts(m: int, x: int)
    requires m >= 2
    ensures 0 <= x % m < m
    ensures (x % m) % m == x % m
    ensures (x % m - m) % m == x % m
    ensures 0 <= x < m ==> x % m == x
    ensures -m <= x < 0 ==> x % m == x + m
  {
    var u := x % m;
    ModuloOfRemainder(m, u, 0);
    ModuloOfRemainder(m, u - m, -1);
    if -m <= x < 0 {
      ModuloOfRemainder(m, x, -1);
    } else if 0 <= x < m {
      ModuloOfRemainder(m, x, 0);
    }
  }

  /** a % m is the remainder r whenever a == q * m + r with 0 <= r < m. */
  lemma ModuloOfRemainder(m: int, a: int, q: int)
    requires m >= 2 && 0 <= a - q * m < m
    ensures a % m == a - q * m
  {
    var d := a / m;
    assert a == d * m + a % m;
    MultipleBound(d - q, m);
  }

  /** A non-zero multiple of m is at least m away from zero. */
  lemma MultipleBound(k: int, m: int)
    requires m >= 1
    ensures k >= 1 ==> k * m >= m
    ensures k <= -1 ==> k * m <= -m
  {
  }

  /** Conversion of a double to an integer: the fraction is discarded (rounding toward zero). */
  function Trunc(r: real): (t: int)
    ensures r >= 0.0 ==> 0 <= t && t as real <= r < t as real + 1.0
    ensures r < 0.0 ==> t <= 0 && t as real - 1.0 < r <= t as real
  {
    if r >= 0.0 then r.Floor else -((-r).Floor)
  }

  /** A number stored in a field or an element of a C++ vector, integral or floating. */
  datatype Num = INum(i: int) | FNum(r: real)

  /** The implicit conversion of an integer (a long) to a value of type `t`. */
  function CastInt(t: CType, x: int): (n: Num)
    ensures t.IsFloating() <==> n.FNum?
    ensures n.FNum? ==> n.r == x as real
    ensures n.INum? ==> t.Holds(n.i) && (t.Holds(x) ==> n.i == x)
  {
    if t.IsFloating() then FNum(x as real) else INum(Wrap(t, x))
  }

  /**
   * The implicit conversion of a double to a value of type `t`.  Converting a
   * double whose integral part does not fit is undefined behaviour in C++;
   * the model wraps the truncated value.
   */
  function CastReal(t: CType, r: real): (n: Num)
    ensures t.IsFloating() <==> n.FNum?
    ensures n.FNum? ==> n.r == r
    ensures n.INum? ==> t.Holds(n.i) && (t.Holds(Trunc(r)) ==> n.i == Trunc(r))
  {
    if t.IsFloating() then FNum(r) else INum(Wrap(t, Trunc(r)))
  }

  /** Conversion of either kind of number to type `t`. */
  function Cast(t: CType, n: Num): (m: Num)
    ensures t.IsFloating() <==> m.FNum?
    ensures m.INum? ==> t.Holds(m.i)
  {
    match n
    case INum(i) => CastInt(t, i)
    case FNum(r) => CastReal(t, r)
  }
}
