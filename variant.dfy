/**
 * Variant: the tagged value that carries a Python result to the record code,
 * with its typed accessors.  Every accessor either returns a view of the
 * value in the requested type or throws Variant::ConvertError; accessors that
 * parse text throw what std::stoll, std::stoull or std::stod throw.
 */
module Variants {
  import opened Wrappers
  import opened CTypes
  import opened CText

  /** The ten kinds of value a Variant can hold; a default Variant is NONE. */
  datatype Type = NONE | BOOL | STRING | DOUBLE | LONG | UNSIGNED
                | VECTOR_DOUBLE | VECTOR_LONG | VECTOR_UNSIGNED | VECTOR_STRING

  datatype Variant =
    | Nothing
    | Bool(b: bool)
    | String(s: string)
    | Double(d: real)
    | Long(l: EpicsInt64)
    | Unsigned(u: EpicsUInt64)
    | VectorDouble(vd: seq<real>)
    | VectorLong(vl: seq<EpicsInt64>)
    | VectorUnsigned(vu: seq<EpicsUInt64>)
    | VectorString(vs: seq<string>)
  {
    /** The `type` member: which of the value members is in use. */
    function TypeOf(): (t: Type)
      ensures t == NONE <==> this == Nothing
      ensures t == BOOL <==> Bool?
      ensures t == STRING <==> String?
      ensures t == DOUBLE <==> Double?
      ensures t == LONG <==> Long?
      ensures t == UNSIGNED <==> Unsigned?
      ensures t == VECTOR_DOUBLE <==> VectorDouble?
      ensures t == VECTOR_LONG <==> VectorLong?
      ensures t == VECTOR_UNSIGNED <==> VectorUnsigned?
      ensures t == VECTOR_STRING <==> VectorString?
    {
      match this
      case Nothing => NONE
      case Bool(_) => BOOL
      case String(_) => STRING
      case Double(_) => DOUBLE
      case Long(_) => LONG
      case Unsigned(_) => UNSIGNED
      case VectorDouble(_) => VECTOR_DOUBLE
      case VectorLong(_) => VECTOR_LONG
      case VectorUnsigned(_) => VECTOR_UNSIGNED
      case VectorString(_) => VECTOR_STRING
    }

    predicate IsNumber() { Bool? || Long? || Unsigned? || Double? }
    predicate IsVector() { VectorDouble? || VectorLong? || VectorUnsigned? || VectorString? }

    /** The number of elements of a vector value. */
    function Length(): nat
      requires IsVector()
    {
      match this
      case VectorDouble(xs) => |xs|
      case VectorLong(xs) => |xs|
      case VectorUnsigned(xs) => |xs|
      case VectorString(xs) => |xs|
    }

    /** get_bool: a number is true when it is not zero; text, vectors and NONE do not convert. */
    function GetBool(): (r: Result<bool>)
      ensures r.Ok? <==> IsNumber()
      ensures r.Throw? ==> r.error == ConvertError
      ensures r.Ok? ==> (r.value <==> this !in {Bool(false), Long(0), Unsigned(0), Double(0.0)})
    {
      match this
      case Bool(b) => Ok(b)
      case Long(l) => Ok(l != 0)
      case Unsigned(u) => Ok(u != 0)
      case Double(d) => Ok(d != 0.0)
      case _ => Throw(ConvertError)
    }

    /**
     * get_long: booleans read as 1 and 0, an unsigned value keeps its 64 bits
     * (values of 2^63 and more read negative), a double is truncated toward
     * zero, text is read by std::stoll.
     */
    function GetLong(): (r: Result<EpicsInt64>)
      ensures IsNumber() ==> r.Ok?
      ensures Bool? ==> r == Ok(if b then 1 else 0)
      ensures Long? ==> r == Ok(l)
      ensures Unsigned? ==> r.value % 0x1_0000_0000_0000_0000 == u && (u < 0x8000_0000_0000_0000 ==> r.value == u)
      ensures Double? && CType.Int64.Holds(Trunc(d)) ==> r == Ok(Trunc(d))
      ensures String? ==> r == Stoll(s)
      ensures this == Nothing || IsVector() ==> r == Throw(ConvertError)
    {
      match this
      case Bool(b) => Ok(if b then 1 else 0)
      case Long(l) => Ok(l)
      case Unsigned(u) => Ok(Wrap(CType.Int64, u))
      case Double(d) => Ok(Wrap(CType.Int64, Trunc(d)))
      case String(s) => Stoll(s)
      case _ => Throw(ConvertError)
    }

    /**
     * get_unsigned: a negative long keeps its 64 bits (reads as 2^64 plus the
     * value), a double is truncated toward zero, text is read by std::stoull.
     */
    function GetUnsigned(): (r: Result<EpicsUInt64>)
      ensures IsNumber() ==> r.Ok?
      ensures Bool? ==> r == Ok(if b then 1 else 0)
      ensures Long? ==> r == Ok(if l < 0 then l + 0x1_0000_0000_0000_0000 else l)
      ensures Unsigned? ==> r == Ok(u)
      ensures Double? && CType.UInt64.Holds(Trunc(d)) ==> r == Ok(Trunc(d))
      ensures String? ==> r == Stoull(s)
      ensures this == Nothing || IsVector() ==> r == Throw(ConvertError)
    {
      match this
      case Bool(b) => Ok(if b then 1 else 0)
      case Long(l) => Ok(Wrap(CType.UInt64, l))
      case Unsigned(u) => Ok(u)
      case Double(d) => Ok(Wrap(CType.UInt64, Trunc(d)))
      case String(s) => Stoull(s)
      case _ => Throw(ConvertError)
    }

    /** get_double: integers convert to their value, text is read by std::stod. */
    function GetDouble(ft: FloatText): (r: Result<real>)
      ensures IsNumber() ==> r.Ok?
      ensures Bool? ==> r == Ok(if b then 1.0 else 0.0)
      ensures Long? ==> r == Ok(l as real)
      ensures Unsigned? ==> r == Ok(u as real)
      ensures Double? ==> r == Ok(d)
      ensures String? ==> r == ft.parse(s)
      ensures this == Nothing || IsVector() ==> r == Throw(ConvertError)
    {
      match this
      case Bool(b) => Ok(if b then 1.0 else 0.0)
      case Long(l) => Ok(l as real)
      case Unsigned(u) => Ok(u as real)
      case Double(d) => Ok(d)
      case String(s) => ft.parse(s)
      case _ => Throw(ConvertError)
    }

    /** get_string: Python spelling for booleans, std::to_string for numbers, the text itself for text. */
    function GetString(ft: FloatText): (r: Result<string>)
      ensures r.Ok? <==> IsNumber() || String?
      ensures r.Throw? ==> r.error == ConvertError
      ensures Bool? ==> r == Ok(if b then "True" else "False")
      ensures Long? ==> r == Ok(IntToString(l))
      ensures Unsigned? ==> r == Ok(NatToString(u))
      ensures Double? ==> r == Ok(ft.format(d))
      ensures String? ==> r == Ok(s)
    {
      match this
      case Bool(b) => Ok(if b then "True" else "False")
      case Long(l) => Ok(IntToString(l))
      case Unsigned(u) => Ok(NatToString(u))
      case Double(d) => Ok(ft.format(d))
      case String(s) => Ok(s)
      case _ => Throw(ConvertError)
    }

    /** get_long_array: each element converted as get_long converts a scalar, order and count kept. */
    function GetLongArray(): (r: Result<seq<EpicsInt64>>)
      ensures r.Ok? ==> IsVector() && |r.value| == Length()
      ensures !IsVector() ==> r == Throw(ConvertError)
      ensures VectorLong? ==> r == Ok(vl)
      ensures VectorUnsigned? ==> r.Ok? && forall i :: 0 <= i < |vu| ==> Ok(r.value[i]) == Unsigned(vu[i]).GetLong()
      ensures VectorDouble? ==> r.Ok? && forall i :: 0 <= i < |vd| ==> Ok(r.value[i]) == Double(vd[i]).GetLong()
      ensures VectorString? ==> r == MapAll(Stoll, vs)
    {
      match this
      case VectorLong(vl) => Ok(vl)
      case VectorUnsigned(vu) => Ok(seq(|vu|, i requires 0 <= i < |vu| => Wrap(CType.Int64, vu[i])))
      case VectorDouble(vd) => Ok(seq(|vd|, i requires 0 <= i < |vd| => Wrap(CType.Int64, Trunc(vd[i]))))
      case VectorString(vs) => MapAll(Stoll, vs)
      case _ => Throw(ConvertError)
    }

    /** get_unsigned_array: each element converted as get_unsigned converts a scalar, order and count kept. */
    function GetUnsignedArray(): (r: Result<seq<EpicsUInt64>>)
      ensures r.Ok? ==> IsVector() && |r.value| == Length()
      ensures !IsVector() ==> r == Throw(ConvertError)
      ensures VectorLong? ==> r.Ok? && forall i :: 0 <= i < |vl| ==> Ok(r.value[i]) == Long(vl[i]).GetUnsigned()
      ensures VectorUnsigned? ==> r == Ok(vu)
      ensures VectorDouble? ==> r.Ok? && forall i :: 0 <= i < |vd| ==> Ok(r.value[i]) == Double(vd[i]).GetUnsigned()
      ensures VectorString? ==> r == MapAll(Stoull, vs)
    {
      match this
      case VectorLong(vl) => Ok(seq(|vl|, i requires 0 <= i < |vl| => Wrap(CType.UInt64, vl[i])))
      case VectorUnsigned(vu) => Ok(vu)
      case VectorDouble(vd) => Ok(seq(|vd|, i requires 0 <= i < |vd| => Wrap(CType.UInt64, Trunc(vd[i]))))
      case VectorString(vs) => MapAll(Stoull, vs)
      case _ => Throw(ConvertError)
    }

    /** get_double_array: integers convert to their value, text through std::stod. */
    function GetDoubleArray(ft: FloatText): (r: Result<seq<real>>)
      ensures r.Ok? ==> IsVector() && |r.value| == Length()
      ensures !IsVector() ==> r == Throw(ConvertError)
      ensures VectorLong? ==> r == Ok(seq(|vl|, i requires 0 <= i < |vl| => vl[i] as real))
      ensures VectorUnsigned? ==> r == Ok(seq(|vu|, i requires 0 <= i < |vu| => vu[i] as real))
      ensures VectorDouble? ==> r == Ok(vd)
      ensures VectorString? ==> r == MapAll(ft.parse, vs)
    {
      match this
      case VectorLong(vl) => Ok(seq(|vl|, i requires 0 <= i < |vl| => vl[i] as real))
      case VectorUnsigned(vu) => Ok(seq(|vu|, i requires 0 <= i < |vu| => vu[i] as real))
      case VectorDouble(vd) => Ok(vd)
      case VectorString(vs) => MapAll(ft.parse, vs)
      case _ => Throw(ConvertError)
    }

    /** get_string_array: every element through std::to_string; never throws for a vector. */
    function GetStringArray(ft: FloatText): (r: Result<seq<string>>)
      ensures r.Ok? <==> IsVector()
      ensures r.Ok? ==> |r.value| == Length()
      ensures r.Throw? ==> r.error == ConvertError
      ensures VectorLong? ==> forall i :: 0 <= i < |vl| ==> Ok(r.value[i]) == Long(vl[i]).GetString(ft)
      ensures VectorUnsigned? ==> forall i :: 0 <= i < |vu| ==> Ok(r.value[i]) == Unsigned(vu[i]).GetString(ft)
      ensures VectorDouble? ==> forall i :: 0 <= i < |vd| ==> Ok(r.value[i]) == Double(vd[i]).GetString(ft)
      ensures VectorString? ==> r == Ok(vs)
    {
      match this
      case VectorLong(vl) => Ok(seq(|vl|, i requires 0 <= i < |vl| => IntToString(vl[i])))
      case VectorUnsigned(vu) => Ok(seq(|vu|, i requires 0 <= i < |vu| => NatToString(vu[i])))
      case VectorDouble(vd) => Ok(seq(|vd|, i requires 0 <= i < |vd| => ft.format(vd[i])))
      case VectorString(vs) => Ok(vs)
      case _ => Throw(ConvertError)
    }
  }

  /*
   * The helper constructors for EPICS element types.  A signed integer of any
   * width becomes a LONG and an unsigned one an UNSIGNED, value unchanged; a
   * float becomes a DOUBLE.  Plain char is taken to be signed (as on x86).
   */

  /** Variant(x) for an integer x of type t. */
  function OfInteger(t: CType, x: int): (v: Variant)
    requires !t.IsFloating() && t.Holds(x)
    ensures v.TypeOf() == if t.IsSigned() then LONG else UNSIGNED
    ensures v.GetLong() == Ok(Wrap(CType.Int64, x))
    ensures t.IsSigned() || x < 0x8000_0000_0000_0000 ==> v.GetLong() == Ok(x)
    ensures !t.IsSigned() ==> v.GetUnsigned() == Ok(x)
  {
    if t.IsSigned() then Long(x) else Unsigned(x)
  }

  /** Variant(x) for a float x. */
  function OfFloat(x: real): (v: Variant)
    ensures v.TypeOf() == DOUBLE
    ensures forall ft :: v.GetDouble(ft) == Ok(x)
  {
    Double(x)
  }

  /** Variant(const char*): the C string up to its NUL. */
  function OfCString(buf: seq<char>): (v: Variant)
    ensures v.TypeOf() == STRING
    ensures forall ft :: v.GetString(ft) == Ok(CStr(buf))
  {
    String(CStr(buf))
  }

  /**
   * Variant(vals, n) for an array of integers of type t: the first n elements,
   * in order, as a vector of long long (signed types) or unsigned long long.
   */
  function OfIntegerArray(t: CType, vals: seq<int>, n: nat): (v: Variant)
    requires !t.IsFloating() && n <= |vals|
    requires forall i :: 0 <= i < n ==> t.Holds(vals[i])
    ensures v.TypeOf() == if t.IsSigned() then VECTOR_LONG else VECTOR_UNSIGNED
    ensures t.IsSigned() ==> v.GetLongArray() == Ok(vals[..n])
    ensures !t.IsSigned() ==> v.GetUnsignedArray() == Ok(vals[..n])
  {
    var xs := vals[..n];
    assert forall i :: 0 <= i < |xs| ==> t.Holds(xs[i]);
    if t.IsSigned() then VectorLong(xs) else VectorUnsigned(xs)
  }

  /** Variant(vals, n) for an array of float or double: the first n elements as a vector of double. */
  function OfFloatArray(vals: seq<real>, n: nat): (v: Variant)
    requires n <= |vals|
    ensures v.TypeOf() == VECTOR_DOUBLE
    ensures forall ft :: v.GetDoubleArray(ft) == Ok(vals[..n])
  {
    VectorDouble(vals[..n])
  }

  /** A NONE value, what a statement without a value evaluates to, converts to nothing. */
  lemma NothingConvertsToNothing(ft: FloatText)
    ensures Nothing.GetBool().Throw? && Nothing.GetLong().Throw? && Nothing.GetUnsigned().Throw?
    ensures Nothing.GetDouble(ft).Throw? && Nothing.GetString(ft).Throw?
    ensures Nothing.GetLongArray().Throw? && Nothing.GetUnsignedArray().Throw?
    ensures Nothing.GetDoubleArray(ft).Throw? && Nothing.GetStringArray(ft).Throw?
  {
  }

  /** Scalar accessors refuse vectors and vector accessors refuse scalars. */
  lemma ScalarsAndVectorsDisjoint(v: Variant, ft: FloatText)
    ensures v.GetString(ft).Ok? ==> v.GetStringArray(ft).Throw? && v.GetLongArray().Throw? && v.GetDoubleArray(ft).Throw?
    ensures v.GetStringArray(ft).Ok? ==> v.GetString(ft).Throw? && v.GetLong().Throw? && v.GetBool().Throw?
  {
  }

  /** A long survives the trip through its text: get_long of the get_string text is the value. */
  lemma LongTextRoundTrip(x: EpicsInt64, ft: FloatText)
    ensures String(Long(x).GetString(ft).value).GetLong() == Ok(x)
  {
    StollOfIntToString(x);
  }

  /** An unsigned value survives the trip through its text under get_unsigned. */
  lemma UnsignedTextRoundTrip(x: EpicsUInt64, ft: FloatText)
    ensures String(Unsigned(x).GetString(ft).value).GetUnsigned() == Ok(x)
  {
    StoullOfNatToString(x);
  }

  /** A vector of longs survives the trip through get_string_array and back through get_long_array. */
  lemma {:induction false} LongArrayTextRoundTrip(xs: seq<EpicsInt64>, ft: FloatText)
    ensures VectorString(VectorLong(xs).GetStringArray(ft).value).GetLongArray() == Ok(xs)
  {
    var texts := VectorLong(xs).GetStringArray(ft).value;
    forall i | 0 <= i < |xs|
      ensures Stoll(texts[i]) == Ok(xs[i])
    {
      StollOfIntToString(xs[i]);
    }
    var r := MapAll(Stoll, texts);
    assert r.Ok?;
    assert r.value == xs;
  }

  /** Converting between signed and unsigned views of a vector keeps every element's 64 bits. */
  lemma {:induction false} SignedUnsignedArrayRoundTrip(xs: seq<EpicsInt64>)
    ensures VectorUnsigned(VectorLong(xs).GetUnsignedArray().value).GetLongArray() == Ok(xs)
  {
    var us := VectorLong(xs).GetUnsignedArray().value;
    var back := VectorUnsigned(us).GetLongArray().value;
    forall i | 0 <= i < |xs|
      ensures back[i] == xs[i]
    {
      assert us[i] == Wrap(CType.UInt64, xs[i]);
      assert back[i] == Wrap(CType.Int64, us[i]);
    }
    assert back == xs;
  }

  /** What the interpreter's result 17 reads as (unit tests of exec). */
  lemma LongResultExample(ft: FloatText)
    ensures Long(17).GetLong() == Ok(17) && Long(17).GetString(ft) == Ok("17")
    ensures Long(17).GetLongArray().Throw? && Long(17).GetStringArray(ft).Throw?
  {
    assert NatToString(17) == "17" by { assert NatToString(1) == "1"; }
  }

  /** What the interpreter's results 13.1 and True read as (unit tests of exec). */
  lemma DoubleAndBoolResultExample(ft: FloatText)
    ensures Double(13.1).GetLong() == Ok(13)
    ensures Bool(true).GetLong() == Ok(1) && Bool(true).GetString(ft) == Ok("True")
  {
    assert Trunc(13.1) == 13;
  }

  /** What the interpreter's result "5.2" reads as (unit tests of exec). */
  lemma StringResultExample()
    ensures String("5.2").GetLong() == Ok(5) && String("5.2").GetUnsigned() == Ok(5)
  {
    StollReadsLeadingInteger();
    StoullReadsLeadingInteger();
  }

  /** What the interpreter's list result [1,2,3] reads as (unit tests of exec). */
  lemma VectorResultExamples(ft: FloatText)
    ensures VectorLong([1, 2, 3]).GetLongArray() == Ok([1, 2, 3])
    ensures VectorLong([1, 2, 3]).GetStringArray(ft) == Ok(["1", "2", "3"])
    ensures VectorLong([1, 2, 3]).GetLong().Throw? && VectorLong([1, 2, 3]).GetString(ft).Throw?
  {
    assert IntToString(1) == "1" && IntToString(2) == "2" && IntToString(3) == "3";
    var r := VectorLong([1, 2, 3]).GetStringArray(ft).value;
    assert r == ["1", "2", "3"];
  }
}
