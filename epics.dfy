/**
 * The parts of EPICS base that the device and record support code relies
 * on: the database field type codes (menuFtype and DBF_*), dbValueSize,
 * and the two effects a processing routine has on its record besides its
 * own fields: an alarm raised with recGblSetSevr, and a request that the
 * record be processed again (callbackRequestProcessCallback).
 */
module Epics {
  import opened Wrappers
  import opened CTypes
  import opened CText

  // Field type codes, shared by menuFtype and the DBF_/DBR_ constants.
  const DBF_STRING: nat := 0
  const DBF_CHAR: nat := 1
  const DBF_UCHAR: nat := 2
  const DBF_SHORT: nat := 3
  const DBF_USHORT: nat := 4
  const DBF_LONG: nat := 5
  const DBF_ULONG: nat := 6
  const DBF_INT64: nat := 7
  const DBF_UINT64: nat := 8
  const DBF_FLOAT: nat := 9
  const DBF_DOUBLE: nat := 10
  const DBF_ENUM: nat := 11

  /** The size of a DBF_STRING element, terminating NUL included. */
  const MAX_STRING_SIZE: nat := 40

  /** The C type that holds one element of a numeric field type (CHAR to DOUBLE). */
  function ElementType(ft: nat): (t: Option<CType>)
    ensures t.Some? <==> DBF_CHAR <= ft <= DBF_DOUBLE
    ensures t.Some? ==> (t.value.IsFloating() <==> ft == DBF_FLOAT || ft == DBF_DOUBLE)
    ensures t.Some? && !t.value.IsFloating() ==> (t.value.IsSigned() <==> ft in {DBF_CHAR, DBF_SHORT, DBF_LONG, DBF_INT64})
  {
    if ft == DBF_CHAR then Some(Int8)
    else if ft == DBF_UCHAR then Some(UInt8)
    else if ft == DBF_SHORT then Some(Int16)
    else if ft == DBF_USHORT then Some(UInt16)
    else if ft == DBF_LONG then Some(Int32)
    else if ft == DBF_ULONG then Some(UInt32)
    else if ft == DBF_INT64 then Some(Int64)
    else if ft == DBF_UINT64 then Some(UInt64)
    else if ft == DBF_FLOAT then Some(Float32)
    else if ft == DBF_DOUBLE then Some(Float64)
    else None
  }

  /** The bytes taken by a value of C type t. */
  function Bytes(t: CType): (n: nat)
    ensures !t.IsFloating() ==> t.Modulus() == Pow256(n)
  {
    match t
    case Int8 => 1
    case UInt8 => 1
    case Int16 => 2
    case UInt16 => 2
    case Int32 => 4
    case UInt32 => 4
    case Int64 => 8
    case UInt64 => 8
    case Float32 => 4
    case Float64 => 8
  }

  function Pow256(n: nat): nat
  {
    if n == 0 then 1 else 256 * Pow256(n - 1)
  }

  /** dbValueSize: the bytes of one element of field type ft; zero for a code above DBF_ENUM. */
  function DbValueSize(ft: nat): (n: nat)
    ensures n == 0 <==> ft > DBF_ENUM
    ensures ft == DBF_STRING ==> n == MAX_STRING_SIZE
    ensures ft == DBF_ENUM ==> n == 2
    ensures ElementType(ft).Some? ==> n == Bytes(ElementType(ft).value)
  {
    if ft == DBF_STRING then MAX_STRING_SIZE
    else if ft == DBF_CHAR || ft == DBF_UCHAR then 1
    else if ft == DBF_SHORT || ft == DBF_USHORT || ft == DBF_ENUM then 2
    else if ft == DBF_LONG || ft == DBF_ULONG || ft == DBF_FLOAT then 4
    else if ft == DBF_INT64 || ft == DBF_UINT64 || ft == DBF_DOUBLE then 8
    else 0
  }

  /** The eight element types of a waveform that the array helpers accept (no 64-bit integers). */
  predicate IsArrayElementType(ft: nat)
  {
    ft in {DBF_CHAR, DBF_UCHAR, DBF_SHORT, DBF_USHORT, DBF_LONG, DBF_ULONG, DBF_FLOAT, DBF_DOUBLE}
  }

  /** A value of C type t, as a record field of that type holds it. */
  predicate Fits(t: CType, x: Num)
  {
    if t.IsFloating() then x.FNum? else x.INum? && t.Holds(x.i)
  }

  /**
   * The number of input arguments of the pycalc and py records is fixed by the record definition; their
   * names are single letters from A, so there are at most 26.
   */
  const MAX_ARGS: nat := 26

  /** The field and macro name of argument i: "A", "B", ... */
  function ArgName(i: nat): (s: string)
    requires i < MAX_ARGS
    ensures |s| == 1 && s[0] as int == 'A' as int + i
  {
    [('A' as int + i) as char]
  }

  /** Distinct arguments have distinct names. */
  lemma ArgNamesDistinct(i: nat, j: nat)
    requires i < MAX_ARGS && j < MAX_ARGS && i != j
    ensures ArgName(i) != ArgName(j)
  {
    assert ArgName(i)[0] != ArgName(j)[0];
  }

  /**
   * One element of a record's value buffer: a number of the field's C type,
   * or, for DBF_STRING, the text of the element up to its NUL.
   */
  datatype Cell = Number(n: Num) | Text(s: string)

  /**
   * A cell a field of type ft holds: a string shorter than MAX_STRING_SIZE
   * without a NUL, a value of the element's C type, an epicsEnum16 for
   * DBF_ENUM; above DBF_ENUM nothing is said.
   */
  predicate CellFits(ft: nat, c: Cell)
  {
    if ft == DBF_STRING then c.Text? && |c.s| < MAX_STRING_SIZE && NUL !in c.s
    else if ElementType(ft).Some? then c.Number? && Fits(ElementType(ft).value, c.n)
    else if ft == DBF_ENUM then c.Number? && Fits(UInt16, c.n)
    else true
  }

  /** An element of a buffer callocMustSucceed allocated for type ft: all bits zero. */
  function ZeroCell(ft: nat): (c: Cell)
    ensures CellFits(ft, c)
  {
    if ft == DBF_STRING then Text("")
    else if ft == DBF_FLOAT || ft == DBF_DOUBLE then Number(FNum(0.0))
    else Number(INum(0))
  }

  // ------------------------------------------------------------------
  // Effects on the record
  // ------------------------------------------------------------------

  /** The alarm a processing routine leaves pending on its record: none, or INVALID with a status. */
  datatype Alarm = NoAlarm | CalcInvalid | UdfInvalid

  /**
   * recGblSetSevr(rec, stat, INVALID): an alarm already pending at INVALID
   * severity is kept, since only a more severe one replaces it.
   */
  function SetSevr(pending: Alarm, stat: Alarm): (r: Alarm)
    requires stat != NoAlarm
    ensures r != NoAlarm
    ensures pending != NoAlarm ==> r == pending
    ensures pending == NoAlarm ==> r == stat
  {
    if pending == NoAlarm then stat else pending
  }
}
