/**
 * The pycalc record (pycalcRecord.cpp).  CALC is Python code in which the
 * macros A, B, ... stand for the input arguments and NAME and TPRO for the
 * record's own fields.  Processing fetches the arguments from their input
 * links, then a worker compiles the code (once for each text), evaluates it
 * with the arguments, and converts the result into VAL, at most MEVL
 * elements of type FTVL with NEVL their number; the second pass writes VAL
 * to the OUT link and posts the events.
 */
module PycalcRecord {
  import opened Wrappers
  import opened CTypes
  import opened Variants
  import opened Epics
  import opened AsyncExec
  import opened PyWrapper
  import opened DevSupport

  /** An input argument: FTx, MEx (the elements allocated), NEx (the elements in use), SIZx and the value buffer. */
  datatype Arg = Arg(ft: nat, me: int, ne: nat, siz: nat, buf: seq<Cell>)

  /** An argument as initRecord leaves it and processing keeps it. */
  predicate ArgValid(a: Arg)
  {
    a.ft <= DBF_ENUM && 1 <= a.me == |a.buf| && a.ne <= a.me && a.siz == DbValueSize(a.ft) &&
    forall k :: 0 <= k < |a.buf| ==> CellFits(a.ft, a.buf[k])
  }

  /**
   * initRecord, pass 0, for one argument: a type above DBF_ENUM becomes
   * DBF_CHAR and a capacity below 1 becomes 1 (valid ones are kept), one
   * element is in use exactly when the capacity is 1, and the buffer is
   * allocated zeroed.
   */
  function AllocatedArg(a: Arg): (r: Arg)
    ensures ArgValid(r)
    ensures a.ft <= DBF_ENUM ==> r.ft == a.ft
    ensures a.ft > DBF_ENUM ==> r.ft == DBF_CHAR
    ensures r.me == (if a.me < 1 then 1 else a.me)
    ensures r.ne == (if r.me == 1 then 1 else 0)
  {
    var ft := if a.ft > DBF_ENUM then DBF_CHAR else a.ft;
    var me := if a.me < 1 then 1 else a.me;
    Arg(ft, me, if me == 1 then 1 else 0, DbValueSize(ft), seq(me, _ => ZeroCell(ft)))
  }

  /**
   * An input link: a constant, with the value recGblInitConstantLink loads
   * if it has one, or a database link, with whether it is connected, the
   * element count dbGetNelements reports (nothing when it fails) and the
   * elements dbGetLink delivers, already converted to the argument's type.
   */
  datatype Link = Constant(value: Option<Cell>) | DbLink(connected: bool, count: Option<int>, read: seq<Cell>)

  /** The link delivers values of type ft. */
  predicate LinkFits(ft: nat, l: Link)
  {
    match l
    case Constant(v) => v.Some? ==> CellFits(ft, v.value)
    case DbLink(_, _, read) => forall k :: 0 <= k < |read| ==> CellFits(ft, read[k])
  }

  /** initRecord, pass 1, for one argument: a constant link's value is loaded into the first element. */
  function ConstantLoaded(a: Arg, l: Link): (r: Arg)
    requires ArgValid(a) && LinkFits(a.ft, l)
    ensures ArgValid(r) && r.(buf := a.buf) == a
    ensures l.Constant? && l.value.Some? ==> r.buf[0] == l.value.value && r.buf[1..] == a.buf[1..]
    ensures !(l.Constant? && l.value.Some?) ==> r == a
  {
    if l.Constant? && l.value.Some? then a.(buf := a.buf[0 := l.value.value]) else a
  }

  /** The link is read: a connected database link reporting a positive element count. */
  predicate Reports(l: Link)
  {
    l.DbLink? && l.connected && l.count.Some? && l.count.value > 0
  }

  /**
   * fetchValues for one argument: a link that reports elements is asked
   * for at most MEx of them, and NEx becomes the number delivered, so it
   * never exceeds MEx; the elements beyond stay as they were.  Any other
   * link leaves the argument alone.
   */
  function Fetched(a: Arg, l: Link): (r: Arg)
    requires ArgValid(a) && LinkFits(a.ft, l)
    ensures ArgValid(r) && r.ft == a.ft && r.me == a.me && r.siz == a.siz
    ensures !Reports(l) ==> r == a
    ensures Reports(l) ==> (r.ne == Min(Min(l.count.value, a.me), |l.read|) &&
      r.buf[..r.ne] == l.read[..r.ne] && r.buf[r.ne..] == a.buf[r.ne..])
  {
    if Reports(l) then
      var n := Min(Min(l.count.value, a.me), |l.read|);
      a.(ne := n, buf := l.read[..n] + a.buf[n..])
    else a
  }

  /** The Variant a single element of type ft is passed as: integers signed or unsigned by their type, floats as doubles. */
  function ScalarVariant(ft: nat, c: Cell): (v: Variant)
    requires ft < DBF_ENUM && CellFits(ft, c)
    ensures !v.IsVector() && v != Nothing
    ensures ft == DBF_STRING <==> v.String?
  {
    if ft == DBF_STRING then String(c.s)
    else
      var t := ElementType(ft).value;
      if t.IsFloating() then Double(c.n.r)
      else if t.IsSigned() then Long(c.n.i)
      else Unsigned(c.n.i)
  }

  /** The texts of string elements. */
  function Texts(cells: seq<Cell>): (r: seq<string>)
    requires forall k :: 0 <= k < |cells| ==> cells[k].Text?
    ensures |r| == |cells| && forall k :: 0 <= k < |cells| ==> r[k] == cells[k].s
  {
    seq(|cells|, k requires 0 <= k < |cells| => cells[k].s)
  }

  /** The values of floating elements. */
  function Reals(cells: seq<Cell>): (r: seq<real>)
    requires forall k :: 0 <= k < |cells| ==> cells[k].Number? && cells[k].n.FNum?
    ensures |r| == |cells| && forall k :: 0 <= k < |cells| ==> r[k] == cells[k].n.r
  {
    seq(|cells|, k requires 0 <= k < |cells| => cells[k].n.r)
  }

  /** The values of integer elements of type t, as a 64-bit integer of t's signedness holds them. */
  function Ints(t: CType, cells: seq<Cell>): (r: seq<int>)
    requires !t.IsFloating()
    requires forall k :: 0 <= k < |cells| ==> cells[k].Number? && cells[k].n.INum? && t.Holds(cells[k].n.i)
    ensures |r| == |cells| && forall k :: 0 <= k < |cells| ==> r[k] == cells[k].n.i && t.Holds(r[k])
  {
    seq(|cells|, k requires 0 <= k < |cells| => cells[k].n.i)
  }

  /** The Variant the elements of an array argument of type ft are passed as. */
  function VectorVariant(ft: nat, cells: seq<Cell>): (v: Variant)
    requires ft < DBF_ENUM && forall k :: 0 <= k < |cells| ==> CellFits(ft, cells[k])
    ensures v.IsVector() && v.Length() == |cells|
    ensures ft == DBF_STRING <==> v.VectorString?
  {
    if ft == DBF_STRING then
      assert forall k :: 0 <= k < |cells| ==> cells[k].Text? by {
        forall k | 0 <= k < |cells| ensures cells[k].Text? { assert CellFits(ft, cells[k]); }
      }
      VectorString(Texts(cells))
    else
      var t := ElementType(ft).value;
      assert forall k :: 0 <= k < |cells| ==> cells[k].Number? && Fits(t, cells[k].n) by {
        forall k | 0 <= k < |cells| ensures cells[k].Number? && Fits(t, cells[k].n) { assert CellFits(ft, cells[k]); }
      }
      if t.IsFloating() then VectorDouble(Reals(cells))
      else if t.IsSigned() then VectorLong(Ints(t, cells))
      else VectorUnsigned(Ints(t, cells))
  }

  /**
   * The value argument x is passed as: one element when MEx is 1, else a
   * vector of its NEx elements in use; a DBF_ENUM argument is not passed.
   */
  function ArgVariant(a: Arg): (v: Option<Variant>)
    requires ArgValid(a)
    ensures v.None? <==> a.ft == DBF_ENUM
    ensures v.Some? && a.me == 1 ==> !v.value.IsVector()
    ensures v.Some? && a.me != 1 ==> v.value.IsVector() && v.value.Length() == a.ne
  {
    if a.ft == DBF_ENUM then None
    else if a.me == 1 then Some(ScalarVariant(a.ft, a.buf[0]))
    else Some(VectorVariant(a.ft, a.buf[..a.ne]))
  }

  /** The macros of the arguments, each that is passed under its letter. */
  function ArgMacros(args: seq<Arg>): (m: map<string, Variant>)
    requires |args| <= MAX_ARGS && forall i :: 0 <= i < |args| ==> ArgValid(args[i])
    ensures forall key :: key in m ==> |key| == 1
    ensures forall i :: 0 <= i < |args| ==> (ArgName(i) in m <==> ArgVariant(args[i]).Some?)
    ensures forall i :: 0 <= i < |args| && ArgName(i) in m ==> m[ArgName(i)] == ArgVariant(args[i]).value
  {
    var m := map i | 0 <= i < |args| && ArgVariant(args[i]).Some? :: ArgName(i) := ArgVariant(args[i]).value;
    assert forall i, j :: 0 <= i < |args| && 0 <= j < |args| && i != j ==> ArgName(i) != ArgName(j) by {
      forall i, j | 0 <= i < |args| && 0 <= j < |args| && i != j ensures ArgName(i) != ArgName(j) {
        ArgNamesDistinct(i, j);
      }
    }
    m
  }

  /**
   * The argument letters renamed in the code but passed nothing: those of
   * the arguments that have no Variant (DBF_ENUM).
   */
  function BareArgs(args: seq<Arg>): (b: set<string>)
    requires |args| <= MAX_ARGS && forall i :: 0 <= i < |args| ==> ArgValid(args[i])
    ensures forall i :: 0 <= i < |args| ==> (ArgName(i) in b <==> ArgVariant(args[i]).None?)
    ensures forall key :: key in b ==> key !in ArgMacros(args) && exists i :: 0 <= i < |args| && key == ArgName(i)
  {
    assert forall i, j :: 0 <= i < |args| && 0 <= j < |args| && i != j ==> ArgName(i) != ArgName(j) by {
      forall i, j | 0 <= i < |args| && 0 <= j < |args| && i != j ensures ArgName(i) != ArgName(j) {
        ArgNamesDistinct(i, j);
      }
    }
    set i | 0 <= i < |args| && ArgVariant(args[i]).None? :: ArgName(i)
  }

  /**
   * The DBF type dbFastPutConvertRoutine converts from and the elements to
   * convert, for each kind of result: a bool or a long as an epicsInt32, an
   * unsigned cut to 32 bits and read as epicsUInt32, a double as itself, a
   * string as its first 39 characters; a vector element by element, where
   * the 64-bit integers are read through a 32-bit pointer (their low half,
   * on a little-endian host).  NONE has nothing to convert.
   */
  function Outputs(v: Variant): (r: Option<(nat, seq<Cell>)>)
    ensures r.None? <==> v == Nothing
    ensures r.Some? && !v.IsVector() ==> |r.value.1| == 1
    ensures r.Some? && v.IsVector() ==> |r.value.1| == v.Length()
  {
    match v
    case Nothing => None
    case Bool(b) => Some((DBF_LONG, [Number(INum(if b then 1 else 0))]))
    case Long(l) => Some((DBF_LONG, [Number(INum(Wrap(Int32, l)))]))
    case Unsigned(u) => Some((DBF_ULONG, [Number(INum(Wrap(UInt32, u)))]))
    case Double(d) => Some((DBF_DOUBLE, [Number(FNum(d))]))
    case String(s) => Some((DBF_STRING, [Text(CText.Fit(s, MAX_STRING_SIZE))]))
    case VectorLong(xs) => Some((DBF_LONG, seq(|xs|, k requires 0 <= k < |xs| => Number(INum(Wrap(Int32, xs[k]))))))
    case VectorUnsigned(xs) => Some((DBF_ULONG, seq(|xs|, k requires 0 <= k < |xs| => Number(INum(Wrap(UInt32, xs[k]))))))
    case VectorDouble(xs) => Some((DBF_DOUBLE, seq(|xs|, k requires 0 <= k < |xs| => Number(FNum(xs[k])))))
    case VectorString(xs) => Some((DBF_STRING, seq(|xs|, k requires 0 <= k < |xs| => Text(CText.CStr(xs[k])))))
  }

  /**
   * dbFastPutConvertRoutine[from][ftvl]: EPICS's conversion of one element,
   * which is not part of this model; nothing when it fails.
   */
  type Converter = (nat, Cell, nat) -> Option<Cell>

  /**
   * The VAL buffer `after` and NEVL `count` that converting `cells` into the
   * buffer `before` leaves: the first `count` elements converted in order,
   * the rest of the buffer kept, `ok` exactly when no conversion failed
   * before the end of the cells or of the buffer, and otherwise the element
   * at `count` the one that failed.
   */
  ghost predicate Converted(cells: seq<Cell>, from: nat, ftvl: nat, convert: Converter,
                            before: seq<Cell>, after: seq<Cell>, count: nat, ok: bool)
  {
    |after| == |before| && count <= Min(|cells|, |before|) &&
    (forall j :: 0 <= j < count ==> convert(from, cells[j], ftvl) == Some(after[j])) &&
    (forall j :: count <= j < |before| ==> after[j] == before[j]) &&
    (ok <==> count == Min(|cells|, |before|)) &&
    (!ok ==> convert(from, cells[count], ftvl).None?)
  }

  /** The conversion has one outcome: the predicate fixes the buffer, the count and the verdict. */
  lemma ConvertedUnique(cells: seq<Cell>, from: nat, ftvl: nat, convert: Converter, before: seq<Cell>,
                        after1: seq<Cell>, count1: nat, ok1: bool, after2: seq<Cell>, count2: nat, ok2: bool)
    requires Converted(cells, from, ftvl, convert, before, after1, count1, ok1)
    requires Converted(cells, from, ftvl, convert, before, after2, count2, ok2)
    ensures after1 == after2 && count1 == count2 && ok1 == ok2
  {
    forall j | 0 <= j < |before|
      ensures after1[j] == after2[j]
    {
      if j < count1 {
        assert Some(after1[j]) == convert(from, cells[j], ftvl) == Some(after2[j]);
      }
    }
  }

  /**
   * What storing the outcome r of evaluation does to VAL and NEVL: a failed
   * evaluation keeps both and fails; a NONE result empties VAL (NEVL 0,
   * elements kept) and fails; any other result is converted as Converted
   * says.
   */
  ghost predicate StoredResult(r: Result<Variant>, ftvl: nat, convert: Converter, before: seq<Cell>, after: seq<Cell>,
                               countBefore: nat, count: nat, ok: bool)
  {
    if r.Throw? then !ok && count == countBefore && after == before
    else match Outputs(r.value)
      case None => !ok && count == 0 && after == before
      case Some(out) => Converted(out.1, out.0, ftvl, convert, before, after, count, ok)
  }

  /** The pycalc fields the record support reads or writes. */
  class Pycalc {
    /** NAME, PACT, the pending alarm, the completion requests, and the record's context, which pycalcRecord.cpp keeps in its own ctx field; Common.dpvt stands for rec->ctx here. */
    const rec: Common
    const calcCode: string
    const tpro: EpicsUInt8
    const ftvl: nat
    var args: seq<Arg>
    var mevl: int
    var val: array<Cell>
    var nevl: nat
    /** The values dbPutLink wrote to OUT, oldest first. */
    var written: seq<seq<Cell>>
    /** The alarm recGblResetAlarms made current. */
    var sevr: Alarm
    /** For each completed processing, whether VALUE and LOG events were posted (else only ALARM). */
    var posted: seq<bool>

    /** The record after initRecord: arguments and VAL allocated, NEVL within MEVL, a context. */
    ghost predicate Valid()
      reads this, rec
    {
      |args| <= MAX_ARGS && ftvl <= DBF_ENUM && 1 <= mevl == val.Length && nevl <= mevl && rec.dpvt.Some? &&
      forall i :: 0 <= i < |args| ==> ArgValid(args[i])
    }

    /** The record as the database loads it, before initRecord. */
    constructor (rec: Common, calcCode: string, tpro: EpicsUInt8, ftvl: nat, mevl: int, args: seq<Arg>)
      ensures this.rec == rec && this.calcCode == calcCode && this.tpro == tpro && this.ftvl == ftvl
      ensures this.mevl == mevl && this.args == args && nevl == 0 && written == [] && posted == []
    {
      this.rec, this.calcCode, this.tpro, this.ftvl, this.mevl, this.args := rec, calcCode, tpro, ftvl, mevl, args;
      val := new Cell[0];
      nevl, written, sevr, posted := 0, [], NoAlarm, [];
    }

    /**
     * initRecord, pass 0: a fresh context, every argument allocated, MEVL
     * raised to at least 1 and VAL allocated with MEVL zeroed elements.
     */
    method InitRecordPass0() returns (status: int)
      requires |args| <= MAX_ARGS && ftvl <= DBF_ENUM && nevl == 0
      modifies this`args, this`mevl, this`val, rec`dpvt
      ensures Valid() && status == 0 && nevl == 0
      ensures |args| == |old(args)| && forall i :: 0 <= i < |args| ==> args[i] == AllocatedArg(old(args)[i])
      ensures mevl == (if old(mevl) < 1 then 1 else old(mevl)) && fresh(val)
      ensures forall k :: 0 <= k < val.Length ==> val[k] == ZeroCell(ftvl)
      ensures rec.dpvt.Some? && fresh(rec.dpvt.value.bytecode) && rec.dpvt.value.bytecode.code.None?
      ensures rec.dpvt.value.code == "" && rec.dpvt.value.processCbStatus == 0
    {
      var bytecode := new ByteCode();
      rec.dpvt := Some(DevContext(None, 0, "", bytecode));
      var i := 0;
      while i < |args|
        invariant 0 <= i <= |args| == |old(args)| && mevl == old(mevl)
        invariant rec.dpvt == Some(DevContext(None, 0, "", bytecode)) && bytecode.code.None?
        invariant forall j :: 0 <= j < i ==> args[j] == AllocatedArg(old(args)[j])
        invariant forall j :: i <= j < |args| ==> args[j] == old(args)[j]
      {
        args := args[i := AllocatedArg(args[i])];
        i := i + 1;
      }
      if mevl < 1 {
        mevl := 1;
      }
      val := new Cell[mevl](_ => ZeroCell(ftvl));
      return 0;
    }

    /** Every link delivers values of its argument's type. */
    ghost predicate LinksFit(links: seq<Link>)
      reads this
    {
      |links| == |args| && forall i :: 0 <= i < |args| ==> LinkFits(args[i].ft, links[i])
    }

    /** initRecord, pass 1: each constant input link's value is loaded into its argument. */
    method InitRecordPass1(links: seq<Link>) returns (status: int)
      requires Valid() && LinksFit(links)
      modifies this`args
      ensures Valid() && status == 0
      ensures |args| == |old(args)| && forall i :: 0 <= i < |args| ==> args[i] == ConstantLoaded(old(args)[i], links[i])
    {
      var i := 0;
      while i < |args|
        invariant 0 <= i <= |args| == |old(args)|
        invariant forall j :: 0 <= j < i ==> args[j] == ConstantLoaded(old(args)[j], links[j])
        invariant forall j :: i <= j < |args| ==> args[j] == old(args)[j]
        invariant forall j :: 0 <= j < |args| ==> ArgValid(args[j]) && args[j].ft == old(args)[j].ft
      {
        args := args[i := ConstantLoaded(args[i], links[i])];
        i := i + 1;
      }
      return 0;
    }

    /** fetchValues: each argument read from its link; the outcome is always 0. */
    method FetchValues(links: seq<Link>) returns (status: int)
      requires Valid() && LinksFit(links)
      modifies this`args
      ensures Valid() && status == 0
      ensures |args| == |old(args)| && forall i :: 0 <= i < |args| ==> args[i] == Fetched(old(args)[i], links[i])
    {
      var i := 0;
      while i < |args|
        invariant 0 <= i <= |args| == |old(args)|
        invariant forall j :: 0 <= j < i ==> args[j] == Fetched(old(args)[j], links[j])
        invariant forall j :: i <= j < |args| ==> args[j] == old(args)[j]
        invariant forall j :: 0 <= j < |args| ==> ArgValid(args[j]) && args[j].ft == old(args)[j].ft
      {
        args := args[i := Fetched(args[i], links[i])];
        i := i + 1;
      }
      return 0;
    }

    /**
     * The arguments the code is evaluated with, by macro name: NAME as a
     * string, TPRO as an unsigned, and each argument that is not DBF_ENUM
     * under its letter.
     */
    function Macros(): (m: map<string, Variant>)
      requires Valid()
      reads this, rec
      ensures "NAME" in m && m["NAME"] == String(rec.name) && "TPRO" in m && m["TPRO"] == Unsigned(tpro)
      ensures forall i :: 0 <= i < |args| ==> (ArgName(i) in m <==> ArgVariant(args[i]).Some?)
      ensures forall i :: 0 <= i < |args| && ArgName(i) in m ==> m[ArgName(i)] == ArgVariant(args[i]).value
    {
      var base := ArgMacros(args);
      var m := base["NAME" := String(rec.name)]["TPRO" := Unsigned(tpro)];
      assert forall i :: 0 <= i < |args| ==> (ArgName(i) in m <==> ArgName(i) in base) && (ArgName(i) in m ==> m[ArgName(i)] == base[ArgName(i)]) by {
        forall i | 0 <= i < |args|
          ensures (ArgName(i) in m <==> ArgName(i) in base) && (ArgName(i) in m ==> m[ArgName(i)] == base[ArgName(i)])
        {
          assert |ArgName(i)| != |"NAME"|;
        }
      }
      m
    }

    /**
     * The loop that converts the result into VAL: element i is converted
     * and NEVL counted up, while there are elements and i < MEVL; a failed
     * conversion stops it.
     */
    method PutValues(from: nat, cells: seq<Cell>, convert: Converter) returns (ok: bool)
      requires val.Length == mevl && nevl == 0
      modifies val, this`nevl
      ensures Converted(cells, from, ftvl, convert, old(val[..]), val[..], nevl, ok)
    {
      var n := Min(|cells|, val.Length);
      var i := 0;
      while i < n
        invariant 0 <= i <= n && nevl == i
        invariant forall j :: 0 <= j < i ==> convert(from, cells[j], ftvl) == Some(val[j])
        invariant forall j :: i <= j < val.Length ==> val[j] == old(val[j])
      {
        var c := convert(from, cells[i], ftvl);
        if c.None? {
          return false;
        }
        val[i] := c.value;
        nevl := nevl + 1;
        i := i + 1;
      }
      return true;
    }

    /**
     * The part of processRecordCb after evaluation: a failed evaluation
     * keeps VAL and NEVL; otherwise NEVL restarts at 0 and the result is
     * converted into VAL.  The outcome is true exactly when the result is
     * not NONE and every element up to MEVL converted.
     */
    method StoreResult(r: Result<Variant>, convert: Converter) returns (ok: bool)
      requires Valid()
      modifies val, this`nevl
      ensures Valid()
      ensures StoredResult(r, ftvl, convert, old(val[..]), val[..], old(nevl), nevl, ok)
    {
      if r.Throw? {
        return false;
      }
      nevl := 0;
      var out := Outputs(r.value);
      if out.None? {
        return false;
      }
      ok := PutValues(out.value.0, out.value.1, convert);
    }

    /**
     * processRecordCb: the code is brought up to date in the cache and
     * evaluated with the arguments, and the result stored as StoreResult
     * says.  The status is 0 when it was stored in full; otherwise an
     * INVALID CALC alarm is raised and the status is -1.
     */
    method ProcessRecordCb(py: Interpreter, mt: MacroText, convert: Converter)
      requires Valid() && py.Valid() && CacheHolds(rec.dpvt.value, py)
      modifies rec`dpvt, rec.dpvt.value.bytecode, py`compiled, py`nextHandle, py`history
      modifies val, this`nevl, rec`alarm, rec`completions
      ensures Valid() && py.Valid() && CacheHolds(rec.dpvt.value, py) && rec.completions == old(rec.completions) + 1
      ensures var r := old(CachedRun(py, rec.dpvt.value, calcCode, mt, Macros(), BareArgs(args), true));
        var status := rec.dpvt.value.processCbStatus;
        (status == 0 || status == -1) &&
        StoredResult(r, ftvl, convert, old(val[..]), val[..], old(nevl), nevl, status == 0) &&
        rec.alarm == (if status == 0 then old(rec.alarm) else SetSevr(old(rec.alarm), CalcInvalid))
    {
      var r := EvalCached(rec, calcCode, mt, Macros(), BareArgs(args), py, true, true);
      var ok := StoreResult(r, convert);
      var status := if ok then 0 else -1;
      if status != 0 {
        RaiseCalcAlarm(rec);
      }
      SetStatus(rec, status);
      RequestCompletion(rec);
    }

    /**
     * processRecord.  The first pass sets PACT, fetches the arguments and
     * schedules the callback, returning 0 exactly when it was scheduled
     * (PACT stays set either way).  The second pass raises an INVALID CALC
     * alarm if the callback failed, writes the NEVL elements of VAL to OUT,
     * makes the pending alarm current, posts VALUE and LOG events unless the
     * callback failed, and clears PACT.
     */
    method ProcessRecord(sched: Scheduler, links: seq<Link>) returns (status: int)
      requires Valid() && sched.Valid() && LinksFit(links)
      modifies rec`pact, rec`alarm, this`args, this`written, this`sevr, this`posted, sched.tasks
      ensures Valid() && sched.Valid() && sched.tasks.dequeued == old(sched.tasks.dequeued)
      ensures !old(rec.pact) ==> (rec.pact && rec.alarm == old(rec.alarm) &&
        |args| == |old(args)| && (forall i :: 0 <= i < |args| ==> args[i] == Fetched(old(args)[i], links[i])) &&
        (status == 0 <==> sched.workers != []) && (status == 0 || status == -1) &&
        sched.tasks.que == old(sched.tasks.que) + (if status == 0 then [Task(rec.id)] else []) &&
        written == old(written) && posted == old(posted))
      ensures old(rec.pact) ==> (!rec.pact && status == 0 && args == old(args) && sched.tasks.que == old(sched.tasks.que) &&
        written == old(written) + [val[..nevl]] && rec.alarm == NoAlarm &&
        sevr == (if rec.dpvt.value.processCbStatus == -1 then SetSevr(old(rec.alarm), CalcInvalid) else old(rec.alarm)) &&
        posted == old(posted) + [rec.dpvt.value.processCbStatus != -1])
    {
      if !rec.pact {
        rec.pact := true;
        var _ := FetchValues(links);
        var scheduled := sched.Schedule(Task(rec.id));
        return if scheduled then 0 else -1;
      }
      if rec.dpvt.value.processCbStatus == -1 {
        RaiseCalcAlarm(rec);
      }
      written := written + [val[..nevl]];
      sevr := rec.alarm;
      rec.alarm := NoAlarm;
      posted := posted + [rec.dpvt.value.processCbStatus != -1];
      rec.pact := false;
      return 0;
    }

    /**
     * convertDbAddr: for argument x its element count NEx, type FTx and
     * element size, for VAL NEVL, FTVL and its size; for any other field
     * the address is left alone.  The count never exceeds the elements
     * allocated.
     */
    function ConvertDbAddr(f: FieldRef): (r: Option<AddrInfo>)
      requires Valid()
      reads this, rec
      ensures r.Some? <==> (f.ArgField? && f.i < |args|) || f.ValField?
      ensures r.Some? && f.ArgField? ==>
        r.value.noElements == args[f.i].ne <= args[f.i].me && r.value.fieldType == args[f.i].ft
      ensures r.Some? && f.ValField? ==> r.value.noElements == nevl <= val.Length && r.value.fieldType == ftvl
      ensures r.Some? ==> r.value.fieldSize == DbValueSize(r.value.fieldType) > 0
    {
      match f
      case ArgField(i) => if i < |args| then Some(AddrInfo(args[i].ne, args[i].ft, args[i].siz)) else None
      case ValField => Some(AddrInfo(nevl, ftvl, DbValueSize(ftvl)))
      case OtherField => None
    }

    /**
     * getArrayInfo: the element count convertDbAddr reports (NEx or NEVL),
     * or `noElements` untouched for another field, and always offset 0.
     */
    function GetArrayInfo(f: FieldRef, noElements: int): (r: (int, int))
      requires Valid()
      reads this, rec
      ensures r.1 == 0
      ensures ConvertDbAddr(f).Some? ==> r.0 == ConvertDbAddr(f).value.noElements
      ensures ConvertDbAddr(f).None? ==> r.0 == noElements
    {
      match f
      case ArgField(i) => if i < |args| then (args[i].ne, 0) else (noElements, 0)
      case ValField => (nevl, 0)
      case OtherField => (noElements, 0)
    }
  }

  /** The field an address refers to: an argument by its index, VAL, or another field. */
  datatype FieldRef = ArgField(i: nat) | ValField | OtherField

  /** What convertDbAddr puts in the address: the element count, the field type and the element size. */
  datatype AddrInfo = AddrInfo(noElements: int, fieldType: nat, fieldSize: nat)
}
