/**
 * The py record (pyRecord.cpp).  CALC is Python code in which %NAME% and
 * %A%, %B%, ... stand for the record's name and the input arguments, each
 * one scalar of type FTx; processing fetches the arguments from their input
 * links, then a worker writes their values into the code as text, executes
 * it and converts its value to VAL, one scalar of type FTVL.
 */
module PyRecord {
  import opened Wrappers
  import opened CTypes
  import opened CText
  import opened Epics
  import opened AsyncExec
  import opened PyWrapper
  import opened Util
  import opened DevSupport

  /** An input argument: FTx, SIZx (the bytes allocated for the value) and the value. */
  datatype PyArg = PyArg(ft: nat, siz: nat, value: Cell)

  /** The buffer is large enough for the type, and the value is one of the type. */
  predicate ArgValid(a: PyArg)
  {
    a.siz >= DbValueSize(a.ft) && CellFits(a.ft, a.value)
  }

  /**
   * initRecord, pass 0, for one argument: DBF_ENUM and the types above it
   * become DBF_CHAR, and one zeroed element of the type's size is
   * allocated.
   */
  function AllocatedArg(a: PyArg): (r: PyArg)
    ensures ArgValid(r) && r.ft < DBF_ENUM && r.siz == DbValueSize(r.ft)
    ensures r.ft == (if a.ft >= DBF_ENUM then DBF_CHAR else a.ft)
    ensures r.value == ZeroCell(r.ft)
  {
    var ft := if a.ft >= DBF_ENUM then DBF_CHAR else a.ft;
    PyArg(ft, DbValueSize(ft), ZeroCell(ft))
  }

  /**
   * An input link: a constant, with the value recGblInitConstantLink loads
   * if it has one, or a database link, with whether it is connected, the
   * DBF type dbGetLinkDBFtype reports (negative on failure), the element
   * count dbGetNelements reports (nothing on failure) and the value dbGetLink
   * reads in that type.
   */
  datatype Link = Constant(value: Option<Cell>) | DbLink(connected: bool, ftype: int, count: Option<int>, read: Cell)

  /** The link delivers values of the type it reports, or of the argument's type ft for a constant. */
  predicate LinkFits(ft: nat, l: Link)
  {
    match l
    case Constant(v) => v.Some? ==> CellFits(ft, v.value)
    case DbLink(_, ftype, _, read) => ftype >= 0 ==> CellFits(ftype, read)
  }

  /** initRecord, pass 1, for one argument: a constant link's value is loaded. */
  function ConstantLoaded(a: PyArg, l: Link): (r: PyArg)
    requires ArgValid(a) && LinkFits(a.ft, l)
    ensures ArgValid(r) && r.ft == a.ft && r.siz == a.siz
    ensures r.value == (if l.Constant? && l.value.Some? then l.value.value else a.value)
  {
    if l.Constant? && l.value.Some? then a.(value := l.value.value) else a
  }

  /** The link is read: a connected database link of a known type reporting exactly one element. */
  predicate Reports(l: Link)
  {
    l.DbLink? && l.connected && l.ftype >= 0 && l.count == Some(1)
  }

  /**
   * fetchValues for one argument: a link that reports one element sets the
   * argument's type to the link's, grows the buffer when it is too small
   * for that type (and only then), and reads the value.  Any other link
   * leaves the argument alone.
   */
  function Fetched(a: PyArg, l: Link): (r: PyArg)
    requires ArgValid(a) && LinkFits(a.ft, l)
    ensures ArgValid(r) && r.siz >= a.siz
    ensures !Reports(l) ==> r == a
    ensures Reports(l) ==> (r.ft == l.ftype && r.value == l.read &&
      r.siz == (if a.siz < DbValueSize(l.ftype) then DbValueSize(l.ftype) else a.siz))
  {
    if Reports(l) then
      var siz := if a.siz < DbValueSize(l.ftype) then DbValueSize(l.ftype) else a.siz;
      PyArg(l.ftype, siz, l.read)
    else a
  }

  /** The argument whose replacement field is key: "%A%" names argument 0, and so on. */
  function ArgIndex(key: string): (r: Option<nat>)
    ensures r.Some? ==> r.value < MAX_ARGS && key == "%" + ArgName(r.value) + "%"
  {
    if |key| == 3 && key[0] == '%' && key[2] == '%' && 'A' as int <= key[1] as int < 'A' as int + MAX_ARGS then
      var i := key[1] as int - 'A' as int;
      assert key == "%" + ArgName(i) + "%";
      Some(i)
    else None
  }

  /** ArgIndex reads back the field of every argument. */
  lemma ArgIndexOfField(i: nat)
    requires i < MAX_ARGS
    ensures ArgIndex("%" + ArgName(i) + "%") == Some(i)
  {
    var key := "%" + ArgName(i) + "%";
    assert key[1] == ArgName(i)[0];
  }

  /**
   * The text std::to_string gives an argument's value: decimal for the
   * integer types, `realToString` (std::to_string's "%f") for the floating
   * ones, the text itself for DBF_STRING; no text for any other type.
   */
  function ArgText(a: PyArg, realToString: real -> string): (r: Option<string>)
    requires ArgValid(a)
    ensures r.Some? <==> a.ft <= DBF_DOUBLE
    ensures a.ft == DBF_STRING ==> r == Some(a.value.s)
  {
    if a.ft == DBF_STRING then Some(a.value.s)
    else if a.ft <= DBF_DOUBLE then
      var t := ElementType(a.ft).value;
      if t.IsFloating() then Some(realToString(a.value.n.r)) else Some(IntToString(a.value.n.i))
    else None
  }

  /**
   * The text of an integer argument reads back, sign and magnitude, as its
   * value, for every integer type including the unsigned 64-bit one.
   */
  lemma ArgTextRoundTrip(a: PyArg, realToString: real -> string)
    requires ArgValid(a) && ElementType(a.ft).Some? && !ElementType(a.ft).value.IsFloating()
    ensures a.value.Number? && a.value.n.INum?
    ensures var x := a.value.n.i; ScanInteger(ArgText(a, realToString).value) == Some(Scanned(x < 0, if x < 0 then -x else x))
  {
    assert Fits(ElementType(a.ft).value, a.value.n);
    ScanDecimal(a.value.n.i);
  }

  /**
   * The outcome of the callback as written: for DBF_STRING the status is
   * taken from a variable that the string branch shadows and never sets,
   * so it is -1 whatever exec did.
   */
  function CbStatusAsWritten(ftvl: nat, r: Result<bool>): (status: int)
    ensures ftvl == DBF_STRING ==> status == -1
    ensures ftvl != DBF_STRING ==> (status == 0 <==> r == Ok(true))
  {
    if ftvl != DBF_STRING && r == Ok(true) then 0 else -1
  }

  /** The outcome intended for every FTVL: 0 exactly when exec converted the value. */
  function CbStatus(r: Result<bool>): (status: int)
    ensures status == 0 <==> r == Ok(true)
    ensures status == 0 || status == -1
  {
    if r == Ok(true) then 0 else -1
  }

  /**
   * A string VAL that exec filled is reported as a failure as written; the
   * corrected outcome reports it as a success.
   */
  lemma StringSuccessReportedAsFailure()
    ensures CbStatusAsWritten(DBF_STRING, Ok(true)) == -1 && CbStatus(Ok(true)) == 0
  {
  }

  /** The py fields the record support reads or writes. */
  class Py {
    /** NAME, PACT, the pending alarm, the completion requests, and the record's context, which pyRecord.cpp keeps in its own ctx field; Common.dpvt stands for rec->ctx here. */
    const rec: Common
    const calcCode: string
    var ftvl: nat
    var args: seq<PyArg>
    var val: Cell
    /** The alarm recGblResetAlarms made current. */
    var sevr: Alarm
    /** For each completed processing, whether VALUE and LOG events were posted (else only ALARM). */
    var posted: seq<bool>

    /** The record after initRecord: FTVL a scalar type, VAL a value of it, the arguments allocated, a context. */
    ghost predicate Valid()
      reads this, rec
    {
      |args| <= MAX_ARGS && ftvl < DBF_ENUM && CellFits(ftvl, val) && rec.dpvt.Some? &&
      forall i :: 0 <= i < |args| ==> ArgValid(args[i])
    }

    /** The record as the database loads it, before initRecord. */
    constructor (rec: Common, calcCode: string, ftvl: nat, args: seq<PyArg>)
      ensures this.rec == rec && this.calcCode == calcCode && this.ftvl == ftvl && this.args == args && posted == []
    {
      this.rec, this.calcCode, this.ftvl, this.args := rec, calcCode, ftvl, args;
      val, sevr, posted := Text(""), NoAlarm, [];
    }

    /**
     * initRecord, pass 0: a fresh context, every argument allocated, FTVL
     * DBF_ENUM or above replaced by DBF_CHAR, and VAL zeroed.
     */
    method InitRecordPass0() returns (status: int)
      requires |args| <= MAX_ARGS
      modifies this`args, this`ftvl, this`val, rec`dpvt
      ensures Valid() && status == 0
      ensures |args| == |old(args)| && forall i :: 0 <= i < |args| ==> args[i] == AllocatedArg(old(args)[i])
      ensures ftvl == (if old(ftvl) >= DBF_ENUM then DBF_CHAR else old(ftvl)) && val == ZeroCell(ftvl)
      ensures rec.dpvt.Some? && fresh(rec.dpvt.value.bytecode) && rec.dpvt.value.processCbStatus == 0
    {
      var bytecode := new ByteCode();
      rec.dpvt := Some(DevContext(None, 0, "", bytecode));
      var i := 0;
      while i < |args|
        invariant 0 <= i <= |args| == |old(args)| && ftvl == old(ftvl)
        invariant rec.dpvt == Some(DevContext(None, 0, "", bytecode))
        invariant forall j :: 0 <= j < i ==> args[j] == AllocatedArg(old(args)[j])
        invariant forall j :: i <= j < |args| ==> args[j] == old(args)[j]
      {
        args := args[i := AllocatedArg(args[i])];
        i := i + 1;
      }
      if ftvl >= DBF_ENUM {
        ftvl := DBF_CHAR;
      }
      val := ZeroCell(ftvl);
      return 0;
    }

    /** Every link delivers values of the type it claims. */
    ghost predicate LinksFit(links: seq<Link>)
      reads this
    {
      |links| == |args| && forall i :: 0 <= i < |args| ==> LinkFits(args[i].ft, links[i])
    }

    /** initRecord, pass 1: each constant input link's value is loaded into its argument. */
    method InitRecordPass1(links: seq<Link>) returns (status: int)
      requires Valid() && LinksFit(links)
      modifies this`args
      ensures Valid() && status == 0
      ensures |args| == |old(args)| && forall i :: 0 <= i < |args| ==> args[i] == ConstantLoaded(old(args)[i], links[i])
    {
      var i := 0;
      while i < |args|
        invariant 0 <= i <= |args| == |old(args)|
        invariant forall j :: 0 <= j < i ==> args[j] == ConstantLoaded(old(args)[j], links[j])
        invariant forall j :: i <= j < |args| ==> args[j] == old(args)[j]
        invariant forall j :: 0 <= j < |args| ==> ArgValid(args[j]) && args[j].ft == old(args)[j].ft
      {
        args := args[i := ConstantLoaded(args[i], links[i])];
        i := i + 1;
      }
      return 0;
    }

    /** fetchValues: each argument read from its link; the outcome is always 0. */
    method FetchValues(links: seq<Link>) returns (status: int)
      requires Valid() && LinksFit(links)
      modifies this`args
      ensures Valid() && status == 0
      ensures |args| == |old(args)| && forall i :: 0 <= i < |args| ==> args[i] == Fetched(old(args)[i], links[i])
    {
      var i := 0;
      while i < |args|
        invariant 0 <= i <= |args| == |old(args)|
        invariant forall j :: 0 <= j < i ==> args[j] == Fetched(old(args)[j], links[j])
        invariant forall j :: i <= j < |args| ==> args[j] == old(args)[j]
        invariant forall j :: 0 <= j < i ==> ArgValid(args[j])
      {
        args := args[i := Fetched(args[i], links[i])];
        i := i + 1;
      }
      return 0;
    }

    /**
     * The text the callback gives the replacement field key: the record's
     * name for %NAME%, the argument's text for the field of an argument
     * whose type has one; no text for any other key.
     */
    function Recognised(key: string, realToString: real -> string): (r: Option<string>)
      requires Valid()
      reads this, rec
      ensures key == "%NAME%" ==> r == Some(rec.name)
      ensures key != "%NAME%" && ArgIndex(key).Some? && ArgIndex(key).value < |args| ==>
        r == ArgText(args[ArgIndex(key).value], realToString)
      ensures key != "%NAME%" && (ArgIndex(key).None? || ArgIndex(key).value >= |args|) ==> r.None?
    {
      if key == "%NAME%" then Some(rec.name)
      else match ArgIndex(key)
        case Some(i) => if i < |args| then ArgText(args[i], realToString) else None
        case None => None
    }

    /** The new text of each recognised field of `fields`, by key. */
    function Replacements(fields: seq<Entry>, realToString: real -> string): (m: map<string, string>)
      requires Valid()
      reads this, rec
      ensures forall e :: e in fields && Recognised(e.key, realToString).Some? ==>
        e.key in m && m[e.key] == Recognised(e.key, realToString).value
      ensures forall key :: key in m ==> Recognised(key, realToString).Some?
    {
      map e | e in fields && Recognised(e.key, realToString).Some? :: e.key := Recognised(e.key, realToString).value
    }

    /**
     * The code the callback executes: the replacement fields of CALC, as
     * `replacables` (getReplacables) finds them, each recognised one given
     * its text, substituted into CALC.
     */
    function CodeOf(replacables: string -> seq<Entry>, realToString: real -> string): string
      requires Valid() && NonEmptyKeys(replacables(calcCode))
      reads this, rec
    {
      var fields := replacables(calcCode);
      Substitute(calcCode, Assigned(fields, Replacements(fields, realToString)))
    }

    /**
     * processRecordCb: the fields substituted into CALC and the code
     * executed into VAL.  For a numeric FTVL, VAL takes the value when it
     * converts; for DBF_STRING, VAL takes the first 39 characters of the
     * value, or is cleared when the value does not convert, unless exec
     * throws.  The status is 0 exactly when exec converted the value.
     */
    method ProcessRecordCb(py: Interpreter, replacables: string -> seq<Entry>, realToString: real -> string,
                           floatToString: real -> string)
      requires Valid() && NonEmptyKeys(replacables(calcCode))
      modifies this`val, rec`dpvt, rec`completions, py`history
      ensures Valid() && rec.completions == old(rec.completions) + 1
      ensures rec.dpvt.value == old(rec.dpvt.value).(processCbStatus := rec.dpvt.value.processCbStatus)
      ensures ftvl != DBF_STRING ==>
        var o := old(ScalarExec(py, CodeOf(replacables, realToString), ElementType(ftvl).value));
        py.history == old(py.history) + o.runs && rec.dpvt.value.processCbStatus == CbStatus(o.result) &&
        val == (if o.value.Some? then Number(o.value.value) else old(val))
      ensures ftvl == DBF_STRING ==>
        var o := old(StringExec(py, CodeOf(replacables, realToString), floatToString));
        py.history == old(py.history) + o.runs && rec.dpvt.value.processCbStatus == CbStatus(o.result) &&
        val == (if o.result.Throw? then old(val) else Text(Fit(if o.value.Some? then o.value.value else "", MAX_STRING_SIZE)))
    {
      var fields := replacables(calcCode);
      fields := AssignFields(fields, Replacements(fields, realToString));
      var code := Replace(calcCode, fields);
      var r;
      if ftvl != DBF_STRING {
        var v;
        r, v := ExecField(py, code, ElementType(ftvl).value, val.n);
        val := Number(v);
      } else {
        var s;
        r, s := ExecStringField(py, code, floatToString, "");
        if !r.Throw? {
          val := Text(Fit(s, MAX_STRING_SIZE));
        }
      }
      SetStatus(rec, CbStatus(r));
      RequestCompletion(rec);
    }

    /**
     * processRecord.  The first pass sets PACT, fetches the arguments and
     * schedules the callback, returning 0 exactly when it was scheduled
     * (PACT stays set either way).  The second pass raises an INVALID CALC
     * alarm if the callback failed, makes the pending alarm current, posts
     * VALUE and LOG events unless the callback failed, and clears PACT.
     */
    method ProcessRecord(sched: Scheduler, links: seq<Link>) returns (status: int)
      requires Valid() && sched.Valid() && LinksFit(links)
      modifies rec`pact, rec`alarm, this`args, this`sevr, this`posted, sched.tasks
      ensures Valid() && sched.Valid() && sched.tasks.dequeued == old(sched.tasks.dequeued)
      ensures !old(rec.pact) ==> (rec.pact && rec.alarm == old(rec.alarm) &&
        |args| == |old(args)| && (forall i :: 0 <= i < |args| ==> args[i] == Fetched(old(args)[i], links[i])) &&
        (status == 0 <==> sched.workers != []) && (status == 0 || status == -1) &&
        sched.tasks.que == old(sched.tasks.que) + (if status == 0 then [Task(rec.id)] else []) &&
        posted == old(posted))
      ensures old(rec.pact) ==> (!rec.pact && status == 0 && args == old(args) && sched.tasks.que == old(sched.tasks.que) &&
        rec.alarm == NoAlarm &&
        sevr == (if rec.dpvt.value.processCbStatus == -1 then SetSevr(old(rec.alarm), CalcInvalid) else old(rec.alarm)) &&
        posted == old(posted) + [rec.dpvt.value.processCbStatus != -1])
    {
      if !rec.pact {
        rec.pact := true;
        var _ := FetchValues(links);
        var scheduled := sched.Schedule(Task(rec.id));
        return if scheduled then 0 else -1;
      }
      if rec.dpvt.value.processCbStatus == -1 {
        RaiseCalcAlarm(rec);
      }
      sevr := rec.alarm;
      rec.alarm := NoAlarm;
      posted := posted + [rec.dpvt.value.processCbStatus != -1];
      rec.pact := false;
      return 0;
    }

    /** The element count of a scalar field of type ft holding c: a string counts its text and the NUL, others 1. */
    static function Elements(ft: nat, c: Cell): (n: nat)
      requires CellFits(ft, c)
      ensures ft == DBF_STRING ==> n == |c.s| + 1 && n <= MAX_STRING_SIZE
      ensures ft != DBF_STRING ==> n == 1
    {
      if ft == DBF_STRING then |CStr(c.s)| + 1 else 1
    }

    /**
     * convertDbAddr: for argument x, or VAL, the element count Elements
     * gives, its type and its element size; for any other field the address
     * is left alone.
     */
    function ConvertDbAddr(f: FieldRef): (r: Option<AddrInfo>)
      requires Valid()
      reads this, rec
      ensures r.Some? <==> (f.ArgField? && f.i < |args|) || f.ValField?
      ensures r.Some? && f.ArgField? ==> r.value == AddrInfo(Elements(args[f.i].ft, args[f.i].value), args[f.i].ft, DbValueSize(args[f.i].ft))
      ensures r.Some? && f.ValField? ==> r.value == AddrInfo(Elements(ftvl, val), ftvl, DbValueSize(ftvl)) && r.value.fieldSize > 0
    {
      match f
      case ArgField(i) => if i < |args| then Some(AddrInfo(Elements(args[i].ft, args[i].value), args[i].ft, DbValueSize(args[i].ft))) else None
      case ValField => Some(AddrInfo(Elements(ftvl, val), ftvl, DbValueSize(ftvl)))
      case OtherField => None
    }

    /**
     * getArrayInfo: the element count convertDbAddr reports, or
     * `noElements` untouched for another field, and always offset 0.
     */
    function GetArrayInfo(f: FieldRef, noElements: int): (r: (int, int))
      requires Valid()
      reads this, rec
      ensures r.1 == 0
      ensures ConvertDbAddr(f).Some? ==> r.0 == ConvertDbAddr(f).value.noElements
      ensures ConvertDbAddr(f).None? ==> r.0 == noElements
    {
      match f
      case ArgField(i) => if i < |args| then (Elements(args[i].ft, args[i].value), 0) else (noElements, 0)
      case ValField => (Elements(ftvl, val), 0)
      case OtherField => (noElements, 0)
    }
  }

  /** The field an address refers to: an argument by its index, VAL, or another field. */
  datatype FieldRef = ArgField(i: nat) | ValField | OtherField

  /** What convertDbAddr puts in the address: the element count, the field type and the element size. */
  datatype AddrInfo = AddrInfo(noElements: int, fieldType: nat, fieldSize: nat)
}
