/**
 * The older, template-based device support (epicsdevice.cpp) for the
 * longin, mbbi, bi, ai and stringin input records and the longout, mbbo,
 * bo, ao and stringout output records.  The link is Python code in which
 * every "%value%" stands for the text of the record's value; the code is
 * executed and its value, converted to the field's type, stored back.
 * Only an exception (or, for input records, a value that does not convert)
 * raises an alarm; there is no status: the second pass always returns 0.
 */
module EpicsDevice {
  import opened Wrappers
  import opened CTypes
  import opened CText
  import opened Epics
  import opened AsyncExec
  import opened PyWrapper
  import opened Util
  import opened DevSupport

  /** LINK_VALUE_NEEDLE */
  const NEEDLE: string := "%value%"

  /** w occurs in s starting at p. */
  predicate OccursAt(s: string, p: nat, w: string)
  {
    p + |w| <= |s| && s[p..p + |w|] == w
  }

  /** std::string::find(w, from): the first position from `from` on at which w occurs. */
  function Find(s: string, w: string, from: nat): (r: Option<nat>)
    ensures r.Some? ==> from <= r.value && OccursAt(s, r.value, w)
    ensures r.Some? ==> forall p :: from <= p < r.value ==> !OccursAt(s, p, w)
    ensures r.None? ==> forall p :: from <= p ==> !OccursAt(s, p, w)
    decreases |s| - from
  {
    if from + |w| > |s| then None
    else if OccursAt(s, from, w) then Some(from)
    else Find(s, w, from + 1)
  }

  /** The number of percent signs in s. */
  function Percents(s: string): nat
  {
    multiset(s)['%']
  }

  /** Replacing one needle by v removes the needle's two percent signs and adds v's. */
  lemma ReplaceCountsPercents(s: string, p: nat, v: string)
    requires OccursAt(s, p, NEEDLE)
    ensures Percents(s[..p] + v + s[p + |NEEDLE|..]) + 2 == Percents(s) + Percents(v)
  {
    var rest := s[p + |NEEDLE|..];
    assert s == s[..p] + NEEDLE + rest;
    assert NEEDLE == "%" + "value" + "%";
    assert '%' !in "value";
    assert multiset(NEEDLE)['%'] == 2;
  }

  /** A needle inside the replacement text is a needle of the result. */
  lemma ReplaceKeepsInsertedNeedle(s: string, p: nat, v: string, q: nat)
    requires OccursAt(s, p, NEEDLE) && OccursAt(v, q, NEEDLE)
    ensures OccursAt(s[..p] + v + s[p + |NEEDLE|..], p + q, NEEDLE)
  {
    var t := s[..p] + v + s[p + |NEEDLE|..];
    assert t[p + q..p + q + |NEEDLE|] == v[q..q + |NEEDLE|];
  }

  /** One pass of linkToPyCode as written: the first needle of s replaced by the value. */
  function ReplacedFirst(s: string, recordVal: string): string
    requires Find(s, NEEDLE, 0).Some?
  {
    var p := Find(s, NEEDLE, 0).value;
    s[..p] + recordVal + s[p + |NEEDLE|..]
  }

  /**
   * A pass removes the needle's two percent signs and adds the value's;
   * it leaves a needle when the value holds one; and for a plain value it
   * keeps the corrected replacement.
   */
  lemma ReplaceFirstStep(s: string, recordVal: string)
    requires Find(s, NEEDLE, 0).Some?
    ensures '%' !in recordVal ==> Percents(ReplacedFirst(s, recordVal)) + 2 == Percents(s)
    ensures Find(recordVal, NEEDLE, 0).Some? ==> Find(ReplacedFirst(s, recordVal), NEEDLE, 0).Some?
    ensures Plain(recordVal) ==> LinkToPyCode(ReplacedFirst(s, recordVal), recordVal) == LinkToPyCode(s, recordVal)
  {
    var p := Find(s, NEEDLE, 0).value;
    ReplaceCountsPercents(s, p, recordVal);
    if Find(recordVal, NEEDLE, 0).Some? {
      ReplaceKeepsInsertedNeedle(s, p, recordVal, Find(recordVal, NEEDLE, 0).value);
    }
    if Plain(recordVal) {
      ReplaceFirstKeepsCorrected(s, recordVal);
    }
  }

  /**
   * linkToPyCode as written: every pass replaces the first "%value%" and
   * searches again from the start, so a needle inside the record's value
   * is found again.  `fuel` bounds the passes; `finished` says the loop
   * ended within them.  It ends (within as many passes as the link has
   * percent signs) when the value has no percent sign, and never when the
   * value holds the needle and the link does too.
   */
  method LinkToPyCodeAsWritten(input: string, recordVal: string, fuel: nat) returns (output: string, finished: bool)
    ensures finished ==> Find(output, NEEDLE, 0).None?
    ensures Find(input, NEEDLE, 0).None? ==> finished && output == input
    ensures '%' !in recordVal && fuel >= Percents(input) ==> finished
    ensures Find(input, NEEDLE, 0).Some? && Find(recordVal, NEEDLE, 0).Some? ==> !finished
    ensures Plain(recordVal) && finished ==> output == LinkToPyCode(input, recordVal)
  {
    output := input;
    var pos := Find(output, NEEDLE, 0);
    var passes := 0;
    while pos.Some? && passes < fuel
      invariant pos == Find(output, NEEDLE, 0) && passes <= fuel
      invariant '%' !in recordVal ==> Percents(output) + 2 * passes == Percents(input)
      invariant Find(input, NEEDLE, 0).Some? && Find(recordVal, NEEDLE, 0).Some? ==> pos.Some?
      invariant Find(input, NEEDLE, 0).None? ==> output == input && passes == 0
      invariant Plain(recordVal) ==> LinkToPyCode(output, recordVal) == LinkToPyCode(input, recordVal)
      decreases fuel - passes
    {
      ReplaceFirstStep(output, recordVal);
      output := ReplacedFirst(output, recordVal);
      pos := Find(output, NEEDLE, 0);
      passes := passes + 1;
    }
    if pos.Some? && '%' !in recordVal && fuel >= Percents(input) {
      ReplaceCountsPercents(output, pos.value, "");
    }
    finished := pos.None?;
    if finished {
      LinkToPyCodeStep(output, recordVal);
    }
  }

  /** The replacement map of the corrected linkToPyCode: the needle and the record's value. */
  function NeedleMap(recordVal: string): (f: seq<Entry>)
    ensures NonEmptyKeys(f)
  {
    [Entry(NEEDLE, recordVal)]
  }

  /**
   * linkToPyCode as evidently intended: every "%value%" of the link is
   * replaced by the record's value in one pass from left to right, the
   * inserted text not searched again.
   */
  function LinkToPyCode(input: string, recordVal: string): string
  {
    Substitute(input, NeedleMap(recordVal))
  }

  /** Positions where no needle starts pass through the corrected replacement unchanged. */
  lemma {:induction false} PlainPrefix(s: string, p: nat, recordVal: string)
    requires p <= |s| && forall k :: 0 <= k < p ==> !OccursAt(s, k, NEEDLE)
    ensures LinkToPyCode(s, recordVal) == s[..p] + LinkToPyCode(s[p..], recordVal)
  {
    if p > 0 {
      var f := NeedleMap(recordVal);
      assert !(NEEDLE <= s) by {
        assert !OccursAt(s, 0, NEEDLE);
      }
      assert FirstKeyFrom(f, s, 0).None?;
      forall k | 0 <= k < p - 1
        ensures !OccursAt(s[1..], k, NEEDLE)
      {
        assert !OccursAt(s, k + 1, NEEDLE);
        if k + |NEEDLE| <= |s[1..]| {
          assert s[1..][k..k + |NEEDLE|] == s[k + 1..k + 1 + |NEEDLE|];
        }
      }
      PlainPrefix(s[1..], p - 1, recordVal);
      assert s[1..][..p - 1] == s[1..p] && s[1..][p - 1..] == s[p..];
      assert s[..p] == [s[0]] + s[1..p];
    }
  }

  /**
   * The corrected linkToPyCode replaces the first needle, then carries on
   * after it: text before the needle is kept, and the value inserted is
   * not searched again.  Without a needle the link is kept whole.
   */
  lemma LinkToPyCodeStep(input: string, recordVal: string)
    ensures Find(input, NEEDLE, 0).None? ==> LinkToPyCode(input, recordVal) == input
    ensures Find(input, NEEDLE, 0).Some? ==>
      var p := Find(input, NEEDLE, 0).value;
      LinkToPyCode(input, recordVal) == input[..p] + recordVal + LinkToPyCode(input[p + |NEEDLE|..], recordVal)
  {
    var f := NeedleMap(recordVal);
    match Find(input, NEEDLE, 0)
    case None =>
      PlainPrefix(input, |input|, recordVal);
      assert input[..|input|] == input && input[|input|..] == [];
    case Some(p) =>
      PlainPrefix(input, p, recordVal);
      var s := input[p..];
      assert s[..|NEEDLE|] == NEEDLE;
      assert FirstKeyFrom(f, s, 0) == Some(0);
      assert s[|NEEDLE|..] == input[p + |NEEDLE|..];
  }

  /** The corrected linkToPyCode, by the replace loop of the utilities. */
  method LinkToPyCodeFixed(input: string, recordVal: string) returns (output: string)
    ensures output == LinkToPyCode(input, recordVal)
  {
    output := Replace(input, NeedleMap(recordVal));
  }

  /**
   * A string record whose value is "%value%", with the link "%value%":
   * the loop as written never ends, however many passes it is given; the
   * corrected replacement gives the value once.
   */
  method SelfReferenceDiverges(fuel: nat) returns (finished: bool, fixed: string)
    ensures !finished && fixed == NEEDLE
  {
    assert OccursAt(NEEDLE, 0, NEEDLE);
    var output;
    output, finished := LinkToPyCodeAsWritten(NEEDLE, NEEDLE, fuel);
    LinkToPyCodeStep(NEEDLE, NEEDLE);
    assert NEEDLE[..0] == [] && NEEDLE[|NEEDLE|..] == [];
    fixed := LinkToPyCodeFixed(NEEDLE, NEEDLE);
  }

  /** A non-empty value none of whose characters occurs in the needle. */
  predicate Plain(v: string)
  {
    v != [] && forall i :: 0 <= i < |v| ==> v[i] !in NEEDLE
  }

  /**
   * Replacing the needle at p, the first in s, by a plain value leaves no
   * needle that starts before the end of the value.
   */
  lemma NoNeedleUpToValue(s: string, p: nat, recordVal: string)
    requires Plain(recordVal) && p + |NEEDLE| <= |s| && forall k :: 0 <= k < p ==> !OccursAt(s, k, NEEDLE)
    ensures var next := s[..p] + recordVal + s[p + |NEEDLE|..];
      forall k :: 0 <= k < p + |recordVal| ==> !OccursAt(next, k, NEEDLE)
  {
    var next := s[..p] + recordVal + s[p + |NEEDLE|..];
    forall k | 0 <= k < p + |recordVal|
      ensures !OccursAt(next, k, NEEDLE)
    {
      if k + |NEEDLE| <= |next| {
        var w := next[k..k + |NEEDLE|];
        if k >= p {
          assert w[0] == recordVal[k - p] && recordVal[k - p] !in NEEDLE;
        } else if k + |NEEDLE| <= p {
          assert next[..p] == s[..p];
          assert w == next[..p][k..k + |NEEDLE|] == s[..p][k..k + |NEEDLE|] == s[k..k + |NEEDLE|];
          assert !OccursAt(s, k, NEEDLE);
        } else {
          assert w[p - k] == recordVal[0] && recordVal[0] !in NEEDLE;
        }
      }
    }
  }

  /**
   * Replacing the first needle by a plain value creates no new needle up
   * to the end of the value, so the corrected replacement of the result
   * is the corrected replacement of the link.
   */
  lemma ReplaceFirstKeepsCorrected(s: string, recordVal: string)
    requires Plain(recordVal) && Find(s, NEEDLE, 0).Some?
    ensures var p := Find(s, NEEDLE, 0).value;
      LinkToPyCode(s[..p] + recordVal + s[p + |NEEDLE|..], recordVal) == LinkToPyCode(s, recordVal)
  {
    var p := Find(s, NEEDLE, 0).value;
    var next := s[..p] + recordVal + s[p + |NEEDLE|..];
    var m := p + |recordVal|;
    NoNeedleUpToValue(s, p, recordVal);
    PlainPrefix(next, m, recordVal);
    assert next[..m] == s[..p] + recordVal && next[m..] == s[p + |NEEDLE|..];
    LinkToPyCodeStep(s, recordVal);
  }

  /** std::to_string of an integer is plain: a sign and digits. */
  lemma IntegerTextIsPlain(x: int)
    ensures Plain(IntToString(x))
  {
    var v := IntToString(x);
    forall i | 0 <= i < |v|
      ensures v[i] !in NEEDLE
    {
      assert v[i] == '-' || IsDigit(v[i]) by {
        if x < 0 {
          assert v == "-" + NatToString(-x);
          if i > 0 {
            assert v[i] == NatToString(-x)[i - 1];
          }
        }
      }
    }
  }

  // ------------------------------------------------------------------
  // The records
  // ------------------------------------------------------------------

  /**
   * A longin, mbbi, bi, ai, longout, mbbo, bo or ao record: the field the
   * code reads and writes is VAL (RVAL for ai and ao), an integer of C type
   * t (epicsInt32 for longin, longout, ai and ao; epicsEnum16 for mbbi, bi,
   * mbbo and bo).
   */
  class ValueRecord {
    const rec: Common
    /** INP for an input record, OUT for an output record. */
    const link: string
    const t: CType
    var val: int

    /** The field holds a value of its integer type. */
    ghost predicate Valid()
      reads this
    {
      !t.IsFloating() && t.Holds(val)
    }

    constructor (rec: Common, link: string, t: CType, val: int)
      requires !t.IsFloating() && t.Holds(val)
      ensures Valid() && this.rec == rec && this.link == link && this.t == t && this.val == val
    {
      this.rec, this.link, this.t, this.val := rec, link, t, val;
    }

    /**
     * The code run for the record: the link with each "%value%" replaced by
     * the value's decimal text, by the replacement loop as written.  The
     * text of an integer holds no character of the needle, so the loop ends
     * and agrees with the corrected replacement.
     */
    method Code() returns (code: string)
      ensures code == LinkToPyCode(link, IntToString(val))
    {
      IntegerTextIsPlain(val);
      var finished;
      code, finished := LinkToPyCodeAsWritten(link, IntToString(val), Percents(link));
    }

    /**
     * processInpRecordCb: when the code's value converts to the field's
     * type it is stored; otherwise (a value that does not convert, an
     * exception, or no interpreter on this thread) the field is kept and an
     * INVALID CALC alarm raised.  The record is processed again either way.
     */
    method ProcessInpRecordCb(py: Interpreter)
      requires Valid()
      modifies this`val, rec`alarm, rec`completions, py`history
      ensures Valid() && rec.completions == old(rec.completions) + 1
      ensures var o := old(ScalarExec(py, LinkToPyCode(link, IntToString(val)), t));
        py.history == old(py.history) + o.runs &&
        (o.result == Ok(true) ==> val == o.value.value.i && rec.alarm == old(rec.alarm)) &&
        (o.result != Ok(true) ==> val == old(val) && rec.alarm == SetSevr(old(rec.alarm), CalcInvalid))
    {
      var code := Code();
      var r, v := ExecField(py, code, t, INum(val));
      val := v.i;
      if r != Ok(true) {
        RaiseCalcAlarm(rec);
      }
      RequestCompletion(rec);
    }

    /**
     * processOutRecordCb: a value of the code that converts is stored in
     * the field, and whether it converts is ignored; only an exception (or
     * no interpreter on this thread) raises an INVALID CALC alarm.
     */
    method ProcessOutRecordCb(py: Interpreter)
      requires Valid()
      modifies this`val, rec`alarm, rec`completions, py`history
      ensures Valid() && rec.completions == old(rec.completions) + 1
      ensures var o := old(ScalarExec(py, LinkToPyCode(link, IntToString(val)), t));
        py.history == old(py.history) + o.runs &&
        val == (if o.value.Some? then o.value.value.i else old(val)) &&
        rec.alarm == (if o.result.Throw? then SetSevr(old(rec.alarm), CalcInvalid) else old(rec.alarm))
    {
      var code := Code();
      var r, v := ExecField(py, code, t, INum(val));
      val := v.i;
      if r.Throw? {
        RaiseCalcAlarm(rec);
      }
      RequestCompletion(rec);
    }
  }

  /** A stringin or stringout record: VAL is a buffer of MAX_STRING_SIZE characters. */
  class StringRecord {
    const rec: Common
    /** INP for stringin, OUT for stringout. */
    const link: string
    const val: array<char>

    ghost predicate Valid()
      reads this
    {
      val.Length == MAX_STRING_SIZE
    }

    constructor (rec: Common, link: string)
      ensures Valid() && this.rec == rec && this.link == link && fresh(val) && CStr(val[..]) == ""
    {
      this.rec, this.link := rec, link;
      val := new char[MAX_STRING_SIZE](_ => NUL);
    }

    /**
     * processInpRecordCb for stringin: when the code's value converts to a
     * string, VAL holds its first 39 characters (up to any NUL); otherwise
     * VAL is kept and an INVALID CALC alarm raised.  The value's text is put
     * into the link as it is, so the replacement is the corrected one.
     */
    method ProcessInpRecordCb(py: Interpreter, floatToString: real -> string)
      requires Valid()
      modifies val, rec`alarm, rec`completions, py`history
      ensures rec.completions == old(rec.completions) + 1
      ensures var o := old(StringExec(py, LinkToPyCode(link, CStr(val[..])), floatToString));
        py.history == old(py.history) + o.runs &&
        (o.result == Ok(true) ==> CStr(val[..]) == Fit(o.value.value, MAX_STRING_SIZE) && rec.alarm == old(rec.alarm)) &&
        (o.result != Ok(true) ==> val[..] == old(val[..]) && rec.alarm == SetSevr(old(rec.alarm), CalcInvalid))
    {
      var value := CStr(val[..]);
      var code := LinkToPyCodeFixed(link, value);
      var r, s := ExecStringField(py, code, floatToString, value);
      if r == Ok(true) {
        StoreFixedString(val, s);
      } else {
        RaiseCalcAlarm(rec);
      }
      RequestCompletion(rec);
    }

    /**
     * processOutRecordCb for stringout: unless the code threw, VAL is
     * stored again from the code's value, or from its own text when the
     * value did not convert; an exception (or no interpreter on this
     * thread) keeps VAL and raises an INVALID CALC alarm.
     */
    method ProcessOutRecordCb(py: Interpreter, floatToString: real -> string)
      requires Valid()
      modifies val, rec`alarm, rec`completions, py`history
      ensures rec.completions == old(rec.completions) + 1
      ensures var o := old(StringExec(py, LinkToPyCode(link, CStr(val[..])), floatToString));
        py.history == old(py.history) + o.runs &&
        (!o.result.Throw? ==>
          CStr(val[..]) == Fit(if o.value.Some? then o.value.value else old(CStr(val[..])), MAX_STRING_SIZE) &&
          rec.alarm == old(rec.alarm)) &&
        (o.result.Throw? ==> val[..] == old(val[..]) && rec.alarm == SetSevr(old(rec.alarm), CalcInvalid))
    {
      var value := CStr(val[..]);
      var code := LinkToPyCodeFixed(link, value);
      var r, s := ExecStringField(py, code, floatToString, value);
      if r.Throw? {
        RaiseCalcAlarm(rec);
      } else {
        StoreFixedString(val, s);
      }
      RequestCompletion(rec);
    }
  }

  /**
   * processInpRecord and processOutRecord.  Without a context, PACT is left
   * set so that the record is never processed again, with a UDF alarm, and
   * -1 returned.  The first pass sets PACT and schedules the callback, and
   * returns 0 whether or not it was scheduled; the second pass clears PACT
   * and returns 0: the callback's outcome shows only in the alarm.
   */
  method ProcessRecord(rec: Common, sched: Scheduler) returns (status: int)
    requires sched.Valid()
    modifies rec`pact, rec`alarm, sched.tasks
    ensures sched.Valid() && sched.tasks.dequeued == old(sched.tasks.dequeued)
    ensures old(rec.dpvt).None? ==>
      rec.pact && rec.alarm == SetSevr(old(rec.alarm), UdfInvalid) && status == -1 && sched.tasks.que == old(sched.tasks.que)
    ensures old(rec.dpvt).Some? ==> status == 0 && rec.alarm == old(rec.alarm) && rec.pact == !old(rec.pact)
    ensures old(rec.dpvt).Some? && old(rec.pact) ==> sched.tasks.que == old(sched.tasks.que)
    ensures old(rec.dpvt).Some? && !old(rec.pact) ==>
      sched.tasks.que == old(sched.tasks.que) + (if sched.workers != [] then [Task(rec.id)] else [])
  {
    if rec.dpvt.None? {
      rec.pact := true;
      rec.alarm := SetSevr(rec.alarm, UdfInvalid);
      return -1;
    }
    if rec.pact {
      rec.pact := false;
      return 0;
    }
    rec.pact := true;
    var _ := sched.Schedule(Task(rec.id));
    return 0;
  }

  /**
   * Processed before the scheduler has a worker, a record with a context
   * reports success, keeps PACT set and has no callback queued, so nothing
   * ever asks for its second pass.
   */
  method ProcessedWithoutWorkers() returns (status: int, pact: bool, queued: seq<Callback>)
    ensures status == 0 && pact && queued == []
  {
    var sched := new Scheduler();
    var rec := new Common(3, "r");
    var bytecode := new ByteCode();
    rec.dpvt := Some(DevContext(None, 0, "", bytecode));
    status := ProcessRecord(rec, sched);
    pact := rec.pact;
    queued := sched.tasks.que;
  }

  // ------------------------------------------------------------------
  // Registration and the pydevExec command
  // ------------------------------------------------------------------

  /** pydevExec: the line is run as a statement; any failure is swallowed and 0 returned. */
  method PydevExec(py: Interpreter, line: string) returns (status: int)
    modifies py`history
    ensures status == 0
    ensures py.mainThread ==> py.history == old(py.history) + [Run(line, FileInput)]
    ensures !py.mainThread ==> py.history == old(py.history)
  {
    var _ := py.Exec(line);
    return 0;
  }

  /** The registrar's static state and what it registered with the IOC. */
  class Registrar {
    var firstTime: bool
    var execCommandRegistered: bool
    var atExitRegistered: bool

    constructor ()
      ensures firstTime && !execCommandRegistered && !atExitRegistered
    {
      firstTime, execCommandRegistered, atExitRegistered := true, false, false;
    }

    /**
     * pydevRegister: only the first call does anything.  It starts the
     * interpreter, then the scheduler's worker threads, and registers the
     * pydevExec command and the exit handler; an exception from starting
     * the interpreter ends the call before the rest.
     */
    method Register(py: Interpreter, sched: Scheduler, numThreads: nat) returns (r: Result<bool>)
      requires py.Valid() && sched.Valid()
      modifies this, py, sched
      ensures !firstTime && py.Valid() && sched.Valid() && sched.tasks.que == old(sched.tasks.que)
      ensures !old(firstTime) ==> (r == Ok(true) && unchanged(py) && unchanged(sched) &&
        execCommandRegistered == old(execCommandRegistered) && atExitRegistered == old(atExitRegistered))
      ensures old(firstTime) ==> py.mainThread
      ensures old(firstTime) && r.Ok? ==> (execCommandRegistered && atExitRegistered &&
        |sched.workers| == |old(sched.workers)| + numThreads)
      ensures old(firstTime) && r.Throw? ==> (sched.workers == old(sched.workers) &&
        execCommandRegistered == old(execCommandRegistered) && atExitRegistered == old(atExitRegistered))
    {
      if !firstTime {
        return Ok(true);
      }
      firstTime := false;
      r := py.Init();
      if r.Throw? {
        return;
      }
      sched.Init(numThreads);
      execCommandRegistered := true;
      atExitRegistered := true;
    }
  }

  /** pydevUnregister, at IOC exit: the worker threads are stopped, then the interpreter. */
  method Unregister(py: Interpreter, sched: Scheduler)
    requires sched.Valid()
    modifies sched, (set w | w in sched.workers), py`mainThread
    ensures sched.Valid() && sched.workers == [] && !py.mainThread
    ensures forall w :: w in old(sched.workers) ==> !w.running
  {
    sched.Shutdown();
    py.Shutdown();
  }
}
