/**
 * DevSupport: what the device support files (epicsdevice.cpp and the
 * pydev_*.cpp files) each repeat, modelled once: the record as the device
 * support sees it (the dbCommon fields it touches and its private context),
 * the parsing of a `pydev.iointr('NAME')` address with first-seen
 * registration in the file's own map of scan lists, get_ioint_info, the
 * two-phase PACT protocol, the macro and field substitution loops, and the
 * cache of compiled code.
 */
module DevSupport {
  import opened Wrappers
  import opened CTypes
  import opened CText
  import opened Epics
  import opened AsyncExec
  import opened Variants
  import opened PyWrapper
  import opened Util

  // ------------------------------------------------------------------
  // The record and its device private context
  // ------------------------------------------------------------------

  /**
   * PyDevContext, pointed to by the record's DPVT field: the scan list of
   * the iointr parameter (if any), the status the callback left for the
   * second pass, and the code last compiled with its bytecode.  The files
   * that keep no status or no code leave those members unused.
   */
  datatype DevContext = DevContext(scan: Option<nat>, processCbStatus: int, code: string, bytecode: ByteCode)

  /** The dbCommon fields the device support reads and writes. */
  class Common {
    /** The record, as the task that runs its processing callback. */
    const id: nat
    const name: string
    var pact: bool
    var udf: bool
    /** The alarm raised with recGblSetSevr during this processing. */
    var alarm: Alarm
    var dpvt: Option<DevContext>
    /** How many times callbackRequestProcessCallback was asked to process the record again. */
    var completions: nat

    constructor (id: nat, name: string)
      ensures this.id == id && this.name == name
      ensures !pact && udf && alarm == NoAlarm && dpvt.None? && completions == 0
    {
      this.id, this.name := id, name;
      pact, udf, alarm, dpvt, completions := false, true, NoAlarm, None, 0;
    }
  }

  // ------------------------------------------------------------------
  // pydev.iointr('NAME') addresses
  // ------------------------------------------------------------------

  const IOINTR_PREFIX: string := "pydev.iointr('"
  const IOINTR_SUFFIX: string := "')"
  /** size_t arithmetic is modulo 2^64. */
  const SIZE_T_MODULUS: nat := 0x1_0000_0000_0000_0000

  /** The address starts with the prefix and ends with the suffix. */
  predicate LooksLikeIoIntr(addr: string)
  {
    IOINTR_PREFIX <= addr && |addr| >= 2 && addr[|addr| - 2..] == IOINTR_SUFFIX
  }

  /**
   * The parameter as written: addr.substr(14, addr.size() - 16).  The count
   * is computed in size_t, and substr takes no more characters than there
   * are.
   */
  function IoIntrParamAsWritten(addr: string): (r: Option<string>)
    ensures r.Some? <==> LooksLikeIoIntr(addr)
  {
    if LooksLikeIoIntr(addr) then
      var count := (|addr| - 16) % SIZE_T_MODULUS;
      var n := if count < |addr| - 14 then count else |addr| - 14;
      Some(addr[14..14 + n])
    else None
  }

  /** The parameter: the text between the prefix and the suffix, when the address has both. */
  function IoIntrParam(addr: string): (r: Option<string>)
    ensures r.Some? ==> addr == IOINTR_PREFIX + r.value + IOINTR_SUFFIX
  {
    if |addr| >= 16 && LooksLikeIoIntr(addr) then
      assert addr == addr[..14] + addr[14..|addr| - 2] + addr[|addr| - 2..];
      Some(addr[14..|addr| - 2])
    else None
  }

  /** Any parameter text is read back from the address built around it. */
  lemma IoIntrParamRoundTrip(p: string)
    ensures IoIntrParam(IOINTR_PREFIX + p + IOINTR_SUFFIX) == Some(p)
  {
    var a := IOINTR_PREFIX + p + IOINTR_SUFFIX;
    assert a[..14] == IOINTR_PREFIX;
    assert a[|a| - 2..] == IOINTR_SUFFIX;
    assert a[14..|a| - 2] == p;
  }

  /**
   * The address parsing as written agrees with the intended one on every
   * address but those 15 characters long (a std::string is shorter than
   * SIZE_MAX).
   */
  lemma IoIntrParamAgrees(addr: string)
    requires |addr| != 15 && |addr| < SIZE_T_MODULUS
    ensures IoIntrParamAsWritten(addr) == IoIntrParam(addr)
  {
    if LooksLikeIoIntr(addr) {
      assert |addr| >= 16 by {
        assert addr[..14] == IOINTR_PREFIX;
        assert addr[12..14] == "('" != IOINTR_SUFFIX;
      }
      assert (|addr| - 16) % SIZE_T_MODULUS == |addr| - 16;
    }
  }

  /**
   * The one address the parsing as written misreads: in "pydev.iointr(')"
   * the quote of the prefix doubles as the quote of the suffix, the count
   * wraps around, and ")" is taken for a parameter name.
   */
  lemma IoIntrParamShortAddress()
    ensures IoIntrParamAsWritten("pydev.iointr(')") == Some(")")
    ensures IoIntrParam("pydev.iointr(')") == None
  {
    var a := "pydev.iointr(')";
    assert a[..14] == IOINTR_PREFIX && a[13..] == IOINTR_SUFFIX;
    assert a[14..15] == ")";
  }

  /** The map of scan lists of one device support file, and the scan lists it created. */
  class ScanRegistry {
    var scans: map<string, nat>
    var nextScan: nat

    ghost predicate Valid()
      reads this
    {
      forall p :: p in scans ==> scans[p] < nextScan
    }

    constructor ()
      ensures Valid() && scans == map[] && nextScan == 0
    {
      scans, nextScan := map[], 0;
    }
  }

  /**
   * init_record: a fresh context for the record; for an iointr address,
   * the parameter's scan list, created and registered with the interpreter
   * the first time this file sees the parameter; otherwise no scan list.
   */
  method InitRecord(rec: Common, addr: string, registry: ScanRegistry, py: Interpreter) returns (status: int)
    requires registry.Valid()
    modifies rec`dpvt, registry, py`params
    ensures registry.Valid() && status == 0
    ensures rec.dpvt.Some? && fresh(rec.dpvt.value.bytecode) && rec.dpvt.value.bytecode.code.None?
    ensures rec.dpvt.value.processCbStatus == 0 && rec.dpvt.value.code == ""
    ensures IoIntrParam(addr).None? ==>
      rec.dpvt.value.scan.None? && registry.scans == old(registry.scans) && py.params == old(py.params)
    ensures IoIntrParam(addr).Some? ==> var p := IoIntrParam(addr).value;
      p in registry.scans && rec.dpvt.value.scan == Some(registry.scans[p]) &&
      (p in old(registry.scans) ==> registry.scans == old(registry.scans) && py.params == old(py.params)) &&
      (p !in old(registry.scans) ==>
        registry.scans == old(registry.scans)[p := old(registry.nextScan)] &&
        py.params == Registered(old(py.params), p, old(registry.nextScan)))
  {
    var bytecode := new ByteCode();
    var scan: Option<nat> := None;
    var param := IoIntrParam(addr);
    if param.Some? {
      var p := param.value;
      if p !in registry.scans {
        registry.scans := registry.scans[p := registry.nextScan];
        py.RegisterIoIntr(p, registry.nextScan);
        registry.nextScan := registry.nextScan + 1;
      }
      scan := Some(registry.scans[p]);
    }
    rec.dpvt := Some(DevContext(scan, 0, "", bytecode));
    status := 0;
  }

  /** get_ioint_info: the context's scan list, if there is one; otherwise `io` is left as it was. */
  function IointInfo(dpvt: Option<DevContext>, io: Option<nat>): (r: Option<nat>)
    ensures r != io ==> dpvt.Some? && dpvt.value.scan.Some? && r == dpvt.value.scan
    ensures dpvt.Some? && dpvt.value.scan.Some? ==> r.Some?
  {
    if dpvt.Some? && dpvt.value.scan.Some? then dpvt.value.scan else io
  }

  /**
   * Two records of one file naming the same parameter share one scan list,
   * the parameter is registered once, and get_ioint_info hands that scan
   * list out; a record with another kind of address gets none.
   */
  method SharedScanList(run: (seq<Run>, Run) -> Option<PyObj>, parses: string -> bool,
                        evaluate: (seq<Run>, string, map<string, Variant>) -> Option<Variant>, p: string, other: string)
    returns (io1: Option<nat>, io2: Option<nat>, io3: Option<nat>, registered: map<string, Param>)
    requires !LooksLikeIoIntr(other)
    ensures io1.Some? && io1 == io2 && io3.None?
    ensures registered.Keys == {p} && registered[p] == Param(io1.value, None)
  {
    var py := new Interpreter(run, parses, evaluate);
    var registry := new ScanRegistry();
    var a := new Common(1, "a");
    var b := new Common(2, "b");
    var c := new Common(3, "c");
    IoIntrParamRoundTrip(p);
    var s := InitRecord(a, IOINTR_PREFIX + p + IOINTR_SUFFIX, registry, py);
    s := InitRecord(b, IOINTR_PREFIX + p + IOINTR_SUFFIX, registry, py);
    s := InitRecord(c, other, registry, py);
    io1 := IointInfo(a.dpvt, None);
    io2 := IointInfo(b.dpvt, None);
    io3 := IointInfo(c.dpvt, None);
    registered := py.params;
  }

  // ------------------------------------------------------------------
  // Processing in two passes
  // ------------------------------------------------------------------

  /**
   * process / write_record of the pydev_* files.  Without a context, PACT
   * is left set so the record is never processed again, with a UDF alarm,
   * and -1 returned.  The first pass sets PACT and schedules the callback,
   * returning 0 exactly when it was scheduled; the second pass, asked for by
   * the callback, clears PACT and returns the callback's status.
   */
  method ProcessAsync(rec: Common, sched: Scheduler) returns (status: int)
    requires sched.Valid()
    modifies rec`pact, rec`alarm, sched.tasks
    ensures sched.Valid() && sched.tasks.dequeued == old(sched.tasks.dequeued)
    ensures old(rec.dpvt).None? ==>
      rec.pact && rec.alarm == SetSevr(old(rec.alarm), UdfInvalid) && status == -1 && sched.tasks.que == old(sched.tasks.que)
    ensures old(rec.dpvt).Some? && old(rec.pact) ==>
      !rec.pact && rec.alarm == old(rec.alarm) && status == rec.dpvt.value.processCbStatus && sched.tasks.que == old(sched.tasks.que)
    ensures old(rec.dpvt).Some? && !old(rec.pact) ==>
      rec.pact && rec.alarm == old(rec.alarm) && (status == 0 <==> sched.workers != []) && (status == 0 || status == -1) &&
      sched.tasks.que == old(sched.tasks.que) + (if status == 0 then [Task(rec.id)] else [])
  {
    if rec.dpvt.None? {
      rec.pact := true;
      rec.alarm := SetSevr(rec.alarm, UdfInvalid);
      return -1;
    }
    if rec.pact {
      rec.pact := false;
      return rec.dpvt.value.processCbStatus;
    }
    rec.pact := true;
    var scheduled := sched.Schedule(Task(rec.id));
    status := if scheduled then 0 else -1;
  }

  /**
   * A record with a context, processed while a worker runs: the first pass
   * queues its callback and returns 0 with PACT set; after the callback has
   * left its status, the second pass returns it with PACT cleared.
   */
  method TwoPassProcessing(cbStatus: int) returns (first: int, queued: seq<Callback>, second: int, pactAfter: bool)
    ensures first == 0 && queued == [Task(7)] && second == cbStatus && !pactAfter
  {
    var sched := new Scheduler();
    sched.Init(1);
    var rec := new Common(7, "r");
    var bytecode := new ByteCode();
    rec.dpvt := Some(DevContext(None, 0, "", bytecode));
    first := ProcessAsync(rec, sched);
    queued := sched.tasks.que;
    rec.dpvt := Some(rec.dpvt.value.(processCbStatus := cbStatus));
    second := ProcessAsync(rec, sched);
    pactAfter := rec.pact;
  }

  /** The end of every processing callback: the record is processed again. */
  method RequestCompletion(rec: Common)
    modifies rec`completions
    ensures rec.completions == old(rec.completions) + 1
  {
    rec.completions := rec.completions + 1;
  }

  /** The callback's outcome, kept in the context for the second pass. */
  method SetStatus(rec: Common, status: int)
    requires rec.dpvt.Some?
    modifies rec`dpvt
    ensures rec.dpvt == Some(old(rec.dpvt).value.(processCbStatus := status))
  {
    rec.dpvt := Some(rec.dpvt.value.(processCbStatus := status));
  }

  /** An exception, or a value that would not convert: an INVALID CALC alarm. */
  method RaiseCalcAlarm(rec: Common)
    modifies rec`alarm
    ensures rec.alarm == SetSevr(old(rec.alarm), CalcInvalid)
  {
    rec.alarm := SetSevr(rec.alarm, CalcInvalid);
  }

  // ------------------------------------------------------------------
  // Macros: arguments passed to compiled code
  // ------------------------------------------------------------------

  /**
   * Util::getMacros and Util::replaceMacro, whose bodies are not part of
   * this model: the macro names a text uses, and the text with one macro
   * renamed.
   */
  datatype MacroText = MacroText(getMacros: string -> seq<string>, replaceMacro: (string, string, string) -> string)

  /**
   * The macro loop over `macros`: every macro the record recognises is
   * renamed to "pydev" + name in the code.  One with a value (a key of
   * `values`) also becomes the argument of that name with the field's value;
   * one in `bare` (a pycalc argument of a type that has no Variant) is
   * renamed and passed nothing.
   */
  function Expanded(code: string, macros: seq<string>, mt: MacroText, values: map<string, Variant>, bare: set<string>)
    : (string, map<string, Variant>)
    decreases |macros|
  {
    if macros == [] then (code, map[])
    else
      var prev := Expanded(code, macros[..|macros| - 1], mt, values, bare);
      var m := macros[|macros| - 1];
      if m in values then (mt.replaceMacro(prev.0, m, "pydev" + m), prev.1["pydev" + m := values[m]])
      else if m in bare then (mt.replaceMacro(prev.0, m, "pydev" + m), prev.1)
      else prev
  }

  /** The macro loop: for each macro of the code, in turn. */
  method ExpandMacros(code: string, mt: MacroText, values: map<string, Variant>, bare: set<string>)
    returns (newCode: string, args: map<string, Variant>)
    ensures (newCode, args) == Expanded(code, mt.getMacros(code), mt, values, bare)
  {
    var macros := mt.getMacros(code);
    newCode, args := code, map[];
    var i := 0;
    while i < |macros|
      invariant 0 <= i <= |macros|
      invariant (newCode, args) == Expanded(code, macros[..i], mt, values, bare)
    {
      assert macros[..i + 1][..i] == macros[..i];
      var m := macros[i];
      if m in values {
        args := args["pydev" + m := values[m]];
        newCode := mt.replaceMacro(newCode, m, "pydev" + m);
      } else if m in bare {
        newCode := mt.replaceMacro(newCode, m, "pydev" + m);
      }
      i := i + 1;
    }
    assert macros[..i] == macros;
  }

  /**
   * The arguments are exactly the recognised macros the code uses, each
   * under "pydev" + its name and holding the field's value.
   */
  lemma {:induction false} ExpandedArgs(code: string, macros: seq<string>, mt: MacroText, values: map<string, Variant>, bare: set<string>)
    ensures forall m :: m in macros && m in values ==> "pydev" + m in Expanded(code, macros, mt, values, bare).1
    ensures forall m :: m in values && "pydev" + m in Expanded(code, macros, mt, values, bare).1 ==>
      Expanded(code, macros, mt, values, bare).1["pydev" + m] == values[m]
    ensures forall k :: k in Expanded(code, macros, mt, values, bare).1 ==> exists m :: m in macros && m in values && k == "pydev" + m
  {
    if macros != [] {
      var init := macros[..|macros| - 1];
      ExpandedArgs(code, init, mt, values, bare);
      var m := macros[|macros| - 1];
      assert forall x :: x in macros ==> x in init || x == m;
      assert forall x :: x in init ==> x in macros;
      forall a, b | "pydev" + a == "pydev" + b
        ensures a == b
      {
        assert a == ("pydev" + a)[5..];
        assert b == ("pydev" + b)[5..];
      }
    }
  }

  // ------------------------------------------------------------------
  // Fields: text substituted into the code
  // ------------------------------------------------------------------

  /** The fields with the value of each recognised name set; other names keep their value. */
  function Assigned(fields: seq<Entry>, values: map<string, string>): (r: seq<Entry>)
    ensures |r| == |fields|
    ensures forall i :: 0 <= i < |fields| ==> r[i].key == fields[i].key
    ensures forall i :: 0 <= i < |fields| ==> r[i].value == if fields[i].key in values then values[fields[i].key] else fields[i].value
  {
    seq(|fields|, i requires 0 <= i < |fields| => if fields[i].key in values then Entry(fields[i].key, values[fields[i].key]) else fields[i])
  }

  /** The loop over the fields map that sets each recognised field's text. */
  method AssignFields(fields: seq<Entry>, values: map<string, string>) returns (out: seq<Entry>)
    ensures out == Assigned(fields, values)
  {
    out := fields;
    var i := 0;
    while i < |out|
      invariant 0 <= i <= |out| == |fields|
      invariant out[..i] == Assigned(fields, values)[..i] && out[i..] == fields[i..]
    {
      if out[i].key in values {
        out := out[i := Entry(out[i].key, values[out[i].key])];
      }
      i := i + 1;
    }
  }

  /**
   * Setting values keeps the keys, so the fields stay a map; a field name
   * the record does not recognise keeps the value getFields gave it, its
   * own name.
   */
  lemma AssignedKeepsKeys(text: string, values: map<string, string>)
    ensures IsMap(Assigned(FieldsOf(text), values))
    ensures forall e :: e in Assigned(FieldsOf(text), values) && e.key !in values ==> e.value == e.key
  {
    var f := FieldsOf(text);
    var a := Assigned(f, values);
    FieldsSound(text);
    assert forall i :: 0 <= i < |f| ==> f[i] in f;
    assert forall e :: e in a ==> exists i :: 0 <= i < |a| && a[i] == e;
    assert forall i, j :: 0 <= i < j < |a| ==> a[i].key == f[i].key && a[j].key == f[j].key;
  }

  /** The fields with every key non-empty, as replace and replaceFields need. */
  lemma FieldsHaveKeys(text: string, values: map<string, string>)
    ensures NonEmptyKeys(Assigned(FieldsOf(text), values))
  {
    FieldsSound(text);
    var f := FieldsOf(text);
    assert forall i :: 0 <= i < |f| ==> f[i] in f;
  }

  // ------------------------------------------------------------------
  // The code a typed exec runs: fields substituted into the link
  // ------------------------------------------------------------------

  /** The link with the text of each field the record recognises substituted (getFields, the loop, replaceFields). */
  function FieldsCode(link: string, values: map<string, string>): string
  {
    FieldsHaveKeys(link, values);
    ReplacedFields(link, Assigned(FieldsOf(link), values))
  }

  /** getFields, the loop over the fields map, then replaceFields. */
  method SubstituteFields(link: string, values: map<string, string>) returns (code: string)
    ensures code == FieldsCode(link, values)
  {
    var fields := GetFields(link);
    fields := AssignFields(fields, values);
    FieldsHaveKeys(link, values);
    code := ReplaceFields(link, fields);
  }

  /** The sixteen state value fields of the mbbi and mbbo records, and the sixteen state strings. */
  const STATE_VALUE_NAMES: seq<string> := ["ZRVL", "ONVL", "TWVL", "THVL", "FRVL", "FVVL", "SXVL", "SVVL",
                                          "EIVL", "NIVL", "TEVL", "ELVL", "TVVL", "TTVL", "FTVL", "FFVL"]
  const STATE_STRING_NAMES: seq<string> := ["ZRST", "ONST", "TWST", "THST", "FRST", "FVST", "SXST", "SVST",
                                           "EIST", "NIST", "TEST", "ELST", "TVST", "TTST", "FTST", "FFST"]

  /** A map from the record's field names to their values, in order; a later name overrides an earlier one. */
  function Zip<V>(names: seq<string>, vals: seq<V>): (m: map<string, V>)
    requires |names| == |vals|
  {
    ZipPrefix(names, vals, |names|)
  }

  /** The map of the first k names. */
  function ZipPrefix<V>(names: seq<string>, vals: seq<V>, k: nat): (m: map<string, V>)
    requires k <= |names| == |vals|
  {
    if k == 0 then map[] else ZipPrefix(names, vals, k - 1)[names[k - 1] := vals[k - 1]]
  }

  /**
   * exec(line, debug, T*) with a pointer to a field of type t, from the
   * interpreter's state: domain_error when there is no interpreter.
   */
  function ScalarExec(py: Interpreter, line: string, t: CType): (o: TypedOutcome<Num>)
    reads py
    ensures o.value.Some? <==> o.result == Ok(true)
    ensures o.value.Some? ==> Fits(t, o.value.value)
    ensures o.result.Throw? ==> o.result.error == (if py.mainThread then RuntimeError else DomainError)
  {
    if py.mainThread then TypedExec(py.run, py.history, line, (p: PyObj) => ConvertScalar(p, t), true)
    else TypedOutcome(Throw(DomainError), None, [])
  }

  /** exec(line, debug, std::string&), from the interpreter's state. */
  function StringExec(py: Interpreter, line: string, floatToString: real -> string): (o: TypedOutcome<string>)
    reads py
    ensures o.value.Some? <==> o.result == Ok(true)
    ensures o.result.Throw? ==> o.result.error == (if py.mainThread then RuntimeError else DomainError)
  {
    if py.mainThread then TypedExec(py.run, py.history, line, (p: PyObj) => ConvertString(p, floatToString), true)
    else TypedOutcome(Throw(DomainError), None, [])
  }

  /** exec(line, debug, &field) for a field of type t holding `cur`: the field's new value and exec's result. */
  method ExecField(py: Interpreter, line: string, t: CType, cur: Num) returns (r: Result<bool>, v: Num)
    modifies py`history
    ensures var o := old(ScalarExec(py, line, t));
      r == o.result && py.history == old(py.history) + o.runs && v == (if o.value.Some? then o.value.value else cur)
  {
    var val;
    r, val := py.ExecScalar(line, t, Some(cur));
    v := val.value;
  }

  /** exec(line, debug, str) for a string holding `cur`: the string's new value and exec's result. */
  method ExecStringField(py: Interpreter, line: string, floatToString: real -> string, cur: string)
    returns (r: Result<bool>, v: string)
    modifies py`history
    ensures var o := old(StringExec(py, line, floatToString));
      r == o.result && py.history == old(py.history) + o.runs && v == (if o.value.Some? then o.value.value else cur)
  {
    r, v := py.ExecString(line, floatToString, cur);
  }

  /** What exec(line, debug, std::vector<T>&) reports, the vector it leaves, and the runs it makes. */
  datatype ListOutcome = ListOutcome(result: Result<bool>, list: seq<Num>, runs: seq<Run>)

  /**
   * exec(line, debug, std::vector<T>&) for vector element type t, from the
   * interpreter's state: true exactly when the line evaluates to a list
   * whose every element converts; the vector holds what was converted.
   */
  function ListExec(py: Interpreter, line: string, t: CType): (o: ListOutcome)
    reads py
    ensures o.result == Ok(true) <==> (py.mainThread && py.run(py.history, Run(line, EvalInput)).Some? &&
      ConvertListResult(py.run(py.history, Run(line, EvalInput)).value, t, [], false).0)
    ensures o.result.Throw? ==> o.result.error == (if py.mainThread then RuntimeError else DomainError)
    ensures !py.mainThread ==> o.list == [] && o.runs == []
  {
    if py.mainThread then
      var e := py.run(py.history, Run(line, EvalInput));
      var c := if e.Some? then ConvertListResult(e.value, t, [], false) else (false, []);
      var x := TypedExec(py.run, py.history, line, (p: PyObj) => if ConvertListResult(p, t, [], false).0 then Some(()) else None, true);
      ListOutcome(x.result, c.1, x.runs)
    else ListOutcome(Throw(DomainError), [], [])
  }

  /** exec(line, debug, arr) into an empty vector of element type t: exec's result and the vector. */
  method ExecListField(py: Interpreter, line: string, t: CType) returns (r: Result<bool>, arr: seq<Num>)
    modifies py`history
    ensures var o := old(ListExec(py, line, t));
      r == o.result && arr == o.list && py.history == old(py.history) + o.runs
  {
    r, arr := py.ExecList(line, t);
  }

  // ------------------------------------------------------------------
  // The cache of compiled code
  // ------------------------------------------------------------------

  /** The context's bytecode, when it holds one, is the compiled form of the context's code. */
  ghost predicate CacheHolds(ctx: DevContext, py: Interpreter)
    reads ctx.bytecode, py
  {
    ctx.bytecode.code.Some? ==> ctx.bytecode.code.value in py.compiled && py.compiled[ctx.bytecode.code.value] == ctx.code
  }

  /**
   * Whether the cache compiles the code: when it differs from the cached
   * text, and, with `checkEmpty`, also when the bytecode is empty.
   */
  predicate NeedsCompile(ctx: DevContext, code: string, checkEmpty: bool)
    reads ctx.bytecode
  {
    ctx.code != code || (checkEmpty && ctx.bytecode.code.None?)
  }

  /**
   * The cache update of the callbacks that compile.  When the code needs
   * compiling, the old bytecode is destroyed (unless `destroyOld` is false,
   * as in pydev_mbbi.cpp), the code compiled, and only then the text
   * cached, so a failure leaves the old text.  Without `checkEmpty` this is
   * the update as written; with it, the update the rest of the model uses.
   */
  method UpdateCache(rec: Common, code: string, py: Interpreter, destroyOld: bool, checkEmpty: bool) returns (r: Result<()>)
    requires rec.dpvt.Some? && py.Valid()
    modifies rec`dpvt, rec.dpvt.value.bytecode, py`compiled, py`nextHandle
    ensures py.Valid() && rec.dpvt.Some?
    ensures rec.dpvt.value == old(rec.dpvt.value).(code := rec.dpvt.value.code)
    ensures !old(NeedsCompile(rec.dpvt.value, code, checkEmpty)) ==>
      r.Ok? && rec.dpvt == old(rec.dpvt) && rec.dpvt.value.bytecode.code == old(rec.dpvt.value.bytecode.code) &&
      py.compiled == old(py.compiled) && py.nextHandle == old(py.nextHandle)
    ensures old(NeedsCompile(rec.dpvt.value, code, checkEmpty)) ==>
      r == (if !py.mainThread then Throw(DomainError) else if !py.parses(code) then Throw(SyntaxError) else Ok(()))
    ensures r.Ok? ==> rec.dpvt.value.code == code
    ensures r.Throw? ==> rec.dpvt.value.code == old(rec.dpvt.value.code)
    ensures r.Ok? && old(NeedsCompile(rec.dpvt.value, code, checkEmpty)) ==>
      rec.dpvt.value.bytecode.code == Some(old(py.nextHandle)) && old(py.nextHandle) in py.compiled && py.compiled[old(py.nextHandle)] == code
    ensures r.Throw? && py.mainThread && destroyOld ==> rec.dpvt.value.bytecode.code.None?
    ensures old(CacheHolds(rec.dpvt.value, py)) ==> CacheHolds(rec.dpvt.value, py)
    ensures checkEmpty && r.Ok? && old(CacheHolds(rec.dpvt.value, py)) ==>
      rec.dpvt.value.bytecode.code.Some? && py.compiled[rec.dpvt.value.bytecode.code.value] == code
    ensures !destroyOld ==> forall h :: h in old(py.compiled) ==> h in py.compiled && py.compiled[h] == old(py.compiled)[h]
    ensures forall h :: h in old(py.compiled) && Some(h) != old(rec.dpvt.value.bytecode.code) ==>
      h in py.compiled && py.compiled[h] == old(py.compiled)[h]
  {
    var ctx := rec.dpvt.value;
    if NeedsCompile(ctx, code, checkEmpty) {
      if destroyOld {
        var d := py.Destroy(ctx.bytecode);
        if d.Throw? {
          return Throw(d.error);
        }
      }
      var c := py.Compile(code, ctx.bytecode);
      if c.Throw? {
        return Throw(c.error);
      }
      rec.dpvt := Some(ctx.(code := code));
    }
    r := Ok(());
  }

  /** What evaluating compiled code gives: DomainError without an interpreter, SyntaxError from a failed compile, else the value. */
  function EvalOutcome(mainThread: bool, compiles: bool, value: Option<Variant>): (r: Result<Variant>)
    ensures r.Ok? <==> mainThread && compiles && value.Some?
    ensures r.Ok? ==> r.value == value.value
    ensures r.Throw? ==> r.error in {DomainError, SyntaxError, EvalError}
  {
    if !mainThread then Throw(DomainError)
    else if !compiles then Throw(SyntaxError)
    else if value.None? then Throw(EvalError)
    else Ok(value.value)
  }

  /** The code and the arguments of a record whose link is `link` and whose fields have `values`. */
  function MacroCode(link: string, mt: MacroText, values: map<string, Variant>, bare: set<string>): (string, map<string, Variant>)
  {
    Expanded(link, mt.getMacros(link), mt, values, bare)
  }

  /**
   * The outcome of the macro expansion, the cache update and eval, from the
   * state before them.  Without `checkEmpty`, code equal to the cached text
   * whose bytecode is empty is not compiled, and eval finds nothing to run.
   */
  function CachedRun(py: Interpreter, ctx: DevContext, link: string, mt: MacroText, values: map<string, Variant>, bare: set<string>,
                    checkEmpty: bool): Result<Variant>
    reads py, ctx.bytecode
  {
    var (code, args) := MacroCode(link, mt, values, bare);
    if py.mainThread && !NeedsCompile(ctx, code, checkEmpty) && ctx.bytecode.code.None? then Throw(EvalError)
    else EvalOutcome(py.mainThread, !NeedsCompile(ctx, code, checkEmpty) || py.parses(code), py.evaluate(py.history, code, args))
  }

  /**
   * The first half of the callbacks that compile: macros expanded, the
   * cache brought up to date, the bytecode evaluated with the arguments.
   * Whatever the outcome, the cache still holds compiled code for its text;
   * when eval succeeds, the code it ran is the expanded link.  `checkEmpty`
   * selects the cache update: true for the corrected update, false for the
   * one of pydev_mbbi.cpp, which destroys nothing and so never leaves a
   * stale text behind a failed compile.
   */
  method EvalCached(rec: Common, link: string, mt: MacroText, values: map<string, Variant>, bare: set<string>, py: Interpreter,
                    destroyOld: bool, checkEmpty: bool)
    returns (r: Result<Variant>)
    requires rec.dpvt.Some? && py.Valid() && CacheHolds(rec.dpvt.value, py)
    modifies rec`dpvt, rec.dpvt.value.bytecode, py`compiled, py`nextHandle, py`history
    ensures r == old(CachedRun(py, rec.dpvt.value, link, mt, values, bare, checkEmpty))
    ensures py.Valid() && rec.dpvt.Some? && CacheHolds(rec.dpvt.value, py)
    ensures rec.dpvt.value == old(rec.dpvt.value).(code := rec.dpvt.value.code)
    ensures r.Ok? ==> rec.dpvt.value.code == MacroCode(link, mt, values, bare).0
    ensures r.Ok? ==> py.history == old(py.history) + [Run(MacroCode(link, mt, values, bare).0, Compiled(MacroCode(link, mt, values, bare).1))]
    ensures !old(NeedsCompile(rec.dpvt.value, MacroCode(link, mt, values, bare).0, checkEmpty)) ==>
      py.compiled == old(py.compiled) && py.nextHandle == old(py.nextHandle)
    ensures !destroyOld ==> forall h :: h in old(py.compiled) ==> h in py.compiled
  {
    var code, args := ExpandMacros(link, mt, values, bare);
    var u := UpdateCache(rec, code, py, destroyOld, checkEmpty);
    if u.Throw? {
      return Throw(u.error);
    }
    r := py.Eval(rec.dpvt.value.bytecode, args);
  }

  /**
   * As written, the cache can name code whose bytecode is gone.  The code X
   * compiles, Y does not; after X, Y and X again the cache holds the text X
   * with an empty bytecode, and eval finds nothing to run, where the update
   * that also checks for an empty bytecode recompiles X and runs it.
   */
  method StaleCacheAfterFailedCompile() returns (asWritten: Result<Variant>, checked: Result<Variant>)
    ensures asWritten == Throw(EvalError)
    ensures checked == Ok(Long(1))
  {
    var run := (h: seq<Run>, r: Run) => Some(PyNone);
    var parses := (s: string) => s == "X";
    var evaluate := (h: seq<Run>, s: string, a: map<string, Variant>) => Some(Long(1));
    asWritten := CacheScenario(run, parses, evaluate, false);
    checked := CacheScenario(run, parses, evaluate, true);
  }

  /** A fresh interpreter and record after X, then Y, through the cache: the cache names X, its bytecode is gone. */
  method CompiledThenFailed(run: (seq<Run>, Run) -> Option<PyObj>, parses: string -> bool,
                            evaluate: (seq<Run>, string, map<string, Variant>) -> Option<Variant>, checkEmpty: bool)
    returns (py: Interpreter, rec: Common)
    requires forall s :: parses(s) <==> s == "X"
    ensures fresh(py) && fresh(rec) && rec.dpvt.Some? && fresh(rec.dpvt.value.bytecode)
    ensures py.Valid() && py.mainThread && py.evaluate == evaluate && py.parses == parses
    ensures rec.dpvt.value.code == "X" && rec.dpvt.value.bytecode.code.None? && CacheHolds(rec.dpvt.value, py)
  {
    py := new Interpreter(run, parses, evaluate);
    var started := py.Init();
    rec := new Common(1, "r");
    var bytecode := new ByteCode();
    rec.dpvt := Some(DevContext(None, 0, "", bytecode));
    var u := UpdateCache(rec, "X", py, true, checkEmpty);
    assert rec.dpvt.value.code == "X" && bytecode.code.Some?;
    u := UpdateCache(rec, "Y", py, true, checkEmpty);
  }

  /** X, then Y, then X through the cache, then eval, with or without the check for an empty bytecode. */
  method CacheScenario(run: (seq<Run>, Run) -> Option<PyObj>, parses: string -> bool,
                       evaluate: (seq<Run>, string, map<string, Variant>) -> Option<Variant>, checkEmpty: bool)
    returns (third: Result<Variant>)
    requires forall s :: parses(s) <==> s == "X"
    requires forall h, s, a :: evaluate(h, s, a) == Some(Long(1))
    ensures third == if checkEmpty then Ok(Long(1)) else Throw(EvalError)
  {
    var py, rec := CompiledThenFailed(run, parses, evaluate, checkEmpty);
    var u := UpdateCache(rec, "X", py, true, checkEmpty);
    assert checkEmpty ==> (rec.dpvt.value.bytecode.code.Some? && rec.dpvt.value.bytecode.code.value in py.compiled &&
      py.compiled[rec.dpvt.value.bytecode.code.value] == "X");
    assert !checkEmpty ==> rec.dpvt.value.bytecode.code.None?;
    third := py.Eval(rec.dpvt.value.bytecode, map[]);
  }
}
