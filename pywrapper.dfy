/**
 * PyWrapper: the embedded Python interpreter as the records see it.
 *
 * Python objects are values of PyObj.  The interpreter itself is not
 * modelled: what a piece of code yields when run (PyRun_String) is the
 * `run` function an Interpreter is built with, given every run before it,
 * so the effect of earlier statements on later ones is kept without being
 * spelled out.  compile, eval and the Variant-returning exec are declared
 * with their documented behaviour but no body; they are modelled by that
 * documentation, with the outcome of running compiled code given as the
 * `evaluate` function.
 */
module PyWrapper {
  import opened Wrappers
  import opened CTypes
  import opened CText
  import opened Variants

  // ------------------------------------------------------------------
  // Python objects and their conversion to C++ values
  // ------------------------------------------------------------------

  /** A Python object, as far as the conversions tell objects apart. */
  datatype PyObj =
    | PyInt(i: int)
    | PyBool(b: bool)
    | PyFloat(r: real)
    | PyStr(s: string)
    | PyList(items: seq<PyObj>)
    | PyNone
    | PyOther
  {
    /** PyLong_Check: in Python 3 a bool is an int. */
    predicate IsLong() { PyInt? || PyBool? }
  }

  /** PyLong_AsLong: the value when it fits a C long, or an overflow error. */
  function AsLong(o: PyObj): (r: Option<EpicsInt64>)
    requires o.IsLong()
    ensures o.PyBool? ==> r == Some(if o.b then 1 else 0)
    ensures o.PyInt? ==> (r.Some? <==> CType.Int64.Holds(o.i))
    ensures r.Some? && o.PyInt? ==> r.value == o.i
  {
    if o.PyBool? then Some(if o.b then 1 else 0)
    else if CType.Int64.Holds(o.i) then Some(o.i)
    else None
  }

  /** PyUnicode_AsASCIIString succeeds: every character is 7-bit. */
  predicate IsAscii(s: string)
  {
    forall i :: 0 <= i < |s| ==> s[i] as int < 128
  }

  /**
   * convert(obj, T&) for an arithmetic T: an int (a bool included) that
   * fits a long, converted to T; a float, converted to T; nothing for any
   * other object.  The bool branch after the int branch is never reached.
   */
  function ConvertScalar(o: PyObj, t: CType): (r: Option<Num>)
    ensures r.Some? <==> (o.IsLong() && AsLong(o).Some?) || o.PyFloat?
    ensures r.Some? ==> (r.value.FNum? <==> t.IsFloating())
    ensures r.Some? && r.value.INum? ==> t.Holds(r.value.i)
    ensures o.PyInt? && !t.IsFloating() && t.Holds(o.i) && CType.Int64.Holds(o.i) ==> r == Some(INum(o.i))
    ensures o.PyBool? && !t.IsFloating() ==> r == Some(INum(if o.b then 1 else 0))
    ensures o.PyFloat? && t.IsFloating() ==> r == Some(FNum(o.r))
    ensures o.IsLong() && AsLong(o).Some? ==> r == Some(CastInt(t, AsLong(o).value))
    ensures o.PyFloat? ==> r == Some(CastReal(t, o.r))
  {
    if o.IsLong() then
      match AsLong(o)
      case None => None
      case Some(x) => Some(CastInt(t, x))
    else if o.PyFloat? then Some(CastReal(t, o.r))
    else None
  }

  /**
   * convert(obj, std::string&): an ASCII str as the C string it encodes; an
   * int that fits a long in decimal, so True reads "1"; a float as
   * std::to_string formats it (`floatToString`); nothing for other objects.
   */
  function ConvertString(o: PyObj, floatToString: real -> string): (r: Option<string>)
    ensures o.PyStr? ==> (r.Some? <==> IsAscii(o.s)) && (r.Some? ==> r.value == CStr(o.s))
    ensures o.PyInt? ==> (r.Some? <==> CType.Int64.Holds(o.i)) && (r.Some? ==> r.value == IntToString(o.i))
    ensures o.PyBool? ==> r == Some(if o.b then "1" else "0")
    ensures o.PyFloat? ==> r == Some(floatToString(o.r))
    ensures o.PyList? || o.PyNone? || o.PyOther? ==> r.None?
  {
    if o.PyStr? then (if IsAscii(o.s) then Some(CStr(o.s)) else None)
    else if o.IsLong() then
      var x := AsLong(o);
      if x.None? then None
      else
        assert IntToString(0) == "0" && IntToString(1) == "1" by {
          assert NatToString(0) == "0" && NatToString(1) == "1";
        }
        Some(IntToString(x.value))
    else if o.PyFloat? then Some(floatToString(o.r))
    else None
  }

  /**
   * What one list element adds to the vector, or None when it makes the
   * conversion fail.  The three checks are separate ifs, so as written a
   * bool, being also an int, is pushed twice; `asWritten` false pushes it
   * once.  Any other object adds nothing.
   */
  function ElementPush(o: PyObj, t: CType, asWritten: bool): (r: Option<seq<Num>>)
    ensures r.None? <==> o.IsLong() && AsLong(o).None?
    ensures !o.IsLong() && !o.PyFloat? ==> r == Some([])
    ensures !asWritten ==> (r.Some? && r.value != [] <==> ConvertScalar(o, t).Some?)
    ensures !asWritten && r.Some? && r.value != [] ==> r.value == [ConvertScalar(o, t).value]
  {
    if o.IsLong() && AsLong(o).None? then None
    else
      var longPart := if o.IsLong() then [CastInt(t, AsLong(o).value)] else [];
      var boolPart := if o.PyBool? && asWritten then [CastInt(t, if o.b then 1 else 0)] else [];
      var floatPart := if o.PyFloat? then [CastReal(t, o.r)] else [];
      Some(longPart + boolPart + floatPart)
  }

  /**
   * The list conversion loop over `items`: whether it ran to the end, and
   * the vector it left, which is partial when an int overflowed.
   */
  function Collected(items: seq<PyObj>, t: CType, asWritten: bool): (bool, seq<Num>)
    decreases |items|
  {
    if items == [] then (true, [])
    else
      var prev := Collected(items[..|items| - 1], t, asWritten);
      if !prev.0 then prev
      else
        match ElementPush(items[|items| - 1], t, asWritten)
        case None => (false, prev.1)
        case Some(p) => (true, prev.1 + p)
  }

  /** convert(obj, std::vector<T>&): a non-list leaves `out` alone; a list clears it first. */
  function ConvertListResult(o: PyObj, t: CType, out: seq<Num>, asWritten: bool): (bool, seq<Num>)
  {
    if o.PyList? then Collected(o.items, t, asWritten) else (false, out)
  }

  /** convert(obj, std::vector<T>&), with each bool pushed once. */
  method ConvertList(o: PyObj, t: CType, out: seq<Num>) returns (ok: bool, outNew: seq<Num>)
    ensures (ok, outNew) == ConvertListResult(o, t, out, false)
    ensures !o.PyList? ==> !ok && outNew == out
  {
    if !o.PyList? {
      return false, out;
    }
    var items := o.items;
    outNew := [];
    var i := 0;
    while i < |items|
      invariant 0 <= i <= |items|
      invariant Collected(items[..i], t, false) == (true, outNew)
    {
      assert items[..i + 1][..i] == items[..i];
      var push := ElementPush(items[i], t, false);
      if push.None? {
        assert Collected(items[..i + 1], t, false) == (false, outNew);
        CollectedStops(items, t, false, i + 1);
        assert items[..|items|] == items;
        return false, outNew;
      }
      outNew := outNew + push.value;
      i := i + 1;
    }
    assert items[..|items|] == items;
    ok := true;
  }

  /** Once the loop has given up, later elements change nothing. */
  lemma {:induction false} CollectedStops(items: seq<PyObj>, t: CType, asWritten: bool, k: nat)
    requires k <= |items| && !Collected(items[..k], t, asWritten).0
    ensures Collected(items, t, asWritten) == Collected(items[..k], t, asWritten)
    decreases |items| - k
  {
    if k < |items| {
      assert items[..k + 1][..k] == items[..k];
      CollectedStops(items, t, asWritten, k + 1);
    } else {
      assert items[..k] == items;
    }
  }

  /** Every element is an int, a bool or a float. */
  predicate AllNumbers(items: seq<PyObj>)
  {
    forall i :: 0 <= i < |items| ==> items[i].IsLong() || items[i].PyFloat?
  }

  /** Every element converts on its own. */
  predicate AllConvert(items: seq<PyObj>, t: CType)
  {
    forall i :: 0 <= i < |items| ==> ConvertScalar(items[i], t).Some?
  }

  /** `out` holds each element converted on its own, in order. */
  predicate ScalarsAgree(items: seq<PyObj>, t: CType, out: seq<Num>)
  {
    |out| == |items| && forall i :: 0 <= i < |items| ==> ConvertScalar(items[i], t) == Some(out[i])
  }

  /**
   * With each bool pushed once, converting a list of numbers agrees element
   * by element with converting each number on its own, and fails exactly
   * when one of them does not fit a long.
   */
  lemma {:induction false} ListMatchesScalars(items: seq<PyObj>, t: CType)
    requires AllNumbers(items)
    ensures Collected(items, t, false).0 <==> AllConvert(items, t)
    ensures Collected(items, t, false).0 ==> ScalarsAgree(items, t, Collected(items, t, false).1)
  {
    if items != [] {
      var n := |items| - 1;
      var init := items[..n];
      assert AllNumbers(init) by {
        forall i | 0 <= i < n ensures init[i].IsLong() || init[i].PyFloat? {
          assert init[i] == items[i];
        }
      }
      ListMatchesScalars(init, t);
      CollectedStep(items, t);
    }
  }

  /** A number pushes, once, what converting it on its own gives. */
  lemma PushIsScalar(o: PyObj, t: CType)
    requires o.IsLong() || o.PyFloat?
    ensures ElementPush(o, t, false) == if ConvertScalar(o, t).Some? then Some([ConvertScalar(o, t).value]) else None
  {
  }

  /** The inductive step of ListMatchesScalars: one more element after a prefix that agrees. */
  lemma CollectedStep(items: seq<PyObj>, t: CType)
    requires items != [] && AllNumbers(items)
    requires var init := items[..|items| - 1];
      (Collected(init, t, false).0 <==> AllConvert(init, t)) &&
      (Collected(init, t, false).0 ==> ScalarsAgree(init, t, Collected(init, t, false).1))
    ensures Collected(items, t, false).0 <==> AllConvert(items, t)
    ensures Collected(items, t, false).0 ==> ScalarsAgree(items, t, Collected(items, t, false).1)
  {
    var n := |items| - 1;
    var init := items[..n];
    var last := items[n];
    var prev := Collected(init, t, false);
    var c := ConvertScalar(last, t);
    PushIsScalar(last, t);
    if !prev.0 {
      var i :| 0 <= i < n && ConvertScalar(init[i], t).None?;
      assert ConvertScalar(items[i], t).None?;
    } else if c.None? {
      assert !Collected(items, t, false).0;
    } else {
      var out := prev.1 + [c.value];
      assert Collected(items, t, false) == (true, out);
      forall i | 0 <= i < |items|
        ensures ConvertScalar(items[i], t) == Some(out[i])
      {
        if i < n {
          assert items[i] == init[i];
        }
      }
    }
  }

  /** Elements that are neither numbers nor bools are skipped. */
  lemma SkipsOtherElements(items: seq<PyObj>, t: CType, s: string)
    ensures Collected(items + [PyStr(s)], t, false) == Collected(items, t, false)
    ensures Collected(items + [PyNone], t, false) == Collected(items, t, false)
  {
    assert (items + [PyStr(s)])[..|items|] == items;
    assert (items + [PyNone])[..|items|] == items;
    var prev := Collected(items, t, false);
    assert prev.1 + [] == prev.1;
  }

  /** As written, the list [True] converts to two ones, where converting True alone gives one. */
  lemma BoolPushedTwice(t: CType)
    requires !t.IsFloating()
    ensures ConvertListResult(PyList([PyBool(true)]), t, [], true) == (true, [INum(1), INum(1)])
    ensures ConvertScalar(PyBool(true), t) == Some(INum(1))
    ensures ConvertListResult(PyList([PyBool(true)]), t, [], false) == (true, [INum(1)])
  {
    assert [PyBool(true)][..0] == [];
    assert t.Holds(1);
    assert CastInt(t, 1) == INum(1);
    assert AsLong(PyBool(true)) == Some(1);
    assert [INum(1)] + [INum(1)] + [] == [INum(1), INum(1)];
    assert ElementPush(PyBool(true), t, true) == Some([INum(1), INum(1)]);
    assert ElementPush(PyBool(true), t, false) == Some([INum(1)]);
    assert Collected([], t, true) == (true, []) && Collected([], t, false) == (true, []);
    assert Collected([PyBool(true)], t, true) == (true, [] + [INum(1), INum(1)]);
    assert Collected([PyBool(true)], t, false) == (true, [] + [INum(1)]);
    assert [] + [INum(1), INum(1)] == [INum(1), INum(1)] && [] + [INum(1)] == [INum(1)];
    assert PyList([PyBool(true)]).items == [PyBool(true)];
  }

  // ------------------------------------------------------------------
  // The interpreter
  // ------------------------------------------------------------------

  /** The start symbol code is run with: a module, an expression, an interactive statement, or compiled code with arguments. */
  datatype Mode = FileInput | EvalInput | SingleInput | Compiled(args: map<string, Variant>)

  datatype Run = Run(code: string, mode: Mode)

  /** An entry of the iointr registry: the callback, and the value last sent, if any. */
  datatype Param = Param(callback: nat, cached: Option<PyObj>)

  /** What a call of pydev.iointr returns and leaves behind. */
  datatype IoIntrOutcome = IoIntrOutcome(ret: PyObj, typeError: bool, params: map<string, Param>, called: seq<nat>)

  /**
   * pydev.iointr(name[, value]).  With a value, a registered name caches it
   * and its callback is called once; True is returned either way.  Without
   * one, the cached value or None.  A wrong argument count gives False; a
   * name that is not ASCII text raises TypeError (None is returned).  The
   * name is the C string of the text.
   */
  function IoIntrCall(params: map<string, Param>, args: seq<PyObj>): (r: IoIntrOutcome)
    ensures r.typeError ==> r.ret == PyNone
    ensures !(1 <= |args| <= 2) ==> r.ret == PyBool(false) && !r.typeError
    ensures r.typeError <==> 1 <= |args| <= 2 && !(args[0].PyStr? && IsAscii(args[0].s))
    ensures |r.called| <= 1
    ensures r.params.Keys == params.Keys
    ensures r.params != params || r.called != [] ==>
      |args| == 2 && args[0].PyStr? && CStr(args[0].s) in params &&
      var n := CStr(args[0].s);
      r.params == params[n := Param(params[n].callback, Some(args[1]))] && r.called == [params[n].callback]
    ensures |args| == 2 && !r.typeError && CStr(args[0].s) in params ==> r.called == [params[CStr(args[0].s)].callback]
    ensures |args| == 2 && !r.typeError ==> r.ret == PyBool(true)
    ensures |args| == 1 && !r.typeError ==> r.called == [] && var name := CStr(args[0].s);
      r.ret == if name in params && params[name].cached.Some? then params[name].cached.value else PyNone
  {
    if !(1 <= |args| <= 2) then IoIntrOutcome(PyBool(false), false, params, [])
    else if !(args[0].PyStr? && IsAscii(args[0].s)) then IoIntrOutcome(PyNone, true, params, [])
    else
      var name := CStr(args[0].s);
      if |args| == 2 then
        if name in params then
          var p := params[name];
          IoIntrOutcome(PyBool(true), false, params[name := Param(p.callback, Some(args[1]))], [p.callback])
        else IoIntrOutcome(PyBool(true), false, params, [])
      else if name in params && params[name].cached.Some? then
        IoIntrOutcome(params[name].cached.value, false, params, [])
      else IoIntrOutcome(PyNone, false, params, [])
  }

  /** registerIoIntr: the name gets the callback and no cached value, replacing an earlier entry. */
  function Registered(params: map<string, Param>, name: string, callback: nat): (r: map<string, Param>)
    ensures r.Keys == params.Keys + {name}
    ensures r[name] == Param(callback, None)
    ensures forall n :: n in params && n != name ==> r[n] == params[n]
  {
    params[name := Param(callback, None)]
  }

  /**
   * A value sent for a registered name notifies its callback once and is
   * what the name then reads back; registering again forgets it.
   */
  lemma {:induction false} IoIntrRoundTrip(params: map<string, Param>, name: string, cb: nat, v: PyObj)
    requires IsAscii(name) && NUL !in name
    ensures var reg := Registered(params, name, cb);
      var sent := IoIntrCall(reg, [PyStr(name), v]);
      IoIntrCall(reg, [PyStr(name)]).ret == PyNone &&
      sent.ret == PyBool(true) && sent.called == [cb] &&
      IoIntrCall(sent.params, [PyStr(name)]).ret == v &&
      IoIntrCall(Registered(sent.params, name, cb), [PyStr(name)]).ret == PyNone
  {
    CStrOfPlainText(name);
  }

  /** A value sent for a name nobody registered changes nothing and calls nobody. */
  lemma UnregisteredValueIgnored(params: map<string, Param>, name: string, v: PyObj)
    requires IsAscii(name) && NUL !in name && name !in params
    ensures IoIntrCall(params, [PyStr(name), v]) == IoIntrOutcome(PyBool(true), false, params, [])
  {
    CStrOfPlainText(name);
  }

  /** Text without NUL is its own C string. */
  lemma {:induction false} CStrOfPlainText(s: string)
    requires NUL !in s
    ensures CStr(s) == s
  {
    if s != [] {
      assert s[1..] + [] == s[1..];
      CStrOfPlainText(s[1..]);
    }
  }

  /** The statements init runs once the interpreter is up, making pydev a built-in module. */
  const INIT_STATEMENTS: seq<string> := ["import pydev", "import builtins", "builtins.pydev=pydev", "import pydev"]

  /** Each statement as a module-mode run. */
  function FileRuns(lines: seq<string>): (r: seq<Run>)
    ensures |r| == |lines| && forall i :: 0 <= i < |lines| ==> r[i] == Run(lines[i], FileInput)
  {
    seq(|lines|, i requires 0 <= i < |lines| => Run(lines[i], FileInput))
  }

  /**
   * What a typed exec yields: the result (true when a value was written),
   * the value written, and the runs made.  `want` is false for a null value
   * pointer.  The code is first evaluated as an expression; a result that
   * converts is written, one that does not gives false; when evaluation
   * fails (or is skipped) the code is run as a statement, and a failure
   * there is a runtime_error.
   */
  datatype TypedOutcome<X> = TypedOutcome(result: Result<bool>, value: Option<X>, runs: seq<Run>)

  function TypedExec<X>(run: (seq<Run>, Run) -> Option<PyObj>, history: seq<Run>, line: string,
                        conv: PyObj -> Option<X>, want: bool): (r: TypedOutcome<X>)
    ensures r.result == Ok(true) <==> want && run(history, Run(line, EvalInput)).Some? && conv(run(history, Run(line, EvalInput)).value).Some?
    ensures r.value.Some? <==> r.result == Ok(true)
    ensures r.value.Some? ==> r.value == conv(run(history, Run(line, EvalInput)).value)
    ensures r.result.Throw? ==> r.result.error == RuntimeError
    ensures 1 <= |r.runs| <= 2 && (|r.runs| == 2 <==> want && run(history, Run(line, EvalInput)).None?)
    ensures r.result.Throw? <==> (!want || run(history, Run(line, EvalInput)).None?) && run(history + r.runs[..|r.runs| - 1], Run(line, SingleInput)).None?
    ensures want ==> r.runs[0] == Run(line, EvalInput)
    ensures r.runs[|r.runs| - 1] == if want && run(history, Run(line, EvalInput)).Some? then Run(line, EvalInput) else Run(line, SingleInput)
  {
    var evalRun := Run(line, EvalInput);
    var evaluated := if want then run(history, evalRun) else None;
    if evaluated.Some? then
      match conv(evaluated.value)
      case Some(x) => TypedOutcome(Ok(true), Some(x), [evalRun])
      case None => TypedOutcome(Ok(false), None, [evalRun])
    else
      var before := if want then [evalRun] else [];
      var singleRun := Run(line, SingleInput);
      var executed := run(history + before, singleRun);
      var runs := before + [singleRun];
      assert runs[..|runs| - 1] == before;
      if executed.None? then TypedOutcome(Throw(RuntimeError), None, runs)
      else TypedOutcome(Ok(false), None, runs)
  }

  /** The interpreter and the module's statics: mainThread, params, and the code objects compiled. */
  class Interpreter {
    /** PyRun_String, given the runs before it. */
    const run: (seq<Run>, Run) -> Option<PyObj>
    /** Whether code compiles. */
    const parses: string -> bool
    /** The Variant compiled code returns when evaluated with arguments, or None when it raises. */
    const evaluate: (seq<Run>, string, map<string, Variant>) -> Option<Variant>

    /** mainThread != nullptr */
    var mainThread: bool
    /** Every piece of code the interpreter has run, in order. */
    var history: seq<Run>
    /** The iointr registry `params`. */
    var params: map<string, Param>
    /** The iointr callbacks called, in order. */
    var notified: seq<nat>
    /** The compiled code objects still referenced, by handle, with their source. */
    var compiled: map<nat, string>
    var nextHandle: nat

    ghost predicate Valid()
      reads this
    {
      forall h :: h in compiled ==> h < nextHandle
    }

    constructor (run: (seq<Run>, Run) -> Option<PyObj>, parses: string -> bool,
                 evaluate: (seq<Run>, string, map<string, Variant>) -> Option<Variant>)
      ensures Valid() && this.run == run && this.parses == parses && this.evaluate == evaluate
      ensures !mainThread && history == [] && params == map[] && notified == [] && compiled == map[]
    {
      this.run, this.parses, this.evaluate := run, parses, evaluate;
      mainThread, history, params, notified := false, [], map[], [];
      compiled, nextHandle := map[], 0;
    }

    /**
     * init: starts the interpreter and releases it (mainThread is set), then
     * runs the four import statements; the first that fails throws.
     */
    method Init() returns (r: Result<bool>)
      requires Valid()
      modifies this
      ensures Valid() && mainThread
      ensures params == old(params) && notified == old(notified) && compiled == old(compiled)
      ensures r.Ok? ==> r.value && history == old(history) + FileRuns(INIT_STATEMENTS)
      ensures r.Throw? ==> r.error == RuntimeError
      ensures r.Throw? ==> exists k :: (0 <= k < |INIT_STATEMENTS| &&
        history == old(history) + FileRuns(INIT_STATEMENTS[..k + 1]) &&
         run(old(history) + FileRuns(INIT_STATEMENTS[..k]), Run(INIT_STATEMENTS[k], FileInput)).None?)
    {
      mainThread := true;
      var i := 0;
      while i < |INIT_STATEMENTS|
        invariant 0 <= i <= |INIT_STATEMENTS| && mainThread && Valid()
        invariant params == old(params) && notified == old(notified) && compiled == old(compiled)
        invariant history == old(history) + FileRuns(INIT_STATEMENTS[..i])
      {
        assert INIT_STATEMENTS[..i + 1] == INIT_STATEMENTS[..i] + [INIT_STATEMENTS[i]];
        var e := Exec(INIT_STATEMENTS[i]);
        if e.Throw? {
          return Throw(e.error);
        }
        i := i + 1;
      }
      assert INIT_STATEMENTS[..i] == INIT_STATEMENTS;
      r := Ok(true);
    }

    /** shutdown: the interpreter is finalized and mainThread cleared. */
    method Shutdown()
      modifies this`mainThread
      ensures !mainThread
    {
      mainThread := false;
    }

    /** registerIoIntr */
    method RegisterIoIntr(name: string, callback: nat)
      modifies this`params
      ensures params == Registered(old(params), name, callback)
    {
      params := params[name := Param(callback, None)];
    }

    /** pydev.iointr, called from Python code. */
    method IoIntr(args: seq<PyObj>) returns (ret: PyObj, typeError: bool)
      modifies this`params, this`notified
      ensures var o := IoIntrCall(old(params), args);
        ret == o.ret && typeError == o.typeError && params == o.params && notified == old(notified) + o.called
    {
      var o := IoIntrCall(params, args);
      ret, typeError, params := o.ret, o.typeError, o.params;
      notified := notified + o.called;
    }

    /** exec(line, debug): the code is run as a module; if it raises, a runtime_error. */
    method Exec(line: string) returns (r: Result<()>)
      modifies this`history
      ensures !mainThread ==> r == Throw(DomainError) && history == old(history)
      ensures mainThread ==> history == old(history) + [Run(line, FileInput)]
      ensures mainThread ==> (r.Ok? <==> run(old(history), Run(line, FileInput)).Some?)
      ensures r.Throw? ==> r.error == (if mainThread then RuntimeError else DomainError)
    {
      if !mainThread {
        return Throw(DomainError);
      }
      var o := run(history, Run(line, FileInput));
      history := history + [Run(line, FileInput)];
      r := if o.Some? then Ok(()) else Throw(RuntimeError);
    }

    /** exec(line, debug, T* val) for an arithmetic T; `val` None is a null pointer. */
    method ExecScalar(line: string, t: CType, val: Option<Num>) returns (r: Result<bool>, valOut: Option<Num>)
      modifies this`history
      ensures !mainThread ==> r == Throw(DomainError) && valOut == val && history == old(history)
      ensures mainThread ==>
        var o := TypedExec(run, old(history), line, (p: PyObj) => ConvertScalar(p, t), val.Some?);
        r == o.result && history == old(history) + o.runs && valOut == (if o.value.Some? then o.value else val)
    {
      if !mainThread {
        return Throw(DomainError), val;
      }
      var o := TypedExec(run, history, line, (p: PyObj) => ConvertScalar(p, t), val.Some?);
      history := history + o.runs;
      r, valOut := o.result, if o.value.Some? then o.value else val;
    }

    /** exec(line, debug, std::string& val). */
    method ExecString(line: string, floatToString: real -> string, val: string) returns (r: Result<bool>, valOut: string)
      modifies this`history
      ensures !mainThread ==> r == Throw(DomainError) && valOut == val && history == old(history)
      ensures mainThread ==>
        var o := TypedExec(run, old(history), line, (p: PyObj) => ConvertString(p, floatToString), true);
        r == o.result && history == old(history) + o.runs && valOut == (if o.value.Some? then o.value.value else val)
    {
      if !mainThread {
        return Throw(DomainError), val;
      }
      var o := TypedExec(run, history, line, (p: PyObj) => ConvertString(p, floatToString), true);
      history := history + o.runs;
      r, valOut := o.result, if o.value.Some? then o.value.value else val;
    }

    /**
     * exec(line, debug, std::vector<T>& arr): the vector is cleared first;
     * an evaluated list is converted into it (partly, if an element
     * overflows, and then false is returned).
     */
    method ExecList(line: string, t: CType) returns (r: Result<bool>, arr: seq<Num>)
      modifies this`history
      ensures !mainThread ==> r == Throw(DomainError) && arr == [] && history == old(history)
      ensures mainThread ==>
        var e := run(old(history), Run(line, EvalInput));
        var c := if e.Some? then ConvertListResult(e.value, t, [], false) else (false, []);
        var o := TypedExec(run, old(history), line, (p: PyObj) => if ConvertListResult(p, t, [], false).0 then Some(()) else None, true);
        r == o.result && history == old(history) + o.runs && arr == c.1
    {
      if !mainThread {
        return Throw(DomainError), [];
      }
      var e := run(history, Run(line, EvalInput));
      var o := TypedExec(run, history, line, (p: PyObj) => if ConvertListResult(p, t, [], false).0 then Some(()) else None, true);
      arr := [];
      if e.Some? {
        var ok;
        ok, arr := ConvertList(e.value, t, []);
      }
      history := history + o.runs;
      r := o.result;
    }

    /**
     * compile: the code is parsed, not run; a fresh bytecode handle is
     * returned, or a SyntaxError thrown.
     */
    method Compile(code: string, into: ByteCode) returns (r: Result<()>)
      requires Valid()
      modifies this`compiled, this`nextHandle, into
      ensures Valid()
      ensures r == (if !mainThread then Throw(DomainError) else if !parses(code) then Throw(SyntaxError) else Ok(()))
      ensures r.Ok? ==> into.code == Some(old(nextHandle)) && old(nextHandle) !in old(compiled) && compiled == old(compiled)[old(nextHandle) := code]
      ensures r.Throw? ==> into.code == old(into.code) && compiled == old(compiled)
    {
      if !mainThread {
        return Throw(DomainError);
      }
      if !parses(code) {
        return Throw(SyntaxError);
      }
      compiled := compiled[nextHandle := code];
      into.code := Some(nextHandle);
      nextHandle := nextHandle + 1;
      r := Ok(());
    }

    /**
     * eval: the compiled code is run with the arguments and its value
     * returned, which is NONE for a statement; an error in Python code is
     * an EvalError.  An empty or released bytecode is refused the same way.
     */
    method Eval(bytecode: ByteCode, args: map<string, Variant>) returns (r: Result<Variant>)
      modifies this`history
      ensures !mainThread ==> r == Throw(DomainError) && history == old(history)
      ensures mainThread && (bytecode.code.None? || bytecode.code.value !in compiled) ==> r == Throw(EvalError) && history == old(history)
      ensures mainThread && bytecode.code.Some? && bytecode.code.value in compiled ==>
        var src := compiled[bytecode.code.value];
        history == old(history) + [Run(src, Compiled(args))] &&
        r == (match evaluate(old(history), src, args) case Some(v) => Ok(v) case None => Throw(EvalError))
    {
      if !mainThread {
        return Throw(DomainError);
      }
      if bytecode.code.None? || bytecode.code.value !in compiled {
        return Throw(EvalError);
      }
      var src := compiled[bytecode.code.value];
      var v := evaluate(history, src, args);
      history := history + [Run(src, Compiled(args))];
      r := match v case Some(x) => Ok(x) case None => Throw(EvalError);
    }

    /** destroy: the handle, if any, is released and the bytecode left empty. */
    method Destroy(bytecode: ByteCode) returns (r: Result<()>)
      modifies this`compiled, bytecode
      ensures !mainThread ==> r == Throw(DomainError) && compiled == old(compiled) && bytecode.code == old(bytecode.code)
      ensures mainThread ==> r.Ok? && bytecode.code.None?
      ensures mainThread ==> compiled == if old(bytecode.code).Some? then old(compiled) - {old(bytecode.code).value} else old(compiled)
    {
      if !mainThread {
        return Throw(DomainError);
      }
      if bytecode.code.Some? {
        compiled := compiled - {bytecode.code.value};
      }
      bytecode.code := None;
      r := Ok(());
    }

    /** exec(code, args, debug): compile and evaluate at once. */
    method ExecCode(code: string, args: map<string, Variant>) returns (r: Result<Variant>)
      modifies this`history
      ensures !mainThread ==> r == Throw(DomainError) && history == old(history)
      ensures mainThread && !parses(code) ==> r == Throw(SyntaxError) && history == old(history)
      ensures mainThread && parses(code) ==>
        history == old(history) + [Run(code, Compiled(args))] &&
        r == (match evaluate(old(history), code, args) case Some(v) => Ok(v) case None => Throw(EvalError))
    {
      if !mainThread {
        return Throw(DomainError);
      }
      if !parses(code) {
        return Throw(SyntaxError);
      }
      var v := evaluate(history, code, args);
      history := history + [Run(code, Compiled(args))];
      r := match v case Some(x) => Ok(x) case None => Throw(EvalError);
    }

    /** exec(code, debug): exec with an empty argument map. */
    method ExecNoArgs(code: string) returns (r: Result<Variant>)
      modifies this`history
      ensures !mainThread ==> r == Throw(DomainError) && history == old(history)
      ensures mainThread && !parses(code) ==> r == Throw(SyntaxError) && history == old(history)
      ensures mainThread && parses(code) ==>
        history == old(history) + [Run(code, Compiled(map[]))] &&
        r == (match evaluate(old(history), code, map[]) case Some(v) => Ok(v) case None => Throw(EvalError))
    {
      r := ExecCode(code, map[]);
    }
  }

  /**
   * ByteCode: owns one compiled code object, or none.  It cannot be copied,
   * only moved: the model offers no copy, and a move leaves the source
   * empty, so a handle is never held by two ByteCode objects.
   */
  class ByteCode {
    var code: Option<nat>

    /** ByteCode(): empty. */
    constructor ()
      ensures code.None?
    {
      code := None;
    }

    /** ByteCode(ByteCode&&): takes the other's handle and leaves it empty. */
    constructor Move(other: ByteCode)
      modifies other
      ensures code == old(other.code) && other.code.None?
    {
      code := other.code;
      other.code := None;
    }

    /** operator=(ByteCode&&) */
    method MoveFrom(other: ByteCode)
      requires other != this
      modifies this, other
      ensures code == old(other.code) && other.code.None?
    {
      code := other.code;
      other.code := None;
    }
  }

  /**
   * Every call that needs the interpreter throws domain_error before init
   * and after shutdown, and runs nothing.
   */
  method GuardedBeforeInitAndAfterShutdown(run: (seq<Run>, Run) -> Option<PyObj>, parses: string -> bool,
                                           evaluate: (seq<Run>, string, map<string, Variant>) -> Option<Variant>, line: string)
    returns (before: Result<()>, after: Result<()>, runsBefore: nat)
    ensures before == Throw(DomainError) && after == Throw(DomainError)
    ensures runsBefore == 0
  {
    var py := new Interpreter(run, parses, evaluate);
    before := py.Exec(line);
    runsBefore := |py.history|;
    var started := py.Init();
    py.Shutdown();
    after := py.Exec(line);
  }
}
