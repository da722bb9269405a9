/**
 * Device support for the lsi (long string input) record (pydev_lsi.cpp):
 * the INP link is Python code in which a `%FIELD%` marker stands for the
 * text of a record field (VAL escaped so that it can sit inside a Python
 * string literal); the code, with those texts substituted, is executed and
 * its value, converted to a string, is copied into the VAL buffer of SIZV
 * characters, cut to fit, and LEN set to its length plus the NUL.
 */
module PydevLsi {
  import opened Wrappers
  import opened CTypes
  import opened CText
  import opened Epics
  import opened PyWrapper
  import opened Util
  import opened DevSupport

  /** The lsi fields the device support reads or writes. */
  class Lsi {
    const rec: Common
    const inp: string
    /** The VAL buffer, of SIZV characters. */
    const val: array<char>
    const sizv: EpicsUInt32
    var len: EpicsUInt32
    const tpro: EpicsUInt8

    /** The lsi record allocates VAL with SIZV characters, at least one, and LEN counts the NUL within them. */
    ghost predicate Valid()
      reads this
    {
      val.Length == sizv >= 1 && len <= sizv
    }

    constructor (rec: Common, inp: string, sizv: EpicsUInt32)
      requires sizv >= 1
      ensures Valid() && this.rec == rec && this.inp == inp && this.sizv == sizv && fresh(val)
    {
      this.rec, this.inp, this.sizv := rec, inp, sizv;
      val := new char[sizv](_ => NUL);
      len, tpro := 1, 0;
    }

    /** The text each recognised field marker is replaced with. */
    function Fields(): (m: map<string, string>)
      reads this, rec, val
      ensures m.Keys == {"VAL", "NAME", "SIZV", "LEN", "TPRO"}
      ensures m["VAL"] == Escaped(CStr(val[..])) && m["NAME"] == rec.name
    {
      map["VAL" := Escaped(CStr(val[..])), "NAME" := rec.name, "SIZV" := IntToString(sizv),
          "LEN" := IntToString(len), "TPRO" := IntToString(tpro)]
    }

    /**
     * processRecordCb: when the code's value converts to a string, VAL
     * holds its first SIZV - 1 characters (up to any NUL) and LEN their
     * number plus one, with status 0; otherwise (a value that does not
     * convert, an exception, or no interpreter on this thread) VAL and LEN
     * are kept, an INVALID CALC alarm is raised and the status is -1.
     */
    method ProcessRecordCb(py: Interpreter, floatToString: real -> string)
      requires Valid() && rec.dpvt.Some?
      modifies val, this`len, rec`alarm, rec`dpvt, rec`completions, py`history
      ensures Valid() && rec.dpvt.Some? && rec.completions == old(rec.completions) + 1
      ensures rec.dpvt.value == old(rec.dpvt.value).(processCbStatus := rec.dpvt.value.processCbStatus)
      ensures var o := old(StringExec(py, FieldsCode(inp, Fields()), floatToString));
        py.history == old(py.history) + o.runs &&
        rec.dpvt.value.processCbStatus == (if o.result == Ok(true) then 0 else -1) &&
        (o.result == Ok(true) ==> CStr(val[..]) == Fit(o.value.value, sizv) && len == StrLen(val[..]) + 1 &&
                                  rec.alarm == old(rec.alarm)) &&
        (o.result != Ok(true) ==> val[..] == old(val[..]) && len == old(len) &&
                                  rec.alarm == SetSevr(old(rec.alarm), CalcInvalid))
    {
      var code := SubstituteFields(inp, Fields());
      var r, s := ExecStringField(py, code, floatToString, CStr(val[..]));
      var status := -1;
      if r == Ok(true) {
        len := StoreString(val, s);
        status := 0;
      } else {
        RaiseCalcAlarm(rec);
      }
      SetStatus(rec, status);
      RequestCompletion(rec);
    }
  }
}
