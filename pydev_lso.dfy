/**
 * Device support for the lso (long string output) record (pydev_lso.cpp):
 * the OUT link is compiled code evaluated with the record's fields as
 * arguments; its value, read by get_string, is copied into the VAL buffer
 * of SIZV characters, cut to fit, and LEN set to its length plus the NUL.
 */
module PydevLso {
  import opened Wrappers
  import opened CTypes
  import opened CText
  import opened Epics
  import opened Variants
  import opened PyWrapper
  import opened DevSupport

  /** The lso fields the device support reads or writes. */
  class Lso {
    const rec: Common
    const out: string
    /** The VAL buffer, of SIZV characters. */
    const val: array<char>
    const sizv: EpicsUInt32
    var len: EpicsUInt32
    const tpro: EpicsUInt8

    /** The lso record allocates VAL with SIZV characters, at least one, and LEN counts the NUL within them. */
    ghost predicate Valid()
      reads this
    {
      val.Length == sizv >= 1 && len <= sizv
    }

    constructor (rec: Common, out: string, sizv: EpicsUInt32)
      requires sizv >= 1
      ensures Valid() && this.rec == rec && this.out == out && this.sizv == sizv && fresh(val)
    {
      this.rec, this.out, this.sizv := rec, out, sizv;
      val := new char[sizv](_ => NUL);
      len, tpro := 1, 0;
    }

    /** The value of each macro the callback recognises. */
    function Macros(): (m: map<string, Variant>)
      reads this, rec, val
      ensures m.Keys == {"VAL", "NAME", "SIZV", "LEN", "TPRO"}
      ensures m["VAL"] == String(CStr(val[..]))
    {
      map["VAL" := String(CStr(val[..])), "NAME" := String(rec.name), "SIZV" := Unsigned(sizv),
          "LEN" := Unsigned(len), "TPRO" := Unsigned(tpro)]
    }

    /**
     * processRecordCb: the code's value, read by get_string, is copied into
     * VAL, at most SIZV - 1 characters and then a NUL; LEN becomes the
     * length of the text in VAL plus one, so never more than SIZV; UDF is
     * cleared and the status is 0.  An exception leaves VAL and LEN, raises
     * an INVALID CALC alarm and sets status -1.
     */
    method ProcessRecordCb(py: Interpreter, mt: MacroText, ft: FloatText)
      requires Valid() && rec.dpvt.Some? && py.Valid() && CacheHolds(rec.dpvt.value, py)
      modifies val, this`len, rec`udf, rec`alarm, rec`dpvt, rec`completions, rec.dpvt.value.bytecode
      modifies py`compiled, py`nextHandle, py`history
      ensures Valid() && rec.dpvt.Some? && py.Valid() && CacheHolds(rec.dpvt.value, py)
      ensures rec.completions == old(rec.completions) + 1
      ensures rec.dpvt.value.scan == old(rec.dpvt.value.scan) && rec.dpvt.value.bytecode == old(rec.dpvt.value.bytecode)
      ensures var r := old(CachedRun(py, rec.dpvt.value, out, mt, Macros(), {}, true));
        var ok := r.Ok? && r.value.GetString(ft).Ok?;
        rec.dpvt.value.processCbStatus == (if ok then 0 else -1) &&
        (ok ==> CStr(val[..]) == Fit(r.value.GetString(ft).value, sizv) && len == StrLen(val[..]) + 1 &&
                !rec.udf && rec.alarm == old(rec.alarm)) &&
        (!ok ==> val[..] == old(val[..]) && len == old(len) && rec.udf == old(rec.udf) &&
                 rec.alarm == SetSevr(old(rec.alarm), CalcInvalid))
    {
      var r := EvalCached(rec, out, mt, Macros(), {}, py, true, true);
      var status := -1;
      if r.Ok? {
        var s := r.value.GetString(ft);
        if s.Ok? {
          len := StoreString(val, s.value);
          rec.udf := false;
          status := 0;
        }
      }
      if status != 0 {
        RaiseCalcAlarm(rec);
      }
      SetStatus(rec, status);
      RequestCompletion(rec);
    }
  }
}
