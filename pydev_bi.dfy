/**
 * Device support for the bi record (pydev_bi.cpp): the INP link is Python
 * code in which a `%FIELD%` marker stands for the text of a record field;
 * the code, with those texts substituted, is executed and its value,
 * converted to a 32-bit unsigned integer, becomes RVAL.  The record then
 * converts RVAL into VAL itself, so the device support leaves VAL and UDF
 * alone.
 */
module PydevBi {
  import opened Wrappers
  import opened CTypes
  import opened CText
  import opened Epics
  import opened PyWrapper
  import opened DevSupport

  /** The bi fields the device support reads or writes. */
  class Bi {
    const rec: Common
    const inp: string
    const val: EpicsUInt16
    var rval: EpicsUInt32
    const znam: string
    const onam: string
    const tpro: EpicsUInt8

    constructor (rec: Common, inp: string, val: EpicsUInt16, rval: EpicsUInt32)
      ensures this.rec == rec && this.inp == inp && this.val == val && this.rval == rval
    {
      this.rec, this.inp, this.val, this.rval := rec, inp, val, rval;
      znam, onam, tpro := "", "", 0;
    }

    /** The text each recognised field marker is replaced with. */
    function Fields(): (m: map<string, string>)
      reads this, rec
      ensures m.Keys == {"VAL", "RVAL", "NAME", "ZNAM", "ONAM", "TPRO"}
      ensures m["RVAL"] == IntToString(rval) && m["NAME"] == rec.name
    {
      map["VAL" := IntToString(val), "RVAL" := IntToString(rval), "NAME" := rec.name,
          "ZNAM" := znam, "ONAM" := onam, "TPRO" := IntToString(tpro)]
    }

    /**
     * processRecordCb: when the code's value converts to an unsigned 32-bit
     * integer it becomes RVAL, with status 0; otherwise (a value of another
     * type, an exception, or no interpreter on this thread) RVAL is kept,
     * an INVALID CALC alarm is raised and the status is -1.
     */
    method ProcessRecordCb(py: Interpreter)
      requires rec.dpvt.Some?
      modifies this`rval, rec`alarm, rec`dpvt, rec`completions, py`history
      ensures rec.dpvt.Some? && rec.completions == old(rec.completions) + 1
      ensures rec.dpvt.value == old(rec.dpvt.value).(processCbStatus := rec.dpvt.value.processCbStatus)
      ensures var o := old(ScalarExec(py, FieldsCode(inp, Fields()), CType.UInt32));
        py.history == old(py.history) + o.runs &&
        rec.dpvt.value.processCbStatus == (if o.result == Ok(true) then 0 else -1) &&
        (o.result == Ok(true) ==> rval == o.value.value.i && rec.alarm == old(rec.alarm)) &&
        (o.result != Ok(true) ==> rval == old(rval) && rec.alarm == SetSevr(old(rec.alarm), CalcInvalid))
    {
      var code := SubstituteFields(inp, Fields());
      var r, v := ExecField(py, code, CType.UInt32, INum(rval));
      var status := -1;
      if r == Ok(true) {
        rval := v.i;
        status := 0;
      } else {
        RaiseCalcAlarm(rec);
      }
      SetStatus(rec, status);
      RequestCompletion(rec);
    }
  }
}
