/**
 * Device support for the mbbo record (pydev_mbbo.cpp): the OUT link is
 * Python code in which a `%FIELD%` marker stands for the text of a record
 * field; the code, with those texts substituted, is executed.  A value the
 * code produces that converts to a 32-bit unsigned integer is stored in
 * RVAL, but whether it converts does not change the status: only an
 * exception fails the callback.
 */
module PydevMbbo {
  import opened Wrappers
  import opened CTypes
  import opened CText
  import opened Epics
  import opened PyWrapper
  import opened DevSupport

  /** The text of each field of an mbbo record that a `%FIELD%` marker may name. */
  function FieldTexts(val: EpicsUInt16, rval: EpicsUInt32, name: string, stateValues: seq<EpicsUInt32>, stateStrings: seq<string>,
                      tpro: EpicsUInt8): (m: map<string, string>)
    requires |stateValues| == 16 && |stateStrings| == 16
    ensures "VAL" in m && m["VAL"] == IntToString(val) && "RVAL" in m && m["RVAL"] == IntToString(rval)
    ensures "NAME" in m && m["NAME"] == name
  {
    var values := seq(16, i requires 0 <= i < 16 => IntToString(stateValues[i]));
    Zip(STATE_VALUE_NAMES, values) + Zip(STATE_STRING_NAMES, stateStrings) +
      map["VAL" := IntToString(val), "RVAL" := IntToString(rval), "NAME" := name, "TPRO" := IntToString(tpro)]
  }

  /** The mbbo fields the device support reads or writes. */
  class Mbbo {
    const rec: Common
    const out: string
    const val: EpicsUInt16
    var rval: EpicsUInt32
    /** ZRVL to FFVL, and ZRST to FFST. */
    const stateValues: seq<EpicsUInt32>
    const stateStrings: seq<string>
    const tpro: EpicsUInt8

    constructor (rec: Common, out: string, val: EpicsUInt16, stateValues: seq<EpicsUInt32>, stateStrings: seq<string>)
      requires |stateValues| == 16 && |stateStrings| == 16
      ensures this.rec == rec && this.out == out && this.val == val
      ensures this.stateValues == stateValues && this.stateStrings == stateStrings
    {
      this.rec, this.out, this.val := rec, out, val;
      this.stateValues, this.stateStrings := stateValues, stateStrings;
      rval, tpro := 0, 0;
    }

    /** The text each recognised field marker is replaced with. */
    function Fields(): (m: map<string, string>)
      requires |stateValues| == 16 && |stateStrings| == 16
      reads this, rec
      ensures "VAL" in m && m["VAL"] == IntToString(val) && "RVAL" in m && m["RVAL"] == IntToString(rval)
      ensures "NAME" in m && m["NAME"] == rec.name
    {
      FieldTexts(val, rval, rec.name, stateValues, stateStrings, tpro)
    }

    /**
     * processRecordCb: the status is 0 unless executing the code threw (an
     * exception, or no interpreter on this thread), in which case an
     * INVALID CALC alarm is raised and the status is -1.  RVAL takes the
     * code's value whenever that converts, and is kept otherwise.
     */
    method ProcessRecordCb(py: Interpreter)
      requires |stateValues| == 16 && |stateStrings| == 16
      requires rec.dpvt.Some?
      modifies this`rval, rec`alarm, rec`dpvt, rec`completions, py`history
      ensures rec.dpvt.Some? && rec.completions == old(rec.completions) + 1
      ensures rec.dpvt.value == old(rec.dpvt.value).(processCbStatus := rec.dpvt.value.processCbStatus)
      ensures var o := old(ScalarExec(py, FieldsCode(out, Fields()), CType.UInt32));
        py.history == old(py.history) + o.runs &&
        rec.dpvt.value.processCbStatus == (if o.result.Throw? then -1 else 0) &&
        rval == (if o.value.Some? then o.value.value.i else old(rval)) &&
        rec.alarm == (if o.result.Throw? then SetSevr(old(rec.alarm), CalcInvalid) else old(rec.alarm))
    {
      var code := SubstituteFields(out, Fields());
      var r, v := ExecField(py, code, CType.UInt32, INum(rval));
      rval := v.i;
      var status := 0;
      if r.Throw? {
        RaiseCalcAlarm(rec);
        status := -1;
      }
      SetStatus(rec, status);
      RequestCompletion(rec);
    }
  }
}
