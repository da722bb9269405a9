/**
 * Device support for the longin record (pydev_longin.cpp): the INP link is
 * Python code whose macros name record fields; the code is compiled once
 * per text and evaluated with the fields as arguments, and its value,
 * read by get_long, becomes VAL.
 */
module PydevLongin {
  import opened Wrappers
  import opened CTypes
  import opened Epics
  import opened Variants
  import opened PyWrapper
  import opened DevSupport

  /** The longin fields the device support reads or writes. */
  class Longin {
    const rec: Common
    const inp: string
    var val: EpicsInt32
    const egu: string
    const hopr: EpicsInt32
    const lopr: EpicsInt32
    const high: EpicsInt32
    const hihi: EpicsInt32
    const low: EpicsInt32
    const lolo: EpicsInt32
    const tpro: EpicsUInt8

    constructor (rec: Common, inp: string, val: EpicsInt32)
      ensures this.rec == rec && this.inp == inp && this.val == val
    {
      this.rec, this.inp, this.val := rec, inp, val;
      egu, hopr, lopr, high, hihi, low, lolo, tpro := "", 0, 0, 0, 0, 0, 0, 0;
    }

    /** The value of each macro the callback recognises. */
    function Macros(): (m: map<string, Variant>)
      reads this, rec
      ensures m.Keys == {"VAL", "NAME", "EGU", "HOPR", "LOPR", "HIGH", "HIHI", "LOW", "LOLO", "TPRO"}
      ensures m["VAL"] == Long(val)
    {
      map["VAL" := Long(val), "NAME" := String(rec.name), "EGU" := String(egu), "HOPR" := Long(hopr),
          "LOPR" := Long(lopr), "HIGH" := Long(high), "HIHI" := Long(hihi), "LOW" := Long(low),
          "LOLO" := Long(lolo), "TPRO" := Unsigned(tpro)]
    }

    /**
     * processRecordCb: the value of the compiled code, read by get_long and
     * narrowed to 32 bits, becomes VAL and clears UDF, with status 0; any
     * exception (the interpreter's or get_long's) leaves VAL, raises an
     * INVALID CALC alarm and sets status -1.  Either way the record is
     * processed again.
     */
    method ProcessRecordCb(py: Interpreter, mt: MacroText)
      requires rec.dpvt.Some? && py.Valid() && CacheHolds(rec.dpvt.value, py)
      modifies this`val, rec`udf, rec`alarm, rec`dpvt, rec`completions, rec.dpvt.value.bytecode
      modifies py`compiled, py`nextHandle, py`history
      ensures rec.dpvt.Some? && py.Valid() && CacheHolds(rec.dpvt.value, py)
      ensures rec.completions == old(rec.completions) + 1
      ensures rec.dpvt.value.scan == old(rec.dpvt.value.scan) && rec.dpvt.value.bytecode == old(rec.dpvt.value.bytecode)
      ensures var r := old(CachedRun(py, rec.dpvt.value, inp, mt, Macros(), {}, true));
        var ok := r.Ok? && r.value.GetLong().Ok?;
        rec.dpvt.value.processCbStatus == (if ok then 0 else -1) &&
        (ok ==> val == Wrap(CType.Int32, r.value.GetLong().value) && !rec.udf && rec.alarm == old(rec.alarm)) &&
        (!ok ==> val == old(val) && rec.udf == old(rec.udf) && rec.alarm == SetSevr(old(rec.alarm), CalcInvalid))
    {
      var r := EvalCached(rec, inp, mt, Macros(), {}, py, true, true);
      var status := -1;
      if r.Ok? {
        var l := r.value.GetLong();
        if l.Ok? {
          val := Wrap(CType.Int32, l.value);
          rec.udf := false;
          status := 0;
        }
      }
      if status != 0 {
        RaiseCalcAlarm(rec);
      }
      SetStatus(rec, status);
      RequestCompletion(rec);
    }
  }
}
