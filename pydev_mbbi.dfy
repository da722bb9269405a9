/**
 * Device support for the mbbi record (pydev_mbbi.cpp): like longin, the
 * INP link is compiled code evaluated with the record's fields as
 * arguments, and its value, read by get_long, becomes VAL.  Unlike the
 * other files, a change of code compiles the new code without destroying
 * the old bytecode.
 */
module PydevMbbi {
  import opened Wrappers
  import opened CTypes
  import opened Epics
  import opened Variants
  import opened PyWrapper
  import opened DevSupport

  /** The mbbi fields the device support reads or writes. */
  class Mbbi {
    const rec: Common
    const inp: string
    var val: EpicsUInt16
    const rval: EpicsUInt32
    /** ZRVL to FFVL, and ZRST to FFST. */
    const stateValues: seq<EpicsUInt32>
    const stateStrings: seq<string>
    const tpro: EpicsUInt8

    constructor (rec: Common, inp: string, val: EpicsUInt16, stateValues: seq<EpicsUInt32>, stateStrings: seq<string>)
      requires |stateValues| == 16 && |stateStrings| == 16
      ensures this.rec == rec && this.inp == inp && this.val == val
      ensures this.stateValues == stateValues && this.stateStrings == stateStrings
    {
      this.rec, this.inp, this.val := rec, inp, val;
      this.stateValues, this.stateStrings := stateValues, stateStrings;
      rval, tpro := 0, 0;
    }

    /** The value of each macro the callback recognises. */
    function Macros(): (m: map<string, Variant>)
      requires |stateValues| == 16 && |stateStrings| == 16
      reads this, rec
      ensures "VAL" in m && m["VAL"] == Unsigned(val) && "RVAL" in m && m["RVAL"] == Unsigned(rval)
      ensures "NAME" in m && m["NAME"] == String(rec.name)
    {
      var strings := seq(16, i requires 0 <= i < 16 => String(stateStrings[i]));
      var values := seq(16, i requires 0 <= i < 16 => Unsigned(stateValues[i]));
      Zip(STATE_VALUE_NAMES, values) + Zip(STATE_STRING_NAMES, strings) +
        map["VAL" := Unsigned(val), "RVAL" := Unsigned(rval), "NAME" := String(rec.name), "TPRO" := Unsigned(tpro)]
    }

    /**
     * processRecordCb: the value of the compiled code, read by get_long and
     * narrowed to 16 bits, becomes VAL and clears UDF, with status 0; an
     * exception leaves VAL, raises an INVALID CALC alarm and sets status -1.
     * The code is compiled only when it differs from the cached text, so
     * empty link code at the first processing evaluates the empty bytecode.
     * The model keeps bytecode compiled for earlier code in the interpreter;
     * whether ByteCode's move assignment releases it is not in the source.
     */
    method ProcessRecordCb(py: Interpreter, mt: MacroText)
      requires |stateValues| == 16 && |stateStrings| == 16
      requires rec.dpvt.Some? && py.Valid() && CacheHolds(rec.dpvt.value, py)
      modifies this`val, rec`udf, rec`alarm, rec`dpvt, rec`completions, rec.dpvt.value.bytecode
      modifies py`compiled, py`nextHandle, py`history
      ensures rec.dpvt.Some? && py.Valid() && CacheHolds(rec.dpvt.value, py)
      ensures rec.completions == old(rec.completions) + 1
      ensures rec.dpvt.value.scan == old(rec.dpvt.value.scan) && rec.dpvt.value.bytecode == old(rec.dpvt.value.bytecode)
      ensures forall h :: h in old(py.compiled) ==> h in py.compiled
      ensures var r := old(CachedRun(py, rec.dpvt.value, inp, mt, Macros(), {}, false));
        var ok := r.Ok? && r.value.GetLong().Ok?;
        rec.dpvt.value.processCbStatus == (if ok then 0 else -1) &&
        (ok ==> val == Wrap(CType.UInt16, r.value.GetLong().value) && !rec.udf && rec.alarm == old(rec.alarm)) &&
        (!ok ==> val == old(val) && rec.udf == old(rec.udf) && rec.alarm == SetSevr(old(rec.alarm), CalcInvalid))
    {
      var r := EvalCached(rec, inp, mt, Macros(), {}, py, false, false);
      var status := -1;
      if r.Ok? {
        var l := r.value.GetLong();
        if l.Ok? {
          val := Wrap(CType.UInt16, l.value);
          rec.udf := false;
          status := 0;
        }
      }
      if status != 0 {
        RaiseCalcAlarm(rec);
      }
      SetStatus(rec, status);
      RequestCompletion(rec);
    }
  }
}
