/**
 * Device support for the ao record (pydev_ao.cpp): the OUT link is compiled
 * code evaluated with the record's fields as arguments.  Before the code
 * runs, VAL is recomputed from OVAL by undoing the linear conversion
 * (AOFF, ASLO); the code's value, read by get_double, is converted back
 * into VAL.  Doubles are reals here: rounding is not modelled.
 */
module PydevAo {
  import opened Wrappers
  import opened CTypes
  import opened CText
  import opened Epics
  import opened Variants
  import opened PyWrapper
  import opened DevSupport

  /** VAL from OVAL: the offset removed, then divided by the slope unless the slope is zero. */
  function Unscaled(oval: real, aoff: real, aslo: real): real
  {
    if aslo != 0.0 then (oval - aoff) / aslo else oval - aoff
  }

  /** VAL from the code's value: multiplied by the slope unless it is zero, then the offset added. */
  function Scaled(v: real, aoff: real, aslo: real): (r: real)
    ensures Unscaled(r, aoff, aslo) == v
  {
    if aslo != 0.0 then v * aslo + aoff else v + aoff
  }

  /** Code that hands back the value it was given leaves VAL at OVAL. */
  lemma ScalingRoundTrip(oval: real, aoff: real, aslo: real)
    ensures Scaled(Unscaled(oval, aoff, aslo), aoff, aslo) == oval
  {
    if aslo != 0.0 {
      assert ((oval - aoff) / aslo) * aslo == oval - aoff;
    }
  }

  /** The ao fields the device support reads or writes. */
  class Ao {
    const rec: Common
    const out: string
    var val: real
    const oval: real
    const aoff: real
    const aslo: real
    const rval: EpicsInt32
    const oraw: EpicsInt32
    const egu: string
    const hopr: real
    const lopr: real
    const prec: EpicsInt16
    const tpro: EpicsUInt8

    constructor (rec: Common, out: string, oval: real, aoff: real, aslo: real)
      ensures this.rec == rec && this.out == out && this.oval == oval && this.aoff == aoff && this.aslo == aslo
    {
      this.rec, this.out, this.oval, this.aoff, this.aslo := rec, out, oval, aoff, aslo;
      val, rval, oraw, egu, hopr, lopr, prec, tpro := 0.0, 0, 0, "", 0.0, 0.0, 0, 0;
    }

    /** The value of each macro the callback recognises, with VAL as the callback has just set it. */
    function Macros(v: real): (m: map<string, Variant>)
      reads this, rec
      ensures m.Keys == {"VAL", "RVAL", "ORAW", "NAME", "EGU", "HOPR", "LOPR", "PREC", "TPRO"}
      ensures m["VAL"] == Double(v)
    {
      map["VAL" := Double(v), "RVAL" := Long(rval), "ORAW" := Long(oraw), "NAME" := String(rec.name),
          "EGU" := String(egu), "HOPR" := Double(hopr), "LOPR" := Double(lopr), "PREC" := Long(prec),
          "TPRO" := Unsigned(tpro)]
    }

    /**
     * processRecordCb: VAL is recomputed from OVAL and passed to the code;
     * the code's value, read by get_double and converted back, becomes VAL
     * and clears UDF, with status 0.  An exception raises an INVALID CALC
     * alarm and sets status -1, and VAL keeps the value recomputed from
     * OVAL.
     */
    method ProcessRecordCb(py: Interpreter, mt: MacroText, ft: FloatText)
      requires rec.dpvt.Some? && py.Valid() && CacheHolds(rec.dpvt.value, py)
      modifies this`val, rec`udf, rec`alarm, rec`dpvt, rec`completions, rec.dpvt.value.bytecode
      modifies py`compiled, py`nextHandle, py`history
      ensures rec.dpvt.Some? && py.Valid() && CacheHolds(rec.dpvt.value, py)
      ensures rec.completions == old(rec.completions) + 1
      ensures rec.dpvt.value.scan == old(rec.dpvt.value.scan) && rec.dpvt.value.bytecode == old(rec.dpvt.value.bytecode)
      ensures var r := old(CachedRun(py, rec.dpvt.value, out, mt, Macros(Unscaled(oval, aoff, aslo)), {}, true));
        var ok := r.Ok? && r.value.GetDouble(ft).Ok?;
        rec.dpvt.value.processCbStatus == (if ok then 0 else -1) &&
        (ok ==> val == Scaled(r.value.GetDouble(ft).value, aoff, aslo) && !rec.udf && rec.alarm == old(rec.alarm)) &&
        (!ok ==> val == Unscaled(oval, aoff, aslo) && rec.udf == old(rec.udf) && rec.alarm == SetSevr(old(rec.alarm), CalcInvalid))
    {
      val := Unscaled(oval, aoff, aslo);
      var r := EvalCached(rec, out, mt, Macros(val), {}, py, true, true);
      var status := -1;
      if r.Ok? {
        var d := r.value.GetDouble(ft);
        if d.Ok? {
          val := Scaled(d.value, aoff, aslo);
          rec.udf := false;
          status := 0;
        }
      }
      if status != 0 {
        RaiseCalcAlarm(rec);
      }
      SetStatus(rec, status);
      RequestCompletion(rec);
    }
  }

  /**
   * init_record: as in the other files, but returning 2, which tells the
   * ao record not to convert RVAL into VAL.
   */
  method InitRecord(ao: Ao, registry: ScanRegistry, py: Interpreter) returns (status: int)
    requires registry.Valid()
    modifies ao.rec`dpvt, registry, py`params
    ensures status == 2 && registry.Valid()
    ensures ao.rec.dpvt.Some? && fresh(ao.rec.dpvt.value.bytecode) && ao.rec.dpvt.value.bytecode.code.None?
    ensures ao.rec.dpvt.value.processCbStatus == 0 && ao.rec.dpvt.value.code == ""
    ensures IoIntrParam(ao.out).None? ==>
      ao.rec.dpvt.value.scan.None? && registry.scans == old(registry.scans) && py.params == old(py.params)
    ensures IoIntrParam(ao.out).Some? ==> var p := IoIntrParam(ao.out).value;
      p in registry.scans && ao.rec.dpvt.value.scan == Some(registry.scans[p]) &&
      (p in old(registry.scans) ==> registry.scans == old(registry.scans) && py.params == old(py.params)) &&
      (p !in old(registry.scans) ==>
        registry.scans == old(registry.scans)[p := old(registry.nextScan)] &&
        py.params == Registered(old(py.params), p, old(registry.nextScan)))
  {
    var s := DevSupport.InitRecord(ao.rec, ao.out, registry, py);
    status := 2;
  }
}
