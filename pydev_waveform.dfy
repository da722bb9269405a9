/**
 * Device support for the waveform record (pydev_waveform.cpp): the INP link
 * is Python code in which `%VAL%` stands for the record's array, written as
 * text; the code is executed and the list it produces is copied into the
 * record's buffer, at most NELM elements, NORD set to their number.  The
 * callback works on a vector of doubles for the floating FTVL types and a
 * vector of longs for the others.
 */
module PydevWaveform {
  import opened Wrappers
  import opened CTypes
  import opened Epics
  import opened PyWrapper
  import opened DevSupport

  /** The element type of the vector the callback uses for FTVL: double for FLOAT and DOUBLE, long otherwise. */
  function VectorType(ftvl: nat): (t: CType)
    ensures t.IsFloating() <==> ftvl == DBF_FLOAT || ftvl == DBF_DOUBLE
    ensures t == CType.Int64 || t == CType.Float64
  {
    if ftvl == DBF_FLOAT || ftvl == DBF_DOUBLE then Float64 else Int64
  }

  /** Every element of the buffer is a value of type t. */
  predicate BufferHolds(buf: seq<Num>, t: CType)
  {
    forall i :: 0 <= i < |buf| ==> Fits(t, buf[i])
  }

  /** The buffer's elements, each converted to the vector's element type t, as `assign` reads them. */
  function ReadAs(buf: seq<Num>, t: CType): seq<Num>
  {
    seq(|buf|, i requires 0 <= i < |buf| => Cast(t, buf[i]))
  }

  /**
   * The buffer after std::copy of the first min(|arr|, |buf|) elements of
   * `arr`, each converted to the element type t; later elements are kept.
   */
  function Stored(buf: seq<Num>, arr: seq<Num>, t: CType): (r: seq<Num>)
    ensures |r| == |buf|
    ensures forall i :: 0 <= i < |buf| && i >= |arr| ==> r[i] == buf[i]
    ensures BufferHolds(buf, t) ==> BufferHolds(r, t)
  {
    seq(|buf|, i requires 0 <= i < |buf| => if i < |arr| then Cast(t, arr[i]) else buf[i])
  }

  /**
   * Reading the buffer into the callback's vector and copying the vector
   * back leaves the buffer as it was: longs and doubles hold every value
   * of the eight element types.
   */
  lemma ReadStoreRoundTrip(buf: seq<Num>, ftvl: nat)
    requires IsArrayElementType(ftvl) && BufferHolds(buf, ElementType(ftvl).value)
    ensures Stored(buf, ReadAs(buf, VectorType(ftvl)), ElementType(ftvl).value) == buf
  {
    var et, vt := ElementType(ftvl).value, VectorType(ftvl);
    forall i | 0 <= i < |buf|
      ensures Cast(et, Cast(vt, buf[i])) == buf[i]
    {
      assert Fits(et, buf[i]);
      if !et.IsFloating() {
        assert CType.Int64.Holds(buf[i].i);
      }
    }
  }

  /** The waveform fields the device support reads or writes. */
  class Waveform {
    const rec: Common
    const inp: string
    const ftvl: nat
    const nelm: EpicsUInt32
    /** The value buffer of NELM elements of type FTVL. */
    const bptr: array<Num>
    var nord: EpicsUInt32
    const tpro: EpicsUInt8

    /** NELM elements allocated, NORD of them in use, each a value of the element type. */
    ghost predicate Valid()
      reads this, bptr
    {
      bptr.Length == nelm && nord <= nelm &&
      (IsArrayElementType(ftvl) ==> BufferHolds(bptr[..], ElementType(ftvl).value))
    }

    constructor (rec: Common, inp: string, ftvl: nat, nelm: EpicsUInt32)
      ensures Valid() && this.rec == rec && this.inp == inp && this.ftvl == ftvl && this.nelm == nelm
      ensures fresh(bptr) && nord == 0
    {
      this.rec, this.inp, this.ftvl, this.nelm := rec, inp, ftvl, nelm;
      var zero := if ftvl == DBF_FLOAT || ftvl == DBF_DOUBLE then FNum(0.0) else INum(0);
      bptr := new Num[nelm](_ => zero);
      nord, tpro := 0, 0;
    }

    /**
     * fromRecArrayVal: the NELM elements of the buffer in the callback's
     * vector, for the eight numeric element types, and nothing otherwise;
     * copying that vector back would restore the buffer.
     */
    function FromRecArrayVal(): (r: Option<seq<Num>>)
      requires Valid()
      reads this, bptr
      ensures r.Some? <==> IsArrayElementType(ftvl)
      ensures r.Some? ==> |r.value| == nelm
      ensures r.Some? ==> Stored(bptr[..], r.value, ElementType(ftvl).value) == bptr[..]
    {
      if IsArrayElementType(ftvl) then
        ReadStoreRoundTrip(bptr[..], ftvl);
        Some(ReadAs(bptr[..], VectorType(ftvl)))
      else None
    }

    /**
     * toRecArrayVal: for the eight numeric element types, NORD becomes
     * min(|arr|, NELM) and exactly the first NORD elements of `arr` are
     * converted into the buffer; for any other FTVL nothing changes and
     * false is returned.
     */
    method ToRecArrayVal(arr: seq<Num>) returns (ok: bool)
      requires Valid()
      modifies bptr, this`nord
      ensures Valid()
      ensures ok <==> IsArrayElementType(ftvl)
      ensures ok ==> nord == (if |arr| < nelm then |arr| else nelm) &&
                     bptr[..] == Stored(old(bptr[..]), arr, ElementType(ftvl).value)
      ensures !ok ==> nord == old(nord) && bptr[..] == old(bptr[..])
    {
      if !IsArrayElementType(ftvl) {
        return false;
      }
      var et := ElementType(ftvl).value;
      nord := if |arr| < nelm then |arr| else nelm;
      var i := 0;
      while i < nord
        invariant nord == (if |arr| < nelm then |arr| else nelm)
        invariant 0 <= i <= nord
        invariant forall j :: 0 <= j < i ==> bptr[j] == Cast(et, arr[j])
        invariant forall j :: i <= j < bptr.Length ==> bptr[j] == old(bptr[j])
      {
        bptr[i] := Cast(et, arr[i]);
        i := i + 1;
      }
      assert bptr[..] == Stored(old(bptr[..]), arr, et);
      return true;
    }

    /**
     * The text of the VAL marker: the buffer written as a list by
     * `arrayToStr`, which is not part of this model; for an FTVL that is
     * not numeric the marker is not replaced.
     */
    function Fields(arrayToStr: seq<Num> -> string): (m: map<string, string>)
      requires Valid()
      reads this, bptr
      ensures "VAL" in m <==> IsArrayElementType(ftvl)
      ensures m.Keys <= {"VAL"}
    {
      var a := FromRecArrayVal();
      if a.Some? then map["VAL" := arrayToStr(a.value)] else map[]
    }

    /**
     * processRecordCb: the status is 0 exactly when the code's value is a
     * list whose every element converts and FTVL is numeric; the buffer
     * and NORD then hold the list as toRecArrayVal stores it.  Otherwise
     * the buffer and NORD are kept, an INVALID CALC alarm is raised and the
     * status is -1.
     */
    method ProcessRecordCb(py: Interpreter, arrayToStr: seq<Num> -> string)
      requires Valid() && rec.dpvt.Some?
      modifies bptr, this`nord, rec`alarm, rec`dpvt, rec`completions, py`history
      ensures Valid() && rec.dpvt.Some? && rec.completions == old(rec.completions) + 1
      ensures rec.dpvt.value == old(rec.dpvt.value).(processCbStatus := rec.dpvt.value.processCbStatus)
      ensures var o := old(ListExec(py, FieldsCode(inp, Fields(arrayToStr)), VectorType(ftvl)));
        var ok := o.result == Ok(true) && IsArrayElementType(ftvl);
        py.history == old(py.history) + o.runs &&
        rec.dpvt.value.processCbStatus == (if ok then 0 else -1) &&
        (ok ==> nord == (if |o.list| < nelm then |o.list| else nelm) &&
                bptr[..] == Stored(old(bptr[..]), o.list, ElementType(ftvl).value) && rec.alarm == old(rec.alarm)) &&
        (!ok ==> nord == old(nord) && bptr[..] == old(bptr[..]) && rec.alarm == SetSevr(old(rec.alarm), CalcInvalid))
    {
      var code := SubstituteFields(inp, Fields(arrayToStr));
      var r, arr := ExecListField(py, code, VectorType(ftvl));
      var status := -1;
      if r == Ok(true) {
        var stored := ToRecArrayVal(arr);
        if stored {
          status := 0;
        }
      }
      if status != 0 {
        RaiseCalcAlarm(rec);
      }
      SetStatus(rec, status);
      RequestCompletion(rec);
    }
  }
}
