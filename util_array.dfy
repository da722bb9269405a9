/**
 * rec_bptr_to_strings: the value buffer of an array record as the text of
 * a Python list, for the numeric element types, or a runtime_error.
 */
module UtilArray {
  import opened Wrappers
  import opened CTypes
  import opened Epics
  import opened CText
  import opened Util

  /**
   * The first nelm elements of the buffer, each read as the record's FTVL
   * type, in a Python list display.  The buffer is modelled by its elements
   * already read as numbers; `floatText` is Util::to_string for floats.
   */
  function RecBptrToStrings(ftvl: nat, bptr: seq<Num>, nelm: nat, floatText: real -> string): (r: Result<string>)
    requires nelm <= |bptr|
    ensures r.Ok? <==> IsArrayElementType(ftvl)
    ensures r.Throw? ==> r.error == RuntimeError
    ensures r.Ok? ==> r.value == PyListString(bptr, nelm, floatText)
    ensures r.Ok? ==> |r.value| >= 2 && r.value[0] == '[' && r.value[|r.value| - 1] == ']'
    ensures r.Ok? && nelm == 0 ==> r.value == "[]"
  {
    if ftvl == DBF_CHAR then Ok(PyListString(bptr, nelm, floatText))
    else if ftvl == DBF_UCHAR then Ok(PyListString(bptr, nelm, floatText))
    else if ftvl == DBF_SHORT then Ok(PyListString(bptr, nelm, floatText))
    else if ftvl == DBF_USHORT then Ok(PyListString(bptr, nelm, floatText))
    else if ftvl == DBF_LONG then Ok(PyListString(bptr, nelm, floatText))
    else if ftvl == DBF_ULONG then Ok(PyListString(bptr, nelm, floatText))
    else if ftvl == DBF_FLOAT then Ok(PyListString(bptr, nelm, floatText))
    else if ftvl == DBF_DOUBLE then Ok(PyListString(bptr, nelm, floatText))
    else Throw(RuntimeError)
  }

  /** A buffer of three longs, 1, -2 and 30, reads as "[1,-2,30]"; a 64-bit integer type is refused. */
  lemma RecBptrToStringsExample(floatText: real -> string)
    ensures RecBptrToStrings(DBF_LONG, [INum(1), INum(-2), INum(30)], 3, floatText) == Ok("[1,-2,30]")
    ensures RecBptrToStrings(DBF_INT64, [INum(1)], 1, floatText) == Throw(RuntimeError)
  {
    var vals := [INum(1), INum(-2), INum(30)];
    assert IntToString(1) == "1" && IntToString(-2) == "-2" && IntToString(30) == "30" by {
      assert NatToString(3) == "3" && NatToString(0) == "0";
    }
    var texts := seq(3, i requires 0 <= i < 3 => NumText(vals[i], floatText));
    assert texts == ["1", "-2", "30"];
    assert PyListString(vals, 3, floatText) == "[" + Joined(texts, ",") + "]";
    assert ["1", "-2", "30"][1..] == ["-2", "30"] && ["-2", "30"][1..] == ["30"];
    assert Joined(["-2", "30"], ",") == "-2,30";
    assert Joined(texts, ",") == "1,-2,30";
    assert PyListString(vals, 3, floatText) == "[1,-2,30]";
    assert RecBptrToStrings(DBF_LONG, vals, 3, floatText) == Ok(PyListString(vals, 3, floatText));
  }
}
