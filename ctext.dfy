/**
 * Text handling from the C and C++ libraries that the core relies on:
 * character classes (<cctype>, ASCII only), std::to_string for integers,
 * std::stoll / std::stoull, and NUL-terminated C strings with strncpy.
 */
module CText {
  import opened Wrappers
  import opened CTypes

  predicate IsUpper(c: char) { 'A' <= c <= 'Z' }
  predicate IsLower(c: char) { 'a' <= c <= 'z' }
  predicate IsAlpha(c: char) { IsUpper(c) || IsLower(c) }
  predicate IsDigit(c: char) { '0' <= c <= '9' }
  predicate IsAlnum(c: char) { IsAlpha(c) || IsDigit(c) }
  predicate IsSpace(c: char) { c == ' ' || c == '\t' || c == '\n' || c == '\U{B}' || c == '\U{C}' || c == '\r' }

  predicate AllDigits(s: string) { forall i :: 0 <= i < |s| ==> IsDigit(s[i]) }

  function DigitChar(d: nat): (c: char)
    requires d < 10
    ensures IsDigit(c)
  {
    ('0' as int + d) as char
  }

  function DigitValue(c: char): (d: nat)
    requires IsDigit(c)
    ensures d < 10 && DigitChar(d) == c
  {
    c as int - '0' as int
  }

  /** std::to_string of a non-negative integer: its decimal digits, no leading zeros. */
  function NatToString(n: nat): (s: string)
    ensures 1 <= |s| && AllDigits(s)
    ensures s[0] == '0' ==> n == 0
  {
    if n < 10 then [DigitChar(n)] else NatToString(n / 10) + [DigitChar(n % 10)]
  }

  /** std::to_string of a (long) integer: a minus sign for negatives, then the digits. */
  function IntToString(x: int): (s: string)
    ensures |s| >= 1 && (x < 0 <==> s[0] == '-')
    ensures x >= 0 ==> AllDigits(s)
  {
    if x < 0 then "-" + NatToString(-x) else NatToString(x)
  }

  /** The number a string of decimal digits denotes. */
  function DigitsValue(d: string): nat
    requires AllDigits(d)
  {
    if d == [] then 0 else DigitsValue(d[..|d| - 1]) * 10 + DigitValue(d[|d| - 1])
  }

  lemma {:induction false} DigitsValueOfNatToString(n: nat)
    ensures DigitsValue(NatToString(n)) == n
  {
    var s := NatToString(n);
    if n >= 10 {
      DigitsValueOfNatToString(n / 10);
      assert s[..|s| - 1] == NatToString(n / 10);
    } else {
      assert s[..|s| - 1] == [];
    }
  }

  /** What strtoll/strtoull skip first: leading white space. */
  function SkipSpace(s: string): (r: string)
    ensures |r| <= |s| && r == s[|s| - |r|..]
    ensures r != [] ==> !IsSpace(r[0])
    ensures s != [] && !IsSpace(s[0]) ==> r == s
  {
    if s != [] && IsSpace(s[0]) then SkipSpace(s[1..]) else s
  }

  /** The length of the longest run of digits that starts the string. */
  function DigitRun(s: string): (k: nat)
    ensures k <= |s| && AllDigits(s[..k])
    ensures k < |s| ==> !IsDigit(s[k])
  {
    if s != [] && IsDigit(s[0]) then
      var k := 1 + DigitRun(s[1..]);
      assert s[..k] == [s[0]] + s[1..][..k - 1];
      k
    else 0
  }

  /** The sign and magnitude a decimal integer conversion reads from the start of a string. */
  datatype Scanned = Scanned(negative: bool, magnitude: nat)

  /**
   * Skips white space, reads an optional sign and then every decimal digit
   * that follows; the rest of the string is ignored.  None when no digit
   * follows the sign.
   */
  function ScanInteger(s: string): Option<Scanned>
  {
    var t := SkipSpace(s);
    var neg := t != [] && t[0] == '-';
    var body := if t != [] && (t[0] == '-' || t[0] == '+') then t[1..] else t;
    var k := DigitRun(body);
    if k == 0 then None
    else Some(Scanned(neg, DigitsValue(body[..k])))
  }

  /** std::stoll: the leading integer of a string, as a long long. */
  function Stoll(s: string): (r: Result<EpicsInt64>)
    ensures r.Throw? ==> r.error == InvalidArgument || r.error == OutOfRange
    ensures r.Throw? && r.error == InvalidArgument <==> ScanInteger(s).None?
  {
    match ScanInteger(s)
    case None => Throw(InvalidArgument)
    case Some(sc) =>
      var v: int := if sc.negative then -(sc.magnitude as int) else sc.magnitude;
      if -0x8000_0000_0000_0000 <= v < 0x8000_0000_0000_0000 then Ok(v) else Throw(OutOfRange)
  }

  /**
   * std::stoull: the leading integer of a string, as an unsigned long long.
   * A minus sign negates the magnitude modulo 2^64.
   */
  function Stoull(s: string): (r: Result<EpicsUInt64>)
    ensures r.Throw? ==> r.error == InvalidArgument || r.error == OutOfRange
    ensures r.Throw? && r.error == InvalidArgument <==> ScanInteger(s).None?
    ensures ScanInteger(s).Some? && !ScanInteger(s).value.negative && ScanInteger(s).value.magnitude < 0x1_0000_0000_0000_0000
            ==> r == Ok(ScanInteger(s).value.magnitude)
  {
    match ScanInteger(s)
    case None => Throw(InvalidArgument)
    case Some(sc) =>
      if sc.magnitude >= 0x1_0000_0000_0000_0000 then Throw(OutOfRange)
      else if sc.negative then Ok(Wrap(CType.UInt64, -(sc.magnitude as int)))
      else Ok(sc.magnitude)
  }

  /**
   * std::to_string(double) and std::stod.  Binary floating point and its
   * decimal formatting are not modelled: the two library functions are
   * given to the model as functions.
   */
  datatype FloatText = FloatText(format: real -> string, parse: string -> Result<real>)

  /** The decimal text std::to_string writes is read back, sign and magnitude, by the integer scan. */
  lemma ScanDecimal(x: int)
    ensures ScanInteger(IntToString(x)) == Some(Scanned(x < 0, if x < 0 then -x else x))
  {
    var s := IntToString(x);
    var m: nat := if x < 0 then -x else x;
    var digits := NatToString(m);
    assert !IsSpace(s[0]);
    assert SkipSpace(s) == s;
    var body := if s[0] == '-' || s[0] == '+' then s[1..] else s;
    assert body == digits;
    assert DigitRun(digits) == |digits|;
    assert digits[..|digits|] == digits;
    DigitsValueOfNatToString(m);
  }

  /** std::stoll reads back every long that std::to_string wrote. */
  lemma StollOfIntToString(x: EpicsInt64)
    ensures Stoll(IntToString(x)) == Ok(x)
  {
    ScanDecimal(x);
  }

  /** std::stoull reads back every unsigned long long that std::to_string wrote. */
  lemma StoullOfNatToString(x: EpicsUInt64)
    ensures Stoull(NatToString(x)) == Ok(x)
  {
    ScanDecimal(x);
  }

  lemma DigitsValueSmall()
    ensures DigitsValue("1") == 1 && DigitsValue("5") == 5 && DigitsValue("17") == 17
  {
    assert "1"[..0] == [] && "5"[..0] == [];
    assert "17"[..1] == "1";
  }

  /** The leading integer is read and the fraction ignored: "5.2" reads as 5. */
  lemma StollReadsLeadingInteger()
    ensures Stoll("5.2") == Ok(5)
  {
    assert SkipSpace("5.2") == "5.2";
    assert DigitRun("5.2"[1..]) == 0;
    assert DigitRun("5.2") == 1;
    assert "5.2"[..1] == "5";
    DigitsValueSmall();
  }

  /** The unsigned conversion reads "5.2" as 5 as well. */
  lemma StoullReadsLeadingInteger()
    ensures Stoull("5.2") == Ok(5)
  {
    var s := "5.2";
    assert SkipSpace(s) == s;
    assert DigitRun(s[1..]) == 0;
    assert DigitRun(s) == 1;
    assert s[..1] == "5";
    DigitsValueSmall();
    assert ScanInteger(s) == Some(Scanned(false, 5));
  }

  /** Leading white space is skipped and trailing text ignored: " -17x" reads as -17. */
  lemma StollSkipsSpaceAndTrailingText()
    ensures Stoll(" -17x") == Ok(-17)
  {
    SkipsOneSpace(" -17x");
    ReadsSeventeen("17x");
    assert " -17x"[1..] == "-17x";
    assert "-17x"[1..] == "17x";
  }

  lemma SkipsOneSpace(s: string)
    requires |s| >= 2 && s[0] == ' ' && !IsSpace(s[1])
    ensures SkipSpace(s) == s[1..]
  {
  }

  lemma ReadsSeventeen(s: string)
    requires |s| == 3 && s[0] == '1' && s[1] == '7' && !IsDigit(s[2])
    ensures DigitRun(s) == 2 && s[..2] == "17" && DigitsValue(s[..2]) == 17
  {
    assert DigitRun(s[1..][1..]) == 0;
    DigitsValueSmall();
  }

  /** Text without a leading number is refused with std::invalid_argument. */
  lemma StollRefusesNonNumber()
    ensures Stoll("abc") == Throw(InvalidArgument)
  {
    var t := "abc";
    assert t[0] == 'a';
    assert SkipSpace(t) == t;
    assert DigitRun(t) == 0;
    assert ScanInteger(t) == None;
  }

  /** std::stoull negates a signed magnitude modulo 2^64: "-1" reads as 2^64 - 1. */
  lemma StoullNegatesModulo()
    ensures Stoull("-1") == Ok(0xFFFF_FFFF_FFFF_FFFF)
  {
    var t := "-1";
    assert t[0] == '-';
    assert SkipSpace(t) == t;
    var body := t[1..];
    assert body == "1";
    assert DigitRun(body[1..]) == 0;
    assert DigitRun(body) == 1;
    assert body[..1] == "1";
    DigitsValueSmall();
    assert ScanInteger(t) == Some(Scanned(true, 1));
  }

  const NUL: char := '\0'

  /** The text of a C string held in a character buffer: everything before the first NUL. */
  function CStr(s: seq<char>): (r: string)
    ensures |r| <= |s| && r == s[..|r|]
    ensures NUL !in r
    ensures |r| < |s| ==> s[|r|] == NUL
  {
    if s == [] || s[0] == NUL then [] else [s[0]] + CStr(s[1..])
  }

  /** strlen */
  function StrLen(s: seq<char>): (n: nat)
    ensures n <= |s|
  {
    |CStr(s)|
  }

  /** What strncpy(dst, src, n) leaves in dst[0..n): the C string cut to n, padded with NULs. */
  function StrNCpyImage(src: seq<char>, n: nat): (r: seq<char>)
    ensures |r| == n
    ensures forall i :: 0 <= i < n ==> r[i] == if i < |CStr(src)| then src[i] else NUL
  {
    var c := CStr(src);
    if |c| >= n then c[..n] else c + seq(n - |c|, _ => NUL)
  }

  /** strncpy(dst, src, n): copies the C string, at most n characters, and pads with NULs up to n. */
  method StrNCpy(dst: array<char>, src: seq<char>, n: nat)
    requires n <= dst.Length
    modifies dst
    ensures dst[..n] == StrNCpyImage(src, n)
    ensures dst[n..] == old(dst[n..])
  {
    ghost var c := CStr(src);
    var i := 0;
    while i < n && i < |src| && src[i] != NUL
      invariant 0 <= i <= n && i <= |c|
      invariant forall j :: 0 <= j < i ==> dst[j] == src[j]
      invariant dst[n..] == old(dst[n..])
    {
      dst[i] := src[i];
      i := i + 1;
    }
    while i < n
      invariant i <= n
      invariant forall j :: 0 <= j < i ==> dst[j] == if j < |c| then src[j] else NUL
      invariant dst[n..] == old(dst[n..])
    {
      dst[i] := NUL;
      i := i + 1;
    }
    assert dst[..n] == StrNCpyImage(src, n);
  }

  /**
   * The text a buffer of `size` characters holds after strncpy(buf, s, size - 1)
   * followed by buf[size - 1] = 0: at most size - 1 characters of the C string.
   */
  function Fit(s: seq<char>, size: nat): (r: string)
    requires size >= 1
    ensures |r| < size && |r| <= |CStr(s)| && r == CStr(s)[..|r|]
    ensures |CStr(s)| < size ==> r == CStr(s)
  {
    var c := CStr(s);
    if |c| < size then c else c[..size - 1]
  }

  /** A buffer whose first size-1 characters are strncpy'd from src and whose last is NUL holds Fit(src, size). */
  lemma TerminatedCopy(buf: seq<char>, src: seq<char>)
    requires |buf| >= 1
    requires buf[..|buf| - 1] == StrNCpyImage(src, |buf| - 1)
    requires buf[|buf| - 1] == NUL
    ensures CStr(buf) == Fit(src, |buf|)
    ensures StrLen(buf) < |buf|
  {
    var f := Fit(src, |buf|);
    CopiedPrefix(buf, src);
    CStrOfPrefix(buf, f);
  }

  /**
   * strncpy(buf, s, size - 1), then buf[size - 1] = 0 and strlen(buf) + 1, as
   * the long string records store a value: the buffer then holds Fit(s, size)
   * and the length counts that text and its NUL, so it never exceeds size.
   */
  method StoreString(buf: array<char>, s: seq<char>) returns (len: nat)
    requires buf.Length >= 1
    modifies buf
    ensures CStr(buf[..]) == Fit(s, buf.Length)
    ensures len == StrLen(buf[..]) + 1 == |Fit(s, buf.Length)| + 1 <= buf.Length
  {
    StrNCpy(buf, s, buf.Length - 1);
    buf[buf.Length - 1] := NUL;
    TerminatedCopy(buf[..], s);
    len := StrLen(buf[..]) + 1;
  }

  /**
   * strncpy(buf, s, sizeof(buf)), then buf[sizeof(buf) - 1] = 0, as the
   * string records store a value: the last character copied is overwritten,
   * so the buffer holds the same text as after StoreString.
   */
  method StoreFixedString(buf: array<char>, s: seq<char>)
    requires buf.Length >= 1
    modifies buf
    ensures CStr(buf[..]) == Fit(s, buf.Length)
  {
    var n := buf.Length;
    StrNCpy(buf, s, n);
    buf[n - 1] := NUL;
    assert buf[..n - 1] == StrNCpyImage(s, n - 1);
    TerminatedCopy(buf[..], s);
  }

  lemma CopiedPrefix(buf: seq<char>, src: seq<char>)
    requires |buf| >= 1
    requires buf[..|buf| - 1] == StrNCpyImage(src, |buf| - 1)
    requires buf[|buf| - 1] == NUL
    ensures |Fit(src, |buf|)| < |buf|
    ensures buf[..|Fit(src, |buf|)|] == Fit(src, |buf|)
    ensures buf[|Fit(src, |buf|)|] == NUL
  {
    var n := |buf| - 1;
    var img := StrNCpyImage(src, n);
    var c := CStr(src);
    var f := Fit(src, |buf|);
    forall i | 0 <= i < |f|
      ensures buf[i] == f[i]
    {
      assert buf[i] == img[i];
    }
    if |f| < n {
      assert buf[|f|] == img[|f|];
    }
  }

  lemma {:induction false} CStrOfPrefix(buf: seq<char>, f: string)
    requires |f| < |buf| && buf[..|f|] == f && NUL !in f && buf[|f|] == NUL
    ensures CStr(buf) == f
  {
    if f != [] {
      assert buf[1..][..|f| - 1] == f[1..];
      CStrOfPrefix(buf[1..], f[1..]);
    }
  }
}
