/**
 * Util: the text helpers used to turn a record's link text into Python code.
 * A std::map<std::string, std::string> is modelled as the sequence of its
 * entries in iteration order (keys strictly ascending), so that the order in
 * which the substitution scanners try the keys is explicit.
 */
module Util {
  import opened Wrappers
  import opened CTypes
  import opened CText

  // ------------------------------------------------------------------
  // std::map<std::string, std::string>
  // ------------------------------------------------------------------

  datatype Entry = Entry(key: string, value: string)

  /** std::string's operator<: character codes compared in turn, a proper prefix first. */
  predicate Less(a: string, b: string)
  {
    if a == [] then b != []
    else b != [] && (a[0] < b[0] || (a[0] == b[0] && Less(a[1..], b[1..])))
  }

  lemma {:induction false} LessIrreflexive(a: string)
    ensures !Less(a, a)
  {
    if a != [] {
      LessIrreflexive(a[1..]);
    }
  }

  lemma {:induction false} LessTransitive(a: string, b: string, c: string)
    requires Less(a, b) && Less(b, c)
    ensures Less(a, c)
  {
    if a != [] && a[0] == b[0] && b[0] == c[0] {
      LessTransitive(a[1..], b[1..], c[1..]);
    }
  }

  lemma {:induction false} LessTotal(a: string, b: string)
    requires a != b
    ensures Less(a, b) || Less(b, a)
  {
    if a != [] && b != [] && a[0] == b[0] {
      assert a == [a[0]] + a[1..] && b == [b[0]] + b[1..];
      LessTotal(a[1..], b[1..]);
    }
  }

  /** The entries of a std::map in iteration order: keys strictly ascending. */
  predicate IsMap(m: seq<Entry>)
  {
    forall i, j :: 0 <= i < j < |m| ==> Less(m[i].key, m[j].key)
  }

  /** Every key of m is above k. */
  predicate Below(k: string, m: seq<Entry>)
  {
    forall i :: 0 <= i < |m| ==> Less(k, m[i].key)
  }

  /** m.find(k) */
  function Lookup(m: seq<Entry>, k: string): Option<string>
  {
    if m == [] then None else if m[0].key == k then Some(m[0].value) else Lookup(m[1..], k)
  }

  /** m[k] = v: the entry is added at its place in key order, or its value replaced. */
  function Put(m: seq<Entry>, k: string, v: string): (r: seq<Entry>)
    requires IsMap(m)
    ensures IsMap(r)
    ensures Lookup(r, k) == Some(v)
    ensures forall j :: j != k ==> Lookup(r, j) == Lookup(m, j)
    ensures forall e :: e in r ==> e in m || e == Entry(k, v)
    ensures forall x :: Below(x, m) && Less(x, k) ==> Below(x, r)
  {
    if m == [] then [Entry(k, v)]
    else if Less(k, m[0].key) then
      forall j | 0 <= j < |m|
        ensures Less(k, m[j].key)
      {
        if j > 0 {
          LessTransitive(k, m[0].key, m[j].key);
        }
      }
      [Entry(k, v)] + m
    else if k == m[0].key then [Entry(k, v)] + m[1..]
    else
      LessTotal(k, m[0].key);
      var rest := Put(m[1..], k, v);
      assert Below(m[0].key, m[1..]);
      [m[0]] + rest
  }

  // ------------------------------------------------------------------
  // getFields
  // ------------------------------------------------------------------

  const MAX_FIELD_LEN: nat := 4

  predicate AllUpper(s: string)
  {
    forall i :: 0 <= i < |s| ==> IsUpper(s[i])
  }

  /** w stands in text at p as a whole word: no letter right before it nor right after it. */
  predicate WordAt(text: string, p: int, w: string)
  {
    0 <= p && p + |w| <= |text| && text[p..p + |w|] == w
    && (p == 0 || !IsAlpha(text[p - 1]))
    && (p + |w| == |text| || !IsAlpha(text[p + |w|]))
  }

  /** A field name of text: one to four capitals standing in text as a whole word. */
  ghost predicate IsFieldOf(text: string, w: string)
  {
    1 <= |w| <= MAX_FIELD_LEN && AllUpper(w) && exists p :: WordAt(text, p, w)
  }

  /** The scanner's variables: the token being collected, the previous character, the map so far. */
  datatype Scanner = Scanner(token: string, prevChar: char, fields: seq<Entry>)

  /** One pass of the getFields loop body over character c. */
  function ScanStep(st: Scanner, c: char): (r: Scanner)
    requires IsMap(st.fields)
    ensures IsMap(r.fields)
  {
    if IsUpper(c) then
      Scanner(if !IsAlpha(st.prevChar) || st.token != [] then st.token + [c] else st.token, c, st.fields)
    else if IsLower(c) then
      Scanner([], c, st.fields)
    else if st.token != [] then
      Scanner([], c, if |st.token| <= MAX_FIELD_LEN then Put(st.fields, st.token, st.token) else st.fields)
    else
      Scanner(st.token, c, st.fields)
  }

  /** The scanner's variables after the loop has run over text. */
  function Scan(text: string): (r: Scanner)
    ensures IsMap(r.fields)
  {
    if text == [] then Scanner([], NUL, []) else ScanStep(Scan(text[..|text| - 1]), text[|text| - 1])
  }

  /** getFields(text): the scan, and then the last token if it is short enough. */
  function FieldsOf(text: string): (r: seq<Entry>)
    ensures IsMap(r)
  {
    var st := Scan(text);
    if st.token != [] && |st.token| <= MAX_FIELD_LEN then Put(st.fields, st.token, st.token) else st.fields
  }

  /** getFields: collects the field names of text, each mapped to itself. */
  method GetFields(text: string) returns (fields: seq<Entry>)
    ensures fields == FieldsOf(text)
    ensures IsMap(fields)
    ensures forall e :: e in fields ==> e.value == e.key && IsFieldOf(text, e.key)
    ensures forall w :: IsFieldOf(text, w) ==> Lookup(fields, w) == Some(w)
  {
    var token: string := [];
    var prevChar := NUL;
    fields := [];
    var i := 0;
    while i < |text|
      invariant 0 <= i <= |text|
      invariant Scanner(token, prevChar, fields) == Scan(text[..i])
    {
      var c := text[i];
      if IsUpper(c) {
        if !IsAlpha(prevChar) || token != [] {
          token := token + [c];
        }
      } else if IsLower(c) {
        token := [];
      } else if token != [] {
        if |token| <= MAX_FIELD_LEN {
          fields := Put(fields, token, token);
        }
        token := [];
      }
      prevChar := c;
      assert text[..i + 1][..i] == text[..i];
      i := i + 1;
    }
    assert text[..i] == text;
    if token != [] && |token| <= MAX_FIELD_LEN {
      fields := Put(fields, token, token);
    }
    FieldsSound(text);
    forall w | IsFieldOf(text, w)
      ensures Lookup(fields, w) == Some(w)
    {
      FieldsCompleteness(text, w);
    }
  }

  /** w stands as a whole word in text, and is followed by at least one more character. */
  ghost predicate InnerWord(text: string, w: string)
  {
    exists p :: WordAt(text, p, w) && p + |w| < |text|
  }

  /** What holds of the scanner after any prefix of the text. */
  ghost predicate ScanInv(text: string, st: Scanner)
  {
    && IsMap(st.fields)
    && st.prevChar == (if text == [] then NUL else text[|text| - 1])
    && (st.token != [] ==>
          && |st.token| <= |text|
          && text[|text| - |st.token|..] == st.token
          && AllUpper(st.token)
          && (|text| == |st.token| || !IsAlpha(text[|text| - |st.token| - 1])))
    && forall e :: e in st.fields ==> FoundField(text, e)
  }

  /** An entry getFields may have recorded after reading text. */
  ghost predicate FoundField(text: string, e: Entry)
  {
    e.value == e.key && 1 <= |e.key| <= MAX_FIELD_LEN && AllUpper(e.key) && InnerWord(text, e.key)
  }

  lemma InnerWordExtends(text: string, c: char, w: string)
    requires InnerWord(text, w)
    ensures InnerWord(text + [c], w)
  {
    var p :| WordAt(text, p, w) && p + |w| < |text|;
    var t := text + [c];
    assert t[p..p + |w|] == text[p..p + |w|];
    assert WordAt(t, p, w);
  }

  lemma FoundFieldsExtend(text: string, c: char, fields: seq<Entry>)
    requires forall e :: e in fields ==> FoundField(text, e)
    ensures forall e :: e in fields ==> FoundField(text + [c], e)
  {
    forall e | e in fields
      ensures FoundField(text + [c], e)
    {
      InnerWordExtends(text, c, e.key);
    }
  }

  /** A capital extends the token, which stays a capital run starting a word. */
  lemma UpperStepKeepsInv(text: string, c: char, st: Scanner)
    requires ScanInv(text, st) && IsUpper(c)
    ensures ScanInv(text + [c], ScanStep(st, c))
  {
    FoundFieldsExtend(text, c, st.fields);
    var t := text + [c];
    var r := ScanStep(st, c);
    if r.token != [] {
      if st.token != [] {
        assert t[|t| - |r.token|..] == text[|text| - |st.token|..] + [c];
      } else {
        assert r.token == [c];
      }
    }
  }

  /** A character that is not a letter ends the token, which is recorded if short enough. */
  lemma FlushStepKeepsInv(text: string, c: char, st: Scanner)
    requires ScanInv(text, st) && !IsUpper(c) && !IsLower(c) && st.token != [] && |st.token| <= MAX_FIELD_LEN
    ensures ScanInv(text + [c], ScanStep(st, c))
  {
    FoundFieldsExtend(text, c, st.fields);
    var t := text + [c];
    var p := |text| - |st.token|;
    assert t[p..p + |st.token|] == st.token;
    assert WordAt(t, p, st.token);
    assert FoundField(t, Entry(st.token, st.token));
  }

  lemma ScanStepKeepsInv(text: string, c: char, st: Scanner)
    requires ScanInv(text, st)
    ensures ScanInv(text + [c], ScanStep(st, c))
  {
    if IsUpper(c) {
      UpperStepKeepsInv(text, c, st);
    } else if !IsLower(c) && st.token != [] && |st.token| <= MAX_FIELD_LEN {
      FlushStepKeepsInv(text, c, st);
    } else {
      FoundFieldsExtend(text, c, st.fields);
    }
  }

  lemma {:induction false} ScanKeepsInv(text: string)
    ensures ScanInv(text, Scan(text))
  {
    if text != [] {
      var init := text[..|text| - 1];
      ScanKeepsInv(init);
      ScanStepKeepsInv(init, text[|text| - 1], Scan(init));
      assert init + [text[|text| - 1]] == text;
    }
  }

  /** Every key getFields reports maps to itself and is a field name of the text. */
  lemma FieldsSound(text: string)
    ensures forall e :: e in FieldsOf(text) ==> e.value == e.key && IsFieldOf(text, e.key)
  {
    ScanKeepsInv(text);
    var st := Scan(text);
    forall e | e in FieldsOf(text)
      ensures e.value == e.key && IsFieldOf(text, e.key)
    {
      if e in st.fields {
        FoundFieldIsField(text, e);
      } else {
        LastTokenIsField(text, st);
      }
    }
  }

  lemma FoundFieldIsField(text: string, e: Entry)
    requires FoundField(text, e)
    ensures e.value == e.key && IsFieldOf(text, e.key)
  {
    var p :| WordAt(text, p, e.key) && p + |e.key| < |text|;
  }

  lemma LastTokenIsField(text: string, st: Scanner)
    requires ScanInv(text, st) && st.token != [] && |st.token| <= MAX_FIELD_LEN
    ensures IsFieldOf(text, st.token)
  {
    assert WordAt(text, |text| - |st.token|, st.token);
  }

  /** A capital run that runs into a lower-case letter is not a field: "VALue" and "aVAL" have none. */
  lemma MixedCaseHasNoFields()
    ensures FieldsOf("VALue") == []
    ensures FieldsOf("aVAL") == []
  {
    assert "VALue"[..4] == "VALu" && "VALu"[..3] == "VAL" && "VAL"[..2] == "VA" && "VA"[..1] == "V" && "V"[..0] == [];
    assert Scan("VAL").fields == [];
    assert Scan("VALue") == Scanner([], 'e', []);
    assert "aVAL"[..3] == "aVA" && "aVA"[..2] == "aV" && "aV"[..1] == "a" && "a"[..0] == [];
    assert Scan("a") == Scanner([], 'a', []);
    assert Scan("aVAL") == Scanner([], 'L', []);
  }

  /** Every capital run that starts a word and reaches the end of t is the scanner's token. */
  ghost predicate TokenComplete(t: string, st: Scanner)
  {
    forall p :: 0 <= p < |t| && AllUpper(t[p..]) && (p == 0 || !IsAlpha(t[p - 1])) ==> st.token == t[p..]
  }

  /** Every field name of t that some character follows is already in the map. */
  ghost predicate FieldsComplete(t: string, fields: seq<Entry>)
  {
    forall p, w :: WordAt(t, p, w) && 1 <= |w| <= MAX_FIELD_LEN && AllUpper(w) && p + |w| < |t| ==> Lookup(fields, w) == Some(w)
  }

  /** A capital after t: a run that starts a word and reaches c is the token extended by c. */
  lemma UpperStepCompletesToken(t: string, c: char, st: Scanner, p: nat)
    requires ScanInv(t, st) && TokenComplete(t, st) && IsUpper(c)
    requires p <= |t| && AllUpper((t + [c])[p..]) && (p == 0 || !IsAlpha((t + [c])[p - 1]))
    ensures ScanStep(st, c).token == (t + [c])[p..]
  {
    var t' := t + [c];
    if p == |t| {
      assert p == 0 || t'[p - 1] == t[|t| - 1];
      assert t'[p..] == [c];
    } else {
      assert t'[p..] == t[p..] + [c];
      assert AllUpper(t[p..]) by {
        forall k | 0 <= k < |t[p..]|
          ensures IsUpper(t[p..][k])
        {
          assert t[p..][k] == t'[p..][k];
        }
      }
      assert p == 0 || t'[p - 1] == t[p - 1];
    }
  }

  /** After a character that is not a letter, a field name that ended just before it is in the map. */
  lemma FlushCompletesFields(t: string, c: char, st: Scanner, p: nat, w: string)
    requires ScanInv(t, st) && TokenComplete(t, st) && !IsAlpha(c)
    requires WordAt(t + [c], p, w) && 1 <= |w| <= MAX_FIELD_LEN && AllUpper(w) && p + |w| == |t|
    ensures Lookup(ScanStep(st, c).fields, w) == Some(w)
  {
    var t' := t + [c];
    assert t[p..] == t'[p..p + |w|] == w;
    assert p == 0 || t[p - 1] == t'[p - 1];
    assert st.token == w;
  }

  /** One more character keeps the token and the map complete. */
  lemma ScanStepComplete(t: string, c: char, st: Scanner)
    requires ScanInv(t, st) && TokenComplete(t, st) && FieldsComplete(t, st.fields)
    ensures TokenComplete(t + [c], ScanStep(st, c))
    ensures FieldsComplete(t + [c], ScanStep(st, c).fields)
  {
    var t' := t + [c];
    var r := ScanStep(st, c);
    forall p | 0 <= p < |t'| && AllUpper(t'[p..]) && (p == 0 || !IsAlpha(t'[p - 1]))
      ensures r.token == t'[p..]
    {
      assert t'[p..][|t'| - 1 - p] == c;
      UpperStepCompletesToken(t, c, st, p);
    }
    forall p, w | WordAt(t', p, w) && 1 <= |w| <= MAX_FIELD_LEN && AllUpper(w) && p + |w| < |t'|
      ensures Lookup(r.fields, w) == Some(w)
    {
      if p + |w| < |t| {
        assert t[p..p + |w|] == t'[p..p + |w|];
        assert p == 0 || t[p - 1] == t'[p - 1];
        assert t[p + |w|] == t'[p + |w|];
        assert WordAt(t, p, w);
      } else {
        assert t'[p + |w|] == c;
        FlushCompletesFields(t, c, st, p, w);
      }
    }
  }

  lemma {:induction false} ScanComplete(text: string)
    ensures TokenComplete(text, Scan(text)) && FieldsComplete(text, Scan(text).fields)
  {
    if text != [] {
      var init := text[..|text| - 1];
      ScanComplete(init);
      ScanKeepsInv(init);
      ScanStepComplete(init, text[|text| - 1], Scan(init));
      assert init + [text[|text| - 1]] == text;
    }
  }

  /** Every field name of the text is reported, mapped to itself: getFields misses none. */
  lemma FieldsCompleteness(text: string, w: string)
    requires IsFieldOf(text, w)
    ensures Lookup(FieldsOf(text), w) == Some(w)
  {
    ScanComplete(text);
    ScanKeepsInv(text);
    var st := Scan(text);
    var p :| WordAt(text, p, w);
    if p + |w| == |text| {
      assert text[p..] == w;
      assert st.token == w;
    }
  }

  // ------------------------------------------------------------------
  // replace and escape
  // ------------------------------------------------------------------

  predicate NonEmptyKeys(fields: seq<Entry>)
  {
    forall i :: 0 <= i < |fields| ==> fields[i].key != []
  }

  /** The first entry, from index j on in map order, whose key starts s. */
  function FirstKeyFrom(fields: seq<Entry>, s: string, j: nat): (r: Option<nat>)
    requires j <= |fields|
    ensures r.Some? ==> j <= r.value < |fields| && fields[r.value].key <= s
    ensures r.Some? ==> forall i :: j <= i < r.value ==> !(fields[i].key <= s)
    ensures r.None? ==> forall i :: j <= i < |fields| ==> !(fields[i].key <= s)
    decreases |fields| - j
  {
    if j == |fields| then None
    else if fields[j].key <= s then Some(j)
    else FirstKeyFrom(fields, s, j + 1)
  }

  /**
   * What replace produces for s: at each position the first key in map order
   * that starts there is replaced by its value, and scanning resumes after
   * the key, so inserted text is never scanned again.
   */
  function Substitute(s: string, fields: seq<Entry>): string
    requires NonEmptyKeys(fields)
    decreases |s|
  {
    if s == [] then []
    else
      match FirstKeyFrom(fields, s, 0)
      case Some(i) => fields[i].value + Substitute(s[|fields[i].key|..], fields)
      case None => [s[0]] + Substitute(s[1..], fields)
  }

  /** The search of replace's inner loop: the first key, in map order, that starts s. */
  method FindKey(fields: seq<Entry>, s: string) returns (j: nat)
    ensures j <= |fields|
    ensures FirstKeyFrom(fields, s, 0) == if j < |fields| then Some(j) else None
  {
    j := 0;
    while j < |fields| && !(fields[j].key <= s)
      invariant 0 <= j <= |fields|
      invariant FirstKeyFrom(fields, s, j) == FirstKeyFrom(fields, s, 0)
    {
      j := j + 1;
    }
  }

  /** Replacing the first key found at pos and moving past the value keeps the outcome. */
  lemma ReplaceStep(out: string, pos: nat, fields: seq<Entry>, j: nat)
    requires NonEmptyKeys(fields) && pos < |out| && j < |fields|
    requires FirstKeyFrom(fields, out[pos..], 0) == Some(j)
    ensures var next := out[..pos] + fields[j].value + out[pos + |fields[j].key|..];
            pos + |fields[j].value| <= |next| &&
            next[..pos + |fields[j].value|] + Substitute(next[pos + |fields[j].value|..], fields)
            == out[..pos] + Substitute(out[pos..], fields)
  {
    var key, value := fields[j].key, fields[j].value;
    var rest := out[pos + |key|..];
    assert out[pos..][|key|..] == rest;
    var next := out[..pos] + value + rest;
    assert next[..pos + |value|] == out[..pos] + value;
    assert next[pos + |value|..] == rest;
  }

  /** Keeping the character at pos when no key starts there keeps the outcome. */
  lemma KeepStep(out: string, pos: nat, fields: seq<Entry>)
    requires NonEmptyKeys(fields) && pos < |out|
    requires FirstKeyFrom(fields, out[pos..], 0) == None
    ensures out[..pos + 1] + Substitute(out[pos + 1..], fields) == out[..pos] + Substitute(out[pos..], fields)
  {
    assert out[pos..][1..] == out[pos + 1..];
    assert out[..pos + 1] == out[..pos] + [out[pos]];
  }

  /** replace: rewrites text in place, walking a position index. */
  method Replace(text: string, fields: seq<Entry>) returns (out: string)
    requires NonEmptyKeys(fields)
    ensures out == Substitute(text, fields)
  {
    out := text;
    var pos := 0;
    while pos < |out|
      invariant 0 <= pos <= |out|
      invariant out[..pos] + Substitute(out[pos..], fields) == Substitute(text, fields)
      decreases |out| - pos
    {
      var j := FindKey(fields, out[pos..]);
      if j < |fields| {
        ReplaceStep(out, pos, fields, j);
        out := out[..pos] + fields[j].value + out[pos + |fields[j].key|..];
        pos := pos + |fields[j].value|;
      } else {
        KeepStep(out, pos, fields);
        pos := pos + 1;
      }
    }
    assert out[..pos] == out;
  }

  /** Where no key occurs, replace changes nothing. */
  lemma {:induction false} SubstituteWithoutKeys(s: string, fields: seq<Entry>)
    requires NonEmptyKeys(fields)
    requires forall p, i :: 0 <= p < |s| && 0 <= i < |fields| ==> !(fields[i].key <= s[p..])
    ensures Substitute(s, fields) == s
  {
    if s != [] {
      assert forall i :: 0 <= i < |fields| ==> !(fields[i].key <= s[0..]);
      assert s[0..] == s;
      forall p, i | 0 <= p < |s[1..]| && 0 <= i < |fields|
        ensures !(fields[i].key <= s[1..][p..])
      {
        assert s[1..][p..] == s[p + 1..];
      }
      SubstituteWithoutKeys(s[1..], fields);
    }
  }

  /** The example of the unit tests of replace with a single key occurring twice. */
  lemma ReplaceRepeatedKey()
    ensures Substitute("%VAL% %VAL%", [Entry("%VAL%", "hello")]) == "hello hello"
  {
    var f := [Entry("%VAL%", "hello")];
    assert FirstKeyFrom(f, "%VAL%", 0) == Some(0);
    assert "%VAL%"[5..] == [];
    assert Substitute("%VAL%", f) == "hello";
    assert !("%VAL%" <= " %VAL%") by { assert " %VAL%"[0] == ' '; }
    assert FirstKeyFrom(f, " %VAL%", 0) == None;
    assert " %VAL%"[1..] == "%VAL%";
    var s := "%VAL% %VAL%";
    assert FirstKeyFrom(f, s, 0) == Some(0);
    assert s[5..] == " %VAL%";
  }

  /** The map of the unit tests of replace with single-character keys, in map order. */
  const LETTER_FIELDS: seq<Entry> := [Entry("\n", "\\n"), Entry("a", "b"), Entry("b", "c")]

  /** In that map, a text starting with 'a' or 'b' has that letter's entry as first match. */
  lemma LetterFieldsMatch(s: string)
    requires s != [] && (s[0] == 'a' || s[0] == 'b')
    ensures FirstKeyFrom(LETTER_FIELDS, s, 0) == Some(if s[0] == 'a' then 1 else 2)
  {
    var g := LETTER_FIELDS;
    assert !(g[0].key <= s) && (s[0] == 'b' ==> !(g[1].key <= s));
    assert g[1].key == [s[0]] ==> g[1].key <= s;
    assert g[2].key == [s[0]] ==> g[2].key <= s;
  }

  /** Substituting a letter of that map and then the rest of the text. */
  lemma LetterFieldsStep(s: string)
    requires s != [] && (s[0] == 'a' || s[0] == 'b')
    ensures NonEmptyKeys(LETTER_FIELDS)
    ensures Substitute(s, LETTER_FIELDS) == (if s[0] == 'a' then "b" else "c") + Substitute(s[1..], LETTER_FIELDS)
  {
    LetterFieldsMatch(s);
  }

  /**
   * The examples of the unit tests of replace with single-character keys:
   * inserted text is not scanned again, so "a" becomes "b" and not "c".
   */
  lemma ReplaceSameLetter()
    ensures NonEmptyKeys(LETTER_FIELDS)
    ensures Substitute("aaa", LETTER_FIELDS) == "bbb"
  {
    SubstituteLetters("a", "b", "", "");
    SubstituteLetters("aa", "b", "a", "b");
    SubstituteLetters("aaa", "b", "aa", "bb");
  }

  lemma ReplaceAlternatingLetters()
    ensures NonEmptyKeys(LETTER_FIELDS)
    ensures Substitute("aba", LETTER_FIELDS) == "bcb"
  {
    SubstituteLetters("a", "b", "", "");
    SubstituteLetters("ba", "c", "a", "b");
    SubstituteLetters("aba", "b", "ba", "cb");
  }

  /** One step of those examples: the first letter's value, then the rest of the text. */
  lemma SubstituteLetters(s: string, first: string, rest: string, restOut: string)
    requires s != [] && (s[0] == 'a' || s[0] == 'b') && first == (if s[0] == 'a' then "b" else "c")
    requires s[1..] == rest && NonEmptyKeys(LETTER_FIELDS) && Substitute(rest, LETTER_FIELDS) == restOut
    ensures Substitute(s, LETTER_FIELDS) == first + restOut
  {
    LetterFieldsStep(s);
  }

  /** The characters escape rewrites, in map order: newline, carriage return, single quote. */
  const ESCAPABLES: seq<Entry> := [Entry("\n", "\\n"), Entry("\r", "\\r"), Entry("'", "\\'")]

  /** What escape writes for one character. */
  function EscapeChar(c: char): string
  {
    if c == '\n' then "\\n" else if c == '\r' then "\\r" else if c == '\'' then "\\'" else [c]
  }

  /** The escaped text, character by character. */
  function Escaped(s: string): string
  {
    if s == [] then [] else EscapeChar(s[0]) + Escaped(s[1..])
  }

  lemma EscapablesAreAMap()
    ensures IsMap(ESCAPABLES) && NonEmptyKeys(ESCAPABLES)
  {
  }

  /** replace with the escapables rewrites each character on its own. */
  lemma {:induction false} SubstituteEscapables(s: string)
    ensures Substitute(s, ESCAPABLES) == Escaped(s)
  {
    if s != [] {
      var c := s[0];
      if c == '\n' {
        assert FirstKeyFrom(ESCAPABLES, s, 0) == Some(0);
      } else if c == '\r' {
        assert FirstKeyFrom(ESCAPABLES, s, 0) == Some(1);
      } else if c == '\'' {
        assert FirstKeyFrom(ESCAPABLES, s, 0) == Some(2);
      } else {
        assert FirstKeyFrom(ESCAPABLES, s, 0) == None;
      }
      SubstituteEscapables(s[1..]);
    }
  }

  /** escape: prefixes newline, carriage return and single quote with a backslash. */
  method Escape(text: string) returns (out: string)
    ensures out == Escaped(text)
  {
    EscapablesAreAMap();
    out := Replace(text, ESCAPABLES);
    SubstituteEscapables(text);
  }

  /** Escaped text holds no raw newline or carriage return, and only grows. */
  lemma {:induction false} EscapedHasNoLineBreaks(s: string)
    ensures '\n' !in Escaped(s) && '\r' !in Escaped(s)
    ensures |Escaped(s)| >= |s|
  {
    if s != [] {
      EscapedHasNoLineBreaks(s[1..]);
    }
  }

  /** Text without newline, carriage return or single quote comes out of escape unchanged. */
  lemma {:induction false} EscapeKeepsPlainText(s: string)
    requires '\n' !in s && '\r' !in s && '\'' !in s
    ensures Escaped(s) == s
  {
    if s != [] {
      EscapeKeepsPlainText(s[1..]);
    }
  }

  /** Escaping works character by character, so it distributes over concatenation. */
  lemma {:induction false} EscapedConcat(a: string, b: string)
    ensures Escaped(a + b) == Escaped(a) + Escaped(b)
  {
    if a != [] {
      assert (a + b)[0] == a[0] && (a + b)[1..] == a[1..] + b;
      EscapedConcat(a[1..], b);
      calc {
        Escaped(a + b);
        EscapeChar(a[0]) + Escaped(a[1..] + b);
        EscapeChar(a[0]) + (Escaped(a[1..]) + Escaped(b));
        Escaped(a) + Escaped(b);
      }
    } else {
      assert a + b == b;
    }
  }

  /** Plain text around one character: only that character is rewritten. */
  lemma EscapeOneCharacter(a: string, c: char, b: string)
    requires '\n' !in a && '\r' !in a && '\'' !in a
    requires '\n' !in b && '\r' !in b && '\'' !in b
    ensures Escaped(a + [c] + b) == a + EscapeChar(c) + b
  {
    EscapeKeepsPlainText(a);
    EscapeKeepsPlainText(b);
    assert Escaped([c]) == EscapeChar(c) by { assert [c][1..] == []; }
    EscapedConcat(a, [c]);
    EscapedConcat(a + [c], b);
  }

  /** The examples of the unit tests of escape: a quote and a newline get a backslash. */
  lemma EscapeQuoteExample()
    ensures Escaped("h'ello") == "h\\'ello"
  {
    EscapeOneCharacter("h", '\'', "ello");
    assert "h" + ['\''] + "ello" == "h'ello";
  }

  lemma EscapeNewlineExample()
    ensures Escaped("new\nline") == "new\\nline"
  {
    var a, b := "new", "line";
    assert '\n' !in a && '\r' !in a && '\'' !in a;
    assert '\n' !in b && '\r' !in b && '\'' !in b;
    EscapeOneCharacter(a, '\n', b);
    assert a + ['\n'] + b == "new\nline";
    assert a + EscapeChar('\n') + b == "new\\nline";
  }

  // ------------------------------------------------------------------
  // replaceFields
  // ------------------------------------------------------------------

  /** The outcome of trying every field, in map order, at one position. */
  datatype Attempt = Hit(length: nat, value: string) | Miss(replaced: bool)

  /** The character taken to stand before position pos: a boundary at the start or right after a replacement. */
  function CharBefore(out: string, pos: nat, replaced: bool): char
    requires pos <= |out|
  {
    if pos == 0 || replaced then '.' else out[pos - 1]
  }

  /** The character after a match ending at end, a boundary at the end of the text. */
  function CharAfter(out: string, end: nat): char
  {
    if end >= |out| then '.' else out[end]
  }

  /** The bare key stands between non-alphanumerics at pos. */
  predicate BareMatch(key: string, out: string, pos: nat, replaced: bool)
    requires pos <= |out|
  {
    key <= out[pos..] && !IsAlnum(CharBefore(out, pos, replaced)) && !IsAlnum(CharAfter(out, pos + |key|))
  }

  /** The key enclosed in percent signs starts at pos. */
  predicate PercentMatch(key: string, out: string, pos: nat)
    requires pos <= |out|
  {
    "%" + key + "%" <= out[pos..]
  }

  /**
   * The inner loop of replaceFields over fields[j..] at pos.  A field that
   * matches in neither form clears the `replaced` flag for the fields after it.
   */
  function TryFields(fields: seq<Entry>, out: string, pos: nat, replaced: bool, j: nat): (r: Attempt)
    requires pos < |out| && j <= |fields| && NonEmptyKeys(fields)
    ensures r.Hit? ==> 1 <= r.length <= |out| - pos
    decreases |fields| - j
  {
    if j == |fields| then Miss(replaced)
    else
      var key := fields[j].key;
      if BareMatch(key, out, pos, replaced) then Hit(|key|, fields[j].value)
      else if PercentMatch(key, out, pos) then Hit(|key| + 2, fields[j].value)
      else TryFields(fields, out, pos, false, j + 1)
  }

  /**
   * A replacement happens only where a field name stands bare with nothing
   * alphanumeric after it, or where it is enclosed in percent signs.
   */
  lemma {:induction false} TryFieldsHitsOnlyNames(fields: seq<Entry>, out: string, pos: nat, replaced: bool, j: nat)
    requires pos < |out| && j <= |fields| && NonEmptyKeys(fields)
    requires TryFields(fields, out, pos, replaced, j).Hit?
    ensures var r := TryFields(fields, out, pos, replaced, j);
            exists i :: j <= i < |fields| && r.value == fields[i].value
                        && ((r.length == |fields[i].key| && fields[i].key <= out[pos..]
                             && !IsAlnum(CharAfter(out, pos + r.length)))
                            || (r.length == |fields[i].key| + 2 && PercentMatch(fields[i].key, out, pos)))
    decreases |fields| - j
  {
    if !BareMatch(fields[j].key, out, pos, replaced) && !PercentMatch(fields[j].key, out, pos) {
      TryFieldsHitsOnlyNames(fields, out, pos, false, j + 1);
    }
  }

  /** A field name in percent signs at a scanned position is always replaced, by it or by a field before it. */
  lemma {:induction false} TryFieldsHitsPercentNames(fields: seq<Entry>, out: string, pos: nat, replaced: bool, j: nat, i: nat)
    requires pos < |out| && j <= i < |fields| && NonEmptyKeys(fields)
    requires PercentMatch(fields[i].key, out, pos)
    ensures TryFields(fields, out, pos, replaced, j).Hit?
    decreases |fields| - j
  {
    if j < i && !BareMatch(fields[j].key, out, pos, replaced) && !PercentMatch(fields[j].key, out, pos) {
      TryFieldsHitsPercentNames(fields, out, pos, false, j + 1, i);
    }
  }

  /** Where no field name starts, bare or in percent signs, nothing is replaced. */
  lemma {:induction false} TryFieldsMissesElsewhere(fields: seq<Entry>, out: string, pos: nat, replaced: bool, j: nat)
    requires pos < |out| && j <= |fields| && NonEmptyKeys(fields)
    requires forall i :: j <= i < |fields| ==> !(fields[i].key <= out[pos..]) && !PercentMatch(fields[i].key, out, pos)
    ensures TryFields(fields, out, pos, replaced, j).Miss?
    decreases |fields| - j
  {
    if j < |fields| {
      TryFieldsMissesElsewhere(fields, out, pos, false, j + 1);
    }
  }

  /** What replaceFields produces from the state (out, pos, replaced) of its outer loop. */
  function FieldsFrom(fields: seq<Entry>, out: string, pos: nat, replaced: bool): string
    requires NonEmptyKeys(fields) && pos <= |out|
    decreases |out| - pos
  {
    if pos == |out| then out
    else
      match TryFields(fields, out, pos, replaced, 0)
      case Hit(n, v) => FieldsFrom(fields, out[..pos] + v + out[pos + n..], pos + |v|, true)
      case Miss(r) => FieldsFrom(fields, out, pos + 1, r)
  }

  /** replaceFields(text, fields) */
  function ReplacedFields(text: string, fields: seq<Entry>): string
    requires NonEmptyKeys(fields)
  {
    FieldsFrom(fields, text, 0, false)
  }

  /** The inner loop of replaceFields: tries the fields in map order at pos. */
  method TryAt(fields: seq<Entry>, out: string, pos: nat, replaced: bool) returns (n: nat, value: string, replacedAfter: bool)
    requires pos < |out| && NonEmptyKeys(fields)
    ensures TryFields(fields, out, pos, replaced, 0) == if n != 0 then Hit(n, value) else Miss(replacedAfter)
  {
    var j := 0;
    n, value, replacedAfter := 0, "", replaced;
    while j < |fields| && n == 0
      invariant 0 <= j <= |fields|
      invariant n == 0 ==> TryFields(fields, out, pos, replacedAfter, j) == TryFields(fields, out, pos, replaced, 0)
      invariant n != 0 ==> TryFields(fields, out, pos, replaced, 0) == Hit(n, value)
    {
      var key := fields[j].key;
      if BareMatch(key, out, pos, replacedAfter) {
        n, value := |key|, fields[j].value;
      } else if PercentMatch(key, out, pos) {
        n, value := |key| + 2, fields[j].value;
      } else {
        replacedAfter := false;
      }
      j := j + 1;
    }
  }

  /**
   * replaceFields: replaces every field name enclosed in percent signs, and
   * every bare field name that stands between non-alphanumeric characters.
   */
  method ReplaceFields(text: string, fields: seq<Entry>) returns (out: string)
    requires NonEmptyKeys(fields)
    ensures out == ReplacedFields(text, fields)
  {
    out := text;
    var replaced := false;
    var pos := 0;
    while pos < |out|
      invariant 0 <= pos <= |out|
      invariant FieldsFrom(fields, out, pos, replaced) == ReplacedFields(text, fields)
      decreases |out| - pos
    {
      var n, value;
      n, value, replaced := TryAt(fields, out, pos, replaced);
      if n != 0 {
        out := out[..pos] + value + out[pos + n..];
        pos := pos + |value|;
        replaced := true;
      } else {
        pos := pos + 1;
      }
    }
  }

  /** A key in percent signs at pos is a key starting at pos + 1. */
  lemma PercentHasKeyAfter(key: string, out: string, pos: nat)
    requires pos <= |out| && PercentMatch(key, out, pos)
    ensures pos + 1 <= |out| && key <= out[pos + 1..]
  {
    assert out[pos..][1..|key| + 1] == key;
    assert out[pos + 1..][..|key|] == out[pos..][1..|key| + 1];
  }

  /** Where no field name occurs, bare or in percent signs, replaceFields changes nothing. */
  lemma {:induction false} FieldsFromWithoutNames(fields: seq<Entry>, out: string, pos: nat, replaced: bool)
    requires NonEmptyKeys(fields) && pos <= |out|
    requires forall p, i :: pos <= p < |out| && 0 <= i < |fields| ==> !(fields[i].key <= out[p..])
    ensures FieldsFrom(fields, out, pos, replaced) == out
    decreases |out| - pos
  {
    if pos < |out| {
      forall i | 0 <= i < |fields|
        ensures !PercentMatch(fields[i].key, out, pos)
      {
        if pos + 1 < |out| {
          assert !(fields[i].key <= out[pos + 1..]);
        }
      }
      TryFieldsMissesElsewhere(fields, out, pos, replaced, 0);
      var r := TryFields(fields, out, pos, replaced, 0);
      FieldsFromWithoutNames(fields, out, pos + 1, r.replaced);
    }
  }

  /** The bare name is replaced only as a whole word; the enclosed one anywhere. */
  lemma ReplaceFieldsExamples()
    ensures ReplacedFields("VAL+1", [Entry("VAL", "5")]) == "5+1"
    ensures ReplacedFields("%VAL%", [Entry("VAL", "5")]) == "5"
    ensures ReplacedFields("VALUE", [Entry("VAL", "5")]) == "VALUE"
  {
    var f := [Entry("VAL", "5")];
    assert TryFields(f, "VAL+1", 0, false, 0) == Hit(3, "5");
    assert "5+1"[1..] == "+1";
    assert TryFields(f, "5+1", 1, true, 0) == Miss(false);
    assert TryFields(f, "5+1", 2, false, 0) == Miss(false);
    assert "VAL+1"[..0] + "5" + "VAL+1"[3..] == "5+1";
    assert TryFields(f, "%VAL%", 0, false, 0) == Hit(5, "5");
    assert "%VAL%"[..0] + "5" + "%VAL%"[5..] == "5";
    FieldsFromWithoutNames(f, "VALUE", 1, false);
    assert TryFields(f, "VALUE", 0, false, 0) == Miss(false);
  }

  /**
   * After a replacement the next position counts as a word start only for the
   * first field in map order: a field that does not match clears the flag
   * before the later ones are tried.  With fields A and B, "%B%A" becomes
   * "21" but "%A%B" becomes "1B".
   */
  lemma BoundaryAfterReplacementDependsOnOrder()
    ensures ReplacedFields("%B%A", [Entry("A", "1"), Entry("B", "2")]) == "21"
    ensures ReplacedFields("%A%B", [Entry("A", "1"), Entry("B", "2")]) == "1B"
  {
    var f := [Entry("A", "1"), Entry("B", "2")];
    SecondFieldSeesFlag(f);
    FirstFieldClearsFlag(f);
  }

  lemma SecondFieldSeesFlag(f: seq<Entry>)
    requires f == [Entry("A", "1"), Entry("B", "2")]
    ensures ReplacedFields("%B%A", f) == "21"
  {
    var s := "%B%A";
    assert s[0..] == s && s[1] == 'B' && s[..3] == "%" + "B" + "%";
    assert !BareMatch("A", s, 0, false) && !PercentMatch("A", s, 0);
    assert PercentMatch("B", s, 0);
    assert TryFields(f, s, 0, false, 0) == Hit(3, "2");
    assert s[..0] + "2" + s[3..] == "2A";
    assert "2A"[1..] == "A";
    assert TryFields(f, "2A", 1, true, 0) == Hit(1, "1");
    assert "2A"[..1] + "1" + "2A"[2..] == "21";
    assert FieldsFrom(f, "21", 2, true) == "21";
  }

  lemma FirstFieldClearsFlag(f: seq<Entry>)
    requires f == [Entry("A", "1"), Entry("B", "2")]
    ensures ReplacedFields("%A%B", f) == "1B"
  {
    assert TryFields(f, "%A%B", 0, false, 0) == Hit(3, "1");
    assert "%A%B"[..0] + "1" + "%A%B"[3..] == "1B";
    assert "1B"[1..] == "B" && !IsAlnum('.') && IsAlnum('1');
    assert TryFields(f, "1B", 1, false, 1) == Miss(false);
    assert TryFields(f, "1B", 1, true, 0) == Miss(false);
    assert FieldsFrom(f, "1B", 2, false) == "1B";
  }

  // ------------------------------------------------------------------
  // join, to_strings, to_pylist_string, getEnvConfig
  // ------------------------------------------------------------------

  /** The tokens with glue between consecutive ones. */
  function Joined(tokens: seq<string>, glue: string): string
  {
    if tokens == [] then "" else if |tokens| == 1 then tokens[0] else tokens[0] + glue + Joined(tokens[1..], glue)
  }

  /** Every token followed by glue: what join's loop accumulates. */
  function GlueAfterEach(tokens: seq<string>, glue: string): (r: string)
    ensures |r| >= |tokens| * |glue|
  {
    if tokens == [] then "" else GlueAfterEach(tokens[..|tokens| - 1], glue) + tokens[|tokens| - 1] + glue
  }

  /** Glue goes between the last two tokens and not after the last. */
  lemma {:induction false} JoinedAppend(tokens: seq<string>, t: string, glue: string)
    requires tokens != []
    ensures Joined(tokens + [t], glue) == Joined(tokens, glue) + glue + t
  {
    if |tokens| > 1 {
      assert (tokens + [t])[1..] == tokens[1..] + [t];
      JoinedAppend(tokens[1..], t, glue);
    }
  }

  lemma {:induction false} GlueAfterEachIsJoined(tokens: seq<string>, glue: string)
    requires tokens != []
    ensures GlueAfterEach(tokens, glue) == Joined(tokens, glue) + glue
  {
    var init := tokens[..|tokens| - 1];
    if init != [] {
      GlueAfterEachIsJoined(init, glue);
      JoinedAppend(init, tokens[|tokens| - 1], glue);
      assert init + [tokens[|tokens| - 1]] == tokens;
    } else {
      assert tokens == [tokens[0]];
    }
  }

  /**
   * join: appends every token followed by the glue, then cuts the last glue.
   * With no tokens the length arithmetic wraps and substr keeps the empty text.
   */
  method Join(tokens: seq<string>, glue: string) returns (out: string)
    ensures out == Joined(tokens, glue)
    ensures tokens == [] ==> out == ""
    ensures |tokens| == 1 ==> out == tokens[0]
  {
    out := "";
    var i := 0;
    while i < |tokens|
      invariant 0 <= i <= |tokens|
      invariant out == GlueAfterEach(tokens[..i], glue)
    {
      assert tokens[..i + 1][..i] == tokens[..i];
      out := out + tokens[i] + glue;
      i := i + 1;
    }
    assert tokens[..i] == tokens;
    if tokens != [] {
      GlueAfterEachIsJoined(tokens, glue);
    }
    if |out| >= |glue| {
      out := out[..|out| - |glue|];
    }
  }

  /**
   * Util::to_string of one element: std::to_string for integers; floats go
   * through the library's own formatter, which is given to the model.
   */
  function NumText(x: Num, floatText: real -> string): string
  {
    match x
    case INum(i) => IntToString(i)
    case FNum(r) => floatText(r)
  }

  /** to_strings: the text of each of the first n elements, in order. */
  method ToStrings(vals: seq<Num>, n: nat, floatText: real -> string) returns (values: seq<string>)
    requires n <= |vals|
    ensures |values| == n
    ensures forall i :: 0 <= i < n ==> values[i] == NumText(vals[i], floatText)
  {
    values := [];
    var i := 0;
    while i < n
      invariant 0 <= i <= n && |values| == i
      invariant forall k :: 0 <= k < i ==> values[k] == NumText(vals[k], floatText)
    {
      values := values + [NumText(vals[i], floatText)];
      i := i + 1;
    }
  }

  /** to_pylist_string(vector): the texts as a Python list display. */
  function PyListOfStrings(texts: seq<string>): (r: string)
    ensures |r| >= 2 && r[0] == '[' && r[|r| - 1] == ']'
    ensures texts == [] ==> r == "[]"
    ensures |texts| == 1 ==> r == "[" + texts[0] + "]"
  {
    "[" + Joined(texts, ",") + "]"
  }

  /** to_pylist_string(array, n): the first n elements as a Python list display. */
  function PyListString(vals: seq<Num>, n: nat, floatText: real -> string): (r: string)
    requires n <= |vals|
    ensures |r| >= 2 && r[0] == '[' && r[|r| - 1] == ']'
    ensures n == 0 ==> r == "[]"
    ensures n == 1 ==> r == "[" + NumText(vals[0], floatText) + "]"
  {
    PyListOfStrings(seq(n, i requires 0 <= i < n => NumText(vals[i], floatText)))
  }

  /** The pieces of s between the occurrences of sep, as a Python split(sep) gives them. */
  function SplitOn(s: string, sep: char): (r: seq<string>)
    ensures |r| >= 1
  {
    if s == [] then [""]
    else if s[0] == sep then [""] + SplitOn(s[1..], sep)
    else
      var rest := SplitOn(s[1..], sep);
      [[s[0]] + rest[0]] + rest[1..]
  }

  /** Text without the separator is one piece, and a separator after it starts the next. */
  lemma {:induction false} SplitOnPiece(a: string, b: string, sep: char)
    requires sep !in a
    ensures SplitOn(a, sep) == [a]
    ensures SplitOn(a + [sep] + b, sep) == [a] + SplitOn(b, sep)
  {
    if a != [] {
      SplitOnPiece(a[1..], b, sep);
      assert (a + [sep] + b)[1..] == a[1..] + [sep] + b;
      assert [a[0]] + a[1..] == a;
    } else {
      assert a + [sep] + b == [sep] + b;
      assert ([sep] + b)[1..] == b;
    }
  }

  /** Splitting the joined texts on the glue gives them back when none holds the glue. */
  lemma {:induction false} SplitJoined(texts: seq<string>, sep: char)
    requires texts != [] && forall i :: 0 <= i < |texts| ==> sep !in texts[i]
    ensures SplitOn(Joined(texts, [sep]), sep) == texts
  {
    if |texts| == 1 {
      SplitOnPiece(texts[0], [], sep);
    } else {
      SplitJoined(texts[1..], sep);
      SplitOnPiece(texts[0], Joined(texts[1..], [sep]), sep);
      assert texts == [texts[0]] + texts[1..];
    }
  }

  /**
   * A Python list display read back: between the brackets, the elements
   * separated by commas are the texts, when none of them holds a comma.
   */
  lemma PyListElements(texts: seq<string>)
    requires texts != [] && forall i :: 0 <= i < |texts| ==> ',' !in texts[i]
    ensures var r := PyListOfStrings(texts); SplitOn(r[1..|r| - 1], ',') == texts
  {
    var r := PyListOfStrings(texts);
    assert r[1..|r| - 1] == Joined(texts, ",");
    SplitJoined(texts, ',');
  }

  /** The text of an integer holds no comma. */
  lemma IntTextHasNoComma(x: int)
    ensures ',' !in IntToString(x)
  {
    var d := if x < 0 then NatToString(-x) else NatToString(x);
    assert AllDigits(d);
    if x < 0 {
      assert IntToString(x) == "-" + d;
    }
  }

  /**
   * to_pylist_string of n >= 1 elements read back: the comma-separated
   * elements between the brackets are the elements' texts in order, when no
   * text holds a comma (an integer's text never does).
   */
  lemma PyListStringElements(vals: seq<Num>, n: nat, floatText: real -> string)
    requires 1 <= n <= |vals|
    requires forall i :: 0 <= i < n && vals[i].FNum? ==> ',' !in floatText(vals[i].r)
    ensures var r := PyListString(vals, n, floatText);
      var items := SplitOn(r[1..|r| - 1], ',');
      |items| == n && forall i :: 0 <= i < n ==> items[i] == NumText(vals[i], floatText)
  {
    var texts := seq(n, i requires 0 <= i < n => NumText(vals[i], floatText));
    forall i | 0 <= i < |texts|
      ensures ',' !in texts[i]
    {
      if vals[i].INum? {
        IntTextHasNoComma(vals[i].i);
      }
    }
    PyListElements(texts);
  }

  /**
   * getEnvConfig: the configured value, or defval when the variable does not
   * hold a number (envGetLongConfigParam then leaves defval) or holds one below 1.
   */
  function GetEnvConfig(configured: Option<int>, defval: int): (r: int)
    ensures r >= 1 || r == defval
    ensures configured.Some? && configured.value >= 1 ==> r == configured.value
    ensures configured.None? || configured.value < 1 ==> r == defval
  {
    var value := if configured.Some? then configured.value else defval;
    if value < 1 then defval else value
  }
}
