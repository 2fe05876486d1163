/** Which href a link is judged by, however it is quoted, spaced and spelled, and however its text is written. */
module SignatureLinks {
  import opened JsonText
  import opened SignatureAttributes
  import opened Signature
  import opened SignatureForm
  import opened SignatureKept
  import opened Options

  // ------------------------------------------------------------------ finding the attribute

  const EQUALS: Unit := 61

  /** An attribute: blanks, a name, an equals sign with blanks on either side, and the value and what follows it. */
  function AttributeText(b: Units, n: Units, c: Units, d: Units, value: Units): Units {
    b + (n + (c + ([EQUALS] + (d + value))))
  }

  lemma {:induction false} BlanksHoldNoHref(s: Units, i: nat, k: nat)
    requires i <= k && k + 4 <= |s| && forall j :: i <= j < k ==> Space(s[j])
    ensures FindHref(s, i) == FindHref(s, k)
    decreases k - i
  {
    if i < k {
      assert s[i..][0] == s[i] && Space(s[i]);
      assert !StartsFolded(s[i..], HREF);
      hide AttributeValue, Space;
      BlanksHoldNoHref(s, i + 1, k);
    }
  }

  lemma SpelledStarts(n: Units, rest: Units)
    requires Spells(n, HREF)
    ensures StartsFolded(n + rest, HREF) && |n| == 4
  {
    assert forall i :: 0 <= i < 4 ==> IsSpelt(n[i], HREF[i]) && (n + rest)[i] == n[i];
  }

  /** After blanks, the name `href` in either case: the value is what the attribute syntax gives. */
  lemma NameIsFound(b: Units, n: Units, rest: Units)
    requires b != [] && Blank(b) && Spells(n, HREF) && AttributeValue(rest).Some?
    ensures FindHref(b + (n + rest), 0) == AttributeValue(rest)
  {
    var s := b + (n + rest);
    SpelledStarts(n, rest);
    hide AttributeValue, Spells, StartsFolded;
    assert forall j :: 0 <= j < |b| ==> s[j] == b[j];
    BlanksHoldNoHref(s, 0, |b|);
    assert s[|b|..] == n + rest && s[|b| + 4..] == rest;
    assert s[|b| - 1] == b[|b| - 1];
    hide Blank;
  }

  lemma ValueBehindBlanks(c: Units, d: Units, value: Units)
    requires Blank(c) && Blank(d) && value != [] && !Space(value[0])
    ensures var t := TrimStart(c + ([EQUALS] + (d + value)));
            t == [EQUALS] + (d + value) && TrimStart(t[1..]) == value
  {
    BlanksAreTrimmed(c, [EQUALS] + (d + value));
    BlanksAreTrimmed(d, value);
    assert ([EQUALS] + (d + value))[1..] == d + value;
  }

  lemma QuotedValue(c: Units, d: Units, q: Unit, h: Units, rest: Units)
    requires Blank(c) && Blank(d) && (q == '\"' as int || q == '\'' as int) && q !in h
    ensures AttributeValue(c + ([EQUALS] + (d + ([q] + h + [q] + rest)))) == Some(h)
  {
    var v := [q] + h + [q] + rest;
    ValueBehindBlanks(c, d, v);
    UntilStop(h, q, rest);
    hide TrimStart, Blank, Until;
    assert v[1..] == h + [q] + rest && v[1..][..|h|] == h;
  }

  lemma {:induction false} UnquotedRunStops(h: Units, rest: Units)
    requires (forall u :: u in h ==> Unquoted(u)) && (rest == [] || !Unquoted(rest[0]))
    ensures UnquotedRun(h + rest) == |h|
  {
    if h == [] {
      assert h + rest == rest;
    } else {
      assert (h + rest)[1..] == h[1..] + rest;
      UnquotedRunStops(h[1..], rest);
    }
  }

  lemma UnquotedValue(c: Units, d: Units, h: Units, rest: Units)
    requires Blank(c) && Blank(d) && h != [] && forall u :: u in h ==> Unquoted(u)
    requires rest == [] || !Unquoted(rest[0])
    ensures AttributeValue(c + ([EQUALS] + (d + (h + rest)))) == Some(h)
  {
    var v := h + rest;
    assert v[0] == h[0] && Unquoted(h[0]);
    ValueBehindBlanks(c, d, v);
    UnquotedRunStops(h, rest);
    hide TrimStart, Blank, UnquotedRun;
    assert v[..|h|] == h;
  }

  /** Main result: the href of a link is the value of its attribute, in quotes of either kind or in none. */
  lemma HrefIsFound(b: Units, n: Units, c: Units, d: Units, h: Units, q: Option<Unit>, rest: Units)
    requires b != [] && Blank(b) && Spells(n, HREF) && Blank(c) && Blank(d)
    requires q.Some? ==> (q.value == '\"' as int || q.value == '\'' as int) && q.value !in h
    requires q.None? ==> h != [] && (forall u :: u in h ==> Unquoted(u)) && (rest == [] || !Unquoted(rest[0]))
    ensures var value := if q.Some? then [q.value] + h + [q.value] + rest else h + rest;
            FindHref(AttributeText(b, n, c, d, value), 0) == Some(h)
  {
    hide FindHref, AttributeValue, Unquoted, Spells, Blank;
    if q.Some? {
      QuotedValue(c, d, q.value, h, rest);
      NameIsFound(b, n, c + ([EQUALS] + (d + ([q.value] + h + [q.value] + rest))));
    } else {
      UnquotedValue(c, d, h, rest);
      NameIsFound(b, n, c + ([EQUALS] + (d + (h + rest))));
    }
  }

  // ------------------------------------------------------------------ references

  /** The digits of a number, the highest first. */
  function Digits(n: nat, hex: bool): Units {
    if hex then (if n < 16 then [] else Digits(n / 16, hex)) + [JsonText.HexDigit(n % 16)]
    else (if n < 10 then [] else Digits(n / 10, hex)) + [JsonText.HexDigit(n % 10)]
  }

  /** A unit as a numeric character reference. */
  function Reference(u: Unit, hex: bool): Units {
    [AMP, HASH] + (if hex then ['x' as int] else []) + Digits(u, hex) + [SEMICOLON]
  }

  function InReferences(h: Units, hex: bool): Units {
    if h == [] then [] else Reference(h[0], hex) + InReferences(h[1..], hex)
  }

  lemma DigitOf(n: nat, hex: bool)
    requires n < if hex then 16 else 10
    ensures Digit(JsonText.HexDigit(n), hex) && DigitValue(JsonText.HexDigit(n)) == n
  {
  }

  predicate AreDigits(ds: Units, hex: bool) {
    forall u :: u in ds ==> Digit(u, hex)
  }

  lemma OneMoreDigit(ds: Units, n: nat, hex: bool)
    requires AreDigits(ds, hex) && n < if hex then 16 else 10
    ensures var all := ds + [JsonText.HexDigit(n)];
            AreDigits(all, hex) && Numeral(all, hex) == (if hex then 16 else 10) * Numeral(ds, hex) + n
  {
    DigitOf(n, hex);
    hide Digit, DigitValue;
    var all := ds + [JsonText.HexDigit(n)];
    assert all[..|all| - 1] == ds && all[|all| - 1] == JsonText.HexDigit(n);
  }

  lemma {:induction false} DigitsRead(n: nat, hex: bool)
    ensures Digits(n, hex) != [] && AreDigits(Digits(n, hex), hex) && Numeral(Digits(n, hex), hex) == n
    decreases n
  {
    hide AreDigits, Numeral;
    NoDigits(hex);
    if hex {
      if n >= 16 { DigitsRead(n / 16, hex); }
      OneMoreDigit(if n < 16 then [] else Digits(n / 16, hex), n % 16, hex);
    } else {
      if n >= 10 { DigitsRead(n / 10, hex); }
      OneMoreDigit(if n < 10 then [] else Digits(n / 10, hex), n % 10, hex);
    }
  }

  lemma NoDigits(hex: bool)
    ensures AreDigits([], hex) && Numeral([], hex) == 0
  {
  }

  lemma {:induction false} DigitRunStops(ds: Units, rest: Units, hex: bool)
    requires AreDigits(ds, hex) && (rest == [] || !Digit(rest[0], hex))
    ensures DigitRun(ds + rest, hex) == |ds|
  {
    if ds == [] {
      assert ds + rest == rest;
    } else {
      assert (ds + rest)[1..] == ds[1..] + rest;
      DigitRunStops(ds[1..], rest, hex);
    }
  }

  lemma PrefixIs(ds: Units, after: Units, hex: bool)
    requires ds != [] && Digit(ds[0], hex)
    ensures var n := if hex then 3 else 2;
            var s := [AMP, HASH] + (if hex then ['x' as int] else []) + (ds + after);
            n <= |s| && ReferencePrefix(s, hex) == n && s[n..] == ds + after
  {
    assert (ds + after)[0] == ds[0];
    hide Digit;
  }

  lemma ReferencePieces(u: Unit, rest: Units, hex: bool)
    ensures Reference(u, hex) + rest
            == [AMP, HASH] + (if hex then ['x' as int] else []) + (Digits(u, hex) + ([SEMICOLON] + rest))
  {
    hide Digits;
  }

  /** A reference decodes to its unit, and the rest is decoded as it would be alone. */
  lemma ReferenceDecodes(u: Unit, rest: Units, hex: bool)
    ensures var more := DecodeNumeric(rest, hex);
            DecodeNumeric(Reference(u, hex) + rest, hex) == if more == None then None else Some([u] + more.value)
  {
    hide Digits, Reference, Numeral, DigitRun, ReferencePrefix, DecodeNumeric, AreDigits;
    var ds := Digits(u, hex);
    var after := [SEMICOLON] + rest;
    DigitsRead(u, hex);
    FirstDigit(ds, hex);
    ReferencePieces(u, rest, hex);
    PrefixIs(ds, after, hex);
    DigitRunStops(ds, after, hex);
    DecodesOnce(Reference(u, hex) + rest, hex, ds, rest);
  }

  lemma FirstDigit(ds: Units, hex: bool)
    requires ds != [] && AreDigits(ds, hex)
    ensures Digit(ds[0], hex)
  {
    assert ds[0] in ds;
  }

  lemma PrefixBound(s: Units, hex: bool)
    ensures ReferencePrefix(s, hex) <= |s|
  {
    hide Digit;
  }

  lemma DecodeUnfolds(s: Units, hex: bool)
    requires s != [] && ReferencePrefix(s, hex) > 0
    ensures var n := ReferencePrefix(s, hex);
            n <= |s|
            && var run := DigitRun(s[n..], hex);
               var after := s[n..][run..];
               var point := FromCodePoint(Numeral(s[n..][..run], hex));
               var rest := DecodeNumeric(if after != [] && after[0] == SEMICOLON then after[1..] else after, hex);
               DecodeNumeric(s, hex) == if point == None || rest == None then None else Some(point.value + rest.value)
  {
    hide ReferencePrefix, DigitRun, Numeral, FromCodePoint;
    PrefixBound(s, hex);
    var n := ReferencePrefix(s, hex);
    var run := DigitRun(s[n..], hex);
    assert s[n..][run..] == s[n + run..] && s[n..][..run] == s[n..n + run];
  }

  lemma DecodesOnce(s: Units, hex: bool, ds: Units, rest: Units)
    requires s != [] && 0 < ReferencePrefix(s, hex) <= |s| && Numeral(ds, hex) < 0x1_0000
    requires s[ReferencePrefix(s, hex)..] == ds + ([SEMICOLON] + rest)
    requires DigitRun(ds + ([SEMICOLON] + rest), hex) == |ds|
    ensures var more := DecodeNumeric(rest, hex);
            DecodeNumeric(s, hex) == if more == None then None else Some([Numeral(ds, hex)] + more.value)
  {
    hide Numeral, DigitRun, ReferencePrefix, DecodeNumeric;
    DecodeUnfolds(s, hex);
    var t := ds + ([SEMICOLON] + rest);
    assert t[..|ds|] == ds && t[|ds|..] == [SEMICOLON] + rest && ([SEMICOLON] + rest)[1..] == rest;
  }

  lemma {:induction false} ReferencesDecode(h: Units, hex: bool)
    ensures DecodeNumeric(InReferences(h, hex), hex) == Some(h)
  {
    if h != [] {
      hide Reference, DecodeNumeric;
      ReferencesDecode(h[1..], hex);
      ReferenceDecodes(h[0], InReferences(h[1..], hex), hex);
      assert h == [h[0]] + h[1..];
    }
  }

  /** No ampersand that a number sign and a decimal digit follow. */
  predicate NoDecimal(s: Units) {
    forall i :: 0 <= i < |s| - 2 && s[i] == AMP && s[i + 1] == HASH ==> !Digit(s[i + 2], false)
  }

  lemma {:induction false} NoDecimalDecodes(s: Units)
    requires NoDecimal(s)
    ensures DecodeNumeric(s, false) == Some(s)
    decreases |s|
  {
    if s != [] {
      assert NoDecimal(s[1..]) by {
        assert forall i :: 0 <= i < |s[1..]| ==> s[1..][i] == s[i + 1];
      }
      NoDecimalDecodes(s[1..]);
      assert ReferencePrefix(s, false) == 0;
      hide NoDecimal, ReferencePrefix, Digit;
      assert [s[0]] + s[1..] == s;
    }
  }

  lemma OneUnitMore(u: Unit, s: Units)
    requires NoDecimal(s) && (u == AMP ==> |s| >= 2 && s[1] == 'x' as int)
    ensures NoDecimal([u] + s)
  {
    var t := [u] + s;
    forall i | 0 <= i < |t| - 2 && t[i] == AMP && t[i + 1] == HASH ensures !Digit(t[i + 2], false) {
      if i > 0 {
        assert t[i] == s[i - 1] && t[i + 1] == s[i] && t[i + 2] == s[i + 1];
      }
    }
  }

  lemma {:induction false} DigitsMore(ds: Units, s: Units)
    requires AreDigits(ds, true) && NoDecimal(s)
    ensures NoDecimal(ds + s)
  {
    if ds == [] {
      assert ds + s == s;
    } else {
      assert ds[0] in ds && Digit(ds[0], true);
      assert forall u :: u in ds[1..] ==> u in ds;
      hide NoDecimal;
      DigitsMore(ds[1..], s);
      OneUnitMore(ds[0], ds[1..] + s);
      assert ds + s == [ds[0]] + (ds[1..] + s);
    }
  }

  lemma HexReferenceIsNoDecimal(u: Unit, rest: Units)
    requires NoDecimal(rest)
    ensures NoDecimal(Reference(u, true) + rest)
  {
    hide NoDecimal, Digits, AreDigits, Reference;
    var ds := Digits(u, true);
    DigitsRead(u, true);
    ReferencePieces(u, rest, true);
    OneUnitMore(SEMICOLON, rest);
    var t := ds + ([SEMICOLON] + rest);
    DigitsMore(ds, [SEMICOLON] + rest);
    OneUnitMore('x' as int, t);
    OneUnitMore(HASH, ['x' as int] + t);
    OneUnitMore(AMP, [HASH] + (['x' as int] + t));
    assert [AMP, HASH] + ['x' as int] + t == [AMP] + ([HASH] + (['x' as int] + t));
  }

  lemma {:induction false} HexReferencesAreNoDecimal(h: Units)
    ensures NoDecimal(InReferences(h, true))
  {
    if h != [] {
      HexReferencesAreNoDecimal(h[1..]);
      hide NoDecimal, Reference;
      HexReferenceIsNoDecimal(h[0], InReferences(h[1..], true));
    }
  }

  // ------------------------------------------------------------------ what a link is judged by

  /** The value without its control units and the white space around it. */
  function Cleaned(h: Units): Units {
    Trim(DropControls(h))
  }

  lemma {:induction false} ControlsVanish(a: Units, u: Unit, b: Units)
    ensures DropControls(a + ([u] + b))
            == DropControls(a) + ((if u <= 0x20 || u == 0x7F then [] else [u]) + DropControls(b))
  {
    if a == [] {
      assert a + ([u] + b) == [u] + b && ([u] + b)[1..] == b;
    } else {
      assert (a + ([u] + b))[1..] == a[1..] + ([u] + b);
      ControlsVanish(a[1..], u, b);
    }
  }

  lemma PlainIsCleaned(h: Units)
    requires AMP !in h
    ensures DecodeNumeric(h, true) == Some(h) && DecodeAttribute(h) == Some(Cleaned(h))
  {
    SettledDecodesNumeric(h, false);
    SettledDecodesNumeric(h, true);
    SettledDecodesColon(h);
  }

  /** Main result: a value written in numeric references, decimal or hexadecimal, is the value written plainly. */
  lemma ReferencesAreSeenThrough(h: Units, hex: bool)
    requires AMP !in h
    ensures DecodeAttribute(InReferences(h, hex)) == DecodeAttribute(h) == Some(Cleaned(h))
  {
    hide InReferences, DecodeNumeric, DropControls, Trim, NoDecimal;
    PlainIsCleaned(h);
    ReferencesDecode(h, hex);
    if hex {
      HexReferencesAreNoDecimal(h);
      NoDecimalDecodes(InReferences(h, true));
    }
    SettledDecodesColon(h);
  }

  const COLON_NAME: Units := [99, 111, 108, 111, 110]

  lemma ColonStarts(n: Units, rest: Units)
    requires Spells(n, COLON_NAME)
    ensures StartsFolded([AMP] + (n + ([SEMICOLON] + rest)), COLON_REFERENCE)
  {
    var s := [AMP] + (n + ([SEMICOLON] + rest));
    forall i | 0 <= i < 7 ensures Fold(s[i]) == COLON_REFERENCE[i] {
      if 0 < i < 6 {
        assert s[i] == n[i - 1] && IsSpelt(n[i - 1], COLON_NAME[i - 1]);
      }
    }
  }

  /** `&colon;`, in either case, is a colon. */
  lemma ColonIsSeenThrough(n: Units, rest: Units)
    requires Spells(n, Ascii("colon"))
    ensures DecodeColon([AMP] + (n + ([SEMICOLON] + rest))) == [':' as int] + DecodeColon(rest)
  {
    assert Ascii("colon") == COLON_NAME;
    ColonStarts(n, rest);
    hide StartsFolded, IsSpelt, Ascii;
    assert ([AMP] + (n + ([SEMICOLON] + rest)))[7..] == rest;
  }

  predicate HasSafeScheme(value: Units) {
    BeginsAs(value, Ascii("http:")) || BeginsAs(value, Ascii("https:")) || BeginsAs(value, Ascii("mailto:"))
  }

  /**
   Main result: however its attribute is spaced, spelled and quoted, and whether its value is written plainly or in
   references, a link keeps the cleaned value if that has one of the three schemes, and otherwise has no href.
   */
  lemma LinkIsJudged(b: Units, n: Units, c: Units, d: Units, h: Units, written: Units, q: Option<Unit>, rest: Units)
    requires b != [] && Blank(b) && Spells(n, HREF) && Blank(c) && Blank(d) && AMP !in h
    requires written == h || written == InReferences(h, false) || written == InReferences(h, true)
    requires q.Some? ==> (q.value == '\"' as int || q.value == '\'' as int) && q.value !in written
    requires q.None? ==>
               written != [] && (forall u :: u in written ==> Unquoted(u)) && (rest == [] || !Unquoted(rest[0]))
    ensures var value := if q.Some? then [q.value] + written + [q.value] + rest else written + rest;
            SafeHref(AttributeText(b, n, c, d, value))
            == Some(if HasSafeScheme(Cleaned(h)) then Some(Cleaned(h)) else None)
  {
    hide FindHref, AttributeText, DecodeAttribute, SafeScheme, InReferences, Unquoted, Spells, Blank, Cleaned, BeginsAs;
    HrefIsFound(b, n, c, d, written, q, rest);
    ReferencesAreSeenThrough(h, false);
    ReferencesAreSeenThrough(h, true);
    SchemeIsSpelled(Cleaned(h));
  }

  // ------------------------------------------------------------------ what is written

  const AMP_ESCAPE: Units := [38, 97, 109, 112, 59]
  const QUOTE_ESCAPE: Units := [38, 113, 117, 111, 116, 59]
  const LT_ESCAPE: Units := [38, 108, 116, 59]
  const GT_ESCAPE: Units := [38, 103, 116, 59]

  predicate Begins(s: Units, word: Units) {
    |word| <= |s| && s[..|word|] == word
  }

  /** How a browser reads an attribute value, of the named references these four. */
  function ReadEscapes(s: Units): Units {
    if s == [] then []
    else if Begins(s, AMP_ESCAPE) then [AMP] + ReadEscapes(s[5..])
    else if Begins(s, QUOTE_ESCAPE) then [QUOTE] + ReadEscapes(s[6..])
    else if Begins(s, LT_ESCAPE) then [LT] + ReadEscapes(s[4..])
    else if Begins(s, GT_ESCAPE) then [GT] + ReadEscapes(s[4..])
    else [s[0]] + ReadEscapes(s[1..])
  }

  lemma EscapesAreNamed()
    ensures AMP_ESCAPE == Ascii("&amp;") && QUOTE_ESCAPE == Ascii("&quot;")
    ensures LT_ESCAPE == Ascii("&lt;") && GT_ESCAPE == Ascii("&gt;")
  {
  }

  lemma WordBegins(word: Units, rest: Units)
    ensures Begins(word + rest, word) && (word + rest)[|word|..] == rest
  {
  }

  lemma BeginsAt(s: Units, word: Units, i: nat)
    requires i < |word|
    ensures Begins(s, word) ==> i < |s| && s[i] == word[i]
  {
    if Begins(s, word) {
      assert s[..|word|][i] == word[i];
    }
  }

  lemma EscapedUnitReads(u: Unit, rest: Units)
    ensures ReadEscapes(EscapeUnit(u) + rest) == [u] + ReadEscapes(rest)
  {
    var s := EscapeUnit(u) + rest;
    WordBegins(EscapeUnit(u), rest);
    hide Begins;
    if Special(u) {
      BeginsAt(s, AMP_ESCAPE, 1);
      BeginsAt(s, QUOTE_ESCAPE, 1);
      BeginsAt(s, LT_ESCAPE, 1);
    } else {
      BeginsAt(s, AMP_ESCAPE, 0);
      BeginsAt(s, QUOTE_ESCAPE, 0);
      BeginsAt(s, LT_ESCAPE, 0);
      BeginsAt(s, GT_ESCAPE, 0);
    }
  }

  lemma {:induction false} EscapedReads(h: Units)
    ensures ReadEscapes(Escape(h)) == h
  {
    if h != [] {
      EscapedReads(h[1..]);
      hide ReadEscapes, EscapeUnit;
      EscapedUnitReads(h[0], Escape(h[1..]));
      assert h == [h[0]] + h[1..];
    }
  }

  lemma LinkEndsAreNamed()
    ensures Ascii("<a href=\"") == [60, 97, 32, 104, 114, 101, 102, 61, 34] && Ascii("\">") == [34, 62]
  {
  }

  lemma LinkIsWritten(e: Units)
    ensures [LT] + ANCHOR + EmittedAttributes(e) + [GT] == [60, 97, 32, 104, 114, 101, 102, 61, 34] + e + [34, 62]
  {
  }

  /** Main result: the link that is written holds, between quotes, a value without quotes that reads as its href. */
  lemma WrittenLinkReads(h: Units)
    ensures Render(Open(ANCHOR, Some(h))) == Ascii("<a href=\"") + Escape(h) + Ascii("\">")
    ensures QUOTE !in Escape(h) && ReadEscapes(Escape(h)) == h
  {
    hide Escape, ReadEscapes, EmittedAttributes, Ascii;
    EscapedReads(h);
    EscapeSettles(h);
    LinkEndsAreNamed();
    LinkIsWritten(Escape(h));
  }
}
