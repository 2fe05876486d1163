/**
 The attribute helpers of signatures/index.ts, over UTF-16 code units: trimming, decoding, escaping and
 `safeHref`; and what decoding does to a value that has been decoded and escaped before.
 */
module SignatureAttributes {
  import opened JsonText
  import opened Options

  const LT: Unit := 60
  const GT: Unit := 62
  const AMP: Unit := 38
  const HASH: Unit := 35
  const SEMICOLON: Unit := 59

  /** The white space of `\s` and of `trim`. */
  predicate Space(u: Unit) {
    9 <= u <= 13 || u == 32 || u == 0xA0 || u == 0x1680 || 0x2000 <= u <= 0x200A
    || u == 0x2028 || u == 0x2029 || u == 0x202F || u == 0x205F || u == 0x3000 || u == 0xFEFF
  }

  function TrimStart(s: Units): Units {
    if s != [] && Space(s[0]) then TrimStart(s[1..]) else s
  }

  function TrimEnd(s: Units): Units {
    if s != [] && Space(s[|s| - 1]) then TrimEnd(s[..|s| - 1]) else s
  }

  function Trim(s: Units): Units {
    TrimEnd(TrimStart(s))
  }

  /** ASCII case folding; no other unit folds to the letters these patterns use. */
  function Fold(u: Unit): Unit {
    if 65 <= u <= 90 then u + 32 else u
  }

  predicate StartsFolded(s: Units, word: Units) {
    |word| <= |s| && forall i :: 0 <= i < |word| ==> Fold(s[i]) == word[i]
  }

  // ------------------------------------------------------------------ decodeAttribute

  predicate Digit(u: Unit, hex: bool) {
    48 <= u <= 57 || (hex && 97 <= Fold(u) <= 102)
  }

  function DigitValue(u: Unit): nat {
    if 48 <= u <= 57 then u - 48 else if 97 <= Fold(u) then Fold(u) - 87 else 0
  }

  function DigitRun(s: Units, hex: bool): (n: nat)
    ensures n <= |s|
  {
    if s == [] || !Digit(s[0], hex) then 0 else 1 + DigitRun(s[1..], hex)
  }

  function Numeral(digits: Units, hex: bool): nat
    decreases |digits|
  {
    if digits == [] then 0
    else (if hex then 16 else 10) * Numeral(digits[..|digits| - 1], hex) + DigitValue(digits[|digits| - 1])
  }

  /** String.fromCodePoint, which throws above 0x10FFFF. */
  function FromCodePoint(n: nat): Option<Units> {
    if n < 0x1_0000 then Some([n])
    else if n <= 0x10_FFFF then Some([0xD800 + (n - 0x1_0000) / 1024, 0xDC00 + (n - 0x1_0000) % 1024])
    else None
  }

  /** The length of `&#` or `&#x` at the start, if digits follow. */
  function ReferencePrefix(s: Units, hex: bool): nat {
    var n := if hex then 3 else 2;
    if |s| > n && s[0] == AMP && s[1] == HASH && (hex ==> Fold(s[2]) == 120) && Digit(s[n], hex) then n else 0
  }

  function DecodeNumeric(s: Units, hex: bool): Option<Units>
    decreases |s|
  {
    if s == [] then Some([])
    else
      var n := ReferencePrefix(s, hex);
      if n == 0 then
        var rest := DecodeNumeric(s[1..], hex);
        if rest == None then None else Some([s[0]] + rest.value)
      else
        var run := DigitRun(s[n..], hex);
        var after := s[n + run..];
        var point := FromCodePoint(Numeral(s[n..n + run], hex));
        var rest := DecodeNumeric(if after != [] && after[0] == SEMICOLON then after[1..] else after, hex);
        if point == None || rest == None then None else Some(point.value + rest.value)
  }

  /** "&colon;" */
  const COLON_REFERENCE: Units := [38, 99, 111, 108, 111, 110, 59]

  function DecodeColon(s: Units): Units
    decreases |s|
  {
    if s == [] then []
    else if StartsFolded(s, COLON_REFERENCE) then [58] + DecodeColon(s[7..])
    else [s[0]] + DecodeColon(s[1..])
  }

  predicate Control(u: Unit) {
    u <= 0x20 || u == 0x7F
  }

  function DropControls(s: Units): Units {
    if s == [] then [] else if Control(s[0]) then DropControls(s[1..]) else [s[0]] + DropControls(s[1..])
  }

  function DecodeAttribute(value: Units): Option<Units> {
    var decimal := DecodeNumeric(value, false);
    if decimal == None then None
    else
      var hex := DecodeNumeric(decimal.value, true);
      if hex == None then None else Some(Trim(DropControls(DecodeColon(hex.value))))
  }

  // ------------------------------------------------------------------ escapeAttribute

  function EscapeUnit(u: Unit): (r: Units)
    ensures r != []
  {
    if u == AMP then [38, 97, 109, 112, 59]
    else if u == QUOTE then [38, 113, 117, 111, 116, 59]
    else if u == LT then [38, 108, 116, 59]
    else if u == GT then [38, 103, 116, 59]
    else [u]
  }

  function Escape(s: Units): Units {
    if s == [] then [] else EscapeUnit(s[0]) + Escape(s[1..])
  }

  predicate Special(u: Unit) {
    u == AMP || u == QUOTE || u == LT || u == GT
  }

  predicate Plain(s: Units) {
    forall i :: 0 <= i < |s| ==> !Special(s[i])
  }

  // ------------------------------------------------------------------ safeHref

  /** Word characters of `\b` under the flags i and u. */
  predicate Word(u: Unit) {
    48 <= u <= 57 || 65 <= u <= 90 || 97 <= u <= 122 || u == 95 || u == 0x17F || u == 0x212A
  }

  predicate Unquoted(u: Unit) {
    !Space(u) && u != QUOTE && u != 39 && u != 61 && u != LT && u != GT && u != 96
  }

  /** How many units there are before the first one that is `stop`. */
  function Until(s: Units, stop: Unit): (n: nat)
    ensures n <= |s| && (n < |s| ==> s[n] == stop)
    ensures forall i :: 0 <= i < n ==> s[i] != stop
  {
    if s == [] || s[0] == stop then 0 else 1 + Until(s[1..], stop)
  }

  function UnquotedRun(s: Units): (n: nat)
    ensures n <= |s|
  {
    if s == [] || !Unquoted(s[0]) then 0 else 1 + UnquotedRun(s[1..])
  }

  /** "href" */
  const HREF: Units := [104, 114, 101, 102]

  /** The value after `\s*=\s*`. */
  function AttributeValue(s: Units): Option<Units> {
    var t := TrimStart(s);
    if t == [] || t[0] != 61 then None
    else
      var v := TrimStart(t[1..]);
      if v == [] then None
      else if v[0] == QUOTE || v[0] == 39 then
        var n := Until(v[1..], v[0]);
        if n < |v| - 1 then Some(v[1..][..n]) else None
      else if UnquotedRun(v) > 0 then Some(v[..UnquotedRun(v)])
      else None
  }

  /** The leftmost match of the href pattern at or after `i`. */
  function FindHref(s: Units, i: nat): Option<Units>
    requires i <= |s|
    decreases |s| - i
  {
    if |s| - i < 4 then None
    else if (i == 0 || !Word(s[i - 1])) && StartsFolded(s[i..], HREF) && AttributeValue(s[i + 4..]).Some?
    then AttributeValue(s[i + 4..])
    else FindHref(s, i + 1)
  }

  /** /^(https?:|mailto:)/iu; under these flags U+017F matches s. */
  predicate SafeScheme(s: Units) {
    StartsFolded(s, [104, 116, 116, 112, 58])
    || StartsFolded(s, [104, 116, 116, 112, 115, 58])
    || (|s| >= 6 && StartsFolded(s, [104, 116, 116, 112]) && s[4] == 0x17F && s[5] == 58)
    || StartsFolded(s, [109, 97, 105, 108, 116, 111, 58])
  }

  /** None when decoding throws; otherwise the href to emit, if there is one. */
  function SafeHref(attributes: Units): Option<Option<Units>> {
    var raw := FindHref(attributes, 0);
    var value := DecodeAttribute(if raw.Some? then raw.value else []);
    if value == None then None
    else if SafeScheme(value.value) then Some(Some(value.value))
    else Some(None)
  }

  // ------------------------------------------------------------------ trimming

  predicate Trimmed(s: Units) {
    s == [] || (!Space(s[0]) && !Space(s[|s| - 1]))
  }

  lemma {:induction false} TrimStartSuffix(s: Units)
    ensures |TrimStart(s)| <= |s| && TrimStart(s) == s[|s| - |TrimStart(s)|..]
    ensures TrimStart(s) != [] ==> !Space(TrimStart(s)[0])
  {
    if s != [] && Space(s[0]) {
      TrimStartSuffix(s[1..]);
    }
  }

  lemma {:induction false} TrimEndPrefix(s: Units)
    ensures |TrimEnd(s)| <= |s| && TrimEnd(s) == s[..|TrimEnd(s)|]
    ensures TrimEnd(s) != [] ==> !Space(TrimEnd(s)[|TrimEnd(s)| - 1])
  {
    if s != [] && Space(s[|s| - 1]) {
      TrimEndPrefix(s[..|s| - 1]);
    }
  }

  lemma TrimIsTrimmed(s: Units)
    ensures Trimmed(Trim(s))
    ensures Trimmed(s) ==> Trim(s) == s
  {
    TrimStartSuffix(s);
    TrimEndPrefix(TrimStart(s));
  }

  // ------------------------------------------------------------------ decoding what was escaped

  /** What `safeHref` lets through. */
  predicate Emittable(h: Units) {
    SafeScheme(h) && Trimmed(h) && forall i :: 0 <= i < |h| ==> !Control(h[i])
  }

  lemma {:induction false} DropControlsDrops(s: Units)
    ensures forall i :: 0 <= i < |DropControls(s)| ==> !Control(DropControls(s)[i])
    ensures (forall i :: 0 <= i < |s| ==> !Control(s[i])) ==> DropControls(s) == s
  {
    if s != [] {
      DropControlsDrops(s[1..]);
    }
  }

  lemma SafeHrefIsEmittable(attributes: Units)
    ensures var r := SafeHref(attributes); r.Some? && r.value.Some? ==> Emittable(r.value.value)
  {
    hide FindHref, DecodeNumeric, DecodeColon, DropControls, TrimStart, TrimEnd, SafeScheme;
    var raw := FindHref(attributes, 0);
    var value := if raw.Some? then raw.value else [];
    if DecodeAttribute(value).Some? {
      var hex := DecodeNumeric(DecodeNumeric(value, false).value, true).value;
      var d := DropControls(DecodeColon(hex));
      DropControlsDrops(DecodeColon(hex));
      TrimIsTrimmed(d);
      TrimStartSuffix(d);
      TrimEndPrefix(TrimStart(d));
    }
  }

  /** Every ampersand begins one of the four escapes, so nothing looks like a reference. */
  predicate Settled(s: Units) {
    forall i :: 0 <= i < |s| && s[i] == AMP ==>
      i + 1 < |s| && (s[i + 1] == 97 || s[i + 1] == 113 || s[i + 1] == 108 || s[i + 1] == 103)
  }

  lemma {:induction false} SettledConcat(a: Units, b: Units)
    requires Settled(a) && Settled(b)
    ensures Settled(a + b)
  {
  }

  lemma {:induction false} EscapeSettles(s: Units)
    ensures Settled(Escape(s))
    ensures forall u :: u in Escape(s) ==> u != QUOTE && u != LT && u != GT
  {
    if s != [] {
      EscapeSettles(s[1..]);
      SettledConcat(EscapeUnit(s[0]), Escape(s[1..]));
    }
  }

  /** Escaping changes exactly the values that hold a special unit, and makes them longer. */
  lemma {:induction false} EscapeGrows(s: Units)
    ensures if Plain(s) then Escape(s) == s else |Escape(s)| > |s|
  {
    if s != [] {
      EscapeGrows(s[1..]);
      assert s == [s[0]] + s[1..];
      assert Plain(s) <==> !Special(s[0]) && Plain(s[1..]) by {
        assert forall i :: 0 <= i < |s[1..]| ==> s[1..][i] == s[i + 1];
      }
    }
  }

  lemma {:induction false} EscapeKeepsShape(s: Units)
    ensures (forall i :: 0 <= i < |s| ==> !Control(s[i])) ==> forall u :: u in Escape(s) ==> !Control(u)
    ensures s != [] ==> Escape(s) != [] && (Space(Escape(s)[|Escape(s)| - 1]) ==> Space(s[|s| - 1]))
  {
    if s != [] {
      EscapeKeepsShape(s[1..]);
      assert Escape(s) == EscapeUnit(s[0]) + Escape(s[1..]);
      assert forall i :: 0 <= i < |s[1..]| ==> s[1..][i] == s[i + 1];
    }
  }

  lemma {:induction false} EscapePrefix(s: Units, n: nat)
    requires n <= |s| && Plain(s[..n])
    ensures n <= |Escape(s)| && Escape(s)[..n] == s[..n]
  {
    if n > 0 {
      assert s[..n][0] == s[0];
      assert s[1..][..n - 1] == s[..n][1..];
      EscapePrefix(s[1..], n - 1);
      assert Escape(s) == [s[0]] + Escape(s[1..]);
      assert s[..n] == [s[0]] + s[1..][..n - 1];
    }
  }

  /** A value without references decodes to itself, controls and outer white space apart. */
  lemma {:induction false} SettledDecodesNumeric(s: Units, hex: bool)
    requires Settled(s)
    ensures DecodeNumeric(s, hex) == Some(s)
    decreases |s|
  {
    if s != [] {
      assert Settled(s[1..]) by { assert forall i :: 0 <= i < |s[1..]| ==> s[1..][i] == s[i + 1]; }
      SettledDecodesNumeric(s[1..], hex);
      assert ReferencePrefix(s, hex) == 0;
      assert [s[0]] + s[1..] == s;
    }
  }

  lemma {:induction false} SettledDecodesColon(s: Units)
    requires Settled(s)
    ensures DecodeColon(s) == s
    decreases |s|
  {
    if s != [] {
      assert Settled(s[1..]) by { assert forall i :: 0 <= i < |s[1..]| ==> s[1..][i] == s[i + 1]; }
      SettledDecodesColon(s[1..]);
      assert Fold(s[0]) == COLON_REFERENCE[0] ==> s[0] == AMP;
    }
  }

  lemma SettledDecodes(s: Units)
    requires Settled(s) && Trimmed(s) && forall u :: u in s ==> !Control(u)
    ensures DecodeAttribute(s) == Some(s)
  {
    SettledDecodesNumeric(s, false);
    SettledDecodesNumeric(s, true);
    SettledDecodesColon(s);
    DropControlsDrops(s);
    TrimIsTrimmed(s);
  }

  /** The scheme is spelled without special units, so escaping leaves it. */
  lemma EscapeKeepsScheme(h: Units)
    requires SafeScheme(h)
    ensures SafeScheme(Escape(h))
  {
    var n := if StartsFolded(h, [104, 116, 116, 112, 58]) then 5
             else if StartsFolded(h, [109, 97, 105, 108, 116, 111, 58]) then 7 else 6;
    assert Plain(h[..n]);
    EscapePrefix(h, n);
    assert forall i :: 0 <= i < n ==> Escape(h)[i] == h[..n][i];
  }

  lemma EscapeKeepsEmittable(h: Units)
    requires Emittable(h)
    ensures Emittable(Escape(h)) && DecodeAttribute(Escape(h)) == Some(Escape(h))
  {
    EscapeKeepsScheme(h);
    EscapeKeepsShape(h);
    EscapeSettles(h);
    assert Trimmed(Escape(h)) by {
      assert !Space(h[0]);
      assert Escape(h) == EscapeUnit(h[0]) + Escape(h[1..]);
    }
    SettledDecodes(Escape(h));
  }

  lemma {:induction false} UntilStop(e: Units, stop: Unit, rest: Units)
    requires stop !in e
    ensures Until(e + [stop] + rest, stop) == |e|
  {
    var s := e + [stop] + rest;
    if e == [] {
      assert s[0] == stop;
    } else {
      assert s[0] == e[0] && e[0] in e;
      assert s[1..] == e[1..] + [stop] + rest;
      assert forall u :: u in e[1..] ==> u in e;
      UntilStop(e[1..], stop, rest);
    }
  }

  lemma EmittedValueIsRead(e: Units)
    requires forall u :: u in e ==> u != QUOTE
    ensures AttributeValue([61, QUOTE] + e + [QUOTE]) == Some(e)
  {
    var t := [61, QUOTE] + e + [QUOTE];
    assert TrimStart(t) == t;
    var v := t[1..];
    assert v == [QUOTE] + e + [QUOTE];
    assert TrimStart(v) == v;
    assert v[1..] == e + [QUOTE];
    UntilStop(e, QUOTE, []);
    assert e + [QUOTE] + [] == e + [QUOTE];
    assert (e + [QUOTE])[..|e|] == e;
  }

  function EmittedAttributes(e: Units): Units {
    [32, 104, 114, 101, 102] + ([61, QUOTE] + e + [QUOTE])
  }

  /** The attribute text of an emitted link is found whole. */
  lemma EmittedHrefIsFound(e: Units)
    requires forall u :: u in e ==> u != QUOTE
    ensures FindHref(EmittedAttributes(e), 0) == Some(e)
  {
    EmittedValueIsRead(e);
    var s := EmittedAttributes(e);
    hide AttributeValue;
    assert s[5..] == [61, QUOTE] + e + [QUOTE];
    assert Fold(s[0]) != HREF[0];
    assert !StartsFolded(s[0..], HREF);
    assert s[1..][0] == 104 && s[1..][1] == 114 && s[1..][2] == 101 && s[1..][3] == 102;
    assert StartsFolded(s[1..], HREF);
    assert FindHref(s, 1) == AttributeValue(s[5..]);
  }
}
