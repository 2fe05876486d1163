/**
 What `sanitizeSignatureHtml` keeps: the text and the allowed tags that stand outside every element whose content is
 dropped, in order, and nothing else.
 */
module SignatureKept {
  import opened JsonText
  import opened SignatureAttributes
  import opened Signature
  import opened SignatureForm
  import opened Options

  // ------------------------------------------------------------------ names

  function Ascii(s: string): Units {
    seq(|s|, i requires 0 <= i < |s| => s[i] as int % 128)
  }

  lemma ShortNames()
    ensures Ascii("a") == [97] && Ascii("b") == [98] && Ascii("i") == [105] && Ascii("p") == [112]
    ensures Ascii("u") == [117] && Ascii("br") == [98, 114] && Ascii("em") == [101, 109]
    ensures Ascii("div") == [100, 105, 118] && Ascii("span") == [115, 112, 97, 110]
    ensures Ascii("strong") == [115, 116, 114, 111, 110, 103]
  {
  }

  lemma LongNames()
    ensures Ascii("script") == [115, 99, 114, 105, 112, 116] && Ascii("style") == [115, 116, 121, 108, 101]
    ensures Ascii("form") == [102, 111, 114, 109] && Ascii("iframe") == [105, 102, 114, 97, 109, 101]
    ensures Ascii("object") == [111, 98, 106, 101, 99, 116]
  {
  }

  lemma NamesAreSpelled()
    ensures ALLOWED_TAGS == {Ascii("a"), Ascii("b"), Ascii("br"), Ascii("div"), Ascii("em"), Ascii("i"), Ascii("p"),
                             Ascii("span"), Ascii("strong"), Ascii("u")}
    ensures DROP_WITH_CONTENT == {Ascii("script"), Ascii("style"), Ascii("form"), Ascii("iframe"), Ascii("object")}
    ensures VOID_TAGS == {Ascii("br")} && ANCHOR == Ascii("a")
  {
    hide Ascii;
    ShortNames();
    LongNames();
  }

  // ------------------------------------------------------------------ nesting

  /** An opening tag of a name whose content is dropped. */
  predicate OpensDropped(token: Units) {
    Opening(token).Some? && Opening(token).value.name in DROP_WITH_CONTENT
  }

  /** A token inside the elements `outer`: only a closing tag of the innermost one's name closes it. */
  function Next(outer: seq<Units>, token: Units): seq<Units> {
    if OpensDropped(token) then outer + [Opening(token).value.name]
    else if outer != [] && Closing(token) == Some(outer[|outer| - 1]) then outer[..|outer| - 1]
    else outer
  }

  /** The elements with dropped content that are open after these tokens, the innermost last. */
  function Nesting(tokens: seq<Units>): seq<Units>
    decreases |tokens|
  {
    if tokens == [] then [] else Next(Nesting(tokens[..|tokens| - 1]), tokens[|tokens| - 1])
  }

  predicate IsText(token: Units) {
    token == [] || token[0] != LT
  }

  /** A link whose href holds a character reference that is out of range. */
  predicate IsFaulty(token: Units) {
    Opening(token).Some? && Opening(token).value.name == ANCHOR && SafeHref(Opening(token).value.attributes).None?
  }

  /** What a token outside every dropped element becomes: text itself, and an allowed tag its canonical form. */
  function StandsFor(token: Units): Option<Piece> {
    if IsText(token) then Some(Plaintext(token))
    else if Opening(token).Some? then
      var tag := Opening(token).value;
      if tag.name !in ALLOWED_TAGS || IsFaulty(token) then None
      else Some(Open(tag.name, if tag.name == ANCHOR then SafeHref(tag.attributes).value else None))
    else if Closing(token).Some? && Closing(token).value in ALLOWED_TAGS && Closing(token).value !in VOID_TAGS then
      Some(Close(Closing(token).value))
    else None
  }

  predicate IsKept(tokens: seq<Units>, i: nat) {
    i < |tokens| && Nesting(tokens[..i]) == [] && StandsFor(tokens[i]).Some?
  }

  predicate IsThrown(tokens: seq<Units>, i: nat) {
    i < |tokens| && Nesting(tokens[..i]) == [] && IsFaulty(tokens[i])
  }

  predicate Throws(tokens: seq<Units>) {
    exists i: nat :: i < |tokens| && IsThrown(tokens, i)
  }

  lemma OpeningOrClosing(token: Units)
    ensures Opening(token).Some? ==> Closing(token).None?
    ensures Opening(token).Some? || Closing(token).Some? ==> !IsText(token)
  {
  }

  lemma NamesApart(name: Units)
    ensures name in ALLOWED_TAGS ==> name !in DROP_WITH_CONTENT
  {
  }

  /** One token more. */
  lemma StepStands(pieces: seq<Piece>, outer: seq<Units>, token: Units)
    ensures var s := Step(pieces, outer, token);
            if outer == [] && IsFaulty(token) then s.Thrown?
            else
              s == Scan(pieces + (if outer == [] && StandsFor(token).Some? then [StandsFor(token).value] else []),
                        Next(outer, token))
  {
    OpeningOrClosing(token);
    hide Opening, Closing, SafeHref;
    if Opening(token).Some? {
      NamesApart(Opening(token).value.name);
      NamesApart(ANCHOR);
    }
    assert pieces + [] == pieces;
  }

  /** The kept tokens, by position. */
  predicate AreKept(tokens: seq<Units>, kept: seq<nat>) {
    (forall j, k :: 0 <= j < k < |kept| ==> kept[j] < kept[k])
    && (forall i: nat :: i < |tokens| ==> (i in kept <==> IsKept(tokens, i)))
    && forall k :: k in kept ==> k < |tokens|
  }

  predicate Become(tokens: seq<Units>, kept: seq<nat>, pieces: seq<Piece>) {
    |pieces| == |kept|
    && forall k :: 0 <= k < |kept| ==> kept[k] < |tokens| && StandsFor(tokens[kept[k]]) == Some(pieces[k])
  }

  lemma PrefixAgrees(tokens: seq<Units>, i: nat)
    requires i < |tokens| - 1
    ensures var most := tokens[..|tokens| - 1];
            (IsKept(most, i) <==> IsKept(tokens, i)) && (IsThrown(most, i) <==> IsThrown(tokens, i))
  {
    assert tokens[..|tokens| - 1][..i] == tokens[..i];
  }

  lemma OneMoreToken(tokens: seq<Units>, kept: seq<nat>, pieces: seq<Piece>)
    requires tokens != [] && AreKept(tokens[..|tokens| - 1], kept) && Become(tokens[..|tokens| - 1], kept, pieces)
    ensures var n := |tokens| - 1;
            if IsKept(tokens, n) then
              AreKept(tokens, kept + [n]) && Become(tokens, kept + [n], pieces + [StandsFor(tokens[n]).value])
            else AreKept(tokens, kept) && Become(tokens, kept, pieces)
  {
    hide StandsFor, Nesting;
    var n := |tokens| - 1;
    forall i: nat | i < n ensures i in kept <==> IsKept(tokens, i) {
      PrefixAgrees(tokens, i);
    }
    assert n !in kept;
  }

  lemma ThrownSoFar(tokens: seq<Units>)
    requires tokens != []
    ensures Throws(tokens) <==> Throws(tokens[..|tokens| - 1]) || IsThrown(tokens, |tokens| - 1)
  {
    var n := |tokens| - 1;
    forall i: nat | i < n ensures IsThrown(tokens[..n], i) <==> IsThrown(tokens, i) {
      PrefixAgrees(tokens, i);
    }
  }

  lemma {:induction false} ScanKeeps(tokens: seq<Units>) returns (kept: seq<nat>)
    ensures ScanAll(tokens).Thrown? <==> Throws(tokens)
    ensures ScanAll(tokens).Scan? ==>
              ScanAll(tokens).dropped == Nesting(tokens) && AreKept(tokens, kept)
              && Become(tokens, kept, ScanAll(tokens).pieces)
    decreases |tokens|
  {
    hide IsFaulty, StandsFor, Next, Step, AreKept, Become, Throws;
    kept := [];
    if tokens == [] {
      NothingIsKept();
    } else {
      var n := |tokens| - 1;
      kept := ScanKeeps(tokens[..n]);
      ThrownSoFar(tokens);
      if ScanAll(tokens[..n]).Scan? {
        var pieces := ScanAll(tokens[..n]).pieces;
        StepStands(pieces, Nesting(tokens[..n]), tokens[n]);
        OneMoreToken(tokens, kept, pieces);
        assert pieces + [] == pieces;
        if IsKept(tokens, n) {
          kept := kept + [n];
        }
      }
    }
  }

  lemma NothingIsKept()
    ensures AreKept([], []) && Become([], [], []) && !Throws([])
  {
  }

  /**
   Main result: the function throws if and only if a link outside every dropped element has a reference out of range.
   Otherwise what it emits is, in order, exactly the text and the allowed tags outside every dropped element.
   */
  lemma KeepsExactly(input: Units) returns (kept: seq<nat>)
    ensures Sanitize(input).None? <==> Throws(Tokenize(input))
    ensures Sanitize(input).Some? ==>
              AreKept(Tokenize(input), kept) && Become(Tokenize(input), kept, Emitted(input))
  {
    hide Tokenize, AreKept, Become, Throws;
    kept := ScanKeeps(Tokenize(input));
  }

  // ------------------------------------------------------------------ the same by concatenation

  function KeptPieces(tokens: seq<Units>): seq<Piece>
    decreases |tokens|
  {
    if tokens == [] then []
    else
      var most, last := tokens[..|tokens| - 1], tokens[|tokens| - 1];
      KeptPieces(most)
      + if Nesting(most) == [] && StandsFor(last).Some? then [StandsFor(last).value] else []
  }

  lemma {:induction false} ScanIsKeptPieces(tokens: seq<Units>)
    ensures ScanAll(tokens) == if Throws(tokens) then Thrown else Scan(KeptPieces(tokens), Nesting(tokens))
    decreases |tokens|
  {
    hide IsFaulty, StandsFor, Next, Step, Throws;
    if tokens == [] {
      NothingIsKept();
    } else {
      var n := |tokens| - 1;
      ScanIsKeptPieces(tokens[..n]);
      ThrownSoFar(tokens);
      StepStands(KeptPieces(tokens[..n]), Nesting(tokens[..n]), tokens[n]);
    }
  }

  lemma OneMore(tokens: seq<Units>, last: Units)
    ensures Nesting(tokens + [last]) == Next(Nesting(tokens), last)
    ensures KeptPieces(tokens + [last])
            == KeptPieces(tokens)
               + if Nesting(tokens) == [] && StandsFor(last).Some? then [StandsFor(last).value] else []
    ensures Throws(tokens + [last]) <==> Throws(tokens) || (Nesting(tokens) == [] && IsFaulty(last))
  {
    hide StandsFor, Next, IsFaulty, Throws;
    var all := tokens + [last];
    assert all[..|all| - 1] == tokens && all[|all| - 1] == last;
    ThrownSoFar(all);
  }

  lemma AfterOneMore(a: seq<Units>, b: seq<Units>, last: Units)
    requires Nesting(a + b) == Nesting(b) && KeptPieces(a + b) == KeptPieces(a) + KeptPieces(b)
    requires Throws(a + b) <==> Throws(a) || Throws(b)
    ensures Nesting((a + b) + [last]) == Nesting(b + [last])
    ensures KeptPieces((a + b) + [last]) == KeptPieces(a) + KeptPieces(b + [last])
    ensures Throws((a + b) + [last]) <==> Throws(a) || Throws(b + [last])
  {
    hide StandsFor, Next, IsFaulty, Throws, Nesting, KeptPieces;
    OneMore(b, last);
    OneMore(a + b, last);
    var more := if Nesting(b) == [] && StandsFor(last).Some? then [StandsFor(last).value] else [];
    assert (KeptPieces(a) + KeptPieces(b)) + more == KeptPieces(a) + (KeptPieces(b) + more);
  }

  /** After tokens that leave no dropped element open, the rest is read as if it came first. */
  lemma {:induction false} AfterClosed(a: seq<Units>, b: seq<Units>)
    requires Nesting(a) == []
    ensures Nesting(a + b) == Nesting(b) && KeptPieces(a + b) == KeptPieces(a) + KeptPieces(b)
    ensures Throws(a + b) <==> Throws(a) || Throws(b)
    decreases |b|
  {
    hide StandsFor, Next, IsFaulty, Throws;
    if b == [] {
      assert a + b == a;
      NothingIsKept();
    } else {
      hide Nesting, KeptPieces;
      var most, last := b[..|b| - 1], b[|b| - 1];
      AfterClosed(a, most);
      AfterOneMore(a, most, last);
      assert b == most + [last] && a + b == (a + most) + [last];
    }
  }

  /** One element whose content is dropped, from its opening tag to the tag that closes it. */
  predicate IsDroppedElement(x: seq<Units>) {
    x != [] && Nesting(x) == [] && forall k :: 0 < k < |x| ==> Nesting(x[..k]) != []
  }

  lemma {:induction false} InsideIsDropped(x: seq<Units>, n: nat)
    requires n <= |x| && x != [] && OpensDropped(x[0]) && forall k :: 0 < k < |x| ==> Nesting(x[..k]) != []
    ensures KeptPieces(x[..n]) == [] && !Throws(x[..n])
  {
    hide StandsFor, OpensDropped, Next, IsFaulty, Throws;
    if n == 0 {
      NothingIsKept();
    } else {
      InsideIsDropped(x, n - 1);
      assert x[..n][..n - 1] == x[..n - 1];
      ThrownSoFar(x[..n]);
      if n == 1 {
        DroppedTagIsNothing(x[0]);
      }
    }
  }

  lemma DroppedTagIsNothing(token: Units)
    requires OpensDropped(token)
    ensures StandsFor(token).None? && !IsFaulty(token)
  {
    OpeningOrClosing(token);
    NamesApart(Opening(token).value.name);
    NamesApart(ANCHOR);
    hide Opening, Closing, SafeHref;
  }

  /** Main result: an element whose content is dropped contributes nothing, whatever is in it. */
  lemma ElementIsDropped(a: seq<Units>, x: seq<Units>, b: seq<Units>)
    requires Nesting(a) == [] && IsDroppedElement(x) && OpensDropped(x[0])
    ensures ScanAll(a + x + b) == ScanAll(a + b)
  {
    hide Nesting, KeptPieces, Throws, OpensDropped;
    InsideIsDropped(x, |x|);
    assert x[..|x|] == x;
    AfterClosed(a, x);
    AfterClosed(a + x, b);
    AfterClosed(a, b);
    ScanIsKeptPieces(a + x + b);
    ScanIsKeptPieces(a + b);
    assert KeptPieces(a) + [] == KeptPieces(a);
  }

  // ------------------------------------------------------------------ as written

  predicate Blank(s: Units) {
    forall i :: 0 <= i < |s| ==> Space(s[i])
  }

  /** One unit of a name, in either case. */
  predicate IsSpelt(u: Unit, w: Unit) {
    if 97 <= w <= 122 then u == w || u == w - 32 else 48 <= w <= 57 && u == w
  }

  /** `n` is this name, in letters of either case. */
  predicate Spells(n: Units, name: Units) {
    |n| == |name| && n != []
    && forall i :: 0 <= i < |n| ==> IsSpelt(n[i], name[i])
  }

  /** An opening tag as it may be written. */
  function OpeningText(b: Units, n: Units, attributes: Units): Units {
    [LT] + (b + (n + attributes)) + [GT]
  }

  /** A closing tag as it may be written. */
  function ClosingText(b: Units, c: Units, n: Units, d: Units): Units {
    [LT] + (b + ([SLASH] + (c + (n + d)))) + [GT]
  }

  lemma {:induction false} BlanksAreTrimmed(b: Units, s: Units)
    requires Blank(b) && (s == [] || !Space(s[0]))
    ensures TrimStart(b + s) == s
  {
    if b == [] {
      assert b + s == s;
    } else {
      assert (b + s)[1..] == b[1..] + s;
      assert forall i :: 0 <= i < |b[1..]| ==> b[1..][i] == b[i + 1];
      BlanksAreTrimmed(b[1..], s);
    }
  }

  lemma SpeltUnit(u: Unit, w: Unit)
    requires IsSpelt(u, w)
    ensures NameUnit(u) && !Space(u) && u != SLASH && u != LT && u != GT
    ensures (if u == 0x212A then 107 else Fold(u)) == w
  {
  }

  lemma {:induction false} SpelledIsRead(n: Units, name: Units, rest: Units)
    requires Spells(n, name) && (rest == [] || !NameUnit(rest[0]))
    ensures NameRun(n + rest) == |n| && Lower(n) == name && !Space(n[0]) && n[0] != SLASH
    decreases |n|
  {
    hide IsSpelt, NameUnit, Space, Fold;
    assert (n + rest)[1..] == n[1..] + rest;
    assert IsSpelt(n[0], name[0]);
    SpeltUnit(n[0], name[0]);
    assert name == [name[0]] + name[1..];
    if |n| == 1 {
      assert n[1..] == [] && [] + rest == rest && name[1..] == [];
      assert NameRun(rest) == 0 && Lower([]) == [];
    } else {
      assert forall i :: 0 <= i < |n[1..]| ==> n[1..][i] == n[i + 1] && name[1..][i] == name[i + 1];
      SpelledIsRead(n[1..], name[1..], rest);
    }
  }

  lemma InnerOf(s: Units)
    ensures Inner([LT] + s + [GT]) == Some(s)
  {
    var t := [LT] + s + [GT];
    assert t[1..|t| - 1] == s;
  }

  lemma OpensAs(b: Units, n: Units, name: Units, attributes: Units)
    requires Blank(b) && Spells(n, name) && (attributes == [] || !NameUnit(attributes[0]))
    ensures Opening(OpeningText(b, n, attributes)) == Some(Tag(name, attributes))
  {
    SpelledIsRead(n, name, attributes);
    InnerOf(b + (n + attributes));
    hide Inner, Spells, Blank;
    assert (n + attributes)[0] == n[0];
    BlanksAreTrimmed(b, n + attributes);
    assert (n + attributes)[..|n|] == n && (n + attributes)[|n|..] == attributes;
  }

  lemma ClosesAs(b: Units, c: Units, n: Units, name: Units, d: Units)
    requires Blank(b) && Blank(c) && Blank(d) && Spells(n, name)
    ensures Closing(ClosingText(b, c, n, d)) == Some(name) && Opening(ClosingText(b, c, n, d)) == None
  {
    assert d == [] || !NameUnit(d[0]);
    SpelledIsRead(n, name, d);
    var u := c + (n + d);
    InnerOf(b + ([SLASH] + u));
    hide Inner, Spells;
    assert (n + d)[0] == n[0];
    BlanksAreTrimmed(b, [SLASH] + u);
    BlanksAreTrimmed(c, n + d);
    BlanksAreTrimmed(d, []);
    assert d + [] == d && ([SLASH] + u)[1..] == u;
    assert (n + d)[..|n|] == n && (n + d)[|n|..] == d;
  }

  lemma CutsTag(inner: Units, rest: Units)
    requires GT !in inner
    ensures Tokenize(([LT] + inner + [GT]) + rest) == [[LT] + inner + [GT]] + Tokenize(rest)
  {
    var s := [LT] + inner + [GT] + rest;
    assert GT !in [LT] + inner;
    UntilStop([LT] + inner, GT, rest);
    assert s[..|inner| + 2] == [LT] + inner + [GT] && s[|inner| + 2..] == rest;
  }

  lemma TrimSplits(s: Units) returns (before: Units, after: Units)
    ensures s == before + Trim(s) + after && Blank(before) && Blank(after) && Trimmed(Trim(s))
  {
    TrimStartSuffix(s);
    TrimCuts(s);
    var t := TrimStart(s);
    TrimEndPrefix(t);
    EndCuts(t);
    TrimIsTrimmed(s);
    hide TrimStart, TrimEnd, Trimmed, Blank;
    before, after := s[..|s| - |t|], t[|TrimEnd(t)|..];
    assert s == before + t && t == TrimEnd(t) + after;
    SignatureForm.Reassociate(before, TrimEnd(t), after);
  }

  lemma OneTextToken(input: Units)
    requires LT !in input && input != []
    ensures Tokenize(input) == [input]
  {
    TokenizeText(input, []);
    TokenizeNothing();
    hide Tokenize;
    assert input + [] == input;
  }

  lemma TextIsEmitted(input: Units)
    requires LT !in input
    ensures Sanitize(input) == Some(Trim(input))
  {
    if input == [] {
      assert Tokenize(input) == [] && ScanAll([]) == Scan([], []) && Flatten([]) == [];
    } else {
      assert input[0] in input;
      OneTextToken(input);
      hide Tokenize, Step, Trim;
      StepStands([], [], input);
      TextStands(input);
      hide StandsFor, Next, IsFaulty;
      assert ScanAll([]) == Scan([], []) && [input][..0] == [];
      assert ScanAll([input]) == Step([], [], input);
      assert [] + [Plaintext(input)] == [Plaintext(input)];
      assert [Plaintext(input)][1..] == [] && input + [] == input;
      assert Flatten([Plaintext(input)]) == Render(Plaintext(input)) + Flatten([]);
    }
  }

  /** Main result: text without `<` comes back, less the white space around it. */
  lemma TextIsTrimmed(input: Units) returns (before: Units, after: Units)
    requires LT !in input
    ensures Sanitize(input).Some?
    ensures var output := Sanitize(input).value;
            input == before + output + after && Blank(before) && Blank(after) && Trimmed(output)
  {
    hide Sanitize, Trim, Trimmed, Blank;
    TextIsEmitted(input);
    before, after := TrimSplits(input);
  }

  lemma TextStands(token: Units)
    requires token == [] || token[0] != LT
    ensures StandsFor(token) == Some(Plaintext(token)) && !IsFaulty(token) && Next([], token) == []
  {
    OpeningOrClosing(token);
    hide Opening, Closing, SafeHref;
  }

  lemma {:induction false} TrimCuts(s: Units)
    ensures |TrimStart(s)| <= |s| && Blank(s[..|s| - |TrimStart(s)|])
  {
    if s != [] && Space(s[0]) {
      TrimCuts(s[1..]);
      var n := |s| - |TrimStart(s)|;
      assert s[..n] == [s[0]] + s[1..][..n - 1];
    }
  }

  lemma {:induction false} EndCuts(s: Units)
    ensures |TrimEnd(s)| <= |s| && Blank(s[|TrimEnd(s)|..])
  {
    if s != [] && Space(s[|s| - 1]) {
      var most := s[..|s| - 1];
      EndCuts(most);
      assert s[|TrimEnd(s)|..] == most[|TrimEnd(most)|..] + [s[|s| - 1]];
    }
  }

  /** The name of an element whose content is dropped. */
  predicate IsDropName(name: Units) {
    name in {Ascii("script"), Ascii("style"), Ascii("form"), Ascii("iframe"), Ascii("object")}
  }

  predicate IsAllowedName(name: Units) {
    name in {Ascii("a"), Ascii("b"), Ascii("br"), Ascii("div"), Ascii("em"), Ascii("i"), Ascii("p"), Ascii("span"),
             Ascii("strong"), Ascii("u")}
  }

  lemma NamesMean(name: Units)
    ensures IsAllowedName(name) <==> name in ALLOWED_TAGS
    ensures IsDropName(name) <==> name in DROP_WITH_CONTENT
    ensures name in VOID_TAGS <==> name == Ascii("br")
    ensures ANCHOR == Ascii("a")
  {
    NamesAreSpelled();
  }

  lemma WrittenElement(o: Units, name: Units, body: Units, e: Units)
    requires Opening(o).Some? && Opening(o).value.name == name && name in DROP_WITH_CONTENT
    requires Closing(e) == Some(name) && LT !in body
    ensures var x := [o] + (if body == [] then [] else [body]) + [e]; IsDroppedElement(x) && OpensDropped(x[0])
  {
    var middle := if body == [] then [] else [body];
    var x := [o] + middle + [e];
    OpeningOrClosing(e);
    TextStands(body);
    OpeningOrClosing(body);
    assert body != [] ==> body[0] in body;
    hide Opening, Closing, StandsFor;
    NestingOfOne(o);
    assert Nesting([o]) == [name];
    assert x[..1] == [o];
    if body == [] {
      assert x == [o] + [e];
      NestingMore([o], e);
    } else {
      assert x[..2] == [o] + [body] && x == ([o] + [body]) + [e];
      NestingMore([o], body);
      NestingMore([o] + [body], e);
    }
  }

  lemma NestingOfOne(o: Units)
    ensures Nesting([o]) == Next([], o)
  {
    hide Next;
    NestingMore([], o);
    assert [] + [o] == [o];
  }

  lemma NestingMore(tokens: seq<Units>, last: Units)
    ensures Nesting(tokens + [last]) == Next(Nesting(tokens), last)
  {
    hide Next;
    assert (tokens + [last])[..|tokens|] == tokens;
  }

  lemma NoBracketWithin(b: Units, n: Units, name: Units)
    requires Blank(b) && Spells(n, name)
    ensures GT !in b && GT !in n
  {
  }

  lemma CutsOpening(b: Units, n: Units, name: Units, attributes: Units, rest: Units)
    requires Blank(b) && Spells(n, name) && GT !in attributes
    ensures Tokenize(OpeningText(b, n, attributes) + rest) == [OpeningText(b, n, attributes)] + Tokenize(rest)
  {
    NoBracketWithin(b, n, name);
    hide Tokenize, Spells, Blank;
    CutsTag(b + (n + attributes), rest);
  }

  lemma CutsClosing(b: Units, c: Units, n: Units, name: Units, d: Units, rest: Units)
    requires Blank(b) && Blank(c) && Blank(d) && Spells(n, name)
    ensures Tokenize(ClosingText(b, c, n, d) + rest) == [ClosingText(b, c, n, d)] + Tokenize(rest)
  {
    NoBracketWithin(b, n, name);
    NoBracketWithin(c, n, name);
    NoBracketWithin(d, n, name);
    hide Tokenize, Spells, Blank;
    CutsTag(b + ([SLASH] + (c + (n + d))), rest);
  }

  lemma CutsBody(body: Units, b: Units, c: Units, n: Units, d: Units, rest: Units)
    requires LT !in body
    ensures Tokenize(body + (ClosingText(b, c, n, d) + rest))
            == (if body == [] then [] else [body]) + Tokenize(ClosingText(b, c, n, d) + rest)
  {
    var after := ClosingText(b, c, n, d) + rest;
    if body == [] {
      assert body + after == after;
    } else {
      assert after[0] == LT;
      hide Tokenize;
      TokenizeText(body, after);
    }
  }

  /** Main result: a script, a style, a form, an iframe or an object goes with all the text in it. */
  lemma DroppedElementIsNothing(name: Units, b: Units, n: Units, attributes: Units, body: Units, c: Units, d: Units,
      m: Units, e: Units, rest: Units)
    requires IsDropName(name) && Spells(n, name) && Spells(m, name)
    requires Blank(b) && Blank(c) && Blank(d) && Blank(e)
    requires GT !in attributes && (attributes == [] || !NameUnit(attributes[0])) && LT !in body
    ensures Sanitize(OpeningText(b, n, attributes) + body + ClosingText(c, d, m, e) + rest) == Sanitize(rest)
  {
    hide Tokenize, Spells, Blank, Opening, Closing, OpeningText, ClosingText, IsDroppedElement, OpensDropped, Nesting;
    hide IsDropName;
    NamesMean(name);
    var o, x := OpeningText(b, n, attributes), ClosingText(c, d, m, e);
    var middle := if body == [] then [] else [body];
    OpensAs(b, n, name, attributes);
    ClosesAs(c, d, m, name, e);
    CutsOpening(b, n, name, attributes, body + (x + rest));
    CutsBody(body, c, d, m, e, rest);
    CutsClosing(c, d, m, name, e, rest);
    assert o + body + x + rest == o + (body + (x + rest));
    var tokens := Tokenize(rest);
    assert [o] + (middle + ([x] + tokens)) == [] + ([o] + middle + [x]) + tokens;
    WrittenElement(o, name, body, x);
    NothingIsNested();
    ElementIsDropped([], [o] + middle + [x], tokens);
    assert [] + tokens == tokens;
  }

  lemma NothingIsNested()
    ensures Nesting([]) == []
  {
  }

  /** Main result: any other tag, written in whatever way, becomes its canonical form if it is allowed, or nothing. */
  lemma OpeningTagStands(name: Units, b: Units, n: Units, attributes: Units, rest: Units)
    requires !IsDropName(name) && Spells(n, name) && Blank(b)
    requires GT !in attributes && (attributes == [] || !NameUnit(attributes[0]))
    requires name == Ascii("a") ==> SafeHref(attributes).Some?
    requires Sanitize(rest).Some?
    ensures Sanitize(OpeningText(b, n, attributes) + rest).Some?
    ensures Emitted(OpeningText(b, n, attributes) + rest)
            == (if IsAllowedName(name)
                then [Open(name, if name == Ascii("a") then SafeHref(attributes).value else None)] else [])
               + Emitted(rest)
  {
    hide Tokenize, Spells, Blank, Opening, Closing, OpeningText, Nesting, SafeHref, Throws, IsAllowedName, IsDropName;
    NamesMean(name);
    OpensAs(b, n, name, attributes);
    CutsOpening(b, n, name, attributes, rest);
    OneTokenFirst(OpeningText(b, n, attributes), Tokenize(rest));
    OpeningOrClosing(OpeningText(b, n, attributes));
  }

  lemma OneTokenFirst(token: Units, rest: seq<Units>)
    requires Next([], token) == [] && !IsFaulty(token)
    ensures ScanAll(rest).Scan? ==>
              ScanAll([token] + rest).Scan?
              && ScanAll([token] + rest).pieces
                 == (if StandsFor(token).Some? then [StandsFor(token).value] else []) + ScanAll(rest).pieces
  {
    hide Next, StandsFor, IsFaulty, Throws;
    NestingOfOne(token);
    NothingIsKept();
    OneMore([], token);
    assert [] + [token] == [token] && KeptPieces([]) == [];
    assert [] + (if StandsFor(token).Some? then [StandsFor(token).value] else [])
           == if StandsFor(token).Some? then [StandsFor(token).value] else [];
    AfterClosed([token], rest);
    ScanIsKeptPieces([token] + rest);
    ScanIsKeptPieces(rest);
  }

  lemma ClosingTagStands(name: Units, b: Units, c: Units, n: Units, d: Units, rest: Units)
    requires Spells(n, name) && Blank(b) && Blank(c) && Blank(d) && Sanitize(rest).Some?
    ensures Sanitize(ClosingText(b, c, n, d) + rest).Some?
    ensures Emitted(ClosingText(b, c, n, d) + rest)
            == (if IsAllowedName(name) && name != Ascii("br") then [Close(name)] else []) + Emitted(rest)
  {
    hide Tokenize, Spells, Blank, Opening, Closing, ClosingText, Nesting, Throws, IsAllowedName;
    NamesMean(name);
    ClosesAs(b, c, n, name, d);
    CutsClosing(b, c, n, name, d, rest);
    OneTokenFirst(ClosingText(b, c, n, d), Tokenize(rest));
    OpeningOrClosing(ClosingText(b, c, n, d));
  }

  // ------------------------------------------------------------------ links

  /** `s` begins with `word`, a letter in either case; under the flags i and u the long s, U+017F, is an s. */
  predicate BeginsAs(s: Units, word: Units) {
    |word| <= |s|
    && forall i :: 0 <= i < |word| ==>
         s[i] == word[i] || (97 <= word[i] <= 122 && s[i] == word[i] - 32) || (word[i] == 115 && s[i] == 0x17F)
  }

  /** A link is emitted only with one of three schemes. */
  lemma SchemeIsSpelled(s: Units)
    ensures SafeScheme(s)
            <==> BeginsAs(s, Ascii("http:")) || BeginsAs(s, Ascii("https:")) || BeginsAs(s, Ascii("mailto:"))
  {
    assert Ascii("http:") == [104, 116, 116, 112, 58] && Ascii("https:") == [104, 116, 116, 112, 115, 58];
    assert Ascii("mailto:") == [109, 97, 105, 108, 116, 111, 58];
    hide Ascii;
    FoldedBegins(s, [104, 116, 116, 112, 58]);
    FoldedBegins(s, [109, 97, 105, 108, 116, 111, 58]);
    FoldedBegins(s, [104, 116, 116, 112]);
    HttpsBegins(s);
  }

  lemma FoldedBegins(s: Units, word: Units)
    requires 115 !in word && forall i :: 0 <= i < |word| ==> word[i] < 65 || 97 <= word[i] <= 122
    ensures StartsFolded(s, word) <==> BeginsAs(s, word)
  {
    assert forall i :: 0 <= i < |word| ==> word[i] in word;
  }

  lemma HttpsBegins(s: Units)
    ensures BeginsAs(s, [104, 116, 116, 112, 115, 58])
            <==> StartsFolded(s, [104, 116, 116, 112, 115, 58])
                 || (|s| >= 6 && StartsFolded(s, [104, 116, 116, 112]) && s[4] == 0x17F && s[5] == 58)
  {
    var w: Units := [104, 116, 116, 112, 115, 58];
    var v: Units := [104, 116, 116, 112];
    assert w[0] == 104 && w[1] == 116 && w[2] == 116 && w[3] == 112 && w[4] == 115 && w[5] == 58;
    assert forall i :: 0 <= i < 4 ==> v[i] == w[i];
  }
}
