/**
 signatures/index.ts `sanitizeSignatureHtml`: cut the input into tags and text, keep the allowed tags in a
 canonical form, and join.  The output cut again gives the same tags and text.
 */
module Signature {
  import opened JsonText
  import opened SignatureAttributes
  import opened Options

  const SLASH: Unit := 47

  /** a, b, br, div, em, i, p, span, strong, u */
  const ALLOWED_TAGS: set<Units> := {
    [97], [98], [98, 114], [100, 105, 118], [101, 109], [105], [112], [115, 112, 97, 110],
        [115, 116, 114, 111, 110, 103], [117]}
  const VOID_TAGS: set<Units> := {[98, 114]}
  /** script, style, form, iframe, object */
  const DROP_WITH_CONTENT: set<Units> := {
    [115, 99, 114, 105, 112, 116], [115, 116, 121, 108, 101], [102, 111, 114, 109], [105, 102, 114, 97, 109, 101],
        [111, 98, 106, 101, 99, 116]}

  const ANCHOR: Units := [97]

  // ------------------------------------------------------------------ cutting

  /** input.match(/<[^>]*>|[^<]+/gu): a `<` that no `>` follows matches nothing and is passed over. */
  function Tokenize(s: Units): seq<Units>
    decreases |s|
  {
    if s == [] then []
    else if s[0] == LT then
      var n := Until(s, GT);
      if n < |s| then [s[..n + 1]] + Tokenize(s[n + 1..]) else Tokenize(s[1..])
    else
      var n := Until(s, LT);
      [s[..n]] + Tokenize(s[n..])
  }

  /** [a-z0-9] under the flags i and u. */
  predicate NameUnit(u: Unit) {
    48 <= u <= 57 || 65 <= u <= 90 || 97 <= u <= 122 || u == 0x17F || u == 0x212A
  }

  function NameRun(s: Units): (n: nat)
    ensures n <= |s|
  {
    if s == [] || !NameUnit(s[0]) then 0 else 1 + NameRun(s[1..])
  }

  /** toLowerCase on the units a name can have. */
  function Lower(s: Units): Units {
    if s == [] then [] else [if s[0] == 0x212A then 107 else Fold(s[0])] + Lower(s[1..])
  }

  datatype Tag = Tag(name: Units, attributes: Units)

  function Inner(token: Units): Option<Units> {
    if |token| >= 2 && token[0] == LT && token[|token| - 1] == GT then Some(token[1..|token| - 1]) else None
  }

  /** /^<\s*([a-z0-9]+)([^>]*)>$/iu */
  function Opening(token: Units): Option<Tag> {
    if Inner(token) == None then None
    else
      var t := TrimStart(Inner(token).value);
      var n := NameRun(t);
      if n == 0 then None else Some(Tag(Lower(t[..n]), t[n..]))
  }

  /** /^<\s*\/\s*([a-z0-9]+)\s*>$/iu */
  function Closing(token: Units): Option<Units> {
    if Inner(token) == None then None
    else
      var t := TrimStart(Inner(token).value);
      if t == [] || t[0] != SLASH then None
      else
        var u := TrimStart(t[1..]);
        var n := NameRun(u);
        if n == 0 || TrimStart(u[n..]) != [] then None else Some(Lower(u[..n]))
  }

  // ------------------------------------------------------------------ keeping

  datatype Piece = Open(tag: Units, href: Option<Units>) | Close(tag: Units) | Plaintext(units: Units)

  function Render(p: Piece): Units {
    match p
    case Open(tag, href) => [LT] + tag + (if href.Some? then EmittedAttributes(Escape(href.value)) else []) + [GT]
    case Close(tag) => [LT, SLASH] + tag + [GT]
    case Plaintext(units) => units
  }

  /** `Thrown`: a character reference in an href was out of range. */
  datatype Scan = Scan(pieces: seq<Piece>, dropped: seq<Units>) | Thrown

  function StepOpening(pieces: seq<Piece>, dropped: seq<Units>, tag: Tag): Scan {
    if tag.name in DROP_WITH_CONTENT then Scan(pieces, dropped + [tag.name])
    else if dropped != [] || tag.name !in ALLOWED_TAGS then Scan(pieces, dropped)
    else if tag.name == ANCHOR then
      var href := SafeHref(tag.attributes);
      if href == None then Thrown else Scan(pieces + [Open(ANCHOR, href.value)], dropped)
    else Scan(pieces + [Open(tag.name, None)], dropped)
  }

  function StepClosing(pieces: seq<Piece>, dropped: seq<Units>, name: Units): Scan {
    if dropped != [] && dropped[|dropped| - 1] == name then Scan(pieces, dropped[..|dropped| - 1])
    else if dropped == [] && name in ALLOWED_TAGS && name !in VOID_TAGS then Scan(pieces + [Close(name)], dropped)
    else Scan(pieces, dropped)
  }

  function Step(pieces: seq<Piece>, dropped: seq<Units>, token: Units): Scan {
    if Opening(token).Some? then StepOpening(pieces, dropped, Opening(token).value)
    else if Closing(token).Some? then StepClosing(pieces, dropped, Closing(token).value)
    else if dropped == [] && (token == [] || token[0] != LT) then Scan(pieces + [Plaintext(token)], dropped)
    else Scan(pieces, dropped)
  }

  function ScanAll(tokens: seq<Units>): Scan
    decreases |tokens|
  {
    if tokens == [] then Scan([], [])
    else
      var s := ScanAll(tokens[..|tokens| - 1]);
      if s.Thrown? then Thrown else Step(s.pieces, s.dropped, tokens[|tokens| - 1])
  }

  function Flatten(pieces: seq<Piece>): Units {
    if pieces == [] then [] else Render(pieces[0]) + Flatten(pieces[1..])
  }

  /** None when the function throws. */
  function Sanitize(input: Units): Option<Units> {
    var s := ScanAll(Tokenize(input));
    if s.Thrown? then None else Some(Trim(Flatten(s.pieces)))
  }

  lemma {:induction false} FlattenSnoc(pieces: seq<Piece>, p: Piece)
    ensures Flatten(pieces + [p]) == Flatten(pieces) + Render(p)
  {
    if pieces == [] {
      assert Flatten([p]) == Render(p) + [];
    } else {
      assert (pieces + [p])[1..] == pieces[1..] + [p];
      FlattenSnoc(pieces[1..], p);
    }
  }

  lemma {:induction false} ThrownStays(tokens: seq<Units>, n: nat)
    requires n <= |tokens| && ScanAll(tokens[..n]).Thrown?
    ensures ScanAll(tokens).Thrown?
    decreases |tokens|
  {
    if n < |tokens| {
      assert tokens[..|tokens| - 1][..n] == tokens[..n];
      ThrownStays(tokens[..|tokens| - 1], n);
    } else {
      assert tokens[..n] == tokens;
    }
  }

  /** The loop of `sanitizeSignatureHtml`; `result` is what it joins at the end. */
  method SanitizeSignatureHtml(input: Units) returns (output: Option<Units>)
    ensures output == Sanitize(input)
  {
    var tokens := Tokenize(input);
    var result: Units := [];
    var dropped: seq<Units> := [];
    ghost var pieces: seq<Piece> := [];
    var i := 0;
    while i < |tokens|
      invariant 0 <= i <= |tokens|
      invariant ScanAll(tokens[..i]) == Scan(pieces, dropped) && result == Flatten(pieces)
    {
      var token := tokens[i];
      assert tokens[..i + 1][..i] == tokens[..i];
      var opening, closing := Opening(token), Closing(token);
      if opening.Some? {
        var tag := opening.value.name;
        if tag in DROP_WITH_CONTENT {
          dropped := dropped + [tag];
        } else if dropped == [] && tag in ALLOWED_TAGS {
          var href := None;
          if tag == ANCHOR {
            var found := SafeHref(opening.value.attributes);
            if found == None {
              ThrownStays(tokens, i + 1);
              return None;
            }
            href := found.value;
          }
          FlattenSnoc(pieces, Open(tag, href));
          result, pieces := result + Render(Open(tag, href)), pieces + [Open(tag, href)];
        }
      } else if closing.Some? {
        var tag := closing.value;
        if dropped != [] && dropped[|dropped| - 1] == tag {
          dropped := dropped[..|dropped| - 1];
        } else if dropped == [] && tag in ALLOWED_TAGS && tag !in VOID_TAGS {
          FlattenSnoc(pieces, Close(tag));
          result, pieces := result + Render(Close(tag)), pieces + [Close(tag)];
        }
      } else if dropped == [] && (token == [] || token[0] != LT) {
        FlattenSnoc(pieces, Plaintext(token));
        result, pieces := result + token, pieces + [Plaintext(token)];
      }
      i := i + 1;
    }
    assert tokens[..i] == tokens;
    output := Some(Trim(result));
  }
}
