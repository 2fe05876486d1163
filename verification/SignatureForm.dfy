/** The output of `sanitizeSignatureHtml` is in a normal form, and when sanitizing it again changes nothing. */
module SignatureForm {
  import opened JsonText
  import opened SignatureAttributes
  import opened Signature
  import opened Options

  // ------------------------------------------------------------------ what is emitted

  predicate PieceOk(p: Piece) {
    match p
    case Open(tag, href) => tag in ALLOWED_TAGS && (href.Some? ==> tag == ANCHOR && Emittable(href.value))
    case Close(tag) => tag in ALLOWED_TAGS && tag !in VOID_TAGS
    case Plaintext(units) => LT !in units
  }

  predicate AllOk(pieces: seq<Piece>) {
    forall p :: p in pieces ==> PieceOk(p)
  }

  predicate TokenOk(token: Units) {
    token != [] && (token[0] != LT ==> LT !in token)
  }

  lemma {:induction false} TokensOk(s: Units)
    ensures forall t :: t in Tokenize(s) ==> TokenOk(t)
    decreases |s|
  {
    if s != [] {
      if s[0] == LT {
        var n := Until(s, GT);
        if n < |s| { TokensOk(s[n + 1..]); } else { TokensOk(s[1..]); }
      } else {
        var n := Until(s, LT);
        TokensOk(s[n..]);
        assert LT !in s[..n];
      }
    }
  }

  lemma {:induction false} ScannedOk(tokens: seq<Units>)
    requires forall t :: t in tokens ==> TokenOk(t)
    ensures ScanAll(tokens).Scan? ==> AllOk(ScanAll(tokens).pieces)
    decreases |tokens|
  {
    if tokens != [] {
      var most, last := tokens[..|tokens| - 1], tokens[|tokens| - 1];
      assert last in tokens && forall t :: t in most ==> t in tokens;
      ScannedOk(most);
      if Opening(last).Some? { SafeHrefIsEmittable(Opening(last).value.attributes); }
      hide SafeHref, Opening, Closing, Emittable;
    }
  }

  // ------------------------------------------------------------------ cutting what was rendered

  predicate LowerCase(tag: Units) {
    tag != [] && forall i :: 0 <= i < |tag| ==> 97 <= tag[i] <= 122
  }

  lemma AllowedIsLowerCase(tag: Units)
    requires tag in ALLOWED_TAGS
    ensures LowerCase(tag)
  {
  }

  /** What stands between the brackets of a rendered tag. */
  function Between(p: Piece): Units
    requires !p.Plaintext?
  {
    match p
    case Open(tag, href) => tag + (if href.Some? then EmittedAttributes(Escape(href.value)) else [])
    case Close(tag) => [SLASH] + tag
  }

  lemma RenderIsBracketed(p: Piece)
    requires !p.Plaintext? && PieceOk(p)
    ensures Render(p) == [LT] + Between(p) + [GT] && Between(p) != []
    ensures LT !in Between(p) && GT !in Between(p)
  {
    AllowedIsLowerCase(p.tag);
    assert LT !in p.tag && GT !in p.tag;
    hide Escape, Emittable, LowerCase;
    if p.Open? && p.href.Some? {
      EscapeSettles(p.href.value);
      AttributesHaveNoBrackets(Escape(p.href.value));
      hide EmittedAttributes;
      assert Render(p) == [LT] + p.tag + EmittedAttributes(Escape(p.href.value)) + [GT];
    } else if p.Open? {
      assert Between(p) == p.tag;
    } else {
      assert Render(p) == [LT] + ([SLASH] + p.tag) + [GT];
    }
  }

  lemma AttributesHaveNoBrackets(e: Units)
    requires forall u :: u in e ==> u != LT && u != GT
    ensures LT !in EmittedAttributes(e) && GT !in EmittedAttributes(e)
  {
  }

  lemma TokenizeTag(p: Piece, rest: Units)
    requires !p.Plaintext? && PieceOk(p)
    ensures Tokenize(Render(p) + rest) == [Render(p)] + Tokenize(rest)
  {
    RenderIsBracketed(p);
    var b := Between(p);
    hide Between, PieceOk, Render;
    var s := [LT] + b + [GT] + rest;
    assert GT !in [LT] + b;
    UntilStop([LT] + b, GT, rest);
    assert s[..|b| + 2] == [LT] + b + [GT] && s[|b| + 2..] == rest;
  }

  lemma TokenizeText(t: Units, rest: Units)
    requires t != [] && LT !in t && (rest == [] || rest[0] == LT)
    ensures Tokenize(t + rest) == [t] + Tokenize(rest)
  {
    var s := t + rest;
    assert s[0] == t[0] && t[0] in t;
    if rest == [] {
      assert s == t;
      NoStop(t, LT);
      assert t[..|t|] == t && t[|t|..] == [];
    } else {
      assert t + [LT] + rest[1..] == s;
      UntilStop(t, LT, rest[1..]);
      assert s[..|t|] == t && s[|t|..] == rest;
    }
  }

  lemma {:induction false} NoStop(t: Units, stop: Unit)
    requires stop !in t
    ensures Until(t, stop) == |t|
  {
    if t != [] {
      assert t[0] in t && forall u :: u in t[1..] ==> u in t;
      NoStop(t[1..], stop);
    }
  }

  function Closed(pending: Units): seq<Piece> {
    if pending == [] then [] else [Plaintext(pending)]
  }

  /** Neighbouring text runs together; empty text disappears.  `pending` is text not yet closed off. */
  function Merge(pending: Units, pieces: seq<Piece>): seq<Piece>
    decreases |pieces|
  {
    if pieces == [] then Closed(pending)
    else if pieces[0].Plaintext? then Merge(pending + pieces[0].units, pieces[1..])
    else Closed(pending) + [pieces[0]] + Merge([], pieces[1..])
  }

  function Renders(pieces: seq<Piece>): seq<Units> {
    if pieces == [] then [] else [Render(pieces[0])] + Renders(pieces[1..])
  }

  lemma {:induction false} RendersConcat(a: seq<Piece>, b: seq<Piece>)
    ensures Renders(a + b) == Renders(a) + Renders(b)
  {
    if a == [] {
      assert [] + b == b;
    } else {
      assert (a + b)[1..] == a[1..] + b;
      RendersConcat(a[1..], b);
    }
  }

  lemma FlattenStart(pieces: seq<Piece>)
    requires AllOk(pieces) && pieces != [] && !pieces[0].Plaintext?
    ensures Flatten(pieces) != [] && Flatten(pieces)[0] == LT
  {
    RenderIsBracketed(pieces[0]);
  }

  /** Cutting rendered pieces gives the pieces back, text merged. */
  lemma {:induction false} TokenizeFlatten(pending: Units, pieces: seq<Piece>)
    requires LT !in pending && AllOk(pieces)
    ensures Tokenize(pending + Flatten(pieces)) == Renders(Merge(pending, pieces))
    decreases |pieces|
  {
    hide Tokenize;
    if pieces == [] {
      assert pending + [] == pending;
      if pending != [] {
        TokenizeText(pending, []);
      }
      TokenizeNothing();
    } else {
      var rest := Flatten(pieces[1..]);
      assert AllOk(pieces[1..]);
      if pieces[0].Plaintext? {
        assert pieces[0] in pieces;
        assert pending + (pieces[0].units + rest) == (pending + pieces[0].units) + rest;
        TokenizeFlatten(pending + pieces[0].units, pieces[1..]);
      } else {
        TokenizeFlatten([], pieces[1..]);
        assert [] + rest == rest;
        TokenizeTag(pieces[0], rest);
        if pending != [] {
          FlattenStart(pieces);
          TokenizeText(pending, Flatten(pieces));
          RendersConcat([Plaintext(pending), pieces[0]], Merge([], pieces[1..]));
        } else {
          assert [] + Flatten(pieces) == Flatten(pieces);
        }
        MergeRenders(pending, pieces);
      }
    }
  }

  lemma TokenizeNothing()
    ensures Tokenize([]) == []
  {
  }

  lemma MergeRenders(pending: Units, pieces: seq<Piece>)
    requires pieces != [] && !pieces[0].Plaintext?
    ensures Renders(Merge(pending, pieces))
            == (if pending == [] then [] else [pending]) + ([Render(pieces[0])] + Renders(Merge([], pieces[1..])))
  {
    var closed := if pending == [] then [] else [Plaintext(pending)];
    RendersConcat(closed, [pieces[0]] + Merge([], pieces[1..]));
    assert closed + [pieces[0]] + Merge([], pieces[1..]) == closed + ([pieces[0]] + Merge([], pieces[1..]));
  }

  // ------------------------------------------------------------------ scanning what was rendered

  /** A link whose href is decoded and escaped once more; anything else stays as it is. */
  function Again(p: Piece): Piece {
    if p.Open? && p.href.Some? then p.(href := Some(Escape(p.href.value))) else p
  }

  function AgainAll(pieces: seq<Piece>): seq<Piece> {
    if pieces == [] then [] else [Again(pieces[0])] + AgainAll(pieces[1..])
  }

  lemma {:induction false} LowerKeeps(tag: Units)
    requires forall i :: 0 <= i < |tag| ==> 97 <= tag[i] <= 122
    ensures Lower(tag) == tag
  {
    if tag != [] {
      LowerKeeps(tag[1..]);
    }
  }

  lemma {:induction false} NameRunStops(tag: Units, rest: Units)
    requires forall i :: 0 <= i < |tag| ==> 97 <= tag[i] <= 122
    requires rest == [] || !NameUnit(rest[0])
    ensures NameRun(tag + rest) == |tag|
  {
    if tag == [] {
      assert tag + rest == rest;
    } else {
      assert (tag + rest)[1..] == tag[1..] + rest;
      NameRunStops(tag[1..], rest);
    }
  }

  lemma InnerOfRendered(p: Piece)
    requires !p.Plaintext? && PieceOk(p)
    ensures Inner(Render(p)) == Some(Between(p))
  {
    RenderIsBracketed(p);
    hide Between, PieceOk, Render;
    var r := [LT] + Between(p) + [GT];
    assert r[1..|r| - 1] == Between(p);
  }

  lemma OpeningOfRendered(p: Piece)
    requires p.Open? && PieceOk(p)
    ensures Opening(Render(p)) == Some(Tag(p.tag, if p.href.Some? then EmittedAttributes(Escape(p.href.value)) else []))
  {
    InnerOfRendered(p);
    AllowedIsLowerCase(p.tag);
    var rest := if p.href.Some? then EmittedAttributes(Escape(p.href.value)) else [];
    assert rest == [] || rest[0] == 32;
    hide Render, PieceOk, Escape, EmittedAttributes, Inner;
    var b := p.tag + rest;
    assert b[0] == p.tag[0];
    assert TrimStart(b) == b;
    NameRunStops(p.tag, rest);
    LowerKeeps(p.tag);
    assert b[..|p.tag|] == p.tag && b[|p.tag|..] == rest;
  }

  lemma ClosingOfRendered(p: Piece)
    requires p.Close? && PieceOk(p)
    ensures Opening(Render(p)) == None && Closing(Render(p)) == Some(p.tag)
  {
    InnerOfRendered(p);
    AllowedIsLowerCase(p.tag);
    hide Render, PieceOk, Inner;
    var b := [SLASH] + p.tag;
    assert TrimStart(b) == b && b[1..] == p.tag;
    assert NameRun(b) == 0;
    assert TrimStart(p.tag) == p.tag;
    NameRunStops(p.tag, []);
    assert p.tag + [] == p.tag;
    LowerKeeps(p.tag);
    assert p.tag[..|p.tag|] == p.tag && p.tag[|p.tag|..] == [];
  }

  lemma AllowedIsNotDropped(tag: Units)
    requires tag in ALLOWED_TAGS
    ensures tag !in DROP_WITH_CONTENT
  {
  }

  lemma StepRendered(pieces: seq<Piece>, p: Piece)
    requires PieceOk(p)
    ensures Step(pieces, [], Render(p)) == Scan(pieces + [Again(p)], [])
  {
    match p
    case Open(tag, href) =>
      OpeningOfRendered(p);
      AllowedIsNotDropped(tag);
      if href.Some? {
        EscapeKeepsEmittable(href.value);
        EscapeSettles(href.value);
        EmittedHrefIsFound(Escape(href.value));
        assert SafeHref(EmittedAttributes(Escape(href.value))) == Some(Some(Escape(href.value)));
      } else {
        NoHref();
      }
      hide Opening, Closing, Render, SafeHref, Escape, EmittedAttributes, Emittable;
    case Close(tag) =>
      ClosingOfRendered(p);
      hide Opening, Closing, Render;
    case Plaintext(units) =>
      assert units != [] ==> units[0] in units;
      assert Inner(units) == None;
  }

  lemma NoHref()
    ensures SafeHref([]) == Some(None)
  {
  }

  lemma {:induction false} ScanRendered(pieces: seq<Piece>)
    requires AllOk(pieces)
    ensures ScanAll(Renders(pieces)) == Scan(AgainAll(pieces), [])
    decreases |pieces|
  {
    hide Step, Render, Again;
    if pieces != [] {
      var most, last := pieces[..|pieces| - 1], pieces[|pieces| - 1];
      assert pieces == most + [last] && last in pieces;
      ScanRendered(most);
      RendersConcat(most, [last]);
      assert Renders([last]) == [Render(last)];
      var tokens := Renders(most) + [Render(last)];
      assert tokens[..|tokens| - 1] == Renders(most);
      StepRendered(AgainAll(most), last);
      AgainSnoc(most, last);
    }
  }

  lemma {:induction false} AgainSnoc(pieces: seq<Piece>, p: Piece)
    ensures AgainAll(pieces + [p]) == AgainAll(pieces) + [Again(p)]
  {
    if pieces == [] {
      assert AgainAll([p]) == [Again(p)];
    } else {
      assert (pieces + [p])[1..] == pieces[1..] + [p];
      AgainSnoc(pieces[1..], p);
    }
  }

  lemma {:induction false} MergeOk(pending: Units, pieces: seq<Piece>)
    requires LT !in pending && AllOk(pieces)
    ensures AllOk(Merge(pending, pieces))
    decreases |pieces|
  {
    if pieces != [] {
      assert pieces[0] in pieces && AllOk(pieces[1..]);
      if pieces[0].Plaintext? {
        MergeOk(pending + pieces[0].units, pieces[1..]);
      } else {
        MergeOk([], pieces[1..]);
      }
    }
  }

  lemma {:induction false} FlattenConcat(a: seq<Piece>, b: seq<Piece>)
    ensures Flatten(a + b) == Flatten(a) + Flatten(b)
  {
    if a == [] {
      assert [] + b == b;
    } else {
      assert (a + b)[1..] == a[1..] + b;
      FlattenConcat(a[1..], b);
    }
  }

  lemma {:induction false} AgainConcat(a: seq<Piece>, b: seq<Piece>)
    ensures AgainAll(a + b) == AgainAll(a) + AgainAll(b)
  {
    if a == [] {
      assert [] + b == b;
    } else {
      assert (a + b)[1..] == a[1..] + b;
      AgainConcat(a[1..], b);
    }
  }

  lemma ClosedFlattens(pending: Units)
    ensures Flatten(Closed(pending)) == pending && AgainAll(Closed(pending)) == Closed(pending)
  {
    if pending != [] {
      assert Flatten([Plaintext(pending)]) == pending + [];
    }
  }

  lemma MergeAtTag(pending: Units, p: Piece, rest: seq<Piece>)
    ensures Flatten(Closed(pending) + [p] + rest) == pending + (Render(p) + Flatten(rest))
    ensures Flatten(AgainAll(Closed(pending) + [p] + rest)) == pending + (Render(Again(p)) + Flatten(AgainAll(rest)))
  {
    hide Render, Again;
    ClosedFlattens(pending);
    var c := Closed(pending);
    hide Closed;
    assert c + [p] + rest == c + ([p] + rest);
    FlattenConcat(c, [p] + rest);
    AgainConcat(c, [p] + rest);
    FlattenConcat(c, AgainAll([p] + rest));
    assert ([p] + rest)[1..] == rest;
    assert AgainAll([p] + rest) == [Again(p)] + AgainAll(rest);
    assert ([Again(p)] + AgainAll(rest))[1..] == AgainAll(rest);
  }

  lemma Reassociate(a: Units, b: Units, c: Units)
    ensures a + (b + c) == (a + b) + c
  {
  }

  /** Merging text does not change what is rendered. */
  lemma {:induction false} MergeFlattens(pending: Units, pieces: seq<Piece>)
    ensures Flatten(Merge(pending, pieces)) == pending + Flatten(pieces)
    decreases |pieces|
  {
    if pieces == [] {
      ClosedFlattens(pending);
      assert pending + [] == pending;
    } else {
      var p, tail := pieces[0], pieces[1..];
      if p.Plaintext? {
        MergeFlattens(pending + p.units, tail);
        Reassociate(pending, p.units, Flatten(tail));
      } else {
        MergeFlattens([], tail);
        hide Render, Again;
        assert [] + Flatten(tail) == Flatten(tail);
        MergeAtTag(pending, p, Merge([], tail));
      }
    }
  }

  /** Nor what is rendered when it is sanitized again. */
  lemma {:induction false} MergeFlattensAgain(pending: Units, pieces: seq<Piece>)
    ensures Flatten(AgainAll(Merge(pending, pieces))) == pending + Flatten(AgainAll(pieces))
    decreases |pieces|
  {
    if pieces == [] {
      ClosedFlattens(pending);
      assert pending + [] == pending;
    } else {
      var p, tail := pieces[0], pieces[1..];
      AgainFlattens(p, tail, pieces);
      if p.Plaintext? {
        MergeFlattensAgain(pending + p.units, tail);
        hide AgainAll;
        Reassociate(pending, p.units, Flatten(AgainAll(tail)));
      } else {
        MergeFlattensAgain([], tail);
        hide AgainAll, Render, Again;
        assert [] + Flatten(AgainAll(tail)) == Flatten(AgainAll(tail));
        MergeAtTag(pending, p, Merge([], tail));
      }
    }
  }

  lemma AgainFlattens(p: Piece, tail: seq<Piece>, pieces: seq<Piece>)
    requires pieces != [] && pieces[0] == p && pieces[1..] == tail
    ensures Flatten(AgainAll(pieces)) == Render(Again(p)) + Flatten(AgainAll(tail))
  {
    hide Render, Again;
    assert AgainAll(pieces) == [Again(p)] + AgainAll(tail);
    assert ([Again(p)] + AgainAll(tail))[1..] == AgainAll(tail);
  }

  // ------------------------------------------------------------------ the tags among pieces and tokens

  function Tags(pieces: seq<Piece>): seq<Piece> {
    if pieces == [] then []
    else if pieces[0].Plaintext? then Tags(pieces[1..])
    else [pieces[0]] + Tags(pieces[1..])
  }

  function TagTokens(tokens: seq<Units>): seq<Units> {
    if tokens == [] then []
    else if tokens[0] != [] && tokens[0][0] == LT then [tokens[0]] + TagTokens(tokens[1..])
    else TagTokens(tokens[1..])
  }

  function Join(tokens: seq<Units>): Units {
    if tokens == [] then [] else tokens[0] + Join(tokens[1..])
  }

  lemma {:induction false} TagsConcat(a: seq<Piece>, b: seq<Piece>)
    ensures Tags(a + b) == Tags(a) + Tags(b)
  {
    if a == [] {
      assert [] + b == b;
    } else {
      assert (a + b)[1..] == a[1..] + b;
      TagsConcat(a[1..], b);
    }
  }

  lemma {:induction false} MergeKeepsTags(pending: Units, pieces: seq<Piece>)
    ensures Tags(Merge(pending, pieces)) == Tags(pieces)
    decreases |pieces|
  {
    assert Tags(Closed(pending)) == [];
    if pieces != [] {
      if pieces[0].Plaintext? {
        MergeKeepsTags(pending + pieces[0].units, pieces[1..]);
      } else {
        MergeKeepsTags([], pieces[1..]);
        var rest := Merge([], pieces[1..]);
        assert Closed(pending) + [pieces[0]] + rest == Closed(pending) + ([pieces[0]] + rest);
        TagsConcat(Closed(pending), [pieces[0]] + rest);
        assert ([pieces[0]] + rest)[1..] == rest;
      }
    }
  }

  /** Rendered pieces, read as tokens: tags render to tag tokens, text to text tokens. */
  lemma {:induction false} RenderedTokens(pieces: seq<Piece>)
    requires AllOk(pieces)
    ensures TagTokens(Renders(pieces)) == Renders(Tags(pieces)) && Join(Renders(pieces)) == Flatten(pieces)
  {
    if pieces != [] {
      var p := pieces[0];
      assert p in pieces && AllOk(pieces[1..]);
      RenderedTokens(pieces[1..]);
      if p.Plaintext? {
        assert Render(p) != [] ==> Render(p)[0] in p.units;
      } else {
        RenderIsBracketed(p);
        hide Render, Between;
        assert Renders(pieces)[1..] == Renders(pieces[1..]);
        assert Tags(pieces) == [p] + Tags(pieces[1..]);
      }
    }
  }

  // ------------------------------------------------------------------ trimming pieces

  lemma {:induction false} TrimStartConcat(t: Units, rest: Units)
    ensures TrimStart(t + rest) == if TrimStart(t) == [] then TrimStart(rest) else TrimStart(t) + rest
  {
    if t == [] {
      assert t + rest == rest;
    } else {
      assert (t + rest)[1..] == t[1..] + rest;
      TrimStartConcat(t[1..], rest);
    }
  }

  lemma {:induction false} TrimEndConcat(rest: Units, t: Units)
    ensures TrimEnd(rest + t) == if TrimEnd(t) == [] then TrimEnd(rest) else rest + TrimEnd(t)
    decreases |t|
  {
    if t == [] {
      assert rest + t == rest;
    } else {
      var most := t[..|t| - 1];
      assert (rest + t)[..|rest + t| - 1] == rest + most;
      TrimEndConcat(rest, most);
    }
  }

  function TrimPiecesStart(pieces: seq<Piece>): seq<Piece>
    decreases |pieces|
  {
    if pieces == [] || !pieces[0].Plaintext? then pieces
    else
      var t := TrimStart(pieces[0].units);
      if t == [] then TrimPiecesStart(pieces[1..]) else [Plaintext(t)] + pieces[1..]
  }

  function TrimPiecesEnd(pieces: seq<Piece>): seq<Piece>
    decreases |pieces|
  {
    var n := |pieces| - 1;
    if pieces == [] || !pieces[n].Plaintext? then pieces
    else
      var t := TrimEnd(pieces[n].units);
      if t == [] then TrimPiecesEnd(pieces[..n]) else pieces[..n] + [Plaintext(t)]
  }

  /** Trimming the text is trimming the outer pieces. */
  lemma {:induction false} StartIsTrimmed(pieces: seq<Piece>)
    requires AllOk(pieces)
    ensures AllOk(TrimPiecesStart(pieces)) && Tags(TrimPiecesStart(pieces)) == Tags(pieces)
    ensures Flatten(TrimPiecesStart(pieces)) == TrimStart(Flatten(pieces))
    decreases |pieces|
  {
    if pieces != [] {
      assert pieces[0] in pieces && AllOk(pieces[1..]);
      if pieces[0].Plaintext? {
        var t := TrimStart(pieces[0].units);
        TrimStartConcat(pieces[0].units, Flatten(pieces[1..]));
        TrimStartSuffix(pieces[0].units);
        StartIsTrimmed(pieces[1..]);
        assert ([Plaintext(t)] + pieces[1..])[1..] == pieces[1..];
      } else {
        FlattenStart(pieces);
      }
    }
  }

  lemma {:induction false} EndIsTrimmed(pieces: seq<Piece>)
    requires AllOk(pieces)
    ensures AllOk(TrimPiecesEnd(pieces)) && Tags(TrimPiecesEnd(pieces)) == Tags(pieces)
    ensures Flatten(TrimPiecesEnd(pieces)) == TrimEnd(Flatten(pieces))
    decreases |pieces|
  {
    if pieces != [] {
      var n := |pieces| - 1;
      var most, last := pieces[..n], pieces[n];
      assert pieces == most + [last] && last in pieces;
      FlattenSnoc(most, last);
      TagsConcat(most, [last]);
      if last.Plaintext? {
        TextEndIsTrimmed(most, last.units);
        EndIsTrimmed(most);
      } else {
        RenderIsBracketed(last);
        hide Render, Between, PieceOk;
        var s := Flatten(most) + ([LT] + Between(last) + [GT]);
        assert s[|s| - 1] == GT;
        assert TrimEnd(s) == s;
      }
    }
  }

  lemma TextEndIsTrimmed(most: seq<Piece>, units: Units)
    requires AllOk(most) && LT !in units
    ensures TrimEnd(Flatten(most) + units)
            == if TrimEnd(units) == [] then TrimEnd(Flatten(most)) else Flatten(most + [Plaintext(TrimEnd(units))])
    ensures AllOk(most + [Plaintext(TrimEnd(units))]) && Tags(most + [Plaintext(TrimEnd(units))]) == Tags(most)
    ensures Tags([Plaintext(units)]) == []
  {
    hide TrimEnd, Flatten;
    var t := TrimEnd(units);
    TrimEndConcat(Flatten(most), units);
    TrimEndPrefix(units);
    FlattenSnoc(most, Plaintext(t));
    TagsConcat(most, [Plaintext(t)]);
  }

  /** The pieces of the trimmed output. */
  function Trimming(pieces: seq<Piece>): seq<Piece> {
    TrimPiecesEnd(TrimPiecesStart(pieces))
  }

  lemma TrimmingFlattens(pieces: seq<Piece>)
    requires AllOk(pieces)
    ensures AllOk(Trimming(pieces)) && Tags(Trimming(pieces)) == Tags(pieces)
    ensures Flatten(Trimming(pieces)) == Trim(Flatten(pieces))
  {
    StartIsTrimmed(pieces);
    EndIsTrimmed(TrimPiecesStart(pieces));
  }

  // ------------------------------------------------------------------ main results

  /** The tags and text that sanitizing an input emits. */
  function Emitted(input: Units): seq<Piece>
    requires Sanitize(input).Some?
  {
    ScanAll(Tokenize(input)).pieces
  }

  lemma EmittedIsOk(input: Units)
    requires Sanitize(input).Some?
    ensures AllOk(Emitted(input))
  {
    TokensOk(input);
    ScannedOk(Tokenize(input));
  }

  /**
   Main result.  Everything emitted is canonical: an allowed lower-case tag, a link only with a safe escaped
   href, or text without `<`.  The output cut into tokens again is nothing but the emitted tags, in order, and
   text without `<`; so every `<` in the output begins a tag that was emitted.
   */
  lemma OutputIsNormal(input: Units)
    requires Sanitize(input).Some?
    ensures var output, pieces := Sanitize(input).value, Emitted(input);
            AllOk(pieces)
            && Join(Tokenize(output)) == output
            && TagTokens(Tokenize(output)) == Renders(Tags(pieces))
    ensures forall t :: t in Tokenize(Sanitize(input).value) ==>
            t != [] && (if t[0] == LT then t in Renders(Tags(Emitted(input))) else LT !in t)
  {
    var output, pieces := Sanitize(input).value, Emitted(input);
    EmittedIsOk(input);
    TrimmingFlattens(pieces);
    var kept := Trimming(pieces);
    TokenizeFlatten([], kept);
    assert [] + output == output;
    MergeOk([], kept);
    RenderedTokens(Merge([], kept));
    MergeKeepsTags([], kept);
    MergeFlattens([], kept);
    TokensOk(output);
    hide Tokenize, Sanitize, Emitted, Trimming, Merge, AllOk;
    TagTokensHold(Tokenize(output));
  }

  lemma {:induction false} TagTokensHold(tokens: seq<Units>)
    ensures forall t :: t in tokens && t != [] && t[0] == LT ==> t in TagTokens(tokens)
  {
    if tokens != [] {
      TagTokensHold(tokens[1..]);
      assert tokens == [tokens[0]] + tokens[1..];
    }
  }

  lemma {:induction false} TagsAreTags(pieces: seq<Piece>)
    ensures forall p :: p in Tags(pieces) <==> p in pieces && !p.Plaintext?
  {
    if pieces != [] {
      TagsAreTags(pieces[1..]);
      assert pieces == [pieces[0]] + pieces[1..];
    }
  }

  /** A rendered tag holds one `<`, its first unit, and one `>`, its last. */
  lemma EmittedTagIsClosed(input: Units, p: Piece)
    requires Sanitize(input).Some? && p in Tags(Emitted(input))
    ensures var r := Render(p); |r| > 2 && r[0] == LT && LT !in r[1..] && r[|r| - 1] == GT && GT !in r[..|r| - 1]
  {
    hide Emitted, Sanitize, Tags, Between, Render, PieceOk;
    EmittedIsOk(input);
    TagsAreTags(Emitted(input));
    RenderIsBracketed(p);
    BracketedIsClosed(Between(p));
  }

  lemma BracketedIsClosed(b: Units)
    requires b != [] && LT !in b && GT !in b
    ensures var r := [LT] + b + [GT]; |r| > 2 && r[0] == LT && LT !in r[1..] && r[|r| - 1] == GT && GT !in r[..|r| - 1]
  {
    assert ([LT] + b + [GT])[1..] == b + [GT];
    assert ([LT] + b + [GT])[..|b| + 1] == [LT] + b;
  }

  /** Same emptiness, same outer units. */
  predicate SameEnds(a: Units, b: Units) {
    (a == [] <==> b == []) && (a != [] ==> a[0] == b[0] && a[|a| - 1] == b[|b| - 1])
  }

  /** What escaping changed, escaping changes again: an escape itself starts with an ampersand. */
  lemma {:induction false} EscapedAgainGrows(h: Units)
    ensures !Plain(h) ==> !Plain(Escape(h))
  {
    if h != [] {
      EscapedAgainGrows(h[1..]);
      var e, rest := EscapeUnit(h[0]), Escape(h[1..]);
      assert Escape(h) == e + rest;
      if !Special(h[0]) {
        assert Plain(e + rest) ==>
               Plain(rest) by { assert forall i :: 0 <= i < |rest| ==> rest[i] == (e + rest)[|e| + i]; }
        assert Plain(h[1..]) ==> Plain(h) by { assert forall i :: 0 < i < |h| ==> h[i] == h[1..][i - 1]; }
      } else {
        assert Special((e + rest)[0]);
      }
    }
  }

  lemma LinkLength(h: Units)
    ensures |Render(Open(ANCHOR, Some(h)))| == 11 + |Escape(h)|
  {
  }

  lemma LinkAgain(h: Units)
    requires Emittable(h)
    ensures var p := Open(ANCHOR, Some(h));
            PieceOk(Again(p)) && SameEnds(Render(p), Render(Again(p))) && |Render(p)| <= |Render(Again(p))|
            && if Plain(h) then Again(p) == p else |Render(p)| < |Render(Again(p))|
  {
    var p := Open(ANCHOR, Some(h));
    EscapeGrows(h);
    EscapeGrows(Escape(h));
    EscapedAgainGrows(h);
    EscapeKeepsEmittable(h);
    LinkLength(h);
    LinkLength(Escape(h));
    RenderIsBracketed(p);
    RenderIsBracketed(Again(p));
    hide Escape, Emittable, Render, Between, EmittedAttributes, Plain;
  }

  lemma RenderAgainKeepsEnds(p: Piece)
    requires PieceOk(p)
    ensures PieceOk(Again(p)) && SameEnds(Render(p), Render(Again(p))) && |Render(p)| <= |Render(Again(p))|
    ensures p.Open? && p.href.Some? && !Plain(p.href.value) ==> |Render(p)| < |Render(Again(p))|
    ensures (p.Open? && p.href.Some? ==> Plain(p.href.value)) ==> Again(p) == p
  {
    if p.Open? && p.href.Some? {
      LinkAgain(p.href.value);
    }
    hide Render, Plain, Emittable;
  }

  predicate PlainLinks(pieces: seq<Piece>) {
    forall p :: p in pieces && p.Open? && p.href.Some? ==> Plain(p.href.value)
  }

  lemma SameEndsConcat(a: Units, b: Units, c: Units, d: Units)
    requires SameEnds(a, b) && SameEnds(c, d)
    ensures SameEnds(a + c, b + d)
  {
  }

  lemma {:induction false} FlattenAgain(pieces: seq<Piece>)
    requires AllOk(pieces)
    ensures SameEnds(Flatten(pieces), Flatten(AgainAll(pieces)))
    ensures |Flatten(pieces)| <= |Flatten(AgainAll(pieces))|
    ensures if PlainLinks(pieces) then AgainAll(pieces) == pieces else |Flatten(pieces)| < |Flatten(AgainAll(pieces))|
  {
    if pieces != [] {
      var p, tail := pieces[0], pieces[1..];
      assert pieces == [p] + tail && p in pieces;
      assert AllOk(tail);
      FlattenAgain(tail);
      RenderAgainKeepsEnds(p);
      AgainFlattens(p, tail, pieces);
      SameEndsConcat(Render(p), Render(Again(p)), Flatten(tail), Flatten(AgainAll(tail)));
      hide Render, Again, PieceOk;
    }
  }

  /** Sanitizing the output renders the same pieces, every href decoded and escaped once more. */
  lemma OutputSanitized(input: Units)
    requires Sanitize(input).Some?
    ensures var kept := Trimming(Emitted(input));
            AllOk(kept) && Tags(kept) == Tags(Emitted(input)) && Flatten(kept) == Sanitize(input).value
            && Sanitize(Sanitize(input).value) == Some(Flatten(AgainAll(kept)))
  {
    var pieces := Emitted(input);
    EmittedIsOk(input);
    TrimmingFlattens(pieces);
    var kept := Trimming(pieces);
    var output := Flatten(kept);
    TokenizeFlatten([], kept);
    assert [] + output == output;
    MergeOk([], kept);
    ScanRendered(Merge([], kept));
    MergeFlattensAgain([], kept);
    assert [] + Flatten(AgainAll(kept)) == Flatten(AgainAll(kept));
    FlattenAgain(kept);
    TrimIsTrimmed(Flatten(pieces));
    TrimIsTrimmed(Flatten(AgainAll(kept)));
  }

  /**
   Main result.  Sanitizing twice never throws, and gives what sanitizing once gave if and only if no emitted
   href holds any of the four units that escaping rewrites.
   */
  lemma IdempotentIffHrefsArePlain(input: Units)
    requires Sanitize(input).Some?
    ensures var output := Sanitize(input).value;
            Sanitize(output).Some?
            && (Sanitize(output) == Some(output) <==> PlainLinks(Emitted(input)))
  {
    OutputSanitized(input);
    var pieces := Emitted(input);
    var kept := Trimming(pieces);
    FlattenAgain(kept);
    TagsAreTags(pieces);
    TagsAreTags(kept);
    hide Sanitize, Emitted, Trimming, AllOk;
    assert PlainLinks(kept) <==> PlainLinks(pieces) by { SameTagsSameLinks(kept, pieces); }
  }

  lemma SameTagsSameLinks(a: seq<Piece>, b: seq<Piece>)
    requires Tags(a) == Tags(b)
    ensures PlainLinks(a) <==> PlainLinks(b)
  {
    TagsAreTags(a);
    TagsAreTags(b);
    hide Tags;
    assert forall p :: p in a && p.Open? ==> p in Tags(a);
    assert forall p :: p in b && p.Open? ==> p in Tags(b);
  }

  /** An input that already is one emitted link: it is emitted with its href escaped once more. */
  lemma LinkIsEmitted(p: Piece)
    requires PieceOk(p) && p.Open?
    ensures Sanitize(Render(p)).Some? && Emitted(Render(p)) == [Again(p)]
  {
    assert AllOk([p]);
    assert [p][1..] == [] && Flatten([]) == [];
    assert Flatten([p]) == Render(p) + [] == Render(p);
    hide Render, PieceOk, Tokenize;
    TokenizeFlatten([], [p]);
    assert [] + Render(p) == Render(p);
    assert Merge([], []) == [] && Merge([], [p]) == [p];
    ScanRendered([p]);
    assert AgainAll([p]) == [Again(p)];
  }

  const HTTP_AMPERSAND: Units := [104, 116, 116, 112, 58, 38]

  /** `<a href="http:&amp;">`: its ampersand is escaped once more on every pass. */
  lemma AmpersandIsEscapedAgain() returns (input: Units)
    ensures Sanitize(input).Some? && Sanitize(Sanitize(input).value).Some?
    ensures Sanitize(Sanitize(input).value) != Sanitize(input)
  {
    var p := Open(ANCHOR, Some(HTTP_AMPERSAND));
    assert Emittable(HTTP_AMPERSAND);
    input := Render(p);
    LinkIsEmitted(p);
    EscapeOfHttp();
    hide Sanitize, Emitted, Render, Emittable, Escape;
    IdempotentIffHrefsArePlain(input);
    assert Again(p) in Emitted(input) && Special(Again(p).href.value[5]);
  }

  lemma EscapeOfHttp()
    ensures Escape(HTTP_AMPERSAND) == [104, 116, 116, 112, 58, 38, 97, 109, 112, 59]
  {
    var h := HTTP_AMPERSAND;
    EscapePrefix(h, 5);
    assert h[5..] == [38];
    assert h[1..][1..][1..][1..][1..] == [38];
    assert Escape([38]) == [38, 97, 109, 112, 59];
  }
}
