/**
 `JSON.stringify` on JSON values (section 25.5.2 of ECMA-262), over UTF-16 code units, and its injectivity:
 a printed value, followed by anything that can follow a value, can be read back in one way only.
 */
module JsonText {
  type Unit = x: int | 0 <= x < 0x1_0000
  type Units = seq<Unit>

  datatype Member = Member(key: Units, value: Json)

  /** A finite number is known by the text that Number::toString gives it. */
  datatype Json =
    | Null
    | Boolean(value: bool)
    | Number(text: Units)
    | Text(units: Units)
    | List(items: seq<Json>)
    | Object(members: seq<Member>)

  // ------------------------------------------------------------------ QuoteJSONString

  const QUOTE: Unit := 34
  const COMMA: Unit := 44
  const COLON: Unit := 58
  const BACKSLASH: Unit := 92

  predicate High(u: Unit) { 0xD800 <= u < 0xDC00 }
  predicate Low(u: Unit) { 0xDC00 <= u < 0xE000 }

  function HexDigit(n: int): Unit
    requires 0 <= n < 16
  {
    if n < 10 then 48 + n else 87 + n
  }

  function HexByte(n: int): (r: Units)
    requires 0 <= n < 256
    ensures |r| == 2
  {
    [HexDigit(n / 16), HexDigit(n % 16)]
  }

  lemma HexByteIsInjective(m: int, n: int)
    requires 0 <= m < 256 && 0 <= n < 256 && HexByte(m) == HexByte(n)
    ensures m == n
  {
    assert HexByte(m)[0] == HexByte(n)[0] && HexByte(m)[1] == HexByte(n)[1];
    assert m / 16 == n / 16 && m % 16 == n % 16;
  }

  function UnicodeEscape(u: Unit): Units {
    [BACKSLASH, 117] + HexByte(u / 256) + HexByte(u % 256)
  }

  lemma UnicodeEscapeIsInjective(u: Unit, v: Unit)
    requires UnicodeEscape(u) == UnicodeEscape(v)
    ensures u == v
  {
    var a, b := UnicodeEscape(u), UnicodeEscape(v);
    assert a[2..4] == HexByte(u / 256) && b[2..4] == HexByte(v / 256);
    assert a[4..6] == HexByte(u % 256) && b[4..6] == HexByte(v % 256);
    HexByteIsInjective(u / 256, v / 256);
    HexByteIsInjective(u % 256, v % 256);
  }

  /** The letter of a two-character escape, if the unit has one. */
  function Letter(u: Unit): Unit {
    if u == QUOTE || u == BACKSLASH then u
    else if u == 8 then 98
    else if u == 9 then 116
    else if u == 10 then 110
    else if u == 12 then 102
    else if u == 13 then 114
    else 0
  }

  /** One unit that is not half of a surrogate pair. */
  function Escaped(u: Unit): (r: Units)
    ensures r != []
  {
    if Letter(u) != 0 then [BACKSLASH, Letter(u)]
    else if u < 32 || High(u) || Low(u) then UnicodeEscape(u)
    else [u]
  }

  function Body(s: Units): Units {
    if s == [] then []
    else if |s| > 1 && High(s[0]) && Low(s[1]) then s[..2] + Body(s[2..])
    else Escaped(s[0]) + Body(s[1..])
  }

  function Quoted(s: Units): Units {
    [QUOTE] + Body(s) + [QUOTE]
  }

  /** The escape of a unit tells the unit and where the rest begins. */
  lemma EscapedReads(u: Unit, v: Unit, s: Units, t: Units)
    requires Escaped(u) + s == Escaped(v) + t
    ensures u == v && s == t
  {
    var l, r := Escaped(u) + s, Escaped(v) + t;
    assert l[0] == r[0];
    if l[0] == BACKSLASH {
      assert l[1] == r[1];
      if Letter(u) == 0 {
        assert l[..6] == UnicodeEscape(u) && r[..6] == UnicodeEscape(v);
        UnicodeEscapeIsInjective(u, v);
      }
    }
    assert l[|Escaped(u)|..] == s && r[|Escaped(v)|..] == t;
  }

  lemma NoQuoteFirst(u: Unit, s: Units)
    ensures (Escaped(u) + s)[0] != QUOTE && !High((Escaped(u) + s)[0])
  {
  }

  predicate Pair(s: Units) {
    |s| > 1 && High(s[0]) && Low(s[1])
  }

  lemma PairReads(s: Units, rest: Units)
    requires Pair(s)
    ensures Body(s) + rest == s[..2] + (Body(s[2..]) + rest)
  {
  }

  lemma UnitReads(s: Units, rest: Units)
    requires s != [] && !Pair(s)
    ensures Body(s) + rest == Escaped(s[0]) + (Body(s[1..]) + rest)
  {
  }

  lemma {:induction false} BodyReads(s: Units, t: Units, x: Units, y: Units)
    requires Body(s) + [QUOTE] + x == Body(t) + [QUOTE] + y
    ensures s == t && x == y
    decreases |s|
  {
    var xs, ys := [QUOTE] + x, [QUOTE] + y;
    assert Body(s) + [QUOTE] + x == Body(s) + xs && Body(t) + [QUOTE] + y == Body(t) + ys;
    if s != [] && Pair(s) { PairReads(s, xs); }
    if t != [] && Pair(t) { PairReads(t, ys); }
    if s != [] && !Pair(s) { UnitReads(s, xs); NoQuoteFirst(s[0], Body(s[1..]) + xs); }
    if t != [] && !Pair(t) { UnitReads(t, ys); NoQuoteFirst(t[0], Body(t[1..]) + ys); }
    if s == [] || t == [] {
      EmptyReads(s, t, xs, ys);
      assert xs[1..] == x && ys[1..] == y;
    } else if Pair(s) {
      assert Pair(t);
      TakeTwo(s[..2], t[..2], Body(s[2..]) + xs, Body(t[2..]) + ys);
      assert Body(s[2..]) + [QUOTE] + x == Body(s[2..]) + xs && Body(t[2..]) + [QUOTE] + y == Body(t[2..]) + ys;
      BodyReads(s[2..], t[2..], x, y);
      assert s == s[..2] + s[2..] && t == t[..2] + t[2..];
    } else {
      assert !Pair(t);
      EscapedReads(s[0], t[0], Body(s[1..]) + xs, Body(t[1..]) + ys);
      assert Body(s[1..]) + [QUOTE] + x == Body(s[1..]) + xs && Body(t[1..]) + [QUOTE] + y == Body(t[1..]) + ys;
      BodyReads(s[1..], t[1..], x, y);
      assert s == [s[0]] + s[1..] && t == [t[0]] + t[1..];
    }
  }

  lemma TakeTwo(a: Units, b: Units, x: Units, y: Units)
    requires |a| == 2 && |b| == 2 && a + x == b + y
    ensures a == b && x == y
  {
    assert (a + x)[..2] == a && (b + y)[..2] == b;
    assert (a + x)[2..] == x && (b + y)[2..] == y;
  }

  lemma EmptyReads(s: Units, t: Units, xs: Units, ys: Units)
    requires (s == [] || t == []) && xs != [] && ys != [] && xs[0] == QUOTE && ys[0] == QUOTE
    requires Body(s) + xs == Body(t) + ys
    ensures s == [] && t == [] && xs == ys
  {
    BodyStart(s, xs);
    BodyStart(t, ys);
  }

  lemma BodyStart(s: Units, rest: Units)
    requires rest != [] && rest[0] == QUOTE
    ensures if s == [] then Body(s) + rest == rest else (Body(s) + rest)[0] != QUOTE
  {
    assert s == [] ==> [] + rest == rest;
  }

  // ------------------------------------------------------------------ SerializeJSONProperty

  function Print(v: Json): Units
    decreases v
  {
    match v
    case Null => [110, 117, 108, 108]
    case Boolean(b) => if b then [116, 114, 117, 101] else [102, 97, 108, 115, 101]
    case Number(text) => text
    case Text(units) => Quoted(units)
    case List(items) => [91] + PrintItems(items) + [93]
    case Object(members) => [123] + PrintMembers(members) + [125]
  }

  function PrintItems(items: seq<Json>): Units
    decreases items
  {
    if items == [] then []
    else if |items| == 1 then Print(items[0])
    else Print(items[0]) + [COMMA] + PrintItems(items[1..])
  }

  function PrintMembers(members: seq<Member>): Units
    decreases members
  {
    if members == [] then []
    else
      var m := members[0];
      var first := Quoted(m.key) + [COLON] + Print(m.value);
      if |members| == 1 then first else first + [COMMA] + PrintMembers(members[1..])
  }

  predicate NumberUnit(u: Unit) {
    48 <= u < 58 || u == 45 || u == 43 || u == 46 || u == 101
  }

  predicate NumberText(text: Units) {
    text != [] && (48 <= text[0] < 58 || text[0] == 45) && forall i :: 0 <= i < |text| ==> NumberUnit(text[i])
  }

  /** Numbers have number texts and objects have distinct keys, at every depth. */
  predicate Valid(v: Json)
    decreases v
  {
    match v
    case Number(text) => NumberText(text)
    case List(items) => forall i :: 0 <= i < |items| ==> Valid(items[i])
    case Object(members) => DistinctKeys(members) && forall i :: 0 <= i < |members| ==> Valid(members[i].value)
    case _ => true
  }

  predicate DistinctKeys(members: seq<Member>) {
    forall i, j :: 0 <= i < j < |members| ==> members[i].key != members[j].key
  }

  predicate AllValid(items: seq<Json>) {
    forall i :: 0 <= i < |items| ==> Valid(items[i])
  }

  predicate AllMembersValid(members: seq<Member>) {
    forall i :: 0 <= i < |members| ==> Valid(members[i].value)
  }

  // ------------------------------------------------------------------ reading a printed value back

  /** What can stand behind a value. */
  predicate Ends(rest: Units) {
    rest == [] || rest[0] == COMMA || rest[0] == 93 || rest[0] == 125
  }

  /** The first unit tells the kind of value, and is never one that ends a value. */
  predicate StartsLike(v: Json, u: Unit) {
    match v
    case Null => u == 110
    case Boolean(b) => u == if b then 116 else 102
    case Number(_) => 48 <= u < 58 || u == 45
    case Text(_) => u == QUOTE
    case List(_) => u == 91
    case Object(_) => u == 123
  }

  lemma FirstUnit(v: Json, rest: Units)
    requires Valid(v)
    ensures Print(v) != [] && (Print(v) + rest)[0] == Print(v)[0] && StartsLike(v, Print(v)[0])
  {
  }

  lemma NumberStart(a: Units, rest: Units)
    ensures if a == [] then a + rest == rest else (a + rest)[0] == a[0]
  {
  }

  lemma {:induction false} NumberReads(a: Units, b: Units, s: Units, t: Units)
    requires (forall i :: 0 <= i < |a| ==> NumberUnit(a[i])) && (forall i :: 0 <= i < |b| ==> NumberUnit(b[i]))
    requires a + s == b + t && Ends(s) && Ends(t)
    ensures a == b && s == t
    decreases |a|
  {
    NumberStart(a, s);
    NumberStart(b, t);
    if a != [] && b != [] {
      assert (a + s)[0] == a[0] && (b + t)[0] == b[0];
      assert (a + s)[1..] == a[1..] + s && (b + t)[1..] == b[1..] + t;
      NumberReads(a[1..], b[1..], s, t);
      assert a == [a[0]] + a[1..] && b == [b[0]] + b[1..];
    }
  }

  lemma QuotedReads(a: Units, b: Units, s: Units, t: Units)
    requires Quoted(a) + s == Quoted(b) + t
    ensures a == b && s == t
  {
    assert (Quoted(a) + s)[1..] == Body(a) + [QUOTE] + s;
    assert (Quoted(b) + t)[1..] == Body(b) + [QUOTE] + t;
    BodyReads(a, b, s, t);
  }

  /** Two texts that begin with the same bracket. */
  lemma Unwrap(u: Unit, a: Units, b: Units, close: Unit, s: Units, t: Units)
    requires [u] + a + [close] + s == [u] + b + [close] + t
    ensures a + ([close] + s) == b + ([close] + t)
  {
    assert ([u] + a + [close] + s)[1..] == a + ([close] + s);
    assert ([u] + b + [close] + t)[1..] == b + ([close] + t);
  }

  lemma Drop(u: Unit, s: Units, t: Units)
    requires [u] + s == [u] + t
    ensures s == t
  {
    assert ([u] + s)[1..] == s && ([u] + t)[1..] == t;
  }

  /** Main result: a printed value can be read back in only one way, whatever follows it. */
  lemma {:induction false} PrintReads(v: Json, w: Json, s: Units, t: Units)
    requires Valid(v) && Valid(w) && Print(v) + s == Print(w) + t && Ends(s) && Ends(t)
    ensures v == w && s == t
    decreases v, 0
  {
    FirstUnit(v, s);
    FirstUnit(w, t);
    match v
    case Null => TakeSame(Print(v), s, t);
    case Boolean(_) => TakeSame(Print(v), s, t);
    case Number(a) => NumberReads(a, w.text, s, t);
    case Text(a) => QuotedReads(a, w.units, s, t);
    case List(items) =>
      Unwrap(91, PrintItems(items), PrintItems(w.items), 93, s, t);
      ItemsRead(items, w.items, [93] + s, [93] + t);
      Drop(93, s, t);
    case Object(members) =>
      Unwrap(123, PrintMembers(members), PrintMembers(w.members), 125, s, t);
      MembersRead(members, w.members, [125] + s, [125] + t);
      Drop(125, s, t);
  }

  lemma TakeSame(a: Units, s: Units, t: Units)
    requires a + s == a + t
    ensures s == t
  {
    assert (a + s)[|a|..] == s && (a + t)[|a|..] == t;
  }

  lemma {:induction false} ItemsRead(a: seq<Json>, b: seq<Json>, s: Units, t: Units)
    requires AllValid(a) && AllValid(b) && PrintItems(a) + s == PrintItems(b) + t
    requires s != [] && t != [] && s[0] == t[0] == 93
    ensures a == b && s == t
    decreases a, 1
  {
    hide PrintItems, Print, Valid;
    if a == [] || b == [] {
      ItemsStart(a, s);
      ItemsStart(b, t);
    } else {
      var ra := if |a| == 1 then s else [COMMA] + (PrintItems(a[1..]) + s);
      var rb := if |b| == 1 then t else [COMMA] + (PrintItems(b[1..]) + t);
      ItemFirst(a, s, ra);
      ItemFirst(b, t, rb);
      PrintReads(a[0], b[0], ra, rb);
      if |a| > 1 {
        Drop(COMMA, PrintItems(a[1..]) + s, PrintItems(b[1..]) + t);
        ItemsRead(a[1..], b[1..], s, t);
        assert a == [a[0]] + a[1..] && b == [b[0]] + b[1..];
      }
    }
  }

  lemma ItemsStart(a: seq<Json>, rest: Units)
    requires AllValid(a) && rest != [] && rest[0] == 93
    ensures if a == [] then PrintItems(a) + rest == rest else (PrintItems(a) + rest)[0] != 93
  {
    if a == [] {
      assert [] + rest == rest;
    } else {
      ItemFirst(a, rest, if |a| == 1 then rest else [COMMA] + (PrintItems(a[1..]) + rest));
      FirstUnit(a[0], if |a| == 1 then rest else [COMMA] + (PrintItems(a[1..]) + rest));
    }
  }

  lemma ItemFirst(a: seq<Json>, s: Units, rest: Units)
    requires a != [] && rest == if |a| == 1 then s else [COMMA] + (PrintItems(a[1..]) + s)
    ensures PrintItems(a) + s == Print(a[0]) + rest
  {
    if |a| > 1 {
      Reassociate(Print(a[0]), COMMA, PrintItems(a[1..]), s);
    }
  }

  lemma Reassociate(a: Units, u: Unit, b: Units, s: Units)
    ensures a + [u] + b + s == a + ([u] + (b + s))
  {
  }

  lemma {:induction false} MembersRead(a: seq<Member>, b: seq<Member>, s: Units, t: Units)
    requires AllMembersValid(a) && AllMembersValid(b) && PrintMembers(a) + s == PrintMembers(b) + t
    requires s != [] && t != [] && s[0] == t[0] == 125
    ensures a == b && s == t
    decreases a, 1
  {
    hide PrintMembers, Print, Quoted, Valid;
    if a == [] || b == [] {
      MembersStart(a, s);
      MembersStart(b, t);
    } else {
      var ra := if |a| == 1 then s else [COMMA] + (PrintMembers(a[1..]) + s);
      var rb := if |b| == 1 then t else [COMMA] + (PrintMembers(b[1..]) + t);
      MemberFirst(a, s, ra);
      MemberFirst(b, t, rb);
      MemberReads(a[0], b[0], ra, rb);
      if |a| > 1 {
        Drop(COMMA, PrintMembers(a[1..]) + s, PrintMembers(b[1..]) + t);
        MembersRead(a[1..], b[1..], s, t);
        assert a == [a[0]] + a[1..] && b == [b[0]] + b[1..];
      }
    }
  }

  lemma {:induction false} MemberReads(m: Member, n: Member, s: Units, t: Units)
    requires Valid(m.value) && Valid(n.value) && Ends(s) && Ends(t)
    requires Quoted(m.key) + ([COLON] + (Print(m.value) + s)) == Quoted(n.key) + ([COLON] + (Print(n.value) + t))
    ensures m == n && s == t
    decreases m, 0
  {
    hide Quoted, Print, Valid;
    QuotedReads(m.key, n.key, [COLON] + (Print(m.value) + s), [COLON] + (Print(n.value) + t));
    Drop(COLON, Print(m.value) + s, Print(n.value) + t);
    PrintReads(m.value, n.value, s, t);
  }

  lemma MembersStart(a: seq<Member>, rest: Units)
    requires rest != [] && rest[0] == 125
    ensures if a == [] then PrintMembers(a) + rest == rest else (PrintMembers(a) + rest)[0] == QUOTE
  {
    if a == [] {
      assert [] + rest == rest;
    } else {
      MemberFirst(a, rest, if |a| == 1 then rest else [COMMA] + (PrintMembers(a[1..]) + rest));
    }
  }

  lemma MemberFirst(a: seq<Member>, s: Units, rest: Units)
    requires a != [] && rest == if |a| == 1 then s else [COMMA] + (PrintMembers(a[1..]) + s)
    ensures PrintMembers(a) + s == Quoted(a[0].key) + ([COLON] + (Print(a[0].value) + rest))
  {
    var k, v := Quoted(a[0].key), Print(a[0].value);
    hide Quoted, Print;
    if |a| > 1 {
      Reassociate(k + [COLON] + v, COMMA, PrintMembers(a[1..]), s);
    }
    assert PrintMembers(a) + s == (k + [COLON] + v) + rest;
    Reassociate(k, COLON, v, rest);
  }
}
