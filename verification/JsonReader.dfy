/**
 A JSON reader, from the grammar of ECMA-404 (sections 5 to 9), for texts without insignificant white space: what
 `JSON.stringify` prints reads back as the value that was printed.
 */
module JsonReader {
  import opened JsonText
  import opened Options

  // ------------------------------------------------------------------ strings

  /** The unit that a backslash and this letter stand for. */
  function Unescaped(letter: Unit): Option<Unit> {
    if letter == '\"' as int then Some(0x22)
    else if letter == '\\' as int then Some(0x5C)
    else if letter == '/' as int then Some(0x2F)
    else if letter == 'b' as int then Some(0x08)
    else if letter == 'f' as int then Some(0x0C)
    else if letter == 'n' as int then Some(0x0A)
    else if letter == 'r' as int then Some(0x0D)
    else if letter == 't' as int then Some(0x09)
    else None
  }

  function HexValue(u: Unit): Option<nat> {
    if '0' as int <= u <= '9' as int then Some(u - '0' as int)
    else if 'a' as int <= u <= 'f' as int then Some(10 + u - 'a' as int)
    else if 'A' as int <= u <= 'F' as int then Some(10 + u - 'A' as int)
    else None
  }

  /** Four hexadecimal digits. */
  function FourHex(s: Units): Option<Unit>
    requires |s| == 4
  {
    var a, b, c, d := HexValue(s[0]), HexValue(s[1]), HexValue(s[2]), HexValue(s[3]);
    if a == None || b == None || c == None || d == None then None
    else
      var n := ((a.value * 16 + b.value) * 16 + c.value) * 16 + d.value;
      if n < 0x1_0000 then Some(n) else None
  }

  /** One unit of a string, and what follows it. */
  function ReadUnit(s: Units): (r: Option<(Unit, Units)>)
    ensures r.Some? ==> |r.value.1| < |s|
  {
    if s == [] || s[0] < 32 || s[0] == QUOTE then None
    else if s[0] != BACKSLASH then Some((s[0], s[1..]))
    else if |s| < 2 then None
    else if s[1] == 'u' as int then
      if |s| < 6 || FourHex(s[2..6]) == None then None else Some((FourHex(s[2..6]).value, s[6..]))
    else if Unescaped(s[1]) == None then None
    else Some((Unescaped(s[1]).value, s[2..]))
  }

  /** The rest of a string behind its opening quote, and what follows the closing one. */
  function ReadString(s: Units): (r: Option<(Units, Units)>)
    ensures r.Some? ==> |r.value.1| < |s|
    decreases |s|
  {
    if s != [] && s[0] == QUOTE then Some(([], s[1..]))
    else
      var unit := ReadUnit(s);
      if unit == None then None
      else
        var more := ReadString(unit.value.1);
        if more == None then None else Some(([unit.value.0] + more.value.0, more.value.1))
  }

  // ------------------------------------------------------------------ values

  function NumberRun(s: Units): (n: nat)
    ensures n <= |s|
  {
    if s == [] || !NumberUnit(s[0]) then 0 else 1 + NumberRun(s[1..])
  }

  predicate Starts(s: Units, word: Units) {
    |word| <= |s| && s[..|word|] == word
  }

  const NULL: Units := ['n' as int, 'u' as int, 'l' as int, 'l' as int]
  const TRUE: Units := ['t' as int, 'r' as int, 'u' as int, 'e' as int]
  const FALSE: Units := ['f' as int, 'a' as int, 'l' as int, 's' as int, 'e' as int]

  function ReadValue(s: Units): (r: Option<(Json, Units)>)
    ensures r.Some? ==> |r.value.1| < |s|
    decreases |s|, 0
  {
    if Starts(s, NULL) then Some((Null, s[4..]))
    else if Starts(s, TRUE) then Some((Boolean(true), s[4..]))
    else if Starts(s, FALSE) then Some((Boolean(false), s[5..]))
    else if s == [] then None
    else if s[0] == '\"' as int then
      var text := ReadString(s[1..]);
      if text == None then None else Some((Text(text.value.0), text.value.1))
    else if s[0] == '[' as int then
      if Starts(s[1..], [']' as int]) then Some((List([]), s[2..]))
      else
        var items := ReadItems(s[1..]);
        if items == None then None else Some((List(items.value.0), items.value.1))
    else if s[0] == '{' as int then
      if Starts(s[1..], ['}' as int]) then Some((Object([]), s[2..]))
      else
        var members := ReadMembers(s[1..]);
        if members == None then None else Some((Object(members.value.0), members.value.1))
    else
      var n := NumberRun(s);
      if n > 0 && NumberText(s[..n]) then Some((Number(s[..n]), s[n..])) else None
  }

  /** One item or more, up to the closing bracket. */
  function ReadItems(s: Units): (r: Option<(seq<Json>, Units)>)
    ensures r.Some? ==> |r.value.1| < |s|
    decreases |s|, 1
  {
    var first := ReadValue(s);
    if first == None || first.value.1 == [] then None
    else
      var (item, rest) := first.value;
      if rest[0] == ']' as int then Some(([item], rest[1..]))
      else if rest[0] != ',' as int then None
      else
        var more := ReadItems(rest[1..]);
        if more == None then None else Some(([item] + more.value.0, more.value.1))
  }

  function ReadMember(s: Units): (r: Option<(Member, Units)>)
    ensures r.Some? ==> |r.value.1| < |s|
    decreases |s|, 1
  {
    if s == [] || s[0] != '\"' as int then None
    else
      var key := ReadString(s[1..]);
      if key == None || key.value.1 == [] || key.value.1[0] != ':' as int then None
      else
        var value := ReadValue(key.value.1[1..]);
        if value == None then None else Some((Member(key.value.0, value.value.0), value.value.1))
  }

  /** One member or more, up to the closing brace. */
  function ReadMembers(s: Units): (r: Option<(seq<Member>, Units)>)
    ensures r.Some? ==> |r.value.1| < |s|
    decreases |s|, 2
  {
    var first := ReadMember(s);
    if first == None || first.value.1 == [] then None
    else
      var (member, rest) := first.value;
      if rest[0] == '}' as int then Some(([member], rest[1..]))
      else if rest[0] != ',' as int then None
      else
        var more := ReadMembers(rest[1..]);
        if more == None then None else Some(([member] + more.value.0, more.value.1))
  }

  // ------------------------------------------------------------------ strings read back

  lemma HexDigitReads(n: nat)
    requires n < 16
    ensures HexValue(HexDigit(n)) == Some(n)
  {
  }

  lemma FourHexReads(u: Unit)
    ensures FourHex(HexByte(u / 256) + HexByte(u % 256)) == Some(u)
  {
    HexDigitReads(u / 256 / 16);
    HexDigitReads(u / 256 % 16);
    HexDigitReads(u % 256 / 16);
    HexDigitReads(u % 256 % 16);
    hide HexDigit, HexValue;
    assert u == 256 * (u / 256) + u % 256;
    assert u / 256 == 16 * (u / 256 / 16) + u / 256 % 16 && u % 256 == 16 * (u % 256 / 16) + u % 256 % 16;
  }

  lemma EscapedReadsBack(u: Unit, rest: Units)
    ensures ReadUnit(Escaped(u) + rest) == Some((u, rest))
  {
    var s := Escaped(u) + rest;
    if Letter(u) == 0 && (u < 32 || High(u) || Low(u)) {
      FourHexReads(u);
      hide HexByte, FourHex;
      assert s[2..6] == HexByte(u / 256) + HexByte(u % 256) && s[6..] == rest;
      assert s[0] == BACKSLASH && s[1] == 117;
    } else if Letter(u) != 0 {
      assert s[0] == BACKSLASH && s[1] == Letter(u) && s[2..] == rest;
    } else {
      assert s[0] == u && s[1..] == rest;
    }
  }

  lemma PlainReadsBack(u: Unit, rest: Units)
    requires u >= 32 && u != QUOTE && u != BACKSLASH
    ensures ReadUnit([u] + rest) == Some((u, rest))
  {
    assert ([u] + rest)[1..] == rest;
  }

  lemma UnitThenString(u: Unit, s: Units, after: Units)
    requires s != [] && s[0] != QUOTE && ReadUnit(s) == Some((u, after))
    ensures var more := ReadString(after);
            ReadString(s) == if more == None then None else Some(([u] + more.value.0, more.value.1))
  {
    hide ReadUnit;
  }

  lemma PairThenString(u: Unit, v: Unit, units: Units, more: Units, rest: Units)
    requires u >= 0xD800 && v >= 0xD800 && ReadString(more) == Some((units, rest))
    ensures ReadString([u] + ([v] + more)) == Some(([u] + ([v] + units), rest))
  {
    PlainReadsBack(v, more);
    PlainReadsBack(u, [v] + more);
    hide ReadUnit, ReadString;
    UnitThenString(v, [v] + more, more);
    UnitThenString(u, [u] + ([v] + more), [v] + more);
  }

  /** A string, quoted and escaped, reads back unit by unit, halves of surrogate pairs included. */
  lemma {:induction false} StringReadsBack(s: Units, rest: Units)
    ensures ReadString(Body(s) + ([QUOTE] + rest)) == Some((s, rest))
    decreases |s|
  {
    var end := [QUOTE] + rest;
    if s == [] {
      assert [] + end == end && end[1..] == rest;
    } else if Pair(s) {
      PairReads(s, end);
      var more := Body(s[2..]) + end;
      assert s[..2] + more == [s[0]] + ([s[1]] + more);
      StringReadsBack(s[2..], rest);
      PairThenString(s[0], s[1], s[2..], more, rest);
      assert [s[0]] + ([s[1]] + s[2..]) == s;
    } else {
      UnitReads(s, end);
      var more := Body(s[1..]) + end;
      StringReadsBack(s[1..], rest);
      EscapedReadsBack(s[0], more);
      NoQuoteFirst(s[0], more);
      hide ReadUnit, ReadString, Body, Escaped;
      UnitThenString(s[0], Escaped(s[0]) + more, more);
      assert [s[0]] + s[1..] == s;
    }
  }

  lemma QuotedReadsBack(s: Units, rest: Units)
    ensures var q := Quoted(s) + rest; q != [] && q[0] == QUOTE && ReadString(q[1..]) == Some((s, rest))
  {
    StringReadsBack(s, rest);
    assert (Quoted(s) + rest)[1..] == Body(s) + ([QUOTE] + rest);
  }

  // ------------------------------------------------------------------ values read back

  lemma {:induction false} NumberRunReads(text: Units, rest: Units)
    requires (forall i :: 0 <= i < |text| ==> NumberUnit(text[i])) && Ends(rest)
    ensures NumberRun(text + rest) == |text|
  {
    if text == [] {
      assert text + rest == rest;
    } else {
      assert (text + rest)[1..] == text[1..] + rest;
      NumberRunReads(text[1..], rest);
    }
  }

  lemma WordReads(word: Units, rest: Units)
    ensures Starts(word + rest, word) && (word + rest)[|word|..] == rest
  {
  }

  lemma LiteralReadsBack(v: Json, rest: Units)
    requires v.Null? || v.Boolean?
    ensures ReadValue(Print(v) + rest) == Some((v, rest))
  {
    var s := Print(v) + rest;
    WordReads(Print(v), rest);
    assert s[0] == Print(v)[0];
    FirstOfWord(s, NULL);
    FirstOfWord(s, TRUE);
    hide ReadString, ReadItems, ReadMembers, NumberRun, NumberText;
  }

  lemma NumberReadsBack(text: Units, rest: Units)
    requires NumberText(text) && Ends(rest)
    ensures ReadValue(text + rest) == Some((Number(text), rest))
  {
    var s := text + rest;
    NumberRunReads(text, rest);
    NoLiteral(s);
    assert s[0] == text[0] && s[..|text|] == text && s[|text|..] == rest;
    hide ReadString, ReadItems, ReadMembers, NumberRun, NumberUnit, Starts;
  }

  lemma NoLiteral(s: Units)
    requires s != [] && s[0] != 110 && s[0] != 116 && s[0] != 102
    ensures !Starts(s, NULL) && !Starts(s, TRUE) && !Starts(s, FALSE)
  {
    FirstOfWord(s, NULL);
    FirstOfWord(s, TRUE);
    FirstOfWord(s, FALSE);
    hide Starts;
  }

  lemma FirstOfWord(s: Units, word: Units)
    requires word != []
    ensures Starts(s, word) ==> s != [] && s[0] == word[0]
  {
    if Starts(s, word) {
      assert s[..|word|][0] == word[0];
    }
  }

  lemma TextReadsBack(units: Units, rest: Units)
    ensures ReadValue(Quoted(units) + rest) == Some((Text(units), rest))
  {
    hide Starts, ReadItems, ReadMembers, ReadString, NumberRun, NumberText, Quoted;
    QuotedReadsBack(units, rest);
    NoLiteral(Quoted(units) + rest);
  }

  /** Main result: what is printed of a value reads back as that value, and the rest is left. */
  lemma {:induction false} PrintedReadsBack(v: Json, rest: Units)
    requires Valid(v) && Ends(rest)
    ensures ReadValue(Print(v) + rest) == Some((v, rest))
    decreases v, 0
  {
    match v
    case Null => LiteralReadsBack(v, rest);
    case Boolean(_) => LiteralReadsBack(v, rest);
    case Number(text) => NumberReadsBack(text, rest);
    case Text(units) => TextReadsBack(units, rest);
    case List(items) =>
      if items != [] {
        ItemsReadBack(items, rest);
        ItemsStart(items, [93] + rest);
      }
      ListReads(items, rest);
    case Object(members) =>
      if members != [] {
        MembersReadBack(members, rest);
        MembersStart(members, [125] + rest);
      }
      ObjectReads(members, rest);
  }

  lemma ListReads(items: seq<Json>, rest: Units)
    requires AllValid(items)
    requires items != [] ==>
               ReadItems(PrintItems(items) + ([93] + rest)) == Some((items, rest))
               && (PrintItems(items) + ([93] + rest))[0] != 93
    ensures ReadValue(Print(List(items)) + rest) == Some((List(items), rest))
  {
    var s := Print(List(items)) + rest;
    hide ReadString, ReadItems, ReadMembers, NumberRun, NumberText, Valid;
    assert s[0] == 91 && s[1..] == PrintItems(items) + ([93] + rest);
    NoLiteral(s);
    StartsOne(s[1..], 93);
    if items == [] {
      assert s[1..] == [93] + rest && s[2..] == rest;
    }
    hide Starts, PrintItems, Print;
  }

  lemma StartsOne(s: Units, u: Unit)
    ensures Starts(s, [u]) <==> s != [] && s[0] == u
  {
    if s != [] {
      assert s[..1] == [s[0]];
    }
  }

  lemma ObjectReads(members: seq<Member>, rest: Units)
    requires members != [] ==>
               ReadMembers(PrintMembers(members) + ([125] + rest)) == Some((members, rest))
               && (PrintMembers(members) + ([125] + rest))[0] != 125
    ensures ReadValue(Print(Object(members)) + rest) == Some((Object(members), rest))
  {
    var s := Print(Object(members)) + rest;
    hide ReadString, ReadItems, ReadMembers, NumberRun, NumberText;
    assert s[0] == 123 && s[1..] == PrintMembers(members) + ([125] + rest);
    NoLiteral(s);
    StartsOne(s[1..], 125);
    if members == [] {
      assert s[1..] == [125] + rest && s[2..] == rest;
    }
    hide Starts, PrintMembers, Print;
  }

  lemma LastItemReads(item: Json, s: Units, rest: Units)
    requires ReadValue(s) == Some((item, [93] + rest))
    ensures ReadItems(s) == Some(([item], rest))
  {
    hide ReadValue;
    assert ([93] + rest)[1..] == rest;
  }

  lemma ItemThenItems(item: Json, items: seq<Json>, s: Units, more: Units, rest: Units)
    requires ReadValue(s) == Some((item, [COMMA] + more)) && ReadItems(more) == Some((items, rest))
    ensures ReadItems(s) == Some(([item] + items, rest))
  {
    hide ReadValue;
    assert ([COMMA] + more)[1..] == more;
  }

  lemma LastMemberReads(member: Member, s: Units, rest: Units)
    requires ReadMember(s) == Some((member, [125] + rest))
    ensures ReadMembers(s) == Some(([member], rest))
  {
    hide ReadMember;
    assert ([125] + rest)[1..] == rest;
  }

  lemma MemberThenMembers(member: Member, members: seq<Member>, s: Units, more: Units, rest: Units)
    requires ReadMember(s) == Some((member, [COMMA] + more)) && ReadMembers(more) == Some((members, rest))
    ensures ReadMembers(s) == Some(([member] + members, rest))
  {
    hide ReadMember;
    assert ([COMMA] + more)[1..] == more;
  }

  lemma {:induction false} ItemsReadBack(items: seq<Json>, rest: Units)
    requires items != [] && AllValid(items)
    ensures ReadItems(PrintItems(items) + ([93] + rest)) == Some((items, rest))
    decreases items, 1
  {
    hide Print, PrintItems, ReadValue, ReadItems, Valid;
    var end := [93] + rest;
    var more := PrintItems(items[1..]) + end;
    var after := if |items| == 1 then end else [COMMA] + more;
    ItemFirst(items, end, after);
    PrintedReadsBack(items[0], after);
    if |items| == 1 {
      LastItemReads(items[0], PrintItems(items) + end, rest);
      assert items == [items[0]];
    } else {
      ItemsReadBack(items[1..], rest);
      ItemThenItems(items[0], items[1..], PrintItems(items) + end, more, rest);
      assert items == [items[0]] + items[1..];
    }
  }

  lemma MemberReadsBack(m: Member, rest: Units)
    requires ReadValue(Print(m.value) + rest) == Some((m.value, rest))
    ensures ReadMember(Quoted(m.key) + ([COLON] + (Print(m.value) + rest))) == Some((m, rest))
  {
    hide Print, Quoted, ReadString, ReadValue;
    var after := [COLON] + (Print(m.value) + rest);
    QuotedReadsBack(m.key, after);
    assert after[1..] == Print(m.value) + rest;
  }

  lemma {:induction false} MembersReadBack(members: seq<Member>, rest: Units)
    requires members != [] && AllMembersValid(members)
    ensures ReadMembers(PrintMembers(members) + ([125] + rest)) == Some((members, rest))
    decreases members, 1
  {
    hide Print, PrintMembers, ReadValue, ReadMember, ReadMembers, Valid, Quoted;
    var end := [125] + rest;
    var more := PrintMembers(members[1..]) + end;
    var after := if |members| == 1 then end else [COMMA] + more;
    MemberFirst(members, end, after);
    PrintedReadsBack(members[0].value, after);
    MemberReadsBack(members[0], after);
    if |members| == 1 {
      LastMemberReads(members[0], PrintMembers(members) + end, rest);
      assert members == [members[0]];
    } else {
      MembersReadBack(members[1..], rest);
      MemberThenMembers(members[0], members[1..], PrintMembers(members) + end, more, rest);
      assert members == [members[0]] + members[1..];
    }
  }
}
