/**
 email-core `canonicalRequestHashInput`: sort the members of every object, then print.  Its output stands
 for what the value means, in which the order of members does not count and the order of items does.
 */
module CanonicalJson {
  import opened JsonText

  /** What a JSON value is, member order apart. */
  datatype Meaning =
    | Nothing
    | Truth(value: bool)
    | Figure(text: Units)
    | Words(units: Units)
    | Sequence(items: seq<Meaning>)
    | Mapping(entries: map<Units, Meaning>)

  function MeaningOf(v: Json): Meaning
    decreases v
  {
    match v
    case Null => Nothing
    case Boolean(b) => Truth(b)
    case Number(text) => Figure(text)
    case Text(units) => Words(units)
    case List(items) => Sequence(Meanings(items))
    case Object(members) => Mapping(Entries(members))
  }

  function Meanings(items: seq<Json>): seq<Meaning>
    decreases items
  {
    if items == [] then [] else [MeaningOf(items[0])] + Meanings(items[1..])
  }

  function Entries(members: seq<Member>): map<Units, Meaning>
    decreases members
  {
    if members == [] then map[] else Entries(members[1..])[members[0].key := MeaningOf(members[0].value)]
  }

  // ------------------------------------------------------------------ the order of an object's members

  predicate AllDigits(k: Units) {
    k != [] && forall i :: 0 <= i < |k| ==> 48 <= k[i] < 58
  }

  function Value(k: Units): int
    decreases |k|
  {
    if k == [] then 0 else 10 * Value(k[..|k| - 1]) + (k[|k| - 1] as int - 48)
  }

  /** An array index (section 6.1.7 of ECMA-262): the decimal text of an integer below 2^32 - 1. */
  predicate IsIndex(k: Units) {
    AllDigits(k) && (|k| == 1 || k[0] != 48) && Value(k) < 0xFFFF_FFFF
  }

  predicate ByValue(a: Units, b: Units) {
    Value(a) <= Value(b)
  }

  function Insert(leq: (Units, Units) -> bool, m: Member, members: seq<Member>): seq<Member> {
    if members == [] then [m]
    else if leq(m.key, members[0].key) then [m] + members
    else [members[0]] + Insert(leq, m, members[1..])
  }

  /** A stable sort. */
  function Sort(leq: (Units, Units) -> bool, members: seq<Member>): seq<Member> {
    if members == [] then [] else Insert(leq, members[0], Sort(leq, members[1..]))
  }

  function Indexed(members: seq<Member>, index: bool): seq<Member> {
    if members == [] then []
    else if IsIndex(members[0].key) == index then [members[0]] + Indexed(members[1..], index)
    else Indexed(members[1..], index)
  }

  /** OrdinaryOwnPropertyKeys of an object whose members were added in this order: indices first, in number order. */
  function Enumerate(members: seq<Member>): seq<Member> {
    Sort(ByValue, Indexed(members, true)) + Indexed(members, false)
  }

  /** The comparator, as in `left.localeCompare(right)`. */
  type Compare = (Units, Units) -> int

  function Leq(cmp: Compare): (Units, Units) -> bool {
    (a, b) => cmp(a, b) <= 0
  }

  function Arrange(cmp: Compare, members: seq<Member>): seq<Member> {
    Enumerate(Sort(Leq(cmp), members))
  }

  function Normalize(cmp: Compare, v: Json): Json
    decreases v
  {
    match v
    case List(items) => List(NormalizeItems(cmp, items))
    case Object(members) => Object(Arrange(cmp, NormalizeMembers(cmp, members)))
    case _ => v
  }

  function NormalizeItems(cmp: Compare, items: seq<Json>): seq<Json>
    decreases items
  {
    if items == [] then [] else [Normalize(cmp, items[0])] + NormalizeItems(cmp, items[1..])
  }

  function NormalizeMembers(cmp: Compare, members: seq<Member>): seq<Member>
    decreases members
  {
    if members == [] then []
    else [Member(members[0].key, Normalize(cmp, members[0].value))] + NormalizeMembers(cmp, members[1..])
  }

  function Canonical(cmp: Compare, v: Json): Units {
    Print(Normalize(cmp, v))
  }

  // ------------------------------------------------------------------ assumptions on the comparator

  ghost predicate TotalPreorder(leq: (Units, Units) -> bool) {
    (forall a, b :: leq(a, b) || leq(b, a))
    && (forall a, b, c :: leq(a, b) && leq(b, c) ==> leq(a, c))
  }

  /** A comparator whose sign is antisymmetric and whose order is transitive, as sort requires. */
  ghost predicate Consistent(cmp: Compare) {
    (forall a, b :: cmp(a, b) < 0 <==> cmp(b, a) > 0) && TotalPreorder(Leq(cmp))
  }

  /** No two distinct keys compare equal, array indices apart: those are never ordered by the comparator. */
  predicate Untied(cmp: Compare, members: seq<Member>) {
    forall m, n :: m in members && n in members && m.key != n.key && !IsIndex(m.key) && !IsIndex(n.key) ==>
      cmp(m.key, n.key) != 0
  }

  /** No object in the value, at any depth, holds two keys that compare equal. */
  predicate TieFree(cmp: Compare, v: Json)
    decreases v
  {
    match v
    case List(items) => forall i :: 0 <= i < |items| ==> TieFree(cmp, items[i])
    case Object(members) => Untied(cmp, members) && forall i :: 0 <= i < |members| ==> TieFree(cmp, members[i].value)
    case _ => true
  }

  // ------------------------------------------------------------------ sorting permutes

  predicate Avoids(members: seq<Member>, k: Units) {
    forall m :: m in members ==> m.key != k
  }

  predicate Ordered(leq: (Units, Units) -> bool, members: seq<Member>) {
    forall i, j :: 0 <= i < j < |members| ==> leq(members[i].key, members[j].key)
  }

  lemma {:induction false} InsertPermutes(leq: (Units, Units) -> bool, m: Member, members: seq<Member>)
    ensures forall x :: x in Insert(leq, m, members) <==> x == m || x in members
    ensures DistinctKeys(members) && Avoids(members, m.key) ==> DistinctKeys(Insert(leq, m, members))
  {
    if members != [] && !leq(m.key, members[0].key) {
      InsertPermutes(leq, m, members[1..]);
      assert members == [members[0]] + members[1..];
      var rest := Insert(leq, m, members[1..]);
      if DistinctKeys(members) && Avoids(members, m.key) {
        forall j | 0 <= j < |rest| ensures rest[j].key != members[0].key {
          assert rest[j] in rest;
        }
      }
    }
  }

  lemma {:induction false} SortPermutes(leq: (Units, Units) -> bool, members: seq<Member>)
    ensures forall x :: x in Sort(leq, members) <==> x in members
    ensures DistinctKeys(members) ==> DistinctKeys(Sort(leq, members))
  {
    if members != [] {
      SortPermutes(leq, members[1..]);
      InsertPermutes(leq, members[0], Sort(leq, members[1..]));
      assert members == [members[0]] + members[1..];
    }
  }

  lemma {:induction false} InsertOrders(leq: (Units, Units) -> bool, m: Member, members: seq<Member>)
    requires TotalPreorder(leq) && Ordered(leq, members)
    ensures Ordered(leq, Insert(leq, m, members))
  {
    if members != [] && !leq(m.key, members[0].key) {
      InsertOrders(leq, m, members[1..]);
      InsertPermutes(leq, m, members[1..]);
      var rest := Insert(leq, m, members[1..]);
      forall j | 0 <= j < |rest| ensures leq(members[0].key, rest[j].key) {
        assert rest[j] in rest;
      }
    }
  }

  lemma {:induction false} SortOrders(leq: (Units, Units) -> bool, members: seq<Member>)
    requires TotalPreorder(leq)
    ensures Ordered(leq, Sort(leq, members))
  {
    if members != [] {
      SortOrders(leq, members[1..]);
      InsertOrders(leq, members[0], Sort(leq, members[1..]));
    }
  }

  lemma {:induction false} IndexedKeeps(members: seq<Member>, index: bool)
    ensures forall x :: x in Indexed(members, index) <==> x in members && IsIndex(x.key) == index
    ensures DistinctKeys(members) ==> DistinctKeys(Indexed(members, index))
  {
    if members != [] {
      IndexedKeeps(members[1..], index);
      assert members == [members[0]] + members[1..];
    }
  }

  lemma {:induction false} IndexedOrders(leq: (Units, Units) -> bool, members: seq<Member>, index: bool)
    requires Ordered(leq, members)
    ensures Ordered(leq, Indexed(members, index))
  {
    if members != [] {
      IndexedOrders(leq, members[1..], index);
      IndexedKeeps(members[1..], index);
      var rest := Indexed(members[1..], index);
      forall j | 0 <= j < |rest| ensures leq(members[0].key, rest[j].key) {
        assert rest[j] in members[1..];
      }
    }
  }

  lemma ArrangePermutes(cmp: Compare, members: seq<Member>)
    ensures forall x :: x in Arrange(cmp, members) <==> x in members
    ensures DistinctKeys(members) ==> DistinctKeys(Arrange(cmp, members))
  {
    var sorted := Sort(Leq(cmp), members);
    SortPermutes(Leq(cmp), members);
    IndexedKeeps(sorted, true);
    IndexedKeeps(sorted, false);
    SortPermutes(ByValue, Indexed(sorted, true));
    var l, r := Sort(ByValue, Indexed(sorted, true)), Indexed(sorted, false);
    if DistinctKeys(members) {
      forall i, j | 0 <= i < |l| && 0 <= j < |r| ensures l[i].key != r[j].key {
        assert l[i] in l && r[j] in r;
      }
    }
  }

  // ------------------------------------------------------------------ the arranged order is strict

  /** Index keys come first, in number order; the others follow in the comparator's order. */
  predicate Before(cmp: Compare, a: Units, b: Units) {
    if IsIndex(a) && IsIndex(b) then Value(a) < Value(b)
    else if IsIndex(a) || IsIndex(b) then IsIndex(a)
    else cmp(a, b) < 0
  }

  predicate StrictlyOrdered(cmp: Compare, members: seq<Member>) {
    forall i, j :: 0 <= i < j < |members| ==> Before(cmp, members[i].key, members[j].key)
  }

  lemma {:induction false} ValueIsPositive(k: Units)
    requires AllDigits(k) && k[0] != 48
    ensures Value(k) > 0
    decreases |k|
  {
    if |k| == 1 {
      assert Value(k[..0]) == 0;
    } else {
      ValueIsPositive(k[..|k| - 1]);
    }
  }

  /** Texts of the same number without a leading zero are the same text. */
  lemma {:induction false} ValueIsInjective(a: Units, b: Units)
    requires AllDigits(a) && AllDigits(b) && (|a| == 1 || a[0] != 48) && (|b| == 1 || b[0] != 48)
    requires Value(a) == Value(b)
    ensures a == b
    decreases |a|
  {
    var x, y := a[..|a| - 1], b[..|b| - 1];
    assert a == x + [a[|a| - 1]] && b == y + [b[|b| - 1]];
    SameDecimal(Value(x), a[|a| - 1] as int - 48, Value(y), b[|b| - 1] as int - 48);
    if |a| == 1 || |b| == 1 {
      if |a| > 1 { ValueIsPositive(x); }
      if |b| > 1 { ValueIsPositive(y); }
      assert Value([]) == 0;
    } else {
      ValueIsInjective(x, y);
    }
  }

  lemma SameDecimal(x: int, d: int, y: int, e: int)
    requires 0 <= d < 10 && 0 <= e < 10 && 10 * x + d == 10 * y + e
    ensures x == y && d == e
  {
  }

  /** The decimal text of a number. */
  function Decimal(n: nat): Units {
    (if n < 10 then [] else Decimal(n / 10)) + [48 + n % 10]
  }

  lemma {:induction false} DecimalReads(n: nat)
    ensures AllDigits(Decimal(n)) && Value(Decimal(n)) == n
    ensures if n < 10 then |Decimal(n)| == 1 else Decimal(n)[0] != 48
    decreases n
  {
    var most := if n < 10 then [] else Decimal(n / 10);
    if n >= 10 {
      DecimalReads(n / 10);
    }
    var k := most + [48 + n % 10];
    assert k[..|k| - 1] == most && k[|k| - 1] == 48 + n % 10;
    assert Value([]) == 0;
    if n >= 10 {
      assert k[0] == most[0];
      assert n / 10 < 10 ==> most == [48 + n / 10];
    }
  }

  /** An array index is the decimal text of a number below 2^32 - 1, and nothing else is. */
  lemma IndexIsDecimal(k: Units)
    ensures IsIndex(k) <==> exists n: nat :: n < 0xFFFF_FFFF && k == Decimal(n)
  {
    if IsIndex(k) {
      DigitsAreNatural(k);
      var n: nat := Value(k);
      DecimalReads(n);
      ValueIsInjective(k, Decimal(n));
    }
    forall n: nat | n < 0xFFFF_FFFF && k == Decimal(n) ensures IsIndex(k) {
      DecimalReads(n);
    }
  }

  lemma {:induction false} DigitsAreNatural(k: Units)
    requires forall i :: 0 <= i < |k| ==> 48 <= k[i] < 58
    ensures Value(k) >= 0
    decreases |k|
  {
    if k != [] {
      DigitsAreNatural(k[..|k| - 1]);
    }
  }

  lemma ArrangeOrders(cmp: Compare, members: seq<Member>)
    requires Consistent(cmp) && Untied(cmp, members) && DistinctKeys(members)
    ensures StrictlyOrdered(cmp, Arrange(cmp, members))
  {
    var sorted := Sort(Leq(cmp), members);
    SortPermutes(Leq(cmp), members);
    SortOrders(Leq(cmp), members);
    IndexedKeeps(sorted, true);
    IndexedKeeps(sorted, false);
    IndexedOrders(Leq(cmp), sorted, false);
    SortPermutes(ByValue, Indexed(sorted, true));
    SortOrders(ByValue, Indexed(sorted, true));
    var l, r := Sort(ByValue, Indexed(sorted, true)), Indexed(sorted, false);
    IndicesAreStrict(cmp, l);
    assert forall x :: x in r ==> x in members;
    OthersAreStrict(cmp, r);
    hide Consistent, Untied, Sort, Indexed;
    forall i, j | 0 <= i < |l| && 0 <= j < |r| ensures Before(cmp, l[i].key, r[j].key) {
      assert l[i] in l && r[j] in r;
    }
  }

  lemma IndicesAreStrict(cmp: Compare, l: seq<Member>)
    requires DistinctKeys(l) && Ordered(ByValue, l) && forall x :: x in l ==> IsIndex(x.key)
    ensures StrictlyOrdered(cmp, l)
  {
    forall i, j | 0 <= i < j < |l| ensures Before(cmp, l[i].key, l[j].key) {
      assert l[i] in l && l[j] in l && ByValue(l[i].key, l[j].key);
      if Value(l[i].key) == Value(l[j].key) {
        ValueIsInjective(l[i].key, l[j].key);
      }
    }
  }

  lemma OthersAreStrict(cmp: Compare, r: seq<Member>)
    requires Untied(cmp, r) && DistinctKeys(r) && Ordered(Leq(cmp), r) && forall x :: x in r ==> !IsIndex(x.key)
    ensures StrictlyOrdered(cmp, r)
  {
    forall i, j | 0 <= i < j < |r| ensures Before(cmp, r[i].key, r[j].key) {
      assert r[i] in r && r[j] in r && Leq(cmp)(r[i].key, r[j].key);
      assert cmp(r[i].key, r[j].key) != 0;
    }
  }

  /** There is one strictly ordered list of given members. */
  lemma {:induction false} OrderIsUnique(cmp: Compare, a: seq<Member>, b: seq<Member>)
    requires Consistent(cmp) && StrictlyOrdered(cmp, a) && StrictlyOrdered(cmp, b)
    requires forall x :: x in a <==> x in b
    ensures a == b
    decreases |a|
  {
    if a == [] {
      Nobody(b);
    } else {
      assert a[0] in b;
      assert b != [] && b[0] in a;
      var i :| 0 <= i < |a| && a[i] == b[0];
      var j :| 0 <= j < |b| && b[j] == a[0];
      FirstIsFirst(cmp, a, i);
      FirstIsFirst(cmp, b, j);
      BeforeIsAsymmetric(cmp, a[0].key, b[0].key);
      assert a[0] == b[0];
      NotAgain(cmp, a);
      NotAgain(cmp, b);
      forall x ensures x in a[1..] <==> x in b[1..] {
        HeadOrTail(a, x);
        HeadOrTail(b, x);
      }
      OrderIsUnique(cmp, a[1..], b[1..]);
      assert a == [a[0]] + a[1..] && b == [b[0]] + b[1..];
    }
  }

  lemma FirstIsFirst(cmp: Compare, a: seq<Member>, i: nat)
    requires StrictlyOrdered(cmp, a) && i < |a|
    ensures i == 0 || Before(cmp, a[0].key, a[i].key)
  {
  }

  lemma BeforeIsAsymmetric(cmp: Compare, x: Units, y: Units)
    requires Consistent(cmp)
    ensures !(Before(cmp, x, y) && Before(cmp, y, x))
  {
  }

  lemma Nobody(b: seq<Member>)
    ensures b == [] <==> forall x :: x !in b
  {
    assert b != [] ==> b[0] in b;
  }

  lemma HeadOrTail(a: seq<Member>, x: Member)
    requires a != []
    ensures x in a <==> x == a[0] || x in a[1..]
  {
    assert a == [a[0]] + a[1..];
  }

  lemma NotAgain(cmp: Compare, a: seq<Member>)
    requires Consistent(cmp) && StrictlyOrdered(cmp, a) && a != []
    ensures a[0] !in a[1..]
  {
    forall i | 0 <= i < |a[1..]| ensures a[1..][i] != a[0] {
      assert Before(cmp, a[0].key, a[i + 1].key);
    }
  }

  // ------------------------------------------------------------------ meaning

  /** The member with this key, if there is one. */
  function Find(members: seq<Member>, k: Units): (r: seq<Member>)
    ensures r == [] || (|r| == 1 && r[0] in members && r[0].key == k)
  {
    if members == [] then [] else if members[0].key == k then [members[0]] else Find(members[1..], k)
  }

  lemma {:induction false} EntryAt(members: seq<Member>, k: Units)
    ensures k in Entries(members) <==> Find(members, k) != []
    ensures k in Entries(members) ==> Entries(members)[k] == MeaningOf(Find(members, k)[0].value)
    decreases members
  {
    if members != [] {
      EntryAt(members[1..], k);
    }
  }

  lemma {:induction false} FindAt(members: seq<Member>, m: Member)
    requires DistinctKeys(members) && m in members
    ensures Find(members, m.key) == [m]
  {
    if m != members[0] {
      assert members == [members[0]] + members[1..];
      FindAt(members[1..], m);
      var i :| 0 <= i < |members| && members[i] == m;
    }
  }

  lemma EntriesAt(members: seq<Member>)
    requires DistinctKeys(members)
    ensures forall m :: m in members ==> m.key in Entries(members) && Entries(members)[m.key] == MeaningOf(m.value)
    ensures forall k :: k in Entries(members) ==>
              Find(members, k) != [] && Find(members, k)[0] in members && Find(members, k)[0].key == k
  {
    forall m | m in members ensures m.key in Entries(members) && Entries(members)[m.key] == MeaningOf(m.value) {
      EntryAt(members, m.key);
      FindAt(members, m);
    }
    forall k | k in Entries(members) ensures Find(members, k) != [] {
      EntryAt(members, k);
    }
  }

  /** Entries depend on which members there are, not on their order. */
  lemma PermutedEntries(a: seq<Member>, b: seq<Member>)
    requires DistinctKeys(a) && DistinctKeys(b) && forall x :: x in a <==> x in b
    ensures Entries(a) == Entries(b)
  {
    EntriesAt(a);
    EntriesAt(b);
    hide Entries, MeaningOf, Find;
    forall k ensures k in Entries(a) <==> k in Entries(b) {
      if k in Entries(a) { assert Find(a, k)[0] in b; }
      if k in Entries(b) { assert Find(b, k)[0] in a; }
    }
    forall k | k in Entries(a) ensures Entries(a)[k] == Entries(b)[k] {
      assert Find(a, k)[0] in b;
    }
  }

  // ------------------------------------------------------------------ normalising

  lemma {:induction false} MembersNormalized(cmp: Compare, members: seq<Member>)
    ensures |NormalizeMembers(cmp, members)| == |members|
    ensures forall i :: 0 <= i < |members| ==>
              NormalizeMembers(cmp, members)[i] == Member(members[i].key, Normalize(cmp, members[i].value))
    decreases members
  {
    if members != [] {
      MembersNormalized(cmp, members[1..]);
    }
  }

  lemma {:induction false} ItemsNormalized(cmp: Compare, items: seq<Json>)
    ensures |NormalizeItems(cmp, items)| == |items| == |Meanings(items)|
    ensures forall i :: 0 <= i < |items| ==>
              NormalizeItems(cmp, items)[i] == Normalize(cmp, items[i]) && Meanings(items)[i] == MeaningOf(items[i])
    decreases items
  {
    if items != [] {
      ItemsNormalized(cmp, items[1..]);
    }
  }

  lemma {:induction false} EntriesOfNormalized(cmp: Compare, members: seq<Member>)
    requires forall i :: 0 <= i < |members| ==>
             MeaningOf(Normalize(cmp, members[i].value)) == MeaningOf(members[i].value)
    ensures Entries(NormalizeMembers(cmp, members)) == Entries(members)
    decreases members
  {
    if members != [] {
      EntriesOfNormalized(cmp, members[1..]);
      var n := NormalizeMembers(cmp, members);
      assert n[1..] == NormalizeMembers(cmp, members[1..]);
    }
  }

  /** Normalising keeps a value valid and keeps what it means, whatever the comparator. */
  lemma {:induction false} NormalizeKeepsMeaning(cmp: Compare, v: Json)
    requires Valid(v)
    ensures Valid(Normalize(cmp, v)) && MeaningOf(Normalize(cmp, v)) == MeaningOf(v)
    decreases v
  {
    match v
    case List(items) =>
      forall i | 0 <= i < |items|
        ensures Valid(Normalize(cmp, items[i])) && MeaningOf(Normalize(cmp, items[i])) == MeaningOf(items[i]) {
        NormalizeKeepsMeaning(cmp, items[i]);
      }
      var n := NormalizeItems(cmp, items);
      ItemsNormalized(cmp, items);
      ItemsNormalized(cmp, n);
      assert Meanings(n) == Meanings(items);
    case Object(members) =>
      forall i | 0 <= i < |members|
        ensures Valid(Normalize(cmp, members[i].value))
                && MeaningOf(Normalize(cmp, members[i].value)) == MeaningOf(members[i].value)
      {
        NormalizeKeepsMeaning(cmp, members[i].value);
      }
      ObjectKeepsMeaning(cmp, members);
    case _ =>
  }

  lemma ObjectUnfolds(cmp: Compare, members: seq<Member>)
    ensures Normalize(cmp, Object(members)) == Object(Arrange(cmp, NormalizeMembers(cmp, members)))
    ensures MeaningOf(Object(members)) == Mapping(Entries(members))
  {
  }

  lemma ObjectKeepsMeaning(cmp: Compare, members: seq<Member>)
    requires DistinctKeys(members)
    requires forall i :: 0 <= i < |members| ==>
               Valid(Normalize(cmp, members[i].value))
                   && MeaningOf(Normalize(cmp, members[i].value)) == MeaningOf(members[i].value)
    ensures Valid(Normalize(cmp, Object(members)))
            && MeaningOf(Normalize(cmp, Object(members))) == Mapping(Entries(members))
  {
    hide Arrange, Entries, NormalizeMembers, Normalize, MeaningOf;
    var n := NormalizeMembers(cmp, members);
    MembersNormalized(cmp, members);
    EntriesOfNormalized(cmp, members);
    assert DistinctKeys(n);
    ArrangePermutes(cmp, n);
    var a := Arrange(cmp, n);
    PermutedEntries(a, n);
    forall i | 0 <= i < |a| ensures Valid(a[i].value) {
      assert a[i] in n;
    }
    ObjectUnfolds(cmp, members);
    ObjectUnfolds(cmp, a);
  }

  /** Equal meanings have equal normal forms, if no two keys of the value tie. */
  lemma {:induction false} MeaningDecidesNormalForm(cmp: Compare, v: Json, w: Json)
    requires Consistent(cmp) && TieFree(cmp, v) && Valid(v) && Valid(w) && MeaningOf(v) == MeaningOf(w)
    ensures Normalize(cmp, v) == Normalize(cmp, w)
    decreases v
  {
    match v
    case List(items) =>
      ItemsNormalized(cmp, items);
      ItemsNormalized(cmp, w.items);
      forall i | 0 <= i < |items| ensures NormalizeItems(cmp, items)[i] == NormalizeItems(cmp, w.items)[i] {
        assert Meanings(items)[i] == Meanings(w.items)[i];
        MeaningDecidesNormalForm(cmp, items[i], w.items[i]);
      }
      assert NormalizeItems(cmp, items) == NormalizeItems(cmp, w.items);
    case Object(members) =>
      forall m, n | m in members && n in w.members && MeaningOf(m.value) == MeaningOf(n.value)
        ensures Normalize(cmp, m.value) == Normalize(cmp, n.value)
      {
        MeaningDecidesNormalForm(cmp, m.value, n.value);
      }
      MembersDecideNormalForm(cmp, members, w.members);
    case _ =>
  }

  lemma SameUntied(cmp: Compare, a: seq<Member>, b: seq<Member>)
    requires Untied(cmp, a) && forall m :: m in a <==> m in b
    ensures Untied(cmp, b)
  {
  }

  lemma MembersDecideNormalForm(cmp: Compare, a: seq<Member>, b: seq<Member>)
    requires Consistent(cmp) && Untied(cmp, a) && DistinctKeys(a) && DistinctKeys(b) && Entries(a) == Entries(b)
    requires forall m, n :: m in a && n in b && MeaningOf(m.value) == MeaningOf(n.value) ==>
             Normalize(cmp, m.value) == Normalize(cmp, n.value)
    ensures Arrange(cmp, NormalizeMembers(cmp, a)) == Arrange(cmp, NormalizeMembers(cmp, b))
  {
    hide Arrange, Entries, MeaningOf, Normalize, NormalizeMembers, Find, Untied, StrictlyOrdered, Consistent;
    var x, y := NormalizeMembers(cmp, a), NormalizeMembers(cmp, b);
    MembersNormalized(cmp, a);
    MembersNormalized(cmp, b);
    forall m ensures m in x <==> m in y {
      if m in x { Counterpart(cmp, a, b, m); }
      if m in y { Counterpart(cmp, b, a, m); }
    }
    assert DistinctKeys(x) && DistinctKeys(y);
    NormalizedUntied(cmp, a);
    SameUntied(cmp, x, y);
    ArrangePermutes(cmp, x);
    ArrangePermutes(cmp, y);
    ArrangeOrders(cmp, x);
    ArrangeOrders(cmp, y);
    OrderIsUnique(cmp, Arrange(cmp, x), Arrange(cmp, y));
  }

  /** Normalising the values leaves the keys. */
  lemma NormalizedUntied(cmp: Compare, members: seq<Member>)
    requires Untied(cmp, members)
    ensures Untied(cmp, NormalizeMembers(cmp, members))
  {
    var x := NormalizeMembers(cmp, members);
    MembersNormalized(cmp, members);
    hide NormalizeMembers, Normalize;
    forall m, n | m in x && n in x && m.key != n.key && !IsIndex(m.key) && !IsIndex(n.key)
      ensures cmp(m.key, n.key) != 0 {
      var i :| 0 <= i < |x| && x[i] == m;
      var j :| 0 <= j < |x| && x[j] == n;
      assert members[i] in members && members[j] in members;
    }
  }

  lemma Counterpart(cmp: Compare, a: seq<Member>, b: seq<Member>, x: Member)
    requires DistinctKeys(a) && DistinctKeys(b) && Entries(a) == Entries(b) && x in NormalizeMembers(cmp, a)
    requires forall m, n :: m in a && n in b && MeaningOf(m.value) == MeaningOf(n.value) ==>
             Normalize(cmp, m.value) == Normalize(cmp, n.value)
    ensures x in NormalizeMembers(cmp, b)
  {
    MembersNormalized(cmp, a);
    MembersNormalized(cmp, b);
    EntriesAt(a);
    EntriesAt(b);
    hide Entries, Normalize, NormalizeMembers, MeaningOf;
    var i :| 0 <= i < |a| && NormalizeMembers(cmp, a)[i] == x;
    assert a[i] in a && a[i].key in Entries(b);
    var n := Find(b, a[i].key)[0];
    var j :| 0 <= j < |b| && b[j] == n;
    assert NormalizeMembers(cmp, b)[j] == x;
  }

  // ------------------------------------------------------------------ main results

  /** Equal hashing inputs mean equal requests, whatever the comparator does. */
  lemma CanonicalIsSound(cmp: Compare, v: Json, w: Json)
    requires Valid(v) && Valid(w) && Canonical(cmp, v) == Canonical(cmp, w)
    ensures MeaningOf(v) == MeaningOf(w)
  {
    NormalizeKeepsMeaning(cmp, v);
    NormalizeKeepsMeaning(cmp, w);
    hide Normalize, Print, MeaningOf, Valid;
    var a, b := Print(Normalize(cmp, v)), Print(Normalize(cmp, w));
    assert a + [] == a && b + [] == b;
    PrintReads(Normalize(cmp, v), Normalize(cmp, w), [], []);
  }
}
