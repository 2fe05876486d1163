/**
 When `canonicalRequestHashInput` is exact: for a value no two of whose keys compare equal, and for no other.  Two
 keys that do compare equal keep the order they came in, and so the same request has two hashing inputs.
 */
module CanonicalTies {
  import opened JsonText
  import opened CanonicalJson
  import opened JsonReader

  /** For a value without ties, the values that hash like it are those that mean the same. */
  lemma CanonicalIsExact(cmp: Compare, v: Json, w: Json)
    requires Consistent(cmp) && TieFree(cmp, v) && Valid(v) && Valid(w)
    ensures Canonical(cmp, v) == Canonical(cmp, w) <==> MeaningOf(v) == MeaningOf(w)
  {
    hide Normalize, Print, MeaningOf, Valid, Consistent, TieFree;
    if MeaningOf(v) == MeaningOf(w) {
      MeaningDecidesNormalForm(cmp, v, w);
    }
    if Canonical(cmp, v) == Canonical(cmp, w) {
      CanonicalIsSound(cmp, v, w);
    }
  }

  // ------------------------------------------------------------------ ties keep their order

  predicate Precedes(members: seq<Member>, x: Member, y: Member) {
    exists i, j :: 0 <= i < j < |members| && members[i] == x && members[j] == y
  }

  /** Main result: a JSON reader gets from a hashing input a value that means what was hashed, and nothing is left. */
  lemma CanonicalReadsBack(cmp: Compare, v: Json)
    requires Valid(v)
    ensures var r := ReadValue(Canonical(cmp, v));
            r.Some? && r.value.1 == [] && Valid(r.value.0) && MeaningOf(r.value.0) == MeaningOf(v)
  {
    hide Normalize, Print, MeaningOf, Valid, ReadValue;
    NormalizeKeepsMeaning(cmp, v);
    PrintedReadsBack(Normalize(cmp, v), []);
    assert Print(Normalize(cmp, v)) + [] == Print(Normalize(cmp, v));
  }

  lemma PrecedesHere(members: seq<Member>, i: nat, j: nat)
    requires i < j < |members|
    ensures Precedes(members, members[i], members[j])
  {
  }

  lemma PrecedesBehind(before: seq<Member>, members: seq<Member>, x: Member, y: Member)
    requires Precedes(members, x, y)
    ensures Precedes(before + members, x, y)
  {
    var i, j :| 0 <= i < j < |members| && members[i] == x && members[j] == y;
    PrecedesHere(before + members, |before| + i, |before| + j);
  }

  lemma PrecedesFirst(x: Member, members: seq<Member>, y: Member)
    requires y in members
    ensures Precedes([x] + members, x, y)
  {
    var j :| 0 <= j < |members| && members[j] == y;
    PrecedesHere([x] + members, 0, j + 1);
  }

  /** The first member, or both in the rest. */
  lemma PrecedesSplits(members: seq<Member>, x: Member, y: Member)
    requires Precedes(members, x, y)
    ensures members != []
    ensures (x == members[0] && y in members[1..]) || Precedes(members[1..], x, y)
  {
    var i, j :| 0 <= i < j < |members| && members[i] == x && members[j] == y;
    assert y == members[1..][j - 1];
    if i > 0 {
      PrecedesHere(members[1..], i - 1, j - 1);
    }
  }

  lemma {:induction false} InsertsBefore(leq: (Units, Units) -> bool, m: Member, members: seq<Member>, y: Member)
    requires y in members && leq(m.key, y.key)
    ensures Precedes(Insert(leq, m, members), m, y)
  {
    hide Precedes;
    if leq(m.key, members[0].key) {
      PrecedesFirst(m, members, y);
    } else {
      assert members == [members[0]] + members[1..];
      InsertsBefore(leq, m, members[1..], y);
      PrecedesBehind([members[0]], Insert(leq, m, members[1..]), m, y);
    }
  }

  lemma {:induction false} InsertKeepsPrecedes(leq: (Units, Units) -> bool, m: Member, members: seq<Member>, x: Member,
      y: Member)
    requires Precedes(members, x, y)
    ensures Precedes(Insert(leq, m, members), x, y)
  {
    PrecedesSplits(members, x, y);
    hide Precedes;
    if leq(m.key, members[0].key) {
      PrecedesBehind([m], members, x, y);
    } else {
      var rest := Insert(leq, m, members[1..]);
      InsertPermutes(leq, m, members[1..]);
      if Precedes(members[1..], x, y) {
        InsertKeepsPrecedes(leq, m, members[1..], x, y);
        PrecedesBehind([members[0]], rest, x, y);
      } else {
        PrecedesFirst(x, rest, y);
      }
    }
  }

  lemma {:induction false} SortIsStable(leq: (Units, Units) -> bool, members: seq<Member>, x: Member, y: Member)
    requires Precedes(members, x, y) && leq(x.key, y.key)
    ensures Precedes(Sort(leq, members), x, y)
  {
    PrecedesSplits(members, x, y);
    hide Precedes;
    var rest := Sort(leq, members[1..]);
    SortPermutes(leq, members[1..]);
    if Precedes(members[1..], x, y) {
      SortIsStable(leq, members[1..], x, y);
      InsertKeepsPrecedes(leq, members[0], rest, x, y);
    } else {
      InsertsBefore(leq, x, rest, y);
    }
  }

  lemma {:induction false} IndexedKeepsPrecedes(members: seq<Member>, x: Member, y: Member)
    requires Precedes(members, x, y) && !IsIndex(x.key) && !IsIndex(y.key)
    ensures Precedes(Indexed(members, false), x, y)
  {
    PrecedesSplits(members, x, y);
    hide Precedes, IsIndex;
    var rest := Indexed(members[1..], false);
    if Precedes(members[1..], x, y) {
      IndexedKeepsPrecedes(members[1..], x, y);
      PrecedesBehind([members[0]], rest, x, y);
    } else {
      IndexedKeeps(members[1..], false);
      PrecedesFirst(x, rest, y);
    }
  }

  predicate Tied(cmp: Compare, x: Member, y: Member) {
    x.key != y.key && !IsIndex(x.key) && !IsIndex(y.key) && cmp(x.key, y.key) == 0
  }

  lemma ArrangeIsStable(cmp: Compare, members: seq<Member>, x: Member, y: Member)
    requires Tied(cmp, x, y) && Precedes(members, x, y)
    ensures Precedes(Arrange(cmp, members), x, y)
  {
    var sorted := Sort(Leq(cmp), members);
    assert Leq(cmp)(x.key, y.key);
    SortIsStable(Leq(cmp), members, x, y);
    IndexedKeepsPrecedes(sorted, x, y);
    PrecedesBehind(Sort(ByValue, Indexed(sorted, true)), Indexed(sorted, false), x, y);
  }

  lemma NotBothWays(members: seq<Member>, x: Member, y: Member)
    requires DistinctKeys(members) && Precedes(members, x, y)
    ensures !Precedes(members, y, x)
  {
  }

  // ------------------------------------------------------------------ the other hashing input

  /**
   The order in which JavaScript enumerates an object's keys: array indices first, by value (section 10.1.11 of
   ECMA-262).
   */
  predicate IndicesFirst(members: seq<Member>) {
    forall i, j :: 0 <= i < j < |members| && IsIndex(members[j].key) ==>
      IsIndex(members[i].key) && Value(members[i].key) < Value(members[j].key)
  }

  /** Every object in the value enumerates its keys as it lists them. */
  predicate Enumerable(v: Json)
    decreases v
  {
    match v
    case List(items) => forall i :: 0 <= i < |items| ==> Enumerable(items[i])
    case Object(members) => IndicesFirst(members) && forall i :: 0 <= i < |members| ==> Enumerable(members[i].value)
    case _ => true
  }

  function MoveBefore(members: seq<Member>, i: nat, j: nat): seq<Member>
    requires i < j < |members|
  {
    members[..i] + [members[j]] + members[i..j] + members[j + 1..]
  }

  lemma MoveBeforePermutes(members: seq<Member>, i: nat, j: nat)
    requires i < j < |members|
    ensures forall x :: x in MoveBefore(members, i, j) <==> x in members
    ensures DistinctKeys(members) ==> DistinctKeys(MoveBefore(members, i, j))
    ensures |MoveBefore(members, i, j)| == |members| && MoveBefore(members, i, j)[i] == members[j]
    ensures MoveBefore(members, i, j)[i + 1] == members[i]
  {
    assert members == members[..i] + members[i..j] + [members[j]] + members[j + 1..];
  }

  /** Names move among names only. */
  lemma MoveBeforeEnumerates(members: seq<Member>, i: nat, j: nat)
    requires i < j < |members| && IndicesFirst(members) && !IsIndex(members[i].key)
    ensures IndicesFirst(MoveBefore(members, i, j))
  {
    hide IsIndex, Value;
    var moved := MoveBefore(members, i, j);
    assert forall k :: i <= k < |members| ==> !IsIndex(members[k].key);
    assert forall k :: 0 <= k < i ==> moved[k] == members[k];
    assert forall k :: i <= k < |moved| ==> moved[k] in members[i..];
    forall k | i <= k < |moved| ensures !IsIndex(moved[k].key) {
      var l :| 0 <= l < |members[i..]| && members[i..][l] == moved[k];
    }
  }

  lemma ArrangedOtherwise(cmp: Compare, n: seq<Member>, m: seq<Member>, x: Member, y: Member)
    requires DistinctKeys(n) && Tied(cmp, x, y) && Tied(cmp, y, x) && Precedes(n, x, y) && Precedes(m, y, x)
    ensures Arrange(cmp, n) != Arrange(cmp, m)
  {
    hide Arrange, Precedes, Tied;
    ArrangeIsStable(cmp, n, x, y);
    ArrangeIsStable(cmp, m, y, x);
    ArrangePermutes(cmp, n);
    NotBothWays(Arrange(cmp, n), x, y);
  }

  /** The same object with a tied member moved before the other. */
  lemma MovedHashesOtherwise(cmp: Compare, members: seq<Member>, i: nat, j: nat)
    requires Valid(Object(members)) && i < j < |members|
    requires Tied(cmp, members[i], members[j]) && Tied(cmp, members[j], members[i])
    ensures var (v, w) := (Object(members), Object(MoveBefore(members, i, j)));
            Valid(w) && MeaningOf(w) == MeaningOf(v) && Normalize(cmp, w) != Normalize(cmp, v)
  {
    var moved := MoveBefore(members, i, j);
    MoveBeforePermutes(members, i, j);
    hide NormalizeMembers, MoveBefore, Entries, Arrange, IsIndex;
    ValidAfter(members, moved);
    PermutedEntries(moved, members);
    var n, m := NormalizeMembers(cmp, members), NormalizeMembers(cmp, moved);
    MembersNormalized(cmp, members);
    MembersNormalized(cmp, moved);
    PrecedesHere(n, i, j);
    PrecedesHere(m, i, i + 1);
    assert m[i] == n[j] && m[i + 1] == n[i];
    ArrangedOtherwise(cmp, n, m, n[i], n[j]);
  }

  lemma ValidAfter(members: seq<Member>, other: seq<Member>)
    requires Valid(Object(members)) && DistinctKeys(other) && forall x :: x in other ==> x in members
    ensures Valid(Object(other))
  {
    forall i | 0 <= i < |other| ensures Valid(other[i].value) {
      assert other[i] in members;
    }
  }

  /** An object with one value replaced by another that means the same but has another normal form. */
  lemma ReplacedMember(cmp: Compare, members: seq<Member>, i: nat, value: Json)
    requires Valid(Object(members)) && i < |members| && Valid(value)
    requires MeaningOf(value) == MeaningOf(members[i].value)
             && Normalize(cmp, value) != Normalize(cmp, members[i].value)
    ensures var w := Object(members[i := Member(members[i].key, value)]);
            Valid(w) && MeaningOf(w) == MeaningOf(Object(members))
                && Normalize(cmp, w) != Normalize(cmp, Object(members))
  {
    hide Arrange, Normalize, NormalizeMembers, Entries, MeaningOf;
    ObjectUnfolds(cmp, members);
    var other := members[i := Member(members[i].key, value)];
    assert DistinctKeys(other);
    ObjectUnfolds(cmp, other);
    SameEntries(members, other);
    var n, m := NormalizeMembers(cmp, members), NormalizeMembers(cmp, other);
    MembersNormalized(cmp, members);
    MembersNormalized(cmp, other);
    ArrangePermutes(cmp, n);
    ArrangePermutes(cmp, m);
    assert m[i] in Arrange(cmp, m);
    forall k | 0 <= k < |n| ensures n[k] != m[i] {
      assert k != i ==> members[k].key != members[i].key;
    }
  }

  lemma SameEntries(a: seq<Member>, b: seq<Member>)
    requires |a| == |b| && forall i :: 0 <= i < |a| ==>
             a[i].key == b[i].key && MeaningOf(a[i].value) == MeaningOf(b[i].value)
    ensures Entries(a) == Entries(b)
    decreases a
  {
    if a != [] {
      SameEntries(a[1..], b[1..]);
    }
  }

  lemma ReplacedItem(cmp: Compare, items: seq<Json>, i: nat, value: Json)
    requires Valid(List(items)) && i < |items| && Valid(value)
    requires MeaningOf(value) == MeaningOf(items[i]) && Normalize(cmp, value) != Normalize(cmp, items[i])
    ensures var w := List(items[i := value]);
            Valid(w) && MeaningOf(w) == MeaningOf(List(items)) && Normalize(cmp, w) != Normalize(cmp, List(items))
  {
    var other := items[i := value];
    ItemsNormalized(cmp, items);
    ItemsNormalized(cmp, other);
    assert Meanings(other) == Meanings(items);
    assert NormalizeItems(cmp, other)[i] != NormalizeItems(cmp, items)[i];
  }

  lemma ReplacedItemEnumerates(items: seq<Json>, i: nat, value: Json)
    requires i < |items| && Enumerable(List(items)) && Enumerable(value)
    ensures Enumerable(items[i]) && Enumerable(List(items[i := value]))
  {
  }

  lemma ReplacedMemberEnumerates(members: seq<Member>, i: nat, value: Json)
    requires i < |members| && Enumerable(Object(members)) && Enumerable(value)
    ensures Enumerable(Object(members[i := Member(members[i].key, value)]))
  {
    hide IsIndex, Value;
  }

  lemma PartsEnumerate(v: Json)
    requires Enumerable(v)
    ensures v.List? ==> forall i :: 0 <= i < |v.items| ==> Enumerable(v.items[i])
    ensures v.Object? ==> forall i :: 0 <= i < |v.members| ==> Enumerable(v.members[i].value)
  {
  }

  /** A value with a tie anywhere: another value that means the same and has another normal form. */
  lemma {:induction false} Rearranged(cmp: Compare, v: Json) returns (w: Json)
    requires Consistent(cmp) && Valid(v) && !TieFree(cmp, v)
    ensures Valid(w) && MeaningOf(w) == MeaningOf(v) && Normalize(cmp, w) != Normalize(cmp, v)
    ensures Enumerable(v) ==> Enumerable(w)
    decreases v
  {
    hide Enumerable, Normalize, MeaningOf, IsIndex, MoveBefore, Untied, Tied, Consistent;
    if Enumerable(v) {
      PartsEnumerate(v);
    }
    match v
    case List(items) =>
      var i :| 0 <= i < |items| && !TieFree(cmp, items[i]);
      var value := Rearranged(cmp, items[i]);
      ReplacedItem(cmp, items, i, value);
      w := List(items[i := value]);
      if Enumerable(v) {
        ReplacedItemEnumerates(items, i, value);
      }
    case Object(members) =>
      if Untied(cmp, members) {
        var i :| 0 <= i < |members| && !TieFree(cmp, members[i].value);
        var value := Rearranged(cmp, members[i].value);
        ReplacedMember(cmp, members, i, value);
        w := Object(members[i := Member(members[i].key, value)]);
        if Enumerable(v) {
          ReplacedMemberEnumerates(members, i, value);
        }
      } else {
        var i, j := TiedPair(cmp, members);
        MovedHashesOtherwise(cmp, members, i, j);
        w := Object(MoveBefore(members, i, j));
        if Enumerable(v) {
          MovedEnumerates(cmp, members, i, j);
        }
      }
  }

  lemma MovedEnumerates(cmp: Compare, members: seq<Member>, i: nat, j: nat)
    requires i < j < |members| && Enumerable(Object(members)) && Tied(cmp, members[i], members[j])
    ensures Enumerable(Object(MoveBefore(members, i, j)))
  {
    MoveBeforePermutes(members, i, j);
    MoveBeforeEnumerates(members, i, j);
    var moved := MoveBefore(members, i, j);
    forall k | 0 <= k < |moved| ensures Enumerable(moved[k].value) {
      assert moved[k] in members;
    }
  }

  lemma TiedPair(cmp: Compare, members: seq<Member>) returns (i: nat, j: nat)
    requires Consistent(cmp) && !Untied(cmp, members)
    ensures i < j < |members| && Tied(cmp, members[i], members[j]) && Tied(cmp, members[j], members[i])
  {
    var m, n :| m in members && n in members && m.key != n.key && !IsIndex(m.key) && !IsIndex(n.key)
        && cmp(m.key, n.key) == 0;
    var k :| 0 <= k < |members| && members[k] == m;
    var l :| 0 <= l < |members| && members[l] == n;
    i, j := if k < l then k else l, if k < l then l else k;
  }

  lemma OtherNormalFormHashesOtherwise(cmp: Compare, v: Json, w: Json)
    requires Valid(v) && Valid(w) && Normalize(cmp, v) != Normalize(cmp, w)
    ensures Canonical(cmp, v) != Canonical(cmp, w)
  {
    NormalizeKeepsMeaning(cmp, v);
    NormalizeKeepsMeaning(cmp, w);
    hide Normalize, Print, MeaningOf, Valid;
    var a, b := Normalize(cmp, v), Normalize(cmp, w);
    if Print(a) == Print(b) {
      assert Print(a) + [] == Print(a) && Print(b) + [] == Print(b);
      PrintReads(a, b, [], []);
    }
  }

  /**
   Main result.  The hashing input of a value stands for exactly what the value means if and only if no object in
   it, at any depth, holds two keys that the comparator calls equal; also among values that a program can enumerate.
   */
  lemma ExactIffTieFree(cmp: Compare, v: Json)
    requires Consistent(cmp) && Valid(v)
    ensures TieFree(cmp, v) <==>
            forall w :: Valid(w) ==> (Canonical(cmp, v) == Canonical(cmp, w) <==> MeaningOf(v) == MeaningOf(w))
    ensures Enumerable(v) ==>
              (TieFree(cmp, v) <==>
               forall w :: Valid(w) && Enumerable(w) ==>
                 (Canonical(cmp, v) == Canonical(cmp, w) <==> MeaningOf(v) == MeaningOf(w)))
  {
    hide Canonical, MeaningOf, Valid, TieFree, Consistent, Enumerable;
    if TieFree(cmp, v) {
      forall w | Valid(w) ensures Canonical(cmp, v) == Canonical(cmp, w) <==> MeaningOf(v) == MeaningOf(w) {
        CanonicalIsExact(cmp, v, w);
      }
    } else {
      var w := Rearranged(cmp, v);
      OtherNormalFormHashesOtherwise(cmp, v, w);
    }
  }

  // ------------------------------------------------------------------ the comparator on its own

  /** No two distinct keys at all compare equal. */
  ghost predicate NoTies(cmp: Compare) {
    forall a, b :: a != b && !IsIndex(a) && !IsIndex(b) ==> cmp(a, b) != 0
  }

  function Two(a: Units, b: Units): Json {
    Object([Member(a, Null), Member(b, Boolean(true))])
  }

  function TwoReversed(a: Units, b: Units): Json {
    Object([Member(b, Boolean(true)), Member(a, Null)])
  }

  /** Two keys that tie keep the order they came in, and the same object hashes in two ways. */
  lemma TieBreaksCanonical(cmp: Compare, a: Units, b: Units)
    requires a != b && !IsIndex(a) && !IsIndex(b) && cmp(a, b) == 0 && cmp(b, a) == 0
    ensures Valid(Two(a, b)) && Valid(TwoReversed(a, b)) && MeaningOf(Two(a, b)) == MeaningOf(TwoReversed(a, b))
    ensures Canonical(cmp, Two(a, b)) != Canonical(cmp, TwoReversed(a, b))
  {
    var members := Two(a, b).members;
    assert MoveBefore(members, 0, 1) == TwoReversed(a, b).members;
    MovedHashesOtherwise(cmp, members, 0, 1);
    OtherNormalFormHashesOtherwise(cmp, Two(a, b), TwoReversed(a, b));
  }

  lemma {:induction false} NoTiesAnywhere(cmp: Compare, v: Json)
    requires NoTies(cmp)
    ensures TieFree(cmp, v)
    decreases v
  {
    match v
    case List(items) =>
      forall i | 0 <= i < |items| ensures TieFree(cmp, items[i]) {
        NoTiesAnywhere(cmp, items[i]);
      }
    case Object(members) =>
      forall i | 0 <= i < |members| ensures TieFree(cmp, members[i].value) {
        NoTiesAnywhere(cmp, members[i].value);
      }
    case _ =>
  }

  /** The hashing input is exact for all values if and only if the comparator has no ties. */
  lemma ExactIffNoTies(cmp: Compare)
    requires Consistent(cmp)
    ensures NoTies(cmp) <==>
            forall v, w :: Valid(v) && Valid(w) ==>
              (Canonical(cmp, v) == Canonical(cmp, w) <==> MeaningOf(v) == MeaningOf(w))
  {
    hide Canonical, MeaningOf, Valid, TieFree;
    if NoTies(cmp) {
      forall v, w | Valid(v) && Valid(w)
        ensures Canonical(cmp, v) == Canonical(cmp, w) <==> MeaningOf(v) == MeaningOf(w) {
        NoTiesAnywhere(cmp, v);
        CanonicalIsExact(cmp, v, w);
      }
    } else {
      var a, b :| a != b && !IsIndex(a) && !IsIndex(b) && cmp(a, b) == 0;
      TieBreaksCanonical(cmp, a, b);
    }
  }
}
