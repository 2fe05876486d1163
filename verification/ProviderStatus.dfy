/**
 Provider events for one message: provider-sync `shouldApplyProviderStatus` and the update half of
 administration `reconcileMessage`.  One after another, the events settle on their newest and highest.
 */
module ProviderStatus {
  import opened Options

  datatype Status = Draft | Queued | Sending | Sent | Delayed | Delivered | Bounced | Failed | Complained | Received

  function Rank(s: Status): nat {
    match s
    case Draft => 0
    case Queued => 10
    case Sending => 20
    case Sent => 30
    case Delayed => 40
    case Delivered => 50
    case Bounced => 60
    case Failed => 60
    case Complained => 70
    case Received => 100
  }

  datatype Event = Event(time: int, status: Status)

  /** provider_message_state: the event time and rank last applied. */
  datatype Stored = Stored(time: int, rank: nat)

  datatype Row = Row(status: Status, stored: Option<Stored>)

  predicate ShouldApply(stored: Option<Stored>, incoming: Stored) {
    stored == None
    || incoming.time > stored.value.time
    || (incoming.time == stored.value.time && incoming.rank >= stored.value.rank)
  }

  function StoredOf(e: Event): Stored {
    Stored(e.time, Rank(e.status))
  }

  function Reconcile(row: Row, e: Event): Row {
    if ShouldApply(row.stored, StoredOf(e)) then Row(e.status, Some(StoredOf(e))) else row
  }

  function ReconcileAll(row: Row, events: seq<Event>): Row
    decreases |events|
  {
    if events == [] then row else Reconcile(ReconcileAll(row, events[..|events| - 1]), events[|events| - 1])
  }

  class Message {
    var status: Status
    var stored: Option<Stored>

    function Contents(): Row
      reads this
    {
      Row(status, stored)
    }

    /** "updated" or "skipped". */
    method ReconcileMessage(e: Event) returns (updated: bool)
      modifies this
      ensures Contents() == Reconcile(old(Contents()), e)
      ensures updated == ShouldApply(old(stored), StoredOf(e))
    {
      var rank := Rank(e.status);
      if stored != None {
        if !(e.time > stored.value.time || (e.time == stored.value.time && rank >= stored.value.rank)) {
          return false;
        }
      }
      status, stored := e.status, Some(Stored(e.time, rank));
      updated := true;
    }

    /** A page of provider events, and how many of them changed the message. */
    method ReconcileEvents(events: seq<Event>) returns (updates: nat)
      modifies this
      ensures Contents() == ReconcileAll(old(Contents()), events)
      ensures updates <= |events| && (updates == 0 ==> Contents() == old(Contents()))
    {
      updates := 0;
      var i := 0;
      while i < |events|
        invariant 0 <= i <= |events| && updates <= i
        invariant Contents() == ReconcileAll(old(Contents()), events[..i])
        invariant updates == 0 ==> Contents() == old(Contents())
      {
        assert events[..i + 1][..i] == events[..i];
        var updated := ReconcileMessage(events[i]);
        if updated {
          updates := updates + 1;
        }
        i := i + 1;
      }
      assert events[..i] == events;
    }
  }

  // ------------------------------------------------------------------ convergence

  /** Older, or as old and of no higher rank. */
  predicate AtMost(a: Stored, b: Stored) {
    a.time < b.time || (a.time == b.time && a.rank <= b.rank)
  }

  /** No event is newer, or as new and higher. */
  predicate IsTop(events: seq<Event>, top: Event) {
    top in events && forall e :: e in events ==> AtMost(StoredOf(e), StoredOf(top))
  }

  /** The greatest event; of several, the last. */
  function Top(events: seq<Event>): Event
    requires events != []
    decreases |events|
  {
    var most, last := events[..|events| - 1], events[|events| - 1];
    if most == [] || AtMost(StoredOf(Top(most)), StoredOf(last)) then last else Top(most)
  }

  lemma {:induction false} TopIsTop(events: seq<Event>)
    requires events != []
    ensures IsTop(events, Top(events))
    decreases |events|
  {
    var most, last := events[..|events| - 1], events[|events| - 1];
    assert events == most + [last];
    if most != [] {
      TopIsTop(most);
    }
  }

  /** Main result: what is stored is the lexicographic maximum, and the status is that of a greatest event. */
  lemma {:induction false} StoresTheMaximum(row: Row, events: seq<Event>)
    requires row.stored == None && events != []
    ensures IsTop(events, Top(events))
    ensures ReconcileAll(row, events) == Row(Top(events).status, Some(StoredOf(Top(events))))
    decreases |events|
  {
    TopIsTop(events);
    hide IsTop;
    if |events| > 1 {
      StoresTheMaximum(row, events[..|events| - 1]);
    } else {
      assert events[..|events| - 1] == [];
    }
  }

  // ------------------------------------------------------------------ the order of statuses

  /** From the lowest to the highest; a bounce and a failure are equal. */
  const LADDER: seq<set<Status>> := [
    {Draft}, {Queued}, {Sending}, {Sent}, {Delayed}, {Delivered}, {Bounced, Failed}, {Complained}, {Received}]

  predicate StandsOn(s: Status, i: nat) {
    i < |LADDER| && s in LADDER[i]
  }

  ghost predicate NotAbove(s: Status, t: Status) {
    exists i: nat, j: nat :: i <= j && StandsOn(s, i) && StandsOn(t, j)
  }

  lemma Place(s: Status) returns (i: nat)
    ensures i < |LADDER| && forall j: nat :: StandsOn(s, j) <==> j == i
    ensures Rank(s) == if i < 8 then 10 * i else 100
  {
    i := match s
         case Draft => 0
         case Queued => 1
         case Sending => 2
         case Sent => 3
         case Delayed => 4
         case Delivered => 5
         case Bounced => 6
         case Failed => 6
         case Complained => 7
         case Received => 8;
  }

  lemma RanksAreTheLadder(s: Status, t: Status)
    ensures Rank(s) <= Rank(t) <==> NotAbove(s, t)
  {
    var i := Place(s);
    var j := Place(t);
    hide StandsOn, Rank;
    assert StandsOn(s, i) && StandsOn(t, j);
  }

  /**
   Main result: after any events the message has the status of one of them, and every other is older, or as old and not
   above it on the ladder.
   */
  lemma SettlesOnTheHighest(row: Row, events: seq<Event>) returns (top: Event)
    requires row.stored == None && events != []
    ensures top in events && ReconcileAll(row, events).status == top.status
    ensures forall e :: e in events ==> e.time < top.time || (e.time == top.time && NotAbove(e.status, top.status))
  {
    StoresTheMaximum(row, events);
    top := Top(events);
    hide ReconcileAll, Top, Rank, NotAbove;
    forall e | e in events ensures e.time < top.time || (e.time == top.time && NotAbove(e.status, top.status)) {
      assert AtMost(StoredOf(e), StoredOf(top));
      RanksAreTheLadder(e.status, top.status);
    }
  }

  ghost predicate SameEvents(a: seq<Event>, b: seq<Event>) {
    forall e :: e in a <==> e in b
  }

  /** Two greatest events, one bounced and one failed: the only statuses that share a rank. */
  ghost predicate TiedAtTheTop(events: seq<Event>) {
    exists e, f :: IsTop(events, e) && IsTop(events, f) && e.status == Bounced && f.status == Failed
  }

  /**
   Main result.  Order and repetition of events do not matter to what is stored, nor to the status, unless
   the greatest events are a bounce and a failure at the same time.
   */
  lemma OrderDoesNotMatter(row: Row, a: seq<Event>, b: seq<Event>)
    requires row.stored == None && a != [] && SameEvents(a, b)
    ensures var (x, y) := (ReconcileAll(row, a), ReconcileAll(row, b));
            x.stored == y.stored && Rank(x.status) == Rank(y.status) && (x.status == y.status || TiedAtTheTop(a))
  {
    assert a[0] in a;
    StoresTheMaximum(row, a);
    StoresTheMaximum(row, b);
    var s, t := Top(a), Top(b);
    hide ReconcileAll, Top;
    assert IsTop(a, t) && IsTop(b, s);
    assert StoredOf(s) == StoredOf(t);
    SameRank(s.status, t.status);
    if s.status != t.status {
      var e, f := if s.status == Bounced then s else t, if s.status == Bounced then t else s;
      assert IsTop(a, e) && IsTop(a, f);
    }
  }

  lemma SameRank(s: Status, t: Status)
    requires Rank(s) == Rank(t)
    ensures s == t || (s == Bounced && t == Failed) || (s == Failed && t == Bounced)
  {
  }

  /** And there the order does matter: the greatest event to come last gives the status. */
  lemma LastOfTiedWins(row: Row, events: seq<Event>, e: Event, f: Event)
    requires row.stored == None && IsTop(events, e) && IsTop(events, f)
    ensures SameEvents(events + [e], events + [f])
    ensures ReconcileAll(row, events + [e]).status == e.status && ReconcileAll(row, events + [f]).status == f.status
  {
    StoresTheMaximum(row, events);
    assert (events + [e])[..|events|] == events && (events + [f])[..|events|] == events;
  }
}
