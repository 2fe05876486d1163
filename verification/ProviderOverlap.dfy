/**
 Reconciliations of one message that overlap.  `reconcileMessage` reads the stored state, decides, and writes
 without looking again; any number of calls may be between their read and their write.
 */
module ProviderOverlap {
  import opened Options
  import opened ProviderStatus

  datatype Step = Reads(call: nat, event: Event) | Writes(call: nat)

  /** `done` lists the events of the calls that have finished, in the order they did. */
  datatype State = State(row: Row, decided: map<nat, Event>, done: seq<Event>)

  function Apply(s: State, step: Step): State {
    match step
    case Reads(c, e) =>
      if c in s.decided then s
      else if ShouldApply(s.row.stored, StoredOf(e)) then s.(decided := s.decided[c := e])
      else s.(done := s.done + [e])
    case Writes(c) =>
      if c !in s.decided then s
      else
        var e := s.decided[c];
        State(Row(e.status, Some(StoredOf(e))), s.decided - {c}, s.done + [e])
  }

  function Run(s: State, steps: seq<Step>): State
    decreases |steps|
  {
    if steps == [] then s else Apply(Run(s, steps[..|steps| - 1]), steps[|steps| - 1])
  }

  function Start(row: Row): State {
    State(row, map[], [])
  }

  /** The write would put an older event, or as old and lower one, over what is stored by now. */
  predicate Lowers(s: State, step: Step) {
    step.Writes? && step.call in s.decided && !ShouldApply(s.row.stored, StoredOf(s.decided[step.call]))
  }

  predicate LowersAt(row: Row, steps: seq<Step>, n: nat)
    requires n < |steps|
  {
    Lowers(Run(Start(row), steps[..n]), steps[n])
  }

  predicate NeverLowers(row: Row, steps: seq<Step>) {
    forall n :: 0 <= n < |steps| ==> !LowersAt(row, steps, n)
  }

  /** The row is what reconciling the finished calls one after another would have left. */
  predicate InStep(row: Row, s: State) {
    s.row == ReconcileAll(row, s.done)
  }

  lemma ReconcileOneMore(row: Row, events: seq<Event>, e: Event)
    ensures ReconcileAll(row, events + [e]) == Reconcile(ReconcileAll(row, events), e)
  {
    assert (events + [e])[..|events|] == events;
  }

  lemma StepInStep(row: Row, s: State, step: Step)
    requires InStep(row, s)
    ensures InStep(row, Apply(s, step)) <==> !Lowers(s, step)
  {
    if step.Reads? {
      ReconcileOneMore(row, s.done, step.event);
    } else if step.call in s.decided {
      ReconcileOneMore(row, s.done, s.decided[step.call]);
    }
    hide ReconcileAll;
  }

  lemma {:induction false} NeverLowersIsInStep(row: Row, steps: seq<Step>)
    requires NeverLowers(row, steps)
    ensures InStep(row, Run(Start(row), steps))
    decreases |steps|
  {
    if steps != [] {
      var most := steps[..|steps| - 1];
      forall n | 0 <= n < |most| ensures !LowersAt(row, most, n) {
        assert most[..n] == steps[..n];
        assert !LowersAt(row, steps, n);
      }
      NeverLowersIsInStep(row, most);
      StepInStep(row, Run(Start(row), most), steps[|steps| - 1]);
      assert !LowersAt(row, steps, |steps| - 1);
    }
  }

  /**
   Main result.  However reads and writes overlap, the row is at every moment what reconciling the finished calls
   one after another would have left, if and only if no write lowers the row it finds.
   */
  lemma {:induction false} InStepIffNeverLowers(row: Row, steps: seq<Step>)
    ensures (forall n :: 0 <= n <= |steps| ==> InStep(row, Run(Start(row), steps[..n]))) <==> NeverLowers(row, steps)
  {
    if NeverLowers(row, steps) {
      forall n | 0 <= n <= |steps| ensures InStep(row, Run(Start(row), steps[..n])) {
        var first := steps[..n];
        forall k | 0 <= k < n ensures !LowersAt(row, first, k) {
          assert first[..k] == steps[..k];
          assert !LowersAt(row, steps, k);
        }
        NeverLowersIsInStep(row, first);
      }
    } else {
      var n :| 0 <= n < |steps| && LowersAt(row, steps, n);
      assert steps[..n + 1][..n] == steps[..n];
      hide InStep, Lowers;
      if InStep(row, Run(Start(row), steps[..n])) {
        StepInStep(row, Run(Start(row), steps[..n]), steps[n]);
      }
    }
  }

  // ------------------------------------------------------------------ what is left in the end

  /** Every event that was read, decided on or not. */
  function Seen(s: State): set<Event> {
    (set e | e in s.done) + s.decided.Values
  }

  predicate Greatest(s: State, e: Event) {
    e in Seen(s) && forall f :: f in Seen(s) ==> AtMost(StoredOf(f), StoredOf(e))
  }

  /** The event that step `n` writes, if it writes. */
  function WrittenAt(row: Row, steps: seq<Step>, n: nat): Option<Event>
    requires n < |steps|
  {
    var s := Run(Start(row), steps[..n]);
    if steps[n].Writes? && steps[n].call in s.decided then Some(s.decided[steps[n].call]) else None
  }

  lemma SeenGrows(s: State, step: Step)
    ensures Seen(s) <= Seen(Apply(s, step))
  {
    if step.Writes? && step.call in s.decided {
      var after := Apply(s, step);
      forall e | e in Seen(s) ensures e in Seen(after) {
        if e in s.decided.Values {
          var c :| c in s.decided && s.decided[c] == e;
          assert c != step.call ==> c in after.decided && after.decided[c] == e;
        }
      }
    } else if step.Reads? && step.call !in s.decided && ShouldApply(s.row.stored, StoredOf(step.event)) {
      var after := Apply(s, step);
      forall e | e in s.decided.Values ensures e in after.decided.Values {
        var c :| c in s.decided && s.decided[c] == e;
        assert c in after.decided && after.decided[c] == e;
      }
    }
  }

  lemma {:induction false} SeenInTheEnd(row: Row, steps: seq<Step>, n: nat)
    requires n <= |steps|
    ensures Seen(Run(Start(row), steps[..n])) <= Seen(Run(Start(row), steps))
    decreases |steps|
  {
    if n == |steps| {
      assert steps[..n] == steps;
    } else {
      var most := steps[..|steps| - 1];
      assert most[..n] == steps[..n];
      SeenInTheEnd(row, most, n);
      SeenGrows(Run(Start(row), most), steps[|steps| - 1]);
    }
  }

  /** What is stored is some finished event's. */
  predicate Sound(s: State) {
    (s.row.stored.Some? ==> exists e :: e in s.done && StoredOf(e) == s.row.stored.value && e.status == s.row.status)
    && (s.row.stored == None ==> s.done == [])
  }

  lemma {:induction false} RunIsSound(row: Row, steps: seq<Step>)
    requires row.stored == None
    ensures Sound(Run(Start(row), steps))
    decreases |steps|
  {
    if steps != [] {
      RunIsSound(row, steps[..|steps| - 1]);
      var s, step := Run(Start(row), steps[..|steps| - 1]), steps[|steps| - 1];
      var after := Apply(s, step);
      if step.Writes? && step.call in s.decided {
        assert after.done[|s.done|] == s.decided[step.call];
      } else if s.row.stored.Some? {
        var e :| e in s.done && StoredOf(e) == s.row.stored.value && e.status == s.row.status;
        assert e in after.done;
      }
    }
  }

  /** Step `n` writes an event that nothing read in the whole run exceeds. */
  predicate Raises(row: Row, steps: seq<Step>, n: nat)
    requires n < |steps|
  {
    WrittenAt(row, steps, n).Some? && Greatest(Run(Start(row), steps), WrittenAt(row, steps, n).value)
  }

  predicate RaisedAfter(row: Row, steps: seq<Step>, n: nat) {
    exists k :: n < k < |steps| && Raises(row, steps, k)
  }

  predicate EndsGreatest(row: Row, steps: seq<Step>) {
    var end := Run(Start(row), steps);
    end.row.stored.Some? && forall f :: f in Seen(end) ==> AtMost(StoredOf(f), end.row.stored.value)
  }

  lemma StoredWasSeen(s: State) returns (e: Event)
    requires Sound(s) && s.row.stored.Some?
    ensures e in Seen(s) && StoredOf(e) == s.row.stored.value
  {
    e :| e in s.done && StoredOf(e) == s.row.stored.value && e.status == s.row.status;
  }

  /** An event that nothing exceeds is decided on when it is read, and so it was written if its call is done. */
  lemma {:induction false} GreatestWasWritten(row: Row, steps: seq<Step>, e: Event, all: set<Event>) returns (n: nat)
    requires row.stored == None && Seen(Run(Start(row), steps)) <= all
    requires e in Run(Start(row), steps).done && forall f :: f in all ==> AtMost(StoredOf(f), StoredOf(e))
    ensures n < |steps| && WrittenAt(row, steps, n) == Some(e)
    decreases |steps|
  {
    var most := steps[..|steps| - 1];
    var s, step := Run(Start(row), most), steps[|steps| - 1];
    SeenGrows(s, step);
    if e in s.done {
      n := GreatestWasWritten(row, most, e, all);
      assert most[..n] == steps[..n];
    } else {
      n := |most|;
      RunIsSound(row, most);
      if step.Reads? && s.row.stored.Some? {
        var f := StoredWasSeen(s);
      }
    }
  }

  lemma {:induction false} LastRaise(row: Row, steps: seq<Step>, n: nat) returns (last: nat)
    requires n < |steps| && Raises(row, steps, n)
    ensures n <= last < |steps| && Raises(row, steps, last) && !RaisedAfter(row, steps, last)
    decreases |steps| - n
  {
    last := n;
    if RaisedAfter(row, steps, n) {
      var k :| n < k < |steps| && Raises(row, steps, k);
      last := LastRaise(row, steps, k);
    }
  }

  lemma RaisedEarlier(row: Row, steps: seq<Step>, n: nat, k: nat)
    requires n <= k
    ensures RaisedAfter(row, steps, k) ==> RaisedAfter(row, steps, n)
  {
    if RaisedAfter(row, steps, k) {
      var j :| k < j < |steps| && Raises(row, steps, j);
    }
  }

  /** After the last write of a greatest event nothing is written, if every write that lowers is raised again. */
  lemma {:induction false} StaysGreatest(row: Row, steps: seq<Step>, n: nat, m: nat)
    requires row.stored == None && n < m <= |steps| && Raises(row, steps, n) && !RaisedAfter(row, steps, n)
    requires forall k :: 0 <= k < |steps| && LowersAt(row, steps, k) ==> RaisedAfter(row, steps, k)
    ensures Run(Start(row), steps[..m]).row.stored == Some(StoredOf(WrittenAt(row, steps, n).value))
    decreases m
  {
    var k := m - 1;
    assert steps[..m][..k] == steps[..k];
    if n < k {
      StaysGreatest(row, steps, n, k);
      if WrittenAt(row, steps, k).Some? {
        WriteBelow(row, steps, k, WrittenAt(row, steps, n).value);
      }
      assert !Raises(row, steps, k);
      RaisedEarlier(row, steps, n, k);
    }
  }

  /** Over a greatest event, a write either lowers or is of a greatest event itself. */
  lemma WriteBelow(row: Row, steps: seq<Step>, k: nat, top: Event)
    requires k < |steps| && Greatest(Run(Start(row), steps), top)
    requires Run(Start(row), steps[..k]).row.stored == Some(StoredOf(top)) && WrittenAt(row, steps, k).Some?
    ensures LowersAt(row, steps, k) || Raises(row, steps, k)
  {
    var s, e := Run(Start(row), steps[..k]), WrittenAt(row, steps, k).value;
    assert e in s.decided.Values;
    SeenInTheEnd(row, steps, k);
    assert AtMost(StoredOf(e), StoredOf(top));
  }

  /** The row holds what was written last. */
  lemma {:induction false} HoldsTheLast(row: Row, steps: seq<Step>, n: nat, m: nat) returns (k: nat)
    requires n < m <= |steps| && WrittenAt(row, steps, n).Some?
    ensures n <= k < m && WrittenAt(row, steps, k).Some?
    ensures Run(Start(row), steps[..m]).row.stored == Some(StoredOf(WrittenAt(row, steps, k).value))
    decreases m
  {
    assert steps[..m][..m - 1] == steps[..m - 1];
    if n == m - 1 || WrittenAt(row, steps, m - 1).Some? {
      k := m - 1;
    } else {
      k := HoldsTheLast(row, steps, n, m - 1);
    }
  }

  lemma WrittenIsSeen(row: Row, steps: seq<Step>, n: nat)
    requires n < |steps| && WrittenAt(row, steps, n).Some?
    ensures WrittenAt(row, steps, n).value in Seen(Run(Start(row), steps))
  {
    var s := Run(Start(row), steps[..n]);
    assert s.decided[steps[n].call] in s.decided.Values;
    SeenInTheEnd(row, steps, n);
  }

  lemma {:induction false} LoweredIsRaised(row: Row, steps: seq<Step>, n: nat)
    requires row.stored == None && EndsGreatest(row, steps) && n < |steps| && LowersAt(row, steps, n)
    ensures RaisedAfter(row, steps, n)
  {
    var k := HoldsTheLast(row, steps, n, |steps|);
    assert steps[..|steps|] == steps;
    WrittenIsSeen(row, steps, k);
    if k == n {
      RunIsSound(row, steps[..n]);
      var g := StoredWasSeen(Run(Start(row), steps[..n]));
      SeenInTheEnd(row, steps, n);
      assert false;
    }
    assert Raises(row, steps, k);
  }

  lemma {:induction false} RaisedEndsGreatest(row: Row, steps: seq<Step>)
    requires row.stored == None && Run(Start(row), steps).decided == map[] && Run(Start(row), steps).done != []
    requires forall n :: 0 <= n < |steps| && LowersAt(row, steps, n) ==> RaisedAfter(row, steps, n)
    ensures EndsGreatest(row, steps)
  {
    var end := Run(Start(row), steps);
    TopIsTop(end.done);
    var top := Top(end.done);
    assert Greatest(end, top);
    var n := GreatestWasWritten(row, steps, top, Seen(end));
    var last := LastRaise(row, steps, n);
    StaysGreatest(row, steps, last, |steps|);
    assert steps[..|steps|] == steps;
  }

  /**
   Main result.  Once all calls are done, what is stored is the lexicographic maximum of all events if and only if
   every write that lowered the row was followed by a write of a greatest event.
   */
  lemma {:induction false} EndsGreatestIffRaised(row: Row, steps: seq<Step>)
    requires row.stored == None && Run(Start(row), steps).decided == map[] && Run(Start(row), steps).done != []
    ensures EndsGreatest(row, steps) <==>
            forall n :: 0 <= n < |steps| && LowersAt(row, steps, n) ==> RaisedAfter(row, steps, n)
  {
    if EndsGreatest(row, steps) {
      forall n | 0 <= n < |steps| && LowersAt(row, steps, n) ensures RaisedAfter(row, steps, n) {
        LoweredIsRaised(row, steps, n);
      }
    }
    if forall n :: 0 <= n < |steps| && LowersAt(row, steps, n) ==> RaisedAfter(row, steps, n) {
      RaisedEndsGreatest(row, steps);
    }
  }

  /** So, if no write lowers the row, overlapping calls converge as calls one after another do. */
  lemma {:induction false} OverlapConverges(row: Row, steps: seq<Step>)
    requires row.stored == None && NeverLowers(row, steps) && Run(Start(row), steps).done != []
    ensures var (end, top) := (Run(Start(row), steps), Top(Run(Start(row), steps).done));
            IsTop(end.done, top) && end.row == Row(top.status, Some(StoredOf(top)))
  {
    NeverLowersIsInStep(row, steps);
    StoresTheMaximum(row, Run(Start(row), steps).done);
  }

  // ------------------------------------------------------------------ two calls

  /** Both read; then the one writes, and then the other. */
  function TwoCalls(first: Event, second: Event): seq<Step> {
    [Reads(1, first), Reads(2, second), Writes(1), Writes(2)]
  }

  /**
   Two that both read before either writes leave what one after the other would have left, if and only if the
   second decided not to write, or would still decide to when it does.
   */
  lemma TwoCallsExactly(row: Row, first: Event, second: Event)
    ensures var middle := Reconcile(row, first);
            Run(Start(row), TwoCalls(first, second)).row == ReconcileAll(row, [first, second])
            <==> !ShouldApply(row.stored, StoredOf(second)) || ShouldApply(middle.stored, StoredOf(second))
  {
    var steps := TwoCalls(first, second);
    assert steps[..3][..2] == steps[..2] && steps[..2][..1] == steps[..1] && steps[..1][..0] == [];
    assert Run(Start(row), steps[..1]) == Apply(Start(row), Reads(1, first));
    assert Run(Start(row), steps[..2]) == Apply(Run(Start(row), steps[..1]), Reads(2, second));
    assert Run(Start(row), steps[..3]) == Apply(Run(Start(row), steps[..2]), Writes(1));
    assert [first, second][..1] == [first] && [first][..0] == [];
    assert ReconcileAll(row, [first]) == Reconcile(row, first);
  }

  /** So two that overlap can leave the older event behind. */
  lemma OverlappingReconcilesRegress(row: Row, older: Event, newer: Event)
    requires (row.stored.Some? ==> row.stored.value.time < older.time) && older.time < newer.time
    ensures var end := Run(Start(row), TwoCalls(newer, older));
            end.row.stored == Some(StoredOf(older)) && !EndsGreatest(row, TwoCalls(newer, older))
            && end.row != ReconcileAll(row, [newer, older])
  {
    TwoCallsExactly(row, newer, older);
    var steps := TwoCalls(newer, older);
    assert steps[..3][..2] == steps[..2] && steps[..2][..1] == steps[..1] && steps[..1][..0] == [];
    var s1 := Apply(Start(row), Reads(1, newer));
    assert Run(Start(row), steps[..1]) == s1;
    var s2 := Apply(s1, Reads(2, older));
    assert Run(Start(row), steps[..2]) == s2;
    var s3 := Apply(s2, Writes(1));
    assert Run(Start(row), steps[..3]) == s3;
    assert Run(Start(row), steps) == Apply(s3, Writes(2));
    assert newer in Apply(s3, Writes(2)).done by { assert s3.done[0] == newer; }
  }
}
