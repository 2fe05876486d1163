/**
 `MessageApplicationService.send` under one idempotency key and many: look the key up, prepare, submit one
 batch that inserts the message, its job and the record together, and on failure look the key up again.
 */
module MessageSend {
  type Id = nat
  type Hash = nat

  /** (actor_user_id, idempotency_key); the operation is always message.send. */
  datatype Key = Key(actor: Id, key: string)

  datatype Response = Response(message: Id, queued: bool)

  datatype Record = Record(hash: Hash, response: Response, expired: bool)

  datatype Outcome = Answered(response: Response) | KeyReused | Failed

  datatype Phase = Started | Prepared(response: Response) | Rejected | Done(outcome: Outcome)

  datatype Call = Call(key: Key, hash: Hash, phase: Phase)

  /** A batch that was committed. */
  datatype Batch = Batch(key: Key, hash: Hash, response: Response)

  /** `records` is keyed by the unique index; `batches` and `cleaned` are the history of the run. */
  datatype State = State(
    messages: set<Id>, jobs: set<Id>, records: map<Key, Record>, calls: map<nat, Call>, supply: Id,
    batches: seq<Batch>, cleaned: multiset<Key>)

  datatype Action =
    | Begin(call: nat, key: Key, hash: Hash)
    | Prepare(call: nat, queued: bool)
    | Refuse(call: nat)
    | Commit(call: nat, accepted: bool)
    | LookAgain(call: nat)
    | Expire(key: Key)
    | Clean(key: Key)

  /** `findIdempotency` and the comparison of hashes that follows it. */
  function Lookup(records: map<Key, Record>, key: Key, hash: Hash, absent: Phase): Phase {
    if key !in records || records[key].expired then absent
    else if records[key].hash != hash then Done(KeyReused)
    else Done(Answered(records[key].response))
  }

  function SetPhase(s: State, c: nat, phase: Phase): State
    requires c in s.calls
  {
    s.(calls := s.calls[c := s.calls[c].(phase := phase)])
  }

  /** The batch fails on the unique index, or for any other reason (`accepted` is false). */
  function CommitStep(s: State, c: nat, accepted: bool): State
    requires c in s.calls && s.calls[c].phase.Prepared?
  {
    var call := s.calls[c];
    var r := call.phase.response;
    if call.key in s.records || !accepted then SetPhase(s, c, Rejected)
    else
      SetPhase(s.(messages := s.messages + {r.message},
                  jobs := if r.queued then s.jobs + {r.message} else s.jobs,
                  records := s.records[call.key := Record(call.hash, r, false)],
                  batches := s.batches + [Batch(call.key, call.hash, r)]), c, Done(Answered(r)))
  }

  function Apply(s: State, a: Action): State {
    match a
    case Begin(c, key, hash) =>
      if c in s.calls then s else s.(calls := s.calls[c := Call(key, hash, Lookup(s.records, key, hash, Started))])
    case Prepare(c, queued) =>
      if c in s.calls && s.calls[c].phase.Started?
      then SetPhase(s, c, Prepared(Response(s.supply, queued))).(supply := s.supply + 1) else s
    case Refuse(c) =>
      if c in s.calls && s.calls[c].phase.Started? then SetPhase(s, c, Done(Failed)) else s
    case Commit(c, accepted) =>
      if c in s.calls && s.calls[c].phase.Prepared? then CommitStep(s, c, accepted) else s
    case LookAgain(c) =>
      if c in s.calls && s.calls[c].phase.Rejected?
      then SetPhase(s, c, Lookup(s.records, s.calls[c].key, s.calls[c].hash, Done(Failed))) else s
    case Expire(key) =>
      if key in s.records then s.(records := s.records[key := s.records[key].(expired := true)]) else s
    case Clean(key) =>
      if key in s.records && s.records[key].expired
      then s.(records := s.records - {key}, cleaned := s.cleaned + multiset{key}) else s
  }

  function Run(s: State, actions: seq<Action>): State
    decreases |actions|
  {
    if actions == [] then s else Apply(Run(s, actions[..|actions| - 1]), actions[|actions| - 1])
  }

  // ------------------------------------------------------------------ conservation

  function Commits(batches: seq<Batch>, key: Key): nat
    decreases |batches|
  {
    if batches == [] then 0
    else Commits(batches[..|batches| - 1], key) + if batches[|batches| - 1].key == key then 1 else 0
  }

  lemma {:induction false} CommitsGrow(batches: seq<Batch>, key: Key, i: nat, j: nat)
    requires i <= j <= |batches|
    ensures Commits(batches[..i], key) <= Commits(batches[..j], key)
    ensures i < j && batches[i].key == key ==> Commits(batches[..i], key) < Commits(batches[..j], key)
    decreases j
  {
    if i < j {
      assert batches[..j][..j - 1] == batches[..j - 1];
      if i < j - 1 {
        CommitsGrow(batches, key, i, j - 1);
      }
    }
  }

  /** The batch under its key that has `n` before it; keys live again after cleanup, so this numbers their lives. */
  predicate IsNth(batches: seq<Batch>, n: nat, b: Batch) {
    exists i :: 0 <= i < |batches| && batches[i] == b && Commits(batches[..i], b.key) == n
  }

  lemma NthIsUnique(batches: seq<Batch>, n: nat, b: Batch, c: Batch)
    requires IsNth(batches, n, b) && IsNth(batches, n, c) && b.key == c.key
    ensures b == c
  {
    var i :| 0 <= i < |batches| && batches[i] == b && Commits(batches[..i], b.key) == n;
    var j :| 0 <= j < |batches| && batches[j] == c && Commits(batches[..j], c.key) == n;
    if i < j { CommitsGrow(batches, b.key, i, j); }
    if j < i { CommitsGrow(batches, b.key, j, i); }
  }

  lemma NthStays(before: seq<Batch>, after: seq<Batch>, n: nat, b: Batch)
    requires |before| <= |after| && after[..|before|] == before && IsNth(before, n, b)
    ensures IsNth(after, n, b)
  {
    var i :| 0 <= i < |before| && before[i] == b && Commits(before[..i], b.key) == n;
    assert after[..i] == before[..i];
    assert after[..|before|][i] == after[i];
  }

  lemma NewestIsNth(batches: seq<Batch>, b: Batch)
    ensures IsNth(batches + [b], Commits(batches, b.key), b)
  {
    assert (batches + [b])[..|batches|] == batches;
  }

  predicate Committed(s: State, key: Key, hash: Hash, response: Response) {
    exists i :: 0 <= i < |s.batches| && s.batches[i] == Batch(key, hash, response)
  }

  /** Every batch made one message, with a job exactly if its answer says queued. */
  predicate BatchOk(s: State, b: Batch) {
    b.response.message in s.messages && b.response.message < s.supply
    && (b.response.queued <==> b.response.message in s.jobs)
  }

  /** The record of a key is that of the batch its present life began with. */
  predicate RecordsOk(s: State) {
    forall key :: key in s.records ==>
      IsNth(s.batches, s.cleaned[key], Batch(key, s.records[key].hash, s.records[key].response))
  }

  ghost predicate Balanced(s: State) {
    forall key :: Commits(s.batches, key) == s.cleaned[key] + if key in s.records then 1 else 0
  }

  predicate BatchesOk(s: State) {
    forall i :: 0 <= i < |s.batches| ==> BatchOk(s, s.batches[i])
  }

  predicate AnswersOk(s: State) {
    forall c :: c in s.calls && s.calls[c].phase.Done? && s.calls[c].phase.outcome.Answered? ==>
      Committed(s, s.calls[c].key, s.calls[c].hash, s.calls[c].phase.outcome.response)
  }

  /** The ids that prepared calls have drawn are new, and each is one call's own. */
  predicate FreshOk(s: State) {
    (forall m :: m in s.jobs ==> m < s.supply) && (forall m :: m in s.messages ==> m < s.supply)
    && (forall c :: c in s.calls && s.calls[c].phase.Prepared? ==>
          s.calls[c].phase.response.message < s.supply
          && s.calls[c].phase.response.message !in s.messages && s.calls[c].phase.response.message !in s.jobs)
    && (forall c, d ::
          c in s.calls && d in s.calls && s.calls[c].phase.Prepared? && s.calls[d].phase.Prepared? && c != d ==>
          s.calls[c].phase.response.message != s.calls[d].phase.response.message)
  }

  ghost predicate Inv(s: State) {
    Balanced(s) && RecordsOk(s) && BatchesOk(s) && AnswersOk(s) && FreshOk(s)
  }

  lemma CommittedStays(s: State, after: State)
    requires |s.batches| <= |after.batches| && after.batches[..|s.batches|] == s.batches
    ensures forall k, h, r :: Committed(s, k, h, r) ==> Committed(after, k, h, r)
  {
    forall k, h, r | Committed(s, k, h, r) ensures Committed(after, k, h, r) {
      var i :| 0 <= i < |s.batches| && s.batches[i] == Batch(k, h, r);
      assert after.batches[..|s.batches|][i] == after.batches[i];
    }
  }

  lemma NewestIsCommitted(s: State)
    requires s.batches != []
    ensures var b := s.batches[|s.batches| - 1]; Committed(s, b.key, b.hash, b.response)
  {
  }

  lemma CommittedRecords(s: State, after: State, b: Batch)
    requires RecordsOk(s) && b.key !in s.records && Commits(s.batches, b.key) == s.cleaned[b.key]
    requires after.batches == s.batches + [b] && after.cleaned == s.cleaned
    requires after.records == s.records[b.key := Record(b.hash, b.response, false)]
    ensures RecordsOk(after)
  {
    hide IsNth;
    NewestIsNth(s.batches, b);
    forall k | k in s.records
      ensures k != b.key && IsNth(after.batches, s.cleaned[k], Batch(k, s.records[k].hash, s.records[k].response)) {
      NthStays(s.batches, after.batches, s.cleaned[k], Batch(k, s.records[k].hash, s.records[k].response));
    }
  }

  lemma NthIsCommitted(s: State, n: nat, b: Batch)
    requires IsNth(s.batches, n, b)
    ensures Committed(s, b.key, b.hash, b.response)
  {
  }

  lemma CommitKeeps(s: State, c: nat, accepted: bool)
    requires c in s.calls && s.calls[c].phase.Prepared? && Inv(s)
    ensures Inv(CommitStep(s, c, accepted))
  {
    var after := CommitStep(s, c, accepted);
    hide Committed, IsNth, Balanced, RecordsOk, BatchesOk, AnswersOk, FreshOk;
    if accepted && s.calls[c].key !in s.records {
      CommitBalances(s, c);
      CommitIsFresh(s, c);
      CommitAnswers(s, c);
    } else {
      hide Inv;
      PhaseKeeps(s, after, c);
    }
  }

  lemma CommitBalances(s: State, c: nat)
    requires c in s.calls && s.calls[c].phase.Prepared? && s.calls[c].key !in s.records && Balanced(s) && RecordsOk(s)
    ensures Balanced(CommitStep(s, c, true)) && RecordsOk(CommitStep(s, c, true))
  {
    var after := CommitStep(s, c, true);
    var call := s.calls[c];
    assert after.batches[..|s.batches|] == s.batches;
    assert Commits(s.batches, call.key) == s.cleaned[call.key];
    hide RecordsOk;
    CommittedRecords(s, after, Batch(call.key, call.hash, call.phase.response));
  }

  lemma CommitIsFresh(s: State, c: nat)
    requires c in s.calls && s.calls[c].phase.Prepared? && s.calls[c].key !in s.records && FreshOk(s) && BatchesOk(s)
    ensures FreshOk(CommitStep(s, c, true)) && BatchesOk(CommitStep(s, c, true))
  {
    var after := CommitStep(s, c, true);
    forall i | 0 <= i < |after.batches| ensures BatchOk(after, after.batches[i]) {
      assert i < |s.batches| ==> BatchOk(s, s.batches[i]);
    }
  }

  lemma CommitAnswers(s: State, c: nat)
    requires c in s.calls && s.calls[c].phase.Prepared? && s.calls[c].key !in s.records && AnswersOk(s)
    ensures AnswersOk(CommitStep(s, c, true))
  {
    var after := CommitStep(s, c, true);
    CommittedStays(s, after);
    NewestIsCommitted(after);
    hide Committed;
  }

  /** A lookup answers with the response of a committed batch. */
  lemma LookupIsCommitted(s: State, key: Key, hash: Hash, absent: Phase)
    requires Inv(s)
    ensures var p := Lookup(s.records, key, hash, absent);
            p == absent || p == Done(KeyReused)
            || (p.Done? && p.outcome.Answered? && Committed(s, key, hash, p.outcome.response)
                && IsNth(s.batches, s.cleaned[key], Batch(key, hash, p.outcome.response)))
  {
    hide IsNth, Committed;
    if key in s.records {
      NthIsCommitted(s, s.cleaned[key], Batch(key, s.records[key].hash, s.records[key].response));
    }
  }

  /** A call moves on, and is not about to commit anything it was not about to commit before. */
  lemma PhaseKeeps(s: State, after: State, c: nat)
    requires c in after.calls && !after.calls[c].phase.Prepared? && after == s.(calls := s.calls[c := after.calls[c]])
    requires after.calls[c].phase.Done? && after.calls[c].phase.outcome.Answered? ==>
               Committed(s, after.calls[c].key, after.calls[c].hash, after.calls[c].phase.outcome.response)
    requires Inv(s)
    ensures Inv(after)
  {
    CommittedStays(s, after);
    hide Committed, Commits, IsNth;
    assert forall i :: 0 <= i < |after.batches| ==> BatchOk(s, after.batches[i]);
  }

  lemma PrepareKeeps(s: State, c: nat, queued: bool)
    requires c in s.calls && s.calls[c].phase.Started? && Inv(s)
    ensures Inv(Apply(s, Prepare(c, queued)))
  {
    var after := Apply(s, Prepare(c, queued));
    CommittedStays(s, after);
    hide Committed, Commits, IsNth;
    assert forall i :: 0 <= i < |after.batches| ==> BatchOk(s, after.batches[i]);
  }

  lemma ExpireKeeps(s: State, key: Key)
    requires key in s.records && Inv(s)
    ensures Inv(s.(records := s.records[key := s.records[key].(expired := true)]))
  {
    var after := s.(records := s.records[key := s.records[key].(expired := true)]);
    CommittedStays(s, after);
    hide Committed, Commits, IsNth;
    assert forall i :: 0 <= i < |after.batches| ==> BatchOk(s, after.batches[i]);
  }

  /** Cleaning a record away moves it from one side of the balance to the other. */
  lemma CleanKeeps(s: State, key: Key)
    requires key in s.records && Inv(s)
    ensures Inv(s.(records := s.records - {key}, cleaned := s.cleaned + multiset{key}))
  {
    var after := s.(records := s.records - {key}, cleaned := s.cleaned + multiset{key});
    CommittedStays(s, after);
    hide Committed, Commits, IsNth;
    assert forall i :: 0 <= i < |after.batches| ==> BatchOk(s, after.batches[i]);
  }

  lemma StepKeeps(s: State, a: Action)
    requires Inv(s)
    ensures Inv(Apply(s, a))
  {
    var after := Apply(s, a);
    match a
    case Begin(c, key, hash) =>
      LookupIsCommitted(s, key, hash, Started);
      hide Inv, Lookup;
      if c !in s.calls { PhaseKeeps(s, after, c); }
    case Prepare(c, queued) =>
      hide Inv;
      if c in s.calls && s.calls[c].phase.Started? { PrepareKeeps(s, c, queued); }
    case Refuse(c) =>
      hide Inv;
      if c in s.calls && s.calls[c].phase.Started? { PhaseKeeps(s, after, c); }
    case Commit(c, accepted) =>
      hide Inv;
      if c in s.calls && s.calls[c].phase.Prepared? { CommitKeeps(s, c, accepted); }
    case LookAgain(c) =>
      if c in s.calls && s.calls[c].phase.Rejected? {
        LookupIsCommitted(s, s.calls[c].key, s.calls[c].hash, Done(Failed));
        hide Inv, Lookup;
        PhaseKeeps(s, after, c);
      }
    case Expire(key) => hide Inv; if key in s.records { ExpireKeeps(s, key); }
    case Clean(key) => hide Inv; if key in s.records { CleanKeeps(s, key); }
  }

  lemma {:induction false} RunKeeps(s: State, actions: seq<Action>)
    requires Inv(s)
    ensures Inv(Run(s, actions))
    decreases |actions|
  {
    if actions != [] {
      RunKeeps(s, actions[..|actions| - 1]);
      StepKeeps(Run(s, actions[..|actions| - 1]), actions[|actions| - 1]);
    }
  }

  /** No call under way, and a history in which every record is accounted for. */
  ghost predicate Initial(s: State) {
    Inv(s) && s.calls == map[]
  }

  /** Main result, first half: batches committed under a key are the records cleaned away, plus the one there is. */
  lemma CommitsAreConserved(s: State, actions: seq<Action>, key: Key)
    requires Initial(s)
    ensures var end := Run(s, actions);
            Commits(end.batches, key) == end.cleaned[key] + if key in end.records then 1 else 0
  {
    RunKeeps(s, actions);
  }

  predicate HasAnswer(s: State, c: nat) {
    c in s.calls && s.calls[c].phase.Done? && s.calls[c].phase.outcome.Answered?
  }

  predicate IsDone(s: State, c: nat) {
    c in s.calls && s.calls[c].phase.Done?
  }

  /** The batch whose answer a call gives. */
  function AnsweredBatch(s: State, c: nat): Batch
    requires HasAnswer(s, c)
  {
    Batch(s.calls[c].key, s.calls[c].hash, s.calls[c].phase.outcome.response)
  }

  lemma StepAnswers(s: State, a: Action, c: nat)
    requires Inv(s) && !IsDone(s, c) && HasAnswer(Apply(s, a), c)
    ensures var after := Apply(s, a); IsNth(after.batches, after.cleaned[after.calls[c].key], AnsweredBatch(after, c))
  {
    hide IsNth, Committed;
    match a
    case Begin(d, key, hash) =>
      LookupIsCommitted(s, key, hash, Started);
      hide Inv, Lookup;
    case Commit(d, accepted) =>
      if d in s.calls && s.calls[d].phase.Prepared? {
        NewestIsNth(s.batches, Batch(s.calls[d].key, s.calls[d].hash, s.calls[d].phase.response));
      }
      hide RecordsOk, BatchesOk, AnswersOk, FreshOk;
    case LookAgain(d) =>
      if d in s.calls && s.calls[d].phase.Rejected? {
        LookupIsCommitted(s, s.calls[d].key, s.calls[d].hash, Done(Failed));
      }
      hide Inv, Lookup;
    case _ =>
      hide Inv;
  }

  lemma StepGoesOn(s: State, a: Action, key: Key, c: nat)
    ensures s.cleaned[key] <= Apply(s, a).cleaned[key]
    ensures |s.batches| <= |Apply(s, a).batches| && Apply(s, a).batches[..|s.batches|] == s.batches
    ensures IsDone(s, c) ==> IsDone(Apply(s, a), c) && Apply(s, a).calls[c] == s.calls[c]
  {
  }

  lemma {:induction false} RunGoesOn(s: State, actions: seq<Action>, key: Key)
    ensures s.cleaned[key] <= Run(s, actions).cleaned[key]
    decreases |actions|
  {
    if actions != [] {
      RunGoesOn(s, actions[..|actions| - 1], key);
      StepGoesOn(Run(s, actions[..|actions| - 1]), actions[|actions| - 1], key, 0);
    }
  }

  /** Whoever is answered while a key's record is not cleaned away is answered with the batch of that life. */
  lemma {:induction false} AnsweredInThisLife(s: State, actions: seq<Action>, c: nat)
    requires Inv(s) && !IsDone(s, c) && HasAnswer(Run(s, actions), c)
    requires var end := Run(s, actions); end.cleaned[end.calls[c].key] == s.cleaned[end.calls[c].key]
    ensures var end := Run(s, actions); IsNth(end.batches, s.cleaned[end.calls[c].key], AnsweredBatch(end, c))
    decreases |actions|
  {
    hide Apply, IsNth, Inv;
    var most, last := actions[..|actions| - 1], actions[|actions| - 1];
    var before, end := Run(s, most), Run(s, actions);
    var key := end.calls[c].key;
    RunKeeps(s, most);
    RunGoesOn(s, most, key);
    StepGoesOn(before, last, key, c);
    if IsDone(before, c) {
      AnsweredInThisLife(s, most, c);
      NthStays(before.batches, end.batches, s.cleaned[key], AnsweredBatch(before, c));
    } else {
      StepAnswers(before, last, c);
    }
  }

  /**
   Main result, second half.  From any moment `middle` to any later one before the key's record is next cleaned
   away: if some call under the key is answered, then exactly one batch of this life of the key has committed, all
   who are answered get its answer, and they had its request; a call with another request has made nothing.
   */
  lemma ExactlyOnce(s: State, first: seq<Action>, more: seq<Action>, key: Key, c: nat, d: nat)
    requires Initial(s)
    requires var (middle, end) := (Run(s, first), Run(Run(s, first), more));
             end.cleaned[key] == middle.cleaned[key]
             && {c, d} <= end.calls.Keys && end.calls[c].key == key && end.calls[d].key == key
             && !IsDone(middle, c) && !IsDone(middle, d) && HasAnswer(end, c)
    ensures var (middle, end) := (Run(s, first), Run(Run(s, first), more));
            var r := end.calls[c].phase.outcome.response;
            Commits(end.batches, key) == middle.cleaned[key] + 1 && r.message in end.messages
                && (r.queued <==> r.message in end.jobs)
            && (HasAnswer(end, d) ==> AnsweredBatch(end, d) == AnsweredBatch(end, c))
    ensures var (middle, end) := (Run(s, first), Run(Run(s, first), more));
            end.calls[d].hash != end.calls[c].hash ==>
              !HasAnswer(end, d) && forall b :: IsNth(end.batches, middle.cleaned[key], b) && b.key == key ==>
                  b.hash != end.calls[d].hash
  {
    RunKeeps(s, first);
    var middle := Run(s, first);
    RunKeeps(middle, more);
    var end := Run(middle, more);
    AnsweredInThisLife(middle, more, c);
    var b := AnsweredBatch(end, c);
    assert Balanced(end) && Commits(end.batches, key) <= middle.cleaned[key] + 1;
    NthCounts(end, middle.cleaned[key], b);
    hide Inv, Run, IsNth, Commits;
    if HasAnswer(end, d) {
      AnsweredInThisLife(middle, more, d);
      NthIsUnique(end.batches, middle.cleaned[key], b, AnsweredBatch(end, d));
    }
    forall other | IsNth(end.batches, middle.cleaned[key], other) && other.key == key ensures other == b {
      NthIsUnique(end.batches, middle.cleaned[key], b, other);
    }
  }

  lemma NthCounts(s: State, n: nat, b: Batch)
    requires IsNth(s.batches, n, b) && BatchesOk(s)
    ensures Commits(s.batches, b.key) > n && BatchOk(s, b)
  {
    var i :| 0 <= i < |s.batches| && s.batches[i] == b && Commits(s.batches[..i], b.key) == n;
    CommitsGrow(s.batches, b.key, i, |s.batches|);
    assert s.batches[..|s.batches|] == s.batches;
  }

  // ------------------------------------------------------------------ a retry is answered

  /**
   Main result: a prepared call whose batch is not refused for another reason commits it if and only if no record is
   under its key, expired or not; then it has made its own message, which is new, with a job if and only if it is
   queued, and is answered with it.  Otherwise it has made nothing.
   */
  lemma CommitsIff(s: State, actions: seq<Action>, c: nat, accepted: bool)
    requires Initial(s) && c in Run(s, actions).calls && Run(s, actions).calls[c].phase.Prepared?
    ensures var before := Run(s, actions);
            var after := Apply(before, Commit(c, accepted));
            var call := before.calls[c];
            var m := call.phase.response.message;
            if accepted && call.key !in before.records then
              m !in before.messages && m !in before.jobs && after.messages == before.messages + {m}
              && after.jobs == (if call.phase.response.queued then before.jobs + {m} else before.jobs)
              && after.batches == before.batches + [Batch(call.key, call.hash, call.phase.response)]
              && after.calls == before.calls[c := Call(call.key, call.hash, Done(Answered(call.phase.response)))]
            else
              after == before.(calls := before.calls[c := Call(call.key, call.hash, Rejected)])
  {
    RunKeeps(s, actions);
    hide Run, Balanced, RecordsOk, BatchesOk, AnswersOk;
  }

  predicate OnRecord(s: State, b: Batch) {
    b.key in s.records && s.records[b.key].hash == b.hash && s.records[b.key].response == b.response
    && !s.records[b.key].expired
  }

  lemma StepKeepsRecord(s: State, a: Action, b: Batch)
    requires OnRecord(s, b) && a != Expire(b.key)
    ensures OnRecord(Apply(s, a), b)
  {
  }

  lemma {:induction false} RunKeepsRecord(s: State, actions: seq<Action>, b: Batch)
    requires OnRecord(s, b) && Expire(b.key) !in actions
    ensures OnRecord(Run(s, actions), b)
    decreases |actions|
  {
    if actions != [] {
      var most, last := actions[..|actions| - 1], actions[|actions| - 1];
      assert last in actions;
      hide Apply, OnRecord;
      RunKeepsRecord(s, most, b);
      StepKeepsRecord(Run(s, most), last, b);
    }
  }

  /** In the step `a` after the run, the batch `b` is committed. */
  predicate CommittedIn(s: State, actions: seq<Action>, a: Action, b: Batch) {
    Apply(Run(s, actions), a).batches == Run(s, actions).batches + [b]
  }

  /** The answer to a request of this hash, given that `b` is what its key stands for. */
  function AnswerFrom(b: Batch, hash: Hash): Phase {
    Done(if hash == b.hash then Answered(b.response) else KeyReused)
  }

  /**
   Main result: from the commit of a batch on, for as long as its record has not expired, a call under its key that
   begins, or that looks again after its own batch was refused, is answered with the batch's response if it has the
   batch's request, and with KeyReused if not; and no call under the key commits anything.
   */
  lemma RetryIsAnswered(s: State, actions: seq<Action>, a: Action, b: Batch, more: seq<Action>, c: nat, hash: Hash,
      accepted: bool)
    requires CommittedIn(s, actions, a, b) && Expire(b.key) !in more
    ensures var before := Run(Apply(Run(s, actions), a), more);
            var after := Apply(before, Begin(c, b.key, hash));
            c !in before.calls ==>
              after == before.(calls := before.calls[c := Call(b.key, hash, AnswerFrom(b, hash))])
    ensures var before := Run(Apply(Run(s, actions), a), more);
            c in before.calls && before.calls[c].key == b.key ==>
              (before.calls[c].phase.Rejected? ==>
                 var answer := AnswerFrom(b, before.calls[c].hash);
                 Apply(before, LookAgain(c))
                 == before.(calls := before.calls[c := Call(b.key, before.calls[c].hash, answer)]))
              && (before.calls[c].phase.Prepared? ==>
                    Apply(before, Commit(c, accepted))
                    == before.(calls := before.calls[c := Call(b.key, before.calls[c].hash, Rejected)]))
  {
    var middle := Apply(Run(s, actions), a);
    CommittedIsOnRecord(Run(s, actions), a, b);
    hide Run, Apply;
    RunKeepsRecord(middle, more, b);
    LookupAnswers(Run(middle, more), b, c, hash, accepted);
  }

  lemma CommittedIsOnRecord(s: State, a: Action, b: Batch)
    requires Apply(s, a).batches == s.batches + [b]
    ensures OnRecord(Apply(s, a), b)
  {
    assert |s.batches + [b]| == |s.batches| + 1 && (s.batches + [b])[|s.batches|] == b;
    if a.Commit? && a.call in s.calls && s.calls[a.call].phase.Prepared? {
      var made := Batch(s.calls[a.call].key, s.calls[a.call].hash, s.calls[a.call].phase.response);
      assert (s.batches + [made])[|s.batches|] == made;
    }
  }

  lemma LookupAnswers(s: State, b: Batch, c: nat, hash: Hash, accepted: bool)
    requires OnRecord(s, b)
    ensures c !in s.calls ==>
              Apply(s, Begin(c, b.key, hash)) == s.(calls := s.calls[c := Call(b.key, hash, AnswerFrom(b, hash))])
    ensures c in s.calls && s.calls[c].key == b.key && s.calls[c].phase.Rejected? ==>
              Apply(s, LookAgain(c))
              == s.(calls := s.calls[c := Call(b.key, s.calls[c].hash, AnswerFrom(b, s.calls[c].hash))])
    ensures c in s.calls && s.calls[c].key == b.key && s.calls[c].phase.Prepared? ==>
              Apply(s, Commit(c, accepted)) == s.(calls := s.calls[c := Call(b.key, s.calls[c].hash, Rejected)])
  {
  }

  /** And a call under a key without a record is answered, if nothing refuses it, with a message of its own. */
  lemma FirstIsAnswered(s: State, actions: seq<Action>, c: nat, key: Key, hash: Hash, queued: bool)
    requires Initial(s) && c !in Run(s, actions).calls && key !in Run(s, actions).records
    ensures var before := Run(s, actions);
            var end := Apply(Apply(Apply(before, Begin(c, key, hash)), Prepare(c, queued)), Commit(c, true));
            var m := before.supply;
            m !in before.messages && end.messages == before.messages + {m} && c in end.calls
            && end.calls[c].phase == Done(Answered(Response(m, queued)))
            && end.jobs == if queued then before.jobs + {m} else before.jobs
  {
    RunKeeps(s, actions);
    hide Run, Balanced, RecordsOk, BatchesOk, AnswersOk;
  }

  /**
   From a record's expiry to its cleanup nothing can be sent under its key: the lookup does not see it, the
   unique index still does, and the second lookup does not see it either.
   */
  lemma ExpiredKeyIsDead(s: State, c: nat, accepted: bool)
    requires c in s.calls && s.calls[c].phase.Prepared?
    requires s.calls[c].key in s.records && s.records[s.calls[c].key].expired
    ensures Lookup(s.records, s.calls[c].key, s.calls[c].hash, Started) == Started
    ensures var after := Apply(Apply(s, Commit(c, accepted)), LookAgain(c));
            after.calls[c].phase == Done(Failed) && after.batches == s.batches && after.messages == s.messages
  {
  }
}
