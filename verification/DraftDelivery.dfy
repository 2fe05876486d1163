/**
 What a delivery does to the message: outbound-mail/index.ts `processOutboundJob` writes `sent` or `failed` only over
 `draft`, so what it leaves is decided by how the job came to be, and by what the message was when it was claimed.
 */
module DraftDelivery {
  import opened DraftTables
  import opened DraftCalls
  import opened DraftProtocol
  import opened DraftFrames
  import opened DraftInvariant
  import opened DraftTheorems
  import opened DraftDispatch
  import opened Options

  // ------------------------------------------------------------------ who has a job

  predicate JobOk(db: Db, d: Id)
    requires d in db.jobs
  {
    d in db.messages
    && (!db.jobs[d].scheduled ==> db.messages[d].status == Queued || db.messages[d].status.Reported?)
  }

  /** A job has its message; and one that was not made by a schedule, a message that was queued with it. */
  predicate JobsOk(db: Db) {
    forall d :: d in db.jobs ==> JobOk(db, d)
  }

  lemma CommitKeepsJobsOk(db: Db, dir: Directory, r: Request, version: Version, mailbox: Id, plan: Plan, stamp: nat)
    requires PlanFits(r, plan) && JobsOk(db)
    ensures JobsOk(Commit(db, dir, r, version, mailbox, plan, stamp).0)
  {
    hide OutcomeOf, RecordOf, Attached, Consume, Deliver, UploadValid;
  }

  lemma EffectKeepsJobOk(db: Db, e: Effect, d: Id)
    requires (d in db.jobs ==> JobOk(db, d)) && (Draws(e) ==> DrawnBy(e) !in db.messages)
    ensures d in Happens(db, e).jobs ==> JobOk(Happens(db, e), d)
  {
    hide Attached, Consume, UploadValid;
  }

  lemma EffectKeepsJobsOk(db: Db, e: Effect)
    requires JobsOk(db) && (Draws(e) ==> DrawnBy(e) !in db.messages)
    ensures JobsOk(Happens(db, e))
  {
    hide Happens, JobOk;
    forall d | d in Happens(db, e).jobs ensures JobOk(Happens(db, e), d) {
      EffectKeepsJobOk(db, e, d);
    }
  }

  lemma StepKeepsJobsOk(dir: Directory, s: State, a: Action)
    requires Inv(dir, s) && JobsOk(s.db)
    ensures JobsOk(Apply(dir, s, a).db)
  {
    hide Happens, Begin, ReadDraft, Load, Commit, Clean, BatchOf, JobsOk;
    match a
    case Commits(c) =>
      if c in s.calls && Committable(s.calls[c]) {
        var r, p := s.calls[c].request, s.calls[c].phase;
        CommitKeepsJobsOk(s.db, dir, r, p.version, p.mailbox, p.plan, p.stamp);
      }
    case Env(e) =>
      if Allowed(s, e) {
        EffectKeepsJobsOk(s.db, e);
      }
    case _ =>
  }

  lemma {:induction false} RunKeepsJobsOk(dir: Directory, s: State, actions: seq<Action>)
    requires Inv(dir, s) && JobsOk(s.db)
    ensures Inv(dir, Run(dir, s, actions)) && JobsOk(Run(dir, s, actions).db)
    decreases |actions|
  {
    if actions != [] {
      hide Inv, Apply, JobsOk;
      var most := actions[..|actions| - 1];
      RunKeepsJobsOk(dir, s, most);
      StepKeepsInv(dir, Run(dir, s, most), actions[|actions| - 1]);
      StepKeepsJobsOk(dir, Run(dir, s, most), actions[|actions| - 1]);
    }
  }

  // ------------------------------------------------------------------ the batch that ends a delivery

  lemma JobHasItsMessage(db: Db, d: Id)
    requires d in db.jobs && JobOk(db, d)
    ensures d in db.messages
            && (!db.jobs[d].scheduled ==> db.messages[d].status == Queued || db.messages[d].status.Reported?)
  {
  }

  lemma GivesUp(db: Db, d: Id, job: nat, token: nat, retryable: bool, retryAt: int)
    requires Holds(db, d, job, token) && d in db.messages
    ensures var after := Happens(db, GaveUp(d, job, token, retryable, retryAt));
            d in after.messages && d in after.jobs && after.jobs[d].lock == None
            && after.jobs[d].status == (if retryable then Pending else Abandoned)
               && after.jobs[d].availableAt == retryAt
            && (!retryable ==> (after.messages[d].status == Failed <==> db.messages[d].status in {Draft, Failed}))
            && (retryable || db.messages[d].status != Draft ==> after.messages[d] == db.messages[d])
  {
  }

  lemma Completes(db: Db, d: Id, job: nat, token: nat, internal: set<Id>)
    requires Holds(db, d, job, token) && d in db.messages
    ensures var after := Happens(db, Completed(d, job, token, internal));
            d in after.messages && JobIs(after, d, {JobStatus.Succeeded}) && after.jobs[d].lock == None
            && (after.messages[d].status == Sent <==> db.messages[d].status in {Draft, Sent})
            && (db.messages[d].status != Draft ==> after.messages[d] == db.messages[d])
  {
  }

  /**
   Main result: in every run, the success of the job's holder settles the job, and leaves the message sent if and only
   if it found it a draft or sent.  The message of a job that no schedule made is neither, and stays as it is.
   */
  lemma DeliveredIsSentIff(dir: Directory, s: State, actions: seq<Action>, d: Id, job: nat, token: nat,
      internal: set<Id>)
    requires Inv(dir, s) && JobsOk(s.db) && Holds(Run(dir, s, actions).db, d, job, token)
    ensures var before := Run(dir, s, actions).db;
            var after := Apply(dir, Run(dir, s, actions), Env(Completed(d, job, token, internal))).db;
            d in before.messages && d in after.messages
            && JobIs(after, d, {JobStatus.Succeeded}) && after.jobs[d].lock == None
            && (after.messages[d].status == Sent <==> before.messages[d].status in {Draft, Sent})
            && (before.messages[d].status != Draft ==> after.messages[d] == before.messages[d])
            && (!before.jobs[d].scheduled ==>
               before.messages[d].status == Queued || before.messages[d].status.Reported?)
  {
    hide Inv, Apply, Happens, JobOk;
    var before := Run(dir, s, actions);
    RunKeepsJobsOk(dir, s, actions);
    assert JobOk(before.db, d);
    hide Run, JobsOk;
    EnvStep(dir, before, Completed(d, job, token, internal));
    JobHasItsMessage(before.db, d);
    Completes(before.db, d, job, token, internal);
  }

  /**
   Main result: the same of a failure.  Without a retry the job is abandoned, and the message failed if and only if it
   was a draft or failed; with one the job is pending again and the message as it was.
   */
  lemma GivenUpIsFailedIff(
    dir: Directory, s: State, actions: seq<Action>, d: Id, job: nat, token: nat, retryable: bool, retryAt: int)
    requires Inv(dir, s) && JobsOk(s.db) && Holds(Run(dir, s, actions).db, d, job, token)
    ensures var before := Run(dir, s, actions).db;
            var after := Apply(dir, Run(dir, s, actions), Env(GaveUp(d, job, token, retryable, retryAt))).db;
            d in before.messages && d in after.messages && d in after.jobs && after.jobs[d].lock == None
            && after.jobs[d].status == (if retryable then Pending else Abandoned)
               && after.jobs[d].availableAt == retryAt
            && (!retryable ==> (after.messages[d].status == Failed <==> before.messages[d].status in {Draft, Failed}))
            && (retryable || before.messages[d].status != Draft ==> after.messages[d] == before.messages[d])
            && (!before.jobs[d].scheduled ==>
               before.messages[d].status == Queued || before.messages[d].status.Reported?)
  {
    hide Inv, Apply, Happens, JobOk;
    var before := Run(dir, s, actions);
    RunKeepsJobsOk(dir, s, actions);
    assert JobOk(before.db, d);
    hide Run, JobsOk;
    EnvStep(dir, before, GaveUp(d, job, token, retryable, retryAt));
    JobHasItsMessage(before.db, d);
    GivesUp(before.db, d, job, token, retryable, retryAt);
  }

  // ------------------------------------------------------------------ from the claim to the end

  /** Somebody else's delivery of the message fails for good, a provider reports on it, or it is purged. */
  predicate Interferes(a: Action, d: Id) {
    (a.Env? && a.effect.GaveUp? && a.effect.draft == d && !a.effect.retryable) || Retouches(a, d)
  }

  predicate IsSentOrDraft(db: Db, d: Id) {
    d in db.messages && db.messages[d].status in {Draft, Sent}
  }

  lemma EffectKeepsSentOrDraft(db: Db, e: Effect, d: Id)
    requires IsSentOrDraft(db, d) && !Interferes(Env(e), d) && !(e.Removed? && e.draft == d)
    requires Draws(e) ==> DrawnBy(e) !in db.messages
    ensures IsSentOrDraft(Happens(db, e), d)
  {
    hide Attached, Consume, UploadValid;
  }

  lemma CommitKeepsSentOrDraft(db: Db, dir: Directory, r: Request, version: Version, mailbox: Id, plan: Plan,
      stamp: nat, d: Id)
    requires PlanFits(r, plan) && IsSentOrDraft(db, d) && d in db.jobs
    ensures IsSentOrDraft(Commit(db, dir, r, version, mailbox, plan, stamp).0, d)
  {
    hide OutcomeOf, RecordOf, Attached, Consume, Deliver, UploadValid;
  }

  lemma StepKeepsSentOrDraft(dir: Directory, s: State, a: Action, d: Id)
    requires Inv(dir, s) && IsSentOrDraft(s.db, d) && d in s.db.jobs && !Interferes(a, d) && !Settles(s, a, d)
    ensures IsSentOrDraft(Apply(dir, s, a).db, d)
  {
    hide Happens, Begin, ReadDraft, Load, Commit, Clean, BatchOf, IsSentOrDraft, Interferes;
    match a
    case Commits(c) =>
      if c in s.calls && Committable(s.calls[c]) {
        var r, p := s.calls[c].request, s.calls[c].phase;
        CommitKeepsSentOrDraft(s.db, dir, r, p.version, p.mailbox, p.plan, p.stamp, d);
      }
    case Env(e) =>
      if Allowed(s, e) {
        EffectKeepsSentOrDraft(s.db, e, d);
      }
    case _ =>
  }

  /** The stretch of one delivery: the job is held throughout, and nobody else writes how the message fared. */
  predicate Undisturbed(dir: Directory, s: State, actions: seq<Action>, d: Id) {
    forall n :: 0 <= n < |actions| ==> !Settles(Run(dir, s, actions[..n]), actions[n], d) && !Interferes(actions[n], d)
  }

  lemma UndisturbedMost(dir: Directory, s: State, actions: seq<Action>, d: Id)
    requires actions != [] && Undisturbed(dir, s, actions, d)
    ensures Undisturbed(dir, s, actions[..|actions| - 1], d)
    ensures !Settles(Run(dir, s, actions[..|actions| - 1]), actions[|actions| - 1], d)
            && !Interferes(actions[|actions| - 1], d)
  {
    hide Settles, Interferes, Apply;
    var most := actions[..|actions| - 1];
    forall n | 0 <= n < |most| ensures !Settles(Run(dir, s, most[..n]), most[n], d) && !Interferes(most[n], d) {
      assert most[..n] == actions[..n] && most[n] == actions[n];
    }
  }

  lemma {:induction false} HeldMessageStays(dir: Directory, s: State, actions: seq<Action>, d: Id)
    requires Inv(dir, s) && IsTaken(s.db, d) && d in s.db.messages && Undisturbed(dir, s, actions, d)
    ensures var end := Run(dir, s, actions).db;
            Inv(dir, Run(dir, s, actions)) && d in s.db.jobs && d in end.jobs && end.jobs[d] == s.db.jobs[d]
            && (IsSentOrDraft(s.db, d) ==> IsSentOrDraft(end, d))
            && (s.db.messages[d].status != Draft ==> d in end.messages && end.messages[d] == s.db.messages[d])
    decreases |actions|
  {
    TakenJobExists(s.db, d);
    hide Inv, Settles, Apply, IsSentOrDraft, Undisturbed;
    if actions != [] {
      var most, last := actions[..|actions| - 1], actions[|actions| - 1];
      UndisturbedMost(dir, s, actions, d);
      HeldMessageStays(dir, s, most, d);
      var before := Run(dir, s, most);
      StepKeepsInv(dir, before, last);
      StepKeepsTakenJob(dir, before, last, d);
      if IsSentOrDraft(s.db, d) {
        StepKeepsSentOrDraft(dir, before, last, d);
      }
      if s.db.messages[d].status != Draft {
        StepFreezes(dir, before, last, d);
      }
    }
  }

  /**
   Main result: a delivery that succeeds leaves its message sent if and only if the message was a draft or sent when
   the job was claimed, whatever calls and consumers run in between; any other message it leaves as it was then.
   */
  lemma ClaimedIsSentIff(dir: Directory, s: State, actions: seq<Action>, d: Id, internal: set<Id>)
    requires Inv(dir, s) && d in s.db.messages && JobIs(s.db, d, {Processing}) && s.db.jobs[d].lock.Some?
    requires Undisturbed(dir, s, actions, d)
    ensures var j := s.db.jobs[d];
            var after := Apply(dir, Run(dir, s, actions), Env(Completed(d, j.id, j.lock.value.token, internal))).db;
            d in after.messages && JobIs(after, d, {JobStatus.Succeeded})
            && (after.messages[d].status == Sent <==> s.db.messages[d].status in {Draft, Sent})
            && (s.db.messages[d].status != Draft ==> after.messages[d] == s.db.messages[d])
  {
    hide Inv, Apply, Run, Happens, Undisturbed;
    HeldMessageStays(dir, s, actions, d);
    var j := s.db.jobs[d];
    var before := Run(dir, s, actions);
    EnvStep(dir, before, Completed(d, j.id, j.lock.value.token, internal));
    Completes(before.db, d, j.id, j.lock.value.token, internal);
  }

  // ------------------------------------------------------------------ one consumer at a time

  lemma CommitKeepsTime(db: Db, dir: Directory, r: Request, version: Version, mailbox: Id, plan: Plan, stamp: nat)
    requires PlanFits(r, plan)
    ensures Commit(db, dir, r, version, mailbox, plan, stamp).0.now == db.now
  {
    hide OutcomeOf, RecordOf, Attached, Consume, Deliver, UploadValid;
  }

  lemma StepKeepsTime(dir: Directory, s: State, a: Action)
    ensures s.db.now <= Apply(dir, s, a).db.now
  {
    hide Happens, Begin, ReadDraft, Load, Commit, Clean, BatchOf;
    match a
    case Commits(c) =>
      if c in s.calls && Committable(s.calls[c]) {
        var r, p := s.calls[c].request, s.calls[c].phase;
        CommitKeepsTime(s.db, dir, r, p.version, p.mailbox, p.plan, p.stamp);
      }
    case Env(e) => EffectMovesJob(s.db, e, 0);
    case _ =>
  }

  lemma {:induction false} TimeGoesOn(dir: Directory, s: State, actions: seq<Action>, n: nat)
    requires n <= |actions|
    ensures Run(dir, s, actions[..n]).db.now <= Run(dir, s, actions).db.now
    decreases |actions|
  {
    hide Apply;
    if n == |actions| {
      assert actions[..n] == actions;
    } else {
      var most := actions[..|actions| - 1];
      assert most[..n] == actions[..n];
      TimeGoesOn(dir, s, most, n);
      StepKeepsTime(dir, Run(dir, s, most), actions[|actions| - 1]);
    }
  }

  /** Steps of the holder's own, and the removal of the message. */
  predicate Releases(s: State, a: Action, d: Id) {
    Settles(s, a, d) && !a.effect.LocksRecovered?
  }

  /** The holder keeps the job, and the message is there, throughout the run. */
  predicate Unreleased(dir: Directory, s: State, actions: seq<Action>, d: Id) {
    forall n :: 0 <= n < |actions| ==> !Releases(Run(dir, s, actions[..n]), actions[n], d)
  }

  lemma UnreleasedMost(dir: Directory, s: State, actions: seq<Action>, d: Id)
    requires actions != [] && Unreleased(dir, s, actions, d)
    ensures Unreleased(dir, s, actions[..|actions| - 1], d)
    ensures !Releases(Run(dir, s, actions[..|actions| - 1]), actions[|actions| - 1], d)
  {
    hide Releases, Apply;
    var most := actions[..|actions| - 1];
    forall n | 0 <= n < |most| ensures !Releases(Run(dir, s, most[..n]), most[n], d) {
      assert most[..n] == actions[..n] && most[n] == actions[n];
    }
  }

  /** The job is being processed under a lock that has not expired. */
  predicate HeldBy(s: State, d: Id, job: Job) {
    d in s.db.jobs && s.db.jobs[d] == job && job.status == Processing && job.lock.Some?
  }

  lemma StepKeepsHeld(dir: Directory, s: State, a: Action, d: Id, job: Job)
    requires HeldBy(s, d, job) && s.db.now <= job.lock.value.expires && !Releases(s, a, d)
    ensures HeldBy(Apply(dir, s, a), d, job)
  {
    hide Apply;
    UnexpiredIsNotSettled(s, a, d);
    hide Settles, Releases;
    StepKeepsTakenJob(dir, s, a, d);
  }

  lemma {:induction false} UnexpiredStays(dir: Directory, s: State, actions: seq<Action>, d: Id, job: Job)
    requires HeldBy(s, d, job) && Run(dir, s, actions).db.now <= job.lock.value.expires
    requires Unreleased(dir, s, actions, d)
    ensures HeldBy(Run(dir, s, actions), d, job)
    decreases |actions|
  {
    hide Apply, Releases, Unreleased;
    if actions != [] {
      var most, last := actions[..|actions| - 1], actions[|actions| - 1];
      UnreleasedMost(dir, s, actions, d);
      TimeGoesOn(dir, s, actions, |most|);
      UnexpiredStays(dir, s, most, d, job);
      StepKeepsHeld(dir, Run(dir, s, most), last, d, job);
    }
  }

  /**
   Main result: until its holder releases it or its message is removed, a job whose lock has not expired keeps that
   lock, and no other consumer can claim it.
   */
  lemma LiveLockIsExclusive(dir: Directory, s: State, actions: seq<Action>, d: Id, job: nat, other: Lock)
    requires JobIs(s.db, d, {Processing}) && s.db.jobs[d].lock.Some?
    requires Run(dir, s, actions).db.now <= s.db.jobs[d].lock.value.expires && Unreleased(dir, s, actions, d)
    ensures var end := Run(dir, s, actions).db;
            d in end.jobs && end.jobs[d] == s.db.jobs[d] && ClaimJob(end, d, job, other) == end
  {
    hide Apply, Run, Unreleased;
    UnexpiredStays(dir, s, actions, d, s.db.jobs[d]);
  }

  lemma UnexpiredIsNotSettled(s: State, a: Action, d: Id)
    requires JobIs(s.db, d, {Processing}) && s.db.jobs[d].lock.Some? && s.db.now <= s.db.jobs[d].lock.value.expires
    requires !Releases(s, a, d)
    ensures !Settles(s, a, d)
  {
  }

  // ------------------------------------------------------------------ what is delivered and what is kept

  /** An update of the draft commits. */
  predicate Rewrites(s: State, a: Action, d: Id) {
    a.Commits? && a.call in s.calls && Committable(s.calls[a.call]) && s.calls[a.call].request.Update?
    && s.calls[a.call].request.draft == d
    && RowMatches(s.db, s.calls[a.call].request.user, d, s.calls[a.call].phase.version)
  }

  predicate SaysTheSame(before: Db, after: Db, d: Id)
    requires d in before.messages
  {
    d in after.messages ==>
      after.messages[d].content == before.messages[d].content && Recipients(after, d) == Recipients(before, d)
  }

  lemma CommitSaysTheSame(db: Db, dir: Directory, r: Request, version: Version, mailbox: Id, plan: Plan, stamp: nat,
      d: Id)
    requires PlanFits(r, plan) && d in db.messages
    requires !(r.Update? && r.draft == d && RowMatches(db, r.user, d, version))
    ensures SaysTheSame(db, Commit(db, dir, r, version, mailbox, plan, stamp).0, d)
  {
    hide OutcomeOf, RecordOf, Attached, Consume, Deliver, UploadValid;
  }

  lemma EffectSaysTheSame(db: Db, e: Effect, d: Id)
    requires d in db.messages && (Draws(e) ==> DrawnBy(e) !in db.messages)
    ensures SaysTheSame(db, Happens(db, e), d)
  {
    if IsSmall(e) {
      hide Happens;
      SmallIsQuiet(db, e);
    } else {
      hide Attached, Consume, UploadValid, MarkEnqueued, ClaimJob, RecoverLocks, EmptyTrash;
    }
  }

  lemma StepSaysTheSame(dir: Directory, s: State, a: Action, d: Id)
    requires Inv(dir, s) && d in s.db.messages && !Rewrites(s, a, d)
    ensures SaysTheSame(s.db, Apply(dir, s, a).db, d)
  {
    hide Happens, Begin, ReadDraft, Load, Commit, Clean, BatchOf, SaysTheSame;
    assert SaysTheSame(s.db, s.db, d) by { ItSaysTheSame(s.db, d); }
    match a
    case Commits(c) =>
      if c in s.calls && Committable(s.calls[c]) {
        var r, p := s.calls[c].request, s.calls[c].phase;
        CommitSaysTheSame(s.db, dir, r, p.version, p.mailbox, p.plan, p.stamp, d);
      }
    case Env(e) =>
      if Allowed(s, e) {
        EffectSaysTheSame(s.db, e, d);
      }
    case _ =>
  }

  lemma ItSaysTheSame(db: Db, d: Id)
    requires d in db.messages
    ensures SaysTheSame(db, db, d)
  {
  }

  /** A message that is gone does not come back. */
  lemma GoneStaysGone(dir: Directory, s: State, a: Action, d: Id)
    requires d < s.supply && d !in s.db.messages
    ensures d !in Apply(dir, s, a).db.messages && d < Apply(dir, s, a).supply
  {
    hide Happens, Begin, ReadDraft, Load, Commit, Clean, BatchOf;
    match a
    case Commits(c) =>
      if c in s.calls && Committable(s.calls[c]) {
        var r, p := s.calls[c].request, s.calls[c].phase;
        CommitAddsNoMessage(s.db, dir, r, p.version, p.mailbox, p.plan, p.stamp);
      }
    case Env(e) =>
      if Allowed(s, e) {
        EffectMakesOne(s.db, e, d);
      }
    case _ =>
  }

  lemma EffectMakesOne(db: Db, e: Effect, d: Id)
    requires d !in db.messages && (Draws(e) ==> DrawnBy(e) != d)
    ensures d !in Happens(db, e).messages
  {
    hide Attached, Consume, UploadValid;
  }

  /**
   Main result: what is kept of a message when its delivery ends differs from what the consumer read, in content or
   recipients, only if an update of the draft committed in between; the code lets it.
   */
  lemma {:induction false} DeliveredIsKept(dir: Directory, s: State, actions: seq<Action>, d: Id)
    requires Inv(dir, s) && d in s.db.messages
    requires forall n :: 0 <= n < |actions| ==> !Rewrites(Run(dir, s, actions[..n]), actions[n], d)
    ensures var end := Run(dir, s, actions); Inv(dir, end) && d < end.supply && SaysTheSame(s.db, end.db, d)
    decreases |actions|
  {
    if actions == [] {
      ItSaysTheSame(s.db, d);
    } else {
      var most, last := actions[..|actions| - 1], actions[|actions| - 1];
      hide Apply, Rewrites, Inv;
      forall n | 0 <= n < |most| ensures !Rewrites(Run(dir, s, most[..n]), most[n], d) {
        assert most[..n] == actions[..n] && most[n] == actions[n];
      }
      DeliveredIsKept(dir, s, most, d);
      var before := Run(dir, s, most);
      StepKeepsInv(dir, before, last);
      if d in before.db.messages {
        StepSaysTheSame(dir, before, last, d);
        SupplyGrows(dir, before, last);
      } else {
        GoneStaysGone(dir, before, last, d);
      }
    }
  }

  lemma SupplyGrows(dir: Directory, s: State, a: Action)
    ensures s.supply <= Apply(dir, s, a).supply
  {
    hide Happens, Begin, ReadDraft, Load, Commit, Clean, BatchOf;
  }

  // ------------------------------------------------------------------ messages that nothing will deliver

  /** A message that has left draft, has no job, and of which no schedule is under way that has read it. */
  predicate Lost(s: State, d: Id) {
    d < s.supply && d !in s.db.jobs && (d in s.db.messages ==> s.db.messages[d].status != Draft)
    && forall c :: c in s.calls && s.calls[c].request.Schedule? && s.calls[c].request.draft == d ==>
         s.calls[c].phase.Started? || s.calls[c].phase.Done?
  }

  lemma CommitKeepsLost(db: Db, dir: Directory, r: Request, version: Version, mailbox: Id, plan: Plan, stamp: nat,
      d: Id)
    requires PlanFits(r, plan) && d !in db.jobs && (d in db.messages ==> db.messages[d].status != Draft)
    requires !(r.Schedule? && r.draft == d)
    ensures var after := Commit(db, dir, r, version, mailbox, plan, stamp).0;
            d !in after.jobs && (d in after.messages ==> after.messages[d].status != Draft)
  {
    hide OutcomeOf, RecordOf, Attached, Consume, Deliver, UploadValid;
  }

  lemma EffectKeepsLost(db: Db, e: Effect, d: Id)
    requires d !in db.jobs && (d in db.messages ==> db.messages[d].status != Draft) && (Draws(e) ==> DrawnBy(e) != d)
    ensures var after := Happens(db, e); d !in after.jobs && (d in after.messages ==> after.messages[d].status != Draft)
  {
    hide Attached, Consume, UploadValid;
  }

  lemma StepKeepsLost(dir: Directory, s: State, a: Action, d: Id)
    requires Lost(s, d)
    ensures Lost(Apply(dir, s, a), d)
  {
    hide Happens, Load, Commit, Clean, BatchOf, LoadPlan;
    match a
    case Commits(c) =>
      if c in s.calls && Committable(s.calls[c]) {
        var r, p := s.calls[c].request, s.calls[c].phase;
        CommitKeepsLost(s.db, dir, r, p.version, p.mailbox, p.plan, p.stamp, d);
      }
    case Env(e) =>
      if Allowed(s, e) {
        EffectKeepsLost(s.db, e, d);
      }
    case _ =>
  }

  /** Main result: such a message never gets a job, in any run. */
  lemma {:induction false} LostForEver(dir: Directory, s: State, actions: seq<Action>, d: Id)
    requires Lost(s, d)
    ensures Lost(Run(dir, s, actions), d)
    decreases |actions|
  {
    hide Apply, Lost;
    if actions != [] {
      LostForEver(dir, s, actions[..|actions| - 1], d);
      StepKeepsLost(dir, Run(dir, s, actions[..|actions| - 1]), actions[|actions| - 1], d);
    }
  }
}
