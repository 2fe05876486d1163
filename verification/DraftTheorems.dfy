/**
 What callers of the draft API may rely on in every interleaving: a draft is sent at most once and is
 final afterwards, an answer is replayed for as long as its record lives, and schedule and cancel
 never touch a job the dispatcher has taken.
 */
module DraftTheorems {
  import opened DraftTables
  import opened DraftCalls
  import opened DraftProtocol
  import opened DraftFrames
  import opened DraftInvariant
  import opened DraftSerial
  import opened Options

  // ------------------------------------------------------------------ what one commit logs

  /** Every accepted call is in the log: as itself when the commit is clean, as a slip otherwise. */
  lemma AcceptedIsLogged(dir: Directory, s: State, c: nat)
    requires Inv(dir, s) && c in s.calls && Committable(s.calls[c])
    ensures var (r, p) := (s.calls[c].request, s.calls[c].phase);
            var after := Apply(dir, s, Commits(c));
            var phase := after.calls[c].phase;
            phase.Done?
            && (Accepted(phase.outcome) ==>
                  |after.log| == |s.log| + 1
                  && after.log[|s.log|] == if Clean(s.db, r, p.version, p.mailbox, p.plan)
                                           then Ran(r, p.stamp, p.plan, phase.outcome)
                                           else Slipped(
                                             r, p.version, p.mailbox, p.plan, p.stamp, !p.plan.CancelNothingPlan?))
            && (!Accepted(phase.outcome) && (r.Update? || r.Send?) ==> after.db == s.db && after.log == s.log)
  {
    var r, p := s.calls[c].request, s.calls[c].phase;
    assert CallOk(dir, s.db, s.supply, s.calls[c]);
    CommitVersions(s.db, dir, r, p.version, p.mailbox, p.plan, p.stamp);
    AcceptedChanges(s.db, dir, r, p.version, p.mailbox, p.plan, p.stamp);
    if r.Update? || r.Send? {
      RefusedChangesNothing(s.db, dir, r, p.version, p.mailbox, p.plan, p.stamp);
    }
    hide Commit, BatchOf, Clean, CallOk, Unused;
  }

  lemma AcceptedChanges(db: Db, dir: Directory, r: Request, version: Version, mailbox: Id, plan: Plan, stamp: nat)
    requires PlanFits(r, plan) && Unused(db, stamp)
    ensures var (after, outcome) := Commit(db, dir, r, version, mailbox, plan, stamp); Accepted(outcome) ==> after != db
  {
    CommitVersions(db, dir, r, version, mailbox, plan, stamp);
    if plan.CancelNothingPlan? {
      assert Accepted(Commit(db, dir, r, version, mailbox, plan, stamp).1) ==>
          KeyOf(r) in Commit(db, dir, r, version, mailbox, plan, stamp).0.records && KeyOf(r) !in db.records;
    }
  }

  // ------------------------------------------------------------------ sent at most once

  /** Messages are only ever made under new ids, and one that has left `draft` does not come back to it. */
  ghost predicate OnwardOnly(before: State, after: State) {
    Departs(before.db, after.db) && RecordsAge(before.db, after.db) && before.supply <= after.supply
    && forall d :: d in after.db.messages && d < before.supply ==> d in before.db.messages
  }

  lemma StepOnward(dir: Directory, s: State, a: Action)
    requires Inv(dir, s)
    ensures OnwardOnly(s, Apply(dir, s, a))
  {
    hide Departed, Begin, ReadDraft, Load, Happens, Commit, Clean, BatchOf, Bumps;
    match a
    case Commits(c) =>
      if c in s.calls && Committable(s.calls[c]) {
        var r, p := s.calls[c].request, s.calls[c].phase;
        assert CallOk(dir, s.db, s.supply, s.calls[c]);
        CommitFrame(s.db, dir, r, p.version, p.mailbox, p.plan, p.stamp, s.supply);
        CommitAddsNoMessage(s.db, dir, r, p.version, p.mailbox, p.plan, p.stamp);
        FrameParts(s.db, Apply(dir, s, a).db, s.supply, p.stamp);
      } else {
        QuietFrame(s.db, s.db, s.supply, s.supply);
        FrameParts(s.db, s.db, s.supply, s.supply);
      }
    case Env(e) =>
      if Allowed(s, e) {
        EnvFrame(s.db, e, s.supply);
        FrameParts(s.db, Apply(dir, s, a).db, s.supply, s.supply);
      } else {
        QuietFrame(s.db, s.db, s.supply, s.supply);
        FrameParts(s.db, s.db, s.supply, s.supply);
      }
    case _ =>
      QuietFrame(s.db, s.db, s.supply, s.supply);
      FrameParts(s.db, s.db, s.supply, s.supply);
  }

  /** In every later state of every run, a message that is no longer a draft is none, says the same, or is gone. */
  lemma {:induction false} NeverADraftAgain(dir: Directory, s: State, actions: seq<Action>, d: Id)
    requires Inv(dir, s) && d in s.db.messages && s.db.messages[d].status != Draft
    ensures var end := Run(dir, s, actions);
            Inv(dir, end) && s.supply <= end.supply
            && (d in end.db.messages ==> Departed(s.db.messages[d], end.db.messages[d]))
    decreases |actions|
  {
    if actions != [] {
      var most := actions[..|actions| - 1];
      NeverADraftAgain(dir, s, most, d);
      StepKeepsInv(dir, Run(dir, s, most), actions[|actions| - 1]);
      StepOnward(dir, Run(dir, s, most), actions[|actions| - 1]);
    }
  }

  /** A provider's report on the message, or its purge. */
  predicate Retouches(a: Action, d: Id) {
    a.Env? && (a.effect.Reports? || a.effect.Purged?) && a.effect.message == d
  }

  lemma EffectFreezes(db: Db, e: Effect, d: Id)
    requires d in db.messages && db.messages[d].status != Draft && !Retouches(Env(e), d)
             && (Draws(e) ==> DrawnBy(e) != d)
    ensures d in Happens(db, e).messages && Happens(db, e).messages[d] == db.messages[d]
  {
  }

  lemma StepFreezes(dir: Directory, s: State, a: Action, d: Id)
    requires Inv(dir, s) && d in s.db.messages && s.db.messages[d].status != Draft && !Retouches(a, d)
    ensures var after := Apply(dir, s, a).db; d in after.messages && after.messages[d] == s.db.messages[d]
  {
    hide Begin, ReadDraft, Load, Happens, Commit, Clean, BatchOf, Bumps;
    match a
    case Commits(c) =>
      if c in s.calls && Committable(s.calls[c]) {
        var r, p := s.calls[c].request, s.calls[c].phase;
        CommitAddsNoMessage(s.db, dir, r, p.version, p.mailbox, p.plan, p.stamp);
        CommitVersions(s.db, dir, r, p.version, p.mailbox, p.plan, p.stamp);
      }
    case Env(e) =>
      if Allowed(s, e) {
        EffectFreezes(s.db, e, d);
      }
    case _ =>
  }

  /**
   Main result: in every run, a message that is no longer a draft keeps its row as it is, until a provider reports on
   it or it is purged; no call, and no step of the dispatcher, changes or deletes it.
   */
  lemma {:induction false} SentIsFinal(dir: Directory, s: State, actions: seq<Action>, d: Id)
    requires Inv(dir, s) && d in s.db.messages && s.db.messages[d].status != Draft
    requires forall a :: a in actions ==> !Retouches(a, d)
    ensures var end := Run(dir, s, actions);
            Inv(dir, end) && d in end.db.messages && end.db.messages[d] == s.db.messages[d]
    decreases |actions|
  {
    if actions != [] {
      var most, last := actions[..|actions| - 1], actions[|actions| - 1];
      SentIsFinal(dir, s, most, d);
      assert last in actions;
      StepKeepsInv(dir, Run(dir, s, most), last);
      StepFreezes(dir, Run(dir, s, most), last, d);
    }
  }

  predicate SentBy(e: Event, d: Id) {
    match e
    case Ran(r, _, _, _) => r.Send? && r.draft == d
    case Slipped(r, _, _, _, _, bumped) => r.Send? && r.draft == d && bumped
    case Outside(_) => false
  }

  /** From event `i` on, nothing in the log writes the row of `d` again. */
  predicate WrittenNoMore(s: State, i: nat, d: Id) {
    d < s.supply && (d in s.db.messages ==> s.db.messages[d].status != Draft)
    && forall j :: i < j < |s.log| ==> Wrote(s.log[j], d).None? && !SentBy(s.log[j], d)
  }

  /** Once a draft has been sent, nothing in the log writes its row again. */
  ghost predicate SentOnce(s: State) {
    forall i, d: Id :: 0 <= i < |s.log| && SentBy(s.log[i], d) ==> WrittenNoMore(s, i, d)
  }

  lemma SentLeavesDraft(db: Db, dir: Directory, r: Request, version: Version, mailbox: Id, plan: Plan, stamp: nat)
    requires r.Send? && PlanFits(r, plan) && Bumps(plan, BatchOf(db, dir, r, version, mailbox, plan, stamp))
    ensures var after := Commit(db, dir, r, version, mailbox, plan, stamp).0;
            r.draft in after.messages && after.messages[r.draft].status != Draft
  {
  }

  lemma OneMoreEvent(before: State, after: State, e: Event)
    requires SentOnce(before) && OnwardOnly(before, after) && after.log == before.log + [e]
    requires forall d: Id ::
               (Wrote(e, d).Some? || SentBy(e, d) ==> d in before.db.messages && before.db.messages[d].status == Draft)
               && (SentBy(e, d) ==>
                  d < after.supply && (d in after.db.messages ==> after.db.messages[d].status != Draft))
    ensures SentOnce(after)
  {
    forall i, d: Id | 0 <= i < |after.log| && SentBy(after.log[i], d) ensures WrittenNoMore(after, i, d) {
      hide SentBy, Wrote;
      if i < |before.log| {
        assert after.log[i] == before.log[i];
        assert WrittenNoMore(before, i, d);
        forall j | i < j < |after.log| ensures Wrote(after.log[j], d).None? && !SentBy(after.log[j], d) {
          assert j < |before.log| ==> after.log[j] == before.log[j];
        }
      }
    }
  }

  lemma LogGrows(dir: Directory, s: State, a: Action)
    ensures var after := Apply(dir, s, a);
            (after.log == s.log && after.db == s.db)
                || (|after.log| == |s.log| + 1 && after.log == s.log + [after.log[|s.log|]])
  {
    hide Commit, Clean, Happens;
  }

  lemma StepSendsOnce(dir: Directory, s: State, a: Action)
    requires Inv(dir, s) && SentOnce(s)
    ensures SentOnce(Apply(dir, s, a))
  {
    var after := Apply(dir, s, a);
    StepOnward(dir, s, a);
    LogGrows(dir, s, a);
    hide Apply, Inv, SentOnce, OnwardOnly, Wrote, SentBy;
    if after.log == s.log {
      SameLog(s, after);
    } else {
      StepWritesDrafts(dir, s, a);
      OneMoreEvent(s, after, after.log[|s.log|]);
    }
  }

  lemma SameLog(before: State, after: State)
    requires SentOnce(before) && before.log == after.log && OnwardOnly(before, after)
    ensures SentOnce(after)
  {
    forall i, d: Id | 0 <= i < |after.log| && SentBy(after.log[i], d) ensures WrittenNoMore(after, i, d) {
      assert WrittenNoMore(before, i, d);
    }
  }

  /** Whatever writes a row, or sends it, found a draft there; and a send leaves none. */
  lemma StepWritesDrafts(dir: Directory, s: State, a: Action)
    requires Inv(dir, s) && |Apply(dir, s, a).log| == |s.log| + 1
    ensures var e := Apply(dir, s, a).log[|s.log|];
            forall d: Id ::
              (Wrote(e, d).Some? || SentBy(e, d) ==> d in s.db.messages && s.db.messages[d].status == Draft)
              && (SentBy(e, d) ==>
                 d < s.supply && (d in Apply(dir, s, a).db.messages ==>
                     Apply(dir, s, a).db.messages[d].status != Draft))
  {
    hide Happens, Begin, ReadDraft, Load;
    match a
    case Commits(c) =>
      assert c in s.calls && Committable(s.calls[c]);
      CommitStep(dir, s, c);
      hide Apply;
      var r, p := s.calls[c].request, s.calls[c].phase;
      CommitVersions(s.db, dir, r, p.version, p.mailbox, p.plan, p.stamp);
      if r.Send? && Bumps(p.plan, BatchOf(s.db, dir, r, p.version, p.mailbox, p.plan, p.stamp)) {
        SentLeavesDraft(s.db, dir, r, p.version, p.mailbox, p.plan, p.stamp);
      }
      hide Commit, BatchOf, Clean, Bumps;
    case Env(e) =>
    case _ =>
  }

  /** Main result: at most one send of a draft commits, and after it no call writes the message again. */
  lemma {:induction false} DraftIsSentAtMostOnce(dir: Directory, s: State, actions: seq<Action>)
    requires Initial(s)
    ensures SentOnce(Run(dir, s, actions))
    decreases |actions|
  {
    if actions != [] {
      var most := actions[..|actions| - 1];
      DraftIsSentAtMostOnce(dir, s, most);
      RunKeepsInv(dir, s, most);
      StepSendsOnce(dir, Run(dir, s, most), actions[|actions| - 1]);
    }
  }

  /** An accepted send to someone outside leaves one job, pending and due now; an internal one makes none. */
  lemma SendLeavesOneJob(db: Db, dir: Directory, r: Request, version: Version, mailbox: Id, plan: Plan, stamp: nat)
    requires r.Send? && PlanFits(r, plan) && Accepted(Commit(db, dir, r, version, mailbox, plan, stamp).1)
    ensures var after := Commit(db, dir, r, version, mailbox, plan, stamp).0;
            if plan.external then
              r.draft !in db.jobs && after.jobs.Keys == db.jobs.Keys + {r.draft}
              && JobIs(after, r.draft, {Pending}) && after.jobs[r.draft].availableAt == db.now
              && after.messages[r.draft].status == Queued
            else after.jobs == db.jobs && after.messages[r.draft].status == Sent
    ensures var after := Commit(db, dir, r, version, mailbox, plan, stamp).0;
            forall d :: d in db.jobs ==> d in after.jobs && after.jobs[d] == db.jobs[d]
    ensures var (after, outcome) := Commit(db, dir, r, version, mailbox, plan, stamp);
            r.draft in after.messages && outcome.response == SendResponse(r.draft, after.messages[r.draft].status)
            && (plan.external ==>
               after.jobs == db.jobs[r.draft := after.jobs[r.draft]] && after.jobs[r.draft].lock == None
                   && after.now == db.now)
  {
  }

  // ------------------------------------------------------------------ replay

  predicate Records(db: Db, key: RecordKey, record: Record) {
    key in db.records && db.records[key] == record && !record.expired
  }

  /** An accepted keyed call leaves the answer it returned under its key. */
  lemma AcceptedIsRecorded(db: Db, dir: Directory, r: Request, version: Version, mailbox: Id, plan: Plan, stamp: nat)
    requires !r.Update? && PlanFits(r, plan) && Accepted(Commit(db, dir, r, version, mailbox, plan, stamp).1)
    ensures var (after, outcome) := Commit(db, dir, r, version, mailbox, plan, stamp);
            outcome.Responded? && KeyOf(r) !in db.records
                && Records(after, KeyOf(r), Record(FingerprintOf(r), outcome.response, false))
  {
  }

  /** While the record lives it is the same record, whatever else runs. */
  lemma {:induction false} RecordLives(dir: Directory, s: State, actions: seq<Action>, key: RecordKey, record: Record)
    requires Inv(dir, s) && Records(s.db, key, record)
    requires Env(RecordExpired(key)) !in actions
    ensures Inv(dir, Run(dir, s, actions)) && Records(Run(dir, s, actions).db, key, record)
    decreases |actions|
  {
    if actions != [] {
      var most, last := actions[..|actions| - 1], actions[|actions| - 1];
      RecordLives(dir, s, most, key, record);
      var before := Run(dir, s, most);
      StepKeepsInv(dir, before, last);
      StepOnward(dir, before, last);
      assert last in actions;
      OnlyExpiryExpires(dir, before, last, key);
    }
  }

  lemma OnlyExpiryExpires(dir: Directory, s: State, a: Action, key: RecordKey)
    requires key in s.db.records && !s.db.records[key].expired && a != Env(RecordExpired(key))
    ensures var after := Apply(dir, s, a).db; key in after.records ==> !after.records[key].expired
  {
    hide Happens;
    match a
    case Commits(c) =>
      if c in s.calls && Committable(s.calls[c]) {
        var r, p := s.calls[c].request, s.calls[c].phase;
        CommitsNoExpired(s.db, dir, r, p.version, p.mailbox, p.plan, p.stamp, key);
        hide Commit;
      }
    case Env(e) => EffectExpiresOne(s.db, e, key);
    case _ =>
  }

  lemma EffectExpiresOne(db: Db, e: Effect, key: RecordKey)
    requires key in db.records && e != RecordExpired(key)
    ensures key in Happens(db, e).records ==> Happens(db, e).records[key] == db.records[key]
  {
  }

  lemma CommitsNoExpired(db: Db, dir: Directory, r: Request, version: Version, mailbox: Id, plan: Plan, stamp: nat,
      key: RecordKey)
    requires PlanFits(r, plan) && (key in db.records ==> !db.records[key].expired)
    ensures var after := Commit(db, dir, r, version, mailbox, plan, stamp).0; key in after.records ==>
            !after.records[key].expired
  {
  }

  /**
   Main result.  For as long as the record of an accepted call lives, a call under the same key is
   answered when it begins: with the recorded response if the request is the same, with KeyReused if
   it is not.  No table changes, and no call that got past its replay lookup earlier can be accepted.
   */
  lemma SameKeySameAnswer(
    dir: Directory, s: State, actions: seq<Action>, key: RecordKey, record: Record, c: nat, r: Request, other: nat)
    requires Inv(dir, s) && Records(s.db, key, record) && Env(RecordExpired(key)) !in actions
    requires !r.Update? && KeyOf(r) == key && c !in Run(dir, s, actions).calls
    ensures var before := Run(dir, s, actions);
            var after := Apply(dir, before, Begins(c, r));
            after.db == before.db
            && after.calls[c].phase
               == Done(if FingerprintOf(r) == record.hash then Replayed(record.response) else Refused(KeyReused))
    ensures var before := Run(dir, s, actions);
            other in before.calls && Committable(before.calls[other]) && !before.calls[other].request.Update?
            && KeyOf(before.calls[other].request) == key
            ==> !Accepted(Apply(dir, before, Commits(other)).calls[other].phase.outcome)
  {
    RecordLives(dir, s, actions, key, record);
    var before := Run(dir, s, actions);
    if other in before.calls && Committable(before.calls[other]) && !before.calls[other].request.Update? {
      var q, p := before.calls[other].request, before.calls[other].phase;
      if KeyOf(q) == key && Accepted(Commit(before.db, dir, q, p.version, p.mailbox, p.plan, p.stamp).1) {
        AcceptedWasNotRecorded(before.db, dir, q, p.version, p.mailbox, p.plan, p.stamp);
        assert false;
      }
    }
  }

  // ------------------------------------------------------------------ schedule and cancel against the dispatcher

  /** Accepted or not, no call deletes or re-times a job that is being processed or is finished. */
  lemma DispatchedJobsAreSafe(db: Db, dir: Directory, r: Request, version: Version, mailbox: Id, plan: Plan,
      stamp: nat, d: Id)
    requires PlanFits(r, plan) && JobIs(db, d, {Processing, JobStatus.Succeeded, Abandoned})
    ensures var after := Commit(db, dir, r, version, mailbox, plan, stamp).0;
            d in after.jobs && after.jobs[d] == db.jobs[d]
  {
  }

  predicate IsTaken(db: Db, d: Id) {
    JobIs(db, d, {Processing, JobStatus.Succeeded, Abandoned})
  }

  /** Steps that settle this job: its holder's own, the recovery of its expired lock, and the removal of its message. */
  predicate Settles(s: State, a: Action, d: Id) {
    a.Env?
    && match a.effect
       case Completed(draft, job, token, _) => draft == d && Holds(s.db, d, job, token)
       case GaveUp(draft, job, token, _, _) => draft == d && Holds(s.db, d, job, token)
       case LocksRecovered =>
         JobIs(s.db, d, {Processing}) && s.db.jobs[d].lock.Some? && s.db.jobs[d].lock.value.expires < s.db.now
       case Removed(_, draft) => draft == d
       case Purged(message) => message == d
       case _ => false
  }

  lemma EffectKeepsTakenJob(s: State, e: Effect, d: Id)
    requires IsTaken(s.db, d) && !Settles(s, Env(e), d)
    ensures var after := Happens(s.db, e); d in after.jobs && after.jobs[d] == s.db.jobs[d]
  {
    hide Attached, Consume, UploadValid;
  }

  lemma StepKeepsTakenJob(dir: Directory, s: State, a: Action, d: Id)
    requires IsTaken(s.db, d) && !Settles(s, a, d)
    ensures var after := Apply(dir, s, a).db; d in after.jobs && after.jobs[d] == s.db.jobs[d]
  {
    hide Happens, Commit, Begin, ReadDraft, Load, JobIs, Clean, BatchOf, Settles;
    TakenJobExists(s.db, d);
    match a
    case Commits(c) =>
      if c in s.calls && Committable(s.calls[c]) {
        var r, p := s.calls[c].request, s.calls[c].phase;
        DispatchedJobsAreSafe(s.db, dir, r, p.version, p.mailbox, p.plan, p.stamp, d);
      }
    case Env(e) => EffectKeepsTakenJob(s, e, d);
    case _ =>
  }

  lemma TakenJobExists(db: Db, d: Id)
    ensures IsTaken(db, d) ==> d in db.jobs
  {
  }

  /**
   Main result: in every run, a job that is being processed or is finished keeps its row, its due time and its lock
   until its holder settles it, its lock is recovered after it expired, or its message is removed.
   */
  lemma {:induction false} TakenJobStays(dir: Directory, s: State, actions: seq<Action>, d: Id)
    requires IsTaken(s.db, d)
    requires forall n :: 0 <= n < |actions| ==> !Settles(Run(dir, s, actions[..n]), actions[n], d)
    ensures var end := Run(dir, s, actions).db; d in end.jobs && end.jobs[d] == s.db.jobs[d]
    decreases |actions|
  {
    TakenJobExists(s.db, d);
    if actions != [] {
      var most := actions[..|actions| - 1];
      hide Apply, Settles;
      forall n | 0 <= n < |most| ensures !Settles(Run(dir, s, most[..n]), most[n], d) {
        assert most[..n] == actions[..n] && most[n] == actions[n];
      }
      TakenJobStays(dir, s, most, d);
      StepKeepsTakenJob(dir, Run(dir, s, most), actions[|actions| - 1], d);
    }
  }

  /** An accepted schedule found no job or a pending one, and leaves one pending at the instant asked for. */
  lemma ScheduleTookEffect(db: Db, dir: Directory, r: Request, version: Version, mailbox: Id, plan: Plan, stamp: nat)
    requires r.Schedule? && PlanFits(r, plan) && Accepted(Commit(db, dir, r, version, mailbox, plan, stamp).1)
    ensures r.draft !in db.jobs || db.jobs[r.draft].status == Pending
    ensures var after := Commit(db, dir, r, version, mailbox, plan, stamp).0;
            JobIs(after, r.draft, {Pending}) && after.jobs[r.draft].availableAt == r.instant
                && after.jobs[r.draft].scheduled
            && RowMatches(after, r.user, r.draft, Stamp(stamp))
            && Commit(db, dir, r, version, mailbox, plan, stamp).1
               == Responded(ScheduleResponse(r.draft, r.instant, Stamp(stamp)))
            && forall d :: d != r.draft ==>
               (d in after.jobs <==> d in db.jobs) && (d in db.jobs ==> after.jobs[d] == db.jobs[d])
  {
  }

  /** A cancel that says it cancelled found a pending or enqueued job and leaves none. */
  lemma CancelTookEffect(db: Db, dir: Directory, r: Request, version: Version, mailbox: Id, plan: Plan, stamp: nat)
    requires r.Cancel? && PlanFits(r, plan)
    ensures var (after, outcome) := Commit(db, dir, r, version, mailbox, plan, stamp);
            Accepted(outcome) ==>
              if plan.CancelPlan? then
                JobIs(db, r.draft, {Pending, Enqueued}) && after.jobs == db.jobs - {r.draft}
                && RowMatches(after, r.user, r.draft, Stamp(stamp))
                && outcome.response == CancelResponse(r.draft, true, Stamp(stamp))
              else after.jobs == db.jobs && after.messages == db.messages && outcome.response.CancelResponse?
                   && outcome.response.draft == r.draft && !outcome.response.cancelled
  {
  }

  // ------------------------------------------------------------------ where all or nothing ends

  /** Before the batch: would it write the row, and would it write the job? */
  predicate ScheduleWrites(db: Db, user: Id, draft: Id, version: Version) {
    RowMatches(db, user, draft, version) <==> (draft !in db.jobs || db.jobs[draft].status == Pending)
  }

  /**
   A schedule batch that is not rolled back is all or nothing exactly when its row guard and its job
   guard agree; or the row is stale, and the pending job already is as the stale call wants it.
   */
  lemma ScheduleAllOrNothing(
    db: Db, user: Id, draft: Id, version: Version, connection: Option<Id>, instant: int, key: RecordKey,
        record: Record, stamp: nat)
    requires Unused(db, stamp)
             && ScheduleBatch(db, user, draft, version, connection, instant, key, record, stamp).Applied?
    ensures var after := ScheduleBatch(db, user, draft, version, connection, instant, key, record, stamp).db;
            var all := RowMatches(after, user, draft, Stamp(stamp))
                       && key in after.records && after.records[key] == record
                       && JobIs(after, draft, {Pending}) && after.jobs[draft].availableAt == instant
                          && after.jobs[draft].scheduled;
            all || after == db <==>
            ScheduleWrites(db, user, draft, version)
            || (!RowMatches(db, user, draft, version) && draft in db.jobs && db.jobs[draft].availableAt == instant
               && db.jobs[draft].scheduled)
  {
  }

  /**
   The same for cancel: the DELETE and the row guard must agree, or there is nothing to delete and a job that blocks.
   */
  lemma CancelAllOrNothing(db: Db, user: Id, draft: Id, version: Version, key: RecordKey, record: Record, stamp: nat)
    requires Unused(db, stamp) && CancelBatch(db, user, draft, version, key, record, stamp).Applied?
    ensures var after := CancelBatch(db, user, draft, version, key, record, stamp).db;
            var all := RowMatches(after, user, draft, Stamp(stamp))
                       && key in after.records && after.records[key] == record
                       && draft in db.jobs && draft !in after.jobs;
            all || after == db <==>
            (JobIs(db, draft, {Pending, Enqueued}) <==>
             (RowMatches(db, user, draft, version) && (draft !in db.jobs || JobIs(db, draft, {Pending, Enqueued}))))
  {
    var b := CancelBatch(db, user, draft, version, key, record, stamp);
    if JobIs(db, draft, {Pending, Enqueued}) {
      assert draft !in b.db.jobs;
    }
  }
}
