/**
 The dispatcher's two statements, outbound-mail/index.ts `dispatch`: it selects a pending job that is due, and later
 marks it enqueued without looking at the time again.  When an enqueued job is due, and so can be claimed.
 */
module DraftDispatch {
  import opened DraftTables
  import opened DraftCalls
  import opened DraftProtocol
  import opened DraftIsolation
  import opened Options

  /** What an effect may do to the job of a message. */
  predicate JobMoves(before: Db, after: Db, e: Effect, d: Id)
    requires d in after.jobs
  {
    var j := after.jobs[d];
    (j.status == Pending && j.availableAt == before.now && j.lock == None)
    || (e.GaveUp? && e.draft == d && j.status in {Pending, Abandoned} && j.lock == None)
    || (d in before.jobs && j.availableAt == before.jobs[d].availableAt
        && (j == before.jobs[d]
            || (e.Marked? && e.draft == d && j.status == Enqueued && before.jobs[d].status == Pending
               && j.lock == before.jobs[d].lock)
            || (j.status == Processing && before.jobs[d].status in {Pending, Enqueued})
            || (j.status == Succeeded && j.lock == None)
            || (j.status == Pending && before.jobs[d].status == Processing && j.lock == None)))
  }

  /** What the dispatcher's own statements do to a job. */
  lemma DispatchMovesJob(db: Db, e: Effect, d: Id)
    requires e.Marked? || e.Claimed? || e.Completed? || e.GaveUp? || e.LocksRecovered?
    ensures db.now <= Happens(db, e).now
    ensures d in Happens(db, e).jobs ==> JobMoves(db, Happens(db, e), e, d)
  {
    hide CreateDraft, NewMessage, RemoveDraft, PurgeMessage, WriteStatus, EmptyTrash;
  }

  lemma EffectMovesJob(db: Db, e: Effect, d: Id)
    ensures db.now <= Happens(db, e).now
    ensures d in Happens(db, e).jobs ==> JobMoves(db, Happens(db, e), e, d)
  {
    if e.Marked? || e.Claimed? || e.Completed? || e.GaveUp? || e.LocksRecovered? {
      hide Happens, JobMoves;
      DispatchMovesJob(db, e, d);
    } else {
      hide Attached, Consume, UploadValid, MarkEnqueued, ClaimJob, CompleteJob, FailJob, RecoverLocks;
    }
  }

  predicate EnqueuedIsDue(db: Db) {
    forall d :: d in db.jobs && db.jobs[d].status == Enqueued ==> db.jobs[d].availableAt <= db.now
  }

  /** The UPDATE finds the job it selected still pending, but no longer due. */
  predicate MarksLate(s: State, a: Action) {
    a.Env? && a.effect.Marked? && Allowed(s, a.effect)
    && JobIs(s.db, a.effect.draft, {Pending})
    && var j := s.db.jobs[a.effect.draft]; j.id == a.effect.job && s.db.now < j.availableAt
  }

  lemma EffectKeepsDue(db: Db, e: Effect)
    requires EnqueuedIsDue(db) && !e.Marked?
    ensures EnqueuedIsDue(Happens(db, e))
  {
    hide Happens;
    forall d | d in Happens(db, e).jobs ensures JobMoves(db, Happens(db, e), e, d) && db.now <= Happens(db, e).now {
      EffectMovesJob(db, e, d);
    }
  }

  lemma MarkKeepsDue(s: State, e: Effect)
    requires EnqueuedIsDue(s.db) && e.Marked? && Allowed(s, e)
    ensures EnqueuedIsDue(Happens(s.db, e)) <==> !MarksLate(s, Env(e))
  {
    var after := Happens(s.db, e);
    if MarksLate(s, Env(e)) {
      assert e.draft in after.jobs && after.jobs[e.draft].status == Enqueued;
    }
  }

  lemma CommitKeepsDue(db: Db, dir: Directory, r: Request, version: Version, mailbox: Id, plan: Plan, stamp: nat)
    requires PlanFits(r, plan) && EnqueuedIsDue(db)
    ensures EnqueuedIsDue(Commit(db, dir, r, version, mailbox, plan, stamp).0)
  {
    hide OutcomeOf, RecordOf, Attached, Consume, Deliver, UploadValid;
  }

  /** Every step keeps enqueued jobs due, if and only if it does not mark a job that is no longer due. */
  lemma StepKeepsDue(dir: Directory, s: State, a: Action)
    requires EnqueuedIsDue(s.db)
    ensures EnqueuedIsDue(Apply(dir, s, a).db) <==> !MarksLate(s, a)
  {
    hide Happens, Begin, ReadDraft, Load, Commit, Clean, BatchOf, EnqueuedIsDue;
    match a
    case Commits(c) =>
      if c in s.calls && Committable(s.calls[c]) {
        var r, p := s.calls[c].request, s.calls[c].phase;
        CommitKeepsDue(s.db, dir, r, p.version, p.mailbox, p.plan, p.stamp);
      }
    case Env(e) =>
      if Allowed(s, e) {
        if e.Marked? {
          MarkKeepsDue(s, e);
        } else {
          EffectKeepsDue(s.db, e);
        }
      }
    case _ =>
  }

  predicate NeverLate(dir: Directory, s: State, actions: seq<Action>) {
    forall n :: 0 <= n < |actions| ==> !MarksLate(Run(dir, s, actions[..n]), actions[n])
  }

  lemma {:induction false} NeverLateIsDue(dir: Directory, s: State, actions: seq<Action>)
    requires EnqueuedIsDue(s.db) && NeverLate(dir, s, actions)
    ensures EnqueuedIsDue(Run(dir, s, actions).db)
    decreases |actions|
  {
    hide EnqueuedIsDue, Apply, MarksLate;
    if actions != [] {
      var most := actions[..|actions| - 1];
      forall n | 0 <= n < |most| ensures !MarksLate(Run(dir, s, most[..n]), most[n]) {
        assert most[..n] == actions[..n] && most[n] == actions[n];
      }
      NeverLateIsDue(dir, s, most);
      StepKeepsDue(dir, Run(dir, s, most), actions[|actions| - 1]);
    }
  }

  /**
   Main result: enqueued jobs are due in every state of a run if and only if every UPDATE of the dispatcher in it
   finds the job it marks still due.
   */
  lemma {:induction false} DueIffNeverLate(dir: Directory, s: State, actions: seq<Action>)
    requires EnqueuedIsDue(s.db)
    ensures (forall n :: 0 <= n <= |actions| ==> EnqueuedIsDue(Run(dir, s, actions[..n]).db))
            <==> NeverLate(dir, s, actions)
  {
    hide EnqueuedIsDue, Apply, MarksLate;
    if NeverLate(dir, s, actions) {
      forall n | 0 <= n <= |actions| ensures EnqueuedIsDue(Run(dir, s, actions[..n]).db) {
        var first := actions[..n];
        forall k | 0 <= k < |first| ensures !MarksLate(Run(dir, s, first[..k]), first[k]) {
          assert first[..k] == actions[..k] && first[k] == actions[k];
        }
        NeverLateIsDue(dir, s, first);
      }
    } else {
      var n :| 0 <= n < |actions| && MarksLate(Run(dir, s, actions[..n]), actions[n]);
      assert actions[..n + 1][..n] == actions[..n];
      if EnqueuedIsDue(Run(dir, s, actions[..n]).db) {
        StepKeepsDue(dir, Run(dir, s, actions[..n]), actions[n]);
      }
    }
  }

  // ------------------------------------------------------------------ what can make a mark late

  /** The job of this message, if it is still to be delivered, is due. */
  predicate JobDue(db: Db, d: Id) {
    Live(db, d) ==> db.jobs[d].availableAt <= db.now
  }

  /** A schedule of this draft commits, or the dispatcher gives its job up for now. */
  predicate Retimes(s: State, a: Action, d: Id) {
    (a.Commits? && a.call in s.calls && s.calls[a.call].request.Schedule? && s.calls[a.call].request.draft == d)
    || (a.Env? && a.effect.GaveUp? && a.effect.draft == d)
  }

  lemma EffectStaysDue(db: Db, e: Effect, d: Id)
    requires JobDue(db, d) && !(e.GaveUp? && e.draft == d)
    ensures JobDue(Happens(db, e), d)
  {
    hide Happens;
    EffectMovesJob(db, e, d);
  }

  lemma CommitStaysDue(db: Db, dir: Directory, r: Request, version: Version, mailbox: Id, plan: Plan, stamp: nat, d: Id)
    requires PlanFits(r, plan) && JobDue(db, d) && !(r.Schedule? && r.draft == d)
    ensures JobDue(Commit(db, dir, r, version, mailbox, plan, stamp).0, d)
  {
    hide OutcomeOf, RecordOf, Attached, Consume, Deliver, UploadValid;
  }

  lemma StepStaysDue(dir: Directory, s: State, a: Action, d: Id)
    requires JobDue(s.db, d) && !Retimes(s, a, d)
    ensures JobDue(Apply(dir, s, a).db, d)
  {
    hide Happens, Begin, ReadDraft, Load, Commit, Clean, BatchOf, JobDue;
    match a
    case Commits(c) =>
      if c in s.calls && Committable(s.calls[c]) {
        var r, p := s.calls[c].request, s.calls[c].phase;
        CommitStaysDue(s.db, dir, r, p.version, p.mailbox, p.plan, p.stamp, d);
      }
    case Env(e) => EffectStaysDue(s.db, e, d);
    case _ =>
  }

  /** Between its SELECT and its UPDATE, only a schedule of the draft or a failed delivery can make a mark late. */
  lemma {:induction false} LateWasRetimed(dir: Directory, s: State, actions: seq<Action>, a: Action, d: Id)
    requires Selectable(s.db, d) && MarksLate(Run(dir, s, actions), a) && a.effect.draft == d
    ensures exists n :: 0 <= n < |actions| && Retimes(Run(dir, s, actions[..n]), actions[n], d)
  {
    if forall n :: 0 <= n < |actions| ==> !Retimes(Run(dir, s, actions[..n]), actions[n], d) {
      StaysDue(dir, s, actions, d);
    }
  }

  lemma {:induction false} StaysDue(dir: Directory, s: State, actions: seq<Action>, d: Id)
    requires JobDue(s.db, d) && forall n :: 0 <= n < |actions| ==> !Retimes(Run(dir, s, actions[..n]), actions[n], d)
    ensures JobDue(Run(dir, s, actions).db, d)
    decreases |actions|
  {
    hide JobDue, Apply, Retimes;
    if actions != [] {
      var most := actions[..|actions| - 1];
      forall n | 0 <= n < |most| ensures !Retimes(Run(dir, s, most[..n]), most[n], d) {
        assert most[..n] == actions[..n] && most[n] == actions[n];
      }
      StaysDue(dir, s, most, d);
      StepStaysDue(dir, Run(dir, s, most), actions[|actions| - 1], d);
    }
  }

  // ------------------------------------------------------------------ what the consumer can claim

  lemma CommitKeepsLocks(db: Db, dir: Directory, r: Request, version: Version, mailbox: Id, plan: Plan, stamp: nat)
    requires PlanFits(r, plan) && LocksOk(db)
    ensures LocksOk(Commit(db, dir, r, version, mailbox, plan, stamp).0)
  {
    hide OutcomeOf, RecordOf, Attached, Consume, Deliver, UploadValid;
  }

  lemma EffectKeepsLocks(db: Db, e: Effect)
    requires LocksOk(db)
    ensures LocksOk(Happens(db, e))
  {
    hide Happens;
    forall d | d in Happens(db, e).jobs ensures JobMoves(db, Happens(db, e), e, d) {
      EffectMovesJob(db, e, d);
    }
  }

  lemma StepKeepsLocks(dir: Directory, s: State, a: Action)
    requires LocksOk(s.db)
    ensures LocksOk(Apply(dir, s, a).db)
  {
    hide Happens, Begin, ReadDraft, Load, Commit, Clean, BatchOf, LocksOk;
    match a
    case Commits(c) =>
      if c in s.calls && Committable(s.calls[c]) {
        var r, p := s.calls[c].request, s.calls[c].phase;
        CommitKeepsLocks(s.db, dir, r, p.version, p.mailbox, p.plan, p.stamp);
      }
    case Env(e) => EffectKeepsLocks(s.db, e);
    case _ =>
  }

  lemma {:induction false} RunKeepsLocks(dir: Directory, s: State, actions: seq<Action>)
    requires LocksOk(s.db)
    ensures LocksOk(Run(dir, s, actions).db)
    decreases |actions|
  {
    hide Apply, LocksOk;
    if actions != [] {
      RunKeepsLocks(dir, s, actions[..|actions| - 1]);
      StepKeepsLocks(dir, Run(dir, s, actions[..|actions| - 1]), actions[|actions| - 1]);
    }
  }

  /** So an enqueued job can be claimed when the queue delivers it, if and only if it is still due then. */
  lemma EnqueuedIsClaimable(dir: Directory, s: State, actions: seq<Action>, d: Id)
    requires LocksOk(s.db) && JobIs(Run(dir, s, actions).db, d, {Enqueued})
    ensures var db := Run(dir, s, actions).db;
            Claimable(db, d, db.jobs[d].id) <==> db.jobs[d].availableAt <= db.now
  {
    RunKeepsLocks(dir, s, actions);
  }
}
