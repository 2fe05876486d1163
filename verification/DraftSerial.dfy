/**
 Serializability of draft calls: what interleaved calls leave behind is what the committed ones
 leave behind when each runs alone, in commit order.
 */
module DraftSerial {
  import opened DraftTables
  import opened DraftCalls
  import opened DraftProtocol
  import opened DraftFrames
  import opened DraftInvariant
  import opened Options

  // ------------------------------------------------------------------ one commit

  /** An accepted batch found no live record under its key, so the same call would not be replayed now. */
  lemma AcceptedWasNotRecorded(db: Db, dir: Directory, r: Request, version: Version, mailbox: Id, plan: Plan,
      stamp: nat)
    requires PlanFits(r, plan) && Accepted(Commit(db, dir, r, version, mailbox, plan, stamp).1)
    ensures Begin(db, r).Started?
  {
  }

  lemma AcceptedMatchedRow(db: Db, dir: Directory, r: Request, version: Version, mailbox: Id, plan: Plan, stamp: nat)
    requires PlanFits(r, plan) && !plan.CancelNothingPlan?
    requires Accepted(Commit(db, dir, r, version, mailbox, plan, stamp).1)
    ensures RowMatches(db, r.user, r.draft, version)
    ensures plan.SchedulePlan? ==> r.draft !in db.jobs || db.jobs[r.draft].status == Pending
    ensures plan.CancelPlan? ==> JobIs(db, r.draft, {Pending, Enqueued})
  {
  }

  lemma ReadAgain(dir: Directory, db: Db, r: Request, version: Version, mailbox: Id)
    requires RowMatches(db, r.user, r.draft, version) && Entered(dir, r, version, mailbox)
    requires db.messages[r.draft].mailbox == mailbox
    ensures ReadDraft(db, dir, r) == if Link(mailbox, r.draft, Drafts) in db.links then HaveDraft(version, mailbox)
                                     else Done(Refused(NotFound))
  {
  }

  lemma TakenIsValid(db: Db, dir: Directory, r: Request, version: Version, mailbox: Id, plan: Plan, stamp: nat)
    requires r.Update? && PlanFits(r, plan) && Accepted(Commit(db, dir, r, version, mailbox, plan, stamp).1)
    ensures forall u :: u in plan.taken ==> UploadValid(db, r.user, u, plan.taken[u])
  {
    hide UploadValid, Attached, Consume;
  }

  lemma LoadUpdateAgain(db: Db, dir: Directory, r: Request, version: Version, mailbox: Id, plan: Plan, stamp: nat)
    requires r.Update? && PlanFits(r, plan) && PlanSettled(r, plan) && PlanCurrent(db, dir, r, mailbox, plan)
    requires Accepted(Commit(db, dir, r, version, mailbox, plan, stamp).1)
    ensures LoadPlan(db, dir, r, mailbox) == Proceed(plan)
  {
    TakenIsValid(db, dir, r, version, mailbox, plan, stamp);
    hide Commit, BatchOf, UpdateBatch, OutcomeOf;
    assert Taken(db, r.input.refs) == plan.taken;
    forall x | x in r.input.refs
      ensures (x.OfAttachment? && x.attachment in Kept(db, r.draft, r.input.refs))
              || (x.OfUpload? && x.upload in db.uploads && UploadValid(db, r.user, x.upload, db.uploads[x.upload].info))
    {
      if x.OfUpload? {
        assert x.upload in plan.taken;
      } else {
        assert OfAttachment(x.attachment) in r.input.refs;
      }
    }
  }

  lemma LoadSendAgain(db: Db, dir: Directory, r: Request, version: Version, mailbox: Id, plan: Plan, stamp: nat)
    requires r.Send? && PlanFits(r, plan) && PlanCurrent(db, dir, r, mailbox, plan)
    requires Accepted(Commit(db, dir, r, version, mailbox, plan, stamp).1)
    ensures LoadPlan(db, dir, r, mailbox) == Proceed(plan)
            <==> plan.external || !JobIs(db, r.draft, {Pending, Enqueued, Processing})
  {
  }

  lemma LoadScheduleAgain(db: Db, dir: Directory, r: Request, version: Version, mailbox: Id, plan: Plan, stamp: nat)
    requires r.Schedule? && PlanFits(r, plan) && PlanSettled(r, plan) && PlanCurrent(db, dir, r, mailbox, plan)
    requires Accepted(Commit(db, dir, r, version, mailbox, plan, stamp).1)
    ensures LoadPlan(db, dir, r, mailbox) == Proceed(plan)
  {
    AcceptedMatchedRow(db, dir, r, version, mailbox, plan, stamp);
  }

  lemma LoadCancelAgain(db: Db, dir: Directory, r: Request, version: Version, mailbox: Id, plan: Plan, stamp: nat)
    requires r.Cancel? && PlanFits(r, plan) && Accepted(Commit(db, dir, r, version, mailbox, plan, stamp).1)
    ensures LoadPlan(db, dir, r, mailbox) == Proceed(plan) <==> plan.CancelPlan? || r.draft !in db.jobs
  {
    if plan.CancelPlan? {
      AcceptedMatchedRow(db, dir, r, version, mailbox, plan, stamp);
    }
  }

  /** Reading everything again at the commit gives the same plan, exactly when the commit is clean. */
  lemma PlanAgain(db: Db, dir: Directory, r: Request, version: Version, mailbox: Id, plan: Plan, stamp: nat)
    requires PlanFits(r, plan) && PlanSettled(r, plan) && PlanCurrent(db, dir, r, mailbox, plan)
    requires Accepted(Commit(db, dir, r, version, mailbox, plan, stamp).1)
    requires RowMatches(db, r.user, r.draft, version) && Link(mailbox, r.draft, Drafts) in db.links
    ensures LoadPlan(db, dir, r, mailbox) == Proceed(plan) <==> Clean(db, r, version, mailbox, plan)
  {
    match r
    case Update(_, _, _, _) => LoadUpdateAgain(db, dir, r, version, mailbox, plan, stamp);
    case Send(_, _, _, _) => LoadSendAgain(db, dir, r, version, mailbox, plan, stamp);
    case Schedule(_, _, _, _, _, _) => LoadScheduleAgain(db, dir, r, version, mailbox, plan, stamp);
    case Cancel(_, _, _, _) => LoadCancelAgain(db, dir, r, version, mailbox, plan, stamp);
  }

  /**
   A call that reports success did what it would have done with nothing in between, if and only if
   the commit is clean: the sender's link is still in drafts, an internal send finds no live job,
   and a cancel that found nothing still finds nothing.
   */
  lemma CleanIsExact(dir: Directory, db: Db, supply: nat, call: Call)
    requires CallOk(dir, db, supply, call) && Committable(call)
    requires var (after, outcome, _) := Committed(dir, db, call); Accepted(outcome)
    ensures var (r, p) := (call.request, call.phase);
            var (after, outcome, _) := Committed(dir, db, call);
            RunAlone(db, dir, r, p.stamp) == (after, outcome) <==> Clean(db, r, p.version, p.mailbox, p.plan)
  {
    var r, p := call.request, call.phase;
    AcceptedWasNotRecorded(db, dir, r, p.version, p.mailbox, p.plan, p.stamp);
    if !p.plan.CancelNothingPlan? {
      AcceptedMatchedRow(db, dir, r, p.version, p.mailbox, p.plan, p.stamp);
    }
    if RowMatches(db, r.user, r.draft, p.version) {
      ReadAgain(dir, db, r, p.version, p.mailbox);
      if Link(p.mailbox, r.draft, Drafts) in db.links {
        PlanAgain(db, dir, r, p.version, p.mailbox, p.plan, p.stamp);
        OtherPlanDiffers(db, dir, r, p.version, p.mailbox, p.plan, p.stamp);
      }
    } else {
      StaleReadRefuses(dir, db, r, p.version, p.mailbox);
    }
  }

  lemma StaleReadRefuses(dir: Directory, db: Db, r: Request, version: Version, mailbox: Id)
    requires Entered(dir, r, version, mailbox) && !RowMatches(db, r.user, r.draft, version)
    ensures ReadDraft(db, dir, r).Done? && ReadDraft(db, dir, r).outcome.Refused?
  {
  }

  /** When the second read would have decided otherwise, it would have refused or answered otherwise. */
  lemma OtherPlanDiffers(db: Db, dir: Directory, r: Request, version: Version, mailbox: Id, plan: Plan, stamp: nat)
    requires PlanFits(r, plan) && PlanCurrent(db, dir, r, mailbox, plan)
    requires Accepted(Commit(db, dir, r, version, mailbox, plan, stamp).1)
    ensures match LoadPlan(db, dir, r, mailbox)
            case Refuse(error) => true
            case Proceed(other) =>
              PlanFits(r, other) && (!Clean(db, r, version, mailbox, plan)
                  && Link(mailbox, r.draft, Drafts) in db.links && RowMatches(db, r.user, r.draft, version)
                ==> Commit(db, dir, r, version, mailbox, other, stamp).1 != Commit(db, dir, r, version, mailbox, plan,
                    stamp).1)
  {
    if r.Send? {
      LoadSendAgain(db, dir, r, version, mailbox, plan, stamp);
    }
  }

  // ------------------------------------------------------------------ whole runs

  /** The stamp an event left on a draft's row. */
  function Wrote(e: Event, d: Id): Option<nat> {
    match e
    case Ran(r, stamp, plan, _) => if r.draft == d && !plan.CancelNothingPlan? then Some(stamp) else None
    case Slipped(r, _, _, _, stamp, bumped) => if r.draft == d && bumped then Some(stamp) else None
    case Outside(_) => None
  }

  function LastWrite(log: seq<Event>, d: Id): Option<nat>
    decreases |log|
  {
    if log == [] then None
    else if Wrote(log[|log| - 1], d).Some? then Wrote(log[|log| - 1], d)
    else LastWrite(log[..|log| - 1], d)
  }

  /** A draft that a call has written carries the stamp of the last one that did. */
  ghost predicate Chain(db: Db, log: seq<Event>, supply: nat) {
    forall d: Id {:trigger LastWrite(log, d)} :: LastWrite(log, d).Some? ==>
      d < supply
      && (d in db.messages && db.messages[d].status == Draft ==>
         db.messages[d].version == Stamp(LastWrite(log, d).value))
  }

  /** What is promised of an event `e` that follows the events `log`, in tables `db`. */
  ghost predicate EventOk(dir: Directory, db: Db, log: seq<Event>, e: Event) {
    (e.Ran? ==>
       var d := e.request.draft;
       Accepted(e.outcome) && RunAlone(db, dir, e.request, e.stamp).1 == e.outcome && Unused(db, e.stamp)
       && d in db.messages && db.messages[d].status == Draft
       && e.request.ifMatch.Some? && e.request.ifMatch.value.version == db.messages[d].version
       && (LastWrite(log, d).Some? ==> e.request.ifMatch.value.version == Stamp(LastWrite(log, d).value)))
    && (e.Slipped? && (e.request.Update? || e.request.Send?) ==>
          !Clean(db, e.request, e.version, e.mailbox, e.plan))
  }

  ghost predicate History(dir: Directory, db: Db, log: seq<Event>) {
    forall i :: 0 <= i < |log| ==> EventOk(dir, Replay(dir, db, log[..i]), log[..i], log[i])
  }

  ghost predicate Serial(dir: Directory, start: Db, s: State) {
    Replay(dir, start, s.log) == s.db && History(dir, start, s.log) && Chain(s.db, s.log, s.supply)
  }

  /** One more event, in the tables the log so far describes. */
  lemma Extend(dir: Directory, start: Db, s: State, after: State, e: Event)
    requires Serial(dir, start, s) && after.log == s.log + [e]
    requires after.db == Redo(dir, s.db, e) && EventOk(dir, s.db, s.log, e)
    requires Chain(after.db, after.log, after.supply)
    ensures Serial(dir, start, after)
  {
    hide Redo, EventOk, Chain;
    assert after.log[..|s.log|] == s.log;
    forall i | 0 <= i < |after.log|
      ensures EventOk(dir, Replay(dir, start, after.log[..i]), after.log[..i], after.log[i]) {
      assert i < |s.log| ==> after.log[..i] == s.log[..i];
    }
  }

  lemma ExtendChain(before: Db, after: Db, log: seq<Event>, e: Event, supply: nat, later: nat)
    requires Chain(before, log, supply) && supply <= later
    requires forall d: Id :: Wrote(e, d).Some? ==>
               d < later && (d in after.messages && after.messages[d].status == Draft ==>
                   after.messages[d].version == Stamp(Wrote(e, d).value))
    requires forall d: Id :: d in after.messages && after.messages[d].status == Draft && Wrote(e, d).None? ==>
               d == supply || (d in before.messages && before.messages[d].status == Draft
                   && after.messages[d].version == before.messages[d].version)
    ensures Chain(after, log + [e], later)
  {
    var all := log + [e];
    assert all[..|log|] == log;
    forall d: Id | LastWrite(all, d).Some?
      ensures d < later && (d in after.messages && after.messages[d].status == Draft ==>
              after.messages[d].version == Stamp(LastWrite(all, d).value))
    {
      if Wrote(e, d).None? {
        assert LastWrite(log, d) == LastWrite(all, d);
      }
    }
  }

  // ------------------------------------------------------------------ one step of a run

  lemma CommitAnswers(db: Db, dir: Directory, r: Request, version: Version, mailbox: Id, plan: Plan, stamp: nat)
    requires PlanFits(r, plan)
    ensures Accepted(Commit(db, dir, r, version, mailbox, plan, stamp).1) ==>
              (Bumps(plan, BatchOf(db, dir, r, version, mailbox, plan, stamp)) <==> !plan.CancelNothingPlan?)
  {
    hide UpdateBatch, SendBatch, ScheduleBatch, CancelBatch, RecordOf;
    if plan.CancelNothingPlan? {
      assert BatchOf(db, dir, r, version, mailbox, plan, stamp)
             == CancelNothing(db, KeyOf(r), RecordOf(r, version, plan, stamp));
    }
  }

  /** How a batch can move a draft's version. */
  lemma CommitVersions(db: Db, dir: Directory, r: Request, version: Version, mailbox: Id, plan: Plan, stamp: nat)
    requires PlanFits(r, plan)
    ensures var after := Commit(db, dir, r, version, mailbox, plan, stamp).0;
            var bumped := Bumps(plan, BatchOf(db, dir, r, version, mailbox, plan, stamp));
            (forall d :: d in after.messages && (d != r.draft || !bumped) ==>
                d in db.messages && after.messages[d] == db.messages[d])
            && (bumped ==>
                  RowMatches(db, r.user, r.draft, version)
                  && r.draft in after.messages && after.messages[r.draft].version == Stamp(stamp))
    ensures Accepted(Commit(db, dir, r, version, mailbox, plan, stamp).1) ==>
              (Bumps(plan, BatchOf(db, dir, r, version, mailbox, plan, stamp)) <==> !plan.CancelNothingPlan?)
  {
    hide Attached, Consume, Deliver, RecordOf, Rescheduled, UploadValid, OutcomeOf;
    CommitAnswers(db, dir, r, version, mailbox, plan, stamp);
  }

  /** A batch of update or send that is not accepted changes nothing at all. */
  lemma RefusedChangesNothing(db: Db, dir: Directory, r: Request, version: Version, mailbox: Id, plan: Plan, stamp: nat)
    requires PlanFits(r, plan) && (r.Update? || r.Send?)
    ensures var (after, outcome) := Commit(db, dir, r, version, mailbox, plan, stamp);
            !Accepted(outcome) ==> after == db
    ensures Accepted(Commit(db, dir, r, version, mailbox, plan, stamp).1) ==> RowMatches(db, r.user, r.draft, version)
  {
  }

  lemma CleanMatchedRow(dir: Directory, db: Db, call: Call)
    requires Committable(call) && Accepted(Committed(dir, db, call).1)
    ensures Clean(db, call.request, call.phase.version, call.phase.mailbox, call.phase.plan) ==>
              RowMatches(db, call.request.user, call.request.draft, call.phase.version)
  {
    var r, p := call.request, call.phase;
    if !p.plan.CancelNothingPlan? {
      AcceptedMatchedRow(db, dir, r, p.version, p.mailbox, p.plan, p.stamp);
    }
  }

  /** The event a commit logs tells the serial observer exactly what the commit did. */
  lemma CommitEventIsOk(dir: Directory, db: Db, supply: nat, log: seq<Event>, call: Call)
    requires CallOk(dir, db, supply, call) && Committable(call) && Chain(db, log, supply)
    ensures var (after, outcome, events) := Committed(dir, db, call);
            if events == [] then after == db
            else events == [events[0]] && after == Redo(dir, db, events[0]) && EventOk(dir, db, log, events[0])
  {
    var r, p := call.request, call.phase;
    var (after, outcome, events) := Committed(dir, db, call);
    if Accepted(outcome) {
      CleanIsExact(dir, db, supply, call);
      CleanMatchedRow(dir, db, call);
    }
    if r.Update? || r.Send? {
      RefusedChangesNothing(db, dir, r, p.version, p.mailbox, p.plan, p.stamp);
    }
    CommitVersions(db, dir, r, p.version, p.mailbox, p.plan, p.stamp);
    hide Commit, RunAlone, Clean, PlanCurrent, PlanSettled, Unused, BatchOf, Bumps;
  }

  lemma CommitsIsSerial(dir: Directory, start: Db, s: State, c: nat)
    requires Inv(dir, s) && Serial(dir, start, s)
    ensures Serial(dir, start, Apply(dir, s, Commits(c)))
  {
    if c in s.calls && Committable(s.calls[c]) {
      CommitStep(dir, s, c);
      hide Apply;
      var call := s.calls[c];
      var r, p := call.request, call.phase;
      var after := Apply(dir, s, Commits(c));
      var (db, outcome, events) := Committed(dir, s.db, call);
      assert CallOk(dir, s.db, s.supply, call);
      CommitEventIsOk(dir, s.db, s.supply, s.log, call);
      CommitVersions(s.db, dir, r, p.version, p.mailbox, p.plan, p.stamp);
      hide Commit, Clean, CallOk, BatchOf, RowMatches, Redo, EventOk;
      if events == [] {
        assert after.log == s.log;
      } else {
        CommitExtendsChain(s.db, db, s.log, events[0], s.supply, r, p.stamp);
        hide Chain, Committed;
        assert s.log + events == s.log + [events[0]];
        Extend(dir, start, s, after, events[0]);
      }
    }
  }

  lemma CommitExtendsChain(before: Db, after: Db, log: seq<Event>, e: Event, supply: nat, r: Request, stamp: nat)
    requires Chain(before, log, supply) && r.draft < supply
    requires forall d :: d in after.messages && Wrote(e, d).None? ==>
             d in before.messages && after.messages[d] == before.messages[d]
    requires forall d: Id :: Wrote(e, d).Some? ==>
               d == r.draft && Wrote(e, d).value == stamp && d in after.messages
                   && after.messages[d].version == Stamp(stamp)
    ensures Chain(after, log + [e], supply)
  {
    ExtendChain(before, after, log, e, supply, supply);
  }

  /** No effect moves the version of a message that stays a draft. */
  lemma EffectVersions(db: Db, e: Effect)
    ensures forall d :: d in Happens(db, e).messages && Happens(db, e).messages[d].status == Draft ==>
              (Draws(e) && DrawnBy(e) == d)
              || (d in db.messages && db.messages[d].status == Draft
                 && Happens(db, e).messages[d].version == db.messages[d].version)
  {
  }

  lemma EffectExtendsChain(db: Db, log: seq<Event>, e: Effect, supply: nat, later: nat)
    requires Chain(db, log, supply) && supply <= later && (Draws(e) ==> DrawnBy(e) == supply)
    ensures Chain(Happens(db, e), log + [Outside(e)], later)
  {
    EffectVersions(db, e);
    hide Happens;
    ExtendChain(db, Happens(db, e), log, Outside(e), supply, later);
  }

  lemma OutsideIsOk(dir: Directory, db: Db, log: seq<Event>, e: Effect)
    ensures EventOk(dir, db, log, Outside(e)) && Redo(dir, db, Outside(e)) == Happens(db, e)
  {
  }

  lemma EnvIsSerial(dir: Directory, start: Db, s: State, e: Effect)
    requires Serial(dir, start, s)
    ensures Serial(dir, start, Apply(dir, s, Env(e)))
  {
    EnvStep(dir, s, e);
    hide Apply, Happens, History, Replay, Chain, LastWrite, Redo, EventOk;
    if Allowed(s, e) {
      var after := Apply(dir, s, Env(e));
      OutsideIsOk(dir, s.db, s.log, e);
      EffectExtendsChain(s.db, s.log, e, s.supply, after.supply);
      hide Serial;
      Extend(dir, start, s, after, Outside(e));
    }
  }

  lemma StepIsSerial(dir: Directory, start: Db, s: State, a: Action)
    requires Inv(dir, s) && Serial(dir, start, s)
    ensures Serial(dir, start, Apply(dir, s, a))
  {
    match a
    case Commits(c) => CommitsIsSerial(dir, start, s, c);
    case Env(e) => EnvIsSerial(dir, start, s, e);
    case _ =>
      var after := Apply(dir, s, a);
      assert after.db == s.db && after.log == s.log && s.supply <= after.supply;
  }

  /**
   Main result.  After every run of every number of calls, the tables are what the log says: each
   `Ran` event is a call run alone, with the answer it gave, on the tables its predecessors left, and
   its If-Match is the version the last write to its draft left there.  The batch of an update or a
   send that is not such an event either changed nothing or met one of the named exceptions.
   */
  lemma {:induction false} RunIsSerial(dir: Directory, s: State, actions: seq<Action>)
    requires Initial(s)
    ensures var end := Run(dir, s, actions);
            Replay(dir, s.db, end.log) == end.db && History(dir, s.db, end.log) && Chain(end.db, end.log, end.supply)
    decreases |actions|
  {
    if actions != [] {
      var most := actions[..|actions| - 1];
      RunIsSerial(dir, s, most);
      RunKeepsInv(dir, s, most);
      StepIsSerial(dir, s.db, Run(dir, s, most), actions[|actions| - 1]);
    }
  }
}
