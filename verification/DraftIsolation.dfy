/**
 The case the comments in drafts.ts speak of: updates and sends among themselves, with the dispatcher and the rest
 of the worker running, but no schedule, no cancel and nobody moving drafts between folders.  Then no commit
 slips: every change a call makes is that of the whole call, run alone.
 */
module DraftIsolation {
  import opened DraftTables
  import opened DraftCalls
  import opened DraftProtocol
  import opened DraftFrames
  import opened DraftInvariant
  import opened DraftSerial
  import opened Options

  predicate IsPlain(a: Action) {
    (a.Begins? ==> a.request.Update? || a.request.Send?)
    && (a.Env? && a.effect.Moved? ==> a.effect.link.folder != Drafts)
  }

  predicate Live(db: Db, d: Id) {
    JobIs(db, d, {Pending, Enqueued, Processing})
  }

  /** Only a job that is being processed is locked. */
  predicate LocksOk(db: Db) {
    forall d :: d in db.jobs && db.jobs[d].lock.Some? ==> db.jobs[d].status == Processing
  }

  /** What a call that could still be accepted will find. */
  predicate WillFind(db: Db, call: Call) {
    var r, p := call.request, call.phase;
    (r.Update? || r.Send?)
    && ((p.HaveDraft? || p.Ready?) && RowMatches(db, r.user, r.draft, p.version) ==>
          Link(p.mailbox, r.draft, Drafts) in db.links && (p.Ready? && r.Send? ==> !Live(db, r.draft)))
  }

  ghost predicate Isolated(s: State) {
    LocksOk(s.db) && forall c :: c in s.calls ==> WillFind(s.db, s.calls[c])
  }

  /** A message that stays a draft stays where it is, and gets no job. */
  ghost predicate LeavesDrafts(before: Db, after: Db) {
    forall d: Id :: d in after.messages && after.messages[d].status == Draft ==>
      (forall m: Id :: Link(m, d, Drafts) in before.links ==> Link(m, d, Drafts) in after.links)
      && (!Live(before, d) ==> !Live(after, d))
  }

  lemma CommitLeavesDrafts(db: Db, dir: Directory, r: Request, version: Version, mailbox: Id, plan: Plan, stamp: nat)
    requires PlanFits(r, plan) && (r.Update? || r.Send?) && LocksOk(db)
    ensures var after := Commit(db, dir, r, version, mailbox, plan, stamp).0; LeavesDrafts(db, after) && LocksOk(after)
  {
  }

  lemma EffectLeavesDrafts(db: Db, e: Effect)
    requires LocksOk(db) && (e.Moved? ==> e.link.folder != Drafts)
    ensures LeavesDrafts(db, Happens(db, e)) && LocksOk(Happens(db, e))
  {
    EffectKeepsLinks(db, e);
    EffectMakesNoJob(db, e);
    hide Happens, Live, LocksOk;
  }

  lemma EffectKeepsLinks(db: Db, e: Effect)
    requires e.Moved? ==> e.link.folder != Drafts
    ensures var after := Happens(db, e);
            forall d: Id, m: Id :: d in after.messages && after.messages[d].status == Draft
              && Link(m, d, Drafts) in db.links
              ==> Link(m, d, Drafts) in after.links
  {
  }

  lemma EffectMakesNoJob(db: Db, e: Effect)
    requires LocksOk(db)
    ensures var after := Happens(db, e);
            LocksOk(after)
            && forall d: Id ::
                 d in after.messages && after.messages[d].status == Draft && !Live(db, d) ==> !Live(after, d)
  {
    hide Attached, Consume, UploadValid;
  }

  /** A call that another step's number does not concern still finds what it would have found. */
  lemma StillFinds(db: Db, after: Db, call: Call, dir: Directory, supply: nat, stamp: nat)
    requires WillFind(db, call) && LeavesDrafts(db, after) && CallOk(dir, db, supply, call)
             && Honest(db, after, supply, stamp)
    requires call.phase.HaveDraft? || call.phase.Ready? ==> call.phase.version != Stamp(stamp)
    ensures WillFind(after, call)
  {
    hide Live, Unused, PlanCurrent, PlanSettled, Entered;
    var r, p := call.request, call.phase;
    if (p.HaveDraft? || p.Ready?) && RowMatches(after, r.user, r.draft, p.version) {
      assert RowMatches(db, r.user, r.draft, p.version);
      assert after.messages[r.draft].status == Draft;
    }
  }

  lemma CommitsIsolated(dir: Directory, s: State, c: nat)
    requires Inv(dir, s) && Isolated(s)
    ensures Isolated(Apply(dir, s, Commits(c)))
  {
    if c in s.calls && Committable(s.calls[c]) {
      var r, p := s.calls[c].request, s.calls[c].phase;
      CommitStep(dir, s, c);
      var after := Apply(dir, s, Commits(c));
      hide Apply;
      assert WillFind(s.db, s.calls[c]) && CallOk(dir, s.db, s.supply, s.calls[c]);
      CommitLeavesDrafts(s.db, dir, r, p.version, p.mailbox, p.plan, p.stamp);
      CommitFrame(s.db, dir, r, p.version, p.mailbox, p.plan, p.stamp, s.supply);
      FrameParts(s.db, after.db, s.supply, p.stamp);
      hide Commit, LeavesDrafts, Honest, CallOk, BatchOf, Clean;
      forall k | k in after.calls ensures WillFind(after.db, after.calls[k]) {
        if k != c {
          assert Apart(s.calls[k].phase, s.calls[c].phase);
          StillFinds(s.db, after.db, s.calls[k], dir, s.supply, p.stamp);
        }
      }
    }
  }

  lemma EnvIsolated(dir: Directory, s: State, e: Effect)
    requires Inv(dir, s) && Isolated(s) && IsPlain(Env(e))
    ensures Isolated(Apply(dir, s, Env(e)))
  {
    EnvStep(dir, s, e);
    hide Apply;
    if Allowed(s, e) {
      var after := Apply(dir, s, Env(e));
      EffectLeavesDrafts(s.db, e);
      EnvFrame(s.db, e, s.supply);
      FrameParts(s.db, after.db, s.supply, s.supply);
      hide Happens, LeavesDrafts, Honest;
      forall k | k in after.calls ensures WillFind(after.db, after.calls[k]) {
        assert CallOk(dir, s.db, s.supply, s.calls[k]);
        hide PlanSettled, PlanCurrent, Unused, Entered;
        StillFinds(s.db, after.db, s.calls[k], dir, s.supply, s.supply);
      }
    }
  }

  /** Reading a draft finds its link; loading a send finds no live job. */
  lemma CallIsolated(dir: Directory, s: State, a: Action)
    requires Isolated(s) && IsPlain(a) && (a.Begins? || a.Reads? || a.Loads? || a.Selects?)
    ensures Isolated(Apply(dir, s, a))
  {
    hide LocksOk;
  }

  lemma StepIsolated(dir: Directory, s: State, a: Action)
    requires Inv(dir, s) && Isolated(s) && IsPlain(a)
    ensures Isolated(Apply(dir, s, a))
  {
    hide Apply, Inv, Isolated;
    match a
    case Commits(c) => CommitsIsolated(dir, s, c);
    case Env(e) => EnvIsolated(dir, s, e);
    case _ => CallIsolated(dir, s, a);
  }

  /** Nothing slipped, and what ran is updates and sends. */
  predicate NoSlips(log: seq<Event>) {
    forall i :: 0 <= i < |log| ==> !log[i].Slipped? && (log[i].Ran? ==> log[i].request.Update? || log[i].request.Send?)
  }

  lemma StepDoesNotSlip(dir: Directory, s: State, a: Action)
    requires Isolated(s) && NoSlips(s.log)
    ensures NoSlips(Apply(dir, s, a).log)
  {
    hide Happens, Begin, ReadDraft, Load;
    match a
    case Commits(c) =>
      if c in s.calls && Committable(s.calls[c]) {
        var r, p := s.calls[c].request, s.calls[c].phase;
        CommitStep(dir, s, c);
        hide Apply;
        assert WillFind(s.db, s.calls[c]);
        RefusedChangesNothing(s.db, dir, r, p.version, p.mailbox, p.plan, p.stamp);
        hide Commit, BatchOf;
      }
    case _ =>
  }

  lemma {:induction false} RunIsIsolated(dir: Directory, s: State, actions: seq<Action>)
    requires Initial(s) && LocksOk(s.db) && forall a :: a in actions ==> IsPlain(a)
    ensures Isolated(Run(dir, s, actions)) && NoSlips(Run(dir, s, actions).log)
    decreases |actions|
  {
    if actions != [] {
      var most, last := actions[..|actions| - 1], actions[|actions| - 1];
      RunIsIsolated(dir, s, most);
      RunKeepsInv(dir, s, most);
      assert last in actions;
      StepIsolated(dir, Run(dir, s, most), last);
      StepDoesNotSlip(dir, Run(dir, s, most), last);
    }
  }

  /** The tables after running calls alone, one at a time, with what happened outside them in between. */
  function OneAtATime(dir: Directory, db: Db, log: seq<Event>): Db
    decreases |log|
  {
    if log == [] then db
    else
      var before := OneAtATime(dir, db, log[..|log| - 1]);
      match log[|log| - 1]
      case Ran(r, stamp, _, _) => RunAlone(before, dir, r, stamp).0
      case Outside(effect) => Happens(before, effect)
      case Slipped(_, _, _, _, _, _) => before
  }

  lemma {:induction false} ReplayIsOneAtATime(dir: Directory, db: Db, log: seq<Event>)
    requires NoSlips(log)
    ensures Replay(dir, db, log) == OneAtATime(dir, db, log)
    decreases |log|
  {
    if log != [] {
      hide RunAlone, Happens;
      ReplayIsOneAtATime(dir, db, log[..|log| - 1]);
    }
  }

  /**
   Main result.  Updates and sends are serializable: after any interleaving of any number of them, the tables are
   those that the committed calls leave when each runs alone, in commit order, with the answer it gave; and each
   committed call's If-Match is the version the one before it left.
   */
  lemma UpdatesAndSendsAreSerial(dir: Directory, s: State, actions: seq<Action>)
    requires Initial(s) && LocksOk(s.db) && forall a :: a in actions ==> IsPlain(a)
    ensures var end := Run(dir, s, actions);
            end.db == OneAtATime(dir, s.db, end.log)
            && forall i :: 0 <= i < |end.log| && end.log[i].Ran? ==>
                 var (e, log) := (end.log[i], end.log[..i]);
                 var before := OneAtATime(dir, s.db, log);
                 (e.request.Update? || e.request.Send?)
                 && RunAlone(before, dir, e.request, e.stamp).1 == e.outcome && Accepted(e.outcome)
                 && Unused(before, e.stamp)
                 && e.request.draft in before.messages
                 && e.request.ifMatch.Some?
                    && e.request.ifMatch.value.version == before.messages[e.request.draft].version
                 && (LastWrite(log, e.request.draft).Some? ==>
                       e.request.ifMatch.value.version == Stamp(LastWrite(log, e.request.draft).value))
  {
    RunIsIsolated(dir, s, actions);
    RunIsSerial(dir, s, actions);
    var end := Run(dir, s, actions);
    ReplayIsOneAtATime(dir, s.db, end.log);
    hide Run, RunAlone, OneAtATime, Replay, Clean, Chain;
    forall i | 0 <= i < |end.log| ensures Replay(dir, s.db, end.log[..i]) == OneAtATime(dir, s.db, end.log[..i]) {
      ReplayIsOneAtATime(dir, s.db, end.log[..i]);
    }
    assert forall i :: 0 <= i < |end.log| ==> EventOk(dir, Replay(dir, s.db, end.log[..i]), end.log[..i], end.log[i]);
  }
}
