/**
 The invariant of DraftProtocol: at every reachable state, a call that has read a draft still knows
 what a reader would see now, for as long as the row carries the version it read.
 */
module DraftInvariant {
  import opened DraftTables
  import opened DraftCalls
  import opened DraftProtocol
  import opened DraftFrames
  import opened Options

  lemma PlanStaysCurrent(db: Db, after: Db, dir: Directory, r: Request, mailbox: Id, plan: Plan)
    requires PlanFits(r, plan) && PlanCurrent(db, dir, r, mailbox, plan)
    requires Recipients(after, r.draft) == Recipients(db, r.draft)
    requires AttachmentsOf(after, r.draft) == AttachmentsOf(db, r.draft)
    ensures PlanCurrent(after, dir, r, mailbox, plan)
  {
    if r.Update? {
      assert Kept(after, r.draft, r.input.refs) == Kept(db, r.draft, r.input.refs);
    }
  }

  /** A step that spends another number leaves a call's knowledge as good as it was. */
  lemma CallStaysOk(dir: Directory, db: Db, after: Db, supply: nat, later: nat, stamp: nat, call: Call)
    requires CallOk(dir, db, supply, call) && Frame(db, after, supply, stamp) && supply <= later
    requires call.phase.HaveDraft? || call.phase.Ready? ==> call.phase.version != Stamp(stamp)
    requires call.phase.Ready? ==> call.phase.stamp != stamp
    ensures CallOk(dir, after, later, call)
  {
    hide Frame, Unused, PlanCurrent, PlanSettled, Entered, AddsOnly, Departs, RecordsAge;
    var r, p := call.request, call.phase;
    if p.HaveDraft? || p.Ready? {
      assert Honest(db, after, supply, stamp) by { FrameParts(db, after, supply, stamp); }
      assert SpendsOnly(db, after, stamp) by { FrameParts(db, after, supply, stamp); }
      if p.Ready? && RowMatches(after, r.user, r.draft, p.version) {
        PlanStaysCurrent(db, after, dir, r, p.mailbox, p.plan);
      }
    }
  }

  lemma FrameParts(db: Db, after: Db, bound: nat, stamp: nat)
    requires Frame(db, after, bound, stamp)
    ensures Honest(db, after, bound, stamp) && SpendsOnly(db, after, stamp) && AddsOnly(db, after, bound)
    ensures Departs(db, after) && RecordsAge(db, after)
  {
  }

  // ------------------------------------------------------------------ reading

  lemma ReadIsOk(dir: Directory, db: Db, supply: nat, r: Request)
    requires forall d :: d in db.messages ==> d < supply
    requires forall n: nat :: supply <= n ==> Unused(db, n)
    ensures CallOk(dir, db, supply, Call(r, ReadDraft(db, dir, r)))
    ensures var p := ReadDraft(db, dir, r); p.HaveDraft? ==> Below(p.version, supply)
  {
    var p := ReadDraft(db, dir, r);
    assert p.HaveDraft? && p.version.Stamp? ==> !Unused(db, p.version.n);
  }

  /** A plan that passes the second round of reads is current, and stays so while the version does. */
  lemma LoadIsOk(dir: Directory, db: Db, supply: nat, r: Request, version: Version, mailbox: Id)
    requires CallOk(dir, db, supply, Call(r, HaveDraft(version, mailbox))) && Unused(db, supply)
    ensures CallOk(dir, db, supply + 1, Call(r, Load(db, dir, r, version, mailbox, supply)))
  {
    var p := Load(db, dir, r, version, mailbox, supply);
    if p.Ready? {
      assert PlanFits(r, p.plan);
      assert PlanSettled(r, p.plan);
      assert PlanCurrent(db, dir, r, mailbox, p.plan);
    }
  }

  // ------------------------------------------------------------------ every action

  lemma BeginsKeepsInv(dir: Directory, s: State, c: nat, r: Request)
    requires Inv(dir, s)
    ensures Inv(dir, Apply(dir, s, Begins(c, r)))
  {
  }

  lemma ReadsKeepsInv(dir: Directory, s: State, c: nat)
    requires Inv(dir, s)
    ensures Inv(dir, Apply(dir, s, Reads(c)))
  {
    if c in s.calls && s.calls[c].phase.Started? {
      hide CallOk, ReadDraft, Unused;
      var r := s.calls[c].request;
      ReadIsOk(dir, s.db, s.supply, r);
      var after := Apply(dir, s, Reads(c));
      forall c' | c' in after.calls && c' != c
        ensures Apart(after.calls[c].phase, after.calls[c'].phase)
                && Apart(after.calls[c'].phase, after.calls[c].phase) {
        ReadIsApart(dir, s, c, c');
      }
    }
  }

  /** A version that can be read has already been written, so it is nobody's unused stamp. */
  lemma ReadIsApart(dir: Directory, s: State, c: nat, c': nat)
    requires Inv(dir, s) && c in s.calls && c' in s.calls && c != c'
    ensures var p := ReadDraft(s.db, dir, s.calls[c].request);
            Apart(p, s.calls[c'].phase) && Apart(s.calls[c'].phase, p)
  {
    assert CallOk(dir, s.db, s.supply, s.calls[c']);
    var p := ReadDraft(s.db, dir, s.calls[c].request);
    assert !p.Ready?;
    if s.calls[c'].phase.Ready? && p.HaveDraft? {
      assert Unused(s.db, s.calls[c'].phase.stamp);
    }
  }

  lemma LoadsKeepsInv(dir: Directory, s: State, c: nat)
    requires Inv(dir, s)
    ensures Inv(dir, Apply(dir, s, Loads(c)))
  {
    if c in s.calls && s.calls[c].phase.HaveDraft? {
      var r, p := s.calls[c].request, s.calls[c].phase;
      var after := Apply(dir, s, Loads(c));
      LoadIsOk(dir, s.db, s.supply, r, p.version, p.mailbox);
      hide Load, Unused, PlanCurrent, PlanSettled, Entered;
      forall c' | c' in after.calls ensures CallOk(dir, after.db, after.supply, after.calls[c']) {
        if c' != c {
          assert CallOk(dir, s.db, s.supply, s.calls[c']);
        }
      }
      forall c' | c' in after.calls && c' != c
        ensures Apart(after.calls[c].phase, after.calls[c'].phase) && Apart(after.calls[c'].phase, after.calls[c].phase)
      {
        assert CallOk(dir, s.db, s.supply, s.calls[c']);
        LoadShape(dir, s.db, r, p.version, p.mailbox, s.supply);
      }
    }
  }

  lemma LoadShape(dir: Directory, db: Db, r: Request, version: Version, mailbox: Id, stamp: nat)
    ensures var p := Load(db, dir, r, version, mailbox, stamp);
            p.Done? || (p.Ready? && p.version == version && p.stamp == stamp)
  {
  }

  lemma CommitsKeepsInv(dir: Directory, s: State, c: nat)
    requires Inv(dir, s)
    ensures Inv(dir, Apply(dir, s, Commits(c)))
  {
    if c in s.calls && Committable(s.calls[c]) {
      CommitStep(dir, s, c);
      hide Apply;
      var r, p := s.calls[c].request, s.calls[c].phase;
      var after := Apply(dir, s, Commits(c));
      assert CallOk(dir, s.db, s.supply, s.calls[c]);
      CommitFrame(s.db, dir, r, p.version, p.mailbox, p.plan, p.stamp, s.supply);
      CommitAddsNoMessage(s.db, dir, r, p.version, p.mailbox, p.plan, p.stamp);
      FrameParts(s.db, after.db, s.supply, p.stamp);
      hide Frame, Unused, Committed;
      FrameKeepsInv(dir, s, after, Some(c), p.stamp);
    }
  }

  lemma CommitAddsNoMessage(db: Db, dir: Directory, r: Request, version: Version, mailbox: Id, plan: Plan, stamp: nat)
    requires PlanFits(r, plan)
    ensures Commit(db, dir, r, version, mailbox, plan, stamp).0.messages.Keys == db.messages.Keys
  {
  }

  /** What every change of the tables has in common; `c` is the call that made it, if one did. */
  lemma FrameKeepsInv(dir: Directory, s: State, after: State, c: Option<nat>, stamp: nat)
    requires Inv(dir, s) && Frame(s.db, after.db, s.supply, stamp) && s.supply <= after.supply
    requires forall d :: d in after.db.messages ==> d < after.supply
    requires forall n: nat :: after.supply <= n ==> Unused(after.db, n)
    requires after.calls.Keys == s.calls.Keys
    requires forall k :: k in s.calls && c != Some(k) ==> after.calls[k] == s.calls[k]
    requires c.Some? ==> c.value in s.calls && s.calls[c.value].phase.Ready? && s.calls[c.value].phase.stamp == stamp
                         && after.calls[c.value].phase.Done?
    requires c.None? ==> stamp == s.supply
    ensures Inv(dir, after)
  {
    hide Frame, Unused;
    forall k | k in after.calls ensures CallOk(dir, after.db, after.supply, after.calls[k]) {
      if c != Some(k) {
        assert CallOk(dir, s.db, s.supply, s.calls[k]);
        assert c.Some? ==> Apart(s.calls[k].phase, s.calls[c.value].phase);
        CallStaysOk(dir, s.db, after.db, s.supply, after.supply, stamp, s.calls[k]);
      }
    }
  }

  lemma SelectKeepsInv(dir: Directory, s: State, a: Action)
    requires Inv(dir, s) && a.Selects?
    ensures Inv(dir, Apply(dir, s, a))
  {
    hide CallOk, Unused, Apart;
  }

  lemma EnvKeepsInv(dir: Directory, s: State, e: Effect)
    requires Inv(dir, s)
    ensures Inv(dir, Apply(dir, s, Env(e)))
  {
    EnvStep(dir, s, e);
    hide Apply;
    var after := Apply(dir, s, Env(e));
    if Allowed(s, e) {
      hide Happens, Unused, CallOk, Apart, Frame;
      EnvFrame(s.db, e, s.supply);
      hide Inv;
      FrameKeepsInv(dir, s, after, None, s.supply);
    }
  }

  lemma AddsNoMessage(db: Db, e: Effect)
    requires !Draws(e)
    ensures Happens(db, e).messages.Keys <= db.messages.Keys
  {
    if IsSmall(e) {
      hide Happens;
      SmallIsQuiet(db, e);
    } else {
      hide MarkEnqueued, ClaimJob, RecoverLocks, EmptyTrash, CreateDraft, NewMessage;
    }
  }

  lemma EnvFrame(db: Db, e: Effect, supply: nat)
    requires forall d :: d in db.messages ==> d < supply
    requires forall n: nat :: supply <= n ==> Unused(db, n)
    requires Draws(e) ==> DrawnBy(e) == supply
    ensures Frame(db, Happens(db, e), supply, supply)
    ensures var later := Later(e, supply);
            (forall d :: d in Happens(db, e).messages ==> d < later)
            && forall n: nat :: later <= n ==> Unused(Happens(db, e), n)
  {
    hide Frame, Happens;
    assert Unused(db, supply);
    var after := Happens(db, e);
    EffectFrame(db, e, supply, supply);
    FrameParts(db, after, supply, supply);
    if !Draws(e) {
      EffectFrame(db, e, supply, supply + 1);
      FrameParts(db, after, supply, supply + 1);
      AddsNoMessage(db, e);
    }
    hide Unused;
  }

  /** Main result: every action of every call and of the environment keeps the invariant. */
  lemma StepKeepsInv(dir: Directory, s: State, a: Action)
    requires Inv(dir, s)
    ensures Inv(dir, Apply(dir, s, a))
  {
    hide Inv;
    match a
    case Begins(c, r) => BeginsKeepsInv(dir, s, c, r);
    case Reads(c) => ReadsKeepsInv(dir, s, c);
    case Loads(c) => LoadsKeepsInv(dir, s, c);
    case Commits(c) => CommitsKeepsInv(dir, s, c);
    case Selects(_) => SelectKeepsInv(dir, s, a);
    case Env(e) => EnvKeepsInv(dir, s, e);
  }

  lemma {:induction false} RunKeepsInv(dir: Directory, s: State, actions: seq<Action>)
    requires Initial(s)
    ensures Inv(dir, Run(dir, s, actions))
    decreases |actions|
  {
    if actions != [] {
      RunKeepsInv(dir, s, actions[..|actions| - 1]);
      StepKeepsInv(dir, Run(dir, s, actions[..|actions| - 1]), actions[|actions| - 1]);
    }
  }
}
