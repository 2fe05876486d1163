/**
 When a draft call is accepted: alone, by everything it checks; in a run, by what its batch still has to find.  What an
 accepted call leaves is in DraftAnswers.
 */
module DraftAcceptance {
  import opened DraftTables
  import opened DraftCalls
  import opened DraftProtocol
  import opened DraftInvariant
  import opened DraftSerial
  import opened DraftTheorems
  import opened DraftIsolation
  import opened DraftAnswers
  import opened Options

  // ------------------------------------------------------------------ what a call checks

  /** The user's draft, in drafts, at the version the request names, in a mailbox this user may send from. */
  predicate MayAct(db: Db, dir: Directory, r: Request) {
    FindsDraft(db, r)
    && var m := db.messages[r.draft]; Link(m.mailbox, r.draft, Drafts) in db.links && (r.user, m.mailbox) in dir.senders
  }

  /** Somebody is addressed with To, and the domain has a provider if somebody is outside. */
  ghost predicate HasRoute(db: Db, dir: Directory, r: Request) {
    r.draft in db.messages && (exists t :: Addressed(db, r.draft, t) && t.kind == To)
    && (GoesOutside(db, dir, r.draft) ==> db.messages[r.draft].mailbox in dir.connections)
  }

  /** The draft's own attachment, or a complete upload of this user's, in time. */
  predicate MayAttach(db: Db, r: Request, x: Ref) {
    match x
    case OfAttachment(a) => a in db.attachments && db.attachments[a].message == r.draft
    case OfUpload(u) =>
      u in db.uploads && db.uploads[u].owner == r.user && db.uploads[u].status == Uploaded && !db.uploads[u].expired
  }

  predicate NoJobBut(db: Db, d: Id, statuses: set<JobStatus>) {
    d in db.jobs ==> db.jobs[d].status in statuses
  }

  predicate NoneUnderWay(db: Db, d: Id) {
    d in db.jobs ==> db.jobs[d].status !in {Pending, Enqueued, Processing}
  }

  /** A record that a call under its key is answered from. */
  predicate IsLive(db: Db, key: RecordKey) {
    key in db.records && !db.records[key].expired
  }

  /** What is wrong when a call is refused. */
  ghost predicate Because(db: Db, dir: Directory, r: Request, error: Error) {
    var d := r.draft;
    match error
    case KeyReused => exists o :: IsA(o, r) && IsLive(db, RecordKey(r.user, o, r.key))
    case NotFound =>
      !(d in db.messages && db.messages[d].status == Draft && db.messages[d].owner == r.user
        && Link(db.messages[d].mailbox, d, Drafts) in db.links)
    case VersionRequired => r.ifMatch.None?
    case VersionConflict => r.ifMatch.Some? && d in db.messages && r.ifMatch.value.version != db.messages[d].version
    case MailboxImmutable => r.Update? && d in db.messages && r.input.mailbox != db.messages[d].mailbox
    case NotPermitted => d in db.messages && (r.user, db.messages[d].mailbox) !in dir.senders
    case UploadInvalid => r.Update? && exists x :: x in r.input.refs && !MayAttach(db, r, x)
    case DraftScheduled => r.Send? && d in db.jobs && db.jobs[d].status in {Pending, Enqueued}
    case AlreadyDispatched =>
      d in db.jobs && if r.Send? then db.jobs[d].status == Processing
                      else db.jobs[d].status != Pending && (r.Cancel? ==> db.jobs[d].status != Enqueued)
    case ToRequired => !exists t :: Addressed(db, d, t) && t.kind == To
    case NoProvider => GoesOutside(db, dir, d) && d in db.messages && db.messages[d].mailbox !in dir.connections
    case WindowExceeded => r.Schedule? && !(MIN_LEAD_MS <= r.instant - r.clock < MAX_LEAD_MS)
    case DatabaseError =>
      (r.Send? && d in db.jobs) || (!r.Update? && exists o :: IsA(o, r) && RecordKey(r.user, o, r.key) in db.records)
  }

  // ------------------------------------------------------------------ a call alone

  /** A call that reads and loads the tables its batch runs on knows what is in them. */
  lemma AloneKnows(db: Db, dir: Directory, r: Request, plan: Plan, stamp: nat)
    requires Unused(db, stamp) && ReadDraft(db, dir, r).HaveDraft?
    requires LoadPlan(db, dir, r, ReadDraft(db, dir, r).mailbox) == Proceed(plan)
    ensures var p := ReadDraft(db, dir, r); Knows(db, dir, r, Ready(p.version, p.mailbox, plan, stamp))
  {
    var p := ReadDraft(db, dir, r);
    assert PlanFits(r, plan);
    assert PlanSettled(r, plan);
    assert PlanCurrent(db, dir, r, p.mailbox, plan);
    hide LoadPlan, PlanCurrent, PlanSettled, Unused;
  }

  lemma ReadsIff(db: Db, dir: Directory, r: Request)
    ensures var p := ReadDraft(db, dir, r);
            if p.HaveDraft? then
              MayAct(db, dir, r) && RowMatches(db, r.user, r.draft, p.version)
              && db.messages[r.draft].mailbox == p.mailbox && (r.Update? ==> r.input.mailbox == p.mailbox)
            else
              p.Done? && p.outcome.Refused? && Because(db, dir, r, p.outcome.error)
              && !(MayAct(db, dir, r) && (r.Update? ==> r.input.mailbox == db.messages[r.draft].mailbox))
  {
    hide MayAttach, Addressed, GoesOutside;
  }

  lemma LoadsUpdateIff(db: Db, dir: Directory, r: Request, stamp: nat)
    requires r.Update?
    ensures var l := LoadUpdate(db, r);
            if l.Proceed? then
              l.plan.UpdatePlan? && (forall x :: x in r.input.refs ==> MayAttach(db, r, x))
              && forall u :: u in l.plan.taken ==> UploadValid(db, r.user, u, l.plan.taken[u])
            else
              l.error == UploadInvalid && exists x :: x in r.input.refs && !MayAttach(db, r, x)
  {
    forall x | x in r.input.refs
      ensures MayAttach(db, r, x)
              <==> (x.OfAttachment? && x.attachment in Kept(db, r.draft, r.input.refs))
                   || (x.OfUpload? && x.upload in db.uploads
                      && UploadValid(db, r.user, x.upload, db.uploads[x.upload].info))
    {
      assert x.OfAttachment? ==> OfAttachment(x.attachment) in r.input.refs;
    }
    hide Kept;
  }

  /**
   Main result: alone, an update is accepted if and only if the user may act on this draft at this version, the mailbox
   is the draft's, and everything it names may be attached.  A refusal says what is wrong and changes nothing.
   */
  lemma UpdateAlone(db: Db, dir: Directory, r: Request, stamp: nat)
    requires r.Update? && Unused(db, stamp)
    ensures var (after, outcome) := RunAlone(db, dir, r, stamp);
            (outcome == Updated <==>
               MayAct(db, dir, r) && db.messages[r.draft].mailbox == r.input.mailbox
               && forall x :: x in r.input.refs ==> MayAttach(db, r, x))
            && if outcome == Updated then UpdateLeaves(db, after, r)
               else outcome.Refused? && after == db && Because(db, dir, r, outcome.error)
  {
    hide UpdateLeaves, LoadUpdate, Because, MayAct, MayAttach, Unused, Knows, ReadDraft;
    ReadsIff(db, dir, r);
    var p := ReadDraft(db, dir, r);
    if p.HaveDraft? {
      LoadsUpdateIff(db, dir, r, stamp);
      var l := LoadPlan(db, dir, r, p.mailbox);
      if l.Proceed? {
        AloneKnows(db, dir, r, l.plan, stamp);
        UpdateCommits(db, dir, r, p.version, p.mailbox, l.plan, stamp);
        UpdateTakesEffect(db, dir, r, Ready(p.version, p.mailbox, l.plan, stamp));
      } else {
        UploadIsWhy(db, dir, r);
      }
    }
  }

  lemma UploadIsWhy(db: Db, dir: Directory, r: Request)
    requires r.Update? && exists x :: x in r.input.refs && !MayAttach(db, r, x)
    ensures Because(db, dir, r, UploadInvalid)
  {
  }

  lemma UpdateCommits(db: Db, dir: Directory, r: Request, version: Version, mailbox: Id, plan: Plan, stamp: nat)
    requires r.Update? && PlanFits(r, plan)
    ensures Accepted(Commit(db, dir, r, version, mailbox, plan, stamp).1)
            <==> RowMatches(db, r.user, r.draft, version)
                 && forall u :: u in plan.taken ==> UploadValid(db, r.user, u, plan.taken[u])
  {
    hide RowMatches, UploadValid, Attached, Consume;
  }

  /** A keyed call whose key has a live record is answered from it, or refused, and reads nothing else. */
  lemma LiveRecordAnswers(db: Db, dir: Directory, r: Request, operation: Operation, stamp: nat)
    requires IsA(operation, r)
    ensures var key := RecordKey(r.user, operation, r.key);
            var (after, outcome) := RunAlone(db, dir, r, stamp);
            if IsLive(db, key) then
              after == db && (outcome == Replayed(db.records[key].response) || outcome == Refused(KeyReused))
              && Because(db, dir, r, KeyReused)
            else Begin(db, r).Started?
  {
    hide ReadDraft, LoadPlan, Commit;
    assert IsLive(db, RecordKey(r.user, operation, r.key)) ==> Because(db, dir, r, KeyReused);
  }

  lemma TakenKeyIsWhy(db: Db, dir: Directory, r: Request, operation: Operation)
    requires IsA(operation, r) && RecordKey(r.user, operation, r.key) in db.records
    ensures Because(db, dir, r, DatabaseError)
  {
  }

  lemma RoutesIff(db: Db, dir: Directory, r: Request, mailbox: Id)
    requires r.draft in db.messages && db.messages[r.draft].mailbox == mailbox
    ensures Route(db, dir, r.draft, mailbox).None? <==> HasRoute(db, dir, r)
    ensures Route(db, dir, r.draft, mailbox).Some? ==> Because(db, dir, r, Route(db, dir, r.draft, mailbox).value)
  {
    WhoIsAddressed(db, dir, r.draft);
    hide HasTo, External, Recipients, GoesOutside;
  }

  lemma LoadsSendIff(db: Db, dir: Directory, r: Request, mailbox: Id)
    requires r.Send? && r.draft in db.messages && db.messages[r.draft].mailbox == mailbox
    ensures var l := LoadSend(db, dir, r, mailbox);
            if l.Proceed? then
              l.plan.SendPlan? && HasRoute(db, dir, r) && NoneUnderWay(db, r.draft)
              && (l.plan.external <==> GoesOutside(db, dir, r.draft))
            else
              Because(db, dir, r, l.error)
              && !(HasRoute(db, dir, r) && NoneUnderWay(db, r.draft))
  {
    RoutesIff(db, dir, r, mailbox);
    WhoIsAddressed(db, dir, r.draft);
    hide External, Internal, Recipients, GoesOutside, Route, HasRoute, HasTo;
  }

  lemma SendCommits(db: Db, dir: Directory, r: Request, version: Version, mailbox: Id, plan: Plan, stamp: nat)
    requires r.Send? && PlanFits(r, plan)
    ensures var (after, outcome) := Commit(db, dir, r, version, mailbox, plan, stamp);
            (Accepted(outcome) <==>
               RowMatches(db, r.user, r.draft, version) && RecordKey(r.user, SendOp, r.key) !in db.records
               && (plan.external ==> r.draft !in db.jobs))
            && (RowMatches(db, r.user, r.draft, version) && !Accepted(outcome) ==>
                  outcome == Refused(DatabaseError) && after == db)
  {
    hide RowMatches, Deliver;
  }

  /**
   Main result: alone, and with no live record under its key, a send is answered if and only if the user may act on this
   draft at this version, there is somebody to send it to and a way there, no job is under way, and its key and, if it
   needs one, the draft's job are free.  A refusal says what is wrong and changes nothing.
   */
  lemma SendAlone(db: Db, dir: Directory, r: Request, stamp: nat)
    requires r.Send? && Unused(db, stamp) && !IsLive(db, RecordKey(r.user, SendOp, r.key))
    ensures var (after, outcome) := RunAlone(db, dir, r, stamp);
            (outcome.Responded? <==>
               MayAct(db, dir, r) && HasRoute(db, dir, r) && NoneUnderWay(db, r.draft)
               && RecordKey(r.user, SendOp, r.key) !in db.records
               && (GoesOutside(db, dir, r.draft) ==> r.draft !in db.jobs))
            && if outcome.Responded? then SendLeaves(db, after, dir, r, outcome.response)
               else outcome.Refused? && after == db && Because(db, dir, r, outcome.error)
  {
    hide SendLeaves, LoadSend, Because, MayAct, HasRoute, GoesOutside, Unused, Knows, ReadDraft, NoneUnderWay, Commit;
    LiveRecordAnswers(db, dir, r, SendOp, stamp);
    ReadsIff(db, dir, r);
    var p := ReadDraft(db, dir, r);
    if p.HaveDraft? {
      LoadsSendIff(db, dir, r, p.mailbox);
      var l := LoadPlan(db, dir, r, p.mailbox);
      if l.Proceed? {
        AloneKnows(db, dir, r, l.plan, stamp);
        SendCommits(db, dir, r, p.version, p.mailbox, l.plan, stamp);
        if Accepted(Commit(db, dir, r, p.version, p.mailbox, l.plan, stamp).1) {
          SendTakesEffect(db, dir, r, Ready(p.version, p.mailbox, l.plan, stamp));
        } else if RecordKey(r.user, SendOp, r.key) in db.records {
          TakenKeyIsWhy(db, dir, r, SendOp);
        } else {
          TakenJobIsWhy(db, dir, r);
        }
      }
    }
  }

  lemma TakenJobIsWhy(db: Db, dir: Directory, r: Request)
    requires r.Send? && r.draft in db.jobs
    ensures Because(db, dir, r, DatabaseError)
  {
  }

  lemma LoadsScheduleIff(db: Db, dir: Directory, r: Request, mailbox: Id)
    requires r.Schedule? && r.draft in db.messages && db.messages[r.draft].mailbox == mailbox
    ensures var l := LoadSchedule(db, dir, r, mailbox);
            if l.Proceed? then
              l.plan.SchedulePlan? && HasRoute(db, dir, r) && NoJobBut(db, r.draft, {Pending})
              && MIN_LEAD_MS <= r.instant - r.clock < MAX_LEAD_MS
            else
              Because(db, dir, r, l.error)
              && !(HasRoute(db, dir, r) && NoJobBut(db, r.draft, {Pending})
                   && MIN_LEAD_MS <= r.instant - r.clock < MAX_LEAD_MS)
  {
    RoutesIff(db, dir, r, mailbox);
    hide External, Recipients, GoesOutside, Route, HasRoute, HasTo;
  }

  lemma ScheduleCommits(db: Db, dir: Directory, r: Request, version: Version, mailbox: Id, plan: Plan, stamp: nat)
    requires r.Schedule? && PlanFits(r, plan)
    ensures var (after, outcome) := Commit(db, dir, r, version, mailbox, plan, stamp);
            (Accepted(outcome) <==>
               RowMatches(db, r.user, r.draft, version) && RecordKey(r.user, ScheduleOp, r.key) !in db.records
               && NoJobBut(db, r.draft, {Pending}))
            && (RowMatches(db, r.user, r.draft, version) && RecordKey(r.user, ScheduleOp, r.key) in db.records ==>
                  outcome == Refused(DatabaseError) && after == db)
  {
  }

  /** Main result: the same of a schedule, which needs no job or a pending one, and an instant within the window. */
  lemma ScheduleAlone(db: Db, dir: Directory, r: Request, stamp: nat)
    requires r.Schedule? && Unused(db, stamp) && !IsLive(db, RecordKey(r.user, ScheduleOp, r.key))
    ensures var (after, outcome) := RunAlone(db, dir, r, stamp);
            (outcome.Responded? <==>
               MayAct(db, dir, r) && HasRoute(db, dir, r) && NoJobBut(db, r.draft, {Pending})
               && MIN_LEAD_MS <= r.instant - r.clock < MAX_LEAD_MS
               && RecordKey(r.user, ScheduleOp, r.key) !in db.records)
            && if outcome.Responded? then ScheduleLeaves(db, after, dir, r, outcome.response)
               else outcome.Refused? && after == db && Because(db, dir, r, outcome.error)
  {
    hide ScheduleLeaves, LoadSchedule, Because, MayAct, HasRoute, Unused, Knows, ReadDraft, NoJobBut, Commit;
    LiveRecordAnswers(db, dir, r, ScheduleOp, stamp);
    ReadsIff(db, dir, r);
    var p := ReadDraft(db, dir, r);
    if p.HaveDraft? {
      LoadsScheduleIff(db, dir, r, p.mailbox);
      var l := LoadPlan(db, dir, r, p.mailbox);
      if l.Proceed? {
        AloneKnows(db, dir, r, l.plan, stamp);
        ScheduleCommits(db, dir, r, p.version, p.mailbox, l.plan, stamp);
        if Accepted(Commit(db, dir, r, p.version, p.mailbox, l.plan, stamp).1) {
          ScheduleTakesEffect(db, dir, r, Ready(p.version, p.mailbox, l.plan, stamp));
        } else {
          TakenKeyIsWhy(db, dir, r, ScheduleOp);
        }
      }
    }
  }

  lemma LoadsCancelIff(db: Db, dir: Directory, r: Request, mailbox: Id)
    requires r.Cancel?
    ensures var l := LoadCancel(db, r);
            if l.Proceed? then
              NoJobBut(db, r.draft, {Pending, Enqueued}) && PlanFits(r, l.plan)
              && (l.plan.CancelPlan? <==> r.draft in db.jobs)
            else Because(db, dir, r, l.error) && !NoJobBut(db, r.draft, {Pending, Enqueued})
  {
  }

  lemma CancelCommits(db: Db, dir: Directory, r: Request, version: Version, mailbox: Id, plan: Plan, stamp: nat)
    requires r.Cancel? && PlanFits(r, plan)
    ensures var (after, outcome) := Commit(db, dir, r, version, mailbox, plan, stamp);
            (Accepted(outcome) <==>
               RecordKey(r.user, CancelOp, r.key) !in db.records
               && (plan.CancelPlan? ==>
                     RowMatches(db, r.user, r.draft, version)
                     && r.draft in db.jobs && db.jobs[r.draft].status in {Pending, Enqueued}))
            && (RowMatches(db, r.user, r.draft, version) && RecordKey(r.user, CancelOp, r.key) in db.records
                && NoJobBut(db, r.draft, {Pending, Enqueued}) ==>
                  outcome == Refused(DatabaseError) && after == db)
  {
  }

  /** Main result: the same of a cancel; it says it cancelled if and only if there was a job. */
  lemma CancelAlone(db: Db, dir: Directory, r: Request, stamp: nat)
    requires r.Cancel? && Unused(db, stamp) && !IsLive(db, RecordKey(r.user, CancelOp, r.key))
    ensures var (after, outcome) := RunAlone(db, dir, r, stamp);
            (outcome.Responded? <==>
               MayAct(db, dir, r) && NoJobBut(db, r.draft, {Pending, Enqueued})
               && RecordKey(r.user, CancelOp, r.key) !in db.records)
            && if outcome.Responded? then
                 CancelLeaves(db, after, r, outcome.response)
                 && (outcome.response.cancelled <==> r.draft in db.jobs)
               else outcome.Refused? && after == db && Because(db, dir, r, outcome.error)
  {
    hide CancelLeaves, LoadCancel, Because, MayAct, Unused, Knows, ReadDraft, NoJobBut, Commit;
    LiveRecordAnswers(db, dir, r, CancelOp, stamp);
    ReadsIff(db, dir, r);
    var p := ReadDraft(db, dir, r);
    if p.HaveDraft? {
      LoadsCancelIff(db, dir, r, p.mailbox);
      var l := LoadPlan(db, dir, r, p.mailbox);
      if l.Proceed? {
        AloneKnows(db, dir, r, l.plan, stamp);
        JobsAreThere(db, r.draft, {Pending, Enqueued});
        CancelCommits(db, dir, r, p.version, p.mailbox, l.plan, stamp);
        if Accepted(Commit(db, dir, r, p.version, p.mailbox, l.plan, stamp).1) {
          CancelTakesEffect(db, dir, r, Ready(p.version, p.mailbox, l.plan, stamp));
        } else {
          TakenKeyIsWhy(db, dir, r, CancelOp);
        }
      }
    }
  }

  lemma JobsAreThere(db: Db, d: Id, statuses: set<JobStatus>)
    requires NoJobBut(db, d, statuses)
    ensures d in db.jobs ==> db.jobs[d].status in statuses
  {
  }

  // ------------------------------------------------------------------ a call in a run

  /** What the batch of a call that has read everything still has to find. */
  ghost predicate StillFinds(db: Db, dir: Directory, r: Request, plan: Plan)
    requires PlanFits(r, plan)
  {
    match r
    case Update(_, _, _, input) =>
      FindsDraft(db, r)
      && forall u :: OfUpload(u) in input.refs ==>
           MayAttach(db, r, OfUpload(u)) && u in plan.taken && db.uploads[u].info == plan.taken[u]
    case Send(user, d, _, key) =>
      FindsDraft(db, r) && RecordKey(user, SendOp, key) !in db.records && (GoesOutside(db, dir, d) ==> d !in db.jobs)
    case Schedule(user, d, _, key, _, _) =>
      FindsDraft(db, r) && RecordKey(user, ScheduleOp, key) !in db.records && NoJobBut(db, d, {Pending})
    case Cancel(user, d, _, key) =>
      RecordKey(user, CancelOp, key) !in db.records
      && (plan.CancelPlan? ==> FindsDraft(db, r) && d in db.jobs && NoJobBut(db, d, {Pending, Enqueued}))
  }

  lemma CommitAcceptsIff(db: Db, dir: Directory, r: Request, p: Phase)
    requires Knows(db, dir, r, p)
    ensures Accepted(Commit(db, dir, r, p.version, p.mailbox, p.plan, p.stamp).1) <==> StillFinds(db, dir, r, p.plan)
  {
    hide Commit, Unused;
    WhoIsAddressed(db, dir, r.draft);
    match r
    case Update(_, _, _, _) => UpdateCommits(db, dir, r, p.version, p.mailbox, p.plan, p.stamp);
    case Send(_, _, _, _) => SendCommits(db, dir, r, p.version, p.mailbox, p.plan, p.stamp);
    case Schedule(_, _, _, _, _, _) => ScheduleCommits(db, dir, r, p.version, p.mailbox, p.plan, p.stamp);
    case Cancel(_, _, _, _) => CancelCommits(db, dir, r, p.version, p.mailbox, p.plan, p.stamp);
  }

  /**
   Main result: in every run, the batch of a call that has read everything is accepted if and only if it still finds the
   draft at the version its request names, its key free, and the uploads or the job in a state it can use; what
   recipients and attachments the call had read need no second look.
   */
  lemma ReadyIsAcceptedIff(dir: Directory, s: State, actions: seq<Action>, c: nat)
    requires Initial(s) && c in Run(dir, s, actions).calls && Run(dir, s, actions).calls[c].phase.Ready?
    ensures var before := Run(dir, s, actions);
            var after := Apply(dir, before, Commits(c));
            var (r, p) := (before.calls[c].request, before.calls[c].phase);
            PlanFits(r, p.plan) && c in after.calls && after.calls[c].phase.Done?
            && (Accepted(after.calls[c].phase.outcome) <==> StillFinds(before.db, dir, r, p.plan))
  {
    var before := Run(dir, s, actions);
    RunKeepsInv(dir, s, actions);
    assert CallOk(dir, before.db, before.supply, before.calls[c]);
    assert Knows(before.db, dir, before.calls[c].request, before.calls[c].phase);
    CommitStep(dir, before, c);
    hide Apply, Run, Initial, Commit, Knows, StillFinds, CallOk, Inv, Clean, BatchOf;
    CommitAcceptsIff(before.db, dir, before.calls[c].request, before.calls[c].phase);
  }

  // ------------------------------------------------------------------ updates and sends, one at a time

  /** An update or a send that was accepted, and what it left. */
  ghost predicate LeavesWhatItAsks(dir: Directory, before: Db, after: Db, r: Request, outcome: Outcome) {
    if r.Update? then outcome == Updated && UpdateLeaves(before, after, r)
    else r.Send? && outcome.Responded? && SendLeaves(before, after, dir, r, outcome.response)
  }

  lemma RanLeaves(dir: Directory, before: Db, r: Request, stamp: nat, outcome: Outcome)
    requires (r.Update? || r.Send?) && Unused(before, stamp)
    requires RunAlone(before, dir, r, stamp).1 == outcome && Accepted(outcome)
    ensures LeavesWhatItAsks(dir, before, RunAlone(before, dir, r, stamp).0, r, outcome)
  {
    hide RunAlone, UpdateLeaves, SendLeaves, MayAct, HasRoute, MayAttach, Because, GoesOutside, NoneUnderWay, Unused;
    if r.Update? {
      UpdateAlone(before, dir, r, stamp);
    } else if !IsLive(before, RecordKey(r.user, SendOp, r.key)) {
      SendAlone(before, dir, r, stamp);
    } else {
      LiveRecordAnswers(before, dir, r, SendOp, stamp);
    }
  }

  lemma OneMoreRan(dir: Directory, start: Db, log: seq<Event>, i: nat)
    requires i < |log| && log[i].Ran?
    ensures OneAtATime(dir, start, log[..i + 1])
            == RunAlone(OneAtATime(dir, start, log[..i]), dir, log[i].request, log[i].stamp).0
  {
    hide RunAlone, Happens;
    assert log[..i + 1][..i] == log[..i];
  }

  /**
   Main result: after any interleaving of updates and sends, the tables are the initial ones changed by one committed
   call or outside event after another, and each committed call leaves exactly what its request asks for.
   */
  lemma SerialCallsLeaveWhatTheyAsk(dir: Directory, s: State, actions: seq<Action>)
    requires Initial(s) && LocksOk(s.db) && forall a :: a in actions ==> IsPlain(a)
    ensures var end := Run(dir, s, actions);
            end.db == OneAtATime(dir, s.db, end.log)
            && forall i :: 0 <= i < |end.log| && end.log[i].Ran? ==>
                 LeavesWhatItAsks(dir, OneAtATime(dir, s.db, end.log[..i]), OneAtATime(dir, s.db, end.log[..i + 1]),
                                  end.log[i].request, end.log[i].outcome)
  {
    UpdatesAndSendsAreSerial(dir, s, actions);
    var log := Run(dir, s, actions).log;
    hide Run, LeavesWhatItAsks, IsPlain, LocksOk, Initial, RunAlone, OneAtATime, Unused, LastWrite;
    forall i | 0 <= i < |log| && log[i].Ran?
      ensures LeavesWhatItAsks(dir, OneAtATime(dir, s.db, log[..i]), OneAtATime(dir, s.db, log[..i + 1]),
                               log[i].request, log[i].outcome)
    {
      OneMoreRan(dir, s.db, log, i);
      RanLeaves(dir, OneAtATime(dir, s.db, log[..i]), log[i].request, log[i].stamp, log[i].outcome);
    }
  }
}
