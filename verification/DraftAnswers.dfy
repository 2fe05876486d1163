/**
 What the answer to a draft call means, in every interleaving.  Each accepted call is described by its request and by
 the tables just before and just after the step that accepts it; a later call under its key, by the two requests.
 */
module DraftAnswers {
  import opened DraftTables
  import opened DraftCalls
  import opened DraftProtocol
  import opened DraftFrames
  import opened DraftInvariant
  import opened DraftSerial
  import opened DraftTheorems
  import opened Options

  // ------------------------------------------------------------------ the step that accepts a call

  /** In the step `a`, the call `c` is accepted, and not answered from a record. */
  predicate AcceptedIn(dir: Directory, before: State, a: Action, c: nat) {
    c in before.calls && !before.calls[c].phase.Done?
    && var after := Apply(dir, before, a);
       c in after.calls && after.calls[c].phase.Done? && Accepted(after.calls[c].phase.outcome)
  }

  lemma ReadingRefuses(db: Db, dir: Directory, r: Request, version: Version, mailbox: Id, stamp: nat)
    ensures var p := ReadDraft(db, dir, r); p.Done? ==> p.outcome.Refused?
    ensures var p := Load(db, dir, r, version, mailbox, stamp); p.Done? ==> p.outcome.Refused?
  {
    hide LoadPlan;
  }

  lemma AcceptedByCommit(dir: Directory, before: State, a: Action, c: nat)
    requires AcceptedIn(dir, before, a, c)
    ensures a == Commits(c) && Committable(before.calls[c])
    ensures var (r, p) := (before.calls[c].request, before.calls[c].phase);
            var (db, outcome) := Commit(before.db, dir, r, p.version, p.mailbox, p.plan, p.stamp);
            Apply(dir, before, a).db == db && Apply(dir, before, a).calls[c] == Call(r, Done(outcome))
                && Accepted(outcome)
  {
    hide Happens, Begin, ReadDraft, Load, Commit, Clean, BatchOf;
    match a
    case Reads(k) => if k == c { ReadingRefuses(before.db, dir, before.calls[c].request, Clock(0), 0, 0); }
    case Loads(k) =>
      if k == c && before.calls[c].phase.HaveDraft? {
        var r, p := before.calls[c].request, before.calls[c].phase;
        ReadingRefuses(before.db, dir, r, p.version, p.mailbox, before.supply);
      }
    case _ =>
  }

  /** What a call knows when its batch runs: all of it, if the row still carries the version the call read. */
  ghost predicate Knows(db: Db, dir: Directory, r: Request, p: Phase) {
    p.Ready? && PlanFits(r, p.plan) && PlanSettled(r, p.plan) && Entered(dir, r, p.version, p.mailbox)
    && Unused(db, p.stamp)
    && (RowMatches(db, r.user, r.draft, p.version) ==>
          db.messages[r.draft].mailbox == p.mailbox && PlanCurrent(db, dir, r, p.mailbox, p.plan))
  }

  lemma AcceptedInRun(dir: Directory, s: State, actions: seq<Action>, a: Action, c: nat)
    requires Initial(s) && AcceptedIn(dir, Run(dir, s, actions), a, c)
    ensures var before := Run(dir, s, actions);
            var (r, p) := (before.calls[c].request, before.calls[c].phase);
            Committable(before.calls[c]) && Knows(before.db, dir, r, p)
            && var (db, outcome) := Commit(before.db, dir, r, p.version, p.mailbox, p.plan, p.stamp);
               var after := Apply(dir, before, a);
               after.db == db && after.calls[c] == Call(r, Done(outcome)) && Accepted(outcome)
  {
    var before := Run(dir, s, actions);
    AcceptedByCommit(dir, before, a, c);
    RunKeepsInv(dir, s, actions);
    assert CallOk(dir, before.db, before.supply, before.calls[c]);
    hide Commit, Apply, Run, PlanSettled, PlanCurrent, Entered, Unused, RowMatches;
  }

  /** The user's draft, at the version the request names. */
  predicate FindsDraft(db: Db, r: Request) {
    r.draft in db.messages && r.ifMatch.Some?
    && var m := db.messages[r.draft];
       m.status == Draft && m.owner == r.user && m.version == r.ifMatch.value.version
  }

  predicate IsNewVersion(db: Db, version: Version) {
    forall d :: d in db.messages ==> db.messages[d].version != version
  }

  // ------------------------------------------------------------------ update

  predicate IsAdded(before: Db, after: Db, a: AttachmentId) {
    a in after.attachments && a !in before.attachments
  }

  /** Of the attachments, the draft's own that the request does not name are gone, and each upload it names made one. */
  ghost predicate AttachesWhatItNames(before: Db, after: Db, r: Request)
    requires r.Update?
  {
    (forall a :: a in before.attachments ==>
       (a in after.attachments <==> before.attachments[a].message != r.draft || OfAttachment(a) in r.input.refs)
       && (a in after.attachments ==> after.attachments[a] == before.attachments[a]))
    && (forall a :: OfAttachment(a) in r.input.refs ==>
          a in before.attachments && before.attachments[a].message == r.draft)
    && (forall a :: IsAdded(before, after, a) ==>
          OfUpload(a.upload) in r.input.refs && a.upload in before.uploads
          && after.attachments[a] == Attachment(r.draft, before.uploads[a.upload].info))
    && (forall u :: OfUpload(u) in r.input.refs ==> exists a :: IsAdded(before, after, a) && a.upload == u)
    && (forall a, b :: IsAdded(before, after, a) && IsAdded(before, after, b) && a.upload == b.upload ==> a == b)
  }

  /** The uploads the request names were the user's, complete and in time, and are used up; the rest are as before. */
  ghost predicate UsesUpItsUploads(before: Db, after: Db, r: Request)
    requires r.Update?
  {
    after.uploads.Keys == before.uploads.Keys
    && (forall u :: OfUpload(u) in r.input.refs ==> u in before.uploads)
    && forall u :: u in before.uploads ==>
         if OfUpload(u) in r.input.refs then
           before.uploads[u].owner == r.user && before.uploads[u].status == Uploaded && !before.uploads[u].expired
           && after.uploads[u] == before.uploads[u].(status := Consumed)
         else after.uploads[u] == before.uploads[u]
  }

  /** The draft has the content, recipients and attachments asked for, under a new version; nothing else changed. */
  ghost predicate UpdateLeaves(before: Db, after: Db, r: Request)
    requires r.Update?
  {
    FindsDraft(before, r) && before.messages[r.draft].mailbox == r.input.mailbox
    && r.draft in after.messages && IsNewVersion(before, after.messages[r.draft].version)
    && after.messages == before.messages[r.draft := before.messages[r.draft].(
         content := r.input.content, version := after.messages[r.draft].version)]
    && after.recipients == before.recipients[r.draft := r.input.recipients]
    && AttachesWhatItNames(before, after, r) && UsesUpItsUploads(before, after, r)
    && after == before.(messages := after.messages, recipients := after.recipients,
                        attachments := after.attachments, uploads := after.uploads)
  }

  lemma UpdateWrites(db: Db, dir: Directory, r: Request, p: Phase)
    requires r.Update? && Knows(db, dir, r, p)
    requires Accepted(Commit(db, dir, r, p.version, p.mailbox, p.plan, p.stamp).1)
    ensures Commit(db, dir, r, p.version, p.mailbox, p.plan, p.stamp).1 == Updated
    ensures var after := Commit(db, dir, r, p.version, p.mailbox, p.plan, p.stamp).0;
            FindsDraft(db, r) && db.messages[r.draft].mailbox == r.input.mailbox && IsNewVersion(db, Stamp(p.stamp))
            && after.messages == db.messages[r.draft := db.messages[r.draft].(
                 content := r.input.content, version := Stamp(p.stamp))]
            && after.recipients == db.recipients[r.draft := r.input.recipients]
            && after == db.(messages := after.messages, recipients := after.recipients,
                            attachments := after.attachments, uploads := after.uploads)
    ensures var after := Commit(db, dir, r, p.version, p.mailbox, p.plan, p.stamp).0;
            after.attachments == Attached(db, r.draft, p.plan.removed, p.plan.taken, p.stamp)
            && after.uploads == Consume(db.uploads, p.plan.taken.Keys)
  {
    hide PlanCurrent, PlanSettled, Attached, Consume, UploadValid;
  }

  /** What an update's plan is, said of the request and the tables. */
  lemma PlannedUpdate(db: Db, dir: Directory, r: Request, p: Phase)
    requires r.Update? && Knows(db, dir, r, p)
    requires Accepted(Commit(db, dir, r, p.version, p.mailbox, p.plan, p.stamp).1)
    ensures forall u :: OfUpload(u) in r.input.refs <==> u in p.plan.taken
    ensures forall u :: u in p.plan.taken ==> UploadValid(db, r.user, u, p.plan.taken[u])
    ensures forall a :: a in p.plan.removed <==>
              a in db.attachments && db.attachments[a].message == r.draft && OfAttachment(a) !in r.input.refs
    ensures forall a :: OfAttachment(a) in r.input.refs ==>
              a in db.attachments && db.attachments[a].message == r.draft
    ensures forall a :: a in db.attachments ==> a.stamp != p.stamp
  {
    TakenIsValid(db, dir, r, p.version, p.mailbox, p.plan, p.stamp);
    AcceptedMatchedRow(db, dir, r, p.version, p.mailbox, p.plan, p.stamp);
    hide Commit, RowMatches, UploadValid, Entered;
  }

  /** An attachment is there afterwards because it stayed, or because an upload was taken in. */
  lemma InAttached(before: Db, draft: Id, removed: set<AttachmentId>, taken: map<Id, FileInfo>, stamp: nat,
      a: AttachmentId)
    requires forall b :: b in before.attachments ==> b.stamp != stamp
    ensures var after := Attached(before, draft, removed, taken, stamp);
            if a.stamp == stamp then
              (a in after <==> a.upload in taken) && (a in after ==> after[a] == Attachment(draft, taken[a.upload]))
            else
              (a in after <==> a in before.attachments
                               && !(before.attachments[a].message == draft && a in removed))
              && (a in after ==> after[a] == before.attachments[a])
  {
    assert a.stamp == stamp ==> a == AttachmentId(stamp, a.upload);
  }

  lemma AttachedIsNamed(before: Db, after: Db, r: Request, removed: set<AttachmentId>, taken: map<Id, FileInfo>,
      stamp: nat)
    requires r.Update? && after.attachments == Attached(before, r.draft, removed, taken, stamp)
    requires forall u :: OfUpload(u) in r.input.refs <==> u in taken
    requires forall u :: u in taken ==> UploadValid(before, r.user, u, taken[u])
    requires forall a :: a in removed <==>
               a in before.attachments && before.attachments[a].message == r.draft && OfAttachment(a) !in r.input.refs
    requires forall a :: OfAttachment(a) in r.input.refs ==>
               a in before.attachments && before.attachments[a].message == r.draft
    requires forall a :: a in before.attachments ==> a.stamp != stamp
    ensures AttachesWhatItNames(before, after, r)
  {
    hide Attached;
    forall a: AttachmentId
      ensures if a.stamp == stamp then
                (IsAdded(before, after, a) <==> a.upload in taken) && a !in before.attachments
                && (a in after.attachments ==> after.attachments[a] == Attachment(r.draft, taken[a.upload]))
              else
                (a in after.attachments <==> a in before.attachments && a !in removed)
                && (a in after.attachments ==> after.attachments[a] == before.attachments[a])
    {
      InAttached(before, r.draft, removed, taken, stamp, a);
    }
    forall u | OfUpload(u) in r.input.refs ensures exists a :: IsAdded(before, after, a) && a.upload == u {
      assert IsAdded(before, after, AttachmentId(stamp, u));
    }
  }

  lemma ConsumedIsNamed(before: Db, after: Db, r: Request, taken: map<Id, FileInfo>)
    requires r.Update? && after.uploads == Consume(before.uploads, taken.Keys)
    requires forall u :: OfUpload(u) in r.input.refs <==> u in taken
    requires forall u :: u in taken ==> UploadValid(before, r.user, u, taken[u])
    ensures UsesUpItsUploads(before, after, r)
  {
  }

  lemma UpdateTakesEffect(db: Db, dir: Directory, r: Request, p: Phase)
    requires r.Update? && Knows(db, dir, r, p)
    requires Accepted(Commit(db, dir, r, p.version, p.mailbox, p.plan, p.stamp).1)
    ensures var (after, outcome) := Commit(db, dir, r, p.version, p.mailbox, p.plan, p.stamp);
            outcome == Updated && UpdateLeaves(db, after, r)
  {
    hide Commit, AttachesWhatItNames, UsesUpItsUploads, Attached, Consume, UploadValid, PlanCurrent, PlanSettled;
    UpdateWrites(db, dir, r, p);
    PlannedUpdate(db, dir, r, p);
    var after := Commit(db, dir, r, p.version, p.mailbox, p.plan, p.stamp).0;
    AttachedIsNamed(db, after, r, p.plan.removed, p.plan.taken, p.stamp);
    ConsumedIsNamed(db, after, r, p.plan.taken);
  }

  /**
   Main result: in every run, an update that is accepted found the user's draft at the version it names, in the mailbox
   it names, and has left there its own content, recipients and attachments under a new version, and nothing else.
   */
  lemma UpdateAnswered(dir: Directory, s: State, actions: seq<Action>, a: Action, c: nat)
    requires Initial(s) && AcceptedIn(dir, Run(dir, s, actions), a, c) && Run(dir, s, actions).calls[c].request.Update?
    ensures var before := Run(dir, s, actions);
            var after := Apply(dir, before, a);
            c in after.calls && after.calls[c].phase == Done(Updated)
            && UpdateLeaves(before.db, after.db, before.calls[c].request)
  {
    AcceptedInRun(dir, s, actions, a, c);
    var before := Run(dir, s, actions);
    hide Apply, Run, Initial, Commit, Knows, AcceptedIn, UpdateLeaves;
    UpdateTakesEffect(before.db, dir, before.calls[c].request, before.calls[c].phase);
  }

  // ------------------------------------------------------------------ keyed calls

  /** `t` is one of the recipients of the draft, of any kind. */
  predicate Addressed(db: Db, d: Id, t: Recipient) {
    d in db.recipients && t in db.recipients[d]
  }

  /** Some recipient of the draft, of any kind, has no active mailbox here. */
  ghost predicate GoesOutside(db: Db, dir: Directory, d: Id) {
    exists t :: Addressed(db, d, t) && t.address !in dir.active
  }

  /** `loadRecipients`, said of the rows. */
  lemma WhoIsAddressed(db: Db, dir: Directory, d: Id)
    ensures External(dir, Recipients(db, d)) <==> GoesOutside(db, dir, d)
    ensures HasTo(Recipients(db, d)) <==> exists t :: Addressed(db, d, t) && t.kind == To
    ensures forall m :: m in Internal(dir, Recipients(db, d)) <==>
              exists t :: Addressed(db, d, t) && t.address in dir.active && dir.active[t.address] == m
  {
    assert forall t :: t in Recipients(db, d) <==> Addressed(db, d, t);
  }

  /** The response is on record under this key, which was free; `hash` is what the record compares requests by. */
  predicate OnRecord(before: Db, after: Db, key: RecordKey, response: Response) {
    key !in before.records && key in after.records && after.records == before.records[key := after.records[key]]
    && after.records[key].response == response && !after.records[key].expired
  }

  /** The sender's link went from drafts to sent, and every active mailbox addressed has the message in its inbox. */
  ghost predicate FiledAsSent(before: Db, after: Db, dir: Directory, d: Id, mailbox: Id) {
    forall l :: l in after.links <==>
      (l in before.links && l != Link(mailbox, d, Drafts))
      || (l == Link(mailbox, d, SentFolder) && Link(mailbox, d, Drafts) in before.links)
      || (l.message == d && l.folder == Inbox
         && exists t :: Addressed(before, d, t) && t.address in dir.active && dir.active[t.address] == l.mailbox)
  }

  lemma DeliverFiles(before: Db, after: Db, dir: Directory, d: Id, mailbox: Id)
    requires after.links == Deliver(before.links, d, mailbox, Internal(dir, Recipients(before, d)))
    ensures FiledAsSent(before, after, dir, d, mailbox)
  {
    hide Recipients, Internal;
    WhoIsAddressed(before, dir, d);
    forall l: Link
      ensures l in after.links <==>
              (l in before.links && l != Link(mailbox, d, Drafts))
              || (l == Link(mailbox, d, SentFolder) && Link(mailbox, d, Drafts) in before.links)
              || (l.message == d && l.folder == Inbox && l.mailbox in Internal(dir, Recipients(before, d)))
    {
      assert l == Link(l.mailbox, l.message, l.folder);
    }
  }

  /**
   Somebody is addressed with To.  With a recipient of any kind that has no active mailbox here, the domain has a
   provider, the message is queued, and there is one new job, pending, unlocked and due now; otherwise the message is
   sent and no job made.
   */
  ghost predicate SendLeaves(before: Db, after: Db, dir: Directory, r: Request, response: Response)
    requires r.Send?
  {
    var d := r.draft;
    FindsDraft(before, r) && d in after.messages && IsNewVersion(before, after.messages[d].version)
    && (exists t :: Addressed(before, d, t) && t.kind == To)
    && OnRecord(before, after, RecordKey(r.user, SendOp, r.key), response)
    && FiledAsSent(before, after, dir, d, before.messages[d].mailbox)
    && after == before.(messages := after.messages, links := after.links, jobs := after.jobs, records := after.records)
    && var m := before.messages[d];
       if GoesOutside(before, dir, d) then
         m.mailbox in dir.connections && response == SendResponse(d, Queued)
         && after.messages == before.messages[d := m.(
              status := Queued, version := after.messages[d].version, sentAt := None,
              provider := Some(dir.connections[m.mailbox]))]
         && d !in before.jobs && d in after.jobs
         && after.jobs == before.jobs[d := Job(after.jobs[d].id, Pending, before.now, None, false)]
       else
         response == SendResponse(d, Sent)
         && after.messages == before.messages[d := m.(
              status := Sent, version := after.messages[d].version, sentAt := Some(before.now), provider := None)]
         && after.jobs == before.jobs
  }

  lemma SendFiles(db: Db, dir: Directory, r: Request, p: Phase)
    requires r.Send? && Knows(db, dir, r, p)
    requires Accepted(Commit(db, dir, r, p.version, p.mailbox, p.plan, p.stamp).1)
    ensures r.draft in db.messages
            && FiledAsSent(db, Commit(db, dir, r, p.version, p.mailbox, p.plan, p.stamp).0, dir, r.draft,
                           db.messages[r.draft].mailbox)
  {
    hide FiledAsSent, Deliver, Recipients, Internal;
    DeliverFiles(db, Commit(db, dir, r, p.version, p.mailbox, p.plan, p.stamp).0, dir, r.draft, p.mailbox);
  }

  lemma SendTakesEffect(db: Db, dir: Directory, r: Request, p: Phase)
    requires r.Send? && Knows(db, dir, r, p)
    requires Accepted(Commit(db, dir, r, p.version, p.mailbox, p.plan, p.stamp).1)
    ensures var (after, outcome) := Commit(db, dir, r, p.version, p.mailbox, p.plan, p.stamp);
            outcome.Responded? && SendLeaves(db, after, dir, r, outcome.response)
  {
    SendFiles(db, dir, r, p);
    WhoIsAddressed(db, dir, r.draft);
    hide FiledAsSent, Deliver, Recipients, Internal, External, HasTo, GoesOutside;
  }

  /**
   Main result: in every run, a send that is answered found the user's draft at the version it names, and answers
   `queued` if and only if a recipient of any kind has no active mailbox here; what it then leaves, and what it leaves
   otherwise, is `SendLeaves`, and nothing else has changed.
   */
  lemma SendAnswered(dir: Directory, s: State, actions: seq<Action>, a: Action, c: nat)
    requires Initial(s) && AcceptedIn(dir, Run(dir, s, actions), a, c) && Run(dir, s, actions).calls[c].request.Send?
    ensures var before := Run(dir, s, actions);
            var after := Apply(dir, before, a);
            c in after.calls && after.calls[c].phase.Done? && after.calls[c].phase.outcome.Responded?
            && SendLeaves(before.db, after.db, dir, before.calls[c].request, after.calls[c].phase.outcome.response)
  {
    AcceptedInRun(dir, s, actions, a, c);
    var before := Run(dir, s, actions);
    hide Apply, Run, Initial, Commit, Knows, AcceptedIn, SendLeaves;
    SendTakesEffect(before.db, dir, before.calls[c].request, before.calls[c].phase);
  }

  /**
   Somebody is addressed with To, the instant is within the window, and there was no job or a pending one, which is now
   pending at that instant.  With a recipient of any kind that has no active mailbox here, the row names the provider of
   the domain, which has one; otherwise none.
   */
  ghost predicate ScheduleLeaves(before: Db, after: Db, dir: Directory, r: Request, response: Response)
    requires r.Schedule?
  {
    var d := r.draft;
    FindsDraft(before, r) && d in after.messages && IsNewVersion(before, after.messages[d].version)
    && response == ScheduleResponse(d, r.instant, after.messages[d].version)
    && (exists t :: Addressed(before, d, t) && t.kind == To)
    && MIN_LEAD_MS <= r.instant - r.clock < MAX_LEAD_MS
    && OnRecord(before, after, RecordKey(r.user, ScheduleOp, r.key), response)
    && after == before.(messages := after.messages, jobs := after.jobs, records := after.records)
    && (var m := before.messages[d];
        if GoesOutside(before, dir, d) then
          m.mailbox in dir.connections
          && after.messages == before.messages[d := m.(
               version := after.messages[d].version, provider := Some(dir.connections[m.mailbox]))]
        else
          after.messages == before.messages[d := m.(version := after.messages[d].version, provider := None)])
    && d in after.jobs && after.jobs == before.jobs[d := after.jobs[d]]
    && if d in before.jobs then
         before.jobs[d].status == Pending
         && after.jobs[d] == before.jobs[d].(availableAt := r.instant, scheduled := true)
       else after.jobs[d] == Job(after.jobs[d].id, Pending, r.instant, None, true)
  }

  lemma ScheduleTakesEffect(db: Db, dir: Directory, r: Request, p: Phase)
    requires r.Schedule? && Knows(db, dir, r, p)
    requires Accepted(Commit(db, dir, r, p.version, p.mailbox, p.plan, p.stamp).1)
    ensures var (after, outcome) := Commit(db, dir, r, p.version, p.mailbox, p.plan, p.stamp);
            outcome.Responded? && ScheduleLeaves(db, after, dir, r, outcome.response)
  {
    WhoIsAddressed(db, dir, r.draft);
    hide Recipients, External, HasTo, GoesOutside;
  }

  /**
   Main result: in every run, a schedule that is answered found the user's draft at the version it names and leaves
   `ScheduleLeaves`: its job pending at the instant asked for, its row with a new version, which the answer names, and
   with the provider it needs; the answer is on record, and nothing else has changed.
   */
  lemma ScheduleAnswered(dir: Directory, s: State, actions: seq<Action>, a: Action, c: nat)
    requires Initial(s) && AcceptedIn(dir, Run(dir, s, actions), a, c)
             && Run(dir, s, actions).calls[c].request.Schedule?
    ensures var before := Run(dir, s, actions);
            var after := Apply(dir, before, a);
            c in after.calls && after.calls[c].phase.Done? && after.calls[c].phase.outcome.Responded?
            && ScheduleLeaves(before.db, after.db, dir, before.calls[c].request, after.calls[c].phase.outcome.response)
  {
    AcceptedInRun(dir, s, actions, a, c);
    var before := Run(dir, s, actions);
    hide Apply, Run, Initial, Commit, Knows, AcceptedIn, ScheduleLeaves;
    ScheduleTakesEffect(before.db, dir, before.calls[c].request, before.calls[c].phase);
  }

  /**
   A cancel answered with "cancelled" found a pending or enqueued job and leaves none, and a new version on the row; one
   answered otherwise has touched no job and no message.
   */
  ghost predicate CancelLeaves(before: Db, after: Db, r: Request, response: Response)
    requires r.Cancel?
  {
    var d := r.draft;
    r.ifMatch.Some? && response.CancelResponse?
    && OnRecord(before, after, RecordKey(r.user, CancelOp, r.key), response)
    && after == before.(messages := after.messages, jobs := after.jobs, records := after.records)
    && if response.cancelled then
         FindsDraft(before, r) && d in after.messages && IsNewVersion(before, after.messages[d].version)
         && response == CancelResponse(d, true, after.messages[d].version)
         && d in before.jobs && before.jobs[d].status in {Pending, Enqueued} && after.jobs == before.jobs - {d}
         && after.messages == before.messages[d := before.messages[d].(version := after.messages[d].version)]
       else
         response == CancelResponse(d, false, r.ifMatch.value.version)
         && after.jobs == before.jobs && after.messages == before.messages
  }

  lemma CancelTakesEffect(db: Db, dir: Directory, r: Request, p: Phase)
    requires r.Cancel? && Knows(db, dir, r, p)
    requires Accepted(Commit(db, dir, r, p.version, p.mailbox, p.plan, p.stamp).1)
    ensures var (after, outcome) := Commit(db, dir, r, p.version, p.mailbox, p.plan, p.stamp);
            outcome.Responded? && CancelLeaves(db, after, r, outcome.response)
            && (outcome.response.cancelled <==> p.plan.CancelPlan?)
  {
  }

  /** Main result: in every run, a cancel that is answered leaves `CancelLeaves`, and nothing else has changed. */
  lemma CancelAnswered(dir: Directory, s: State, actions: seq<Action>, a: Action, c: nat)
    requires Initial(s) && AcceptedIn(dir, Run(dir, s, actions), a, c) && Run(dir, s, actions).calls[c].request.Cancel?
    ensures var before := Run(dir, s, actions);
            var after := Apply(dir, before, a);
            c in after.calls && after.calls[c].phase.Done? && after.calls[c].phase.outcome.Responded?
            && CancelLeaves(before.db, after.db, before.calls[c].request, after.calls[c].phase.outcome.response)
  {
    AcceptedInRun(dir, s, actions, a, c);
    var before := Run(dir, s, actions);
    hide Apply, Run, Initial, Commit, Knows, AcceptedIn, CancelLeaves;
    CancelTakesEffect(before.db, dir, before.calls[c].request, before.calls[c].phase);
  }

  // ------------------------------------------------------------------ asking again

  predicate IsA(operation: Operation, r: Request) {
    match operation
    case SendOp => r.Send?
    case ScheduleOp => r.Schedule?
    case CancelOp => r.Cancel?
  }

  /** Two requests for one operation ask for the same: same draft, same If-Match, same instant. */
  predicate AsksTheSame(one: Request, other: Request) {
    one.draft == other.draft && one.ifMatch == other.ifMatch
    && (one.Schedule? && other.Schedule? ==> one.instant == other.instant)
  }

  lemma HashedAlike(one: Request, other: Request, operation: Operation)
    requires IsA(operation, one) && IsA(operation, other)
    ensures FingerprintOf(one) == FingerprintOf(other) <==> AsksTheSame(one, other)
    ensures KeyOf(one) == RecordKey(one.user, operation, one.key)
  {
  }

  /** In the step `a` after the run, the call `c`, which asks `r`, is answered with `response`. */
  ghost predicate IsAnswered(dir: Directory, s: State, actions: seq<Action>, a: Action, c: nat, r: Request,
      response: Response)
  {
    Initial(s) && AcceptedIn(dir, Run(dir, s, actions), a, c)
    && Run(dir, s, actions).calls[c].request == r
    && Apply(dir, Run(dir, s, actions), a).calls[c].phase == Done(Responded(response))
  }

  /**
   Main result: from the answer to a keyed call on, for as long as its record lives, a call of the same user for the
   same operation under the same key is answered when it begins: with that answer if it asks for the same, and with
   KeyReused if not.
   */
  lemma RetryAnswered(dir: Directory, s: State, actions: seq<Action>, a: Action, c: nat, r: Request,
      response: Response, operation: Operation, more: seq<Action>, k: nat, q: Request)
    requires IsAnswered(dir, s, actions, a, c, r, response) && IsA(operation, r)
    requires IsA(operation, q) && q.user == r.user && q.key == r.key
    requires Env(RecordExpired(RecordKey(r.user, operation, r.key))) !in more
    requires k !in Run(dir, Apply(dir, Run(dir, s, actions), a), more).calls
    ensures var before := Run(dir, Apply(dir, Run(dir, s, actions), a), more);
            var after := Apply(dir, before, Begins(k, q));
            after.db == before.db && k in after.calls
            && after.calls[k].phase == Done(if AsksTheSame(r, q) then Replayed(response) else Refused(KeyReused))
  {
    AcceptedInRun(dir, s, actions, a, c);
    RunKeepsInv(dir, s, actions);
    var before := Run(dir, s, actions);
    StepKeepsInv(dir, before, a);
    var p := before.calls[c].phase;
    var middle := Apply(dir, before, a);
    AcceptedIsRecorded(before.db, dir, r, p.version, p.mailbox, p.plan, p.stamp);
    HashedAlike(r, q, operation);
    HashedAlike(q, r, operation);
    var record := Record(FingerprintOf(r), response, false);
    hide Apply, Run, Initial, Commit, Knows, AcceptedIn, Inv, FingerprintOf, KeyOf;
    SameKeySameAnswer(dir, middle, more, RecordKey(r.user, operation, r.key), record, k, q, 0);
  }
}
