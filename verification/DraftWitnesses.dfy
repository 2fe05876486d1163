/**
 Runs that end where the comments in drafts.ts and the documentation say no run can end.  Each starts from one draft of
 user 0 in mailbox 0, addressed to someone outside, and uses only actions of DraftProtocol.
 */
module DraftWitnesses {
  import opened DraftTables
  import opened DraftCalls
  import opened DraftProtocol
  import opened DraftDelivery
  import opened Options

  const DIR := Directory({(0, 0)}, map[], map[0 := 0])

  const ROW := Message(Content("", "", ""), Draft, Clock(0), 0, 0, None, None)

  function Start(jobs: map<Id, Job>): State {
    State(Db(map[1 := ROW], map[1 := [Recipient(To, "x")]], map[], map[], {Link(0, 1, Drafts)}, jobs, map[], 0), map[],
        2, [], multiset{})
  }

  lemma StartIsInitial(jobs: map<Id, Job>)
    ensures Initial(Start(jobs))
  {
  }

  function If(version: Version): Option<IfMatch> {
    Some(IfMatch(version, false))
  }

  ghost predicate Reaches(dir: Directory, s: State, end: State) {
    exists actions :: Run(dir, s, actions) == end
  }

  lemma Here(dir: Directory, s: State)
    ensures Reaches(dir, s, s)
  {
    assert Run(dir, s, []) == s;
  }

  lemma OneStep(dir: Directory, s: State, t: State, a: Action)
    requires Reaches(dir, s, t)
    ensures Reaches(dir, s, Apply(dir, t, a))
  {
    hide Apply;
    var actions :| Run(dir, s, actions) == t;
    var longer := actions + [a];
    assert longer[..|actions|] == actions;
    assert Run(dir, s, longer) == Apply(dir, t, a);
  }

  /** Begin, read and load: the call is ready for its commit. */
  lemma Prepare(dir: Directory, s: State, t: State, c: nat, r: Request, phase: Phase) returns (u: State)
    requires Reaches(dir, s, t) && c !in t.calls && Begin(t.db, r).Started? && ReadDraft(t.db, dir, r).HaveDraft?
    requires phase == Load(t.db, dir, r, ReadDraft(t.db, dir, r).version, ReadDraft(t.db, dir, r).mailbox, t.supply)
    ensures Reaches(dir, s, u)
    ensures u == t.(calls := t.calls[c := Call(r, phase)], supply := t.supply + 1)
  {
    hide Reaches, Load, ReadDraft, Begin;
    var t1 := Apply(dir, t, Begins(c, r));
    OneStep(dir, s, t, Begins(c, r));
    var t2 := Apply(dir, t1, Reads(c));
    OneStep(dir, s, t1, Reads(c));
    u := Apply(dir, t2, Loads(c));
    OneStep(dir, s, t2, Loads(c));
    assert u.calls == t.calls[c := Call(r, phase)];
  }

  lemma Finish(dir: Directory, s: State, t: State, c: nat, db: Db, outcome: Outcome) returns (u: State)
    requires Reaches(dir, s, t) && c in t.calls && Committable(t.calls[c])
    requires var p := t.calls[c].phase;
             Commit(t.db, dir, t.calls[c].request, p.version, p.mailbox, p.plan, p.stamp) == (db, outcome)
    ensures Reaches(dir, s, u)
    ensures u == t.(db := db, calls := t.calls[c := t.calls[c].(phase := Done(outcome))], log := u.log)
  {
    hide Reaches, Commit, Clean;
    u := Apply(dir, t, Commits(c));
    OneStep(dir, s, t, Commits(c));
  }

  lemma Select(dir: Directory, s: State, t: State, d: Id) returns (u: State)
    requires Reaches(dir, s, t) && Selectable(t.db, d)
    ensures Reaches(dir, s, u) && u == t.(picked := t.picked + multiset{(d, t.db.jobs[d].id)})
  {
    hide Reaches;
    u := Apply(dir, t, Selects(d));
    OneStep(dir, s, t, Selects(d));
  }

  lemma Happen(dir: Directory, s: State, t: State, e: Effect, db: Db) returns (u: State)
    requires Reaches(dir, s, t) && Allowed(t, e) && Happens(t.db, e) == db
    ensures Reaches(dir, s, u) && u.db == db && u.calls == t.calls && u.supply == Later(e, t.supply)
  {
    hide Reaches, Happens, Apply;
    u := Apply(dir, t, Env(e));
    EnvStep(dir, t, e);
    OneStep(dir, s, t, Env(e));
  }

  // ------------------------------------------------------------------ a stale cancel

  const STALE := Cancel(0, 1, If(Clock(0)), "a")
  const CANCEL := Cancel(0, 1, If(Clock(0)), "b")
  const SEND := Send(0, 1, If(Stamp(3)), "c")

  const SCHEDULED := Start(map[1 := Job(0, Pending, 0, None, true)]).db
  const CANCELLED := SCHEDULED.(
    messages := map[1 := ROW.(version := Stamp(3))], jobs := map[],
    records := map[KeyOf(CANCEL) := RecordOf(CANCEL, Clock(0), CancelPlan, 3)])
  const SENT := CANCELLED.(
    messages := map[1 := ROW.(version := Stamp(4), status := Queued, provider := Some(0))],
        links := {Link(0, 1, SentFolder)},
    jobs := map[1 := Job(4, Pending, 0, None, false)],
    records := CANCELLED.records[KeyOf(SEND) := RecordOf(SEND, Stamp(3), SendPlan(true, {}), 4)])

  lemma CancelsLoad(r: Request, stamp: nat)
    requires r == STALE || r == CANCEL
    ensures Begin(SCHEDULED, r).Started? && ReadDraft(SCHEDULED, DIR, r) == HaveDraft(Clock(0), 0)
    ensures Load(SCHEDULED, DIR, r, Clock(0), 0, stamp) == Ready(Clock(0), 0, CancelPlan, stamp)
  {
  }

  lemma CancelCommits()
    ensures Commit(SCHEDULED, DIR, CANCEL, Clock(0), 0, CancelPlan, 3)
            == (CANCELLED, Responded(CancelResponse(1, true, Stamp(3))))
  {
    assert SCHEDULED.messages[1 := ROW.(version := Stamp(3))] == CANCELLED.messages;
  }

  lemma SendLoads()
    ensures Begin(CANCELLED, SEND).Started? && ReadDraft(CANCELLED, DIR, SEND) == HaveDraft(Stamp(3), 0)
    ensures Load(CANCELLED, DIR, SEND, Stamp(3), 0, 4) == Ready(Stamp(3), 0, SendPlan(true, {}), 4)
  {
    var x := Recipient(To, "x");
    assert Recipients(CANCELLED, 1) == [x] && x in [x];
    assert HasTo([x]) && External(DIR, [x]) && Internal(DIR, [x]) == {};
  }

  lemma SendCommits()
    ensures Commit(CANCELLED, DIR, SEND, Stamp(3), 0, SendPlan(true, {}), 4)
            == (SENT, Responded(SendResponse(1, Queued)))
  {
    assert Deliver(CANCELLED.links, 1, 0, {}) == SENT.links;
    assert CANCELLED.messages[1 := SENT.messages[1]] == SENT.messages;
  }

  lemma StaleCancelDeletes()
    ensures Commit(SENT, DIR, STALE, Clock(0), 0, CancelPlan, 2) == (SENT.(jobs := map[]), Refused(VersionConflict))
  {
  }

  /**
   A cancel that is told "version conflict" has deleted the outbound job of a message that another
   call has meanwhile sent: the message is queued, and in no run from there on will a job ever deliver it.
   */
  lemma StaleCancelLosesQueuedMail() returns (s: State, end: State, c: nat)
    ensures Initial(s) && Reaches(DIR, s, end)
    ensures c in end.calls && end.calls[c].phase == Done(Refused(VersionConflict))
    ensures 1 in end.db.messages && end.db.messages[1].status == Queued
    ensures forall actions :: 1 !in Run(DIR, end, actions).db.jobs
  {
    hide Lost, Run, Begin, ReadDraft, Load, Commit, Apply, Reaches, Initial, Unused;
    s := Start(SCHEDULED.jobs);
    c := 0;
    CancelsLoad(STALE, 2); CancelsLoad(CANCEL, 3); CancelCommits(); SendLoads(); SendCommits(); StaleCancelDeletes();
    StartIsInitial(SCHEDULED.jobs);
    Here(DIR, s);
    var t := Prepare(DIR, s, s, 0, STALE, Ready(Clock(0), 0, CancelPlan, 2));
    t := Prepare(DIR, s, t, 1, CANCEL, Ready(Clock(0), 0, CancelPlan, 3));
    t := Finish(DIR, s, t, 1, CANCELLED, Responded(CancelResponse(1, true, Stamp(3))));
    t := Prepare(DIR, s, t, 2, SEND, Ready(Stamp(3), 0, SendPlan(true, {}), 4));
    t := Finish(DIR, s, t, 2, SENT, Responded(SendResponse(1, Queued)));
    end := Finish(DIR, s, t, 0, SENT.(jobs := map[]), Refused(VersionConflict));
    CallsAreDone(end);
    forall actions ensures 1 !in Run(DIR, end, actions).db.jobs {
      LostForEver(DIR, end, actions, 1);
      LostHasNoJob(Run(DIR, end, actions), 1);
    }
  }

  lemma CallsAreDone(s: State)
    requires s.db == SENT.(jobs := map[]) && 1 < s.supply && forall c :: c in s.calls ==> s.calls[c].phase.Done?
    ensures Lost(s, 1)
  {
  }

  lemma LostHasNoJob(s: State, d: Id)
    requires Lost(s, d)
    ensures d !in s.db.jobs
  {
  }

  // ------------------------------------------------------------------ a schedule that loses to the dispatcher

  const LATER := Schedule(0, 1, If(Clock(0)), "a", 1_000_000, 0)
  const MARKED := SCHEDULED.(jobs := map[1 := Job(0, Enqueued, 0, None, true)])
  const ANSWER := RecordOf(LATER, Clock(0), SchedulePlan(Some(0)), 2)
  const BUMPED := MARKED.(messages := map[1 := ROW.(version := Stamp(2), provider := Some(0))],
      records := map[KeyOf(LATER) := ANSWER])
  const RETIMED := SCHEDULED.(
    messages := BUMPED.messages, records := BUMPED.records, jobs := map[1 := Job(0, Pending, 1_000_000, None, true)])

  lemma LaterLoads()
    ensures Begin(SCHEDULED, LATER).Started? && ReadDraft(SCHEDULED, DIR, LATER) == HaveDraft(Clock(0), 0)
    ensures Load(SCHEDULED, DIR, LATER, Clock(0), 0, 2) == Ready(Clock(0), 0, SchedulePlan(Some(0)), 2)
  {
    var x := Recipient(To, "x");
    assert Recipients(SCHEDULED, 1) == [x] && x in [x];
    assert HasTo([x]) && External(DIR, [x]);
  }

  lemma LaterCommits()
    ensures Commit(MARKED, DIR, LATER, Clock(0), 0, SchedulePlan(Some(0)), 2) == (BUMPED, Refused(AlreadyDispatched))
    ensures Commit(SCHEDULED, DIR, LATER, Clock(0), 0, SchedulePlan(Some(0)), 2)
            == (RETIMED, Responded(ANSWER.response))
  {
    assert MARKED.messages[1 := BUMPED.messages[1]] == BUMPED.messages;
    assert SCHEDULED.jobs[1 := RETIMED.jobs[1]] == RETIMED.jobs;
  }

  /**
   A schedule that is refused as already dispatched has bumped the version and recorded its success:
   the retry is told that the draft is scheduled at an instant no job carries.
   */
  lemma RefusedScheduleIsReplayedAsSuccess() returns (s: State, end: State)
    ensures Initial(s) && Reaches(DIR, s, end)
    ensures {0, 1} <= end.calls.Keys && end.calls[0].request == end.calls[1].request == LATER
    ensures end.calls[0].phase == Done(Refused(AlreadyDispatched))
    ensures 1 in end.db.messages
            && end.calls[1].phase == Done(Replayed(ScheduleResponse(1, LATER.instant, end.db.messages[1].version)))
    ensures 1 in end.db.jobs && end.db.jobs[1].availableAt != LATER.instant
  {
    hide ReadDraft, Load, Commit, Reaches, Initial, Unused, Apply, Happens;
    s := Start(SCHEDULED.jobs);
    LaterLoads(); LaterCommits(); StartIsInitial(SCHEDULED.jobs); Marks(SCHEDULED.jobs, MARKED.jobs);
    Here(DIR, s);
    var t := Prepare(DIR, s, s, 0, LATER, Ready(Clock(0), 0, SchedulePlan(Some(0)), 2));
    t := Select(DIR, s, t, 1);
    t := Happen(DIR, s, t, Marked(1, 0), MARKED);
    t := Finish(DIR, s, t, 0, BUMPED, Refused(AlreadyDispatched));
    OneStep(DIR, s, t, Begins(1, LATER));
    end := Apply(DIR, t, Begins(1, LATER));
    RepeatIsReplayed(t);
  }

  lemma Marks(jobs: map<Id, Job>, after: map<Id, Job>)
    requires 1 in jobs && jobs[1].id == 0 && jobs[1].status == Pending
             && after == jobs[1 := jobs[1].(status := Enqueued)]
    ensures forall db: Db :: db.jobs == jobs ==> Happens(db, Marked(1, 0)) == db.(jobs := after)
  {
  }

  lemma RepeatIsReplayed(t: State)
    requires t.db == BUMPED && 1 !in t.calls
    ensures Apply(DIR, t, Begins(1, LATER)) == t.(calls := t.calls[1 := Call(LATER, Done(Replayed(ANSWER.response)))])
  {
    hide Happens, ReadDraft, Load, Commit;
  }

  /**
   The dispatcher selects a due job, a schedule moves it to later and is accepted, and the dispatcher
   then marks it enqueued all the same: it is not due when the queue delivers it, and no longer pending.
   DraftDispatch says exactly when this happens.
   */
  lemma RescheduledJobIsEnqueued() returns (s: State, end: State)
    ensures Initial(s) && Reaches(DIR, s, end)
    ensures 0 in end.calls && end.calls[0].request == LATER && end.calls[0].phase.Done?
            && Accepted(end.calls[0].phase.outcome)
    ensures JobIs(end.db, 1, {Enqueued}) && end.db.jobs[1].availableAt == LATER.instant > end.db.now
    ensures !Claimable(end.db, 1, 0) && RecoverLocks(end.db) == end.db
  {
    hide ReadDraft, Load, Commit, Reaches, Initial, Unused, Apply, Happens;
    s := Start(SCHEDULED.jobs);
    var delayed := RETIMED.(jobs := map[1 := Job(0, Enqueued, 1_000_000, None, true)]);
    LaterLoads(); LaterCommits(); StartIsInitial(SCHEDULED.jobs); Marks(RETIMED.jobs, delayed.jobs);
    Here(DIR, s);
    var t := Prepare(DIR, s, s, 0, LATER, Ready(Clock(0), 0, SchedulePlan(Some(0)), 2));
    t := Select(DIR, s, t, 1);
    t := Finish(DIR, s, t, 0, RETIMED, Responded(ANSWER.response));
    end := Happen(DIR, s, t, Marked(1, 0), delayed);
    assert RecoverLocks(delayed).jobs == delayed.jobs;
  }

  // ------------------------------------------------------------------ mail that is delivered and stays queued

  const MAIL := Send(0, 1, If(Clock(0)), "c")
  const UNSENT := Start(map[]).db
  const HOLD := Lock(7, 100)
  const QUEUED := UNSENT.(
    messages := map[1 := ROW.(version := Stamp(2), status := Queued, provider := Some(0))],
        links := {Link(0, 1, SentFolder)},
    jobs := map[1 := Job(2, Pending, 0, None, false)],
    records := map[KeyOf(MAIL) := RecordOf(MAIL, Clock(0), SendPlan(true, {}), 2)])
  const CLAIMED := QUEUED.(jobs := map[1 := Job(2, Processing, 0, Some(HOLD), false)])
  const SETTLED := QUEUED.(jobs := map[1 := Job(2, JobStatus.Succeeded, 0, None, false)])
  const ABANDONED := QUEUED.(jobs := map[1 := Job(2, Abandoned, 0, None, false)])

  lemma MailLoads()
    ensures Begin(UNSENT, MAIL).Started? && ReadDraft(UNSENT, DIR, MAIL) == HaveDraft(Clock(0), 0)
    ensures Load(UNSENT, DIR, MAIL, Clock(0), 0, 2) == Ready(Clock(0), 0, SendPlan(true, {}), 2)
  {
    var x := Recipient(To, "x");
    assert Recipients(UNSENT, 1) == [x] && x in [x];
    assert HasTo([x]) && External(DIR, [x]) && Internal(DIR, [x]) == {};
  }

  lemma MailCommits()
    ensures Commit(UNSENT, DIR, MAIL, Clock(0), 0, SendPlan(true, {}), 2)
            == (QUEUED, Responded(SendResponse(1, Queued)))
  {
    assert Deliver(UNSENT.links, 1, 0, {}) == QUEUED.links;
    assert UNSENT.messages[1 := QUEUED.messages[1]] == QUEUED.messages;
  }

  lemma MailIsClaimed()
    ensures Happens(QUEUED, Claimed(1, 2, HOLD)) == CLAIMED
  {
    assert QUEUED.jobs[1 := CLAIMED.jobs[1]] == CLAIMED.jobs;
  }

  lemma MailIsDelivered()
    ensures Happens(CLAIMED, Completed(1, 2, 7, {})) == SETTLED
  {
    assert CLAIMED.jobs[1 := SETTLED.jobs[1]] == SETTLED.jobs;
    assert (set l | l in CLAIMED.links :: if l.message == 1
           && l.folder == Drafts then l.(folder := SentFolder) else l) == CLAIMED.links;
  }

  lemma MailIsGivenUp()
    ensures Happens(CLAIMED, GaveUp(1, 2, 7, false, 0)) == ABANDONED
  {
    assert CLAIMED.jobs[1 := ABANDONED.jobs[1]] == ABANDONED.jobs;
  }

  /** An external message is sent and claimed. */
  lemma MailIsTaken() returns (s: State, t: State)
    ensures Initial(s) && Reaches(DIR, s, t) && t.db == CLAIMED
  {
    hide Begin, ReadDraft, Load, Commit, Apply, Reaches, Initial, Unused, Happens;
    s := Start(map[]);
    MailLoads(); MailCommits(); MailIsClaimed(); StartIsInitial(map[]);
    Here(DIR, s);
    t := Prepare(DIR, s, s, 0, MAIL, Ready(Clock(0), 0, SendPlan(true, {}), 2));
    t := Finish(DIR, s, t, 0, QUEUED, Responded(SendResponse(1, Queued)));
    t := Happen(DIR, s, t, Claimed(1, 2, HOLD), CLAIMED);
  }

  /** The provider takes an external message, its job succeeds, and the message is still queued. */
  lemma DeliveredMailStaysQueued() returns (s: State, end: State)
    ensures Initial(s) && Reaches(DIR, s, end)
    ensures JobIs(end.db, 1, {JobStatus.Succeeded}) && 1 in end.db.messages && end.db.messages[1].status == Queued
  {
    hide Apply, Reaches, Initial, Happens;
    var t: State;
    s, t := MailIsTaken();
    MailIsDelivered();
    end := Happen(DIR, s, t, Completed(1, 2, 7, {}), SETTLED);
  }

  /** The provider refuses it for good, its job is abandoned, and the message is still queued. */
  lemma FailedMailStaysQueued() returns (s: State, end: State)
    ensures Initial(s) && Reaches(DIR, s, end)
    ensures JobIs(end.db, 1, {Abandoned}) && 1 in end.db.messages && end.db.messages[1].status == Queued
  {
    hide Apply, Reaches, Initial, Happens;
    var t: State;
    s, t := MailIsTaken();
    MailIsGivenUp();
    end := Happen(DIR, s, t, GaveUp(1, 2, 7, false, 0), ABANDONED);
  }

  // ------------------------------------------------------------------ a draft edited while it is delivered

  const PROCESSING := SCHEDULED.(jobs := map[1 := Job(0, Processing, 0, Some(HOLD), true)])
  const REWRITE := Update(0, 1, If(Clock(0)), Input(0, Content("b", "", ""), [Recipient(To, "x")], []))
  const REWRITTEN := PROCESSING.(messages := map[1 := ROW.(content := Content("b", "", ""), version := Stamp(2))])
  const SENT_ANYWAY := PROCESSING.(
    messages := map[1 := ROW.(content := Content("b", "", ""), version := Clock(0), status := Sent, sentAt := Some(0))],
    links := {Link(0, 1, SentFolder)}, jobs := map[1 := Job(0, JobStatus.Succeeded, 0, None, true)])

  lemma DraftIsClaimed()
    ensures Happens(SCHEDULED, Claimed(1, 0, HOLD)) == PROCESSING
  {
    assert SCHEDULED.jobs[1 := PROCESSING.jobs[1]] == PROCESSING.jobs;
  }

  lemma RewriteLoads()
    ensures Begin(PROCESSING, REWRITE).Started? && ReadDraft(PROCESSING, DIR, REWRITE) == HaveDraft(Clock(0), 0)
    ensures Load(PROCESSING, DIR, REWRITE, Clock(0), 0, 2) == Ready(Clock(0), 0, UpdatePlan({}, map[]), 2)
  {
    assert UploadsUsable(PROCESSING, REWRITE);
    assert AttachmentsOf(PROCESSING, 1) - Kept(PROCESSING, 1, []) == {} && Taken(PROCESSING, []) == map[];
  }

  lemma NothingAttached(db: Db, stamp: nat, none: map<Id, FileInfo>)
    requires db.attachments == map[] && db.uploads == map[] && none == map[]
    ensures Attached(db, 1, {}, none, stamp) == map[] && Consume(db.uploads, none.Keys) == map[]
  {
  }

  lemma RewriteBatch()
    ensures UpdateBatch(PROCESSING, 0, 1, Clock(0), Content("b", "", ""), [Recipient(To, "x")], {}, map[], 2)
            == Applied(REWRITTEN, true, false)
  {
    hide Attached, Consume, UploadValid;
    assert PROCESSING.messages[1 := REWRITTEN.messages[1]] == REWRITTEN.messages;
    assert PROCESSING.recipients[1 := [Recipient(To, "x")]] == PROCESSING.recipients;
    NothingAttached(PROCESSING, 2, map[]);
  }

  lemma RewriteCommits()
    ensures Commit(PROCESSING, DIR, REWRITE, Clock(0), 0, UpdatePlan({}, map[]), 2) == (REWRITTEN, Updated)
  {
    hide UpdateBatch, SendBatch, ScheduleBatch, CancelBatch, CancelNothing, RecordOf;
    RewriteBatch();
  }

  lemma RewriteIsSent()
    ensures Happens(REWRITTEN, Completed(1, 0, 7, {})) == SENT_ANYWAY
  {
    assert REWRITTEN.messages[1 := SENT_ANYWAY.messages[1]] == SENT_ANYWAY.messages;
    assert REWRITTEN.jobs[1 := SENT_ANYWAY.jobs[1]] == SENT_ANYWAY.jobs;
    var links := set l | l in REWRITTEN.links :: if l.message == 1
        && l.folder == Drafts then l.(folder := SentFolder) else l;
    assert Link(0, 1, Drafts) in REWRITTEN.links;
    assert links == SENT_ANYWAY.links;
  }

  /** A draft is updated after its job was claimed: what is kept as sent is not what the consumer had read. */
  lemma EditedWhileDelivered() returns (s: State, t: State, end: State)
    ensures Initial(s) && Reaches(DIR, s, t) && Reaches(DIR, t, end)
    ensures JobIs(t.db, 1, {Processing}) && JobIs(end.db, 1, {JobStatus.Succeeded}) && 1 in t.db.messages
            && 1 in end.db.messages
    ensures end.db.messages[1].status == Sent && end.db.messages[1].content != t.db.messages[1].content
  {
    hide Begin, ReadDraft, Load, Commit, Apply, Reaches, Initial, Unused, Happens;
    s := Start(SCHEDULED.jobs);
    DraftIsClaimed(); RewriteLoads(); RewriteCommits(); RewriteIsSent(); StartIsInitial(SCHEDULED.jobs);
    Here(DIR, s);
    t := Happen(DIR, s, s, Claimed(1, 0, HOLD), PROCESSING);
    Here(DIR, t);
    end := Prepare(DIR, t, t, 0, REWRITE, Ready(Clock(0), 0, UpdatePlan({}, map[]), 2));
    end := Finish(DIR, t, end, 0, REWRITTEN, Updated);
    end := Happen(DIR, t, end, Completed(1, 0, 7, {}), SENT_ANYWAY);
  }
}
