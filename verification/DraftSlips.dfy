/**
 Runs in which a call is accepted although it does not do what it does alone: one for each condition of
 DraftProtocol's `Clean`.  The draft is user 0's, in mailbox 0, and addressed to mailbox 5.
 */
module DraftSlips {
  import opened DraftTables
  import opened DraftCalls
  import opened DraftProtocol
  import opened DraftWitnesses
  import opened Options

  const LOCAL := Directory({(0, 0)}, map["x" := 5], map[0 := 0])
  const ADDRESSEE := Recipient(To, "x")

  const EDIT := Update(0, 1, If(Clock(0)), Input(0, Content("", "", ""), [ADDRESSEE], []))
  const BLANK := Start(map[]).db
  const EDITED := BLANK.(messages := map[1 := ROW.(version := Stamp(3))])

  /** A commit that is accepted but not clean is logged as a slip. */
  lemma FinishSlipped(s: State, t: State, c: nat, db: Db, outcome: Outcome) returns (u: State)
    requires Reaches(LOCAL, s, t) && c in t.calls && Committable(t.calls[c]) && db != t.db && Accepted(outcome)
    requires var (r, p) := (t.calls[c].request, t.calls[c].phase);
             Commit(t.db, LOCAL, r, p.version, p.mailbox, p.plan, p.stamp) == (db, outcome)
             && !Clean(t.db, r, p.version, p.mailbox, p.plan)
    ensures Reaches(LOCAL, s, u) && c in u.calls && u.calls[c].phase == Done(outcome) && u.db == db
    ensures u.log != [] && u.log[|u.log| - 1].Slipped? && u.log[|u.log| - 1].request == t.calls[c].request
  {
    hide Reaches, Commit, Clean;
    u := Apply(LOCAL, t, Commits(c));
    CommitStep(LOCAL, t, c);
    OneStep(LOCAL, s, t, Commits(c));
  }

  lemma EditLoads(stamp: nat)
    ensures Begin(BLANK, EDIT).Started? && ReadDraft(BLANK, LOCAL, EDIT) == HaveDraft(Clock(0), 0)
    ensures Load(BLANK, LOCAL, EDIT, Clock(0), 0, stamp) == Ready(Clock(0), 0, UpdatePlan({}, map[]), stamp)
  {
    assert UploadsUsable(BLANK, EDIT);
    assert AttachmentsOf(BLANK, 1) - Kept(BLANK, 1, []) == {} && Taken(BLANK, []) == map[];
  }

  lemma EditBatch(db: Db, stamp: nat)
    requires db == BLANK.(links := db.links)
    ensures UpdateBatch(db, 0, 1, Clock(0), Content("", "", ""), [ADDRESSEE], {}, map[], stamp)
            == Applied(db.(messages := map[1 := ROW.(version := Stamp(stamp))]), true, false)
  {
    hide Attached, Consume, UploadValid;
    var row := ROW.(version := Stamp(stamp));
    assert db.messages[1 := row] == map[1 := row] && db.recipients[1 := [ADDRESSEE]] == db.recipients;
    NothingAttached(db, stamp, map[]);
  }

  lemma EditCommits(db: Db, stamp: nat)
    requires db == BLANK.(links := db.links)
    ensures Commit(db, LOCAL, EDIT, Clock(0), 0, UpdatePlan({}, map[]), stamp)
            == (db.(messages := map[1 := ROW.(version := Stamp(stamp))]), Updated)
  {
    hide UpdateBatch, SendBatch, ScheduleBatch, CancelBatch, CancelNothing, RecordOf;
    EditBatch(db, stamp);
  }

  const MOVED := BLANK.(links := {Link(0, 1, Trash)})

  lemma MoveHappens()
    ensures Happens(BLANK, Moved(Link(0, 1, Drafts), Trash)) == MOVED
    ensures !Clean(MOVED, EDIT, Clock(0), 0, UpdatePlan({}, map[]))
  {
    assert BLANK.links - {Link(0, 1, Drafts)} + {Link(0, 1, Trash)} == MOVED.links;
  }

  /** The draft is moved out of drafts between an update's read and its commit: the update is accepted all the same. */
  lemma MovedDraftIsUpdated() returns (s: State, end: State)
    ensures Initial(s) && Reaches(LOCAL, s, end) && 0 in end.calls && end.calls[0].phase == Done(Updated)
    ensures end.log != [] && end.log[|end.log| - 1].Slipped? && end.log[|end.log| - 1].request == EDIT
    ensures end.db.links == {Link(0, 1, Trash)} && 1 in end.db.messages && end.db.messages[1].version == Stamp(2)
  {
    hide Begin, ReadDraft, Load, Commit, Reaches, Initial, Unused, Apply, Happens;
    s := Start(map[]);
    EditLoads(2); EditCommits(MOVED, 2); StartIsInitial(map[]); MoveHappens();
    Here(LOCAL, s);
    var t := Prepare(LOCAL, s, s, 0, EDIT, Ready(Clock(0), 0, UpdatePlan({}, map[]), 2));
    t := Happen(LOCAL, s, t, Moved(Link(0, 1, Drafts), Trash), MOVED);
    var edited := MOVED.(messages := map[1 := ROW.(version := Stamp(2))]);
    assert edited.messages[1] != MOVED.messages[1];
    end := FinishSlipped(s, t, 0, edited, Updated);
  }

  // ------------------------------------------------------------------ a stale schedule

  const STALE_SCHEDULE := Schedule(0, 1, If(Clock(0)), "a", 1_000_000, 0)
  const HAUNTED := EDITED.(jobs := map[1 := Job(2, Pending, 1_000_000, None, true)])

  lemma IsLocal(db: Db)
    requires Recipients(db, 1) == [ADDRESSEE]
    ensures HasTo(Recipients(db, 1)) && !External(LOCAL, Recipients(db, 1)) && Internal(LOCAL, Recipients(db, 1)) == {5}
  {
    assert ADDRESSEE in [ADDRESSEE] && ADDRESSEE.address in LOCAL.active && LOCAL.active["x"] == 5;
    assert forall r :: r in [ADDRESSEE] ==> r == ADDRESSEE;
  }

  lemma StaleScheduleLoads()
    ensures Begin(BLANK, STALE_SCHEDULE).Started? && ReadDraft(BLANK, LOCAL, STALE_SCHEDULE) == HaveDraft(Clock(0), 0)
    ensures Load(BLANK, LOCAL, STALE_SCHEDULE, Clock(0), 0, 2) == Ready(Clock(0), 0, SchedulePlan(None), 2)
  {
    IsLocal(BLANK);
    hide HasTo, External, Internal;
  }

  lemma StaleScheduleCommits()
    ensures Commit(EDITED, LOCAL, STALE_SCHEDULE, Clock(0), 0, SchedulePlan(None), 2)
            == (HAUNTED, Refused(VersionConflict))
  {
    assert EDITED.jobs[1 := HAUNTED.jobs[1]] == HAUNTED.jobs;
  }

  /** A schedule has read the draft, and an update has then changed it. */
  lemma ScheduleGoesStale() returns (s: State, t: State)
    ensures Initial(s) && Reaches(LOCAL, s, t) && t.db == EDITED && t.supply == 4 && t.calls.Keys == {0, 1}
    ensures t.calls[0] == Call(STALE_SCHEDULE, Ready(Clock(0), 0, SchedulePlan(None), 2))
  {
    hide Begin, ReadDraft, Load, Commit, Reaches, Initial, Unused, Apply;
    s := Start(map[]);
    StaleScheduleLoads(); EditLoads(3); EditCommits(BLANK, 3); StartIsInitial(map[]);
    Here(LOCAL, s);
    t := Prepare(LOCAL, s, s, 0, STALE_SCHEDULE, Ready(Clock(0), 0, SchedulePlan(None), 2));
    t := Prepare(LOCAL, s, t, 1, EDIT, Ready(Clock(0), 0, UpdatePlan({}, map[]), 3));
    t := Finish(LOCAL, s, t, 1, EDITED, Updated);
  }

  const LOCAL_SEND := Send(0, 1, If(Stamp(3)), "c")
  const DELIVERED := HAUNTED.(
    messages := map[1 := ROW.(version := Stamp(4), status := Sent, sentAt := Some(0))],
    links := {Link(0, 1, SentFolder), Link(5, 1, Inbox)},
    records := map[KeyOf(LOCAL_SEND) := RecordOf(LOCAL_SEND, Stamp(3), SendPlan(false, {5}), 4)])

  lemma LocalSendLoads()
    ensures Begin(EDITED, LOCAL_SEND).Started? && ReadDraft(EDITED, LOCAL, LOCAL_SEND) == HaveDraft(Stamp(3), 0)
    ensures Load(EDITED, LOCAL, LOCAL_SEND, Stamp(3), 0, 4) == Ready(Stamp(3), 0, SendPlan(false, {5}), 4)
  {
    IsLocal(EDITED);
    hide HasTo, External, Internal;
  }

  lemma LocalSendCommits()
    ensures Commit(HAUNTED, LOCAL, LOCAL_SEND, Stamp(3), 0, SendPlan(false, {5}), 4)
            == (DELIVERED, Responded(SendResponse(1, Sent)))
  {
    assert Deliver(HAUNTED.links, 1, 0, {5}) == DELIVERED.links;
    assert HAUNTED.messages[1 := DELIVERED.messages[1]] == DELIVERED.messages;
  }

  /** A draft addressed inside is sent while a refused schedule has left it a job: the sent message keeps a live job. */
  lemma InternalSendKeepsJob() returns (s: State, end: State)
    ensures Initial(s) && Reaches(LOCAL, s, end) && 2 in end.calls
            && end.calls[2].phase == Done(Responded(SendResponse(1, Sent)))
    ensures end.log != [] && end.log[|end.log| - 1].Slipped? && end.log[|end.log| - 1].request == LOCAL_SEND
    ensures 1 in end.db.messages && end.db.messages[1].status == Sent && JobIs(end.db, 1, {Pending})
  {
    hide Begin, ReadDraft, Load, Commit, Reaches, Initial, Apply;
    var t: State;
    s, t := ScheduleGoesStale();
    LocalSendLoads(); StaleScheduleCommits(); LocalSendCommits();
    t := Prepare(LOCAL, s, t, 2, LOCAL_SEND, Ready(Stamp(3), 0, SendPlan(false, {5}), 4));
    t := Finish(LOCAL, s, t, 0, HAUNTED, Refused(VersionConflict));
    end := FinishSlipped(s, t, 2, DELIVERED, Responded(SendResponse(1, Sent)));
  }

  const CHECK := Cancel(0, 1, If(Stamp(3)), "d")
  const MISSED := HAUNTED.(records := map[KeyOf(CHECK) := RecordOf(CHECK, Stamp(3), CancelNothingPlan, 4)])

  lemma CheckLoads()
    ensures Begin(EDITED, CHECK).Started? && ReadDraft(EDITED, LOCAL, CHECK) == HaveDraft(Stamp(3), 0)
    ensures Load(EDITED, LOCAL, CHECK, Stamp(3), 0, 4) == Ready(Stamp(3), 0, CancelNothingPlan, 4)
  {
  }

  lemma CheckCommits()
    ensures Commit(HAUNTED, LOCAL, CHECK, Stamp(3), 0, CancelNothingPlan, 4)
            == (MISSED, Responded(CancelResponse(1, false, Stamp(3))))
    ensures MISSED != HAUNTED
  {
  }

  /** A cancel finds no job, a refused schedule leaves one, and the cancel answers that there is nothing to cancel. */
  lemma CancelMissesJob() returns (s: State, end: State)
    ensures Initial(s) && Reaches(LOCAL, s, end)
    ensures 2 in end.calls && end.calls[2].phase == Done(Responded(CancelResponse(1, false, Stamp(3))))
    ensures end.log != [] && end.log[|end.log| - 1].Slipped? && end.log[|end.log| - 1].request == CHECK
    ensures RowMatches(end.db, 0, 1, Stamp(3)) && JobIs(end.db, 1, {Pending})
  {
    hide Begin, ReadDraft, Load, Commit, Reaches, Initial, Apply;
    var t: State;
    s, t := ScheduleGoesStale();
    CheckLoads(); StaleScheduleCommits(); CheckCommits();
    t := Prepare(LOCAL, s, t, 2, CHECK, Ready(Stamp(3), 0, CancelNothingPlan, 4));
    t := Finish(LOCAL, s, t, 0, HAUNTED, Refused(VersionConflict));
    end := FinishSlipped(s, t, 2, MISSED, Responded(CancelResponse(1, false, Stamp(3))));
  }

  const EARLY_CHECK := Cancel(0, 1, If(Clock(0)), "d")
  const OUTDATED := EDITED.(records := map[KeyOf(EARLY_CHECK) := RecordOf(EARLY_CHECK, Clock(0), CancelNothingPlan, 2)])

  lemma EarlyCheckLoads()
    ensures Begin(BLANK, EARLY_CHECK).Started? && ReadDraft(BLANK, LOCAL, EARLY_CHECK) == HaveDraft(Clock(0), 0)
    ensures Load(BLANK, LOCAL, EARLY_CHECK, Clock(0), 0, 2) == Ready(Clock(0), 0, CancelNothingPlan, 2)
  {
  }

  lemma EarlyCheckCommits()
    ensures Commit(EDITED, LOCAL, EARLY_CHECK, Clock(0), 0, CancelNothingPlan, 2)
            == (OUTDATED, Responded(CancelResponse(1, false, Clock(0))))
    ensures OUTDATED != EDITED
  {
  }

  /** A cancel that found no job answers with a version that an update has replaced by then. */
  lemma CancelMissesUpdate() returns (s: State, end: State)
    ensures Initial(s) && Reaches(LOCAL, s, end)
    ensures 0 in end.calls && end.calls[0].phase == Done(Responded(CancelResponse(1, false, Clock(0))))
    ensures end.log != [] && end.log[|end.log| - 1].Slipped? && end.log[|end.log| - 1].request == EARLY_CHECK
    ensures 1 in end.db.messages && end.db.messages[1].version != Clock(0) && 1 !in end.db.jobs
  {
    hide Begin, ReadDraft, Load, Commit, Reaches, Initial, Unused, Apply;
    s := Start(map[]);
    EarlyCheckLoads(); EditLoads(3); EditCommits(BLANK, 3); EarlyCheckCommits(); StartIsInitial(map[]);
    Here(LOCAL, s);
    var t := Prepare(LOCAL, s, s, 0, EARLY_CHECK, Ready(Clock(0), 0, CancelNothingPlan, 2));
    t := Prepare(LOCAL, s, t, 1, EDIT, Ready(Clock(0), 0, UpdatePlan({}, map[]), 3));
    t := Finish(LOCAL, s, t, 1, EDITED, Updated);
    end := FinishSlipped(s, t, 0, OUTDATED, Responded(CancelResponse(1, false, Clock(0))));
  }
}
