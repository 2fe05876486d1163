/**
 Any number of draft calls, the dispatcher, and the rest of the worker, interleaved.

 A call moves through the phases of DraftCalls one action at a time.  What the rest of the worker does to these
 tables between two such actions is an `Effect`, which may happen at any time its statements let it.  The dispatcher
 marks a job enqueued only after it has selected it.  The log keeps what a serial observer would have to be told.
 */
module DraftProtocol {
  import opened DraftTables
  import opened DraftCalls
  import opened Options

  datatype Call = Call(request: Request, phase: Phase)

  /** What happens outside the four calls. */
  datatype Effect =
    | Created(user: Id, draft: Id, mailbox: Id, content: Content, recipients: seq<Recipient>, taken: map<Id, FileInfo>)
    | Removed(user: Id, draft: Id)
    | Arrived(message: Id, row: Message, to: seq<Recipient>, files: map<Id, FileInfo>, folders: map<Id, Folder>,
        external: bool)
    | Reports(message: Id, status: string)
    | Emptied(link: Link)
    | Purged(message: Id)
    | Moved(link: Link, folder: Folder)
    | UploadChanged(upload: Id, becomes: Option<Upload>)
    | Marked(draft: Id, job: nat)
    | Claimed(draft: Id, job: nat, lock: Lock)
    | Completed(draft: Id, job: nat, token: nat, internal: set<Id>)
    | GaveUp(draft: Id, job: nat, token: nat, retryable: bool, retryAt: int)
    | LocksRecovered
    | Ticked(now: int)
    | RecordExpired(key: RecordKey)
    | RecordsCleaned

  datatype Action =
    | Begins(call: nat, request: Request)
    | Reads(call: nat)
    | Loads(call: nat)
    | Commits(call: nat)
    | Selects(draft: Id)
    | Env(effect: Effect)

  /** `Ran`: the batch did what the whole call does when it runs alone.  `Slipped`: it changed something else. */
  datatype Event =
    | Ran(request: Request, stamp: nat, plan: Plan, outcome: Outcome)
    | Slipped(request: Request, version: Version, mailbox: Id, plan: Plan, stamp: nat, bumped: bool)
    | Outside(effect: Effect)

  /** `picked`: the jobs that dispatchers have selected and not yet marked, by message and id. */
  datatype State = State(db: Db, calls: map<nat, Call>, supply: nat, log: seq<Event>, picked: multiset<(Id, nat)>)

  // ------------------------------------------------------------------ steps

  function Happens(db: Db, e: Effect): Db {
    match e
    case Created(user, draft, mailbox, content, recipients, taken) =>
      var batch := CreateDraft(db, user, draft, mailbox, content, recipients, taken);
      if batch.Applied? then batch.db else db
    case Removed(user, draft) => RemoveDraft(db, user, draft)
    case Arrived(message, row, to, files, folders, external) =>
      var batch := NewMessage(db, message, row, to, files, folders, external);
      if batch.Applied? then batch.db else db
    case Reports(message, status) => WriteStatus(db, message, status)
    case Emptied(link) => EmptyTrash(db, link)
    case Purged(message) => PurgeMessage(db, message)
    case Moved(link, folder) =>
      if link in db.links && folder != Drafts && folder != SentFolder
      then db.(links := db.links - {link} + {link.(folder := folder)}) else db
    case UploadChanged(upload, becomes) =>
      db.(uploads := if becomes.Some? then db.uploads[upload := becomes.value] else db.uploads - {upload})
    case Marked(draft, job) => MarkEnqueued(db, draft, job)
    case Claimed(draft, job, lock) => ClaimJob(db, draft, job, lock)
    case Completed(draft, job, token, internal) => CompleteJob(db, draft, job, token, internal)
    case GaveUp(draft, job, token, retryable, retryAt) => FailJob(db, draft, job, token, retryable, retryAt)
    case LocksRecovered => RecoverLocks(db)
    case Ticked(now) => if db.now <= now then db.(now := now) else db
    case RecordExpired(key) =>
      if key in db.records then db.(records := db.records[key := db.records[key].(expired := true)]) else db
    case RecordsCleaned => db.(records := map k | k in db.records && !db.records[k].expired :: db.records[k])
  }

  /** The guards under which a batch that reports success also means what its call means. */
  predicate Clean(db: Db, r: Request, version: Version, mailbox: Id, plan: Plan) {
    Link(mailbox, r.draft, Drafts) in db.links
    && match plan
       case UpdatePlan(_, _) => true
       case SendPlan(external, _) => external || !JobIs(db, r.draft, {Pending, Enqueued, Processing})
       case SchedulePlan(_) => true
       case CancelPlan => true
       case CancelNothingPlan => RowMatches(db, r.user, r.draft, version) && r.draft !in db.jobs
  }

  /** Whether the batch moved the draft's version. */
  predicate Bumps(plan: Plan, batch: Batch) {
    batch.Applied? && if plan.CancelPlan? then batch.second else batch.first
  }

  predicate Committable(call: Call) {
    call.phase.Ready? && PlanFits(call.request, call.phase.plan)
  }

  function Committed(dir: Directory, db: Db, call: Call): (Db, Outcome, seq<Event>)
    requires Committable(call)
  {
    var r, p := call.request, call.phase;
    var batch := BatchOf(db, dir, r, p.version, p.mailbox, p.plan, p.stamp);
    var (after, outcome) := Commit(db, dir, r, p.version, p.mailbox, p.plan, p.stamp);
    (after, outcome,
     if Accepted(outcome) && Clean(db, r, p.version, p.mailbox, p.plan) then [Ran(r, p.stamp, p.plan, outcome)]
     else if after != db then [Slipped(r, p.version, p.mailbox, p.plan, p.stamp, Bumps(p.plan, batch))]
     else [])
  }

  function Apply(dir: Directory, s: State, a: Action): State {
    match a
    case Begins(c, r) => if c in s.calls then s else s.(calls := s.calls[c := Call(r, Begin(s.db, r))])
    case Reads(c) =>
      if c in s.calls && s.calls[c].phase.Started?
      then s.(calls := s.calls[c := s.calls[c].(phase := ReadDraft(s.db, dir, s.calls[c].request))])
      else s
    case Loads(c) =>
      if c in s.calls && s.calls[c].phase.HaveDraft? then
        var r, p := s.calls[c].request, s.calls[c].phase;
        s.(calls := s.calls[c := Call(r, Load(s.db, dir, r, p.version, p.mailbox, s.supply))], supply := s.supply + 1)
      else s
    case Commits(c) =>
      if c in s.calls && Committable(s.calls[c]) then
        var (db, outcome, events) := Committed(dir, s.db, s.calls[c]);
        s.(db := db, calls := s.calls[c := s.calls[c].(phase := Done(outcome))], log := s.log + events)
      else s
    case Selects(draft) =>
      if Selectable(s.db, draft) then s.(picked := s.picked + multiset{(draft, s.db.jobs[draft].id)}) else s
    case Env(e) =>
      if !Allowed(s, e) then s
      else State(Happens(s.db, e), s.calls, Later(e, s.supply), s.log + [Outside(e)],
                 if e.Marked? then s.picked - multiset{(e.draft, e.job)} else s.picked)
  }

  /** An effect that makes a message takes its id from the supply. */
  predicate Draws(e: Effect) {
    e.Created? || e.Arrived?
  }

  function DrawnBy(e: Effect): Id
    requires Draws(e)
  {
    if e.Created? then e.draft else e.message
  }

  function Later(e: Effect, supply: nat): nat {
    if Draws(e) then supply + 1 else supply
  }

  predicate Allowed(s: State, e: Effect) {
    (Draws(e) ==> DrawnBy(e) == s.supply) && (e.Marked? ==> (e.draft, e.job) in s.picked)
  }

  lemma EnvStep(dir: Directory, s: State, e: Effect)
    ensures Apply(dir, s, Env(e))
            == if !Allowed(s, e) then s
               else State(Happens(s.db, e), s.calls, Later(e, s.supply), s.log + [Outside(e)],
                          if e.Marked? then s.picked - multiset{(e.draft, e.job)} else s.picked)
  {
    hide Happens, Begin, ReadDraft, Load, Committed;
  }

  lemma CommitStep(dir: Directory, s: State, c: nat)
    requires c in s.calls && Committable(s.calls[c])
    ensures var (db, outcome, events) := Committed(dir, s.db, s.calls[c]);
            Apply(dir, s, Commits(c))
            == s.(db := db, calls := s.calls[c := Call(s.calls[c].request, Done(outcome))], log := s.log + events)
  {
    hide Happens, Begin, ReadDraft, Load, Committed;
  }

  function Run(dir: Directory, s: State, actions: seq<Action>): State
    decreases |actions|
  {
    if actions == [] then s else Apply(dir, Run(dir, s, actions[..|actions| - 1]), actions[|actions| - 1])
  }

  // ------------------------------------------------------------------ the serial reading of the log

  function Redo(dir: Directory, db: Db, e: Event): Db {
    match e
    case Ran(r, stamp, _, _) => RunAlone(db, dir, r, stamp).0
    case Slipped(r, version, mailbox, plan, stamp, _) =>
      if PlanFits(r, plan) then Commit(db, dir, r, version, mailbox, plan, stamp).0 else db
    case Outside(effect) => Happens(db, effect)
  }

  function Replay(dir: Directory, db: Db, log: seq<Event>): Db
    decreases |log|
  {
    if log == [] then db else Redo(dir, Replay(dir, db, log[..|log| - 1]), log[|log| - 1])
  }

  // ------------------------------------------------------------------ the invariant

  /** Nothing in the tables carries this number as a version or as part of an attachment id. */
  ghost predicate Unused(db: Db, n: nat) {
    (forall d :: d in db.messages ==> db.messages[d].version != Stamp(n))
    && (forall a :: a in db.attachments ==> a.stamp != n)
  }

  /** What `ReadDraft` established for a call that passed it. */
  predicate Entered(dir: Directory, r: Request, version: Version, mailbox: Id) {
    r.ifMatch.Some? && r.ifMatch.value.version == version
    && (r.user, mailbox) in dir.senders
    && (r.Update? ==> r.input.mailbox == mailbox)
  }

  /** The part of a plan that depends on nothing but the draft's own recipients and attachments. */
  ghost predicate PlanCurrent(db: Db, dir: Directory, r: Request, mailbox: Id, plan: Plan)
    requires PlanFits(r, plan)
  {
    match r
    case Update(_, draft, _, input) =>
      plan.removed == AttachmentsOf(db, draft) - Kept(db, draft, input.refs)
      && forall a :: OfAttachment(a) in input.refs ==> a in AttachmentsOf(db, draft)
    case Send(_, draft, _, _) =>
      Route(db, dir, draft, mailbox).None?
      && plan.external == External(dir, Recipients(db, draft)) && plan.internal == Internal(dir, Recipients(db, draft))
    case Schedule(_, draft, _, _, _, _) =>
      Route(db, dir, draft, mailbox).None?
      && plan.connection == if External(dir, Recipients(db, draft)) then Connection(dir, mailbox) else None
    case Cancel(_, _, _, _) => true
  }

  /** The part of a plan that no table can change any more. */
  ghost predicate PlanSettled(r: Request, plan: Plan)
    requires PlanFits(r, plan)
  {
    (r.Update? ==> forall u :: OfUpload(u) in r.input.refs <==> u in plan.taken)
    && (r.Schedule? ==> MIN_LEAD_MS <= r.instant - r.clock < MAX_LEAD_MS)
  }

  predicate Below(version: Version, supply: nat) {
    version.Stamp? ==> version.n < supply
  }

  /** While the row still carries the version a call read, what the call read is still what is there. */
  ghost predicate CallOk(dir: Directory, db: Db, supply: nat, call: Call) {
    var r, p := call.request, call.phase;
    (p.HaveDraft? || p.Ready? ==>
       r.draft < supply && Below(p.version, supply) && Entered(dir, r, p.version, p.mailbox)
       && (RowMatches(db, r.user, r.draft, p.version) ==> db.messages[r.draft].mailbox == p.mailbox))
    && (p.Ready? ==>
          PlanFits(r, p.plan) && PlanSettled(r, p.plan)
          && p.stamp < supply && Unused(db, p.stamp) && p.version != Stamp(p.stamp)
          && (RowMatches(db, r.user, r.draft, p.version) ==> PlanCurrent(db, dir, r, p.mailbox, p.plan)))
  }

  /** Two calls never share a stamp, and no call has read a version that another has still to write. */
  predicate Apart(one: Phase, other: Phase) {
    other.Ready? ==>
      (one.Ready? ==> one.stamp != other.stamp)
      && (one.HaveDraft? || one.Ready? ==> one.version != Stamp(other.stamp))
  }

  ghost predicate Inv(dir: Directory, s: State) {
    (forall d :: d in s.db.messages ==> d < s.supply)
    && (forall n: nat :: s.supply <= n ==> Unused(s.db, n))
    && (forall c :: c in s.calls ==> CallOk(dir, s.db, s.supply, s.calls[c]))
    && (forall c, c' :: c in s.calls && c' in s.calls && c != c' ==> Apart(s.calls[c].phase, s.calls[c'].phase))
  }

  /** Any tables at all, and no call under way; `supply` is above every number in use. */
  ghost predicate Initial(s: State) {
    s.calls == map[] && s.log == [] && s.picked == multiset{}
    && (forall d :: d in s.db.messages ==> d < s.supply)
    && (forall n: nat :: s.supply <= n ==> Unused(s.db, n))
  }
}
