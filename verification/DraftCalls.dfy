/**
 One call of DraftApplicationService: `update`, `send`, `schedule` or `cancelSchedule`.  Each reads
 the tables several times, draws a fresh version, and then submits one batch; other calls and the
 dispatcher may run between any two of these phases.
 */
module DraftCalls {
  import opened DraftTables
  import opened Options

  const MIN_LEAD_MS := 90_000
  const MAX_LEAD_MS := 2_592_001_000

  /** Tables that drafts.ts only reads. */
  datatype Directory = Directory(
    senders: set<(Id, Id)>,      // (user, mailbox) pairs that `mailboxes.assert(..., "send")` lets through
    active: map<string, Id>,     // active mailboxes by lower-case address
    connections: map<Id, Id>)    // outbound provider connection of a mailbox's domain

  datatype Ref = OfAttachment(attachment: AttachmentId) | OfUpload(upload: Id)

  /** A validated body; `recipients` is already normalised. */
  datatype Input = Input(mailbox: Id, content: Content, recipients: seq<Recipient>, refs: seq<Ref>)

  datatype Request =
    | Update(user: Id, draft: Id, ifMatch: Option<IfMatch>, input: Input)
    | Send(user: Id, draft: Id, ifMatch: Option<IfMatch>, key: string)
    | Schedule(user: Id, draft: Id, ifMatch: Option<IfMatch>, key: string, instant: int, clock: int)
    | Cancel(user: Id, draft: Id, ifMatch: Option<IfMatch>, key: string)

  datatype Error =
    | KeyReused | NotFound | VersionRequired | VersionConflict | MailboxImmutable | NotPermitted
    | UploadInvalid | DraftScheduled | AlreadyDispatched | ToRequired | NoProvider | WindowExceeded
    | DatabaseError

  datatype Outcome = Updated | Responded(response: Response) | Replayed(response: Response) | Refused(error: Error)

  /** What a call has decided to write. */
  datatype Plan =
    | UpdatePlan(removed: set<AttachmentId>, taken: map<Id, FileInfo>)
    | SendPlan(external: bool, internal: set<Id>)
    | SchedulePlan(connection: Option<Id>)
    | CancelPlan
    | CancelNothingPlan

  datatype Phase =
    | Started
    | HaveDraft(version: Version, mailbox: Id)
    | Ready(version: Version, mailbox: Id, plan: Plan, stamp: nat)
    | Done(outcome: Outcome)

  // ------------------------------------------------------------------ idempotency

  function KeyOf(r: Request): RecordKey
    requires !r.Update?
  {
    RecordKey(r.user, if r.Send? then SendOp else if r.Schedule? then ScheduleOp else CancelOp, r.key)
  }

  function FingerprintOf(r: Request): Fingerprint
    requires !r.Update?
  {
    match r
    case Send(_, draft, ifMatch, _) => SendPrint(draft, ifMatch)
    case Schedule(_, draft, ifMatch, _, instant, _) => SchedulePrint(draft, ifMatch, instant)
    case Cancel(_, draft, ifMatch, _) => CancelPrint(draft, ifMatch)
  }

  /** The replay lookup every keyed call starts with. */
  function Begin(db: Db, r: Request): Phase {
    if r.Update? || KeyOf(r) !in db.records || db.records[KeyOf(r)].expired then Started
    else if db.records[KeyOf(r)].hash != FingerprintOf(r) then Done(Refused(KeyReused))
    else Done(Replayed(db.records[KeyOf(r)].response))
  }

  // ------------------------------------------------------------------ reading the draft

  /** `requireDraft`, `assertDraftVersion`, the sender mailbox check and the permission check. */
  function ReadDraft(db: Db, dir: Directory, r: Request): Phase {
    if r.draft !in db.messages then Done(Refused(NotFound))
    else
      var m := db.messages[r.draft];
      if m.status != Draft || m.owner != r.user || Link(m.mailbox, r.draft, Drafts) !in db.links
      then Done(Refused(NotFound))
      else if r.ifMatch.None? then Done(Refused(VersionRequired))
      else if r.ifMatch.value.version != m.version then Done(Refused(VersionConflict))
      else if r.Update? && r.input.mailbox != m.mailbox then Done(Refused(MailboxImmutable))
      else if (r.user, m.mailbox) !in dir.senders then Done(Refused(NotPermitted))
      else HaveDraft(m.version, m.mailbox)
  }

  // ------------------------------------------------------------------ the remaining reads

  predicate HasTo(recipients: seq<Recipient>) {
    exists r :: r in recipients && r.kind == To
  }

  /** Some recipient has no active mailbox here. */
  predicate External(dir: Directory, recipients: seq<Recipient>) {
    exists r :: r in recipients && r.address !in dir.active
  }

  function Internal(dir: Directory, recipients: seq<Recipient>): set<Id> {
    set r | r in recipients && r.address in dir.active :: dir.active[r.address]
  }

  function Connection(dir: Directory, mailbox: Id): Option<Id> {
    if mailbox in dir.connections then Some(dir.connections[mailbox]) else None
  }

  function Kept(db: Db, draft: Id, refs: seq<Ref>): set<AttachmentId> {
    set a | a in AttachmentsOf(db, draft) && OfAttachment(a) in refs
  }

  /** `requireUploads`: every id that is not a kept attachment must be an upload this user may attach. */
  predicate UploadsUsable(db: Db, r: Request)
    requires r.Update?
  {
    forall x :: x in r.input.refs ==>
      (x.OfAttachment? && x.attachment in Kept(db, r.draft, r.input.refs))
      || (x.OfUpload? && x.upload in db.uploads && UploadValid(db, r.user, x.upload, db.uploads[x.upload].info))
  }

  function Taken(db: Db, refs: seq<Ref>): map<Id, FileInfo> {
    map u | u in db.uploads && OfUpload(u) in refs :: db.uploads[u].info
  }

  function LoadUpdate(db: Db, r: Request): Result
    requires r.Update?
  {
    if !UploadsUsable(db, r) then Refuse(UploadInvalid)
    else Proceed(UpdatePlan(AttachmentsOf(db, r.draft) - Kept(db, r.draft, r.input.refs), Taken(db, r.input.refs)))
  }

  datatype Result = Refuse(error: Error) | Proceed(plan: Plan)

  /** `loadRecipients` and the provider check that follows it. */
  function Route(db: Db, dir: Directory, draft: Id, mailbox: Id): Option<Error> {
    var recipients := Recipients(db, draft);
    if !HasTo(recipients) then Some(ToRequired)
    else if External(dir, recipients) && Connection(dir, mailbox).None? then Some(NoProvider)
    else None
  }

  function LoadSend(db: Db, dir: Directory, r: Request, mailbox: Id): Result {
    if JobIs(db, r.draft, {Pending, Enqueued}) then Refuse(DraftScheduled)
    else if JobIs(db, r.draft, {Processing}) then Refuse(AlreadyDispatched)
    else if Route(db, dir, r.draft, mailbox).Some? then Refuse(Route(db, dir, r.draft, mailbox).value)
    else
      var recipients := Recipients(db, r.draft);
      Proceed(SendPlan(External(dir, recipients), Internal(dir, recipients)))
  }

  function LoadSchedule(db: Db, dir: Directory, r: Request, mailbox: Id): Result
    requires r.Schedule?
  {
    if r.draft in db.jobs && db.jobs[r.draft].status != Pending then Refuse(AlreadyDispatched)
    else if !(MIN_LEAD_MS <= r.instant - r.clock < MAX_LEAD_MS) then Refuse(WindowExceeded)
    else if Route(db, dir, r.draft, mailbox).Some? then Refuse(Route(db, dir, r.draft, mailbox).value)
    else Proceed(SchedulePlan(if External(dir, Recipients(db, r.draft)) then Connection(dir, mailbox) else None))
  }

  function LoadCancel(db: Db, r: Request): Result {
    if r.draft !in db.jobs then Proceed(CancelNothingPlan)
    else if !JobIs(db, r.draft, {Pending, Enqueued}) then Refuse(AlreadyDispatched)
    else Proceed(CancelPlan)
  }

  function LoadPlan(db: Db, dir: Directory, r: Request, mailbox: Id): Result {
    match r
    case Update(_, _, _, _) => LoadUpdate(db, r)
    case Send(_, _, _, _) => LoadSend(db, dir, r, mailbox)
    case Schedule(_, _, _, _, _, _) => LoadSchedule(db, dir, r, mailbox)
    case Cancel(_, _, _, _) => LoadCancel(db, r)
  }

  /** The reads after `requireDraft`; a call that passes them draws its version. */
  function Load(db: Db, dir: Directory, r: Request, version: Version, mailbox: Id, stamp: nat): Phase {
    match LoadPlan(db, dir, r, mailbox)
    case Refuse(error) => Done(Refused(error))
    case Proceed(plan) => Ready(version, mailbox, plan, stamp)
  }

  // ------------------------------------------------------------------ the batch

  predicate PlanFits(r: Request, plan: Plan) {
    match r
    case Update(_, _, _, _) => plan.UpdatePlan?
    case Send(_, _, _, _) => plan.SendPlan?
    case Schedule(_, _, _, _, _, _) => plan.SchedulePlan?
    case Cancel(_, _, _, _) => plan.CancelPlan? || plan.CancelNothingPlan?
  }

  function ResponseOf(r: Request, version: Version, plan: Plan, stamp: nat): Response
    requires !r.Update? && PlanFits(r, plan)
  {
    match r
    case Send(_, draft, _, _) => SendResponse(draft, if plan.external then Queued else Sent)
    case Schedule(_, draft, _, _, instant, _) => ScheduleResponse(draft, instant, Stamp(stamp))
    case Cancel(_, draft, _, _) =>
      CancelResponse(draft, plan.CancelPlan?, if plan.CancelPlan? then Stamp(stamp) else version)
  }

  function BatchOf(db: Db, dir: Directory, r: Request, version: Version, mailbox: Id, plan: Plan, stamp: nat): Batch
    requires PlanFits(r, plan)
  {
    match r
    case Update(user, draft, _, input) =>
      UpdateBatch(db, user, draft, version, input.content, input.recipients, plan.removed, plan.taken, stamp)
    case Send(user, draft, _, _) =>
      SendBatch(db, user, draft, version, mailbox, plan.external, Connection(dir, mailbox), plan.internal,
                KeyOf(r), RecordOf(r, version, plan, stamp), stamp)
    case Schedule(user, draft, _, _, instant, _) =>
      ScheduleBatch(
        db, user, draft, version, plan.connection, instant, KeyOf(r), RecordOf(r, version, plan, stamp), stamp)
    case Cancel(user, draft, _, _) =>
      if plan.CancelPlan? then CancelBatch(db, user, draft, version, KeyOf(r), RecordOf(r, version, plan, stamp), stamp)
      else CancelNothing(db, KeyOf(r), RecordOf(r, version, plan, stamp))
  }

  function RecordOf(r: Request, version: Version, plan: Plan, stamp: nat): Record
    requires !r.Update? && PlanFits(r, plan)
  {
    Record(FingerprintOf(r), ResponseOf(r, version, plan, stamp), false)
  }

  /** How the call reads the row counts its batch reports. */
  function OutcomeOf(r: Request, version: Version, plan: Plan, stamp: nat, batch: Batch): Outcome
    requires PlanFits(r, plan)
  {
    if batch.Aborted? then Refused(DatabaseError)
    else if plan.CancelNothingPlan? then Responded(ResponseOf(r, version, plan, stamp))
    else if plan.CancelPlan? then
      if !batch.first then Refused(AlreadyDispatched)
      else if !batch.second then Refused(VersionConflict)
      else Responded(ResponseOf(r, version, plan, stamp))
    else if !batch.first then Refused(VersionConflict)
    else if plan.UpdatePlan? then Updated
    else if plan.SchedulePlan? && !batch.second then Refused(AlreadyDispatched)
    else Responded(ResponseOf(r, version, plan, stamp))
  }

  function Commit(db: Db, dir: Directory, r: Request, version: Version, mailbox: Id, plan: Plan, stamp: nat)
    : (Db, Outcome)
    requires PlanFits(r, plan)
  {
    var batch := BatchOf(db, dir, r, version, mailbox, plan, stamp);
    (if batch.Applied? then batch.db else db, OutcomeOf(r, version, plan, stamp, batch))
  }

  predicate Accepted(o: Outcome) {
    o.Updated? || o.Responded?
  }

  // ------------------------------------------------------------------ a call that runs alone

  /** The whole call with nothing in between: the meaning `update`, `send` and the rest are meant to have. */
  function RunAlone(db: Db, dir: Directory, r: Request, stamp: nat): (Db, Outcome) {
    var begun := Begin(db, r);
    if begun.Done? then (db, begun.outcome)
    else
      var read := ReadDraft(db, dir, r);
      if read.Done? then (db, read.outcome)
      else
        match LoadPlan(db, dir, r, read.mailbox)
        case Refuse(error) => (db, Refused(error))
        case Proceed(plan) => Commit(db, dir, r, read.version, read.mailbox, plan, stamp)
  }
}
