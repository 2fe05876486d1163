/**
 The rows that drafts.ts and outbound-mail/index.ts read and write, and what each D1 batch of
 theirs does to them.  A batch is one atomic step; it is stated here by what it changes, and
 DraftBatches proves that the guarded SQL statements of the source add up to exactly that.
 */
module DraftTables {
  import opened Options

  type Id = nat

  /**
   An `updated_at` value.  `createDraftVersion` makes a `Stamp` that no other call will ever
   make; the SQL defaults and the dispatcher write a `Clock` reading, which may repeat.
   */
  datatype Version = Stamp(n: nat) | Clock(time: int)

  /** `Reported` stands for whatever a provider says of a message it has been given. */
  datatype Status = Draft | Queued | Sent | Failed | Reported(status: string)

  datatype Content = Content(subject: string, html: string, text: string)

  datatype Message = Message(
    content: Content, status: Status, version: Version, owner: Id, mailbox: Id,
    provider: Option<Id>, sentAt: Option<int>)

  datatype Kind = To | Cc | Bcc

  datatype Recipient = Recipient(kind: Kind, address: string)

  /** The columns of an upload that attaching copies; they do not change once it is `uploaded`. */
  datatype FileInfo = FileInfo(fileId: Id, objectKey: string, md5: string, size: nat, filename: string)

  datatype UploadStatus = Waiting | Uploaded | Consumed | Expired

  datatype Upload = Upload(owner: Id, status: UploadStatus, expired: bool, info: FileInfo)

  /** An attachment row's fresh id, named after the call and the upload that made it. */
  datatype AttachmentId = AttachmentId(stamp: nat, upload: Id)

  datatype Attachment = Attachment(message: Id, info: FileInfo)

  datatype Folder = Drafts | SentFolder | Inbox | Archive | Trash

  datatype Link = Link(mailbox: Id, message: Id, folder: Folder)

  datatype JobStatus = Pending | Enqueued | Processing | Succeeded | Abandoned

  datatype Lock = Lock(token: nat, expires: int)

  datatype Job = Job(id: nat, status: JobStatus, availableAt: int, lock: Option<Lock>, scheduled: bool)

  datatype Operation = SendOp | ScheduleOp | CancelOp

  datatype RecordKey = RecordKey(actor: Id, operation: Operation, key: string)

  /** An If-Match header: the version, perhaps in double quotes. */
  datatype IfMatch = IfMatch(version: Version, quoted: bool)

  /** What the SHA-256 request hash is taken of; distinct inputs are assumed not to collide. */
  datatype Fingerprint =
    | SendPrint(draft: Id, ifMatch: Option<IfMatch>)
    | SchedulePrint(draft: Id, ifMatch: Option<IfMatch>, instant: int)
    | CancelPrint(draft: Id, ifMatch: Option<IfMatch>)

  datatype Response =
    | SendResponse(draft: Id, status: Status)
    | ScheduleResponse(draft: Id, instant: int, version: Version)
    | CancelResponse(draft: Id, cancelled: bool, version: Version)

  datatype Record = Record(hash: Fingerprint, response: Response, expired: bool)

  /** `jobs` is keyed by message: outbound_jobs.message_id is UNIQUE. */
  datatype Db = Db(
    messages: map<Id, Message>,
    recipients: map<Id, seq<Recipient>>,
    attachments: map<AttachmentId, Attachment>,
    uploads: map<Id, Upload>,
    links: set<Link>,
    jobs: map<Id, Job>,
    records: map<RecordKey, Record>,
    now: int)

  /** A batch either fails as a whole, or is applied and reports rows changed by its first two statements. */
  datatype Batch = Aborted | Applied(db: Db, first: bool, second: bool)

  // ------------------------------------------------------------------ guards

  /** WHERE id = ? AND status = 'draft' AND created_by_user_id = ? AND updated_at = ? */
  predicate RowMatches(db: Db, user: Id, draft: Id, version: Version) {
    draft in db.messages
    && var m := db.messages[draft]; m.status == Draft && m.owner == user && m.version == version
  }

  /** The trigger `validate_attachment_upload`. */
  predicate UploadValid(db: Db, user: Id, upload: Id, info: FileInfo) {
    upload in db.uploads
    && var u := db.uploads[upload];
       u.owner == user && u.status == Uploaded && !u.expired && u.info == info
  }

  predicate JobIs(db: Db, draft: Id, statuses: set<JobStatus>) {
    draft in db.jobs && db.jobs[draft].status in statuses
  }

  function Recipients(db: Db, draft: Id): seq<Recipient> {
    if draft in db.recipients then db.recipients[draft] else []
  }

  function AttachmentsOf(db: Db, draft: Id): set<AttachmentId> {
    set a | a in db.attachments && db.attachments[a].message == draft
  }

  // ------------------------------------------------------------------ draft batches

  /** Attached rows: the ones kept, plus one per upload taken in. */
  function Attached(db: Db, draft: Id, removed: set<AttachmentId>, taken: map<Id, FileInfo>, stamp: nat)
    : map<AttachmentId, Attachment>
  {
    (map a | a in db.attachments && !(db.attachments[a].message == draft && a in removed) :: db.attachments[a])
    + (map u | u in taken :: AttachmentId(stamp, u) := Attachment(draft, taken[u]))
  }

  /** The trigger `consume_attachment_upload`. */
  function Consume(uploads: map<Id, Upload>, taken: set<Id>): map<Id, Upload> {
    map u | u in uploads :: if u in taken then uploads[u].(status := Consumed) else uploads[u]
  }

  /** drafts.ts `update`. */
  function UpdateBatch(
    db: Db, user: Id, draft: Id, version: Version, content: Content, recipients: seq<Recipient>,
    removed: set<AttachmentId>, taken: map<Id, FileInfo>, stamp: nat): Batch
  {
    if !RowMatches(db, user, draft, version) then Applied(db, false, false)
    else if exists u | u in taken :: !UploadValid(db, user, u, taken[u]) then Aborted
    else Applied(db.(messages := db.messages[draft := db.messages[draft].(content := content, version := Stamp(stamp))],
                     recipients := db.recipients[draft := recipients],
                     attachments := Attached(db, draft, removed, taken, stamp),
                     uploads := Consume(db.uploads, taken.Keys)), true, false)
  }

  /** drafts.ts `send`; `external` says whether an outbound job is wanted. */
  function SendBatch(
    db: Db, user: Id, draft: Id, version: Version, mailbox: Id, external: bool, connection: Option<Id>,
    internal: set<Id>, key: RecordKey, record: Record, stamp: nat): Batch
  {
    if !RowMatches(db, user, draft, version) then Applied(db, false, false)
    else if (external && draft in db.jobs) || key in db.records then Aborted
    else
      var status := if external then Queued else Sent;
      Applied(db.(messages := db.messages[draft := db.messages[draft].(
                                status := status, version := Stamp(stamp),
                                provider := if external then connection else None,
                                sentAt := if external then None else Some(db.now))],
                  links := Deliver(db.links, draft, mailbox, internal),
                  jobs := if external then db.jobs[draft := Job(stamp, Pending, db.now, None, false)] else db.jobs,
                  records := db.records[key := record]), true, false)
  }

  /** The sender's link moves from drafts to sent; every internal recipient gets an inbox link. */
  function Deliver(links: set<Link>, draft: Id, mailbox: Id, internal: set<Id>): set<Link> {
    (set l | l in links :: if l == Link(mailbox, draft, Drafts) then Link(mailbox, draft, SentFolder) else l)
    + (set m | m in internal :: Link(m, draft, Inbox))
  }

  /** drafts.ts `schedule`: only the first and the third statement look at the draft's version. */
  function ScheduleBatch(
    db: Db, user: Id, draft: Id, version: Version, connection: Option<Id>, instant: int,
    key: RecordKey, record: Record, stamp: nat): Batch
  {
    var row := RowMatches(db, user, draft, version);
    if draft !in db.messages || (row && key in db.records) then Aborted
    else
      var writable := draft !in db.jobs || db.jobs[draft].status == Pending;
      Applied(db.(messages := if row
                              then db.messages[draft := db.messages[draft].(
                                     provider := connection, version := Stamp(stamp))]
                              else db.messages,
                  jobs := if writable then db.jobs[draft := Rescheduled(db.jobs, draft, instant, stamp)] else db.jobs,
                  records := if row then db.records[key := record] else db.records), row, writable)
  }

  /** INSERT ... ON CONFLICT(message_id) DO UPDATE ... WHERE status = 'pending' */
  function Rescheduled(jobs: map<Id, Job>, draft: Id, instant: int, stamp: nat): Job {
    if draft in jobs then jobs[draft].(availableAt := instant, scheduled := true)
    else Job(stamp, Pending, instant, None, true)
  }

  /** drafts.ts `cancelSchedule`: the DELETE comes first and does not look at the version at all. */
  function CancelBatch(
    db: Db, user: Id, draft: Id, version: Version, key: RecordKey, record: Record, stamp: nat): Batch
  {
    var deleted := JobIs(db, draft, {Pending, Enqueued});
    var jobs := if deleted then db.jobs - {draft} else db.jobs;
    var row := RowMatches(db, user, draft, version) && draft !in jobs;
    if row && key in db.records then Aborted
    else Applied(db.(messages := if row then db.messages[draft := db.messages[draft].(version := Stamp(stamp))]
                                 else db.messages,
                     jobs := jobs,
                     records := if row then db.records[key := record] else db.records), deleted, row)
  }

  /** drafts.ts `cancelSchedule` when no job exists: one unconditional INSERT. */
  function CancelNothing(db: Db, key: RecordKey, record: Record): Batch {
    if key in db.records then Aborted else Applied(db.(records := db.records[key := record]), false, false)
  }

  /** drafts.ts `remove`: the DELETE and what its foreign keys cascade to. */
  function RemoveDraft(db: Db, user: Id, draft: Id): Db {
    if draft in db.messages && db.messages[draft].owner == user && db.messages[draft].status == Draft then
      db.(messages := db.messages - {draft},
          recipients := db.recipients - {draft},
          attachments := (map a | a in db.attachments && db.attachments[a].message != draft :: db.attachments[a]),
          links := (set l | l in db.links && l.message != draft),
          jobs := db.jobs - {draft})
    else db
  }

  /** drafts.ts `create`, for a fresh message id. */
  function CreateDraft(
    db: Db, user: Id, draft: Id, mailbox: Id, content: Content, recipients: seq<Recipient>,
    taken: map<Id, FileInfo>): Batch
  {
    if exists u | u in taken :: !UploadValid(db, user, u, taken[u]) then Aborted
    else Applied(db.(messages := db.messages[
                       draft := Message(content, Draft, Clock(db.now), user, mailbox, None, None)],
                     recipients := db.recipients[draft := recipients],
                     attachments := Attached(db, draft, {}, taken, draft),
                     uploads := Consume(db.uploads, taken.Keys),
                     links := db.links + {Link(mailbox, draft, Drafts)}), true, false)
  }

  // ------------------------------------------------------------------ messages that are no drafts

  /** A message sent without a draft, received or imported, in one batch, for a fresh id; with a job, it is queued. */
  function NewMessage(
    db: Db, message: Id, row: Message, recipients: seq<Recipient>, taken: map<Id, FileInfo>, folders: map<Id, Folder>,
    external: bool): Batch
  {
    if
      row.status == Draft || (external && (row.status != Queued || message in db.jobs))
      || exists u | u in taken :: !UploadValid(db, row.owner, u, taken[u])
    then Aborted
    else Applied(db.(messages := db.messages[message := row.(version := Clock(db.now))],
                     recipients := db.recipients[message := recipients],
                     attachments := Attached(db, message, {}, taken, message),
                     uploads := Consume(db.uploads, taken.Keys),
                     links := db.links + (set m | m in folders :: Link(m, message, folders[m])),
                     jobs := if external then db.jobs[message := Job(message, Pending, db.now, None, false)]
                             else db.jobs),
                 true, false)
  }

  /** provider-sync and administration: only a message that a provider was given, so no draft, has a provider id. */
  function WriteStatus(db: Db, message: Id, status: string): Db {
    if message in db.messages && db.messages[message].status != Draft
    then db.(messages := db.messages[
               message := db.messages[message].(status := Reported(status), version := Clock(db.now))])
    else db
  }

  /** scheduled.ts `cleanupTrashAndMessages`: a link in the trash goes. */
  function EmptyTrash(db: Db, link: Link): Db {
    if link.folder == Trash then db.(links := db.links - {link}) else db
  }

  /** scheduled.ts `cleanupTrashAndMessages`: a message that no mailbox shows goes, with what its keys cascade to. */
  function PurgeMessage(db: Db, message: Id): Db {
    if exists l :: l in db.links && l.message == message then db
    else db.(messages := db.messages - {message},
             recipients := db.recipients - {message},
             attachments := (map a | a in db.attachments && db.attachments[a].message != message :: db.attachments[a]),
             jobs := db.jobs - {message})
  }

  // ------------------------------------------------------------------ the dispatcher

  /** outbound-mail `dispatch`: the SELECT that starts it finds the job pending and due. */
  predicate Selectable(db: Db, draft: Id) {
    draft in db.jobs && db.jobs[draft].status == Pending && db.jobs[draft].availableAt <= db.now
  }

  /** outbound-mail `dispatch`: the row it selected earlier is marked if it is still pending. */
  function MarkEnqueued(db: Db, draft: Id, job: nat): Db {
    if draft in db.jobs && db.jobs[draft].id == job && db.jobs[draft].status == Pending
    then db.(jobs := db.jobs[draft := db.jobs[draft].(status := Enqueued)])
    else db
  }

  predicate Claimable(db: Db, draft: Id, job: nat) {
    JobIs(db, draft, {Pending, Enqueued})
    && var j := db.jobs[draft];
       j.id == job && j.availableAt <= db.now && (j.lock == None || j.lock.value.expires < db.now)
  }

  /** outbound-mail `processOutboundJob`: the claim. */
  function ClaimJob(db: Db, draft: Id, job: nat, lock: Lock): Db {
    if Claimable(db, draft, job)
    then db.(jobs := db.jobs[draft := db.jobs[draft].(status := Processing, lock := Some(lock))])
    else db
  }

  predicate Holds(db: Db, draft: Id, job: nat, token: nat) {
    draft in db.jobs && db.jobs[draft].id == job
    && db.jobs[draft].lock.Some? && db.jobs[draft].lock.value.token == token
  }

  /** outbound-mail `processOutboundJob`: the success batch. */
  function CompleteJob(db: Db, draft: Id, job: nat, token: nat, internal: set<Id>): Db {
    if draft !in db.messages then db
    else
      db.(messages := if db.messages[draft].status == Draft
                      then db.messages[draft := db.messages[draft].(
                             status := Sent, sentAt := Some(db.now), version := Clock(db.now))]
                      else db.messages,
          jobs := if Holds(db, draft, job, token)
                  then db.jobs[draft := db.jobs[draft].(status := Succeeded, lock := None)] else db.jobs,
          links := (set l | l in db.links ::
                      if l.message == draft && l.folder == Drafts then l.(folder := SentFolder) else l)
                   + (set m | m in internal :: Link(m, draft, Inbox)))
  }

  /** outbound-mail `processOutboundJob`: the failure batch. */
  function FailJob(db: Db, draft: Id, job: nat, token: nat, retryable: bool, retryAt: int): Db {
    db.(jobs := if Holds(db, draft, job, token)
                then db.jobs[draft := db.jobs[draft].(
                               status := if retryable then Pending else Abandoned,
                               availableAt := retryAt, lock := None)]
                else db.jobs,
        messages := if !retryable && draft in db.messages && db.messages[draft].status == Draft
                    then db.messages[draft := db.messages[draft].(status := Failed, version := Clock(db.now))]
                    else db.messages)
  }

  /** scheduled.ts `recoverExpiredOutboundLocks`. */
  function RecoverLocks(db: Db): Db {
    db.(jobs := map d | d in db.jobs ::
          var j := db.jobs[d];
          if j.status == Processing && j.lock.Some? && j.lock.value.expires < db.now
          then j.(status := Pending, lock := None) else j)
  }
}
