/**
 The attachment catalog: file rows that own objects in the store, uploads and message attachments that
 point at file rows, and the operations of file-catalog.ts, attachments/index.ts and scheduled.ts that
 run against them, each broken at its awaits.

 A `Task` is an operation caught between two of its steps.  Database statements and store calls are
 atomic; between any two of them, any other task may take a step.
 */
module Catalog {
  import opened Blocks
  import Md5Spec
  import opened Options

  type Id = nat
  type Key = nat
  type Digest = string

  const GRACE := 86_400_000

  datatype Object = Object(bytes: Bytes, uploadedAt: int)

  /** The shapes a dedupe_key takes; it is UNIQUE. */
  datatype Dedupe = Base(md5: Digest, size: nat) | Own(id: Id) | Legacy(key: Key)

  datatype File = File(key: Key, dedupe: Dedupe, md5: Option<Digest>, size: nat)

  datatype Status = Pending | Uploaded | Consumed | Expired

  datatype Upload = Upload(key: Key, size: nat, status: Status, file: Option<Id>)

  /** `original` is what was attached; nothing in the program reads it. */
  datatype Attachment = Attachment(key: Key, file: Id, original: Bytes)

  /** The columns of a candidate row that its finder keeps. */
  datatype Match = Match(id: Id, key: Key)

  /** What a stored body is for: an upload, or an attachment of a message being received. */
  datatype Purpose = ForUpload(upload: Id) | ForMessage

  datatype Turn = FirstSearch | FirstInsert | SecondSearch | SecondInsert

  datatype Task =
    | Stored(purpose: Purpose, key: Key, bytes: Bytes, size: nat, since: int, turn: Turn)
    | Losing(purpose: Purpose, key: Key, found: Id, foundKey: Key, bytes: Bytes)
    | Registered(purpose: Purpose, file: Id, key: Key, bytes: Bytes)
    | Retiring(upload: Id, key: Key, seen: Option<Id>)
    | Collecting(file: Id, key: Key)
    | Backfilling(file: Id, key: Key, md5: Digest, candidate: Option<Match>)
    | Completing(upload: Id)
    | Dropping(key: Key)
    | Ended

  datatype State = State(
    store: map<Key, Object>,
    files: map<Id, File>,
    uploads: map<Id, Upload>,
    attachments: map<Id, Attachment>,
    tasks: map<nat, Task>,
    supply: Id,
    now: int)

  datatype Action =
    | Create(upload: Id, key: Key, size: nat)
    | Put(task: nat, purpose: Purpose, key: Key, bytes: Bytes, size: nat)
    | Search(task: nat, candidate: Option<Id>)
    | Insert(task: nat)
    | DropLoser(task: nat)
    | Link(task: nat)
    | Receive(task: nat, attachment: Id)
    | CompleteRead(task: nat, upload: Id)
    | CompleteRow(task: nat)
    | Attach(attachment: Id, upload: Id)
    | Detach(attachment: Id)
    | RetireRead(task: nat, upload: Id)
    | RetireRow(task: nat, delete: bool)
    | CollectRead(task: nat, file: Id)
    | CollectRow(task: nat)
    | BackfillRead(task: nat, file: Id, candidate: Option<Id>)
    | BackfillRow(task: nat)
    | SweepCheck(task: nat, key: Key)
    | Drop(task: nat)
    | Tick(now: int)

  // ------------------------------------------------------------------ the SQL the steps run

  predicate KeyTaken(files: map<Id, File>, key: Key) {
    exists f :: f in files && files[f].key == key
  }

  predicate DedupeTaken(files: map<Id, File>, dedupe: Dedupe) {
    exists f :: f in files && files[f].dedupe == dedupe
  }

  /** A row `findIdenticalCandidate` may return: same digest, same size, same bytes. */
  predicate Identical(s: State, key: Key, md5: Digest, size: nat, candidate: Id) {
    candidate in s.files && key in s.store
    && var f := s.files[candidate];
       f.md5 == Some(md5) && f.size == size && f.key in s.store
       && |s.store[f.key].bytes| == size && s.store[f.key].bytes == s.store[key].bytes
  }

  predicate Attached(s: State, file: Id) {
    exists a :: a in s.attachments && s.attachments[a].file == file
  }

  predicate Awaited(s: State, file: Id) {
    exists u :: u in s.uploads && s.uploads[u].file == Some(file) && s.uploads[u].status in {Pending, Uploaded}
  }

  predicate Uploading(s: State, file: Id) {
    exists u :: u in s.uploads && s.uploads[u].file == Some(file)
  }

  /** The object `complete` asks the store about is there, and has the promised size. */
  predicate HeadMatches(s: State, u: Upload) {
    u.file.Some? && u.file.value in s.files && s.files[u.file.value].md5.Some?
    && s.files[u.file.value].key in s.store && |s.store[s.files[u.file.value].key].bytes| == u.size
  }

  /** attachment_uploads.file_id ... ON DELETE SET NULL */
  function Unlinked(uploads: map<Id, Upload>, file: Id): map<Id, Upload> {
    map u | u in uploads :: if uploads[u].file == Some(file) then uploads[u].(file := None) else uploads[u]
  }

  /** Some row of the four the sweep looks at mentions this key. */
  predicate Referenced(s: State, key: Key) {
    (exists a :: a in s.attachments && s.attachments[a].key == key)
    || (exists u :: u in s.uploads && s.uploads[u].key == key && s.uploads[u].status != Expired)
    || KeyTaken(s.files, key)
  }

  /** The batch of `backfillAttachmentFileMd5` that moves everything from one file to another. */
  function Merged(s: State, file: Id, to: Match): State {
    s.(attachments := (map a | a in s.attachments ::
                         if s.attachments[a].file == file then s.attachments[a].(file := to.id, key := to.key)
                             else s.attachments[a]),
       uploads := (map u | u in s.uploads ::
                     if s.uploads[u].file == Some(file) then s.uploads[u].(file := Some(to.id)) else s.uploads[u]),
       files := s.files - {file})
  }

  // ------------------------------------------------------------------ steps

  function Become(s: State, t: nat, task: Task): State {
    s.(tasks := s.tasks[t := task])
  }

  function PutStep(s: State, a: Action): State
    requires a.Put?
  {
    if a.task in s.tasks then s
    else if
      a.purpose.ForUpload?
      && !(a.purpose.upload in s.uploads && s.uploads[a.purpose.upload] == Upload(a.key, a.size, Pending, None))
    then s
    else Become(s.(store := s.store[a.key := Object(a.bytes, s.now)]), a.task,
                Stored(a.purpose, a.key, a.bytes, a.size, s.now, FirstSearch))
  }

  function SearchStep(s: State, t: nat, candidate: Option<Id>): State
    requires t in s.tasks && s.tasks[t].Stored?
  {
    var p := s.tasks[t];
    if p.turn != FirstSearch && p.turn != SecondSearch then s
    else if candidate.Some? then
      if !Identical(s, p.key, Md5Spec.Digest(p.bytes), p.size, candidate.value) then s
      else
        var c := s.files[candidate.value];
        Become(s, t, if c.key == p.key && p.turn == FirstSearch
                     then Registered(p.purpose, candidate.value, c.key, p.bytes)
                     else Losing(p.purpose, p.key, candidate.value, c.key, p.bytes))
    else Become(s, t, p.(turn := if p.turn == FirstSearch then FirstInsert else SecondInsert))
  }

  function InsertStep(s: State, t: nat): State
    requires t in s.tasks && s.tasks[t].Stored?
  {
    var p := s.tasks[t];
    var md5 := Md5Spec.Digest(p.bytes);
    var id := s.supply;
    var dedupe := if p.turn == FirstInsert then Base(md5, p.size) else Own(id);
    if p.turn != FirstInsert && p.turn != SecondInsert then s
    else if KeyTaken(s.files, p.key) || DedupeTaken(s.files, dedupe) then
      Become(s, t, if p.turn == FirstInsert then p.(turn := SecondSearch) else Ended)
    else
      Become(s.(files := s.files[id := File(p.key, dedupe, Some(md5), p.size)], supply := id + 1), t,
             Registered(p.purpose, id, p.key, p.bytes))
  }

  function LinkStep(s: State, t: nat): State
    requires t in s.tasks && s.tasks[t].Registered? && s.tasks[t].purpose.ForUpload?
  {
    var p := s.tasks[t];
    var u := p.purpose.upload;
    if !(u in s.uploads && s.uploads[u].status == Pending && s.uploads[u].file == None) then Become(s, t, Ended)
    else if p.file !in s.files then Become(s, t, Ended)
    else Become(s.(uploads := s.uploads[u := s.uploads[u].(file := Some(p.file))]), t, Ended)
  }

  function ReceiveStep(s: State, t: nat, attachment: Id): State
    requires t in s.tasks && s.tasks[t].Registered? && s.tasks[t].purpose.ForMessage?
  {
    var p := s.tasks[t];
    if attachment in s.attachments then s
    else if p.file !in s.files then Become(s, t, Ended)
    else Become(s.(attachments := s.attachments[attachment := Attachment(p.key, p.file, p.bytes)]), t, Ended)
  }

  /** `complete`: the UPDATE looks at the status alone. */
  function CompleteRowStep(s: State, t: nat): State
    requires t in s.tasks && s.tasks[t].Completing?
  {
    var u := s.tasks[t].upload;
    if u in s.uploads && s.uploads[u].status == Pending
    then Become(s.(uploads := s.uploads[u := s.uploads[u].(status := Uploaded)]), t, Ended)
    else Become(s, t, Ended)
  }

  /**
   INSERT INTO message_attachments, with the triggers `validate_attachment_upload` and `consume_attachment_upload`.
   */
  function AttachStep(s: State, attachment: Id, upload: Id): State {
    if attachment in s.attachments || upload !in s.uploads then s
    else
      var u := s.uploads[upload];
      if u.status != Uploaded || u.file == None || u.file.value !in s.files then s
      else
        var f := s.files[u.file.value];
        var bytes := if f.key in s.store then s.store[f.key].bytes else [];
        s.(attachments := s.attachments[attachment := Attachment(f.key, u.file.value, bytes)],
           uploads := s.uploads[upload := u.(status := Consumed)])
  }

  /** The row of an upload that is cancelled (deleted) or expired; what becomes of its content is next. */
  function RetireRowStep(s: State, t: nat, delete: bool): State
    requires t in s.tasks && s.tasks[t].Retiring?
  {
    var p := s.tasks[t];
    var next := if p.seen == None then Dropping(p.key) else Ended;
    if p.upload !in s.uploads then Become(s, t, Ended)
    else if delete then
      if s.uploads[p.upload].status == Consumed then Become(s, t, Ended)
      else Become(s.(uploads := s.uploads - {p.upload}), t, next)
    else if s.uploads[p.upload].status in {Pending, Uploaded} then
      Become(s.(uploads := s.uploads[p.upload := s.uploads[p.upload].(status := Expired)]), t, next)
    else Become(s, t, Ended)
  }

  function CollectRowStep(s: State, t: nat): State
    requires t in s.tasks && s.tasks[t].Collecting?
  {
    var p := s.tasks[t];
    if p.file !in s.files || Attached(s, p.file) || Awaited(s, p.file) then Become(s, t, Ended)
    else Become(s.(files := s.files - {p.file}, uploads := Unlinked(s.uploads, p.file)), t, Dropping(p.key))
  }

  function BackfillReadStep(s: State, t: nat, file: Id, candidate: Option<Id>): State {
    if t in s.tasks || file !in s.files || s.files[file].md5.Some? || s.files[file].key !in s.store then s
    else
      var f := s.files[file];
      var md5 := Md5Spec.Digest(s.store[f.key].bytes);
      if candidate.Some? && (candidate.value == file || !Identical(s, f.key, md5, f.size, candidate.value)) then s
      else
        var found := if candidate.Some? then Some(Match(candidate.value, s.files[candidate.value].key)) else None;
        Become(s, t, Backfilling(file, f.key, md5, found))
  }

  function BackfillRowStep(s: State, t: nat): State
    requires t in s.tasks && s.tasks[t].Backfilling?
  {
    var p := s.tasks[t];
    if p.candidate.Some? then
      var to := p.candidate.value;
      if to.id !in s.files && (Attached(s, p.file) || Uploading(s, p.file)) then Become(s, t, Ended)
      else Become(Merged(s, p.file, to), t, if to.key != p.key then Dropping(p.key) else Ended)
    else if p.file !in s.files || s.files[p.file].md5.Some? then Become(s, t, Ended)
    else
      var base := Base(p.md5, s.files[p.file].size);
      Become(s.(files := s.files[p.file := s.files[p.file].(
                  md5 := Some(p.md5), dedupe := if DedupeTaken(s.files, base) then Own(p.file) else base)]), t, Ended)
  }

  function SweepCheckStep(s: State, t: nat, key: Key): State {
    if t in s.tasks || key !in s.store || s.now - GRACE < s.store[key].uploadedAt || Referenced(s, key) then s
    else Become(s, t, Dropping(key))
  }

  function Apply(s: State, a: Action): State {
    match a
    case Create(u, key, size) =>
      if u in s.uploads then s else s.(uploads := s.uploads[u := Upload(key, size, Pending, None)])
    case Put(_, _, _, _, _) => PutStep(s, a)
    case Search(t, candidate) => if t in s.tasks && s.tasks[t].Stored? then SearchStep(s, t, candidate) else s
    case Insert(t) => if t in s.tasks && s.tasks[t].Stored? then InsertStep(s, t) else s
    case DropLoser(t) =>
      if t in s.tasks && s.tasks[t].Losing? then
        var p := s.tasks[t];
        Become(s.(store := s.store - {p.key}), t, Registered(p.purpose, p.found, p.foundKey, p.bytes))
      else s
    case Link(t) =>
      if t in s.tasks && s.tasks[t].Registered? && s.tasks[t].purpose.ForUpload? then LinkStep(s, t) else s
    case Receive(t, attachment) =>
      if t in s.tasks && s.tasks[t].Registered? && s.tasks[t].purpose.ForMessage?
      then ReceiveStep(s, t, attachment) else s
    case CompleteRead(t, u) =>
      if t !in s.tasks && u in s.uploads && s.uploads[u].status == Pending && HeadMatches(s, s.uploads[u])
      then Become(s, t, Completing(u)) else s
    case CompleteRow(t) => if t in s.tasks && s.tasks[t].Completing? then CompleteRowStep(s, t) else s
    case Attach(attachment, upload) => AttachStep(s, attachment, upload)
    case Detach(attachment) => s.(attachments := s.attachments - {attachment})
    case RetireRead(t, u) =>
      if t in s.tasks || u !in s.uploads then s else Become(s, t, Retiring(u, s.uploads[u].key, s.uploads[u].file))
    case RetireRow(t, delete) => if t in s.tasks && s.tasks[t].Retiring? then RetireRowStep(s, t, delete) else s
    case CollectRead(t, file) =>
      if t in s.tasks || file !in s.files then s else Become(s, t, Collecting(file, s.files[file].key))
    case CollectRow(t) => if t in s.tasks && s.tasks[t].Collecting? then CollectRowStep(s, t) else s
    case BackfillRead(t, file, candidate) => BackfillReadStep(s, t, file, candidate)
    case BackfillRow(t) => if t in s.tasks && s.tasks[t].Backfilling? then BackfillRowStep(s, t) else s
    case SweepCheck(t, key) => SweepCheckStep(s, t, key)
    case Drop(t) =>
      if t in s.tasks && s.tasks[t].Dropping? then Become(s.(store := s.store - {s.tasks[t].key}), t, Ended) else s
    case Tick(now) => if s.now <= now then s.(now := now) else s
  }

  function Run(s: State, actions: seq<Action>): State
    decreases |actions|
  {
    if actions == [] then s else Run(Apply(s, actions[0]), actions[1..])
  }
}
