/**
 Safety of the attachment catalog: in every calm run, every file row with an MD5 owns an object that hashes to it, and
 every attachment still downloads the bytes it was attached with.
 */
module CatalogSafety {
  import opened Blocks
  import opened Catalog
  import Md5Spec
  import opened Options

  // ------------------------------------------------------------------ which runs are calm

  /** A task that will yet delete the object under `key`, whatever happens to rows. */
  predicate Threatens(task: Task, key: Key) {
    (task.Losing? || task.Backfilling? || task.Dropping?) && task.key == key
  }

  predicate Storing(s: State, key: Key) {
    exists t :: t in s.tasks && s.tasks[t].Stored? && s.tasks[t].key == key
  }

  predicate PutActs(s: State, a: Action)
    requires a.Put?
  {
    a.task !in s.tasks
    && (a.purpose.ForUpload? ==>
          a.purpose.upload in s.uploads && s.uploads[a.purpose.upload] == Upload(a.key, a.size, Pending, None))
  }

  /** The row of the file that this insert would make. */
  function RowToInsert(s: State, t: nat): File
    requires t in s.tasks && s.tasks[t].Stored?
  {
    var p := s.tasks[t];
    var md5 := Md5Spec.Digest(p.bytes);
    File(p.key, if p.turn == FirstInsert then Base(md5, p.size) else Own(s.supply), Some(md5), p.size)
  }

  predicate Inserts(s: State, t: nat) {
    t in s.tasks && s.tasks[t].Stored? && (s.tasks[t].turn == FirstInsert || s.tasks[t].turn == SecondInsert)
    && !KeyTaken(s.files, s.tasks[t].key) && !DedupeTaken(s.files, RowToInsert(s, t).dedupe)
  }

  predicate Retires(s: State, t: nat, delete: bool) {
    t in s.tasks && s.tasks[t].Retiring? && s.tasks[t].upload in s.uploads
    && var status := s.uploads[s.tasks[t].upload].status;
       if delete then status != Consumed else status in {Pending, Uploaded}
  }

  /**
   The assumptions of every safety result here; CatalogExact shows that each step keeps the invariant if and only if
   it meets them.  No PUT goes over the object of a file row, or over one that is still being registered.  A row is
   inserted while its object is there and nobody is about to delete it; CatalogOrder says when that is so.  No cancel
   or expiry that saw its upload without a file, and will delete the object, finds a file row that owns it by then.
   */
  predicate Calm(s: State, a: Action) {
    match a
    case Put(_, _, key, _, _) => PutActs(s, a) ==> !KeyTaken(s.files, key) && !Storing(s, key)
    case Insert(t) =>
      Inserts(s, t) ==>
        s.tasks[t].key in s.store && forall t' :: t' in s.tasks ==> !Threatens(s.tasks[t'], s.tasks[t].key)
    case RetireRow(t, delete) =>
      Retires(s, t, delete) && s.tasks[t].seen == None ==> !KeyTaken(s.files, s.tasks[t].key)
    case _ => true
  }

  predicate CalmRun(s: State, actions: seq<Action>)
    decreases |actions|
  {
    actions == [] || (Calm(s, actions[0]) && CalmRun(Apply(s, actions[0]), actions[1..]))
  }

  // ------------------------------------------------------------------ the invariant

  /** A row without an MD5 is one that migration 0007 made; its object may never have been there. */
  ghost predicate FilesOk(s: State) {
    forall f :: f in s.files ==>
      f < s.supply
      && (s.files[f].md5.Some? ==>
            s.files[f].key in s.store && Md5Spec.Digest(s.store[s.files[f].key].bytes) == s.files[f].md5.value)
  }

  predicate KeysDistinct(s: State) {
    forall f, g :: f in s.files && g in s.files && s.files[f].key == s.files[g].key ==> f == g
  }

  /** The row is live and owns the attachment's key, and the object still is what was attached. */
  predicate AttachmentOk(s: State, a: Attachment) {
    a.file in s.files && s.files[a.file].key == a.key && a.key in s.store && s.store[a.key].bytes == a.original
  }

  predicate AttachmentsOk(s: State) {
    forall a :: a in s.attachments ==> AttachmentOk(s, s.attachments[a])
  }

  /** The upload's file, if it has one, has its object. */
  predicate Ready(s: State, u: Upload) {
    u.file.Some? ==> u.file.value in s.files && s.files[u.file.value].key in s.store
  }

  predicate UploadsOk(s: State) {
    forall u :: u in s.uploads ==>
      (s.uploads[u].file.Some? ==> s.uploads[u].file.value in s.files)
      && (s.uploads[u].status == Uploaded ==> Ready(s, s.uploads[u]))
  }

  predicate StillHas(s: State, f: Id, key: Key, bytes: Bytes) {
    f < s.supply && (f in s.files ==> s.files[f].key == key && key in s.store && s.store[key].bytes == bytes)
  }

  ghost predicate TaskOk(s: State, task: Task) {
    match task
    case Stored(_, key, bytes, _, _, _) => !KeyTaken(s.files, key) && (key in s.store ==> s.store[key].bytes == bytes)
    case Losing(_, key, found, foundKey, bytes) => !KeyTaken(s.files, key) && StillHas(s, found, foundKey, bytes)
    case Registered(_, file, key, bytes) => StillHas(s, file, key, bytes)
    case Retiring(_, _, _) => true
    case Collecting(file, key) => file < s.supply && (file in s.files ==> s.files[file].key == key)
    case Backfilling(file, key, md5, candidate) =>
      file < s.supply
      && (forall f :: f in s.files && s.files[f].key == key ==> f == file)
      && (file in s.files ==> s.files[file].key == key && key in s.store && Md5Spec.Digest(s.store[key].bytes) == md5)
      && (candidate.Some? ==>
            var to := candidate.value;
            to.id < s.supply && to.id != file && to.key != key
            && (to.id in s.files ==>
                  s.files[to.id].key == to.key && to.key in s.store
                  && (file in s.files ==> s.store[to.key].bytes == s.store[s.files[file].key].bytes)))
    case Completing(u) => u in s.uploads && s.uploads[u].status == Pending ==> Ready(s, s.uploads[u])
    case Dropping(key) => !KeyTaken(s.files, key)
    case Ended => true
  }

  ghost predicate TasksOk(s: State) {
    forall t :: t in s.tasks ==> TaskOk(s, s.tasks[t])
  }

  /** No two bodies are being registered under one key. */
  predicate StoredApart(s: State) {
    forall t, t' :: t in s.tasks && t' in s.tasks && s.tasks[t].Stored? && s.tasks[t'].Stored? && t != t' ==>
      s.tasks[t].key != s.tasks[t'].key
  }

  ghost predicate TablesOk(s: State) {
    FilesOk(s) && KeysDistinct(s) && AttachmentsOk(s) && UploadsOk(s)
  }

  ghost predicate Inv(s: State) {
    TablesOk(s) && TasksOk(s) && StoredApart(s)
  }
}
