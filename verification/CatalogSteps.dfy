/** Every calm step keeps the invariant of CatalogSafety. */
module CatalogSteps {
  import opened Blocks
  import opened Catalog
  import opened CatalogSafety
  import Md5Spec
  import opened Options

  // ------------------------------------------------------------------ what a step must leave alone

  /** A file row that survives keeps its key, and its object if it had one. */
  predicate FilesStay(s: State, after: State) {
    forall f :: f in after.files && f < s.supply ==>
      f in s.files && after.files[f].key == s.files[f].key
      && (s.files[f].key in s.store ==>
         s.files[f].key in after.store && after.store[s.files[f].key] == s.store[s.files[f].key])
  }

  /** No file row and no object is new. */
  predicate Shrinks(s: State, after: State) {
    after.supply == s.supply
    && (forall f :: f in after.files ==> f in s.files && after.files[f].key == s.files[f].key)
    && (forall key :: key in after.store ==> key in s.store && after.store[key] == s.store[key])
  }

  /** An upload that waits and whose file lacks its object waited like that before. */
  predicate ReadyStays(s: State, after: State) {
    forall u :: u in after.uploads && after.uploads[u].status in {Pending, Uploaded} ==>
      Ready(after, after.uploads[u])
      || (u in s.uploads && s.uploads[u].status == after.uploads[u].status && !Ready(s, s.uploads[u]))
  }

  /** What the other tasks know of their keys stays true. */
  predicate Spares(s: State, after: State, task: Task) {
    (task.Stored? || task.Losing? || task.Dropping? ==> !KeyTaken(after.files, task.key))
    && (task.Stored? && task.key in after.store ==> task.key in s.store && after.store[task.key] == s.store[task.key])
    && (task.Backfilling? ==>
          forall f :: f in after.files && after.files[f].key == task.key ==> f in s.files && s.files[f].key == task.key)
  }

  predicate Frames(s: State, after: State) {
    s.supply <= after.supply && FilesStay(s, after) && ReadyStays(s, after)
  }

  lemma TaskStaysOk(s: State, after: State, task: Task)
    requires TaskOk(s, task) && Frames(s, after) && Spares(s, after, task)
    ensures TaskOk(after, task)
  {
    hide Md5Spec.Digest;
  }

  lemma ShrinkingSpares(s: State, after: State, task: Task)
    requires TaskOk(s, task) && Shrinks(s, after)
    ensures Spares(s, after, task)
  {
    hide Md5Spec.Digest, Ready;
    assert forall key :: KeyTaken(after.files, key) ==> KeyTaken(s.files, key);
    hide KeyTaken;
  }

  predicate SparesOthers(s: State, after: State, t: nat) {
    forall t' :: t' in s.tasks && t' != t ==> Spares(s, after, s.tasks[t'])
  }

  lemma Assemble(s: State, after: State, t: nat, task: Task)
    requires Inv(s) && Frames(s, after) && SparesOthers(s, after, t) && TablesOk(after) && TaskOk(after, task)
    requires after.tasks == s.tasks[t := task]
    requires task.Stored? ==> forall t' :: t' in s.tasks && t' != t && s.tasks[t'].Stored? ==>
             s.tasks[t'].key != task.key
    ensures Inv(after)
  {
    hide TaskOk, Frames, Spares, TablesOk;
    forall t' | t' in after.tasks ensures TaskOk(after, after.tasks[t']) {
      if t' != t {
        TaskStaysOk(s, after, s.tasks[t']);
      }
    }
  }

  // ------------------------------------------------------------------ steps that bring in no row and no object

  /** The step may move one task, as long as it starts no new body. */
  lemma Settle(s: State, after: State, t: nat, task: Task)
    requires Inv(s) && Shrinks(s, after) && Frames(s, after) && TablesOk(after) && TaskOk(after, task)
    requires after.tasks == s.tasks[t := task]
    requires task.Stored? ==> t in s.tasks && s.tasks[t].Stored? && s.tasks[t].key == task.key
    ensures Inv(after)
  {
    hide TaskOk, Frames, Spares, TablesOk, Shrinks;
    forall t' | t' in s.tasks && t' != t ensures Spares(s, after, s.tasks[t']) {
      ShrinkingSpares(s, after, s.tasks[t']);
    }
    Assemble(s, after, t, task);
  }

  lemma SettleSame(s: State, after: State)
    requires Inv(s) && Shrinks(s, after) && Frames(s, after) && TablesOk(after) && after.tasks == s.tasks
    ensures Inv(after)
  {
    hide TaskOk, Frames, Spares, TablesOk, Shrinks;
    forall t | t in s.tasks ensures TaskOk(after, s.tasks[t]) {
      ShrinkingSpares(s, after, s.tasks[t]);
      TaskStaysOk(s, after, s.tasks[t]);
    }
  }

  lemma SameTables(s: State, after: State)
    requires Inv(s) && after.store == s.store && after.files == s.files && after.uploads == s.uploads
    requires after.attachments == s.attachments && after.supply == s.supply
    ensures TablesOk(after) && Frames(s, after) && Shrinks(s, after)
  {
    hide Md5Spec.Digest;
  }

  /** Only a task moves. */
  lemma BecomeKeeps(s: State, t: nat, task: Task)
    requires Inv(s) && TaskOk(s, task)
    requires task.Stored? ==> t in s.tasks && s.tasks[t].Stored? && s.tasks[t].key == task.key
    ensures Inv(Become(s, t, task))
  {
    hide TablesOk, Frames, Shrinks, Spares, Ready;
    var after := Become(s, t, task);
    SameTables(s, after);
    assert TaskOk(after, task) by { SameTask(s, after, task); }
    hide TaskOk;
    Settle(s, after, t, task);
  }

  lemma SameTask(s: State, after: State, task: Task)
    requires TaskOk(s, task) && after.store == s.store && after.files == s.files && after.uploads == s.uploads
             && after.supply == s.supply
    ensures TaskOk(after, task)
  {
    hide Md5Spec.Digest;
  }

  /** Rows of files and objects stay as they are. */
  lemma FilesStill(s: State, after: State)
    requires after.store == s.store && after.files == s.files
    ensures FilesStay(s, after) && (after.supply == s.supply ==> Shrinks(s, after))
    ensures FilesOk(s) && s.supply <= after.supply ==> FilesOk(after)
    ensures KeysDistinct(s) ==> KeysDistinct(after)
  {
    hide Md5Spec.Digest;
  }

  lemma Parts(s: State)
    requires Inv(s)
    ensures FilesOk(s) && KeysDistinct(s) && AttachmentsOk(s) && UploadsOk(s) && TasksOk(s) && StoredApart(s)
  {
  }

  lemma EndKeeps(s: State, t: nat)
    requires Inv(s)
    ensures Inv(Become(s, t, Ended))
  {
    hide Inv;
    BecomeKeeps(s, t, Ended);
  }

  /** While nobody has deleted it, the object under a key being registered is the body that was put. */
  lemma SearchKeeps(s: State, t: nat, candidate: Option<Id>)
    requires t in s.tasks && s.tasks[t].Stored?
    requires Inv(s)
    ensures Inv(SearchStep(s, t, candidate))
  {
    hide Md5Spec.Digest, Inv, KeysDistinct, AttachmentsOk, UploadsOk, StoredApart;
    Parts(s);
    var p := s.tasks[t];
    assert TaskOk(s, p);
    var after := SearchStep(s, t, candidate);
    if after != s {
      BecomeKeeps(s, t, after.tasks[t]);
    }
  }

  lemma RetireReadKeeps(s: State, t: nat, u: Id)
    requires Inv(s)
    ensures Inv(Apply(s, RetireRead(t, u)))
  {
    hide Inv;
    if t !in s.tasks && u in s.uploads {
      BecomeKeeps(s, t, Retiring(u, s.uploads[u].key, s.uploads[u].file));
    }
  }

  lemma CollectReadKeeps(s: State, t: nat, f: Id)
    requires Inv(s)
    ensures Inv(Apply(s, CollectRead(t, f)))
  {
    hide Md5Spec.Digest, Inv;
    Parts(s);
    if t !in s.tasks && f in s.files {
      BecomeKeeps(s, t, Collecting(f, s.files[f].key));
    }
  }

  lemma BackfillReadKeeps(s: State, t: nat, f: Id, candidate: Option<Id>)
    requires Inv(s)
    ensures Inv(BackfillReadStep(s, t, f, candidate))
  {
    hide Md5Spec.Digest, Inv, AttachmentsOk, UploadsOk, TasksOk, StoredApart;
    Parts(s);
    var after := BackfillReadStep(s, t, f, candidate);
    if after != s {
      BecomeKeeps(s, t, after.tasks[t]);
    }
  }

  /** An unreferenced object is nobody's. */
  lemma SweepCheckKeeps(s: State, t: nat, key: Key)
    requires Inv(s)
    ensures Inv(SweepCheckStep(s, t, key))
  {
    hide Inv;
    if SweepCheckStep(s, t, key) != s {
      BecomeKeeps(s, t, Dropping(key));
    }
  }

  lemma CompleteReadKeeps(s: State, t: nat, u: Id)
    requires Inv(s)
    ensures Inv(Apply(s, CompleteRead(t, u)))
  {
    hide Inv;
    if t !in s.tasks && u in s.uploads && s.uploads[u].status == Pending && HeadMatches(s, s.uploads[u]) {
      BecomeKeeps(s, t, Completing(u));
    }
  }

  // ------------------------------------------------------------------ objects

  /** What a deleted object leaves alone, if no row owns it. */
  lemma DeleteFrames(s: State, after: State, key: Key)
    requires TablesOk(s) && !KeyTaken(s.files, key)
    requires after == s.(store := s.store - {key}, tasks := after.tasks)
    ensures TablesOk(after) && Frames(s, after) && Shrinks(s, after)
  {
    hide Md5Spec.Digest;
    assert forall f :: f in s.files ==> s.files[f].key != key;
    hide KeyTaken;
    assert FilesOk(after) && UploadsOk(after) && KeysDistinct(after);
    hide FilesOk, UploadsOk, KeysDistinct;
    assert AttachmentsOk(after);
    hide AttachmentsOk;
  }

  lemma DeleteKeeps(s: State, t: nat, task: Task)
    requires t in s.tasks && (s.tasks[t].Losing? || s.tasks[t].Dropping?)
    requires if s.tasks[t].Dropping? then task == Ended
             else task == Registered(s.tasks[t].purpose, s.tasks[t].found, s.tasks[t].foundKey, s.tasks[t].bytes)
    requires Inv(s)
    ensures Inv(Become(s.(store := s.store - {s.tasks[t].key}), t, task))
  {
    hide TablesOk, Frames, Shrinks;
    var key := s.tasks[t].key;
    assert TaskOk(s, s.tasks[t]);
    var after := Become(s.(store := s.store - {key}), t, task);
    DeleteFrames(s, after, key);
    assert TaskOk(after, task);
    hide TaskOk, Inv;
    Settle(s, after, t, task);
  }

  /** A PUT under a key that no row owns. */
  lemma PutFrames(s: State, after: State, key: Key, body: Object)
    requires TablesOk(s) && !KeyTaken(s.files, key)
    requires after == s.(store := s.store[key := body], tasks := after.tasks)
    ensures TablesOk(after) && Frames(s, after)
  {
    hide Md5Spec.Digest;
    assert forall f :: f in s.files ==> s.files[f].key != key;
    hide KeyTaken;
    assert FilesOk(after) && UploadsOk(after) && KeysDistinct(after);
    hide FilesOk, UploadsOk, KeysDistinct;
    assert AttachmentsOk(after);
    hide AttachmentsOk;
  }

  lemma PutSpares(s: State, after: State, key: Key, body: Object, task: Task)
    requires TaskOk(s, task) && !(task.Stored? && task.key == key)
    requires after == s.(store := s.store[key := body], tasks := after.tasks)
    ensures Spares(s, after, task)
  {
    hide Md5Spec.Digest;
  }

  lemma PutKeeps(s: State, a: Action)
    requires a.Put? && Calm(s, a) && Inv(s)
    ensures Inv(PutStep(s, a))
  {
    hide Md5Spec.Digest, TablesOk, Frames, Spares;
    if PutActs(s, a) {
      var after := PutStep(s, a);
      var task := Stored(a.purpose, a.key, a.bytes, a.size, s.now, FirstSearch);
      PutFrames(s, after, a.key, Object(a.bytes, s.now));
      forall t | t in s.tasks ensures Spares(s, after, s.tasks[t]) && !(s.tasks[t].Stored? && s.tasks[t].key == a.key) {
        assert !Storing(s, a.key);
        PutSpares(s, after, a.key, Object(a.bytes, s.now), s.tasks[t]);
      }
      assert TaskOk(after, task);
      hide TaskOk, Inv;
      Assemble(s, after, a.task, task);
    }
  }

  // ------------------------------------------------------------------ file rows

  /** A new row for an object that no row owns. */
  lemma InsertFrames(s: State, after: State, row: File)
    requires TablesOk(s) && !KeyTaken(s.files, row.key) && row.key in s.store
             && row.md5 == Some(Md5Spec.Digest(s.store[row.key].bytes))
    requires after == s.(files := s.files[s.supply := row], supply := s.supply + 1, tasks := after.tasks)
    ensures TablesOk(after) && Frames(s, after)
  {
    hide Md5Spec.Digest;
    assert forall f :: f in s.files ==> s.files[f].key != row.key && f != s.supply;
    hide KeyTaken;
    assert FilesOk(after) && UploadsOk(after) && KeysDistinct(after);
    hide FilesOk, UploadsOk, KeysDistinct;
    assert AttachmentsOk(after);
    hide AttachmentsOk;
  }

  lemma InsertSpares(s: State, after: State, row: File, task: Task)
    requires TaskOk(s, task) && !Threatens(task, row.key) && !(task.Stored? && task.key == row.key)
    requires after == s.(files := s.files[s.supply := row], supply := s.supply + 1, tasks := after.tasks)
    ensures Spares(s, after, task)
  {
    hide Md5Spec.Digest;
    if !task.Retiring? && !task.Ended? && !task.Completing? && !task.Collecting? && task.key != row.key {
      assert KeyTaken(after.files, task.key) ==> KeyTaken(s.files, task.key);
    }
    hide KeyTaken;
  }

  lemma InsertedKeeps(s: State, t: nat)
    requires Inserts(s, t) && Calm(s, Insert(t))
    requires Inv(s)
    ensures Inv(InsertStep(s, t))
  {
    hide Md5Spec.Digest, TablesOk, Frames, Spares, DedupeTaken;
    var p := s.tasks[t];
    var row := RowToInsert(s, t);
    var after := InsertStep(s, t);
    assert TaskOk(s, p);
    InsertFrames(s, after, row);
    forall t' | t' in s.tasks && t' != t ensures Spares(s, after, s.tasks[t']) {
      InsertSpares(s, after, row, s.tasks[t']);
    }
    var task := Registered(p.purpose, s.supply, p.key, p.bytes);
    assert TaskOk(after, task);
    hide TaskOk, Inv, Calm;
    Assemble(s, after, t, task);
  }

  /** Both inserts, of a row for an object that is there and that nobody is about to delete. */
  lemma InsertKeeps(s: State, t: nat)
    requires t in s.tasks && s.tasks[t].Stored? && Calm(s, Insert(t))
    requires Inv(s)
    ensures Inv(InsertStep(s, t))
  {
    hide Md5Spec.Digest, Inv, Calm;
    if Inserts(s, t) {
      InsertedKeeps(s, t);
    } else {
      Parts(s);
      assert TaskOk(s, s.tasks[t]);
      var after := InsertStep(s, t);
      hide FilesOk, KeysDistinct, AttachmentsOk, UploadsOk, StoredApart, TasksOk;
      if after != s {
        assert after == Become(s, t, after.tasks[t]);
        BecomeKeeps(s, t, after.tasks[t]);
      }
    }
  }

  /** A file row nothing refers to, or waits for, can go; consumed uploads are unlinked from it. */
  lemma FileGoneFrames(s: State, after: State, f: Id)
    requires TablesOk(s) && !Attached(s, f) && !Awaited(s, f)
    requires after == s.(files := s.files - {f}, uploads := Unlinked(s.uploads, f), tasks := after.tasks)
    ensures TablesOk(after) && Frames(s, after) && Shrinks(s, after)
  {
    hide Md5Spec.Digest;
    FileGoneUploads(s, after, f);
    FileGoneAttachments(s, after, f);
    hide UploadsOk, Attached, Awaited, ReadyStays, AttachmentsOk, Unlinked;
  }

  lemma FileGoneUploads(s: State, after: State, f: Id)
    requires UploadsOk(s) && !Awaited(s, f)
    requires after == s.(files := s.files - {f}, uploads := Unlinked(s.uploads, f), tasks := after.tasks)
    ensures UploadsOk(after) && ReadyStays(s, after)
  {
    forall u | u in s.uploads && s.uploads[u].status in {Pending, Uploaded} ensures s.uploads[u].file != Some(f) {
      assert !Awaited(s, f);
    }
    hide Awaited;
  }

  lemma FileGoneAttachments(s: State, after: State, f: Id)
    requires AttachmentsOk(s) && !Attached(s, f)
    requires after == s.(files := s.files - {f}, uploads := after.uploads, tasks := after.tasks)
    ensures AttachmentsOk(after)
  {
    forall a | a in s.attachments ensures s.attachments[a].file != f {
      assert !Attached(s, f);
    }
  }

  lemma CollectRowKeeps(s: State, t: nat)
    requires t in s.tasks && s.tasks[t].Collecting?
    requires Inv(s)
    ensures Inv(CollectRowStep(s, t))
  {
    hide Md5Spec.Digest, TablesOk, Frames, Shrinks;
    var p := s.tasks[t];
    if p.file !in s.files || Attached(s, p.file) || Awaited(s, p.file) {
      EndKeeps(s, t);
    } else {
      var after := CollectRowStep(s, t);
      Parts(s);
      assert TaskOk(s, p);
      FileGoneFrames(s, after, p.file);
      assert TaskOk(after, Dropping(p.key));
      hide TaskOk, Inv, Attached, Awaited, Unlinked;
      Settle(s, after, t, Dropping(p.key));
    }
  }

  // ------------------------------------------------------------------ filling in an MD5

  predicate Mergeable(s: State, file: Id, to: Match) {
    to.id != file && (to.id in s.files || !(Attached(s, file) || Uploading(s, file)))
    && (file in s.files && to.id in s.files ==>
          s.files[to.id].key == to.key && to.key in s.store && s.files[file].key in s.store
          && s.store[to.key].bytes == s.store[s.files[file].key].bytes)
  }

  lemma MergeUploads(s: State, after: State, file: Id, to: Match)
    requires UploadsOk(s) && Mergeable(s, file, to) && after == Merged(s, file, to).(tasks := after.tasks)
    ensures UploadsOk(after) && ReadyStays(s, after)
  {
    forall u | u in s.uploads && s.uploads[u].file == Some(file) ensures Uploading(s, file) {
    }
    hide Uploading, Attached;
  }

  lemma MergeAttachments(s: State, after: State, file: Id, to: Match)
    requires AttachmentsOk(s) && Mergeable(s, file, to) && after == Merged(s, file, to).(tasks := after.tasks)
    ensures AttachmentsOk(after)
  {
    forall a | a in after.attachments ensures AttachmentOk(after, after.attachments[a]) {
      assert AttachmentOk(s, s.attachments[a]);
      assert s.attachments[a].file == file ==> Attached(s, file);
    }
  }

  /** Everything that pointed at one file points at another with the same bytes. */
  lemma MergeFrames(s: State, after: State, file: Id, to: Match)
    requires TablesOk(s) && Mergeable(s, file, to) && after == Merged(s, file, to).(tasks := after.tasks)
    ensures TablesOk(after) && Frames(s, after) && Shrinks(s, after)
  {
    hide Md5Spec.Digest;
    MergeUploads(s, after, file, to);
    MergeAttachments(s, after, file, to);
    hide UploadsOk, ReadyStays, AttachmentsOk, Mergeable;
  }

  /** Both files were compared earlier; if both are still there they still are the same. */
  lemma MergeKeeps(s: State, t: nat)
    requires t in s.tasks && s.tasks[t].Backfilling? && s.tasks[t].candidate.Some?
    requires s.tasks[t].candidate.value.id in s.files
             || !(Attached(s, s.tasks[t].file) || Uploading(s, s.tasks[t].file))
    requires Inv(s)
    ensures Inv(BackfillRowStep(s, t))
  {
    hide Md5Spec.Digest, TablesOk, Frames, Shrinks, Attached, Uploading;
    var p := s.tasks[t];
    var to := p.candidate.value;
    var after := BackfillRowStep(s, t);
    assert TaskOk(s, p);
    MergeFrames(s, after, p.file, to);
    assert TaskOk(after, after.tasks[t]);
    hide TaskOk, Inv, Merged;
    Settle(s, after, t, after.tasks[t]);
  }

  lemma HashFrames(s: State, after: State, f: Id, row: File)
    requires TablesOk(s) && f in s.files && row.key == s.files[f].key && row.key in s.store
    requires row.md5 == Some(Md5Spec.Digest(s.store[row.key].bytes))
    requires after == s.(files := s.files[f := row], tasks := after.tasks)
    ensures TablesOk(after) && Frames(s, after) && Shrinks(s, after)
  {
    hide Md5Spec.Digest;
    assert FilesOk(after) && UploadsOk(after) && KeysDistinct(after);
    hide FilesOk, UploadsOk, KeysDistinct;
    assert AttachmentsOk(after);
    hide AttachmentsOk;
  }

  lemma HashKeeps(s: State, t: nat)
    requires t in s.tasks && s.tasks[t].Backfilling? && s.tasks[t].candidate.None?
    requires Inv(s)
    ensures Inv(BackfillRowStep(s, t))
  {
    hide Md5Spec.Digest, TablesOk, Frames, Shrinks, DedupeTaken;
    var p := s.tasks[t];
    if p.file !in s.files || s.files[p.file].md5.Some? {
      EndKeeps(s, t);
    } else {
      var after := BackfillRowStep(s, t);
      assert TaskOk(s, p);
      HashFrames(s, after, p.file, after.files[p.file]);
      assert TaskOk(after, Ended);
      hide TaskOk, Inv;
      Settle(s, after, t, Ended);
    }
  }

  lemma BackfillRowKeeps(s: State, t: nat)
    requires t in s.tasks && s.tasks[t].Backfilling?
    requires Inv(s)
    ensures Inv(BackfillRowStep(s, t))
  {
    hide Inv, Attached, Uploading;
    var p := s.tasks[t];
    if p.candidate.None? {
      HashKeeps(s, t);
    } else if p.candidate.value.id !in s.files && (Attached(s, p.file) || Uploading(s, p.file)) {
      EndKeeps(s, t);
    } else {
      MergeKeeps(s, t);
    }
  }

  // ------------------------------------------------------------------ uploads and attachments

  /**
   Files and objects stay as they are; every upload still has its file, and those that wait are as ready as before.
   */
  lemma RowsFrames(s: State, after: State)
    requires FilesOk(s) && KeysDistinct(s) && UploadsOk(after) && ReadyStays(s, after) && AttachmentsOk(after)
    requires after.store == s.store && after.files == s.files && after.supply == s.supply
    ensures TablesOk(after) && Frames(s, after) && Shrinks(s, after)
  {
    hide Md5Spec.Digest, UploadsOk, ReadyStays, AttachmentsOk;
  }

  lemma SameAttachments(s: State, after: State)
    requires AttachmentsOk(s) && after.store == s.store && after.files == s.files && after.attachments == s.attachments
    ensures AttachmentsOk(after)
  {
  }

  lemma UploadsKeep(s: State, after: State)
    requires Inv(s) && after == s.(uploads := after.uploads) && UploadsOk(after) && ReadyStays(s, after)
    ensures Inv(after)
  {
    hide Inv, UploadsOk, AttachmentsOk, ReadyStays, Frames, Shrinks, TablesOk;
    Parts(s);
    SameAttachments(s, after);
    RowsFrames(s, after);
    SettleSame(s, after);
  }

  lemma AttachmentsKeep(s: State, after: State)
    requires Inv(s) && after == s.(attachments := after.attachments) && AttachmentsOk(after)
    ensures Inv(after)
  {
    hide Inv, UploadsOk, AttachmentsOk, ReadyStays, Frames, Shrinks, TablesOk;
    Parts(s);
    UploadsMove(s, after);
    RowsFrames(s, after);
    SettleSame(s, after);
  }

  /** What is linked is what was registered, so its object is there. */
  lemma LinkKeeps(s: State, t: nat)
    requires t in s.tasks && s.tasks[t].Registered? && s.tasks[t].purpose.ForUpload?
    requires Inv(s)
    ensures Inv(LinkStep(s, t))
  {
    hide Md5Spec.Digest, Inv, FilesOk, KeysDistinct, AttachmentsOk, StoredApart;
    Parts(s);
    var p := s.tasks[t];
    var u := p.purpose.upload;
    assert TaskOk(s, p);
    if u in s.uploads && s.uploads[u].status == Pending && s.uploads[u].file == None && p.file in s.files {
      var middle := s.(uploads := s.uploads[u := s.uploads[u].(file := Some(p.file))]);
      assert UploadsOk(middle) && ReadyStays(s, middle);
      hide UploadsOk, ReadyStays, TaskOk, TasksOk;
      UploadsKeep(s, middle);
      EndKeeps(middle, t);
    } else {
      EndKeeps(s, t);
    }
  }

  lemma ReceiveKeeps(s: State, t: nat, attachment: Id)
    requires t in s.tasks && s.tasks[t].Registered? && s.tasks[t].purpose.ForMessage?
    requires Inv(s)
    ensures Inv(ReceiveStep(s, t, attachment))
  {
    hide Md5Spec.Digest, Inv, FilesOk, KeysDistinct, UploadsOk, StoredApart;
    Parts(s);
    var p := s.tasks[t];
    assert TaskOk(s, p);
    if attachment !in s.attachments && p.file in s.files {
      var middle := s.(attachments := s.attachments[attachment := Attachment(p.key, p.file, p.bytes)]);
      assert AttachmentsOk(middle);
      hide AttachmentsOk, TaskOk, TasksOk;
      AttachmentsKeep(s, middle);
      EndKeeps(middle, t);
    } else {
      EndKeeps(s, t);
    }
  }

  lemma AttachKeeps(s: State, attachment: Id, upload: Id)
    requires Inv(s)
    ensures Inv(AttachStep(s, attachment, upload))
  {
    hide Md5Spec.Digest, Inv, TablesOk, FilesOk, KeysDistinct, ReadyStays, Frames, Shrinks, TaskOk;
    var after := AttachStep(s, attachment, upload);
    Parts(s);
    UploadsMove(s, after);
    assert AttachmentsOk(after);
    hide UploadsOk, AttachmentsOk;
    RowsFrames(s, after);
    SettleSame(s, after);
  }

  /** The object was there when it was looked at, and has been kept since. */
  lemma CompleteRowKeeps(s: State, t: nat)
    requires t in s.tasks && s.tasks[t].Completing?
    requires Inv(s)
    ensures Inv(CompleteRowStep(s, t))
  {
    hide Md5Spec.Digest, Inv, FilesOk, KeysDistinct, AttachmentsOk, StoredApart;
    Parts(s);
    var u := s.tasks[t].upload;
    assert TaskOk(s, s.tasks[t]);
    if u in s.uploads && s.uploads[u].status == Pending {
      var middle := s.(uploads := s.uploads[u := s.uploads[u].(status := Uploaded)]);
      assert UploadsOk(middle) && ReadyStays(s, middle);
      hide UploadsOk, ReadyStays, TaskOk, TasksOk;
      UploadsKeep(s, middle);
      EndKeeps(middle, t);
    } else {
      EndKeeps(s, t);
    }
  }

  /** Uploads may go, expire, be consumed, or be made without a file. */
  lemma UploadsMove(s: State, after: State)
    requires UploadsOk(s) && after.store == s.store && after.files == s.files
    requires forall u :: u in after.uploads && after.uploads[u].file.Some? ==>
               u in s.uploads && after.uploads[u].file == s.uploads[u].file
               && after.uploads[u].status in {s.uploads[u].status, Expired, Consumed}
    ensures UploadsOk(after) && ReadyStays(s, after)
  {
  }

  /** A cancel or an expiry, and if the object under the upload's key is to go, no row owns it. */
  lemma RetireRowKeeps(s: State, t: nat, delete: bool)
    requires t in s.tasks && s.tasks[t].Retiring? && Calm(s, RetireRow(t, delete))
    requires Inv(s)
    ensures Inv(RetireRowStep(s, t, delete))
  {
    hide Inv;
    if !Retires(s, t, delete) {
      EndKeeps(s, t);
    } else {
      var p := s.tasks[t];
      var uploads := if delete then s.uploads - {p.upload}
          else s.uploads[p.upload := s.uploads[p.upload].(status := Expired)];
      var middle := s.(uploads := uploads);
      Parts(s);
      hide UploadsOk, FilesOk, KeysDistinct, AttachmentsOk, TasksOk, StoredApart;
      UploadsMove(s, middle);
      hide ReadyStays;
      UploadsKeep(s, middle);
      BecomeKeeps(middle, t, if p.seen == None then Dropping(p.key) else Ended);
    }
  }

  lemma CreateKeeps(s: State, u: Id, key: Key, size: nat)
    requires Inv(s)
    ensures Inv(Apply(s, Create(u, key, size)))
  {
    hide Inv;
    if u !in s.uploads {
      var after := s.(uploads := s.uploads[u := Upload(key, size, Pending, None)]);
      Parts(s);
      hide UploadsOk;
      UploadsMove(s, after);
      hide ReadyStays;
      UploadsKeep(s, after);
    }
  }

  lemma DetachKeeps(s: State, attachment: Id)
    requires Inv(s)
    ensures Inv(Apply(s, Detach(attachment)))
  {
    hide Inv;
    Parts(s);
    var after := s.(attachments := s.attachments - {attachment});
    assert AttachmentsOk(after);
    hide AttachmentsOk;
    AttachmentsKeep(s, after);
  }

  lemma TickKeeps(s: State, now: int)
    requires Inv(s)
    ensures Inv(Apply(s, Tick(now)))
  {
    hide Md5Spec.Digest, TablesOk, Frames, Shrinks;
    var after := Apply(s, Tick(now));
    assert after == s.(now := after.now);
    hide Apply, Inv;
    SameTables(s, after);
    SettleSame(s, after);
  }

  // ------------------------------------------------------------------ all steps, all runs

  /** Main result: every calm step keeps the invariant. */
  lemma StepKeeps(s: State, a: Action)
    requires Inv(s) && Calm(s, a)
    ensures Inv(Apply(s, a))
  {
    hide Inv, Calm, PutStep, SearchStep, InsertStep, LinkStep, ReceiveStep, AttachStep, RetireRowStep;
    hide CollectRowStep, BackfillReadStep, BackfillRowStep, SweepCheckStep, CompleteRowStep, HeadMatches;
    match a
    case Create(u, key, size) => CreateKeeps(s, u, key, size);
    case Put(_, _, _, _, _) => PutKeeps(s, a);
    case Search(t, candidate) => if t in s.tasks && s.tasks[t].Stored? { SearchKeeps(s, t, candidate); }
    case Insert(t) => if t in s.tasks && s.tasks[t].Stored? { InsertKeeps(s, t); }
    case DropLoser(t) =>
      if t in s.tasks && s.tasks[t].Losing? {
        var p := s.tasks[t];
        DeleteKeeps(s, t, Registered(p.purpose, p.found, p.foundKey, p.bytes));
      }
    case Link(t) => if t in s.tasks && s.tasks[t].Registered? && s.tasks[t].purpose.ForUpload? { LinkKeeps(s, t); }
    case Receive(t, attachment) =>
      if t in s.tasks && s.tasks[t].Registered? && s.tasks[t].purpose.ForMessage? { ReceiveKeeps(s, t, attachment); }
    case CompleteRead(t, u) => CompleteReadKeeps(s, t, u);
    case CompleteRow(t) => if t in s.tasks && s.tasks[t].Completing? { CompleteRowKeeps(s, t); }
    case Attach(attachment, upload) => AttachKeeps(s, attachment, upload);
    case Detach(attachment) => DetachKeeps(s, attachment);
    case RetireRead(t, u) => RetireReadKeeps(s, t, u);
    case RetireRow(t, delete) => if t in s.tasks && s.tasks[t].Retiring? { RetireRowKeeps(s, t, delete); }
    case CollectRead(t, file) => CollectReadKeeps(s, t, file);
    case CollectRow(t) => if t in s.tasks && s.tasks[t].Collecting? { CollectRowKeeps(s, t); }
    case BackfillRead(t, file, candidate) => BackfillReadKeeps(s, t, file, candidate);
    case BackfillRow(t) => if t in s.tasks && s.tasks[t].Backfilling? { BackfillRowKeeps(s, t); }
    case SweepCheck(t, key) => SweepCheckKeeps(s, t, key);
    case Drop(t) => if t in s.tasks && s.tasks[t].Dropping? { DeleteKeeps(s, t, Ended); }
    case Tick(now) => TickKeeps(s, now);
  }

  lemma {:induction false} RunKeeps(s: State, actions: seq<Action>)
    requires Inv(s) && CalmRun(s, actions)
    ensures Inv(Run(s, actions))
    decreases |actions|
  {
    if actions != [] {
      StepKeeps(s, actions[0]);
      hide Inv, Apply, Calm;
      RunKeeps(Apply(s, actions[0]), actions[1..]);
    }
  }
}
