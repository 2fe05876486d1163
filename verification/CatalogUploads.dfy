/**
 The life of an upload: what `complete` checks stays true until the upload is attached, and an attached upload is
 consumed for good.
 */
module CatalogUploads {
  import opened Blocks
  import opened Catalog
  import opened CatalogSafety
  import opened CatalogSteps
  import opened CatalogTheorems
  import Md5Spec
  import opened Options

  /** The upload's file, while it is there, has the size the upload was created with. */
  predicate Sized(s: State, u: Upload) {
    u.file.Some? && u.file.value in s.files ==>
      var key := s.files[u.file.value].key; key in s.store && |s.store[key].bytes| == u.size
  }

  /** `complete` has looked at the upload's object, whether or not it has yet written that it did. */
  predicate Checked(s: State, u: Id)
    requires u in s.uploads
  {
    s.uploads[u].status == Uploaded
    || (s.uploads[u].status == Pending && exists t :: t in s.tasks && s.tasks[t] == Completing(u))
  }

  predicate SizesOk(s: State) {
    forall u :: u in s.uploads && Checked(s, u) ==>
      Sized(s, s.uploads[u]) && (s.uploads[u].status == Pending ==> s.uploads[u].file.Some?)
  }

  /** Nothing is newly checked, and what was checked has its file and its size still. */
  predicate ChecksNone(s: State, after: State) {
    forall u :: u in after.uploads && Checked(after, u) ==>
      u in s.uploads && Checked(s, u) && after.uploads[u].file == s.uploads[u].file
          && after.uploads[u].size == s.uploads[u].size
      && (after.uploads[u].status == Pending ==> s.uploads[u].status == Pending)
  }

  /** An upload is made under an id that no `complete` still has in hand; ids are drawn at random. */
  predicate NewId(s: State, a: Action) {
    a.Create? && a.upload !in s.uploads ==> forall t :: t in s.tasks ==> s.tasks[t] != Completing(a.upload)
  }

  predicate NewIds(s: State, actions: seq<Action>)
    decreases |actions|
  {
    actions == [] || (NewId(s, actions[0]) && NewIds(Apply(s, actions[0]), actions[1..]))
  }

  lemma SizesStay(s: State, after: State)
    requires SizesOk(s) && UploadsOk(s) && FilesOk(s) && FilesStay(s, after) && ChecksNone(s, after)
    ensures SizesOk(after)
  {
    hide Md5Spec.Digest, Checked;
    forall u | u in after.uploads && Checked(after, u) ensures Sized(after, after.uploads[u]) {
      assert Sized(s, s.uploads[u]);
    }
  }

  // ------------------------------------------------------------------ steps that check nothing

  /** An upload that waits is as it was; others may have been cancelled, expired, attached or unlinked. */
  predicate Kept(s: State, after: State, u: Id)
    requires u in after.uploads
  {
    after.uploads[u].status in {Pending, Uploaded} ==> u in s.uploads && after.uploads[u] == s.uploads[u]
  }

  predicate AllKept(s: State, after: State) {
    forall u :: u in after.uploads ==> Kept(s, after, u)
  }

  /** A task moves, but not to complete an upload. */
  lemma MovesOn(s: State, after: State, t: nat, task: Task)
    requires FilesStay(s, after) && AllKept(s, after)
    requires after.tasks == s.tasks[t := task] && !task.Completing?
    requires SizesOk(s) && UploadsOk(s) && FilesOk(s)
    ensures SizesOk(after)
  {
    hide FilesStay, SizesOk, UploadsOk, FilesOk;
    forall u | u in after.uploads && Checked(after, u)
      ensures u in s.uploads && Checked(s, u) && after.uploads[u] == s.uploads[u] {
      assert Kept(s, after, u);
      if after.uploads[u].status == Pending {
        var t' :| t' in after.tasks && after.tasks[t'] == Completing(u);
        assert t' in s.tasks && s.tasks[t'] == Completing(u);
      }
    }
    SizesStay(s, after);
  }

  lemma StaysStill(s: State, after: State)
    requires FilesStay(s, after) && AllKept(s, after) && after.tasks == s.tasks
    requires SizesOk(s) && UploadsOk(s) && FilesOk(s)
    ensures SizesOk(after)
  {
    hide FilesStay, SizesOk, UploadsOk, FilesOk;
    SizesStay(s, after);
  }

  lemma TaskMoves(s: State, t: nat, task: Task)
    requires !task.Completing? && SizesOk(s) && UploadsOk(s) && FilesOk(s)
    ensures SizesOk(Become(s, t, task))
  {
    hide SizesOk, UploadsOk, FilesOk, FilesStay;
    FilesStill(s, Become(s, t, task));
    MovesOn(s, Become(s, t, task), t, task);
  }

  lemma PutSizes(s: State, a: Action)
    requires a.Put? && Calm(s, a) && Inv(s) && SizesOk(s)
    ensures SizesOk(PutStep(s, a))
  {
    hide SizesOk, Calm, Inv;
    assert FilesOk(s) && UploadsOk(s) by { Parts(s); }
    hide FilesOk, UploadsOk;
    if PutActs(s, a) {
      assert !KeyTaken(s.files, a.key) by { PutKeyIsFree(s, a); }
      hide KeyTaken, Md5Spec.Digest;
      var after := PutStep(s, a);
      assert FilesStay(s, after) by { PutFiles(s, a); }
      hide FilesStay;
      MovesOn(s, after, a.task, after.tasks[a.task]);
    }
  }

  lemma PutKeyIsFree(s: State, a: Action)
    requires a.Put? && PutActs(s, a) && Calm(s, a)
    ensures !KeyTaken(s.files, a.key)
  {
  }

  lemma PutFiles(s: State, a: Action)
    requires a.Put? && PutActs(s, a) && !KeyTaken(s.files, a.key)
    ensures FilesStay(s, PutStep(s, a))
  {
    forall f | f in s.files ensures s.files[f].key != a.key {
      assert !KeyTaken(s.files, a.key);
    }
    hide KeyTaken, Md5Spec.Digest;
  }

  /** Nobody's object is deleted. */
  lemma DropSizes(s: State, t: nat, task: Task)
    requires t in s.tasks && (s.tasks[t].Losing? || s.tasks[t].Dropping?) && !task.Completing? && Inv(s) && SizesOk(s)
    ensures SizesOk(Become(s.(store := s.store - {s.tasks[t].key}), t, task))
  {
    hide SizesOk, Inv, FilesStay, FilesOk, UploadsOk, Md5Spec.Digest;
    Parts(s);
    var key := s.tasks[t].key;
    assert !KeyTaken(s.files, key) by { assert TaskOk(s, s.tasks[t]); }
    hide TasksOk;
    var after := Become(s.(store := s.store - {key}), t, task);
    DropFiles(s, key);
    hide KeyTaken;
    assert FilesStay(s, after) by { SameFiles(s, s.(store := s.store - {key}), after); }
    MovesOn(s, after, t, task);
  }

  lemma DropFiles(s: State, key: Key)
    requires !KeyTaken(s.files, key)
    ensures FilesStay(s, s.(store := s.store - {key}))
  {
  }

  lemma SameFiles(s: State, middle: State, after: State)
    requires FilesStay(s, middle) && after.files == middle.files && after.store == middle.store
    ensures FilesStay(s, after)
  {
  }

  lemma SearchSizes(s: State, t: nat, candidate: Option<Id>)
    requires t in s.tasks && s.tasks[t].Stored? && SizesOk(s) && UploadsOk(s) && FilesOk(s)
    ensures SizesOk(SearchStep(s, t, candidate))
  {
    hide SizesOk, UploadsOk, FilesOk, Identical, Md5Spec.Digest;
    var after := SearchStep(s, t, candidate);
    if after != s {
      assert after == Become(s, t, after.tasks[t]) && !after.tasks[t].Completing?;
      TaskMoves(s, t, after.tasks[t]);
    }
  }

  lemma InsertSizes(s: State, t: nat)
    requires t in s.tasks && s.tasks[t].Stored? && SizesOk(s) && UploadsOk(s) && FilesOk(s)
    ensures SizesOk(InsertStep(s, t))
  {
    hide SizesOk, UploadsOk, KeyTaken, DedupeTaken, Md5Spec.Digest;
    var after := InsertStep(s, t);
    if after != s {
      hide FilesOk;
      assert FilesStay(s, after);
      hide FilesStay;
      MovesOn(s, after, t, after.tasks[t]);
    }
  }

  /** No file is linked to an upload that `complete` has looked at: that one has a file. */
  lemma LinkSizes(s: State, t: nat)
    requires t in s.tasks && s.tasks[t].Registered? && s.tasks[t].purpose.ForUpload? && Inv(s) && SizesOk(s)
    ensures SizesOk(LinkStep(s, t))
  {
    hide Inv, Md5Spec.Digest;
    Parts(s);
    hide FilesOk, UploadsOk, TasksOk, AttachmentsOk, KeysDistinct, StoredApart;
    var p := s.tasks[t];
    var u := p.purpose.upload;
    var after := LinkStep(s, t);
    FilesStill(s, after);
    hide FilesStay;
    if u in s.uploads && s.uploads[u].status == Pending && s.uploads[u].file == None && p.file in s.files {
      assert !Checked(s, u);
      hide SizesOk;
      LinkChecksNone(s, t);
      SizesStay(s, after);
    } else {
      hide SizesOk;
      TaskMoves(s, t, Ended);
    }
  }

  lemma LinkChecksNone(s: State, t: nat)
    requires t in s.tasks && s.tasks[t].Registered? && s.tasks[t].purpose.ForUpload?
    requires forall t' :: t' in s.tasks ==> s.tasks[t'] != Completing(s.tasks[t].purpose.upload)
    ensures ChecksNone(s, LinkStep(s, t))
  {
    var after := LinkStep(s, t);
    var u := s.tasks[t].purpose.upload;
    forall v | v in after.uploads && Checked(after, v)
      ensures v in s.uploads && Checked(s, v) && after.uploads[v] == s.uploads[v] {
      if after.uploads[v].status == Pending {
        var t' :| t' in after.tasks && after.tasks[t'] == Completing(v);
        assert t' in s.tasks && s.tasks[t'] == Completing(v);
        assert v != u;
      }
    }
  }

  lemma ReceiveSizes(s: State, t: nat, attachment: Id)
    requires t in s.tasks && s.tasks[t].Registered? && s.tasks[t].purpose.ForMessage? && SizesOk(s) && UploadsOk(s)
             && FilesOk(s)
    ensures SizesOk(ReceiveStep(s, t, attachment))
  {
    hide SizesOk, UploadsOk, FilesOk;
    var after := ReceiveStep(s, t, attachment);
    FilesStill(s, after);
    hide FilesStay;
    if after != s {
      MovesOn(s, after, t, Ended);
    }
  }

  lemma AttachSizes(s: State, attachment: Id, upload: Id)
    requires SizesOk(s) && UploadsOk(s) && FilesOk(s)
    ensures SizesOk(AttachStep(s, attachment, upload))
  {
    hide SizesOk, UploadsOk, FilesOk;
    var after := AttachStep(s, attachment, upload);
    FilesStill(s, after);
    hide FilesStay;
    StaysStill(s, after);
  }

  lemma RetireRowSizes(s: State, t: nat, delete: bool)
    requires t in s.tasks && s.tasks[t].Retiring? && SizesOk(s) && UploadsOk(s) && FilesOk(s)
    ensures SizesOk(RetireRowStep(s, t, delete))
  {
    hide SizesOk, UploadsOk, FilesOk;
    var after := RetireRowStep(s, t, delete);
    FilesStill(s, after);
    hide FilesStay;
    MovesOn(s, after, t, after.tasks[t]);
  }

  lemma CollectRowSizes(s: State, t: nat)
    requires t in s.tasks && s.tasks[t].Collecting? && SizesOk(s) && UploadsOk(s) && FilesOk(s)
    ensures SizesOk(CollectRowStep(s, t))
  {
    hide SizesOk, UploadsOk, FilesOk, Attached;
    var after := CollectRowStep(s, t);
    assert AllKept(s, after) by {
      if after.files != s.files {
        forall u | u in s.uploads && s.uploads[u].status in {Pending, Uploaded}
          ensures s.uploads[u].file != Some(s.tasks[t].file) {
          assert !Awaited(s, s.tasks[t].file);
        }
      }
    }
    hide Awaited, AllKept;
    assert FilesStay(s, after);
    hide FilesStay;
    MovesOn(s, after, t, after.tasks[t]);
  }

  /** Uploads of a merged file move to one with the same bytes. */
  lemma MergeSizes(s: State, file: Id, to: Match)
    requires SizesOk(s) && FilesOk(s) && UploadsOk(s)
    requires file in s.files && to.id in s.files ==>
               to.id != file && s.files[to.id].key == to.key && to.key in s.store && s.files[file].key in s.store
               && s.store[to.key].bytes == s.store[s.files[file].key].bytes
    ensures SizesOk(Merged(s, file, to))
  {
    hide Md5Spec.Digest, Checked;
    var after := Merged(s, file, to);
    forall u | u in after.uploads && Checked(after, u)
      ensures Sized(after, after.uploads[u]) && (after.uploads[u].status == Pending ==> after.uploads[u].file.Some?) {
      assert Checked(s, u) by { SameChecks(s, after, u); }
      assert Sized(s, s.uploads[u]) && (s.uploads[u].file.Some? ==> s.uploads[u].file.value in s.files);
    }
  }

  lemma SameChecks(s: State, after: State, u: Id)
    requires u in s.uploads && u in after.uploads && after.uploads[u].status == s.uploads[u].status
             && after.tasks == s.tasks
    ensures Checked(s, u) == Checked(after, u)
  {
  }

  lemma HashSizes(s: State, t: nat)
    requires t in s.tasks && s.tasks[t].Backfilling? && s.tasks[t].candidate.None? && SizesOk(s) && FilesOk(s)
             && UploadsOk(s)
    ensures SizesOk(BackfillRowStep(s, t))
  {
    hide SizesOk, UploadsOk, FilesOk, DedupeTaken;
    var after := BackfillRowStep(s, t);
    assert FilesStay(s, after);
    hide FilesStay;
    MovesOn(s, after, t, Ended);
  }

  lemma BackfillSizes(s: State, t: nat)
    requires Inv(s) && SizesOk(s) && t in s.tasks && s.tasks[t].Backfilling?
    ensures SizesOk(BackfillRowStep(s, t))
  {
    hide SizesOk, Inv, Md5Spec.Digest, Attached, Uploading;
    Parts(s);
    var p := s.tasks[t];
    assert TaskOk(s, p);
    hide TasksOk;
    if p.candidate.None? {
      HashSizes(s, t);
    } else if p.candidate.value.id !in s.files && (Attached(s, p.file) || Uploading(s, p.file)) {
      TaskMoves(s, t, Ended);
    } else {
      MergeSizes(s, p.file, p.candidate.value);
      var middle := Merged(s, p.file, p.candidate.value);
      assert FilesOk(middle) && UploadsOk(middle) by { MergeKeeps(s, t); Parts(BackfillRowStep(s, t)); }
      TaskMoves(middle, t, if p.candidate.value.key != p.key then Dropping(p.key) else Ended);
    }
  }

  // ------------------------------------------------------------------ steps that check

  lemma CompleteReadSizes(s: State, t: nat, u: Id)
    requires SizesOk(s)
    ensures SizesOk(Apply(s, CompleteRead(t, u)))
  {
    hide Md5Spec.Digest, Checked;
    var after := Apply(s, CompleteRead(t, u));
    if after != s {
      forall v | v in after.uploads && Checked(after, v) && v != u ensures Checked(s, v) {
        OthersUnchecked(s, t, u, v);
      }
    }
  }

  lemma OthersUnchecked(s: State, t: nat, u: Id, v: Id)
    requires v in s.uploads && v != u && t !in s.tasks && Checked(Become(s, t, Completing(u)), v)
    ensures Checked(s, v)
  {
    if s.uploads[v].status == Pending {
      var t' :| t' in s.tasks[t := Completing(u)] && s.tasks[t := Completing(u)][t'] == Completing(v);
      assert t' in s.tasks && s.tasks[t'] == Completing(v);
    }
  }

  lemma CompleteRowSizes(s: State, t: nat)
    requires t in s.tasks && s.tasks[t].Completing? && SizesOk(s) && UploadsOk(s) && FilesOk(s)
    ensures SizesOk(CompleteRowStep(s, t))
  {
    hide SizesOk, UploadsOk, FilesOk;
    var after := CompleteRowStep(s, t);
    FilesStill(s, after);
    hide FilesStay;
    forall u | u in after.uploads && Checked(after, u)
      ensures u in s.uploads && Checked(s, u) && after.uploads[u].file == s.uploads[u].file
              && after.uploads[u].size == s.uploads[u].size {
      if after.uploads[u].status == Pending {
        var t' :| t' in after.tasks && after.tasks[t'] == Completing(u);
        assert t' in s.tasks && s.tasks[t'] == Completing(u);
      } else if s.uploads[u].status == Pending {
        assert s.tasks[t] == Completing(u);
      }
    }
    SizesStay(s, after);
  }

  /** A new upload is not one that `complete` has in hand. */
  lemma CreateSizes(s: State, u: Id, key: Key, size: nat)
    requires SizesOk(s) && UploadsOk(s) && FilesOk(s) && NewId(s, Create(u, key, size))
    ensures SizesOk(Apply(s, Create(u, key, size)))
  {
    hide SizesOk, UploadsOk, FilesOk;
    if u !in s.uploads {
      var after := s.(uploads := s.uploads[u := Upload(key, size, Pending, None)]);
      FilesStill(s, after);
      hide FilesStay;
      assert forall v :: v in after.uploads && Checked(after, v) ==> v != u && Checked(s, v);
      SizesStay(s, after);
    }
  }

  lemma SimpleSizes(s: State, a: Action)
    requires SizesOk(s) && UploadsOk(s) && FilesOk(s)
    requires a.Detach? || a.RetireRead? || a.CollectRead? || a.Tick?
    ensures SizesOk(Apply(s, a))
  {
    hide SizesOk, UploadsOk, FilesOk, HeadMatches, PutStep, SearchStep, InsertStep, LinkStep, ReceiveStep, AttachStep,
         RetireRowStep;
    hide CollectRowStep, BackfillReadStep, BackfillRowStep, SweepCheckStep, CompleteRowStep;
    var after := Apply(s, a);
    FilesStill(s, after);
    hide FilesStay;
    if after.tasks == s.tasks {
      StaysStill(s, after);
    } else {
      MovesOn(s, after, a.task, after.tasks[a.task]);
    }
  }

  lemma ReadSizes(s: State, a: Action)
    requires SizesOk(s) && UploadsOk(s) && FilesOk(s) && (a.BackfillRead? || a.SweepCheck?)
    ensures SizesOk(Apply(s, a))
  {
    hide SizesOk, UploadsOk, FilesOk, Md5Spec.Digest, Identical, Referenced;
    var after := Apply(s, a);
    if after != s {
      TaskMoves(s, a.task, after.tasks[a.task]);
    }
  }

  lemma StepSizes(s: State, a: Action)
    requires Inv(s) && Calm(s, a) && SizesOk(s) && NewId(s, a)
    ensures SizesOk(Apply(s, a))
  {
    hide Inv, Calm, NewId, SizesOk, FilesOk, UploadsOk, TasksOk, HeadMatches, PutStep, SearchStep, InsertStep,
         LinkStep, ReceiveStep, AttachStep;
    hide RetireRowStep, CollectRowStep, BackfillReadStep, BackfillRowStep, SweepCheckStep, CompleteRowStep;
    Parts(s);
    match a
    case Create(u, key, size) => CreateSizes(s, u, key, size);
    case Put(_, _, _, _, _) => PutSizes(s, a);
    case Search(t, candidate) => if t in s.tasks && s.tasks[t].Stored? { SearchSizes(s, t, candidate); }
    case Insert(t) => if t in s.tasks && s.tasks[t].Stored? { InsertSizes(s, t); }
    case DropLoser(t) =>
      if t in s.tasks && s.tasks[t].Losing? {
        var p := s.tasks[t];
        DropSizes(s, t, Registered(p.purpose, p.found, p.foundKey, p.bytes));
      }
    case Link(t) => if t in s.tasks && s.tasks[t].Registered? && s.tasks[t].purpose.ForUpload? { LinkSizes(s, t); }
    case Receive(t, attachment) =>
      if t in s.tasks && s.tasks[t].Registered? && s.tasks[t].purpose.ForMessage? { ReceiveSizes(s, t, attachment); }
    case CompleteRead(t, u) => CompleteReadSizes(s, t, u);
    case CompleteRow(t) => if t in s.tasks && s.tasks[t].Completing? { CompleteRowSizes(s, t); }
    case Attach(attachment, upload) => AttachSizes(s, attachment, upload);
    case RetireRow(t, delete) => if t in s.tasks && s.tasks[t].Retiring? { RetireRowSizes(s, t, delete); }
    case CollectRow(t) => if t in s.tasks && s.tasks[t].Collecting? { CollectRowSizes(s, t); }
    case BackfillRead(_, _, _) => ReadSizes(s, a);
    case BackfillRow(t) => if t in s.tasks && s.tasks[t].Backfilling? { BackfillSizes(s, t); }
    case SweepCheck(_, _) => ReadSizes(s, a);
    case Drop(t) => if t in s.tasks && s.tasks[t].Dropping? { DropSizes(s, t, Ended); }
    case _ => SimpleSizes(s, a);
  }

  lemma {:induction false} RunSizes(s: State, actions: seq<Action>)
    requires Inv(s) && CalmRun(s, actions) && NewIds(s, actions) && SizesOk(s)
    ensures SizesOk(Run(s, actions))
    decreases |actions|
  {
    if actions != [] {
      StepSizes(s, actions[0]);
      StepKeeps(s, actions[0]);
      hide Inv, Apply, Calm, SizesOk, NewId;
      RunSizes(Apply(s, actions[0]), actions[1..]);
    }
  }

  /**
   Main result: whatever has happened to the upload's file since `complete` looked at it, the content that is
   attached has exactly the size the upload was created with.
   */
  lemma AttachedAsPromised(s: State, actions: seq<Action>, attachment: Id, upload: Id)
    requires Initial(s) && SizesOk(s) && CalmRun(s, actions) && NewIds(s, actions)
    requires attachment !in Run(s, actions).attachments
    requires attachment in Apply(Run(s, actions), Attach(attachment, upload)).attachments
    ensures var end := Run(s, actions);
            var after := Apply(end, Attach(attachment, upload));
            upload in end.uploads && end.uploads[upload].status == Uploaded && after.uploads[upload].status == Consumed
            && |after.attachments[attachment].original| == end.uploads[upload].size
            && Download(after, attachment) == Some(after.attachments[attachment].original)
  {
    hide Md5Spec.Digest;
    assert Inv(s);
    RunSizes(s, actions);
    RunKeeps(s, actions);
    var end := Run(s, actions);
    hide Run, CalmRun, Initial;
    assert Sized(end, end.uploads[upload]) && FilesOk(end);
  }

  // ------------------------------------------------------------------ consumed for good

  predicate IsConsumed(s: State, u: Id) {
    u in s.uploads && s.uploads[u].status == Consumed
  }

  lemma StoringKeepsConsumed(s: State, t: nat, candidate: Option<Id>, u: Id)
    requires t in s.tasks && IsConsumed(s, u)
    ensures s.tasks[t].Stored? ==> IsConsumed(SearchStep(s, t, candidate), u) && IsConsumed(InsertStep(s, t), u)
    ensures s.tasks[t].Registered? && s.tasks[t].purpose.ForUpload? ==> IsConsumed(LinkStep(s, t), u)
    ensures s.tasks[t].Completing? ==> IsConsumed(CompleteRowStep(s, t), u)
  {
    hide Md5Spec.Digest, KeyTaken, DedupeTaken, Identical;
  }

  lemma RetiringKeepsConsumed(s: State, t: nat, delete: bool, u: Id)
    requires t in s.tasks && IsConsumed(s, u)
    ensures s.tasks[t].Retiring? ==> IsConsumed(RetireRowStep(s, t, delete), u)
    ensures s.tasks[t].Collecting? ==> IsConsumed(CollectRowStep(s, t), u)
  {
    hide Attached, Awaited;
  }

  lemma BackfillKeepsConsumed(s: State, t: nat, u: Id)
    requires t in s.tasks && IsConsumed(s, u)
    ensures s.tasks[t].Backfilling? ==> IsConsumed(BackfillRowStep(s, t), u)
  {
    hide DedupeTaken, Attached, Uploading;
  }

  lemma RowStepKeepsConsumed(s: State, a: Action, u: Id)
    requires IsConsumed(s, u)
    ensures a.Put? ==> IsConsumed(PutStep(s, a), u)
    ensures a.Attach? ==> IsConsumed(AttachStep(s, a.attachment, a.upload), u)
    ensures a.Receive? && a.task in s.tasks && s.tasks[a.task].Registered? && s.tasks[a.task].purpose.ForMessage? ==>
              IsConsumed(ReceiveStep(s, a.task, a.attachment), u)
    ensures a.BackfillRead? ==> IsConsumed(BackfillReadStep(s, a.task, a.file, a.candidate), u)
    ensures a.SweepCheck? ==> IsConsumed(SweepCheckStep(s, a.task, a.key), u)
  {
    hide Md5Spec.Digest, Identical, Referenced;
  }

  lemma StepKeepsConsumed(s: State, a: Action, u: Id)
    requires IsConsumed(s, u)
    ensures IsConsumed(Apply(s, a), u)
  {
    hide HeadMatches, PutStep, SearchStep, InsertStep, LinkStep, ReceiveStep, AttachStep, RetireRowStep;
    hide CollectRowStep, BackfillReadStep, BackfillRowStep, SweepCheckStep, CompleteRowStep;
    RowStepKeepsConsumed(s, a, u);
    match a
    case Search(t, candidate) => if t in s.tasks { StoringKeepsConsumed(s, t, candidate, u); }
    case RetireRow(t, delete) => if t in s.tasks { RetiringKeepsConsumed(s, t, delete, u); }
    case Insert(t) => if t in s.tasks { StoringKeepsConsumed(s, t, None, u); }
    case Link(t) => if t in s.tasks { StoringKeepsConsumed(s, t, None, u); }
    case CompleteRow(t) => if t in s.tasks { StoringKeepsConsumed(s, t, None, u); }
    case CollectRow(t) => if t in s.tasks { RetiringKeepsConsumed(s, t, false, u); }
    case BackfillRow(t) => if t in s.tasks { BackfillKeepsConsumed(s, t, u); }
    case _ =>
  }

  /** Main result: an upload is attached at most once, whether or not runs are calm. */
  lemma {:induction false} ConsumedIsFinal(s: State, actions: seq<Action>, u: Id, attachment: Id)
    requires IsConsumed(s, u)
    ensures IsConsumed(Run(s, actions), u)
    ensures Apply(Run(s, actions), Attach(attachment, u)) == Run(s, actions)
    decreases |actions|
  {
    if actions != [] {
      StepKeepsConsumed(s, actions[0], u);
      hide Apply;
      ConsumedIsFinal(Apply(s, actions[0]), actions[1..], u, attachment);
    }
  }
}
