/**
 What the operations of the attachment catalog get done, said of the tables before and after: content that nobody needs
 goes, content that is sent comes back, a digest that is missing is filled in.
 */
module CatalogEffects {
  import opened Blocks
  import opened Catalog
  import opened CatalogSafety
  import opened CatalogSteps
  import opened CatalogTheorems
  import Md5Spec
  import opened Options

  // ------------------------------------------------------------------ content that nobody needs

  /** An attachment has the file, or an upload that is not yet consumed waits with it. */
  ghost predicate IsNeeded(s: State, f: Id) {
    (exists a :: a in s.attachments && s.attachments[a].file == f)
    || (exists u :: u in s.uploads && s.uploads[u].file == Some(f)
                    && (s.uploads[u].status == Pending || s.uploads[u].status == Uploaded))
  }

  /** Every upload that was linked to the file is no longer; nothing else about uploads changed. */
  predicate Unlinks(before: map<Id, Upload>, after: map<Id, Upload>, f: Id) {
    after.Keys == before.Keys
    && forall u :: u in before ==>
         after[u] == if before[u].file == Some(f) then before[u].(file := None) else before[u]
  }

  lemma UnlinkedUnlinks(s: State, f: Id)
    ensures Unlinks(s.uploads, Unlinked(s.uploads, f), f)
    ensures Attached(s, f) || Awaited(s, f) <==> IsNeeded(s, f)
  {
  }

  lemma CollectRowSteps(s: State, t: nat)
    requires t in s.tasks && s.tasks[t].Collecting?
    ensures Apply(s, CollectRow(t)) == CollectRowStep(s, t)
  {
    hide CollectRowStep;
  }

  /**
   Main result: the DELETE of `deleteAttachmentFileIfUnreferenced` takes the row away if and only if no attachment has
   the file and no upload that is pending or uploaded waits with it.  Then no upload is linked to the file any more,
   nothing else has changed, and the object is deleted next; otherwise nothing happens, and the collection is over.
   */
  lemma CollectsIff(s: State, t: nat)
    requires t in s.tasks && s.tasks[t].Collecting?
    ensures var (p, after) := (s.tasks[t], Apply(s, CollectRow(t)));
            if p.file in s.files && !IsNeeded(s, p.file) then
              after.files == s.files - {p.file} && Unlinks(s.uploads, after.uploads, p.file)
              && after == s.(files := after.files, uploads := after.uploads, tasks := s.tasks[t := Dropping(p.key)])
            else after == s.(tasks := s.tasks[t := Ended])
  {
    CollectRowSteps(s, t);
    UnlinkedUnlinks(s, s.tasks[t].file);
    hide Apply, Unlinked, Unlinks, Attached, Awaited, IsNeeded;
  }

  /** The delete at the end: no object is left under the key, and nothing else changes. */
  lemma DropsObject(s: State, t: nat)
    requires t in s.tasks && s.tasks[t].Dropping?
    ensures Apply(s, Drop(t)) == s.(store := s.store - {s.tasks[t].key}, tasks := s.tasks[t := Ended])
  {
  }

  lemma RunOfThree(s: State, a: Action, b: Action, c: Action)
    ensures Run(s, [a, b, c]) == Apply(Apply(Apply(s, a), b), c)
  {
    hide Apply;
    assert [a, b, c][1..] == [b, c] && [b, c][1..] == [c] && [c][1..] == [];
    assert Run(Apply(s, a), [b, c]) == Run(Apply(Apply(s, a), b), [c]);
  }

  lemma IdleDrop(s: State, t: nat)
    requires t in s.tasks && s.tasks[t] == Ended
    ensures Apply(s, Drop(t)) == s
  {
  }

  lemma CollectReads(s: State, t: nat, f: Id)
    requires t !in s.tasks && f in s.files
    ensures Apply(s, CollectRead(t, f)) == s.(tasks := s.tasks[t := Collecting(f, s.files[f].key)])
  {
  }

  /** Main result: a collection that nothing interrupts frees row and object if and only if nobody needs them. */
  lemma UnneededIsFreed(s: State, t: nat, f: Id)
    requires t !in s.tasks && f in s.files
    ensures var end := Run(s, [CollectRead(t, f), CollectRow(t), Drop(t)]);
            end.attachments == s.attachments && end.supply == s.supply && end.now == s.now
            && if IsNeeded(s, f) then end.files == s.files && end.uploads == s.uploads && end.store == s.store
               else end.files == s.files - {f} && Unlinks(s.uploads, end.uploads, f)
                    && end.store == s.store - {s.files[f].key}
  {
    RunOfThree(s, CollectRead(t, f), CollectRow(t), Drop(t));
    CollectReads(s, t, f);
    var read := Apply(s, CollectRead(t, f));
    assert IsNeeded(read, f) <==> IsNeeded(s, f);
    hide Apply, Run, IsNeeded, Unlinks;
    CollectsIff(read, t);
    var row := Apply(read, CollectRow(t));
    if IsNeeded(s, f) {
      IdleDrop(row, t);
    } else {
      DropsObject(row, t);
    }
  }

  /**
   Main result: in every calm run, the row that is deleted takes its own object with it, no upload is linked to it any
   more, and every other row keeps its object.
   */
  lemma CollectionFreesItsObject(s: State, actions: seq<Action>, t: nat)
    requires Initial(s) && CalmRun(s, actions)
    requires var before := Run(s, actions);
             t in before.tasks && before.tasks[t].Collecting? && before.tasks[t].file in before.files
             && !IsNeeded(before, before.tasks[t].file)
    ensures var before := Run(s, actions);
            var end := Apply(Apply(before, CollectRow(t)), Drop(t));
            var f := before.tasks[t].file;
            f !in end.files && before.files[f].key !in end.store
            && (forall u :: u in end.uploads ==> end.uploads[u].file != Some(f))
            && forall g :: g in before.files && g != f ==>
                 g in end.files && end.files[g] == before.files[g]
                 && (before.files[g].key in before.store ==>
                       before.files[g].key in end.store
                       && end.store[before.files[g].key] == before.store[before.files[g].key])
  {
    hide Md5Spec.Digest;
    assert Inv(s);
    RunKeeps(s, actions);
    var before := Run(s, actions);
    hide Run, CalmRun, Initial, Apply, IsNeeded;
    assert TaskOk(before, before.tasks[t]);
    CollectsIff(before, t);
    DropsObject(Apply(before, CollectRow(t)), t);
  }

  // ------------------------------------------------------------------ a digest that is missing

  /** Every attachment of `f` is one of the file `to` now, under its key. */
  predicate AttachmentsMove(before: map<Id, Attachment>, after: map<Id, Attachment>, f: Id, to: Match) {
    after.Keys == before.Keys
    && forall a :: a in before ==>
         after[a] == if before[a].file == f then Attachment(to.key, to.id, before[a].original) else before[a]
  }

  /** Every upload linked to `f` is linked to the file `to` now. */
  predicate UploadsMove(before: map<Id, Upload>, after: map<Id, Upload>, f: Id, to: Match) {
    after.Keys == before.Keys
    && forall u :: u in before ==>
         after[u] == if before[u].file == Some(f) then before[u].(file := Some(to.id)) else before[u]
  }

  ghost predicate IsReferred(s: State, f: Id) {
    (exists a :: a in s.attachments && s.attachments[a].file == f)
    || exists u :: u in s.uploads && s.uploads[u].file == Some(f)
  }

  lemma BackfillRowSteps(s: State, t: nat)
    requires t in s.tasks && s.tasks[t].Backfilling?
    ensures Apply(s, BackfillRow(t)) == BackfillRowStep(s, t)
  {
    hide BackfillRowStep;
  }

  lemma MergedMoves(s: State, f: Id, to: Match)
    ensures var after := Merged(s, f, to);
            AttachmentsMove(s.attachments, after.attachments, f, to) && UploadsMove(s.uploads, after.uploads, f, to)
            && after.files == s.files - {f}
            && after == s.(files := after.files, uploads := after.uploads, attachments := after.attachments)
    ensures to.id != f ==> !IsReferred(Merged(s, f, to), f)
  {
    var after := Merged(s, f, to);
    assert after.attachments.Keys == s.attachments.Keys && after.uploads.Keys == s.uploads.Keys;
  }

  lemma ReferredIs(s: State, f: Id)
    ensures Attached(s, f) || Uploading(s, f) <==> IsReferred(s, f)
  {
  }

  /**
   The batch that ends a backfill.  With an identical file found, everything that refers to the row moves there and the
   row goes, and then its object; if that file is gone and something would have to move, the batch fails and changes
   nothing.  Otherwise the row, if it is still there without a digest, has its digest, and the key of its content unless
   another row has that one.
   */
  lemma BackfillsIff(s: State, t: nat)
    requires t in s.tasks && s.tasks[t].Backfilling?
    ensures var (p, after) := (s.tasks[t], Apply(s, BackfillRow(t)));
            if p.candidate.Some? then
              var to := p.candidate.value;
              if to.id !in s.files && IsReferred(s, p.file) then after == s.(tasks := s.tasks[t := Ended])
              else
                AttachmentsMove(s.attachments, after.attachments, p.file, to)
                && UploadsMove(s.uploads, after.uploads, p.file, to) && after.files == s.files - {p.file}
                && after == s.(files := after.files, uploads := after.uploads, attachments := after.attachments,
                               tasks := s.tasks[t := if to.key == p.key then Ended else Dropping(p.key)])
            else if p.file in s.files && s.files[p.file].md5.None? then
              p.file in after.files
              && after == s.(files := s.files[p.file := after.files[p.file]], tasks := s.tasks[t := Ended])
              && after.files[p.file] == s.files[p.file].(md5 := Some(p.md5), dedupe := after.files[p.file].dedupe)
              && after.files[p.file].dedupe == (
                 if exists f :: f in s.files && s.files[f].dedupe == Base(p.md5, s.files[p.file].size) then Own(p.file)
                 else Base(p.md5, s.files[p.file].size))
            else after == s.(tasks := s.tasks[t := Ended])
  {
    var p := s.tasks[t];
    BackfillRowSteps(s, t);
    ReferredIs(s, p.file);
    if p.candidate.Some? {
      MergedMoves(s, p.file, p.candidate.value);
    }
    hide Apply, Merged, AttachmentsMove, UploadsMove, Attached, Uploading, IsReferred;
  }

  /**
   Main result: in every calm run, when a backfill ends, its row has the digest of its object; or it is gone, and
   nothing refers to it any more; or the batch failed, which it does if and only if the identical file it had found is
   gone and something refers to the row.
   */
  lemma BackfillEnds(s: State, actions: seq<Action>, t: nat)
    requires Initial(s) && CalmRun(s, actions)
    requires t in Run(s, actions).tasks && Run(s, actions).tasks[t].Backfilling?
    ensures var before := Run(s, actions);
            var after := Apply(before, BackfillRow(t));
            var p := before.tasks[t];
            if p.candidate.Some? && p.candidate.value.id !in before.files && IsReferred(before, p.file) then
              after == before.(tasks := before.tasks[t := Ended])
            else if p.candidate.None? && p.file in before.files then
              p.file in after.files && after.files[p.file].key in after.store
              && after.files[p.file].md5 == Some(Md5Spec.Digest(after.store[after.files[p.file].key].bytes))
            else p.file !in after.files && (p.candidate.Some? ==> !IsReferred(after, p.file))
  {
    hide Md5Spec.Digest;
    assert Inv(s);
    RunKeeps(s, actions);
    var before := Run(s, actions);
    hide Run, CalmRun, Initial, Apply, IsReferred, Merged;
    var p := before.tasks[t];
    assert TaskOk(before, p);
    BackfillsIff(before, t);
    if p.candidate.Some? {
      MovedIsNotReferred(before, Apply(before, BackfillRow(t)), p.file, p.candidate.value);
    }
  }

  lemma MovedIsNotReferred(s: State, after: State, f: Id, to: Match)
    requires to.id != f
    ensures AttachmentsMove(s.attachments, after.attachments, f, to) && UploadsMove(s.uploads, after.uploads, f, to) ==>
              !IsReferred(after, f)
  {
  }

  lemma BackfillReads(s: State, t: nat, f: Id, candidate: Option<Id>)
    requires t !in s.tasks && f in s.files && s.files[f].md5.None? && s.files[f].key in s.store
    requires candidate == None || candidate.value != f
    requires var file := s.files[f];
             candidate.Some? ==>
               candidate.value in s.files
               && Identical(s, file.key, Md5Spec.Digest(s.store[file.key].bytes), file.size, candidate.value)
    ensures var file := s.files[f];
            Apply(s, BackfillRead(t, f, candidate))
            == s.(tasks := s.tasks[t := Backfilling(
                 f, file.key, Md5Spec.Digest(s.store[file.key].bytes),
                 if candidate.Some? then Some(Match(candidate.value, s.files[candidate.value].key)) else None)])
  {
    hide Md5Spec.Digest, Identical;
  }

  lemma RunOfTwo(s: State, a: Action, b: Action)
    ensures Run(s, [a, b]) == Apply(Apply(s, a), b)
  {
    hide Apply;
    assert [a, b][1..] == [b] && [b][1..] == [];
    assert Run(Apply(s, a), [b]) == Apply(Apply(s, a), b);
  }

  /** Main result: a backfill that nothing interrupts, and that finds no identical file, fills in the missing digest. */
  lemma MissingDigestIsFilledIn(s: State, t: nat, f: Id)
    requires t !in s.tasks && f in s.files && s.files[f].md5.None? && s.files[f].key in s.store
    ensures var end := Run(s, [BackfillRead(t, f, None), BackfillRow(t)]);
            f in end.files && end.files[f].md5 == Some(Md5Spec.Digest(s.store[s.files[f].key].bytes))
            && end.files[f].key == s.files[f].key && end.files[f].size == s.files[f].size
            && end == s.(files := s.files[f := end.files[f]], tasks := end.tasks)
  {
    hide Apply, Run, Md5Spec.Digest;
    RunOfTwo(s, BackfillRead(t, f, None), BackfillRow(t));
    BackfillReads(s, t, f, None);
    BackfillsIff(Apply(s, BackfillRead(t, f, None)), t);
  }

  // ------------------------------------------------------------------ content that is sent

  /** An identical file: a row with this digest and size, under another key, whose object is these bytes. */
  predicate IsCopy(s: State, c: Id, key: Key, bytes: Bytes) {
    c in s.files && s.files[c].key != key && s.files[c].md5 == Some(Md5Spec.Digest(bytes))
    && s.files[c].size == |bytes| && s.files[c].key in s.store && s.store[s.files[c].key].bytes == bytes
  }

  /** Nothing is known of this key: no row owns it, and no object is there. */
  predicate IsFreshKey(s: State, key: Key) {
    key !in s.store && forall f :: f in s.files ==> s.files[f].key != key
  }

  /** Nobody waits for the content, or the upload that it is for waits. */
  predicate IsWanted(s: State, purpose: Purpose, key: Key, bytes: Bytes) {
    purpose.ForUpload? ==>
      purpose.upload in s.uploads && s.uploads[purpose.upload] == Upload(key, |bytes|, Pending, None)
  }

  lemma Puts(s: State, t: nat, purpose: Purpose, key: Key, bytes: Bytes)
    requires t !in s.tasks && IsWanted(s, purpose, key, bytes)
    ensures Apply(s, Put(t, purpose, key, bytes, |bytes|))
            == s.(store := s.store[key := Object(bytes, s.now)],
                  tasks := s.tasks[t := Stored(purpose, key, bytes, |bytes|, s.now, FirstSearch)])
  {
  }

  lemma FindsNone(s: State, t: nat)
    requires t in s.tasks && s.tasks[t].Stored? && s.tasks[t].turn == FirstSearch
    ensures Apply(s, Search(t, None)) == s.(tasks := s.tasks[t := s.tasks[t].(turn := FirstInsert)])
  {
    hide Md5Spec.Digest;
  }

  lemma FindsCopy(s: State, t: nat, c: Id)
    requires t in s.tasks && s.tasks[t].Stored? && s.tasks[t].turn == FirstSearch
             && s.tasks[t].size == |s.tasks[t].bytes|
    requires var p := s.tasks[t]; p.key in s.store && s.store[p.key].bytes == p.bytes && IsCopy(s, c, p.key, p.bytes)
    ensures var p := s.tasks[t];
            Apply(s, Search(t, Some(c)))
            == s.(tasks := s.tasks[t := Losing(p.purpose, p.key, c, s.files[c].key, p.bytes)])
  {
    hide Md5Spec.Digest;
  }

  lemma Inserted(s: State, t: nat)
    requires t in s.tasks && s.tasks[t].Stored? && s.tasks[t].turn == FirstInsert
    requires var p := s.tasks[t];
             forall f :: f in s.files ==>
               s.files[f].key != p.key && s.files[f].dedupe != Base(Md5Spec.Digest(p.bytes), p.size)
    ensures var p := s.tasks[t];
            var md5 := Md5Spec.Digest(p.bytes);
            Apply(s, Insert(t))
            == s.(files := s.files[s.supply := File(p.key, Base(md5, p.size), Some(md5), p.size)],
                  supply := s.supply + 1,
                  tasks := s.tasks[t := Registered(p.purpose, s.supply, p.key, p.bytes)])
  {
    hide Md5Spec.Digest;
  }

  lemma DropsCopy(s: State, t: nat)
    requires t in s.tasks && s.tasks[t].Losing?
    ensures var p := s.tasks[t];
            Apply(s, DropLoser(t))
            == s.(store := s.store - {p.key},
                  tasks := s.tasks[t := Registered(p.purpose, p.found, p.foundKey, p.bytes)])
  {
  }

  /** Main result: new content is stored once, under a row with its digest. */
  lemma ContentIsRegistered(s: State, t: nat, purpose: Purpose, key: Key, bytes: Bytes)
    requires t !in s.tasks && IsWanted(s, purpose, key, bytes) && IsFreshKey(s, key)
    requires forall f :: f in s.files ==> s.files[f].dedupe != Base(Md5Spec.Digest(bytes), |bytes|)
    ensures var md5 := Md5Spec.Digest(bytes);
            Run(s, [Put(t, purpose, key, bytes, |bytes|), Search(t, None), Insert(t)])
            == s.(store := s.store[key := Object(bytes, s.now)],
                  files := s.files[s.supply := File(key, Base(md5, |bytes|), Some(md5), |bytes|)],
                  supply := s.supply + 1,
                  tasks := s.tasks[t := Registered(purpose, s.supply, key, bytes)])
  {
    hide Apply, Run, Md5Spec.Digest, IsWanted;
    RunOfThree(s, Put(t, purpose, key, bytes, |bytes|), Search(t, None), Insert(t));
    Puts(s, t, purpose, key, bytes);
    var put := Apply(s, Put(t, purpose, key, bytes, |bytes|));
    FindsNone(put, t);
    Inserted(Apply(put, Search(t, None)), t);
  }

  /** Main result: content that is there already is not stored again, and its file is the one found. */
  lemma ContentIsDeduplicated(s: State, t: nat, purpose: Purpose, key: Key, bytes: Bytes, c: Id)
    requires t !in s.tasks && IsWanted(s, purpose, key, bytes) && IsFreshKey(s, key) && IsCopy(s, c, key, bytes)
    ensures Run(s, [Put(t, purpose, key, bytes, |bytes|), Search(t, Some(c)), DropLoser(t)])
            == s.(tasks := s.tasks[t := Registered(purpose, c, s.files[c].key, bytes)])
  {
    hide Apply, Run, Md5Spec.Digest, IsWanted;
    RunOfThree(s, Put(t, purpose, key, bytes, |bytes|), Search(t, Some(c)), DropLoser(t));
    Puts(s, t, purpose, key, bytes);
    var put := Apply(s, Put(t, purpose, key, bytes, |bytes|));
    FindsCopy(put, t, c);
    DropsCopy(Apply(put, Search(t, Some(c))), t);
    assert s.store[key := Object(bytes, s.now)] - {key} == s.store;
  }

  lemma Collides(s: State, t: nat)
    requires t in s.tasks && s.tasks[t].Stored? && s.tasks[t].turn == FirstInsert
    requires var p := s.tasks[t];
             exists f :: f in s.files && s.files[f].dedupe == Base(Md5Spec.Digest(p.bytes), p.size)
    ensures Run(s, [Insert(t), Search(t, None)]) == s.(tasks := s.tasks[t := s.tasks[t].(turn := SecondInsert)])
  {
    hide Md5Spec.Digest;
    RunOfTwo(s, Insert(t), Search(t, None));
    assert Apply(s, Insert(t)) == s.(tasks := s.tasks[t := s.tasks[t].(turn := SecondSearch)]);
  }

  /** Content that lost the race to insert its row has the winner's file, if that is identical. */
  lemma RacedContentIsDeduplicated(s: State, t: nat, c: Id)
    requires t in s.tasks && s.tasks[t].Stored? && s.tasks[t].turn == SecondSearch
    requires var p := s.tasks[t];
             p.size == |p.bytes| && p.key in s.store && s.store[p.key].bytes == p.bytes && IsCopy(s, c, p.key, p.bytes)
    ensures var p := s.tasks[t];
            Run(s, [Search(t, Some(c)), DropLoser(t)])
            == s.(store := s.store - {p.key},
                  tasks := s.tasks[t := Registered(p.purpose, c, s.files[c].key, p.bytes)])
  {
    hide Md5Spec.Digest;
    RunOfTwo(s, Search(t, Some(c)), DropLoser(t));
    var p := s.tasks[t];
    assert Apply(s, Search(t, Some(c)))
           == s.(tasks := s.tasks[t := Losing(p.purpose, p.key, c, s.files[c].key, p.bytes)]);
  }

  lemma InsertedApart(s: State, t: nat)
    requires t in s.tasks && s.tasks[t].Stored? && s.tasks[t].turn == SecondInsert
    requires forall f :: f in s.files ==> s.files[f].key != s.tasks[t].key && s.files[f].dedupe != Own(s.supply)
    ensures var p := s.tasks[t];
            Apply(s, Insert(t))
            == s.(files := s.files[s.supply := File(p.key, Own(s.supply), Some(Md5Spec.Digest(p.bytes)), p.size)],
                  supply := s.supply + 1,
                  tasks := s.tasks[t := Registered(p.purpose, s.supply, p.key, p.bytes)])
  {
    hide Md5Spec.Digest;
  }

  /**
   Main result: content that no file is identical to, but whose digest and size another row has already, gets a row of
   its own.
   */
  lemma CollisionIsRegistered(s: State, t: nat, purpose: Purpose, key: Key, bytes: Bytes)
    requires t !in s.tasks && IsWanted(s, purpose, key, bytes) && IsFreshKey(s, key)
    requires exists f :: f in s.files && s.files[f].dedupe == Base(Md5Spec.Digest(bytes), |bytes|)
    requires forall f :: f in s.files ==> s.files[f].dedupe != Own(s.supply)
    ensures var searched := Apply(Apply(s, Put(t, purpose, key, bytes, |bytes|)), Search(t, None));
            Apply(Run(searched, [Insert(t), Search(t, None)]), Insert(t))
            == s.(store := s.store[key := Object(bytes, s.now)],
                  files := s.files[s.supply := File(key, Own(s.supply), Some(Md5Spec.Digest(bytes)), |bytes|)],
                  supply := s.supply + 1,
                  tasks := s.tasks[t := Registered(purpose, s.supply, key, bytes)])
  {
    hide Apply, Run, Md5Spec.Digest, IsWanted;
    Puts(s, t, purpose, key, bytes);
    var put := Apply(s, Put(t, purpose, key, bytes, |bytes|));
    FindsNone(put, t);
    var searched := Apply(put, Search(t, None));
    Collides(searched, t);
    InsertedApart(Run(searched, [Insert(t), Search(t, None)]), t);
  }

  /** A message that is received has the content under the row it was registered with, if that row is still there. */
  lemma ReceivesIff(s: State, t: nat, attachment: Id)
    requires t in s.tasks && s.tasks[t].Registered? && s.tasks[t].purpose.ForMessage? && attachment !in s.attachments
    ensures var p := s.tasks[t];
            Apply(s, Receive(t, attachment))
            == (if p.file in s.files then s.(attachments := s.attachments[
                                               attachment := Attachment(p.key, p.file, p.bytes)]) else s)
               .(tasks := s.tasks[t := Ended])
  {
  }

  /** Main result: what a received message carries downloads as the bytes that came. */
  lemma ReceiptRoundTrip(s: State, key: Key, bytes: Bytes, t: nat, attachment: Id)
    requires t !in s.tasks && attachment !in s.attachments && IsFreshKey(s, key)
    requires forall f :: f in s.files ==> s.files[f].dedupe != Base(Md5Spec.Digest(bytes), |bytes|)
    ensures var stored := Run(s, [Put(t, ForMessage, key, bytes, |bytes|), Search(t, None), Insert(t)]);
            var end := Apply(stored, Receive(t, attachment));
            Download(end, attachment) == Some(bytes) && end.store == s.store[key := Object(bytes, s.now)]
            && end.uploads == s.uploads
  {
    hide Apply, Run, Md5Spec.Digest;
    ContentIsRegistered(s, t, ForMessage, key, bytes);
    ReceivesIff(Run(s, [Put(t, ForMessage, key, bytes, |bytes|), Search(t, None), Insert(t)]), t, attachment);
  }

  // ------------------------------------------------------------------ from the upload to the message

  /** Content is linked to its upload if and only if that still waits for it and the file is still there. */
  lemma LinksIff(s: State, t: nat)
    requires t in s.tasks && s.tasks[t].Registered? && s.tasks[t].purpose.ForUpload?
    ensures var u := s.tasks[t].purpose.upload;
            Apply(s, Link(t))
            == (if u in s.uploads && s.uploads[u].status == Pending && s.uploads[u].file == None
                   && s.tasks[t].file in s.files
                then s.(uploads := s.uploads[u := s.uploads[u].(file := Some(s.tasks[t].file))])
                else s)
               .(tasks := s.tasks[t := Ended])
  {
  }

  /** The upload's file is there with a digest, and its object has the size that was promised. */
  predicate IsComplete(s: State, u: Id)
    requires u in s.uploads
  {
    s.uploads[u].file.Some? && s.uploads[u].file.value in s.files
    && var f := s.files[s.uploads[u].file.value];
       f.md5.Some? && f.key in s.store && |s.store[f.key].bytes| == s.uploads[u].size
  }

  /** A `complete` that nothing interrupts marks the upload if and only if it is pending and has what was promised. */
  lemma CompletesIff(s: State, t: nat, u: Id)
    requires t !in s.tasks && u in s.uploads
    ensures var end := Run(s, [CompleteRead(t, u), CompleteRow(t)]);
            if s.uploads[u].status == Pending && IsComplete(s, u) then
              end == s.(uploads := s.uploads[u := s.uploads[u].(status := Uploaded)], tasks := s.tasks[t := Ended])
            else end == s
  {
    RunOfTwo(s, CompleteRead(t, u), CompleteRow(t));
    var read := Apply(s, CompleteRead(t, u));
    if s.uploads[u].status == Pending && IsComplete(s, u) {
      assert read == s.(tasks := s.tasks[t := Completing(u)]);
    } else {
      assert read == s;
    }
  }

  /**
   The triggers of the INSERT: it is let through if and only if the upload is uploaded and its file is there, and then
   the attachment has the file and its key, and the upload is consumed; otherwise nothing changes.
   */
  lemma AttachesIff(s: State, attachment: Id, upload: Id)
    ensures var after := Apply(s, Attach(attachment, upload));
            if attachment !in s.attachments && upload in s.uploads && s.uploads[upload].status == Uploaded
               && s.uploads[upload].file.Some? && s.uploads[upload].file.value in s.files
            then
              var f := s.uploads[upload].file.value;
              attachment in after.attachments
              && after.attachments[attachment].key == s.files[f].key && after.attachments[attachment].file == f
              && after.uploads == s.uploads[upload := s.uploads[upload].(status := Consumed)]
              && after == s.(uploads := after.uploads,
                             attachments := s.attachments[attachment := after.attachments[attachment]])
            else after == s
  {
  }

  /** The upload is linked to its file, found complete, and attached; nothing else but its tasks changes. */
  lemma RegisteredIsAttached(s: State, t: nat, other: nat, u: Id, attachment: Id)
    requires t in s.tasks && s.tasks[t].Registered? && s.tasks[t].purpose == ForUpload(u) && other !in s.tasks
    requires u in s.uploads && s.uploads[u].status == Pending && s.uploads[u].file == None
    requires s.tasks[t].file in s.files && attachment !in s.attachments
    requires var f := s.files[s.tasks[t].file];
             f.md5.Some? && f.key in s.store && |s.store[f.key].bytes| == s.uploads[u].size
    ensures var linked := Apply(s, Link(t));
            var completed := Run(linked, [CompleteRead(other, u), CompleteRow(other)]);
            var end := Apply(completed, Attach(attachment, u));
            var f := s.tasks[t].file;
            attachment in end.attachments && end.attachments[attachment].key == s.files[f].key
            && end.attachments[attachment].file == f
            && end == s.(uploads := s.uploads[u := s.uploads[u].(file := Some(f), status := Consumed)],
                         attachments := s.attachments[attachment := end.attachments[attachment]], tasks := end.tasks)
  {
    hide Apply, Run;
    LinksIff(s, t);
    var linked := Apply(s, Link(t));
    CompletesIff(linked, other, u);
    AttachesIff(Run(linked, [CompleteRead(other, u), CompleteRow(other)]), attachment, u);
  }

  lemma {:induction false} RunAppends(s: State, first: seq<Action>, more: seq<Action>)
    ensures Run(s, first + more) == Run(Run(s, first), more)
    decreases |first|
  {
    hide Apply;
    if first == [] {
      assert first + more == more;
    } else {
      assert (first + more)[1..] == first[1..] + more;
      RunAppends(Apply(s, first[0]), first[1..], more);
    }
  }

  lemma RunOfOne(s: State, a: Action)
    ensures Run(s, [a]) == Apply(s, a)
  {
    hide Apply;
    assert [a][1..] == [];
  }

  /** `create`, the PUT with its registration as `stored` has it, `complete`, and a message that attaches the upload. */
  function UploadAndAttach(u: Id, key: Key, size: nat, stored: seq<Action>, t: nat, other: nat, attachment: Id)
    : seq<Action>
  {
    [Create(u, key, size)] + stored
    + ([Link(t)] + [CompleteRead(other, u), CompleteRow(other)] + [Attach(attachment, u)])
  }

  lemma UploadSteps(s: State, u: Id, key: Key, size: nat, stored: seq<Action>, t: nat, other: nat, attachment: Id)
    ensures var registered := Run(Apply(s, Create(u, key, size)), stored);
            var completed := Run(Apply(registered, Link(t)), [CompleteRead(other, u), CompleteRow(other)]);
            Run(s, UploadAndAttach(u, key, size, stored, t, other, attachment))
            == Apply(completed, Attach(attachment, u))
  {
    hide Apply, Run;
    var attach := [Link(t)] + [CompleteRead(other, u), CompleteRow(other)] + [Attach(attachment, u)];
    var created := Apply(s, Create(u, key, size));
    RunAppends(s, [Create(u, key, size)] + stored, attach);
    RunAppends(s, [Create(u, key, size)], stored);
    RunOfOne(s, Create(u, key, size));
    var registered := Run(created, stored);
    RunAppends(registered, [Link(t)] + [CompleteRead(other, u), CompleteRow(other)], [Attach(attachment, u)]);
    RunAppends(registered, [Link(t)], [CompleteRead(other, u), CompleteRow(other)]);
    RunOfOne(registered, Link(t));
    RunOfOne(Run(Apply(registered, Link(t)), [CompleteRead(other, u), CompleteRow(other)]), Attach(attachment, u));
  }

  /**
   Main result: what is uploaded and attached, with nothing in between, downloads as the bytes that were sent; and the
   store has grown by exactly that object.
   */
  lemma UploadRoundTrip(s: State, u: Id, key: Key, bytes: Bytes, t: nat, other: nat, attachment: Id)
    requires u !in s.uploads && t !in s.tasks && other !in s.tasks && t != other && attachment !in s.attachments
    requires IsFreshKey(s, key)
    requires forall f :: f in s.files ==> s.files[f].dedupe != Base(Md5Spec.Digest(bytes), |bytes|)
    ensures var stored := [Put(t, ForUpload(u), key, bytes, |bytes|), Search(t, None), Insert(t)];
            var end := Run(s, UploadAndAttach(u, key, |bytes|, stored, t, other, attachment));
            Download(end, attachment) == Some(bytes) && end.store == s.store[key := Object(bytes, s.now)]
            && end.uploads == s.uploads[u := Upload(key, |bytes|, Consumed, Some(s.supply))]
  {
    hide Run, Md5Spec.Digest, PutStep, SearchStep, InsertStep, LinkStep, AttachStep;
    var stored := [Put(t, ForUpload(u), key, bytes, |bytes|), Search(t, None), Insert(t)];
    UploadSteps(s, u, key, |bytes|, stored, t, other, attachment);
    var created := Apply(s, Create(u, key, |bytes|));
    assert created == s.(uploads := s.uploads[u := Upload(key, |bytes|, Pending, None)]);
    hide Apply;
    ContentIsRegistered(created, t, ForUpload(u), key, bytes);
    RegisteredIsAttached(Run(created, stored), t, other, u, attachment);
  }

  /** Main result: so does what is there already, and the store has not grown. */
  lemma CopyRoundTrip(s: State, u: Id, key: Key, bytes: Bytes, t: nat, other: nat, attachment: Id, c: Id)
    requires u !in s.uploads && t !in s.tasks && other !in s.tasks && t != other && attachment !in s.attachments
    requires IsFreshKey(s, key) && IsCopy(s, c, key, bytes)
    ensures var stored := [Put(t, ForUpload(u), key, bytes, |bytes|), Search(t, Some(c)), DropLoser(t)];
            var end := Run(s, UploadAndAttach(u, key, |bytes|, stored, t, other, attachment));
            Download(end, attachment) == Some(bytes) && end.store == s.store && end.files == s.files
            && end.uploads == s.uploads[u := Upload(key, |bytes|, Consumed, Some(c))]
  {
    hide Run, Md5Spec.Digest, PutStep, SearchStep, InsertStep, LinkStep, AttachStep;
    var stored := [Put(t, ForUpload(u), key, bytes, |bytes|), Search(t, Some(c)), DropLoser(t)];
    UploadSteps(s, u, key, |bytes|, stored, t, other, attachment);
    var created := Apply(s, Create(u, key, |bytes|));
    assert created == s.(uploads := s.uploads[u := Upload(key, |bytes|, Pending, None)]);
    hide Apply;
    ContentIsDeduplicated(created, t, ForUpload(u), key, bytes, c);
    RegisteredIsAttached(Run(created, stored), t, other, u, attachment);
  }

  // ------------------------------------------------------------------ uploads that are given up, and orphans

  /**
   Main result: a cancel that nothing interrupts takes the upload away if and only if it is not consumed, and an expiry
   marks it if and only if it is pending or uploaded; an upload without a file then has no object either, and one with a
   file leaves that to its collection.
   */
  lemma RetiresIff(s: State, t: nat, u: Id, delete: bool)
    requires t !in s.tasks && u in s.uploads
    ensures var end := Run(s, [RetireRead(t, u), RetireRow(t, delete), Drop(t)]);
            var row := s.uploads[u];
            if (if delete then row.status != Consumed else row.status == Pending || row.status == Uploaded) then
              end.uploads == (if delete then s.uploads - {u} else s.uploads[u := row.(status := Expired)])
              && end.store == (if row.file == None then s.store - {row.key} else s.store)
              && end == s.(uploads := end.uploads, store := end.store, tasks := end.tasks)
            else end == s.(tasks := end.tasks)
  {
    RunOfThree(s, RetireRead(t, u), RetireRow(t, delete), Drop(t));
    RetireReads(s, t, u);
    var read := Apply(s, RetireRead(t, u));
    RetireRows(read, t, delete);
    var row := Apply(read, RetireRow(t, delete));
    hide Apply, Run;
    if row.tasks[t].Dropping? {
      DropsObject(row, t);
    } else {
      IdleDrop(row, t);
    }
  }

  lemma RetireReads(s: State, t: nat, u: Id)
    requires t !in s.tasks && u in s.uploads
    ensures Apply(s, RetireRead(t, u))
            == s.(tasks := s.tasks[t := Retiring(u, s.uploads[u].key, s.uploads[u].file)])
  {
  }

  lemma RetireRows(s: State, t: nat, delete: bool)
    requires t in s.tasks && s.tasks[t].Retiring? && s.tasks[t].upload in s.uploads
    ensures var (p, u) := (s.tasks[t], s.tasks[t].upload);
            var next := if p.seen == None then Dropping(p.key) else Ended;
            var row := s.uploads[u];
            Apply(s, RetireRow(t, delete))
            == if (if delete then row.status != Consumed else row.status == Pending || row.status == Uploaded) then
                 s.(uploads := if delete then s.uploads - {u} else s.uploads[u := row.(status := Expired)],
                    tasks := s.tasks[t := next])
               else s.(tasks := s.tasks[t := Ended])
  {
  }

  /**
   Main result: the sweep deletes an object if and only if it was put a day ago and no attachment, no upload but an
   expired one, and no file row has its key.
   */
  lemma SweepsIff(s: State, t: nat, key: Key)
    requires t !in s.tasks && key in s.store
    ensures var end := Run(s, [SweepCheck(t, key), Drop(t)]);
            end == s.(store := end.store, tasks := end.tasks)
            && end.store ==
               if s.store[key].uploadedAt <= s.now - GRACE
                  && (forall a :: a in s.attachments ==> s.attachments[a].key != key)
                  && (forall u :: u in s.uploads && s.uploads[u].key == key ==> s.uploads[u].status == Expired)
                  && (forall f :: f in s.files ==> s.files[f].key != key)
               then s.store - {key} else s.store
  {
    RunOfTwo(s, SweepCheck(t, key), Drop(t));
    var checked := Apply(s, SweepCheck(t, key));
    if checked != s {
      assert checked == s.(tasks := s.tasks[t := Dropping(key)]);
      DropsObject(checked, t);
    } else {
      NoDrop(s, t);
    }
    hide Run, Apply;
  }

  lemma NoDrop(s: State, t: nat)
    requires t !in s.tasks
    ensures Apply(s, Drop(t)) == s
  {
  }
}
