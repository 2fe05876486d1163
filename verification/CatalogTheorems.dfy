/** What the invariant of the attachment catalog gives its users. */
module CatalogTheorems {
  import opened Blocks
  import opened Catalog
  import opened CatalogSafety
  import opened CatalogSteps
  import Md5Spec
  import opened Options

  /**
   No operation under way, and rows as migration 0007 leaves them: its file rows have no MD5, and one made for an
   upload that was never PUT has no object either.  What is attached, and what is uploaded and waits, has its object.
   */
  ghost predicate Initial(s: State) {
    s.tasks == map[] && TablesOk(s)
  }

  /** What `download` answers for an attachment. */
  function Download(s: State, attachment: Id): Option<Bytes> {
    if attachment in s.attachments && s.attachments[attachment].key in s.store
    then Some(s.store[s.attachments[attachment].key].bytes) else None
  }

  /** An upload that was completed waits to be attached with this file. */
  predicate Promised(s: State, f: Id) {
    exists u :: u in s.uploads && s.uploads[u].file == Some(f) && s.uploads[u].status == Uploaded
  }

  /**
   In every state of every calm run each file row with an MD5 owns a stored object that hashes to it; and one without
   has its object if it is attached, or an upload that was completed waits for it.
   */
  lemma FilesAreStored(s: State, actions: seq<Action>, f: Id)
    requires Initial(s) && CalmRun(s, actions) && f in Run(s, actions).files
    ensures var end := Run(s, actions);
            end.files[f].md5.Some? ==>
              end.files[f].key in end.store
                  && Md5Spec.Digest(end.store[end.files[f].key].bytes) == end.files[f].md5.value
    ensures var end := Run(s, actions);
            Attached(end, f) || Promised(end, f) ==> end.files[f].key in end.store
  {
    hide Md5Spec.Digest;
    assert Inv(s);
    RunKeeps(s, actions);
    var end := Run(s, actions);
    hide Run, CalmRun, Initial;
    assert forall a :: a in end.attachments ==> AttachmentOk(end, end.attachments[a]);
  }

  predicate KeepsOriginal(s: State, after: State, attachment: Id) {
    attachment in s.attachments ==>
      attachment in after.attachments && after.attachments[attachment].original == s.attachments[attachment].original
  }

  lemma StoringKeepsOriginal(s: State, t: nat, candidate: Option<Id>, attachment: Id)
    requires t in s.tasks
    ensures s.tasks[t].Stored? ==>
            KeepsOriginal(s, SearchStep(s, t, candidate), attachment) && KeepsOriginal(s, InsertStep(s, t), attachment)
    ensures s.tasks[t].Registered? && s.tasks[t].purpose.ForUpload? ==> KeepsOriginal(s, LinkStep(s, t), attachment)
    ensures s.tasks[t].Completing? ==> KeepsOriginal(s, CompleteRowStep(s, t), attachment)
  {
    hide Md5Spec.Digest, KeyTaken, DedupeTaken, Identical;
  }

  lemma RetiringKeepsOriginal(s: State, t: nat, delete: bool, attachment: Id)
    requires t in s.tasks
    ensures s.tasks[t].Retiring? ==> KeepsOriginal(s, RetireRowStep(s, t, delete), attachment)
    ensures s.tasks[t].Collecting? ==> KeepsOriginal(s, CollectRowStep(s, t), attachment)
    ensures s.tasks[t].Backfilling? ==> KeepsOriginal(s, BackfillRowStep(s, t), attachment)
  {
    hide Md5Spec.Digest, DedupeTaken, Attached, Awaited, Uploading, Unlinked;
  }

  lemma RowStepKeepsOriginal(s: State, a: Action, attachment: Id)
    ensures a.Put? ==> KeepsOriginal(s, PutStep(s, a), attachment)
    ensures a.Attach? ==> KeepsOriginal(s, AttachStep(s, a.attachment, a.upload), attachment)
    ensures a.Receive? && a.task in s.tasks && s.tasks[a.task].Registered? && s.tasks[a.task].purpose.ForMessage? ==>
              KeepsOriginal(s, ReceiveStep(s, a.task, a.attachment), attachment)
    ensures a.BackfillRead? ==> KeepsOriginal(s, BackfillReadStep(s, a.task, a.file, a.candidate), attachment)
    ensures a.SweepCheck? ==> KeepsOriginal(s, SweepCheckStep(s, a.task, a.key), attachment)
  {
    hide Md5Spec.Digest, KeyTaken, DedupeTaken, Identical, Referenced;
  }

  lemma OtherStepKeepsOriginal(s: State, a: Action, attachment: Id)
    requires attachment in s.attachments && a != Detach(attachment)
    requires a.Create? || a.DropLoser? || a.CompleteRead? || a.Detach? || a.RetireRead? || a.CollectRead? || a.Drop?
             || a.Tick?
    ensures KeepsOriginal(s, Apply(s, a), attachment)
  {
    hide HeadMatches;
  }

  lemma StepKeepsOriginal(s: State, a: Action, attachment: Id)
    requires attachment in s.attachments && a != Detach(attachment)
    ensures KeepsOriginal(s, Apply(s, a), attachment)
  {
    hide Md5Spec.Digest, PutStep, SearchStep, InsertStep, LinkStep, ReceiveStep, AttachStep, RetireRowStep;
    hide CollectRowStep, BackfillReadStep, BackfillRowStep, SweepCheckStep, CompleteRowStep, HeadMatches;
    assert KeepsOriginal(s, s, attachment);
    hide KeepsOriginal;
    match a
    case Search(t, candidate) => if t in s.tasks { StoringKeepsOriginal(s, t, candidate, attachment); }
    case Insert(t) => if t in s.tasks { StoringKeepsOriginal(s, t, None, attachment); }
    case Link(t) => if t in s.tasks { StoringKeepsOriginal(s, t, None, attachment); }
    case CompleteRow(t) => if t in s.tasks { StoringKeepsOriginal(s, t, None, attachment); }
    case RetireRow(t, delete) => if t in s.tasks { RetiringKeepsOriginal(s, t, delete, attachment); }
    case CollectRow(t) => if t in s.tasks { RetiringKeepsOriginal(s, t, false, attachment); }
    case BackfillRow(t) => if t in s.tasks { RetiringKeepsOriginal(s, t, false, attachment); }
    case Put(_, _, _, _, _) => RowStepKeepsOriginal(s, a, attachment);
    case Attach(_, _) => RowStepKeepsOriginal(s, a, attachment);
    case Receive(_, _) => RowStepKeepsOriginal(s, a, attachment);
    case BackfillRead(_, _, _) => RowStepKeepsOriginal(s, a, attachment);
    case SweepCheck(_, _) => RowStepKeepsOriginal(s, a, attachment);
    case _ => OtherStepKeepsOriginal(s, a, attachment);
  }

  lemma {:induction false} OriginalIsKept(s: State, actions: seq<Action>, attachment: Id)
    requires attachment in s.attachments && Detach(attachment) !in actions
    ensures attachment in Run(s, actions).attachments
    ensures Run(s, actions).attachments[attachment].original == s.attachments[attachment].original
    decreases |actions|
  {
    if actions != [] {
      StepKeepsOriginal(s, actions[0], attachment);
      hide Apply;
      OriginalIsKept(Apply(s, actions[0]), actions[1..], attachment);
    }
  }

  /**
   Main result.  Whatever is uploaded, deduplicated, attached, detached, cancelled, expired, collected, merged
   or swept afterwards, an attachment that is not itself removed points at a live file row with its own key, and
   downloads exactly the bytes it downloaded before.
   */
  lemma AttachmentsSurvive(s: State, actions: seq<Action>, attachment: Id)
    requires Inv(s) && CalmRun(s, actions)
    requires attachment in s.attachments && Detach(attachment) !in actions
    ensures var end := Run(s, actions);
            attachment in end.attachments
            && end.attachments[attachment].file in end.files
            && end.files[end.attachments[attachment].file].key == end.attachments[attachment].key
            && Download(s, attachment).Some? && Download(end, attachment) == Download(s, attachment)
  {
    hide Md5Spec.Digest;
    assert AttachmentOk(s, s.attachments[attachment]);
    RunKeeps(s, actions);
    OriginalIsKept(s, actions, attachment);
    assert AttachmentOk(Run(s, actions), Run(s, actions).attachments[attachment]);
  }

  /**
   An object that is about to be deleted, by the sweep or by anyone else, belongs to no file row and to no attachment.
   */
  lemma DropsAreSafe(s: State, actions: seq<Action>, t: nat)
    requires Initial(s) && CalmRun(s, actions)
    requires t in Run(s, actions).tasks && (Run(s, actions).tasks[t].Dropping? || Run(s, actions).tasks[t].Losing?)
    ensures var end := Run(s, actions);
            !KeyTaken(end.files, end.tasks[t].key)
            && forall a :: a in end.attachments ==> end.attachments[a].key != end.tasks[t].key
  {
    hide Md5Spec.Digest;
    assert Inv(s);
    RunKeeps(s, actions);
    var end := Run(s, actions);
    hide Run, CalmRun, Initial;
    assert TaskOk(end, end.tasks[t]);
    assert forall a :: a in end.attachments ==> AttachmentOk(end, end.attachments[a]);
  }

  /** Content that was deduplicated is the content that was sent. */
  lemma DeduplicatedIsIdentical(s: State, actions: seq<Action>, t: nat)
    requires Initial(s) && CalmRun(s, actions)
    requires var end := Run(s, actions);
             t in end.tasks && end.tasks[t].Registered? && end.tasks[t].file in end.files
    ensures var end := Run(s, actions);
            var p := end.tasks[t];
            end.files[p.file].key == p.key && p.key in end.store && end.store[p.key].bytes == p.bytes
  {
    hide Md5Spec.Digest;
    assert Inv(s);
    RunKeeps(s, actions);
    assert TaskOk(Run(s, actions), Run(s, actions).tasks[t]);
  }
}
