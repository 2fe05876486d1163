/**
 What no step may disturb: a draft whose version is still the same is otherwise still the same; fresh
 numbers stay fresh; a message that is no longer a draft never changes; records only grow old.
 */
module DraftFrames {
  import opened DraftTables
  import opened DraftCalls
  import opened DraftProtocol
  import opened Options

  predicate Alike(before: Db, after: Db, d: Id)
    requires d in before.messages && d in after.messages
  {
    before.messages[d].mailbox == after.messages[d].mailbox
    && Recipients(before, d) == Recipients(after, d)
    && AttachmentsOf(before, d) == AttachmentsOf(after, d)
  }

  /** The compare-and-swap token is honest: an unchanged version means an unchanged draft. */
  ghost predicate Honest(before: Db, after: Db, bound: nat, stamp: nat) {
    forall user: Id, d: Id, v :: d < bound && v != Stamp(stamp) && RowMatches(after, user, d, v) ==>
      RowMatches(before, user, d, v) && Alike(before, after, d)
  }

  ghost predicate SpendsOnly(before: Db, after: Db, stamp: nat) {
    forall n: nat :: n != stamp && Unused(before, n) ==> Unused(after, n)
  }

  predicate AddsOnly(before: Db, after: Db, added: Id) {
    forall d :: d in after.messages ==> d in before.messages || d == added
  }

  /** A message that has left `draft` does not come back to it, nor does what it says change, nor whose it is. */
  predicate Departs(before: Db, after: Db) {
    forall d :: d in before.messages && before.messages[d].status != Draft && d in after.messages ==>
      Departed(before.messages[d], after.messages[d])
  }

  predicate Departed(before: Message, after: Message) {
    after.status != Draft && after.content == before.content && after.owner == before.owner
        && after.mailbox == before.mailbox
  }

  /** A record is never rewritten, and only one that has expired goes away. */
  predicate RecordsAge(before: Db, after: Db) {
    forall k :: k in before.records && !before.records[k].expired ==>
      k in after.records && (after.records[k] == before.records[k]
          || after.records[k] == before.records[k].(expired := true))
  }

  ghost predicate Frame(before: Db, after: Db, bound: nat, stamp: nat) {
    Honest(before, after, bound, stamp) && SpendsOnly(before, after, stamp) && AddsOnly(before, after, bound)
    && Departs(before, after) && RecordsAge(before, after)
  }

  // ------------------------------------------------------------------ from rows to frames

  predicate SameRecipients(before: Db, after: Db, d: Id) {
    Recipients(after, d) == Recipients(before, d) && AttachmentsOf(after, d) == AttachmentsOf(before, d)
  }

  /** `d` is the only draft touched, and its row, if it is still a draft, carries the new stamp. */
  ghost predicate Touches(before: Db, after: Db, d: Id, stamp: nat) {
    (d in after.messages && after.messages[d].status == Draft ==> after.messages[d].version == Stamp(stamp))
    && forall x :: x != d ==>
         SameRecipients(before, after, x)
         && (x in after.messages ==> x in before.messages && after.messages[x] == before.messages[x])
  }

  lemma TouchesIsHonest(before: Db, after: Db, d: Id, bound: nat, stamp: nat)
    requires Touches(before, after, d, stamp)
    ensures Honest(before, after, bound, stamp)
  {
    forall user: Id, x: Id, v | x < bound && v != Stamp(stamp) && RowMatches(after, user, x, v)
      ensures RowMatches(before, user, x, v) && Alike(before, after, x)
    {
      assert x != d;
      assert SameRecipients(before, after, x);
    }
  }

  /** Nothing a version stands for was touched. */
  predicate Quiet(before: Db, after: Db) {
    after.messages == before.messages && after.recipients == before.recipients
        && after.attachments == before.attachments
    && RecordsAge(before, after)
  }

  lemma QuietFrame(before: Db, after: Db, bound: nat, stamp: nat)
    requires Quiet(before, after)
    ensures Frame(before, after, bound, stamp)
  {
    assert forall d :: AttachmentsOf(after, d) == AttachmentsOf(before, d);
    assert Honest(before, after, bound, stamp);
    assert SpendsOnly(before, after, stamp);
  }

  /** One message's row was rewritten; its recipients and attachments were not. */
  lemma RowFrame(before: Db, after: Db, draft: Id, row: Message, bound: nat, stamp: nat)
    requires draft in before.messages
             && (before.messages[draft].status == Draft || Departed(before.messages[draft], row))
    requires row.status == Draft ==> row.version == Stamp(stamp)
    requires row.version == Stamp(stamp) || row.version.Clock?
    requires after.messages == before.messages[draft := row]
    requires after.recipients == before.recipients && after.attachments == before.attachments
             && RecordsAge(before, after)
    ensures Frame(before, after, bound, stamp)
  {
    forall x ensures SameRecipients(before, after, x) {
      assert AttachmentsOf(after, x) == AttachmentsOf(before, x);
    }
    TouchesIsHonest(before, after, draft, bound, stamp);
    assert SpendsOnly(before, after, stamp);
  }

  // ------------------------------------------------------------------ the four calls

  /** Attaching under an unused stamp changes no other message's attachments. */
  lemma AttachedIsLocal(before: Db, after: Db, draft: Id, removed: set<AttachmentId>, taken: map<Id, FileInfo>,
      stamp: nat)
    requires Unused(before, stamp)
    requires after.attachments == Attached(before, draft, removed, taken, stamp)
    ensures forall x :: x != draft ==> AttachmentsOf(after, x) == AttachmentsOf(before, x)
    ensures forall a :: a in after.attachments && a !in before.attachments ==> a.stamp == stamp
  {
    forall x | x != draft ensures AttachmentsOf(after, x) == AttachmentsOf(before, x) {
      assert forall a :: a in AttachmentsOf(after, x) <==> a in AttachmentsOf(before, x);
    }
  }

  /** One message's row, recipients and attachments were rewritten. */
  lemma DraftFrame(before: Db, after: Db, draft: Id, row: Message, bound: nat, stamp: nat)
    requires draft in before.messages ==> before.messages[draft].status == Draft
    requires draft in before.messages || draft == bound
    requires row.version == Stamp(stamp) || (row.version.Clock? && draft == bound)
    requires after.messages == before.messages[draft := row] && after.records == before.records
    requires forall x :: x != draft ==> Recipients(after, x) == Recipients(before, x)
    requires forall x :: x != draft ==> AttachmentsOf(after, x) == AttachmentsOf(before, x)
    requires forall a :: a in after.attachments && a !in before.attachments ==> a.stamp == stamp
    ensures Frame(before, after, bound, stamp)
  {
    forall user: Id, x: Id, v | x < bound && v != Stamp(stamp) && RowMatches(after, user, x, v)
      ensures RowMatches(before, user, x, v) && Alike(before, after, x)
    {
      assert x != draft;
    }
    assert Honest(before, after, bound, stamp);
    assert SpendsOnly(before, after, stamp);
  }

  lemma UpdateFrame(
    db: Db, user: Id, draft: Id, version: Version, content: Content, recipients: seq<Recipient>,
    removed: set<AttachmentId>, taken: map<Id, FileInfo>, stamp: nat, bound: nat)
    requires Unused(db, stamp)
    ensures var b := UpdateBatch(db, user, draft, version, content, recipients, removed, taken, stamp);
            b.Applied? ==> Frame(db, b.db, bound, stamp)
  {
    hide Frame, Attached, Consume, AttachmentsOf, Unused, RecordsAge;
    var b := UpdateBatch(db, user, draft, version, content, recipients, removed, taken, stamp);
    if b.Applied? {
      if RowMatches(db, user, draft, version) {
        AttachedIsLocal(db, b.db, draft, removed, taken, stamp);
        DraftFrame(db, b.db, draft, db.messages[draft].(content := content, version := Stamp(stamp)), bound, stamp);
      } else {
        QuietFrame(db, b.db, bound, stamp);
      }
    }
  }

  lemma SendFrame(
    db: Db, user: Id, draft: Id, version: Version, mailbox: Id, external: bool, connection: Option<Id>,
    internal: set<Id>, key: RecordKey, record: Record, stamp: nat, bound: nat)
    ensures var b := SendBatch(db, user, draft, version, mailbox, external, connection, internal, key, record, stamp);
            b.Applied? ==> Frame(db, b.db, bound, stamp)
  {
    var b := SendBatch(db, user, draft, version, mailbox, external, connection, internal, key, record, stamp);
    if b.Applied? {
      if RowMatches(db, user, draft, version) {
        RowFrame(db, b.db, draft, b.db.messages[draft], bound, stamp);
      } else {
        QuietFrame(db, b.db, bound, stamp);
      }
    }
  }

  lemma ScheduleFrame(
    db: Db, user: Id, draft: Id, version: Version, connection: Option<Id>, instant: int,
    key: RecordKey, record: Record, stamp: nat, bound: nat)
    ensures var b := ScheduleBatch(db, user, draft, version, connection, instant, key, record, stamp);
            b.Applied? ==> Frame(db, b.db, bound, stamp)
  {
    var b := ScheduleBatch(db, user, draft, version, connection, instant, key, record, stamp);
    if b.Applied? {
      if RowMatches(db, user, draft, version) {
        RowFrame(db, b.db, draft, b.db.messages[draft], bound, stamp);
      } else {
        QuietFrame(db, b.db, bound, stamp);
      }
    }
  }

  lemma CancelFrame(
    db: Db, user: Id, draft: Id, version: Version, key: RecordKey, record: Record, stamp: nat, bound: nat)
    ensures var b := CancelBatch(db, user, draft, version, key, record, stamp);
            b.Applied? ==> Frame(db, b.db, bound, stamp)
  {
    var b := CancelBatch(db, user, draft, version, key, record, stamp);
    if b.Applied? {
      if b.second {
        RowFrame(db, b.db, draft, b.db.messages[draft], bound, stamp);
      } else {
        QuietFrame(db, b.db, bound, stamp);
      }
    }
  }

  /** No batch of any call disturbs anything but its own draft, and every write it makes to it is stamped. */
  lemma CommitFrame(db: Db, dir: Directory, r: Request, version: Version, mailbox: Id, plan: Plan, stamp: nat,
      bound: nat)
    requires PlanFits(r, plan) && Unused(db, stamp)
    ensures Frame(db, Commit(db, dir, r, version, mailbox, plan, stamp).0, bound, stamp)
  {
    QuietFrame(db, db, bound, stamp);
    if plan.CancelNothingPlan? && r.Cancel? && CancelNothing(db, KeyOf(r), RecordOf(r, version, plan, stamp)).Applied? {
      QuietFrame(db, CancelNothing(db, KeyOf(r), RecordOf(r, version, plan, stamp)).db, bound, stamp);
    }
    hide Frame, UpdateBatch, SendBatch, ScheduleBatch, CancelBatch, CancelNothing;
    match r
    case Update(user, draft, _, input) =>
      UpdateFrame(db, user, draft, version, input.content, input.recipients, plan.removed, plan.taken, stamp, bound);
    case Send(user, draft, _, _) =>
      SendFrame(db, user, draft, version, mailbox, plan.external, Connection(dir, mailbox), plan.internal, KeyOf(r),
          RecordOf(r, version, plan, stamp), stamp, bound);
    case Schedule(user, draft, _, _, instant, _) =>
      ScheduleFrame(db, user, draft, version, plan.connection, instant, KeyOf(r), RecordOf(r, version, plan, stamp),
          stamp, bound);
    case Cancel(user, draft, _, _) =>
      CancelFrame(db, user, draft, version, KeyOf(r), RecordOf(r, version, plan, stamp), stamp, bound);
  }

  // ------------------------------------------------------------------ everything else

  lemma CreateFrame(
    db: Db, user: Id, draft: Id, mailbox: Id, content: Content, recipients: seq<Recipient>, taken: map<Id, FileInfo>)
    requires Unused(db, draft) && draft !in db.messages
    ensures var b := CreateDraft(db, user, draft, mailbox, content, recipients, taken);
            b.Applied? ==> Frame(db, b.db, draft, draft)
  {
    var b := CreateDraft(db, user, draft, mailbox, content, recipients, taken);
    if b.Applied? {
      AttachedIsLocal(db, b.db, draft, {}, taken, draft);
      DraftFrame(db, b.db, draft, b.db.messages[draft], draft, draft);
    }
  }

  lemma RemoveFrame(db: Db, user: Id, draft: Id, bound: nat, stamp: nat)
    ensures Frame(db, RemoveDraft(db, user, draft), bound, stamp)
  {
    var after := RemoveDraft(db, user, draft);
    if after == db {
      QuietFrame(db, db, bound, stamp);
    } else {
      forall x | x != draft ensures SameRecipients(db, after, x) {
        assert forall a :: a in AttachmentsOf(after, x) <==> a in AttachmentsOf(db, x);
      }
      TouchesIsHonest(db, after, draft, bound, stamp);
      assert SpendsOnly(db, after, stamp);
    }
  }

  lemma ArriveFrame(
    db: Db, message: Id, row: Message, recipients: seq<Recipient>, taken: map<Id, FileInfo>, folders: map<Id, Folder>,
    external: bool)
    requires Unused(db, message) && message !in db.messages
    ensures var b := NewMessage(db, message, row, recipients, taken, folders, external);
            b.Applied? ==> Frame(db, b.db, message, message)
  {
    var b := NewMessage(db, message, row, recipients, taken, folders, external);
    if b.Applied? {
      AttachedIsLocal(db, b.db, message, {}, taken, message);
      DraftFrame(db, b.db, message, b.db.messages[message], message, message);
    }
  }

  lemma PurgeFrame(db: Db, message: Id, bound: nat, stamp: nat)
    ensures Frame(db, PurgeMessage(db, message), bound, stamp)
  {
    var after := PurgeMessage(db, message);
    if after == db {
      QuietFrame(db, db, bound, stamp);
    } else {
      forall x | x != message ensures SameRecipients(db, after, x) {
        assert forall a :: a in AttachmentsOf(after, x) <==> a in AttachmentsOf(db, x);
      }
      TouchesIsHonest(db, after, message, bound, stamp);
      assert SpendsOnly(db, after, stamp);
    }
  }

  lemma ReportFrame(db: Db, message: Id, status: string, bound: nat, stamp: nat)
    ensures Frame(db, WriteStatus(db, message, status), bound, stamp)
  {
    var after := WriteStatus(db, message, status);
    if after == db {
      QuietFrame(db, db, bound, stamp);
    } else {
      RowFrame(db, after, message, after.messages[message], bound, stamp);
    }
  }

  lemma DispatchFrame(db: Db, e: Effect, bound: nat, stamp: nat)
    requires e.Completed? || e.GaveUp?
    ensures Frame(db, Happens(db, e), bound, stamp)
  {
    var after := Happens(db, e);
    if after.messages == db.messages {
      QuietFrame(db, after, bound, stamp);
    } else {
      RowFrame(db, after, e.draft, after.messages[e.draft], bound, stamp);
    }
  }

  /** Jobs, links, uploads and the clock may change. */
  lemma SmallChange(db: Db, after: Db)
    requires after == db.(jobs := after.jobs, links := after.links, uploads := after.uploads, now := after.now)
    ensures Quiet(db, after)
  {
  }

  lemma JobsMove(db: Db, draft: Id, job: nat, lock: Lock)
    ensures Quiet(db, MarkEnqueued(db, draft, job)) && Quiet(db, ClaimJob(db, draft, job, lock))
            && Quiet(db, RecoverLocks(db))
  {
    hide Quiet;
    SmallChange(db, MarkEnqueued(db, draft, job));
    SmallChange(db, ClaimJob(db, draft, job, lock));
    SmallChange(db, RecoverLocks(db));
  }

  lemma RecordsOnlyAge(db: Db, key: RecordKey)
    ensures Quiet(db, Happens(db, RecordExpired(key))) && Quiet(db, Happens(db, RecordsCleaned))
  {
    hide CreateDraft, NewMessage, RemoveDraft, PurgeMessage, WriteStatus, CompleteJob, FailJob;
    hide EmptyTrash, MarkEnqueued, ClaimJob, RecoverLocks;
  }

  /** Effects that touch no row of a message, its recipients or its attachments. */
  predicate IsSmall(e: Effect) {
    e.Marked? || e.Claimed? || e.LocksRecovered? || e.Emptied? || e.Moved? || e.UploadChanged? || e.Ticked?
    || e.RecordExpired? || e.RecordsCleaned?
  }

  lemma SmallIsQuiet(db: Db, e: Effect)
    requires IsSmall(e)
    ensures Quiet(db, Happens(db, e))
  {
    hide CreateDraft, NewMessage, RemoveDraft, PurgeMessage, WriteStatus, CompleteJob, FailJob, Quiet;
    hide MarkEnqueued, ClaimJob, RecoverLocks;
    match e
    case Marked(draft, job) => JobsMove(db, draft, job, Lock(0, 0));
    case Claimed(draft, job, lock) => JobsMove(db, draft, job, lock);
    case LocksRecovered => JobsMove(db, 0, 0, Lock(0, 0));
    case RecordExpired(key) => RecordsOnlyAge(db, key);
    case RecordsCleaned => RecordsOnlyAge(db, RecordKey(0, SendOp, ""));
    case _ => SmallChange(db, Happens(db, e));
  }

  /** Only making a message spends a number; every other effect may be read as spending any number at all. */
  lemma EffectFrame(db: Db, e: Effect, bound: nat, stamp: nat)
    requires Draws(e) ==> DrawnBy(e) == bound == stamp && bound !in db.messages && Unused(db, bound)
    ensures Frame(db, Happens(db, e), bound, stamp)
  {
    hide Frame, Quiet;
    if IsSmall(e) {
      hide Happens;
      SmallIsQuiet(db, e);
      QuietFrame(db, Happens(db, e), bound, stamp);
    } else {
      hide CreateDraft, NewMessage, RemoveDraft, PurgeMessage, WriteStatus, CompleteJob, FailJob;
      hide MarkEnqueued, ClaimJob, RecoverLocks, EmptyTrash;
      SmallChange(db, db);
      QuietFrame(db, db, bound, stamp);
      match e
      case Created(user, draft, mailbox, content, recipients, taken) =>
        CreateFrame(db, user, draft, mailbox, content, recipients, taken);
      case Arrived(message, row, to, files, folders, external) =>
        ArriveFrame(db, message, row, to, files, folders, external);
      case Removed(user, draft) => RemoveFrame(db, user, draft, bound, stamp);
      case Purged(message) => PurgeFrame(db, message, bound, stamp);
      case Reports(message, status) => ReportFrame(db, message, status, bound, stamp);
      case _ => DispatchFrame(db, e, bound, stamp);
    }
  }
}
