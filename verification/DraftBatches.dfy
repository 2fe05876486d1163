/**
 The batches of drafts.ts, statement by statement.  The later statements of a batch do not know
 whether the first one matched: each looks for a row that carries the version this batch drew.  Since
 no other row ever carries it, the statements add up to the batches of DraftTables.
 */
module DraftBatches {
  import opened DraftTables
  import opened DraftProtocol
  import opened Options

  /** EXISTS (SELECT 1 FROM messages WHERE id = ? AND status = ? AND updated_at = ?) */
  predicate Carries(messages: map<Id, Message>, draft: Id, status: Status, stamp: nat) {
    draft in messages && messages[draft].status == status && messages[draft].version == Stamp(stamp)
  }

  /** The tables after a batch. */
  function Left(db: Db, b: Batch): Db {
    if b.Applied? then b.db else db
  }

  lemma NoRowCarries(db: Db, draft: Id, stamp: nat)
    requires Unused(db, stamp)
    ensures forall status :: !Carries(db.messages, draft, status, stamp)
  {
  }

  function TakenOf(uploads: seq<Id>, info: map<Id, FileInfo>): map<Id, FileInfo>
    requires forall u :: u in uploads ==> u in info
  {
    map u | u in uploads :: info[u]
  }

  /** message_attachments after one row was inserted per upload. */
  function Inserted(table: map<AttachmentId, Attachment>, draft: Id, stamp: nat, rows: seq<Id>, info: map<Id, FileInfo>)
    : map<AttachmentId, Attachment>
    requires forall u :: u in rows ==> u in info
  {
    table + (map u | u in rows :: AttachmentId(stamp, u) := Attachment(draft, info[u]))
  }

  function SetOf(rows: seq<Id>): set<Id> {
    set u | u in rows
  }

  lemma InsertedOneMore(
    table: map<AttachmentId, Attachment>, draft: Id, stamp: nat, rows: seq<Id>, u: Id, info: map<Id, FileInfo>)
    requires u in info && forall v :: v in rows ==> v in info
    ensures Inserted(table, draft, stamp, rows + [u], info)
            == Inserted(table, draft, stamp, rows, info)[AttachmentId(stamp, u) := Attachment(draft, info[u])]
  {
  }

  lemma ConsumedOneMore(uploads: map<Id, Upload>, rows: seq<Id>, u: Id)
    requires u in uploads && u !in rows
    ensures u in Consume(uploads, SetOf(rows)) && Consume(uploads, SetOf(rows))[u] == uploads[u]
    ensures Consume(uploads, SetOf(rows + [u]))
            == Consume(uploads, SetOf(rows))[u := uploads[u].(status := Consumed)]
  {
  }

  class Database {
    var messages: map<Id, Message>
    var recipients: map<Id, seq<Recipient>>
    var attachments: map<AttachmentId, Attachment>
    var uploads: map<Id, Upload>
    var links: set<Link>
    var jobs: map<Id, Job>
    var records: map<RecordKey, Record>
    var now: int

    function Contents(): Db
      reads this
    {
      Db(messages, recipients, attachments, uploads, links, jobs, records, now)
    }

    constructor (db: Db)
      ensures Contents() == db
    {
      messages, recipients, attachments, uploads := db.messages, db.recipients, db.attachments, db.uploads;
      links, jobs, records, now := db.links, db.jobs, db.records, db.now;
    }

    /** What D1 does when a statement of a batch fails. */
    method Rollback(db: Db)
      modifies this
      ensures Contents() == db
    {
      messages, recipients, attachments, uploads := db.messages, db.recipients, db.attachments, db.uploads;
      links, jobs, records, now := db.links, db.jobs, db.records, db.now;
    }

    // ---------------------------------------------------------------- update

    /** One guarded DELETE of the old recipients, then one guarded INSERT for each new one. */
    method ReplaceRecipients(draft: Id, stamp: nat, rows: seq<Recipient>)
      modifies this`recipients
      ensures recipients == if Carries(messages, draft, Draft, stamp) then old(recipients)[draft := rows]
                            else old(recipients)
    {
      ghost var before := recipients;
      if Carries(messages, draft, Draft, stamp) {
        recipients := recipients[draft := []];
      }
      var i := 0;
      while i < |rows|
        invariant 0 <= i <= |rows|
        invariant recipients == if Carries(messages, draft, Draft, stamp) then before[draft := rows[..i]] else before
      {
        if Carries(messages, draft, Draft, stamp) {
          recipients := recipients[draft := recipients[draft] + [rows[i]]];
        }
        assert rows[..i + 1] == rows[..i] + [rows[i]];
        i := i + 1;
      }
      assert rows[..i] == rows;
    }

    method DeleteAttachments(draft: Id, stamp: nat, removed: set<AttachmentId>)
      modifies this`attachments
      ensures attachments == if Carries(messages, draft, Draft, stamp) then Without(old(attachments), draft, removed)
                             else old(attachments)
    {
      WithoutNothing(attachments, draft, removed);
      if removed != {} {
        if Carries(messages, draft, Draft, stamp) {
          attachments :=
            map a | a in attachments && !(attachments[a].message == draft && a in removed) :: attachments[a];
        }
      }
    }

    /** One guarded INSERT per upload, with the triggers that check it and consume the upload. */
    method InsertAttachments(draft: Id, user: Id, stamp: nat, rows: seq<Id>, info: map<Id, FileInfo>) returns (ok: bool)
      requires forall u :: u in rows ==> u in info
      requires forall i, j :: 0 <= i < j < |rows| ==> rows[i] != rows[j]
      modifies this`attachments, this`uploads
      ensures !Carries(messages, draft, Draft, stamp) ==> ok && Contents() == old(Contents())
      ensures Carries(messages, draft, Draft, stamp) ==>
                (ok <==> AllValid(old(Contents()), user, rows, info))
                && (ok ==> Contents() == old(Contents()).(
                             attachments := Inserted(old(attachments), draft, stamp, rows, info),
                                                          uploads := Consume(old(uploads), SetOf(rows))))
    {
      hide Inserted, Consume;
      ghost var before := Contents();
      ghost var guard := Carries(messages, draft, Draft, stamp);
      ok := true;
      var i := 0;
      NothingInserted(before, draft, stamp, rows, info);
      while i < |rows|
        invariant 0 <= i <= |rows| && ok
        invariant !guard ==> Contents() == before
        invariant guard ==> forall k :: 0 <= k < i ==> UploadValid(before, user, rows[k], info[rows[k]])
        invariant guard ==> attachments == Inserted(before.attachments, draft, stamp, rows[..i], info)
        invariant guard ==> uploads == Consume(before.uploads, SetOf(rows[..i]))
      {
        var u := rows[i];
        assert rows[..i + 1] == rows[..i] + [u] && u !in rows[..i];
        if Carries(messages, draft, Draft, stamp) {
          StillValid(before, uploads, user, rows[..i], u, info[u]);
          if !UploadValid(Contents(), user, u, info[u]) {
            ok := false;
            return;
          }
          InsertedOneMore(before.attachments, draft, stamp, rows[..i], u, info);
          ConsumedOneMore(before.uploads, rows[..i], u);
          attachments := attachments[AttachmentId(stamp, u) := Attachment(draft, info[u])];
          uploads := uploads[u := uploads[u].(status := Consumed)];
        }
        i := i + 1;
      }
      assert rows[..i] == rows;
    }

    method RewriteDraft(
      user: Id, draft: Id, version: Version, content: Content, rows: seq<Recipient>, removed: set<AttachmentId>,
      stamp: nat)
      returns (changed: bool)
      requires Unused(Contents(), stamp)
      modifies this
      ensures Contents() == Rewritten(old(Contents()), user, draft, version, content, rows, removed, stamp)
      ensures changed == RowMatches(old(Contents()), user, draft, version)
    {
      hide Without, Unused;
      changed := RowMatches(Contents(), user, draft, version);
      NoRowCarries(Contents(), draft, stamp);
      if changed {
        messages := messages[draft := messages[draft].(content := content, version := Stamp(stamp))];
      }
      ReplaceRecipients(draft, stamp, rows);
      DeleteAttachments(draft, stamp, removed);
    }

    method Update(
      user: Id, draft: Id, version: Version, content: Content, rows: seq<Recipient>, removed: set<AttachmentId>,
      taken: seq<Id>, info: map<Id, FileInfo>, stamp: nat)
      returns (applied: bool, changed: bool)
      requires Unused(Contents(), stamp)
      requires forall u :: u in taken ==> u in info
      requires forall i, j :: 0 <= i < j < |taken| ==> taken[i] != taken[j]
      modifies this
      ensures var b := UpdateBatch(
                old(Contents()), user, draft, version, content, rows, removed, TakenOf(taken, info), stamp);
              Contents() == Left(old(Contents()), b) && applied == b.Applied? && (applied ==> changed == b.first)
    {
      hide Rewritten, Inserted, Consume, UpdateBatch, TakenOf, UploadValid, AllValid, Unused, RowMatches, Carries;
      var before := Contents();
      changed := RewriteDraft(user, draft, version, content, rows, removed, stamp);
      ghost var middle := Contents();
      applied := InsertAttachments(draft, user, stamp, taken, info);
      UpdateAddsUp(
        before, middle, Contents(), user, draft, version, content, rows, removed, taken, info, stamp, applied);
      if !applied {
        Rollback(before);
      }
    }

    // ---------------------------------------------------------------- send

    /** The sender's link, and one INSERT OR IGNORE per internal mailbox. */
    method MoveLinks(draft: Id, status: Status, stamp: nat, mailbox: Id, internal: seq<Id>)
      modifies this`links
      ensures links == if Carries(messages, draft, status, stamp)
                       then Deliver(old(links), draft, mailbox, SetOf(internal))
                       else old(links)
    {
      ghost var before := links;
      if Carries(messages, draft, status, stamp) {
        links :=
          set l | l in links :: if l == Link(mailbox, draft, Drafts) then Link(mailbox, draft, SentFolder) else l;
      }
      assert Deliver(before, draft, mailbox, SetOf(internal[..0]))
          == set l | l in before :: if l == Link(mailbox, draft, Drafts) then Link(mailbox, draft, SentFolder) else l;
      var i := 0;
      while i < |internal|
        invariant 0 <= i <= |internal|
        invariant links == if Carries(messages, draft, status, stamp)
                           then Deliver(before, draft, mailbox, SetOf(internal[..i])) else before
      {
        if Carries(messages, draft, status, stamp) {
          links := links + {Link(internal[i], draft, Inbox)};
        }
        assert internal[..i + 1] == internal[..i] + [internal[i]];
        DeliveredOneMore(before, draft, mailbox, internal[..i], internal[i]);
        i := i + 1;
      }
      assert internal[..i] == internal;
    }

    /** INSERT INTO idempotency_records ... WHERE EXISTS ...; its unique index fails the batch. */
    method InsertRecord(draft: Id, status: Status, stamp: nat, key: RecordKey, record: Record) returns (ok: bool)
      modifies this`records
      ensures ok <==> !(Carries(messages, draft, status, stamp) && key in old(records))
      ensures records == if ok && Carries(messages, draft, status, stamp) then old(records)[key := record]
                         else old(records)
    {
      ok := true;
      if Carries(messages, draft, status, stamp) {
        if key in records { return false; }
        records := records[key := record];
      }
    }

    method Send(
      user: Id, draft: Id, version: Version, mailbox: Id, external: bool, connection: Option<Id>, internal: seq<Id>,
      key: RecordKey, record: Record, stamp: nat)
      returns (applied: bool, changed: bool)
      requires Unused(Contents(), stamp)
      modifies this
      ensures var b := SendBatch(
                old(Contents()), user, draft, version, mailbox, external, connection, SetOf(internal), key, record,
                stamp);
              Contents() == Left(old(Contents()), b) && applied == b.Applied? && (applied ==> changed == b.first)
    {
      hide Deliver, SetOf, Unused;
      ghost var spec := SendBatch(
        Contents(), user, draft, version, mailbox, external, connection, SetOf(internal), key, record, stamp);
      var before := Contents();
      var status := if external then Queued else Sent;
      NoRowCarries(before, draft, stamp);
      changed := RowMatches(before, user, draft, version);
      if changed {
        messages := messages[draft := messages[draft].(
          status := status, version := Stamp(stamp), provider := if external then connection else None,
          sentAt := if status == Sent then Some(now) else None)];
      }
      assert Carries(messages, draft, status, stamp) == changed;
      hide Carries, RowMatches;
      MoveLinks(draft, status, stamp, mailbox, internal);
      applied := true;
      if external && Carries(messages, draft, status, stamp) {
        if draft in jobs {
          applied := false;
        } else {
          jobs := jobs[draft := Job(stamp, Pending, now, None, false)];
        }
      }
      if applied {
        applied := InsertRecord(draft, status, stamp, key, record);
      }
      if !applied {
        Rollback(before);
      }
    }

    // ---------------------------------------------------------------- schedule and cancel

    /** INSERT INTO outbound_jobs ... ON CONFLICT(message_id) DO UPDATE ... WHERE status = 'pending' */
    method UpsertJob(draft: Id, instant: int, stamp: nat) returns (written: bool)
      modifies this`jobs
      ensures written == (draft !in old(jobs) || old(jobs)[draft].status == Pending)
      ensures jobs == if written then old(jobs)[draft := Rescheduled(old(jobs), draft, instant, stamp)] else old(jobs)
    {
      if draft !in jobs {
        jobs := jobs[draft := Job(stamp, Pending, instant, None, true)];
        return true;
      }
      written := jobs[draft].status == Pending;
      if written {
        jobs := jobs[draft := jobs[draft].(availableAt := instant, scheduled := true)];
      }
    }

    /** DELETE FROM outbound_jobs WHERE message_id = ? AND status IN ('pending', 'enqueued') */
    method DeleteJob(draft: Id) returns (deleted: bool)
      modifies this`jobs
      ensures deleted == JobIs(old(Contents()), draft, {Pending, Enqueued})
      ensures jobs == if deleted then old(jobs) - {draft} else old(jobs)
    {
      deleted := draft in jobs && (jobs[draft].status == Pending || jobs[draft].status == Enqueued);
      if deleted {
        jobs := jobs - {draft};
      }
    }

    /** UPDATE messages SET ..., updated_at = ? WHERE ...; `blocked` is the extra NOT EXISTS of cancel. */
    method BumpRow(
      user: Id, draft: Id, version: Version, blocked: bool, provider: Option<Option<Id>>, stamp: nat)
      returns (changed: bool)
      requires Unused(Contents(), stamp)
      modifies this`messages
      ensures changed == (RowMatches(old(Contents()), user, draft, version) && !blocked)
      ensures changed ==>
                messages == old(messages)[draft := old(messages)[draft].(
                  version := Stamp(stamp),
                  provider := if provider.Some? then provider.value else old(messages)[draft].provider)]
      ensures !changed ==> messages == old(messages)
      ensures Carries(messages, draft, Draft, stamp) == changed
    {
      NoRowCarries(Contents(), draft, stamp);
      changed := RowMatches(Contents(), user, draft, version) && !blocked;
      if changed {
        var row := messages[draft];
        messages := messages[draft := row.(
          version := Stamp(stamp), provider := if provider.Some? then provider.value else row.provider)];
      }
    }

    method Schedule(
      user: Id, draft: Id, version: Version, connection: Option<Id>, instant: int, key: RecordKey, record: Record,
      stamp: nat)
      returns (applied: bool, changed: bool, written: bool)
      requires Unused(Contents(), stamp)
      modifies this
      ensures var b := ScheduleBatch(old(Contents()), user, draft, version, connection, instant, key, record, stamp);
              Contents() == Left(old(Contents()), b) && applied == b.Applied?
              && (applied ==> changed == b.first && written == b.second)
    {
      hide Unused, Rescheduled, RowMatches, Carries;
      ghost var spec := ScheduleBatch(Contents(), user, draft, version, connection, instant, key, record, stamp);
      var before := Contents();
      changed := BumpRow(user, draft, version, false, Some(connection), stamp);
      written := false;
      applied := draft in messages;
      assert applied == (draft in before.messages) by { MatchedRowExists(before, user, draft, version); }
      if applied {
        written := UpsertJob(draft, instant, stamp);
        applied := InsertRecord(draft, Draft, stamp, key, record);
      }
      if !applied {
        Rollback(before);
      }
    }

    method Cancel(user: Id, draft: Id, version: Version, key: RecordKey, record: Record, stamp: nat)
      returns (applied: bool, deleted: bool, changed: bool)
      requires Unused(Contents(), stamp)
      modifies this
      ensures var b := CancelBatch(old(Contents()), user, draft, version, key, record, stamp);
              Contents() == Left(old(Contents()), b) && applied == b.Applied?
              && (applied ==> deleted == b.first && changed == b.second)
    {
      var before := Contents();
      deleted := DeleteJob(draft);
      assert Unused(Contents(), stamp);
      assert RowMatches(Contents(), user, draft, version) == RowMatches(before, user, draft, version);
      hide Unused, JobIs, RowMatches, Carries;
      changed := BumpRow(user, draft, version, draft in jobs, None, stamp);
      applied := InsertRecord(draft, Draft, stamp, key, record);
      if !applied {
        Rollback(before);
      }
    }
  }

  lemma MatchedRowExists(db: Db, user: Id, draft: Id, version: Version)
    ensures RowMatches(db, user, draft, version) ==> draft in db.messages
  {
  }

  lemma DeliveredOneMore(links: set<Link>, draft: Id, mailbox: Id, internal: seq<Id>, m: Id)
    ensures Deliver(links, draft, mailbox, SetOf(internal + [m]))
            == Deliver(links, draft, mailbox, SetOf(internal)) + {Link(m, draft, Inbox)}
  {
  }

  /** The tables after every statement of an update but the attachment INSERTs. */
  function Rewritten(
    db: Db, user: Id, draft: Id, version: Version, content: Content, rows: seq<Recipient>, removed: set<AttachmentId>,
    stamp: nat): Db
  {
    if !RowMatches(db, user, draft, version) then db
    else db.(messages := db.messages[draft := db.messages[draft].(content := content, version := Stamp(stamp))],
             recipients := db.recipients[draft := rows],
             attachments := Without(db.attachments, draft, removed))
  }

  predicate AllValid(db: Db, user: Id, taken: seq<Id>, info: map<Id, FileInfo>)
    requires forall u :: u in taken ==> u in info
  {
    forall u :: u in taken ==> UploadValid(db, user, u, info[u])
  }

  lemma AllValidIsNoneInvalid(before: Db, middle: Db, user: Id, taken: seq<Id>, info: map<Id, FileInfo>)
    requires before.uploads == middle.uploads && forall u :: u in taken ==> u in info
    ensures var all := TakenOf(taken, info);
            AllValid(middle, user, taken, info) <==> !exists u :: u in all && !UploadValid(before, user, u, all[u])
  {
    var all := TakenOf(taken, info);
    if exists u :: u in all && !UploadValid(before, user, u, all[u]) {
      var u :| u in all && !UploadValid(before, user, u, all[u]);
      assert u in taken && !UploadValid(middle, user, u, info[u]);
    } else {
      forall u | u in taken ensures UploadValid(middle, user, u, info[u]) {
        assert u in all;
      }
    }
  }

  function Without(table: map<AttachmentId, Attachment>, draft: Id, removed: set<AttachmentId>)
    : map<AttachmentId, Attachment>
  {
    map a | a in table && !(table[a].message == draft && a in removed) :: table[a]
  }

  lemma WithoutNothing(table: map<AttachmentId, Attachment>, draft: Id, removed: set<AttachmentId>)
    ensures removed == {} ==> Without(table, draft, removed) == table
  {
  }

  /** UpdateBatch in the terms of its statements: up to the row's attachments, and with them. */
  lemma UpdateAddsUp(
    before: Db, middle: Db, after: Db, user: Id, draft: Id, version: Version, content: Content, rows: seq<Recipient>,
    removed: set<AttachmentId>, taken: seq<Id>, info: map<Id, FileInfo>, stamp: nat, ok: bool)
    requires Unused(before, stamp) && forall u :: u in taken ==> u in info
    requires middle == Rewritten(before, user, draft, version, content, rows, removed, stamp)
    requires !Carries(middle.messages, draft, Draft, stamp) ==> ok && after == middle
    requires Carries(middle.messages, draft, Draft, stamp) ==>
               (ok <==> AllValid(middle, user, taken, info))
               && (ok ==> after == middle.(attachments := Inserted(middle.attachments, draft, stamp, taken, info),
                                           uploads := Consume(middle.uploads, SetOf(taken))))
    ensures var b := UpdateBatch(before, user, draft, version, content, rows, removed, TakenOf(taken, info), stamp);
            b == if ok then Applied(after, RowMatches(before, user, draft, version), false) else Aborted
  {
    hide UploadValid, Attached, Inserted, Without, Consume, TakenOf, AllValid;
    AttachedIsInserted(before, draft, removed, taken, info, stamp);
    AllValidIsNoneInvalid(before, middle, user, taken, info);
  }

  lemma AttachedIsInserted(
    db: Db, draft: Id, removed: set<AttachmentId>, taken: seq<Id>, info: map<Id, FileInfo>, stamp: nat)
    requires forall u :: u in taken ==> u in info
    ensures Attached(db, draft, removed, TakenOf(taken, info), stamp)
            == Inserted(Without(db.attachments, draft, removed), draft, stamp, taken, info)
    ensures TakenOf(taken, info).Keys == SetOf(taken)
  {
  }

  lemma NothingInserted(db: Db, draft: Id, stamp: nat, rows: seq<Id>, info: map<Id, FileInfo>)
    requires forall u :: u in rows ==> u in info
    ensures Inserted(db.attachments, draft, stamp, rows[..0], info) == db.attachments
    ensures Consume(db.uploads, SetOf(rows[..0])) == db.uploads
  {
  }

  /** Consuming other uploads leaves this one as valid as it was. */
  lemma StillValid(before: Db, uploads: map<Id, Upload>, user: Id, rows: seq<Id>, u: Id, info: FileInfo)
    requires uploads == Consume(before.uploads, SetOf(rows)) && u !in rows
    ensures UploadValid(before.(uploads := uploads), user, u, info) <==> UploadValid(before, user, u, info)
    ensures u in uploads <==> u in before.uploads
    ensures u in uploads ==> uploads[u] == before.uploads[u]
  {
  }
}
