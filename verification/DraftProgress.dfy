/**
 What the rest of the worker gets done: a due job is delivered, a failed or abandoned delivery comes back, a draft is
 made and removed with everything that belongs to it.  Said of the tables before and after, row by row.
 */
module DraftProgress {
  import opened DraftTables
  import opened DraftCalls
  import opened DraftProtocol
  import opened Options

  // ------------------------------------------------------------------ delivery

  /** The job of `d` may be started: it is waiting, its time has come, and nobody holds it, or not any more. */
  predicate IsWaiting(db: Db, d: Id, job: nat) {
    d in db.jobs && db.jobs[d].id == job && db.jobs[d].status in {Pending, Enqueued} && db.jobs[d].availableAt <= db.now
    && (db.jobs[d].lock.Some? ==> db.jobs[d].lock.value.expires < db.now)
  }

  /** A consumer gets the job if and only if it may be started, and nobody else's row changes. */
  lemma ClaimsIff(dir: Directory, s: State, d: Id, job: nat, lock: Lock)
    ensures var (x, y) := (s.db, Apply(dir, s, Env(Claimed(d, job, lock))).db);
            y == x.(jobs := y.jobs)
            && if IsWaiting(x, d, job) then
                 y.jobs == x.jobs[d := x.jobs[d].(status := Processing, lock := Some(lock))]
               else y.jobs == x.jobs
  {
    hide CreateDraft, NewMessage, RemoveDraft, PurgeMessage, WriteStatus, CompleteJob, FailJob, EmptyTrash;
    hide RecoverLocks;
  }

  /** Of the jobs being processed, exactly those whose lock has expired wait again; no other job changes. */
  lemma RecoversIff(dir: Directory, s: State)
    ensures var (x, y) := (s.db, Apply(dir, s, Env(LocksRecovered)).db);
            y == x.(jobs := y.jobs) && y.jobs.Keys == x.jobs.Keys
            && forall d :: d in x.jobs ==>
                 y.jobs[d] == if x.jobs[d].status == Processing && x.jobs[d].lock.Some?
                                 && x.jobs[d].lock.value.expires < x.now
                              then x.jobs[d].(status := Pending, lock := None) else x.jobs[d]
  {
    hide CreateDraft, NewMessage, RemoveDraft, PurgeMessage, WriteStatus, CompleteJob, FailJob, EmptyTrash, ClaimJob;
  }

  /** Every mailbox that had the message in drafts has it in sent, and every one of `internal` has it in its inbox. */
  ghost predicate FiledAsDelivered(before: Db, after: Db, d: Id, internal: set<Id>) {
    forall l: Link :: l in after.links <==>
      (l in before.links && !(l.message == d && l.folder == Drafts))
      || (l.message == d && l.folder == SentFolder && Link(l.mailbox, d, Drafts) in before.links)
      || (l.message == d && l.folder == Inbox && l.mailbox in internal)
  }

  lemma CompletionFiles(before: Db, d: Id, job: nat, token: nat, internal: set<Id>)
    requires d in before.messages
    ensures FiledAsDelivered(before, CompleteJob(before, d, job, token, internal), d, internal)
  {
    var after := CompleteJob(before, d, job, token, internal);
    hide Holds;
    forall l: Link | l.message == d && l.folder == SentFolder && Link(l.mailbox, d, Drafts) in before.links
      ensures l in after.links
    {
      assert l == Link(l.mailbox, d, Drafts).(folder := SentFolder);
    }
    forall l: Link | l.message == d && l.folder == Inbox && l.mailbox in internal ensures l in after.links {
      assert l == Link(l.mailbox, d, Inbox);
    }
    forall l: Link | l in before.links && !(l.message == d && l.folder == Drafts) ensures l in after.links {
    }
  }

  /** What one delivery of the message leaves: the job is done, and a draft is sent. */
  ghost predicate DeliveryLeaves(before: Db, after: Db, d: Id, internal: set<Id>)
    requires d in before.messages && d in before.jobs
  {
    after.jobs == before.jobs[d := before.jobs[d].(status := JobStatus.Succeeded, lock := None)]
    && after.messages == (if before.messages[d].status == Draft
                          then before.messages[d := before.messages[d].(
                                 status := Sent, sentAt := Some(before.now), version := Clock(before.now))]
                          else before.messages)
    && FiledAsDelivered(before, after, d, internal)
    && after == before.(jobs := after.jobs, messages := after.messages, links := after.links)
  }

  function Delivery(d: Id, job: nat, lock: Lock, internal: set<Id>): seq<Action> {
    [Selects(d), Env(Marked(d, job)), Env(Claimed(d, job, lock)), Env(Completed(d, job, lock.token, internal))]
  }

  lemma RunOfFour(dir: Directory, s: State, a: Action, b: Action, c: Action, d: Action)
    ensures Run(dir, s, [a, b, c, d]) == Apply(dir, Apply(dir, Apply(dir, Apply(dir, s, a), b), c), d)
  {
    hide Apply;
    assert [a, b, c, d][..3] == [a, b, c] && [a, b, c][..2] == [a, b] && [a, b][..1] == [a] && [a][..0] == [];
    assert Run(dir, s, [a]) == Apply(dir, s, a);
    assert Run(dir, s, [a, b]) == Apply(dir, Run(dir, s, [a]), b);
    assert Run(dir, s, [a, b, c]) == Apply(dir, Run(dir, s, [a, b]), c);
  }

  lemma MarksSelected(dir: Directory, s: State, d: Id)
    requires d in s.db.jobs && s.db.jobs[d].status == Pending && s.db.jobs[d].availableAt <= s.db.now
    ensures var end := Apply(dir, Apply(dir, s, Selects(d)), Env(Marked(d, s.db.jobs[d].id)));
            end.db == s.db.(jobs := s.db.jobs[d := s.db.jobs[d].(status := Enqueued)])
  {
    hide CreateDraft, NewMessage, RemoveDraft, PurgeMessage, WriteStatus, CompleteJob, FailJob, EmptyTrash, ClaimJob;
    hide RecoverLocks, Begin, ReadDraft, Load, Committed;
  }

  /**
   Main result: in every state, a job that is pending, due and unlocked gets through: the dispatcher selects and marks
   it, a consumer claims it and reports success, and the job is done, a draft sent and filed, and nothing else changed.
   */
  lemma DueJobIsDelivered(dir: Directory, s: State, d: Id, lock: Lock, internal: set<Id>)
    requires d in s.db.messages && d in s.db.jobs && s.db.jobs[d].status == Pending
    requires s.db.jobs[d].availableAt <= s.db.now && s.db.jobs[d].lock == None
    ensures DeliveryLeaves(s.db, Run(dir, s, Delivery(d, s.db.jobs[d].id, lock, internal)).db, d, internal)
  {
    var job := s.db.jobs[d].id;
    var marked := Apply(dir, Apply(dir, s, Selects(d)), Env(Marked(d, job)));
    var claimed := Apply(dir, marked, Env(Claimed(d, job, lock)));
    var done := Apply(dir, claimed, Env(Completed(d, job, lock.token, internal)));
    RunOfFour(dir, s, Selects(d), Env(Marked(d, job)), Env(Claimed(d, job, lock)),
      Env(Completed(d, job, lock.token, internal)));
    MarksSelected(dir, s, d);
    ClaimsIff(dir, marked, d, job, lock);
    EnvStep(dir, claimed, Completed(d, job, lock.token, internal));
    CompletionFiles(claimed.db, d, job, lock.token, internal);
    hide Apply, Run, FiledAsDelivered;
    CompletionLeaves(claimed.db, d, job, lock.token, internal);
    hide Happens;
    assert claimed.db.links == s.db.links && FiledAsDelivered(claimed.db, done.db, d, internal);
    SameFiling(claimed.db, s.db, done.db, d, internal);
  }

  lemma SameFiling(one: Db, other: Db, after: Db, d: Id, internal: set<Id>)
    requires one.links == other.links && FiledAsDelivered(one, after, d, internal)
    ensures FiledAsDelivered(other, after, d, internal)
  {
  }

  lemma CompletionLeaves(db: Db, d: Id, job: nat, token: nat, internal: set<Id>)
    requires d in db.messages && d in db.jobs && db.jobs[d].id == job
    requires db.jobs[d].lock.Some? && db.jobs[d].lock.value.token == token
    ensures var after := CompleteJob(db, d, job, token, internal);
            after.jobs == db.jobs[d := db.jobs[d].(status := JobStatus.Succeeded, lock := None)]
            && after.messages == (if db.messages[d].status == Draft
                                  then db.messages[d := db.messages[d].(
                                         status := Sent, sentAt := Some(db.now), version := Clock(db.now))]
                                  else db.messages)
            && after == db.(jobs := after.jobs, messages := after.messages, links := after.links)
    ensures Happens(db, Completed(d, job, token, internal)) == CompleteJob(db, d, job, token, internal)
  {
    hide CreateDraft, NewMessage, RemoveDraft, PurgeMessage, WriteStatus, FailJob, EmptyTrash, ClaimJob, RecoverLocks;
  }

  // ------------------------------------------------------------------ deliveries that do not get through

  lemma RunOfTwo(dir: Directory, s: State, a: Action, b: Action)
    ensures Run(dir, s, [a, b]) == Apply(dir, Apply(dir, s, a), b)
  {
    hide Apply;
    assert [a, b][..1] == [a] && [a][..0] == [];
    assert Run(dir, s, [a]) == Apply(dir, s, a);
  }

  lemma Ticks(dir: Directory, s: State, now: int)
    ensures Apply(dir, s, Env(Ticked(now))).db == s.db.(now := if s.db.now <= now then now else s.db.now)
  {
    hide CreateDraft, NewMessage, RemoveDraft, PurgeMessage, WriteStatus, CompleteJob, FailJob, EmptyTrash, ClaimJob;
    hide RecoverLocks, MarkEnqueued;
  }

  lemma GivesBack(dir: Directory, s: State, d: Id, retryAt: int)
    requires d in s.db.jobs && s.db.jobs[d].lock.Some?
    ensures var j := s.db.jobs[d];
            Apply(dir, s, Env(GaveUp(d, j.id, j.lock.value.token, true, retryAt))).db
            == s.db.(jobs := s.db.jobs[d := j.(status := Pending, availableAt := retryAt, lock := None)])
  {
    hide CreateDraft, NewMessage, RemoveDraft, PurgeMessage, WriteStatus, CompleteJob, EmptyTrash, ClaimJob;
    hide RecoverLocks, MarkEnqueued;
  }

  /**
   Main result: a job whose holder gives it back for a retry at some time waits again once that time has come; and a job
   whose holder is never heard of again waits again once its lock has expired and been recovered, as due as it was.
   Nothing else changes either way.
   */
  lemma NoJobIsStranded(dir: Directory, s: State, d: Id, retryAt: int, later: int)
    requires d in s.db.jobs && s.db.jobs[d].status == Processing && s.db.jobs[d].lock.Some?
    requires s.db.now <= later && retryAt <= later && s.db.jobs[d].lock.value.expires < later
    ensures var j := s.db.jobs[d];
            var back := Run(dir, s, [Env(GaveUp(d, j.id, j.lock.value.token, true, retryAt)), Env(Ticked(later))]).db;
            IsWaiting(back, d, j.id)
            && back == s.db.(now := later,
                             jobs := s.db.jobs[d := j.(status := Pending, availableAt := retryAt, lock := None)])
    ensures var j := s.db.jobs[d];
            var found := Run(dir, s, [Env(Ticked(later)), Env(LocksRecovered)]).db;
            d in found.jobs && found.jobs[d] == j.(status := Pending, lock := None)
            && (j.availableAt <= later ==> IsWaiting(found, d, j.id))
            && found == s.db.(now := later, jobs := found.jobs)
  {
    var j := s.db.jobs[d];
    var gone := Env(GaveUp(d, j.id, j.lock.value.token, true, retryAt));
    RunOfTwo(dir, s, gone, Env(Ticked(later)));
    RunOfTwo(dir, s, Env(Ticked(later)), Env(LocksRecovered));
    GivesBack(dir, s, d, retryAt);
    Ticks(dir, Apply(dir, s, gone), later);
    Ticks(dir, s, later);
    RecoversIff(dir, Apply(dir, s, Env(Ticked(later))));
    hide Apply, Run;
  }

  // ------------------------------------------------------------------ making and removing a draft

  /** Every upload is the user's, complete, in time and of this content. */
  predicate MayTake(db: Db, user: Id, taken: map<Id, FileInfo>) {
    forall u :: u in taken ==>
      u in db.uploads && db.uploads[u].owner == user && db.uploads[u].status == Uploaded && !db.uploads[u].expired
      && db.uploads[u].info == taken[u]
  }

  /** The attachments are those of before and one of `d` for each upload taken in, and those uploads are used up. */
  ghost predicate Takes(before: Db, after: Db, d: Id, taken: map<Id, FileInfo>) {
    (forall a: AttachmentId ::
       a in after.attachments <==> a in before.attachments || (a.stamp == d && a.upload in taken))
    && (forall a :: a in after.attachments ==>
          after.attachments[a] == if a in before.attachments then before.attachments[a]
                                  else Attachment(d, taken[a.upload]))
    && after.uploads.Keys == before.uploads.Keys
    && forall u :: u in before.uploads ==>
         after.uploads[u] == if u in taken then before.uploads[u].(status := Consumed) else before.uploads[u]
  }

  lemma AttachedTakes(before: Db, after: Db, d: Id, taken: map<Id, FileInfo>)
    requires Unused(before, d)
    requires after.attachments == Attached(before, d, {}, taken, d)
    requires after.uploads == Consume(before.uploads, taken.Keys)
    ensures Takes(before, after, d, taken)
  {
    forall a: AttachmentId
      ensures a in after.attachments <==> a in before.attachments || (a.stamp == d && a.upload in taken)
    {
      assert a.stamp == d ==> a == AttachmentId(d, a.upload);
    }
  }

  /** A new draft has exactly the content, recipients and uploads given, in drafts; or nothing is changed. */
  lemma CreateLeaves(dir: Directory, s: State, user: Id, d: Id, mailbox: Id, content: Content, to: seq<Recipient>,
      taken: map<Id, FileInfo>)
    requires Inv(dir, s) && d == s.supply
    ensures var (x, y) := (s.db, Apply(dir, s, Env(Created(user, d, mailbox, content, to, taken))).db);
            d !in x.messages
            && if MayTake(x, user, taken) then
                 y.messages == x.messages[d := Message(content, Draft, Clock(x.now), user, mailbox, None, None)]
                 && y.recipients == x.recipients[d := to] && Takes(x, y, d, taken)
                 && y.links == x.links + {Link(mailbox, d, Drafts)}
                 && y == x.(messages := y.messages, recipients := y.recipients, attachments := y.attachments,
                            uploads := y.uploads, links := y.links)
               else y == x
  {
    var e := Created(user, d, mailbox, content, to, taken);
    EnvStep(dir, s, e);
    var after := Apply(dir, s, Env(e)).db;
    assert Unused(s.db, d);
    if MayTake(s.db, user, taken) {
      hide Apply, Inv;
      Creates(s.db, user, d, mailbox, content, to, taken);
      hide Happens, Unused, Attached, Consume;
      AttachedTakes(s.db, after, d, taken);
    } else {
      hide Apply, Inv, Attached, Consume;
    }
  }

  lemma Creates(db: Db, user: Id, d: Id, mailbox: Id, content: Content, to: seq<Recipient>, taken: map<Id, FileInfo>)
    requires MayTake(db, user, taken)
    ensures Happens(db, Created(user, d, mailbox, content, to, taken))
            == db.(messages := db.messages[d := Message(content, Draft, Clock(db.now), user, mailbox, None, None)],
                   recipients := db.recipients[d := to], attachments := Attached(db, d, {}, taken, d),
                   uploads := Consume(db.uploads, taken.Keys), links := db.links + {Link(mailbox, d, Drafts)})
  {
    hide Attached, Consume;
  }

  /** Removing a draft takes away the draft and all that belongs to it, if it is this user's draft, and nothing else. */
  lemma RemoveLeaves(dir: Directory, s: State, user: Id, d: Id)
    ensures var (x, y) := (s.db, Apply(dir, s, Env(Removed(user, d))).db);
            if d in x.messages && x.messages[d].owner == user && x.messages[d].status == Draft then
              y.messages == x.messages - {d} && y.recipients == x.recipients - {d} && y.jobs == x.jobs - {d}
              && (forall l :: l in y.links <==> l in x.links && l.message != d)
              && (forall a :: a in y.attachments <==> a in x.attachments && x.attachments[a].message != d)
              && (forall a :: a in y.attachments ==> y.attachments[a] == x.attachments[a])
              && y == x.(messages := y.messages, recipients := y.recipients, jobs := y.jobs, links := y.links,
                         attachments := y.attachments)
            else y == x
  {
    EnvStep(dir, s, Removed(user, d));
    hide Apply;
  }

  /** Nothing in the tables belongs to a message of this id. */
  predicate NothingOf(db: Db, d: Id) {
    d !in db.recipients && d !in db.jobs && (forall l :: l in db.links ==> l.message != d)
    && forall a :: a in db.attachments ==> db.attachments[a].message != d
  }

  /**
   Main result: a draft that is made and then removed, leaves the tables as they were,
   but for the uploads it took in, which stay used up.
   */
  lemma RemoveUndoesCreate(dir: Directory, s: State, user: Id, d: Id, mailbox: Id, content: Content, to: seq<Recipient>,
      taken: map<Id, FileInfo>)
    requires Inv(dir, s) && d == s.supply && NothingOf(s.db, d)
    ensures var end := Run(dir, s, [Env(Created(user, d, mailbox, content, to, taken)), Env(Removed(user, d))]).db;
            end == s.db.(uploads := end.uploads) && end.uploads.Keys == s.db.uploads.Keys
            && forall u :: u in end.uploads ==>
                 end.uploads[u] == if MayTake(s.db, user, taken) && u in taken then s.db.uploads[u].(status := Consumed)
                                   else s.db.uploads[u]
  {
    var made := Apply(dir, s, Env(Created(user, d, mailbox, content, to, taken)));
    var end := Apply(dir, made, Env(Removed(user, d)));
    RunOfTwo(dir, s, Env(Created(user, d, mailbox, content, to, taken)), Env(Removed(user, d)));
    CreateLeaves(dir, s, user, d, mailbox, content, to, taken);
    RemoveLeaves(dir, made, user, d);
    hide Apply, Run, Inv;
    if MayTake(s.db, user, taken) {
      hide MayTake;
      assert end.db.links == s.db.links;
      assert end.db.recipients == s.db.recipients && end.db.messages == s.db.messages && end.db.jobs == s.db.jobs;
      assert forall a :: a in made.db.attachments && a !in s.db.attachments ==> made.db.attachments[a].message == d;
      assert end.db.attachments == s.db.attachments;
    }
  }

  // ------------------------------------------------------------------ messages that are no drafts

  /** No draft; with a job, queued and without one so far; and its uploads may be taken in. */
  predicate MayArrive(db: Db, d: Id, row: Message, taken: map<Id, FileInfo>, external: bool) {
    row.status != Draft && (external ==> row.status == Queued && d !in db.jobs) && MayTake(db, row.owner, taken)
  }

  /** Every mailbox of `folders` shows the message in its folder. */
  ghost predicate Shows(before: Db, after: Db, d: Id, folders: map<Id, Folder>) {
    forall l: Link :: l in after.links <==>
      l in before.links || (l.message == d && l.mailbox in folders && folders[l.mailbox] == l.folder)
  }

  lemma AddedLinksShow(before: Db, after: Db, d: Id, folders: map<Id, Folder>)
    requires after.links == before.links + (set m | m in folders :: Link(m, d, folders[m]))
    ensures Shows(before, after, d, folders)
  {
    forall l: Link | l.message == d && l.mailbox in folders && folders[l.mailbox] == l.folder
      ensures l in after.links
    {
      assert l == Link(l.mailbox, d, folders[l.mailbox]);
    }
  }

  /**
   A message that arrives or is sent without a draft is there as it came, with its recipients, its uploads taken in and
   its links, and queued with one job or without any; or nothing is changed.
   */
  lemma ArrivalLeaves(dir: Directory, s: State, d: Id, row: Message, to: seq<Recipient>, taken: map<Id, FileInfo>,
      folders: map<Id, Folder>, external: bool)
    requires Inv(dir, s) && d == s.supply
    ensures var (x, y) := (s.db, Apply(dir, s, Env(Arrived(d, row, to, taken, folders, external))).db);
            if MayArrive(x, d, row, taken, external) then
              y.messages == x.messages[d := row.(version := Clock(x.now))] && y.recipients == x.recipients[d := to]
              && Takes(x, y, d, taken) && Shows(x, y, d, folders)
              && y.jobs == (if external then x.jobs[d := Job(d, Pending, x.now, None, false)] else x.jobs)
              && y == x.(messages := y.messages, recipients := y.recipients, attachments := y.attachments,
                         uploads := y.uploads, links := y.links, jobs := y.jobs)
            else y == x
  {
    var e := Arrived(d, row, to, taken, folders, external);
    EnvStep(dir, s, e);
    var after := Apply(dir, s, Env(e)).db;
    assert Unused(s.db, d);
    Arrives(s.db, d, row, to, taken, folders, external);
    hide Apply, Inv, Happens, Attached, Consume, MayArrive, Unused, Takes, Shows;
    if MayArrive(s.db, d, row, taken, external) {
      AttachedTakes(s.db, after, d, taken);
      AddedLinksShow(s.db, after, d, folders);
    }
  }

  lemma Arrives(db: Db, d: Id, row: Message, to: seq<Recipient>, taken: map<Id, FileInfo>, folders: map<Id, Folder>,
      external: bool)
    ensures Happens(db, Arrived(d, row, to, taken, folders, external))
            == if MayArrive(db, d, row, taken, external)
               then db.(messages := db.messages[d := row.(version := Clock(db.now))],
                        recipients := db.recipients[d := to],
                        attachments := Attached(db, d, {}, taken, d), uploads := Consume(db.uploads, taken.Keys),
                        links := db.links + (set m | m in folders :: Link(m, d, folders[m])),
                        jobs := if external then db.jobs[d := Job(d, Pending, db.now, None, false)] else db.jobs)
               else db
  {
    hide Attached, Consume;
  }

  /** A report is written on a message exactly if it is no draft. */
  lemma ReportsIff(dir: Directory, s: State, d: Id, status: string)
    ensures var (x, y) := (s.db, Apply(dir, s, Env(Reports(d, status))).db);
            y == if d in x.messages && x.messages[d].status != Draft
                 then x.(messages := x.messages[
                           d := x.messages[d].(status := Reported(status), version := Clock(x.now))])
                 else x
  {
    EnvStep(dir, s, Reports(d, status));
    hide Apply;
  }

  lemma Empties(dir: Directory, s: State, link: Link)
    requires link.folder == Trash
    ensures Apply(dir, s, Env(Emptied(link))).db == s.db.(links := s.db.links - {link})
  {
    EnvStep(dir, s, Emptied(link));
    hide Apply;
  }

  lemma Purges(dir: Directory, s: State, d: Id)
    ensures var (x, y) := (s.db, Apply(dir, s, Env(Purged(d))).db);
            if forall l :: l in x.links ==> l.message != d then
              y.messages == x.messages - {d} && y.recipients == x.recipients - {d} && y.jobs == x.jobs - {d}
              && (forall a :: a in y.attachments <==> a in x.attachments && x.attachments[a].message != d)
              && (forall a :: a in y.attachments ==> y.attachments[a] == x.attachments[a])
              && y == x.(messages := y.messages, recipients := y.recipients, jobs := y.jobs,
                         attachments := y.attachments)
            else y == x
  {
    EnvStep(dir, s, Purged(d));
    hide Apply;
  }

  /**
   Main result: emptying the trash takes a link away, and the purge after it the message with all that belongs to it, if
   and only if no mailbox shows the message any more.
   */
  lemma TrashIsPurged(dir: Directory, s: State, link: Link)
    requires link.folder == Trash && link.message in s.db.messages
    ensures var (x, y) := (s.db, Run(dir, s, [Env(Emptied(link)), Env(Purged(link.message))]).db);
            y.links == x.links - {link}
            && if forall l :: l in x.links && l.message == link.message ==> l == link then
                 y.messages == x.messages - {link.message} && y.recipients == x.recipients - {link.message}
                 && y.jobs == x.jobs - {link.message}
                 && (forall a :: a in y.attachments <==>
                       a in x.attachments && x.attachments[a].message != link.message)
               else y == x.(links := y.links)
  {
    RunOfTwo(dir, s, Env(Emptied(link)), Env(Purged(link.message)));
    Empties(dir, s, link);
    Purges(dir, Apply(dir, s, Env(Emptied(link))), link.message);
    hide Apply, Run;
  }
}
