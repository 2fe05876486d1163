/**
 Runs that lose content, and rows without an object: one for each assumption of CatalogSafety.  In each, every step but
 one is calm.
 */
module CatalogWitnesses {
  import opened Blocks
  import opened Catalog
  import opened CatalogSafety
  import opened CatalogTheorems
  import Md5Spec
  import opened Options

  /** Some run from the one state to the other is calm. */
  ghost predicate Reaches(s: State, end: State) {
    exists actions :: CalmRun(s, actions) && Run(s, actions) == end
  }

  lemma {:induction false} RunLast(s: State, actions: seq<Action>, a: Action)
    ensures Run(s, actions + [a]) == Apply(Run(s, actions), a)
    ensures CalmRun(s, actions + [a]) == (CalmRun(s, actions) && Calm(Run(s, actions), a))
    decreases |actions|
  {
    hide Apply, Calm;
    var all := actions + [a];
    if actions == [] {
      assert all[1..] == [];
    } else {
      assert all[1..] == actions[1..] + [a];
      RunLast(Apply(s, actions[0]), actions[1..], a);
    }
  }

  lemma Here(s: State)
    ensures Reaches(s, s)
  {
    assert CalmRun(s, []) && Run(s, []) == s;
  }

  lemma Next(s: State, t: State, a: Action, u: State)
    requires Reaches(s, t) && Calm(t, a) && Apply(t, a) == u
    ensures Reaches(s, u)
  {
    hide Apply, Calm;
    var actions :| CalmRun(s, actions) && Run(s, actions) == t;
    RunLast(s, actions, a);
  }

  const BODY: Bytes := [7]
  const OTHER: Bytes := [8]
  const OBJECT := Object(BODY, 0)
  const ROW := File(1, Base(Md5Spec.Digest(BODY), 1), Some(Md5Spec.Digest(BODY)), 1)
  const FIRST := Upload(1, 1, Pending, None)
  const SECOND := Upload(2, 1, Pending, None)

  const START := State(map[], map[], map[1 := FIRST, 2 := SECOND], map[], map[], 0, 0)

  lemma StartIsInitial()
    ensures Initial(START)
  {
  }

  // ------------------------------------------------------------------ two uploads of the same content

  const SEEN := Retiring(1, 1, None)
  const STORING := Stored(ForUpload(1), 1, BODY, 1, 0, FirstSearch)
  const LINKING := Registered(ForUpload(1), 0, 1, BODY)
  /** The first upload's content is in the store, and a cancel has read its row. */
  const PUT := State(map[1 := OBJECT], map[], map[1 := FIRST, 2 := SECOND], map[], map[0 := STORING, 1 := SEEN], 0, 0)
  const REGISTERED := State(
    map[1 := OBJECT], map[0 := ROW], map[1 := FIRST, 2 := SECOND], map[], map[0 := LINKING, 1 := SEEN], 1, 0)
  /** The second upload's content was found to be the same, and dropped. */
  const SHARED := State(
    map[1 := OBJECT], map[0 := ROW], map[1 := FIRST, 2 := Upload(2, 1, Pending, Some(0))], map[],
    map[0 := LINKING, 1 := SEEN, 2 := Ended], 1, 0)
  const DONE := Upload(2, 1, Consumed, Some(0))
  const COPY := Attachment(1, 0, BODY)
  const ATTACHED := State(
    map[1 := OBJECT], map[0 := ROW], map[1 := FIRST, 2 := DONE], map[10 := COPY],
    map[0 := LINKING, 1 := SEEN, 2 := Ended, 3 := Ended], 1, 0)

  lemma FirstPuts()
    ensures Reaches(START, PUT)
  {
    hide Md5Spec.Digest, Reaches;
    Here(START);
    assert Calm(START, Put(0, ForUpload(1), 1, BODY, 1));
    var s1 := START.(store := map[1 := OBJECT], tasks := map[0 := STORING]);
    assert Apply(START, Put(0, ForUpload(1), 1, BODY, 1)) == s1;
    assert Apply(s1, RetireRead(1, 1)) == PUT by { assert s1.tasks[1 := SEEN] == PUT.tasks; }
    hide Apply, PutActs, Retires, KeyTaken, Storing;
    Next(START, START, Put(0, ForUpload(1), 1, BODY, 1), s1);
    Next(START, s1, RetireRead(1, 1), PUT);
  }

  lemma FirstRegisters()
    ensures Reaches(START, REGISTERED)
  {
    hide Md5Spec.Digest, Reaches;
    FirstPuts();
    var s1 := PUT.(tasks := map[0 := STORING.(turn := FirstInsert), 1 := SEEN]);
    assert Apply(PUT, Search(0, None)) == s1 by { assert PUT.tasks[0 := s1.tasks[0]] == s1.tasks; }
    assert Apply(s1, Insert(0)) == REGISTERED by { assert s1.tasks[0 := LINKING] == REGISTERED.tasks; }
    assert Calm(s1, Insert(0));
    hide Apply, Inserts;
    Next(START, PUT, Search(0, None), s1);
    Next(START, s1, Insert(0), REGISTERED);
  }

  const SENDING := Stored(ForUpload(2), 2, BODY, 1, 0, FirstSearch)
  const SENT := State(
    map[1 := OBJECT, 2 := OBJECT], map[0 := ROW], map[1 := FIRST, 2 := SECOND], map[],
        map[0 := LINKING, 1 := SEEN, 2 := SENDING], 1, 0)
  const MATCHED := State(
    map[1 := OBJECT, 2 := OBJECT], map[0 := ROW], map[1 := FIRST, 2 := SECOND], map[],
    map[0 := LINKING, 1 := SEEN, 2 := Losing(ForUpload(2), 2, 0, 1, BODY)], 1, 0)
  const DROPPED := State(
    map[1 := OBJECT], map[0 := ROW], map[1 := FIRST, 2 := SECOND], map[],
    map[0 := LINKING, 1 := SEEN, 2 := Registered(ForUpload(2), 0, 1, BODY)], 1, 0)

  lemma SecondIsSent()
    ensures Apply(REGISTERED, Put(2, ForUpload(2), 2, BODY, 1)) == SENT
            && Calm(REGISTERED, Put(2, ForUpload(2), 2, BODY, 1))
  {
    hide Md5Spec.Digest;
    assert REGISTERED.store[2 := OBJECT] == SENT.store && REGISTERED.tasks[2 := SENDING] == SENT.tasks;
  }

  lemma SecondIsMatched()
    ensures Apply(SENT, Search(2, Some(0))) == MATCHED
  {
    hide Md5Spec.Digest;
    assert Identical(SENT, 2, Md5Spec.Digest(BODY), 1, 0);
    assert SENT.tasks[2 := MATCHED.tasks[2]] == MATCHED.tasks;
  }

  lemma SecondIsDropped()
    ensures Apply(MATCHED, DropLoser(2)) == DROPPED
  {
    hide Md5Spec.Digest;
    assert MATCHED.store - {2} == DROPPED.store && MATCHED.tasks[2 := DROPPED.tasks[2]] == DROPPED.tasks;
  }

  lemma SecondIsLinked()
    ensures Apply(DROPPED, Link(2)) == SHARED
  {
    hide Md5Spec.Digest;
    assert DROPPED.uploads[2 := SHARED.uploads[2]] == SHARED.uploads && DROPPED.tasks[2 := Ended] == SHARED.tasks;
  }

  lemma SecondIsShared()
    ensures Reaches(START, SHARED)
  {
    hide Md5Spec.Digest, Reaches, Apply, PutActs, Inserts, Retires, KeyTaken, Storing;
    FirstRegisters();
    SecondIsSent();
    SecondIsMatched();
    SecondIsDropped();
    SecondIsLinked();
    Next(START, REGISTERED, Put(2, ForUpload(2), 2, BODY, 1), SENT);
    Next(START, SENT, Search(2, Some(0)), MATCHED);
    Next(START, MATCHED, DropLoser(2), DROPPED);
    Next(START, DROPPED, Link(2), SHARED);
  }

  const CHECKED := State(
    map[1 := OBJECT], map[0 := ROW], map[1 := FIRST, 2 := Upload(2, 1, Pending, Some(0))], map[],
    map[0 := LINKING, 1 := SEEN, 2 := Ended, 3 := Completing(2)], 1, 0)
  const COMPLETED := State(
    map[1 := OBJECT], map[0 := ROW], map[1 := FIRST, 2 := Upload(2, 1, Uploaded, Some(0))], map[],
    map[0 := LINKING, 1 := SEEN, 2 := Ended, 3 := Ended], 1, 0)

  lemma SecondIsChecked()
    ensures Apply(SHARED, CompleteRead(3, 2)) == CHECKED
  {
    hide Md5Spec.Digest;
    assert SHARED.tasks[3 := Completing(2)] == CHECKED.tasks;
  }

  lemma SecondCompletes()
    ensures Apply(CHECKED, CompleteRow(3)) == COMPLETED
  {
    hide Md5Spec.Digest;
    assert CHECKED.uploads[2 := COMPLETED.uploads[2]] == COMPLETED.uploads
           && CHECKED.tasks[3 := Ended] == COMPLETED.tasks;
  }

  lemma CompletedAttaches()
    ensures Apply(COMPLETED, Attach(10, 2)) == ATTACHED
  {
    hide Md5Spec.Digest;
    assert COMPLETED.uploads[2 := DONE] == ATTACHED.uploads && map[][10 := COPY] == ATTACHED.attachments;
  }

  lemma SecondIsAttached()
    ensures Reaches(START, ATTACHED)
  {
    hide Md5Spec.Digest, Reaches, Apply, PutActs, Inserts, Retires, KeyTaken, Storing;
    SecondIsShared();
    SecondIsChecked();
    SecondCompletes();
    CompletedAttaches();
    Next(START, SHARED, CompleteRead(3, 2), CHECKED);
    Next(START, CHECKED, CompleteRow(3), COMPLETED);
    Next(START, COMPLETED, Attach(10, 2), ATTACHED);
  }

  /** A calm run, a step that is not calm, and a calm run to a state in which the attachment's bytes are not its own. */
  ghost predicate Loses(s: State, middle: State, a: Action, end: State) {
    Initial(s) && Reaches(s, middle) && !Calm(middle, a) && Reaches(Apply(middle, a), end)
    && 10 in end.attachments && Download(end, 10) != Some(end.attachments[10].original)
  }

  /** The same, to a state in which a file row with an MD5 has no object. */
  ghost predicate Strands(s: State, middle: State, a: Action, end: State, f: Id) {
    Initial(s) && Reaches(s, middle) && !Calm(middle, a) && Reaches(Apply(middle, a), end)
    && f in end.files && end.files[f].md5.Some? && end.files[f].key !in end.store
  }

  // ------------------------------------------------------------------ cancels

  const CANCELLED := State(
    map[1 := OBJECT], map[0 := ROW], map[2 := DONE], map[10 := COPY],
        map[0 := LINKING, 1 := Dropping(1), 2 := Ended, 3 := Ended], 1, 0)
  const LOST := State(
    map[], map[0 := ROW], map[2 := DONE], map[10 := COPY], map[0 := LINKING, 1 := Ended, 2 := Ended, 3 := Ended], 1, 0)

  lemma CancelRetires()
    ensures Apply(ATTACHED, RetireRow(1, true)) == CANCELLED
  {
    hide Md5Spec.Digest;
    assert ATTACHED.tasks[1] == SEEN && ATTACHED.uploads[1] == FIRST;
    assert ATTACHED.uploads - {1} == CANCELLED.uploads && ATTACHED.tasks[1 := Dropping(1)] == CANCELLED.tasks;
  }

  lemma CancelIsNotCalm()
    ensures !Calm(ATTACHED, RetireRow(1, true))
  {
    hide Md5Spec.Digest;
    assert ATTACHED.files[0].key == 1 && KeyTaken(ATTACHED.files, 1);
    hide KeyTaken;
  }

  lemma CancelDrops()
    ensures Apply(CANCELLED, Drop(1)) == LOST
  {
    hide Md5Spec.Digest;
    assert CANCELLED.store - {1} == map[] && CANCELLED.tasks[1 := Ended] == LOST.tasks;
  }

  /**
   An upload is cancelled while its own content is being stored.  The cancel read the row before it had a file, and
   deletes the object; but by then the content has been registered and another upload has been given it.
   */
  lemma CancelDuringUploadLosesAnother()
    ensures Loses(START, ATTACHED, RetireRow(1, true), LOST)
  {
    hide Md5Spec.Digest, Initial, Reaches, Apply, KeyTaken, PutActs, Inserts, Retires, Storing;
    StartIsInitial();
    SecondIsAttached();
    CancelRetires();
    CancelIsNotCalm();
    CancelDrops();
    Here(CANCELLED);
    Next(CANCELLED, CANCELLED, Drop(1), LOST);
  }

  const LINKED := State(
    map[1 := OBJECT], map[0 := ROW], map[1 := Upload(1, 1, Pending, Some(0)), 2 := DONE], map[10 := COPY],
    map[0 := Ended, 1 := SEEN, 2 := Ended, 3 := Ended], 1, 0)
  const OUTDATED := State(
    map[1 := OBJECT], map[0 := ROW], map[2 := DONE], map[10 := COPY],
        map[0 := Ended, 1 := Dropping(1), 2 := Ended, 3 := Ended], 1, 0)
  const LOST_TOO := State(
    map[], map[0 := ROW], map[2 := DONE], map[10 := COPY], map[0 := Ended, 1 := Ended, 2 := Ended, 3 := Ended], 1, 0)

  lemma FirstIsLinked()
    ensures Apply(ATTACHED, Link(0)) == LINKED
  {
    hide Md5Spec.Digest;
    assert ATTACHED.uploads[1 := LINKED.uploads[1]] == LINKED.uploads && ATTACHED.tasks[0 := Ended] == LINKED.tasks;
  }

  lemma OutdatedRetires()
    ensures Apply(LINKED, RetireRow(1, true)) == OUTDATED
  {
    hide Md5Spec.Digest;
    assert LINKED.tasks[1] == SEEN && LINKED.uploads[1].status == Pending;
    assert LINKED.uploads - {1} == OUTDATED.uploads && LINKED.tasks[1 := Dropping(1)] == OUTDATED.tasks;
  }

  lemma OutdatedIsNotCalm()
    ensures !Calm(LINKED, RetireRow(1, true))
  {
    hide Md5Spec.Digest;
    assert LINKED.files[0].key == 1 && KeyTaken(LINKED.files, 1);
    hide KeyTaken;
  }

  lemma OutdatedDrops()
    ensures Apply(OUTDATED, Drop(1)) == LOST_TOO
  {
    hide Md5Spec.Digest;
    assert OUTDATED.store - {1} == map[] && OUTDATED.tasks[1 := Ended] == LOST_TOO.tasks;
  }

  /** The upload is linked to its file between the cancel's read and its delete: the cancel still deletes the object. */
  lemma OutdatedCancelLosesAnother()
    ensures Loses(START, LINKED, RetireRow(1, true), LOST_TOO) && forall t :: t in LINKED.tasks ==>
            !LINKED.tasks[t].Stored? && !LINKED.tasks[t].Registered?
  {
    hide Md5Spec.Digest, Initial, Reaches, Apply, KeyTaken, PutActs, Inserts, Retires, Storing;
    StartIsInitial();
    SecondIsAttached();
    FirstIsLinked();
    OutdatedRetires();
    OutdatedIsNotCalm();
    OutdatedDrops();
    Next(START, ATTACHED, Link(0), LINKED);
    Here(OUTDATED);
    Next(OUTDATED, OUTDATED, Drop(1), LOST_TOO);
  }

  // ------------------------------------------------------------------ overlapping puts

  const AGAIN := Stored(ForUpload(1), 1, OTHER, 1, 0, FirstSearch)
  const OVERWRITTEN := State(
    map[1 := Object(OTHER, 0)], map[0 := ROW], map[1 := FIRST, 2 := DONE], map[10 := COPY],
    map[0 := LINKING, 1 := SEEN, 2 := Ended, 3 := Ended, 4 := AGAIN], 1, 0)

  lemma SecondPutOverwrites()
    ensures Apply(ATTACHED, Put(4, ForUpload(1), 1, OTHER, 1)) == OVERWRITTEN
  {
    hide Md5Spec.Digest;
    assert ATTACHED.store[1 := Object(OTHER, 0)] == OVERWRITTEN.store
           && ATTACHED.tasks[4 := AGAIN] == OVERWRITTEN.tasks;
  }

  lemma SecondPutIsNotCalm()
    ensures !Calm(ATTACHED, Put(4, ForUpload(1), 1, OTHER, 1))
  {
    hide Md5Spec.Digest;
    assert ATTACHED.files[0].key == 1 && KeyTaken(ATTACHED.files, 1);
    hide KeyTaken;
  }

  /** A second PUT to an upload that is not linked yet replaces the bytes of an attachment made from another upload. */
  lemma SecondPutOverwritesAnother()
    ensures Loses(START, ATTACHED, Put(4, ForUpload(1), 1, OTHER, 1), OVERWRITTEN)
  {
    hide Md5Spec.Digest, Initial, Reaches, Apply, KeyTaken, PutActs, Inserts, Retires, Storing;
    StartIsInitial();
    SecondIsAttached();
    SecondPutOverwrites();
    SecondPutIsNotCalm();
    Here(OVERWRITTEN);
  }

  const LEAVING := State(
    map[1 := OBJECT], map[0 := ROW], map[1 := FIRST, 2 := Upload(2, 1, Pending, Some(0))], map[],
    map[0 := LINKING, 1 := SEEN, 2 := Ended, 3 := Retiring(2, 2, Some(0))], 1, 0)
  const WITHOUT_SECOND := State(
    map[1 := OBJECT], map[0 := ROW], map[1 := FIRST], map[], map[0 := LINKING, 1 := SEEN, 2 := Ended, 3 := Ended], 1, 0)
  const COLLECTING := State(
    map[1 := OBJECT], map[0 := ROW], map[1 := FIRST], map[],
    map[0 := LINKING, 1 := SEEN, 2 := Ended, 3 := Ended, 4 := Collecting(0, 1)], 1, 0)
  const UNOWNED := State(
    map[1 := OBJECT], map[], map[1 := FIRST], map[],
    map[0 := LINKING, 1 := SEEN, 2 := Ended, 3 := Ended, 4 := Dropping(1)], 1, 0)
  const COLLECTED := State(
    map[1 := OBJECT], map[], map[1 := FIRST], map[],
    map[0 := Ended, 1 := SEEN, 2 := Ended, 3 := Ended, 4 := Dropping(1)], 1, 0)

  lemma SecondIsRead()
    ensures Apply(SHARED, RetireRead(3, 2)) == LEAVING
  {
    hide Md5Spec.Digest;
    assert SHARED.tasks[3 := Retiring(2, 2, Some(0))] == LEAVING.tasks;
  }

  lemma SecondIsCancelled()
    ensures Apply(LEAVING, RetireRow(3, true)) == WITHOUT_SECOND
  {
    hide Md5Spec.Digest;
    assert LEAVING.uploads - {2} == WITHOUT_SECOND.uploads && LEAVING.tasks[3 := Ended] == WITHOUT_SECOND.tasks;
  }

  lemma FileIsRead()
    ensures Apply(WITHOUT_SECOND, CollectRead(4, 0)) == COLLECTING
  {
    hide Md5Spec.Digest;
    assert WITHOUT_SECOND.tasks[4 := Collecting(0, 1)] == COLLECTING.tasks;
  }

  lemma FileIsDeleted()
    ensures Apply(COLLECTING, CollectRow(4)) == UNOWNED
  {
    hide Md5Spec.Digest;
    assert COLLECTING.files - {0} == map[] && Unlinked(COLLECTING.uploads, 0) == COLLECTING.uploads;
    assert COLLECTING.tasks[4 := Dropping(1)] == UNOWNED.tasks;
  }

  lemma LinkFails()
    ensures Apply(UNOWNED, Link(0)) == COLLECTED
  {
    hide Md5Spec.Digest;
    assert UNOWNED.tasks[0 := Ended] == COLLECTED.tasks;
  }

  /** The second upload is cancelled, its file is collected, and the first upload's link fails for want of the file. */
  lemma FileIsCollected()
    ensures Reaches(START, COLLECTED)
  {
    hide Md5Spec.Digest, Reaches, Apply, PutActs, Inserts, Retires, KeyTaken, Storing;
    SecondIsShared();
    SecondIsRead();
    SecondIsCancelled();
    FileIsRead();
    FileIsDeleted();
    LinkFails();
    Next(START, SHARED, RetireRead(3, 2), LEAVING);
    Next(START, LEAVING, RetireRow(3, true), WITHOUT_SECOND);
    Next(START, WITHOUT_SECOND, CollectRead(4, 0), COLLECTING);
    Next(START, COLLECTING, CollectRow(4), UNOWNED);
    Next(START, UNOWNED, Link(0), COLLECTED);
  }

  const PUT_AGAIN := State(
    map[1 := OBJECT], map[], map[1 := FIRST], map[],
    map[0 := Ended, 1 := SEEN, 2 := Ended, 3 := Ended, 4 := Dropping(1), 5 := STORING], 1, 0)
  const SEARCHED := State(
    map[1 := OBJECT], map[], map[1 := FIRST], map[],
    map[0 := Ended, 1 := SEEN, 2 := Ended, 3 := Ended, 4 := Dropping(1), 5 := STORING.(turn := FirstInsert)], 1, 0)
  const NAMED := State(
    map[1 := OBJECT], map[1 := ROW], map[1 := FIRST], map[],
    map[0 := Ended, 1 := SEEN, 2 := Ended, 3 := Ended, 4 := Dropping(1), 5 := Registered(ForUpload(1), 1, 1, BODY)], 2,
        0)
  const GONE := State(
    map[], map[1 := ROW], map[1 := FIRST], map[],
    map[0 := Ended, 1 := SEEN, 2 := Ended, 3 := Ended, 4 := Ended, 5 := Registered(ForUpload(1), 1, 1, BODY)], 2, 0)

  lemma PutsAgain()
    ensures Apply(COLLECTED, Put(5, ForUpload(1), 1, BODY, 1)) == PUT_AGAIN
            && Calm(COLLECTED, Put(5, ForUpload(1), 1, BODY, 1))
  {
    hide Md5Spec.Digest;
    assert COLLECTED.store[1 := OBJECT] == PUT_AGAIN.store && COLLECTED.tasks[5 := STORING] == PUT_AGAIN.tasks;
  }

  lemma SearchesAgain()
    ensures Apply(PUT_AGAIN, Search(5, None)) == SEARCHED
  {
    hide Md5Spec.Digest;
    assert PUT_AGAIN.tasks[5 := SEARCHED.tasks[5]] == SEARCHED.tasks;
  }

  lemma InsertsAgain()
    ensures Apply(SEARCHED, Insert(5)) == NAMED
  {
    hide Md5Spec.Digest;
    assert SEARCHED.files[1 := ROW] == NAMED.files && SEARCHED.tasks[5 := NAMED.tasks[5]] == NAMED.tasks;
  }

  lemma InsertIsNotCalm()
    ensures !Calm(SEARCHED, Insert(5))
  {
    hide Md5Spec.Digest;
    assert Inserts(SEARCHED, 5) && Threatens(SEARCHED.tasks[4], 1);
  }

  lemma DropsAgain()
    ensures Apply(NAMED, Drop(4)) == GONE
  {
    hide Md5Spec.Digest;
    assert NAMED.store - {1} == map[] && NAMED.tasks[4 := Ended] == GONE.tasks;
  }

  /** The first upload is PUT again while its old object is about to be deleted, and registered before it is. */
  lemma PutBeforeDropIsLost()
    ensures Strands(START, SEARCHED, Insert(5), GONE, 1)
  {
    hide Md5Spec.Digest, Initial, Reaches, Apply, KeyTaken, PutActs, Inserts, Retires, Storing;
    StartIsInitial();
    FileIsCollected();
    PutsAgain();
    SearchesAgain();
    InsertsAgain();
    InsertIsNotCalm();
    DropsAgain();
    Next(START, COLLECTED, Put(5, ForUpload(1), 1, BODY, 1), PUT_AGAIN);
    Next(START, PUT_AGAIN, Search(5, None), SEARCHED);
    Here(NAMED);
    Next(NAMED, NAMED, Drop(4), GONE);
  }

  const LOSER := Losing(ForUpload(2), 2, 0, 1, BODY)
  const SECOND_ROW := File(2, Base(Md5Spec.Digest(BODY), 1), Some(Md5Spec.Digest(BODY)), 1)
  const MARKED := State(
    map[1 := OBJECT, 2 := OBJECT], map[0 := ROW], map[1 := FIRST, 2 := SECOND], map[],
    map[0 := LINKING, 1 := SEEN, 2 := LOSER, 3 := Collecting(0, 1)], 1, 0)
  const FREED := State(
    map[1 := OBJECT, 2 := OBJECT], map[], map[1 := FIRST, 2 := SECOND], map[],
    map[0 := LINKING, 1 := SEEN, 2 := LOSER, 3 := Dropping(1)], 1, 0)
  const CROWDED := State(
    map[1 := OBJECT, 2 := OBJECT], map[], map[1 := FIRST, 2 := SECOND], map[],
    map[0 := LINKING, 1 := SEEN, 2 := LOSER, 3 := Dropping(1), 5 := SENDING], 1, 0)
  const LOOKED := State(
    map[1 := OBJECT, 2 := OBJECT], map[], map[1 := FIRST, 2 := SECOND], map[],
    map[0 := LINKING, 1 := SEEN, 2 := LOSER, 3 := Dropping(1), 5 := SENDING.(turn := FirstInsert)], 1, 0)
  const OWNED := State(
    map[1 := OBJECT, 2 := OBJECT], map[1 := SECOND_ROW], map[1 := FIRST, 2 := SECOND], map[],
    map[0 := LINKING, 1 := SEEN, 2 := LOSER, 3 := Dropping(1), 5 := Registered(ForUpload(2), 1, 2, BODY)], 2, 0)
  const ROBBED := State(
    map[1 := OBJECT], map[1 := SECOND_ROW], map[1 := FIRST, 2 := SECOND], map[],
    map[0 := LINKING, 1 := SEEN, 2 := Registered(ForUpload(2), 0, 1, BODY), 3 := Dropping(1),
        5 := Registered(ForUpload(2), 1, 2, BODY)], 2, 0)

  lemma MatchIsMarked()
    ensures Apply(MATCHED, CollectRead(3, 0)) == MARKED
  {
    hide Md5Spec.Digest;
    assert MATCHED.tasks[3 := Collecting(0, 1)] == MARKED.tasks;
  }

  lemma MatchIsFreed()
    ensures Apply(MARKED, CollectRow(3)) == FREED
  {
    hide Md5Spec.Digest;
    assert MARKED.files - {0} == map[] && Unlinked(MARKED.uploads, 0) == MARKED.uploads;
    assert MARKED.tasks[3 := Dropping(1)] == FREED.tasks;
  }

  lemma SecondIsPutAgain()
    ensures Apply(FREED, Put(5, ForUpload(2), 2, BODY, 1)) == CROWDED && Calm(FREED, Put(5, ForUpload(2), 2, BODY, 1))
  {
    hide Md5Spec.Digest;
    assert FREED.store[2 := OBJECT] == CROWDED.store && FREED.tasks[5 := SENDING] == CROWDED.tasks;
  }

  lemma SecondLooksAgain()
    ensures Apply(CROWDED, Search(5, None)) == LOOKED
  {
    hide Md5Spec.Digest;
    assert CROWDED.tasks[5 := LOOKED.tasks[5]] == LOOKED.tasks;
  }

  lemma SecondInserts()
    ensures Apply(LOOKED, Insert(5)) == OWNED
  {
    hide Md5Spec.Digest;
    assert LOOKED.files[1 := SECOND_ROW] == OWNED.files && LOOKED.tasks[5 := OWNED.tasks[5]] == OWNED.tasks;
  }

  lemma SecondInsertIsNotCalm()
    ensures !Calm(LOOKED, Insert(5))
  {
    hide Md5Spec.Digest;
    assert Inserts(LOOKED, 5) && Threatens(LOOKED.tasks[2], 2);
  }

  lemma LoserDrops()
    ensures Apply(OWNED, DropLoser(2)) == ROBBED
  {
    hide Md5Spec.Digest;
    assert OWNED.store - {2} == ROBBED.store && OWNED.tasks[2 := ROBBED.tasks[2]] == ROBBED.tasks;
  }

  lemma SecondIsRegistering()
    ensures Reaches(START, LOOKED)
  {
    hide Md5Spec.Digest, Reaches, Apply, KeyTaken, PutActs, Inserts, Retires, Storing;
    FirstRegisters();
    SecondIsSent();
    SecondIsMatched();
    MatchIsMarked();
    MatchIsFreed();
    SecondIsPutAgain();
    SecondLooksAgain();
    Next(START, REGISTERED, Put(2, ForUpload(2), 2, BODY, 1), SENT);
    Next(START, SENT, Search(2, Some(0)), MATCHED);
    Next(START, MATCHED, CollectRead(3, 0), MARKED);
    Next(START, MARKED, CollectRow(3), FREED);
    Next(START, FREED, Put(5, ForUpload(2), 2, BODY, 1), CROWDED);
    Next(START, CROWDED, Search(5, None), LOOKED);
  }

  /**
   Two PUTs to one upload: the first found its content elsewhere and drops its copy, after the second was registered.
   */
  lemma LoserTakesAnother()
    ensures Strands(START, LOOKED, Insert(5), ROBBED, 1)
  {
    hide Md5Spec.Digest, Initial, Reaches, Apply, KeyTaken, PutActs, Inserts, Retires, Storing;
    StartIsInitial();
    SecondIsRegistering();
    SecondInserts();
    SecondInsertIsNotCalm();
    LoserDrops();
    Here(OWNED);
    Next(OWNED, OWNED, DropLoser(2), ROBBED);
  }

  const OVER := Stored(ForUpload(1), 1, OTHER, 1, 0, FirstSearch)
  const COVERED := State(
    map[1 := Object(OTHER, 0)], map[], map[1 := FIRST, 2 := SECOND], map[], map[0 := STORING, 1 := SEEN, 6 := OVER], 0,
        0)
  const BLIND := State(
    map[1 := Object(OTHER, 0)], map[], map[1 := FIRST, 2 := SECOND], map[],
    map[0 := STORING.(turn := FirstInsert), 1 := SEEN, 6 := OVER], 0, 0)
  const MIXED := State(
    map[1 := Object(OTHER, 0)], map[0 := ROW], map[1 := FIRST, 2 := SECOND], map[],
        map[0 := LINKING, 1 := SEEN, 6 := OVER], 1, 0)

  lemma PutCovers()
    ensures Apply(PUT, Put(6, ForUpload(1), 1, OTHER, 1)) == COVERED && !Calm(PUT, Put(6, ForUpload(1), 1, OTHER, 1))
  {
    hide Md5Spec.Digest;
    assert PUT.store[1 := Object(OTHER, 0)] == COVERED.store && PUT.tasks[6 := OVER] == COVERED.tasks;
    assert PUT.tasks[0].key == 1;
  }

  lemma FirstIsBlind()
    ensures Apply(COVERED, Search(0, None)) == BLIND
  {
    hide Md5Spec.Digest;
    assert COVERED.tasks[0 := BLIND.tasks[0]] == BLIND.tasks;
  }

  lemma FirstIsMixed()
    ensures Apply(BLIND, Insert(0)) == MIXED && Calm(BLIND, Insert(0))
  {
    hide Md5Spec.Digest;
    assert BLIND.files[0 := ROW] == MIXED.files && BLIND.tasks[0 := LINKING] == MIXED.tasks;
  }

  /** Two PUTs to one upload: the first is registered over the second's object, under its own MD5. */
  lemma OverlappingPutsMix()
    ensures Initial(START) && Reaches(START, PUT) && !Calm(PUT, Put(6, ForUpload(1), 1, OTHER, 1))
    ensures Reaches(Apply(PUT, Put(6, ForUpload(1), 1, OTHER, 1)), MIXED)
    ensures MIXED.files[0].key == 1 && MIXED.files[0].md5 == Some(Md5Spec.Digest(BODY))
            && MIXED.store[1].bytes == OTHER != BODY
  {
    hide Md5Spec.Digest, Initial, Reaches, Apply, KeyTaken, PutActs, Inserts, Retires, Storing;
    StartIsInitial();
    FirstPuts();
    PutCovers();
    FirstIsBlind();
    FirstIsMixed();
    Here(COVERED);
    Next(COVERED, COVERED, Search(0, None), BLIND);
    Next(COVERED, BLIND, Insert(0), MIXED);
  }

  /** What migration 0007 makes of an upload that was never PUT: a file row without an MD5 and without an object. */
  lemma LegacyRowsAreInitial()
    ensures Initial(State(map[], map[0 := File(1, Legacy(1), None, 1)], map[1 := Upload(1, 1, Pending, Some(0))],
            map[], map[], 1, 0))
  {
  }

  // ------------------------------------------------------------------ a late insert

  const EMPTY := State(map[], map[], map[], map[], map[], 0, 0)
  const LATE := Stored(ForMessage, 1, BODY, 1, 0, FirstInsert)
  const STORED := State(map[1 := OBJECT], map[], map[], map[], map[0 := LATE.(turn := FirstSearch)], 0, 0)
  const WAITING := State(map[1 := OBJECT], map[], map[], map[], map[0 := LATE], 0, 0)
  const AGED := State(map[1 := OBJECT], map[], map[], map[], map[0 := LATE], 0, GRACE)
  const SWEEPING := State(map[1 := OBJECT], map[], map[], map[], map[0 := LATE, 1 := Dropping(1)], 0, GRACE)
  const SWEPT := State(map[], map[], map[], map[], map[0 := LATE, 1 := Ended], 0, GRACE)
  const INSERTED := State(
    map[], map[0 := ROW], map[], map[], map[0 := Registered(ForMessage, 0, 1, BODY), 1 := Ended], 1, GRACE)
  const DANGLING := State(map[], map[0 := ROW], map[], map[10 := COPY], map[0 := Ended, 1 := Ended], 1, GRACE)

  lemma LateWaits()
    ensures Apply(EMPTY, Put(0, ForMessage, 1, BODY, 1)) == STORED && Calm(EMPTY, Put(0, ForMessage, 1, BODY, 1))
    ensures Apply(STORED, Search(0, None)) == WAITING
    ensures Apply(WAITING, Tick(GRACE)) == AGED
  {
    hide Md5Spec.Digest;
    assert STORED.tasks[0 := LATE] == WAITING.tasks;
  }

  lemma SweepComes()
    ensures Apply(AGED, SweepCheck(1, 1)) == SWEEPING
  {
    hide Md5Spec.Digest;
    assert AGED.tasks[1 := Dropping(1)] == SWEEPING.tasks;
  }

  lemma SweepDrops()
    ensures Apply(SWEEPING, Drop(1)) == SWEPT
  {
    hide Md5Spec.Digest;
    assert SWEEPING.store - {1} == map[] && SWEEPING.tasks[1 := Ended] == SWEPT.tasks;
  }

  lemma LateInserts()
    ensures Apply(SWEPT, Insert(0)) == INSERTED
  {
    hide Md5Spec.Digest;
    assert SWEPT.tasks[0 := INSERTED.tasks[0]] == INSERTED.tasks && SWEPT.files[0 := ROW] == INSERTED.files;
  }

  lemma LateInsertIsNotCalm()
    ensures !Calm(SWEPT, Insert(0))
  {
    hide Md5Spec.Digest;
    assert Inserts(SWEPT, 0);
  }

  lemma LateIsReceived()
    ensures Apply(INSERTED, Receive(0, 10)) == DANGLING
  {
    hide Md5Spec.Digest;
    assert INSERTED.tasks[0 := Ended] == DANGLING.tasks && INSERTED.attachments[10 := COPY] == DANGLING.attachments;
  }

  lemma LateIsSwept()
    ensures Reaches(EMPTY, SWEPT)
  {
    hide Md5Spec.Digest, Reaches, Apply, PutActs, Inserts, Retires, KeyTaken, Storing;
    Here(EMPTY);
    LateWaits();
    SweepComes();
    SweepDrops();
    Next(EMPTY, EMPTY, Put(0, ForMessage, 1, BODY, 1), STORED);
    Next(EMPTY, STORED, Search(0, None), WAITING);
    Next(EMPTY, WAITING, Tick(GRACE), AGED);
    Next(EMPTY, AGED, SweepCheck(1, 1), SWEEPING);
    Next(EMPTY, SWEEPING, Drop(1), SWEPT);
  }

  /** A body whose row is inserted a day after its put has been swept: what is attached cannot be downloaded. */
  lemma LateInsertIsLost()
    ensures Loses(EMPTY, SWEPT, Insert(0), DANGLING)
  {
    hide Md5Spec.Digest, Reaches, Apply, KeyTaken, PutActs, Inserts, Retires, Storing;
    LateIsSwept();
    LateInserts();
    LateInsertIsNotCalm();
    LateIsReceived();
    assert Initial(EMPTY);
    hide Initial;
    Here(INSERTED);
    Next(INSERTED, INSERTED, Receive(0, 10), DANGLING);
  }
}
