/**
 The grace period of the orphan sweep is enough: in orderly runs, content whose row is inserted within 24 hours of its
 put finds its object there, and nobody about to delete it.
 */
module CatalogOrder {
  import opened Blocks
  import opened Catalog
  import opened CatalogSafety
  import opened CatalogSteps
  import opened CatalogTheorems
  import Md5Spec
  import opened Options

  predicate Aged(s: State, task: Task)
    requires task.Stored?
  {
    task.since + GRACE <= s.now
  }

  /** A body that was put is there for a day, and its object carries the time of the put. */
  predicate Kept(s: State, task: Task) {
    task.Stored? ==>
      task.since <= s.now
      && (task.key in s.store ==> s.store[task.key].uploadedAt == task.since)
      && (!Aged(s, task) ==> task.key in s.store)
  }

  /** Only a delete that came a day later threatens it. */
  predicate Apart(s: State, one: Task, other: Task) {
    one.Stored? && Threatens(other, one.key) ==> other.Dropping? && Aged(s, one)
  }

  predicate Timely(s: State) {
    (forall t :: t in s.tasks ==> Kept(s, s.tasks[t]))
    && forall t, t' :: t in s.tasks && t' in s.tasks ==> Apart(s, s.tasks[t], s.tasks[t'])
  }

  /**
   No PUT under a key somebody is about to delete, and no cancel deletes an object put less than a day ago that is
   being registered.
   */
  predicate Orderly(s: State, a: Action) {
    match a
    case Put(_, _, key, _, _) => PutActs(s, a) ==> forall t :: t in s.tasks ==> !Threatens(s.tasks[t], key)
    case RetireRow(t, delete) =>
      Retires(s, t, delete) && s.tasks[t].seen == None ==>
        forall t' :: t' in s.tasks && s.tasks[t'].Stored? && s.tasks[t'].key == s.tasks[t].key ==> Aged(s, s.tasks[t'])
    case _ => true
  }

  // ------------------------------------------------------------------ steps

  /** A task moves, and holds no key that content put less than a day ago is being registered under. */
  lemma MoveKeeps(s: State, after: State, t: nat, task: Task)
    requires Timely(s) && after.store == s.store && after.now == s.now && after.tasks == s.tasks[t := task]
             && !task.Stored?
    requires forall t' :: t' in s.tasks && t' != t ==> Apart(s, s.tasks[t'], task)
    ensures Timely(after)
  {
  }

  lemma HarmlessKeeps(s: State, after: State, t: nat, task: Task)
    requires Timely(s) && after.store == s.store && after.now == s.now && after.tasks == s.tasks[t := task]
    requires task.Registered? || task.Retiring? || task.Collecting? || task.Completing? || task.Ended?
    ensures Timely(after)
  {
    hide Timely, Kept;
    MoveKeeps(s, after, t, task);
  }

  lemma SameKeeps(s: State, after: State)
    requires Timely(s) && after.store == s.store && s.now <= after.now && after.tasks == s.tasks
    ensures Timely(after)
  {
  }

  lemma SearchKeepsTimely(s: State, t: nat, candidate: Option<Id>)
    requires t in s.tasks && s.tasks[t].Stored? && Inv(s) && Timely(s)
    ensures Timely(SearchStep(s, t, candidate))
  {
    hide Md5Spec.Digest, Identical;
    Parts(s);
    hide Inv, FilesOk, KeysDistinct, AttachmentsOk, UploadsOk, TasksOk;
    var p := s.tasks[t];
    var after := SearchStep(s, t, candidate);
    if after != s {
      var task := after.tasks[t];
      if task.Stored? {
        TurnKeeps(s, after, t, task);
      } else {
        forall t' | t' in s.tasks && t' != t ensures Apart(s, s.tasks[t'], task) {
          assert s.tasks[t'].Stored? ==> s.tasks[t'].key != p.key;
        }
        hide Timely, Kept, StoredApart;
        MoveKeeps(s, after, t, task);
      }
    }
  }

  lemma TurnKeeps(s: State, after: State, t: nat, task: Task)
    requires Timely(s) && after.store == s.store && after.now == s.now && after.tasks == s.tasks[t := task]
    requires t in s.tasks && s.tasks[t].Stored? && task.Stored? && task == s.tasks[t].(turn := task.turn)
    ensures Timely(after)
  {
  }

  lemma InsertKeepsTimely(s: State, t: nat)
    requires t in s.tasks && s.tasks[t].Stored? && Timely(s)
    ensures Timely(InsertStep(s, t))
  {
    hide Md5Spec.Digest, KeyTaken, DedupeTaken, Timely;
    var after := InsertStep(s, t);
    if after != s {
      if after.tasks[t].Stored? {
        TurnKeeps(s, after, t, after.tasks[t]);
      } else {
        HarmlessKeeps(s, after, t, after.tasks[t]);
      }
    }
  }

  /** Whoever deletes an object leaves no body waiting for it, or one that has waited a day. */
  lemma DeleteKeepsTimely(s: State, t: nat, task: Task)
    requires t in s.tasks && (s.tasks[t].Losing? || s.tasks[t].Dropping?) && Timely(s)
    requires task.Registered? || task.Ended?
    ensures Timely(Become(s.(store := s.store - {s.tasks[t].key}), t, task))
  {
    forall t' | t' in s.tasks && s.tasks[t'].Stored? && s.tasks[t'].key == s.tasks[t].key ensures Aged(s, s.tasks[t']) {
      assert Apart(s, s.tasks[t'], s.tasks[t]);
    }
  }

  lemma PutKeepsTimely(s: State, a: Action)
    requires a.Put? && Timely(s) && Calm(s, a)
    ensures Timely(PutStep(s, a)) <==> Orderly(s, a)
  {
    hide Md5Spec.Digest, KeyTaken;
    if PutActs(s, a) {
      var after := PutStep(s, a);
      assert !Aged(after, after.tasks[a.task]);
      if Orderly(s, a) {
        forall t | t in s.tasks && s.tasks[t].Stored? ensures s.tasks[t].key != a.key {
          assert !Storing(s, a.key);
        }
      } else {
        var t :| t in s.tasks && Threatens(s.tasks[t], a.key);
        assert !Apart(after, after.tasks[a.task], after.tasks[t]);
      }
    }
  }

  lemma RetireRowKeepsTimely(s: State, t: nat, delete: bool)
    requires t in s.tasks && s.tasks[t].Retiring? && Timely(s)
    ensures Timely(RetireRowStep(s, t, delete)) <==> Orderly(s, RetireRow(t, delete))
  {
    var after := RetireRowStep(s, t, delete);
    var task := after.tasks[t];
    if Orderly(s, RetireRow(t, delete)) {
      MoveKeeps(s, after, t, task);
    } else {
      var t' :| t' in s.tasks && s.tasks[t'].Stored? && s.tasks[t'].key == s.tasks[t].key && !Aged(s, s.tasks[t']);
      assert t' != t && !Apart(after, after.tasks[t'], task);
    }
  }

  /** A task that has to do with a file row has to do with no body that is being registered. */
  lemma OwnedIsNotStored(s: State, task: Task, key: Key)
    requires TaskOk(s, task) && KeyTaken(s.files, key)
    ensures !(task.Stored? && task.key == key)
  {
  }

  lemma BackfillReadKeepsTimely(s: State, t: nat, f: Id, candidate: Option<Id>)
    requires Inv(s) && Timely(s)
    ensures Timely(BackfillReadStep(s, t, f, candidate))
  {
    hide Md5Spec.Digest, Identical, Timely, TablesOk, StoredApart, TaskOk;
    var after := BackfillReadStep(s, t, f, candidate);
    if after != s {
      forall t' | t' in s.tasks ensures Apart(s, s.tasks[t'], after.tasks[t]) {
        OwnedIsNotStored(s, s.tasks[t'], s.files[f].key);
      }
      MoveKeeps(s, after, t, after.tasks[t]);
    }
  }

  /**
   Nothing can be about to insert a row for an object that has lain here a day without one, but what came a day ago.
   */
  lemma SweepSparesNewContent(s: State, t: nat, key: Key)
    requires Timely(s)
    ensures Timely(SweepCheckStep(s, t, key))
  {
    hide Referenced;
    var after := SweepCheckStep(s, t, key);
    if after != s {
      forall t' | t' in s.tasks ensures Apart(s, s.tasks[t'], Dropping(key)) {
        assert Kept(s, s.tasks[t']);
      }
      hide Timely;
      MoveKeeps(s, after, t, Dropping(key));
    }
  }

  lemma CollectRowKeepsTimely(s: State, t: nat)
    requires t in s.tasks && s.tasks[t].Collecting? && Inv(s) && Timely(s)
    ensures Timely(CollectRowStep(s, t))
  {
    hide Timely, TablesOk, StoredApart, Attached, Awaited, Unlinked;
    var after := CollectRowStep(s, t);
    assert TaskOk(s, s.tasks[t]);
    if after.tasks[t].Dropping? {
      forall t' | t' in s.tasks ensures Apart(s, s.tasks[t'], after.tasks[t]) {
        OwnedIsNotStored(s, s.tasks[t'], s.tasks[t].key);
      }
    }
    hide TaskOk, Inv;
    MoveKeeps(s, after, t, after.tasks[t]);
  }

  lemma BackfillRowKeepsTimely(s: State, t: nat)
    requires t in s.tasks && s.tasks[t].Backfilling? && Timely(s)
    ensures Timely(BackfillRowStep(s, t))
  {
    hide Attached, Uploading, DedupeTaken;
    var after := BackfillRowStep(s, t);
    forall t' | t' in s.tasks ensures Apart(s, s.tasks[t'], after.tasks[t]) {
      assert Apart(s, s.tasks[t'], s.tasks[t]);
    }
    hide Timely;
    MoveKeeps(s, after, t, after.tasks[t]);
  }

  lemma ShortStepKeepsTimely(s: State, a: Action)
    requires Timely(s)
    requires a.Create? || a.CompleteRead? || a.Detach? || a.RetireRead? || a.CollectRead? || a.Tick?
    ensures Timely(Apply(s, a))
  {
    hide Timely, HeadMatches, PutStep, SearchStep, InsertStep, LinkStep, ReceiveStep, AttachStep, RetireRowStep;
    hide CollectRowStep, BackfillReadStep, BackfillRowStep, SweepCheckStep, CompleteRowStep;
    var after := Apply(s, a);
    if after.tasks == s.tasks {
      SameKeeps(s, after);
    } else {
      HarmlessKeeps(s, after, a.task, after.tasks[a.task]);
    }
  }

  lemma RowStepKeepsTimely(s: State, t: nat, attachment: Id, upload: Id)
    requires Timely(s)
    ensures t in s.tasks && s.tasks[t].Registered? && s.tasks[t].purpose.ForUpload? ==> Timely(LinkStep(s, t))
    ensures t in s.tasks && s.tasks[t].Registered? && s.tasks[t].purpose.ForMessage? ==>
            Timely(ReceiveStep(s, t, attachment))
    ensures t in s.tasks && s.tasks[t].Completing? ==> Timely(CompleteRowStep(s, t))
    ensures Timely(AttachStep(s, attachment, upload))
  {
    hide Timely;
    SameKeeps(s, AttachStep(s, attachment, upload));
    if t in s.tasks && s.tasks[t].Registered? && s.tasks[t].purpose.ForUpload? {
      HarmlessKeeps(s, LinkStep(s, t), t, Ended);
    } else if t in s.tasks && s.tasks[t].Registered? {
      if attachment !in s.attachments {
        HarmlessKeeps(s, ReceiveStep(s, t, attachment), t, Ended);
      }
    } else if t in s.tasks && s.tasks[t].Completing? {
      HarmlessKeeps(s, CompleteRowStep(s, t), t, Ended);
    }
  }

  /** Every calm step keeps new content safe if and only if it is orderly. */
  lemma OrderlyIsExact(s: State, a: Action)
    requires Inv(s) && Timely(s) && Calm(s, a)
    ensures Timely(Apply(s, a)) <==> Orderly(s, a)
  {
    hide Inv, Timely, Calm, HeadMatches, PutStep, SearchStep, InsertStep, LinkStep, ReceiveStep, AttachStep,
         RetireRowStep;
    hide CollectRowStep, BackfillReadStep, BackfillRowStep, SweepCheckStep, CompleteRowStep;
    match a
    case Put(_, _, _, _, _) => PutKeepsTimely(s, a);
    case Search(t, candidate) => if t in s.tasks && s.tasks[t].Stored? { SearchKeepsTimely(s, t, candidate); }
    case Insert(t) => if t in s.tasks && s.tasks[t].Stored? { InsertKeepsTimely(s, t); }
    case DropLoser(t) =>
      if t in s.tasks && s.tasks[t].Losing? {
        var p := s.tasks[t];
        DeleteKeepsTimely(s, t, Registered(p.purpose, p.found, p.foundKey, p.bytes));
      }
    case Link(t) => RowStepKeepsTimely(s, t, 0, 0);
    case Receive(t, attachment) => RowStepKeepsTimely(s, t, attachment, 0);
    case CompleteRow(t) => RowStepKeepsTimely(s, t, 0, 0);
    case Attach(attachment, upload) => RowStepKeepsTimely(s, 0, attachment, upload);
    case RetireRow(t, delete) => if t in s.tasks && s.tasks[t].Retiring? { RetireRowKeepsTimely(s, t, delete); }
    case CollectRow(t) => if t in s.tasks && s.tasks[t].Collecting? { CollectRowKeepsTimely(s, t); }
    case BackfillRead(t, file, candidate) => BackfillReadKeepsTimely(s, t, file, candidate);
    case BackfillRow(t) => if t in s.tasks && s.tasks[t].Backfilling? { BackfillRowKeepsTimely(s, t); }
    case SweepCheck(t, key) => SweepSparesNewContent(s, t, key);
    case Drop(t) => if t in s.tasks && s.tasks[t].Dropping? { DeleteKeepsTimely(s, t, Ended); }
    case _ => ShortStepKeepsTimely(s, a);
  }

  // ------------------------------------------------------------------ what it is for

  /** Main result: within 24 hours of its put, content finds its object there, and nobody about to delete it. */
  lemma InTimeIsCalm(s: State, t: nat)
    requires Timely(s) && t in s.tasks && s.tasks[t].Stored? && !Aged(s, s.tasks[t])
    ensures Calm(s, Insert(t))
  {
    assert Kept(s, s.tasks[t]);
    forall t' | t' in s.tasks ensures !Threatens(s.tasks[t'], s.tasks[t].key) {
      assert Apart(s, s.tasks[t], s.tasks[t']);
    }
    hide Inserts;
  }

  /** What a run has to do to be calm: its inserts need only be in time. */
  predicate Prompt(s: State, a: Action) {
    Orderly(s, a) && if a.Insert? then Inserts(s, a.task) ==> !Aged(s, s.tasks[a.task]) else Calm(s, a)
  }

  predicate PromptRun(s: State, actions: seq<Action>)
    decreases |actions|
  {
    actions == [] || (Prompt(s, actions[0]) && PromptRun(Apply(s, actions[0]), actions[1..]))
  }

  lemma PromptIsCalm(s: State, a: Action)
    requires Timely(s) && Prompt(s, a)
    ensures Calm(s, a)
  {
    hide Timely, Orderly;
    if a.Insert? && Inserts(s, a.task) {
      InTimeIsCalm(s, a.task);
    }
  }

  /** Main result: a run whose inserts are in time and whose other steps are calm and orderly is calm throughout. */
  lemma {:induction false} PromptRunIsCalm(s: State, actions: seq<Action>)
    requires Inv(s) && Timely(s) && PromptRun(s, actions)
    ensures CalmRun(s, actions) && Inv(Run(s, actions)) && Timely(Run(s, actions))
    decreases |actions|
  {
    if actions != [] {
      assert Prompt(s, actions[0]);
      assert Orderly(s, actions[0]);
      hide Inv, Timely, Calm, Apply, Prompt, Orderly;
      PromptIsCalm(s, actions[0]);
      StepKeeps(s, actions[0]);
      OrderlyIsExact(s, actions[0]);
      PromptRunIsCalm(Apply(s, actions[0]), actions[1..]);
    }
  }

  lemma InitialIsTimely(s: State)
    requires Initial(s)
    ensures Inv(s) && Timely(s)
  {
  }

  /**
   In such a run, if a body is still being registered under a key that is about to be deleted, its 24 hours are over.
   */
  lemma DropsSpareNewContent(s: State, actions: seq<Action>, t: nat, other: nat)
    requires Initial(s) && PromptRun(s, actions)
    requires var end := Run(s, actions);
             t in end.tasks && end.tasks[t].Dropping? && other in end.tasks && end.tasks[other].Stored?
             && end.tasks[other].key == end.tasks[t].key
    ensures var end := Run(s, actions); Aged(end, end.tasks[other])
  {
    InitialIsTimely(s);
    hide Inv, Calm, Apply, Prompt, Orderly, Initial, Run, PromptRun, CalmRun;
    PromptRunIsCalm(s, actions);
    var end := Run(s, actions);
    assert Apart(end, end.tasks[other], end.tasks[t]);
  }
}
