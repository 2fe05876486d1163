/**
 The assumptions of CatalogSafety are exact: from a state that meets the invariant, a step keeps it if and only if the
 step is calm; and a cancel or an expiry that is not calm is one whose delete takes a file row's object away.
 */
module CatalogExact {
  import opened Blocks
  import opened Catalog
  import opened CatalogSafety
  import opened CatalogSteps
  import Md5Spec
  import opened Options

  lemma PutBreaks(s: State, a: Action)
    requires a.Put? && Inv(s) && !Calm(s, a)
    ensures !Inv(PutStep(s, a))
  {
    hide Md5Spec.Digest, TablesOk;
    var after := PutStep(s, a);
    if KeyTaken(s.files, a.key) {
      assert !TaskOk(after, after.tasks[a.task]);
    } else {
      var t :| t in s.tasks && s.tasks[t].Stored? && s.tasks[t].key == a.key;
      assert t in after.tasks && after.tasks[t] == s.tasks[t] && t != a.task;
      assert a.task in after.tasks && after.tasks[a.task].Stored? && after.tasks[a.task].key == a.key;
      assert !StoredApart(after);
    }
  }

  lemma InsertBreaks(s: State, t: nat)
    requires Inv(s) && !Calm(s, Insert(t))
    ensures !Inv(InsertStep(s, t))
  {
    hide Md5Spec.Digest;
    var after := InsertStep(s, t);
    var row := RowToInsert(s, t);
    assert s.supply in after.files && after.files[s.supply] == row;
    if row.key !in s.store {
      assert !FilesOk(after);
    } else {
      var t' :| t' in s.tasks && Threatens(s.tasks[t'], row.key);
      assert t' != t && after.tasks[t'] == s.tasks[t'];
      assert KeyTaken(after.files, row.key);
      assert !TaskOk(after, after.tasks[t']);
    }
  }

  lemma RetireRowBreaks(s: State, t: nat, delete: bool)
    requires !Calm(s, RetireRow(t, delete))
    ensures !Inv(RetireRowStep(s, t, delete))
  {
    hide Md5Spec.Digest, TablesOk;
    var after := RetireRowStep(s, t, delete);
    assert after.tasks[t] == Dropping(s.tasks[t].key) && KeyTaken(after.files, s.tasks[t].key);
    assert !TaskOk(after, after.tasks[t]);
  }

  /** Main result: from the invariant, a step keeps it if and only if it is calm. */
  lemma CalmIsExact(s: State, a: Action)
    requires Inv(s)
    ensures Inv(Apply(s, a)) <==> Calm(s, a)
  {
    if Calm(s, a) {
      StepKeeps(s, a);
    } else {
      assert (a.Put? && PutActs(s, a)) || (a.Insert? && Inserts(s, a.task))
             || (a.RetireRow? && Retires(s, a.task, a.delete));
      hide Inv, Calm, Md5Spec.Digest, PutStep, InsertStep, RetireRowStep;
      if a.Put? {
        PutBreaks(s, a);
      } else if a.Insert? {
        InsertBreaks(s, a.task);
      } else {
        RetireRowBreaks(s, a.task, a.delete);
      }
    }
  }

  // ------------------------------------------------------------------ cancels and expiries

  /** Every file row that had its object has it still. */
  predicate ObjectsKept(s: State, after: State) {
    forall f :: f in s.files && s.files[f].key in s.store ==>
      f in after.files && after.files[f].key == s.files[f].key && s.files[f].key in after.store
      && after.store[s.files[f].key] == s.store[s.files[f].key]
  }

  /**
   Main result: a cancel or an expiry and the delete it may start keep every file's object if and only if it is calm,
   or there is none.
   */
  lemma RetireLosesIffNotCalm(s: State, t: nat, delete: bool)
    requires Retires(s, t, delete)
    ensures ObjectsKept(s, Apply(Apply(s, RetireRow(t, delete)), Drop(t)))
            <==> Calm(s, RetireRow(t, delete)) || s.tasks[t].key !in s.store
  {
    hide HeadMatches, PutStep, SearchStep, InsertStep, LinkStep, ReceiveStep, AttachStep;
    hide CollectRowStep, BackfillReadStep, BackfillRowStep, SweepCheckStep, CompleteRowStep;
    var middle := Apply(s, RetireRow(t, delete));
    var end := Apply(middle, Drop(t));
    var p := s.tasks[t];
    assert middle.files == s.files && middle.store == s.store;
    assert middle.tasks[t] == if p.seen == None then Dropping(p.key) else Ended;
    assert end.files == s.files && end.store == if p.seen == None then s.store - {p.key} else s.store;
    hide Apply, RetireRowStep;
    if !Calm(s, RetireRow(t, delete)) {
      var f :| f in s.files && s.files[f].key == p.key;
      assert p.key in s.store ==> !ObjectsKept(s, end);
    } else if p.seen == None {
      forall f | f in s.files ensures s.files[f].key != p.key {
        assert !KeyTaken(s.files, p.key);
      }
    }
  }

  /** The step inserts a row for an object under this key. */
  predicate Registers(s: State, a: Action, key: Key) {
    a.Insert? && Inserts(s, a.task) && s.tasks[a.task].key == key
  }

  lemma OnlyInsertsTake(s: State, a: Action, key: Key)
    requires !KeyTaken(s.files, key) && !Registers(s, a, key)
    ensures !KeyTaken(Apply(s, a).files, key)
  {
    hide Md5Spec.Digest, Identical, Referenced, HeadMatches, InsertStep, BackfillRowStep, CollectRowStep;
    if a.Insert? {
      hide KeyTaken, Inserts;
      if a.task in s.tasks && s.tasks[a.task].Stored? {
        InsertTakes(s, a.task, key);
      }
    } else if a.BackfillRow? {
      hide KeyTaken, Inserts;
      if a.task in s.tasks && s.tasks[a.task].Backfilling? {
        BackfillTakes(s, a.task, key);
      }
    } else if a.CollectRow? {
      hide KeyTaken, Inserts;
      if a.task in s.tasks && s.tasks[a.task].Collecting? {
        CollectTakes(s, a.task, key);
      }
    } else {
      assert Apply(s, a).files == s.files;
    }
  }

  lemma CollectTakes(s: State, t: nat, key: Key)
    requires !KeyTaken(s.files, key) && t in s.tasks && s.tasks[t].Collecting?
    ensures !KeyTaken(CollectRowStep(s, t).files, key)
  {
    hide Attached, Awaited, Unlinked;
  }

  lemma InsertTakes(s: State, t: nat, key: Key)
    requires !KeyTaken(s.files, key) && t in s.tasks && s.tasks[t].Stored? && !(Inserts(s, t) && s.tasks[t].key == key)
    ensures !KeyTaken(InsertStep(s, t).files, key)
  {
    hide Md5Spec.Digest, DedupeTaken;
  }

  lemma BackfillTakes(s: State, t: nat, key: Key)
    requires !KeyTaken(s.files, key) && t in s.tasks && s.tasks[t].Backfilling?
    ensures !KeyTaken(BackfillRowStep(s, t).files, key)
  {
    hide Attached, Uploading, DedupeTaken;
  }

  lemma {:induction false} TakenWasRegistered(s: State, actions: seq<Action>, key: Key)
    requires !KeyTaken(s.files, key) && KeyTaken(Run(s, actions).files, key)
    ensures exists n :: 0 <= n < |actions| && Registers(Run(s, actions[..n]), actions[n], key)
    decreases |actions|
  {
    hide Apply, KeyTaken, Registers;
    if actions != [] {
      var next, more := Apply(s, actions[0]), actions[1..];
      if Registers(s, actions[0], key) {
        assert actions[..0] == [] && Run(s, actions[..0]) == s;
      } else {
        OnlyInsertsTake(s, actions[0], key);
        TakenWasRegistered(next, more, key);
        var n :| 0 <= n < |more| && Registers(Run(next, more[..n]), more[n], key);
        assert actions[..n + 1][0] == actions[0] && actions[..n + 1][1..] == more[..n];
        assert Registers(Run(s, actions[..n + 1]), actions[n + 1], key);
      }
    }
  }

  /**
   So a cancel or an expiry that read its upload while no row owned its key is calm, unless content put under that key
   has been registered since.
   */
  lemma IdleRetireIsCalm(s: State, actions: seq<Action>, t: nat, delete: bool)
    requires t in s.tasks && s.tasks[t].Retiring? && !KeyTaken(s.files, s.tasks[t].key)
    requires t in Run(s, actions).tasks && Run(s, actions).tasks[t] == s.tasks[t]
    requires forall n :: 0 <= n < |actions| ==> !Registers(Run(s, actions[..n]), actions[n], s.tasks[t].key)
    ensures Calm(Run(s, actions), RetireRow(t, delete))
  {
    if KeyTaken(Run(s, actions).files, s.tasks[t].key) {
      TakenWasRegistered(s, actions, s.tasks[t].key);
    }
  }
}
