/** From the partition of a table to the batches of its copy step. */
module RunParts {
  import opened Wrappers
  import opened RunDb
  import opened RunQueue
  import opened RunStore
  import Partition

  function NumbersOf(parts: seq<Partition.Part>): seq<nat> {
    seq(|parts|, i requires 0 <= i < |parts| => parts[i].number)
  }

  // The handler of a copy step: the table is partitioned and the step is expanded with the parts. It succeeds
  // exactly when the step has no batch numbered below their count, and each part then has a batch with its
  // number, and a job.
  method ExpandTable(store: Store, step: nat, total: int, numericKey: bool, min: int, max: int, batchSize: int,
                     limit: nat)
    returns (ended: bool, ok: bool, parts: seq<Partition.Part>)
    requires Partition.IsInt64(total) && total >= 0 && Partition.IsInt64(min) && Partition.IsInt64(max)
    requires Partition.IsInt64(batchSize) && step in store.steps && Keyed(store.Rows())
    modifies store
    ensures ended ==>
      (ok <==> forall b <- old(store.batches) :: old(store.batches)[b].step == step ==>
         old(store.batches)[b].number >= |parts|)
    ensures ok ==> ended && forall i :: 0 <= i < |parts| ==>
      GotBatch(store.Rows(), old(store.next) + 2 * i, step, parts[i].number)
    ensures ok ==> store.Rows() == Expanded(old(store.Rows()), step, |parts|)
    ensures !ok ==> store.Rows() == old(store.Rows())
  {
    hide Keyed, GotBatch, ExpandedWith, Expanded, Partition.AllOffsetParts, Partition.LowAfter, Partition.KeyRange;
    var kind;
    ended, kind, parts := Partition.BuildPlan(total, numericKey, min, max, batchSize, limit);
    ok := false;
    if ended {
      assert NumbersOf(parts) == Upto(|parts|);
      ExpandedUpto(store.Rows(), step, |parts|);
      InUpto(|parts|);
      ok := store.ExpandCopy(step, NumbersOf(parts));
      assert forall i :: 0 <= i < |parts| ==> NumbersOf(parts)[i] == parts[i].number;
    }
  }

  lemma InUpto(n: nat)
    ensures forall x: nat :: x in Upto(n) <==> x < n
  {
    forall x: nat ensures x in Upto(n) <==> x < n {
      if x < n {
        assert Upto(n)[x] == x;
      }
    }
  }

  predicate IsBatchOf(db: Db, b: nat, s: nat, x: nat) {
    b in db.batches && db.batches[b].step == s && db.batches[b].number == x
  }

  predicate IsJobOf(db: Db, j: nat, b: nat) {
    j in db.jobs && db.jobs[j].batch == Some(b)
  }

  // Expanded into n parts, a step without batches has one batch for every number below n, with one job, and no
  // other batch.
  lemma OneBatchEach(db: Db, s: nat, n: nat, x: nat) returns (b: nat, j: nat)
    requires Keyed(db) && (forall b <- db.batches :: db.batches[b].step != s) && x < n
    ensures forall c :: IsBatchOf(Expanded(db, s, n), c, s, x) <==> c == b
    ensures forall i :: IsJobOf(Expanded(db, s, n), i, b) <==> i == j
    ensures j in Expanded(db, s, n).jobs && Expanded(db, s, n).jobs[j] == Job(s, Some(b), Waiting, 0, 3)
  {
    hide Expanded, Keyed;
    var after := Expanded(db, s, n);
    KeyedIds(db);
    ExpandedUpto(db, s, n);
    ExpandedRows(db, s, Upto(n));
    b, j := db.next + 2 * x, db.next + 2 * x + 1;
    assert GotBatch(after, b, s, Upto(n)[x]);
    ExpandedKeyed(db, s, n, n);
    OwnersDiffer(after, b, j);
  }

  lemma OwnersDiffer(db: Db, b: nat, j: nat)
    requires Keyed(db) && b in db.batches && IsJobOf(db, j, b)
    ensures forall c :: IsBatchOf(db, c, db.batches[b].step, db.batches[b].number) <==> c == b
    ensures forall i :: IsJobOf(db, i, b) <==> i == j
  {
    forall c | IsBatchOf(db, c, db.batches[b].step, db.batches[b].number) ensures c == b {
      assert SameRange(db.batches[c], db.batches[b]);
    }
    forall i | IsJobOf(db, i, b) ensures i == j {
      assert BatchKnown(db, db.jobs[i]) && BatchKnown(db, db.jobs[j]);
      assert SameOwner(db.jobs[i], db.jobs[j]);
    }
  }

  lemma NoOtherBatch(db: Db, s: nat, n: nat, b: nat)
    requires Keyed(db) && (forall b <- db.batches :: db.batches[b].step != s)
    requires b in Expanded(db, s, n).batches && Expanded(db, s, n).batches[b].step == s
    ensures Expanded(db, s, n).batches[b].number < n
  {
    hide Expanded, Keyed;
    ExpandedKeyed(db, s, n, n + Expanded(db, s, n).batches[b].number + 1);
  }
}
