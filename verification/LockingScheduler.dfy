/**
 The processor in locking mode: the scheduler loop over the mutable queues, the
 lock manager and storage, and the tasks that workers run. Each method does one
 section of the loop; its contract gives the whole new state as a function of
 the old. LockingRefinement shows that these functions are runs of the machine.
 */
module LockingScheduler {
  import opened Txns
  import opened LockTable
  import opened LockManager
  import opened TxnObjects
  import Locking

  // The fields of a transaction object that its life changes.
  datatype TxnRecord = TxnRecord(status: Status, got: map<Key, Value>, writes: map<Key, Value>, occStart: nat)

  const FRESH: TxnRecord := TxnRecord(Incomplete, map[], map[], 0)

  // The object after a run on db that began with n transactions committed.
  function AfterRun(p: Logic, db: Db, n: nat): TxnRecord {
    var got, out := ReadsOf(p, db), Exec(p, db);
    TxnRecord(if out.commit then CompletedC else CompletedA, got + out.writes, out.writes, n)
  }

  // All that the scheduler thread owns or shares, as a value.
  datatype Snapshot = Snapshot(
    exclusiveOnly: bool,
    txns: seq<Logic>,
    objects: seq<TxnRecord>,
    data: Db,
    locks: LockState,
    requests: seq<TxnId>,
    ready: seq<TxnId>,
    pool: seq<TxnId>,
    completed: seq<TxnId>,
    committed: seq<Locking.Commit>,
    results: seq<TxnId>
  )

  // The lock table once i has asked for the keys in shared and in exclusive, all
  // of them exclusively if only that mode exists.
  function AskedFor(ls: LockState, only: bool, i: TxnId, shared: set<Key>, exclusive: set<Key>): LockState {
    ls.(table := map k | k in ls.table.Keys + shared + exclusive ::
      if k in shared || k in exclusive then QueueAt(ls.table, k) + [Request(i, only || k in exclusive)]
      else ls.table[k])
  }

  // i holds the locks on all of keys.
  ghost predicate HoldsAll(ls: LockState, i: TxnId, keys: set<Key>) {
    forall k :: k in keys ==> Holds(QueueAt(ls.table, k), i)
  }

  // Asking for one lock more.
  lemma AskShared(ls: LockState, mid: LockState, only: bool, i: TxnId, shared: set<Key>, k: Key)
    requires mid == AskedFor(ls, only, i, shared, {}) && k !in shared && i !in ls.released
    ensures QueueAt(mid.table, k) == QueueAt(ls.table, k)
    ensures var ls' := Acquire(mid, i, only, k);
      && ls' == AskedFor(ls, only, i, shared + {k}, {})
      && (HoldsAll(ls', i, shared + {k}) <==>
            HoldsAll(mid, i, shared) && Holds(QueueAt(ls'.table, k), i))
  {
    var ls' := Acquire(mid, i, only, k);
    assert ls'.table == AskedFor(ls, only, i, shared + {k}, {}).table;
    assert ls'.released == ls.released;
    assert forall m :: m != k ==> QueueAt(ls'.table, m) == QueueAt(mid.table, m);
  }

  lemma AskExclusive(ls: LockState, mid: LockState, only: bool, i: TxnId,
                     shared: set<Key>, exclusive: set<Key>, k: Key)
    requires mid == AskedFor(ls, only, i, shared, exclusive) && k !in shared && k !in exclusive && i !in ls.released
    ensures QueueAt(mid.table, k) == QueueAt(ls.table, k)
    ensures var ls' := Acquire(mid, i, true, k);
      && ls' == AskedFor(ls, only, i, shared, exclusive + {k})
      && (HoldsAll(ls', i, exclusive + {k}) <==>
            HoldsAll(mid, i, exclusive) && Holds(QueueAt(ls'.table, k), i))
  {
    var ls' := Acquire(mid, i, true, k);
    assert ls'.table == AskedFor(ls, only, i, shared, exclusive + {k}).table;
    assert ls'.released == ls.released;
    assert forall m :: m != k ==> QueueAt(ls'.table, m) == QueueAt(mid.table, m);
  }

  lemma AskNothing(ls: LockState, only: bool, i: TxnId)
    ensures AskedFor(ls, only, i, {}, {}) == ls
  {
    assert AskedFor(ls, only, i, {}, {}).table == ls.table;
  }

  lemma AskBoth(ls: LockState, only: bool, i: TxnId, shared: set<Key>, exclusive: set<Key>)
    requires shared !! exclusive
    ensures HoldsAll(AskedFor(ls, only, i, shared, exclusive), i, shared + exclusive) <==>
      && HoldsAll(AskedFor(ls, only, i, shared, {}), i, shared)
      && HoldsAll(AskedFor(ls, only, i, shared, exclusive), i, exclusive)
  {
    var mid, all := AskedFor(ls, only, i, shared, {}), AskedFor(ls, only, i, shared, exclusive);
    assert forall k :: k in shared ==> QueueAt(mid.table, k) == QueueAt(all.table, k);
  }

  // A loop over keys that has done some of them takes one more.
  lemma OneMore(keys: set<Key>, done: set<Key>, k: Key)
    requires done <= keys && k in keys && k !in done
    ensures done + {k} <= keys && keys - (done + {k}) == keys - done - {k}
  {
  }

  lemma AllDone(keys: set<Key>, done: set<Key>)
    requires done <= keys && keys - done == {}
    ensures done == keys
  {
    forall k | k in keys ensures k in done {
      assert k !in keys - done;
    }
  }

  // The lock manager has not heard of i.
  ghost predicate Unknown(ls: LockState, i: TxnId) {
    i !in ls.released && forall k :: !Queued(QueueAt(ls.table, k), i)
  }

  /******* The sections of the loop, as functions *******/

  function Submitted(n: Snapshot, p: Logic): Snapshot {
    n.(txns := n.txns + [p], objects := n.objects + [FRESH], requests := n.requests + [|n.txns|])
  }

  ghost function Admitted(n: Snapshot): Snapshot
    requires n.requests != [] && n.requests[0] < |n.txns|
  {
    var i := n.requests[0];
    var p := n.txns[i];
    var locks := AskedFor(n.locks, n.exclusiveOnly, i, p.readset, p.writeset);
    n.(requests := n.requests[1..], locks := locks,
       ready := if HoldsAll(locks, i, p.Keys()) then n.ready + [i] else n.ready)
  }

  function Started(n: Snapshot): Snapshot
    requires n.ready != []
  {
    n.(ready := n.ready[1..], pool := n.pool + [n.ready[0]])
  }

  // The pool hands task j to a worker, which runs it on current storage.
  function Executed(n: Snapshot, j: nat): Snapshot
    requires j < |n.pool| && n.pool[j] < |n.txns| == |n.objects|
  {
    var i := n.pool[j];
    n.(pool := n.pool[..j] + n.pool[j + 1..], completed := n.completed + [i],
       objects := n.objects[i := AfterRun(n.txns[i], n.data, |n.committed|)])
  }

  // The lock table and the ready queue before and after each release.
  datatype Plan = Plan(locks: seq<LockState>, ready: seq<seq<TxnId>>)

  ghost predicate Follows(plan: Plan, i: TxnId, keys: seq<Key>) {
    && |plan.locks| == |plan.ready| == |keys| + 1
    && forall m :: 0 <= m < |keys| ==> PlanStep(plan, i, keys, m)
  }

  ghost predicate PlanStep(plan: Plan, i: TxnId, keys: seq<Key>, m: nat)
    requires m < |keys| && |plan.locks| == |plan.ready| == |keys| + 1
  {
    && Unique(QueueAt(plan.locks[m].table, keys[m]))
    && plan.locks[m + 1] == Release(plan.locks[m], i, keys[m])
    && plan.ready[m + 1] == plan.ready[m] + Woken(plan.locks[m], i, keys[m])
  }

  // Whatever the keys, there is such a plan from a table of single requests on.
  lemma {:induction false} PlanAll(ls: LockState, ready: seq<TxnId>, i: TxnId, keys: seq<Key>) returns (plan: Plan)
    requires UniqueRequests(ls.table)
    ensures Follows(plan, i, keys) && plan.locks[0] == ls && plan.ready[0] == ready
    ensures UniqueRequests(plan.locks[|keys|].table)
  {
    if keys == [] {
      plan := Plan([ls], [ready]);
    } else {
      var n := |keys| - 1;
      var front := PlanAll(ls, ready, i, keys[..n]);
      var last, k := front.locks[n], keys[n];
      RemoveElements(QueueAt(last.table, k), i, i);
      plan := Plan(front.locks + [Release(last, i, k)], front.ready + [front.ready[n] + Woken(last, i, k)]);
      forall m | 0 <= m < |keys| ensures PlanStep(plan, i, keys, m) {
        if m < n {
          assert PlanStep(front, i, keys[..n], m);
        }
      }
    }
  }

  // plan is that of transaction i giving back keys from snapshot n on.
  ghost predicate PlanOf(plan: Plan, n: Snapshot, i: TxnId, keys: seq<Key>) {
    Follows(plan, i, keys) && plan.locks[0] == n.locks && plan.ready[0] == n.ready
  }

  // The oldest completed transaction is committed or aborted, its locks are
  // released in the order of keys, and it is returned.
  ghost function Concluded(n: Snapshot, keys: seq<Key>, plan: Plan): Snapshot
    requires n.completed != [] && n.completed[0] < |n.objects| && PlanOf(plan, n, n.completed[0], keys)
  {
    var i := n.completed[0];
    var commit, writes := n.objects[i].status.CompletedC?, n.objects[i].writes;
    n.(data := if commit then n.data + writes else n.data,
       committed := if commit then n.committed + [Locking.Commit(i, writes)] else n.committed,
       objects := n.objects[i := n.objects[i].(status := if commit then Committed else Aborted)],
       completed := n.completed[1..], results := n.results + [i],
       locks := plan.locks[|keys|], ready := plan.ready[|keys|])
  }

  // keys lists the read set and then the write set, each key once.
  ghost predicate ReleaseOrder(p: Logic, keys: seq<Key>) {
    && Lists(keys, p.Keys())
    && forall a, b :: 0 <= a < |keys| && 0 <= b < |keys| && keys[a] in p.readset && keys[b] in p.writeset ==> a < b
  }

  class TxnProcessor {
    const storage: Storage
    const readyTxns: TxnDeque
    const lm: ModalLockManager
    var txns: seq<Logic>
    var objects: seq<TxnRecord>
    var requests: seq<TxnId>
    // Tasks handed to the thread pool that no worker has begun.
    var pool: seq<TxnId>
    var completed: seq<TxnId>
    var committed: seq<Locking.Commit>
    var results: seq<TxnId>

    ghost function Snap(): Snapshot
      reads this, storage, readyTxns, lm.a, lm.b
    {
      Snapshot(lm.exclusiveOnly, txns, objects, storage.data, lm.State(), requests, readyTxns.items, pool, completed,
               committed, results)
    }

    ghost predicate Valid()
      reads this, lm.a, lm.b
    {
      && lm.Valid() && lm.readyTxns == readyTxns && |objects| == |txns|
      && (forall i :: 0 <= i < |txns| ==> txns[i].readset !! txns[i].writeset)
      && (forall m :: 0 <= m < |requests| ==> requests[m] < |txns|)
    }

    // The mode selects the lock manager.
    constructor (exclusiveOnly: bool)
      ensures Valid() && fresh(storage) && fresh(readyTxns) && fresh(lm.a) && fresh(lm.b)
      ensures forall k: Key :: Get(storage.data, k) == if k < INITIAL_RECORDS then Some(0) else None
      ensures Snap() ==
        Snapshot(exclusiveOnly, [], [], storage.data, LockState(map[], {}), [], [], [], [], [], [])
    {
      var st := new Storage();
      var ready := new TxnDeque();
      storage, readyTxns := st, ready;
      lm := new ModalLockManager(exclusiveOnly, ready);
      txns, objects, requests, pool, completed, committed, results := [], [], [], [], [], [], [];
    }

    method NewTxnRequest(p: Logic)
      requires Valid() && p.readset !! p.writeset
      modifies this`requests, this`txns, this`objects
      ensures Valid()
      ensures Snap() == Submitted(old(Snap()), p)
    {
      requests := requests + [|txns|];
      txns, objects := txns + [p], objects + [FRESH];
    }

    method AskRead(i: TxnId, k: Key, ghost ls: LockState, ghost done: set<Key>) returns (granted: bool)
      requires lm.Valid() && lm.State() == AskedFor(ls, lm.exclusiveOnly, i, done, {}) && k !in done && Unknown(ls, i)
      modifies lm.a, lm.b
      ensures lm.Valid() && lm.State() == AskedFor(ls, lm.exclusiveOnly, i, done + {k}, {})
      ensures HoldsAll(lm.State(), i, done + {k}) <==> old(HoldsAll(lm.State(), i, done)) && granted
    {
      AskShared(ls, lm.State(), lm.exclusiveOnly, i, done, k);
      granted := lm.ReadLock(i, k);
    }

    method AskWrite(i: TxnId, k: Key, ghost ls: LockState, ghost shared: set<Key>, ghost done: set<Key>)
      returns (granted: bool)
      requires lm.Valid() && lm.State() == AskedFor(ls, lm.exclusiveOnly, i, shared, done) && k !in shared && k !in done && Unknown(ls, i)
      modifies lm.a, lm.b
      ensures lm.Valid() && lm.State() == AskedFor(ls, lm.exclusiveOnly, i, shared, done + {k})
      ensures HoldsAll(lm.State(), i, done + {k}) <==> old(HoldsAll(lm.State(), i, done)) && granted
    {
      AskExclusive(ls, lm.State(), lm.exclusiveOnly, i, shared, done, k);
      granted := lm.WriteLock(i, k);
    }

    method RequestReadLocks(i: TxnId, keys: set<Key>, ghost ls: LockState) returns (blocked: bool)
      requires lm.Valid() && lm.State() == AskedFor(ls, lm.exclusiveOnly, i, {}, {}) && Unknown(ls, i)
      modifies lm.a, lm.b
      ensures lm.Valid() && lm.State() == AskedFor(ls, lm.exclusiveOnly, i, keys, {})
      ensures blocked <==> !HoldsAll(lm.State(), i, keys)
    {
      blocked := false;
      var todo := keys;
      ghost var done: set<Key> := {};
      while todo != {}
        invariant done <= keys && todo == keys - done
        invariant lm.Valid() && lm.State() == AskedFor(ls, lm.exclusiveOnly, i, done, {})
        invariant blocked <==> !HoldsAll(lm.State(), i, done)
        decreases |todo|
      {
        var k :| k in todo;
        OneMore(keys, done, k);
        var granted := AskRead(i, k, ls, done);
        if !granted {
          blocked := true;
        }
        todo, done := todo - {k}, done + {k};
      }
      AllDone(keys, done);
    }

    method RequestWriteLocks(i: TxnId, keys: set<Key>, ghost ls: LockState, ghost shared: set<Key>)
      returns (blocked: bool)
      requires lm.Valid() && lm.State() == AskedFor(ls, lm.exclusiveOnly, i, shared, {}) && Unknown(ls, i) && shared !! keys
      modifies lm.a, lm.b
      ensures lm.Valid() && lm.State() == AskedFor(ls, lm.exclusiveOnly, i, shared, keys)
      ensures blocked <==> !HoldsAll(lm.State(), i, keys)
    {
      blocked := false;
      var todo := keys;
      ghost var done: set<Key> := {};
      while todo != {}
        invariant done <= keys && todo == keys - done
        invariant lm.Valid() && lm.State() == AskedFor(ls, lm.exclusiveOnly, i, shared, done)
        invariant blocked <==> !HoldsAll(lm.State(), i, done)
        decreases |todo|
      {
        var k :| k in todo;
        OneMore(keys, done, k);
        var granted := AskWrite(i, k, ls, shared, done);
        if !granted {
          blocked := true;
        }
        todo, done := todo - {k}, done + {k};
      }
      AllDone(keys, done);
    }

    method RequestLocks(i: TxnId, p: Logic) returns (blocked: bool)
      requires lm.Valid() && Unknown(lm.State(), i) && p.readset !! p.writeset
      modifies lm.a, lm.b
      ensures lm.Valid() && lm.State() == AskedFor(old(lm.State()), lm.exclusiveOnly, i, p.readset, p.writeset)
      ensures blocked <==> !HoldsAll(lm.State(), i, p.Keys())
    {
      ghost var ls := lm.State();
      AskNothing(ls, lm.exclusiveOnly, i);
      var blockedReads := RequestReadLocks(i, p.readset, ls);
      var blockedWrites := RequestWriteLocks(i, p.writeset, ls, p.readset);
      AskBoth(ls, lm.exclusiveOnly, i, p.readset, p.writeset);
      blocked := blockedReads || blockedWrites;
    }

    // Starts processing the next incoming request: all its locks are asked for,
    // and it is ready if none of them has to be waited for.
    method AdmitNext()
      requires Valid() && requests != [] && Unknown(lm.State(), requests[0])
      modifies this`requests, readyTxns, lm.a, lm.b
      ensures Valid() && Snap() == Admitted(old(Snap()))
    {
      var i := requests[0];
      requests := requests[1..];
      var blocked := RequestLocks(i, txns[i]);
      if !blocked {
        readyTxns.PushBack(i);
      }
    }

    // Starts one transaction that has newly acquired all its locks.
    method StartNext()
      requires Valid() && readyTxns.items != []
      modifies this`pool, readyTxns
      ensures Valid() && Snap() == Started(old(Snap()))
    {
      var i := readyTxns.PopFront();
      pool := pool + [i];
    }

    // A worker's task, taken from anywhere in the pool: notes how much has been
    // committed, reads everything, runs, and hands the transaction back.
    method ExecuteTxn(j: nat)
      requires Valid() && j < |pool| && pool[j] < |txns|
      modifies this`pool, this`completed, this`objects
      ensures Valid() && Snap() == Executed(old(Snap()), j)
      ensures var i, p := old(pool)[j], txns[old(pool)[j]];
        && i < |objects| && objects[i].occStart == |committed|
        && objects[i].got == ReadsOf(p, storage.data) + objects[i].writes
        && objects[i].writes == Exec(p, storage.data).writes
        && (objects[i].status.CompletedC? <==> Exec(p, storage.data).commit)
    {
      var i := pool[j];
      pool := pool[..j] + pool[j + 1..];
      var p, start := txns[i], |committed|;
      var got := FetchAll(storage, p.Keys());
      assert got == ReadsOf(p, storage.data);
      var out := p.run(got);
      objects := objects[i := TxnRecord(if out.commit then CompletedC else CompletedA, got + out.writes, out.writes, start)];
      completed := completed + [i];
    }

    // Gives back the locks on keys[from..to].
    method ReleaseLocks(i: TxnId, keys: seq<Key>, from: nat, to: nat, ghost plan: Plan)
      requires from <= to <= |keys| && Follows(plan, i, keys) && OnPlan(plan, from)
      modifies lm.a, lm.b, readyTxns
      ensures OnPlan(plan, to)
    {
      var m := from;
      while m < to
        invariant from <= m <= to && OnPlan(plan, m)
      {
        ReleaseLock(i, keys, m, plan);
        m := m + 1;
      }
    }

    ghost predicate OnPlan(plan: Plan, m: nat)
      requires m < |plan.locks| && m < |plan.ready|
      reads this, lm.a, lm.b, readyTxns
    {
      && lm.Valid() && lm.readyTxns == readyTxns
      && lm.State() == plan.locks[m] && readyTxns.items == plan.ready[m]
    }

    method ReleaseLock(i: TxnId, keys: seq<Key>, m: nat, ghost plan: Plan)
      requires m < |keys| && Follows(plan, i, keys) && OnPlan(plan, m)
      modifies lm.a, lm.b, readyTxns
      ensures OnPlan(plan, m + 1)
    {
      assert PlanStep(plan, i, keys, m);
      lm.Release(i, keys[m]);
    }

    // The keys of a set in the order in which a loop visits them.
    method KeysInOrder(keys: set<Key>) returns (order: seq<Key>)
      ensures Lists(order, keys)
    {
      order := [];
      var todo := keys;
      while todo != {}
        invariant todo <= keys && Lists(order, keys - todo)
        decreases |todo|
      {
        var k :| k in todo;
        ListMore(order, keys - todo, k);
        assert keys - (todo - {k}) == keys - todo + {k};
        order, todo := order + [k], todo - {k};
      }
      assert keys - {} == keys;
    }

    // Commits or aborts by the vote, applying the writes of a commit.
    method Decide(i: TxnId)
      requires i < |objects|
      modifies this`committed, this`objects, storage
      ensures var commit, writes := old(objects)[i].status.CompletedC?, old(objects)[i].writes;
        && storage.data == (if commit then old(storage.data) + writes else old(storage.data))
        && committed == (if commit then old(committed) + [Locking.Commit(i, writes)] else old(committed))
        && objects == old(objects)[i := old(objects)[i].(status := if commit then Committed else Aborted)]
    {
      var status := objects[i].status;
      if status.CompletedC? {
        WriteAll(storage, objects[i].writes);
        committed := committed + [Locking.Commit(i, objects[i].writes)];
        status := Committed;
      } else {
        status := Aborted;
      }
      objects := objects[i := objects[i].(status := status)];
    }

    // Gives all locks back: the read locks, then the write locks.
    method ReleaseBoth(i: TxnId, p: Logic) returns (ghost keys: seq<Key>, ghost plan: Plan)
      requires lm.Valid() && lm.readyTxns == readyTxns && p.readset !! p.writeset
      modifies lm.a, lm.b, readyTxns
      ensures ReleaseOrder(p, keys) && Follows(plan, i, keys)
      ensures plan.locks[0] == old(lm.State()) && plan.ready[0] == old(readyTxns.items)
      ensures OnPlan(plan, |keys|)
    {
      lm.TableUnique();
      var shared := KeysInOrder(p.readset);
      var exclusive := KeysInOrder(p.writeset);
      keys := shared + exclusive;
      OrderOfBoth(p, shared, exclusive);
      plan := PlanAll(lm.State(), readyTxns.items, i, keys);
      ReleaseLocks(i, shared + exclusive, 0, |shared|, plan);
      ReleaseLocks(i, shared + exclusive, |shared|, |shared + exclusive|, plan);
    }

    // Processes one transaction that has finished running.
    method FinishNext() returns (ghost keys: seq<Key>, ghost plan: Plan)
      requires Valid() && completed != [] && completed[0] < |txns|
      modifies this`completed, this`committed, this`results, this`objects, storage, lm.a, lm.b, readyTxns
      ensures Valid() && ReleaseOrder(txns[old(completed)[0]], keys)
      ensures PlanOf(plan, old(Snap()), old(completed)[0], keys)
      ensures Snap() == Concluded(old(Snap()), keys, plan)
    {
      var i := completed[0];
      completed := completed[1..];
      Decide(i);
      keys, plan := ReleaseBoth(i, txns[i]);
      results := results + [i];
    }
  }

  // order lists keys, each of them once.
  ghost predicate Lists(order: seq<Key>, keys: set<Key>) {
    Distinct(order) && forall k :: k in order <==> k in keys
  }

  lemma ListMore(order: seq<Key>, keys: set<Key>, k: Key)
    requires Lists(order, keys) && k !in keys
    ensures Lists(order + [k], keys + {k})
  {
  }

  lemma OrderOfBoth(p: Logic, shared: seq<Key>, exclusive: seq<Key>)
    requires Lists(shared, p.readset) && Lists(exclusive, p.writeset) && p.readset !! p.writeset
    ensures ReleaseOrder(p, shared + exclusive)
  {
    forall a, b | 0 <= a < b < |shared + exclusive| ensures (shared + exclusive)[a] != (shared + exclusive)[b] {
      if a < |shared| <= b {
        assert shared[a] in p.readset && exclusive[b - |shared|] in p.writeset;
      }
    }
  }
}
