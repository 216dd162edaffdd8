/**
 The two lock managers. Their bodies keep the deques, the wait counters and the
 shared ready queue up to date one request at a time; their contracts speak of
 the granted prefix of each deque, as defined in LockTable.
 */
module LockManager {
  import opened Txns
  import opened LockTable

  datatype LockMode = Unlocked | Shared | Exclusive

  // The queue of ready transactions, shared between scheduler and lock manager.
  class TxnDeque {
    var items: seq<TxnId>

    constructor ()
      ensures items == []
    {
      items := [];
    }

    method PushBack(t: TxnId)
      modifies this
      ensures items == old(items) + [t]
    {
      items := items + [t];
    }

    method PopFront() returns (t: TxnId)
      requires items != []
      modifies this
      ensures old(items) == [t] + items && t == old(items)[0] && items == old(items)[1..]
    {
      t := items[0];
      items := items[1..];
    }
  }

  ghost predicate AllExclusive(table: Table) {
    forall k, i :: k in table && 0 <= i < |table[k]| ==> table[k][i].exclusive
  }

  method FindRequest(q: Queue, t: TxnId) returns (p: nat)
    ensures p == Position(q, t)
  {
    p := 0;
    while p < |q| && q[p].txn != t
      invariant p <= |q|
      invariant forall r :: 0 <= r < p ==> q[r].txn != t
    {
      p := p + 1;
    }
  }

  method CountGranted(q: Queue) returns (n: nat)
    ensures n == GrantedLen(q)
  {
    if |q| > 0 && q[0].exclusive {
      return 1;
    }
    n := 0;
    while n < |q| && !q[n].exclusive
      invariant n <= |q|
      invariant forall r :: 0 <= r < n ==> !q[r].exclusive
    {
      n := n + 1;
    }
  }

  // The counter of t once its request for k is queued: one more if it has to
  // wait, but counted afresh if a release has made the entry invalid.
  method CounterAfter(table: Table, waits: map<TxnId, int>, t: TxnId, exclusive: bool, k: Key,
                      granted: bool, invalid: bool)
    returns (n: nat)
    requires UniqueRequests(table) && !Queued(QueueAt(table, k), t)
    requires granted == Holds(QueueAt(table, k) + [Request(t, exclusive)], t)
    requires !invalid ==> CounterOf(waits, t) == Waits(table, t)
    ensures n == Waits(table[k := QueueAt(table, k) + [Request(t, exclusive)]], t)
  {
    WaitsAfterAcquire(LockState(table, {}), t, exclusive, k, t);
    n := if t in waits && !invalid then waits[t] else 0;
    if invalid {
      n := CountWaits(table, t);
    }
    if !granted {
      n := n + 1;
    }
  }

  method CountWaits(table: Table, t: TxnId) returns (n: nat)
    ensures n == Waits(table, t)
  {
    n := 0;
    var todo := table.Keys;
    ghost var found: set<Key> := {};
    while todo != {}
      invariant todo <= table.Keys && n == |found|
      invariant forall k :: k in found <==> k in table && k !in todo && Blocked(table[k], t)
      decreases |todo|
    {
      var k :| k in todo;
      var granted := CountGranted(table[k]);
      var i := granted;
      while i < |table[k]| && table[k][i].txn != t
        invariant granted <= i <= |table[k]|
        invariant forall r :: granted <= r < i ==> table[k][r].txn != t
      {
        i := i + 1;
      }
      if i < |table[k]| {
        n, found := n + 1, found + {k};
      }
      todo := todo - {k};
    }
    assert found == WaitingKeys(table, t);
  }

  // Counts down the transactions that have been granted a lock. Those that now
  // hold everything they asked for join the ready queue, in order.
  method Wake(ids: seq<TxnId>, waits: map<TxnId, int>, ready: TxnDeque, ghost ls: LockState)
    returns (waits': map<TxnId, int>)
    requires CountersOwe(ls, waits, ids)
    requires forall i, j :: 0 <= i < j < |ids| ==> ids[i] != ids[j]
    modifies ready
    ensures CountersAgree(ls, waits')
    ensures ready.items == old(ready.items) + Runnable(ids, ls)
  {
    waits' := waits;
    var i := 0;
    WakeStart(ls, waits, ids);
    while i < |ids|
      invariant i <= |ids| && CountersOwe(ls, waits', ids[i..])
      invariant ready.items == old(ready.items) + Runnable(ids[..i], ls)
    {
      WakeStep(ls, waits', ids, i);
      if ids[i] in waits' && waits'[ids[i]] == 1 {
        ready.PushBack(ids[i]);
      }
      waits' := Decrement(waits', ids[i]);
      i := i + 1;
    }
    WakeEnd(ls, waits', ids);
  }

  // Shared and exclusive locks.
  class LockManagerB {
    var lockTable: Table
    var txnWaits: map<TxnId, int>
    // Transactions whose entries a release has made invalid.
    var released: set<TxnId>
    const readyTxns: TxnDeque

    ghost predicate Valid()
      reads this
    {
      UniqueRequests(lockTable) && CountersAgree(State(), txnWaits)
    }

    function Requests(k: Key): Queue
      reads this
    {
      QueueAt(lockTable, k)
    }

    function State(): LockState
      reads this
    {
      LockState(lockTable, released)
    }

    constructor (readyTxns: TxnDeque)
      ensures Valid() && this.readyTxns == readyTxns
      ensures State() == LockState(map[], {})
    {
      lockTable, txnWaits, released := map[], map[], {};
      this.readyTxns := readyTxns;
      new;
      assert forall t :: WaitingKeys(lockTable, t) == {};
    }

    // Appends a request and brings the counter of its transaction up to date.
    method Enqueue(t: TxnId, k: Key, exclusive: bool, granted: bool)
      requires Valid() && !Queued(Requests(k), t)
      requires granted == Holds(Requests(k) + [Request(t, exclusive)], t)
      modifies this
      ensures Valid() && State() == Acquire(old(State()), t, exclusive, k)
    {
      CountersAfterAcquire(State(), txnWaits, t, exclusive, k);
      var n := CounterAfter(lockTable, txnWaits, t, exclusive, k, granted, t in released);
      lockTable := lockTable[k := Requests(k) + [Request(t, exclusive)]];
      released := released - {t};
      txnWaits := SetCounter(txnWaits, t, n);
    }

    method ReadLock(t: TxnId, k: Key) returns (granted: bool)
      requires Valid() && !Queued(Requests(k), t)
      modifies this
      ensures Valid() && State() == Acquire(old(State()), t, false, k)
      ensures granted == Holds(Requests(k), t)
    {
      var q := Requests(k);
      granted := true;
      for i := 0 to |q|
        invariant granted <==> forall r :: 0 <= r < i ==> !q[r].exclusive
      {
        if q[i].exclusive {
          granted := false;
        }
      }
      LastHolds(q, Request(t, false));
      Enqueue(t, k, false, granted);
    }

    method WriteLock(t: TxnId, k: Key) returns (granted: bool)
      requires Valid() && !Queued(Requests(k), t)
      modifies this
      ensures Valid() && State() == Acquire(old(State()), t, true, k)
      ensures granted == Holds(Requests(k), t)
    {
      var q := Requests(k);
      granted := |q| == 0;
      LastHolds(q, Request(t, true));
      Enqueue(t, k, true, granted);
    }

    // Releases a lock or cancels a request. The lock passes to exactly those
    // the new granted prefix adds, and those that now hold everything they asked
    // for join the ready queue, in queue order.
    method Release(t: TxnId, k: Key)
      requires Valid()
      modifies this, readyTxns
      ensures Valid() && State() == LockTable.Release(old(State()), t, k)
      ensures readyTxns.items == old(readyTxns.items) + Woken(old(State()), t, k)
      ensures InQueueOrder(old(Requests(k)), readyTxns.items[|old(readyTxns.items)|..])
    {
      WokenInOrder(State(), t, k);
      CountersAfterRelease(State(), txnWaits, t, k);
      NewGrantsUnique(Requests(k), t);
      var ids := Unlink(t, k);
      txnWaits := Wake(ids, txnWaits - {t}, readyTxns, State());
    }

    // Takes t out of the deque and reports who is granted the lock thereby.
    method Unlink(t: TxnId, k: Key) returns (ids: seq<TxnId>)
      requires KeptLen(Requests(k), t) <= GrantedLen(Remove(Requests(k), t))
      modifies this`lockTable, this`released
      ensures State() == LockTable.Release(old(State()), t, k)
      ensures ids == NewGrants(old(Requests(k)), t)
    {
      var q := Requests(k);
      var p := FindRequest(q, t);
      var had := CountGranted(q);
      var kept := if p < had then had - 1 else had;
      var rest := if p < |q| then q[..p] + q[p + 1..] else q;
      lockTable := lockTable[k := rest];
      released := released + {t};
      var granted := CountGranted(rest);
      ids := Ids(rest[kept..granted]);
    }

    // Reports the mode of the lock and all of its owners.
    method Status(k: Key) returns (mode: LockMode, owners: seq<TxnId>)
      requires Valid()
      ensures forall t :: t in owners <==> Holds(Requests(k), t)
      ensures owners == Ids(Requests(k)[..GrantedLen(Requests(k))])
      ensures mode == Unlocked <==> owners == []
      ensures mode != Unlocked ==> mode == if Requests(k)[0].exclusive then Exclusive else Shared
      ensures mode == Exclusive ==> |owners| == 1
    {
      var q := Requests(k);
      var n := CountGranted(q);
      owners := [];
      for i := 0 to n
        invariant owners == Ids(q[..i])
      {
        owners := owners + [q[i].txn];
      }
      mode := if n == 0 then Unlocked else if q[0].exclusive then Exclusive else Shared;
    }
  }

  // Exclusive locks only.
  class LockManagerA {
    var lockTable: Table
    var txnWaits: map<TxnId, int>
    // Transactions whose entries a release has made invalid.
    var released: set<TxnId>
    const readyTxns: TxnDeque

    ghost predicate Valid()
      reads this
    {
      && UniqueRequests(lockTable)
      && CountersAgree(State(), txnWaits)
      && AllExclusive(lockTable)
    }

    function Requests(k: Key): Queue
      reads this
    {
      QueueAt(lockTable, k)
    }

    function State(): LockState
      reads this
    {
      LockState(lockTable, released)
    }

    constructor (readyTxns: TxnDeque)
      ensures Valid() && this.readyTxns == readyTxns
      ensures State() == LockState(map[], {})
    {
      lockTable, txnWaits, released := map[], map[], {};
      this.readyTxns := readyTxns;
      new;
      assert forall t :: WaitingKeys(lockTable, t) == {};
    }

    method WriteLock(t: TxnId, k: Key) returns (granted: bool)
      requires Valid() && !Queued(Requests(k), t)
      modifies this
      ensures Valid() && State() == Acquire(old(State()), t, true, k)
      ensures granted == Holds(Requests(k), t)
    {
      var q := Requests(k);
      granted := |q| == 0;
      LastHolds(q, Request(t, true));
      CountersAfterAcquire(State(), txnWaits, t, true, k);
      var n := CounterAfter(lockTable, txnWaits, t, true, k, granted, t in released);
      lockTable := lockTable[k := q + [Request(t, true)]];
      released := released - {t};
      txnWaits := SetCounter(txnWaits, t, n);
    }

    method ReadLock(t: TxnId, k: Key) returns (granted: bool)
      requires Valid() && !Queued(Requests(k), t)
      modifies this
      ensures Valid() && State() == Acquire(old(State()), t, true, k)
      ensures granted == Holds(Requests(k), t)
    {
      granted := WriteLock(t, k);
    }

    method Release(t: TxnId, k: Key)
      requires Valid()
      modifies this, readyTxns
      ensures Valid() && State() == LockTable.Release(old(State()), t, k)
      ensures readyTxns.items == old(readyTxns.items) + Woken(old(State()), t, k)
      ensures InQueueOrder(old(Requests(k)), readyTxns.items[|old(readyTxns.items)|..])
    {
      WokenInOrder(State(), t, k);
      CountersAfterRelease(State(), txnWaits, t, k);
      NewGrantsUnique(Requests(k), t);
      var ids := Unlink(t, k);
      txnWaits := Wake(ids, txnWaits - {t}, readyTxns, State());
    }

    // Only the departure of the owner passes the lock on, to the next in line.
    method Unlink(t: TxnId, k: Key) returns (ids: seq<TxnId>)
      requires AllExclusive(lockTable)
      requires KeptLen(Requests(k), t) <= GrantedLen(Remove(Requests(k), t))
      modifies this`lockTable, this`released
      ensures AllExclusive(lockTable)
      ensures State() == LockTable.Release(old(State()), t, k)
      ensures ids == NewGrants(old(Requests(k)), t)
    {
      var q := Requests(k);
      var p := FindRequest(q, t);
      var rest := if p < |q| then q[..p] + q[p + 1..] else q;
      lockTable := lockTable[k := rest];
      released := released + {t};
      ids := if p == 0 && |rest| > 0 then [rest[0].txn] else [];
    }

    method Status(k: Key) returns (mode: LockMode, owners: seq<TxnId>)
      requires Valid()
      ensures forall t :: t in owners <==> Holds(Requests(k), t)
      ensures mode == (if Requests(k) == [] then Unlocked else Exclusive)
      ensures mode == Exclusive ==> owners == [Requests(k)[0].txn]
    {
      var q := Requests(k);
      if |q| == 0 {
        return Unlocked, [];
      }
      return Exclusive, [q[0].txn];
    }
  }

  // The manager that the mode of the processor selects. The calls of the other
  // one are never made.
  class ModalLockManager {
    const exclusiveOnly: bool
    const a: LockManagerA
    const b: LockManagerB
    const readyTxns: TxnDeque

    ghost predicate Valid()
      reads a, b
    {
      a.Valid() && b.Valid() && a.readyTxns == readyTxns && b.readyTxns == readyTxns
    }

    ghost function State(): LockState
      reads a, b
    {
      if exclusiveOnly then a.State() else b.State()
    }

    lemma TableUnique()
      requires Valid()
      ensures UniqueRequests(State().table)
    {
    }

    constructor (exclusiveOnly: bool, readyTxns: TxnDeque)
      ensures Valid() && State() == LockState(map[], {}) && fresh(a) && fresh(b)
      ensures this.exclusiveOnly == exclusiveOnly && this.readyTxns == readyTxns
    {
      this.exclusiveOnly, this.readyTxns := exclusiveOnly, readyTxns;
      a := new LockManagerA(readyTxns);
      b := new LockManagerB(readyTxns);
    }

    method ReadLock(t: TxnId, k: Key) returns (granted: bool)
      requires Valid() && !Queued(QueueAt(State().table, k), t)
      modifies a, b
      ensures Valid() && State() == Acquire(old(State()), t, exclusiveOnly, k)
      ensures granted == Holds(QueueAt(State().table, k), t)
    {
      if exclusiveOnly {
        granted := a.ReadLock(t, k);
      } else {
        granted := b.ReadLock(t, k);
      }
    }

    method WriteLock(t: TxnId, k: Key) returns (granted: bool)
      requires Valid() && !Queued(QueueAt(State().table, k), t)
      modifies a, b
      ensures Valid() && State() == Acquire(old(State()), t, true, k)
      ensures granted == Holds(QueueAt(State().table, k), t)
    {
      if exclusiveOnly {
        granted := a.WriteLock(t, k);
      } else {
        granted := b.WriteLock(t, k);
      }
    }

    method Release(t: TxnId, k: Key)
      requires Valid()
      modifies a, b, readyTxns
      ensures Valid() && UniqueRequests(old(State()).table)
      ensures State() == LockTable.Release(old(State()), t, k)
      ensures readyTxns.items == old(readyTxns.items) + Woken(old(State()), t, k)
    {
      if exclusiveOnly {
        a.Release(t, k);
      } else {
        b.Release(t, k);
      }
    }
  }
}
