/**
 What optimistic concurrency control with parallel validation promises: always,
 when a transaction publishes its commit before it leaves the active set, and in
 every quiet run when it publishes afterwards.
 */
module ParallelOccTheorems {
  import opened Txns
  import opened ParallelOcc

  // The database after the valid attempts among the first n entries ran serially.
  function SerialAt(s: State, n: nat): Db
    requires Sized(s) && n <= |s.entries|
  {
    OrderInRange(s, n);
    Serial(Pick(s.txns, Order(s.entries, n)), |Order(s.entries, n)|, s.db0)
  }

  lemma {:induction false} OrderInRange(s: State, n: nat)
    requires Sized(s) && n <= |s.entries|
    ensures forall r :: 0 <= r < |Order(s.entries, n)| ==> Order(s.entries, n)[r] < |s.txns|
  {
    if n == 0 {
    } else {
      OrderInRange(s, n - 1);
    }
  }

  lemma OrderStep(s: State, n: nat)
    requires Sized(s) && n < |s.entries|
    ensures SerialAt(s, n + 1) ==
      if Validated(s.entries[n].status) then SerialStep(s.txns[s.entries[n].txn], SerialAt(s, n)) else SerialAt(s, n)
  {
    OrderInRange(s, n);
    OrderInRange(s, n + 1);
    if Validated(s.entries[n].status) {
      SerialAppend(s.txns, Order(s.entries, n), s.entries[n].txn, s.db0);
    } else {
      assert Order(s.entries, n + 1) == Order(s.entries, n);
    }
  }

  // Counting the recorded writes and running the transactions again give the
  // same database, since what was read is what is read again.
  lemma {:induction false} RecordedIsSerial(s: State, n: nat)
    requires Inv(s) && n <= |s.entries|
    ensures DbAt(s.db0, s.entries, n) == SerialAt(s, n)
  {
    if n == 0 {
    } else {
      RecordedIsSerial(s, n - 1);
      OrderStep(s, n - 1);
      if Validated(s.entries[n - 1].status) {
        ValidatedSerially(s, n - 1);
      }
    }
  }

  lemma ValidatedSerially(s: State, e: nat)
    requires Inv(s) && e < |s.entries| && Validated(s.entries[e].status)
    ensures var entry := s.entries[e];
      && entry.got == ReadsOf(s.txns[entry.txn], DbAt(s.db0, s.entries, e))
      && entry.out == Exec(s.txns[entry.txn], DbAt(s.db0, s.entries, e))
      && (entry.out.commit <==> Counts(entry.status))
  {
    assert EntryOk(s, e) && EntryReads(s, e);
    ReadsAgree(s.txns[s.entries[e].txn], s.entries[e].got, DbAt(s.db0, s.entries, e));
  }

  lemma Safe(publishFirst: bool, db: Db, steps: seq<Step>)
    requires publishFirst || QuietRun(Init(publishFirst, db), steps)
    ensures Inv(Run(publishFirst, db, steps))
  {
    if publishFirst {
      AlwaysQuiet(Init(publishFirst, db), steps);
    }
    Reachable(publishFirst, db, steps);
  }

  // Serializability: every valid attempt has read and decided what it would if
  // the valid attempts ran one after the other in the order in which they
  // entered the active set, though several validate and write at once.
  lemma Serializable(publishFirst: bool, db: Db, steps: seq<Step>, e: nat)
    requires publishFirst || QuietRun(Init(publishFirst, db), steps)
    requires e < |Run(publishFirst, db, steps).entries| && Validated(Run(publishFirst, db, steps).entries[e].status)
    ensures var s := Run(publishFirst, db, steps);
      && s.entries[e].got == ReadsOf(s.txns[s.entries[e].txn], SerialAt(s, e))
      && s.entries[e].out == Exec(s.txns[s.entries[e].txn], SerialAt(s, e))
  {
    Safe(publishFirst, db, steps);
    RecordedIsSerial(Run(publishFirst, db, steps), e);
    ValidatedSerially(Run(publishFirst, db, steps), e);
  }

  predicate NothingApplying(s: State) {
    forall e :: 0 <= e < |s.entries| ==> !s.entries[e].status.Applying?
  }

  // Whenever no one is in the middle of its writes, storage is the serial one.
  lemma StorageSerial(publishFirst: bool, db: Db, steps: seq<Step>)
    requires publishFirst || QuietRun(Init(publishFirst, db), steps)
    requires NothingApplying(Run(publishFirst, db, steps))
    ensures var s := Run(publishFirst, db, steps); s.db == SerialAt(s, |s.entries|)
  {
    var s := Run(publishFirst, db, steps);
    Safe(publishFirst, db, steps);
    RecordedIsSerial(s, |s.entries|);
    forall k ensures Get(s.db, k) == Get(SerialAt(s, |s.entries|), k) {
      SoFarAgrees(s.db0, s.entries, |s.entries|, k);
    }
    SameDb(s.db, SerialAt(s, |s.entries|));
  }

  lemma OneEntry(s: State, d: nat, e: nat)
    requires Inv(s) && d < |s.entries| && e < |s.entries| && s.entries[d].txn == s.entries[e].txn
    requires Validated(s.entries[d].status) && Validated(s.entries[e].status)
    ensures d == e
  {
    assert EntryOk(s, d) && EntryOk(s, e);
  }

  // Each transaction has at most one place in the serial order.
  lemma {:induction false} OrderDistinct(s: State, n: nat)
    requires Inv(s) && n <= |s.entries|
    ensures Distinct(Order(s.entries, n))
    ensures forall i :: i in Order(s.entries, n) ==>
      exists e :: 0 <= e < n && s.entries[e].txn == i && Validated(s.entries[e].status)
  {
    if n == 0 {
    } else {
      OrderDistinct(s, n - 1);
      if Validated(s.entries[n - 1].status) {
        var i := s.entries[n - 1].txn;
        if i in Order(s.entries, n - 1) {
          var e :| 0 <= e < n - 1 && s.entries[e].txn == i && Validated(s.entries[e].status);
          OneEntry(s, e, n - 1);
        } else {
          PushBack(Order(s.entries, n - 1), i);
        }
      }
    }
  }

  predicate AllReturned(s: State) {
    forall i :: 0 <= i < |s.phases| ==> s.phases[i].Returned?
  }

  // Storage is what some serial run of all the transactions leaves.
  ghost predicate SomeSerialOrder(s: State) {
    exists ids: seq<TxnId> :: SerialOrder(s, ids)
  }

  ghost predicate SerialOrder(s: State, ids: seq<TxnId>) {
    && Distinct(ids)
    && (forall r :: 0 <= r < |ids| ==> ids[r] < |s.txns|)
    && (forall i :: 0 <= i < |s.txns| ==> i in ids)
    && s.db == Serial(Pick(s.txns, ids), |ids|, s.db0)
  }

  lemma {:induction false} InOrder(s: State, n: nat, e: nat)
    requires e < n <= |s.entries| && Validated(s.entries[e].status)
    ensures s.entries[e].txn in Order(s.entries, n)
  {
    if e == n - 1 {
    } else {
      InOrder(s, n - 1, e);
    }
  }

  // Once all transactions have returned, the serial order is one of all of them.
  lemma DrainedSerial(publishFirst: bool, db: Db, steps: seq<Step>)
    requires publishFirst || QuietRun(Init(publishFirst, db), steps)
    requires AllReturned(Run(publishFirst, db, steps))
    ensures var s := Run(publishFirst, db, steps);
      SerialOrder(s, Order(s.entries, |s.entries|))
  {
    var s := Run(publishFirst, db, steps);
    var ids := Order(s.entries, |s.entries|);
    Safe(publishFirst, db, steps);
    OrderDistinct(s, |s.entries|);
    OrderInRange(s, |s.entries|);
    forall i | 0 <= i < |s.txns| ensures i in ids {
      assert PhaseOk(s, i);
      InOrder(s, |s.entries|, s.phases[i].entry);
    }
    forall e | 0 <= e < |s.entries| ensures !s.entries[e].status.Applying? {
      assert EntryOk(s, e);
    }
    StorageSerial(publishFirst, db, steps);
  }

  lemma ParallelOccLosesNoUpdate(publishFirst: bool, db: Db, steps: seq<Step>, kinds: seq<Kind>)
    requires publishFirst || QuietRun(Init(publishFirst, db), steps)
    requires RmwWorkload(Run(publishFirst, db, steps).txns, kinds) && AllReturned(Run(publishFirst, db, steps))
    ensures Counted(Run(publishFirst, db, steps).txns, db, Run(publishFirst, db, steps).db)
  {
    var s := Run(publishFirst, db, steps);
    DrainedSerial(publishFirst, db, steps);
    NoLostUpdatesInAnyOrder(s.txns, kinds, Order(s.entries, |s.entries|), db);
  }
}
