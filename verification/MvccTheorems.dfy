/**
 What multiversion timestamp ordering promises over initialised keys, with or
 without the snapshot variant's check of reads: the serial run in timestamp order.
 */
module MvccTheorems {
  import opened Txns
  import opened Versions
  import opened Mvcc
  import opened MvccInvariant

  // Attempts that have passed all their checks.
  predicate Validated(stage: Stage) {
    Counts(stage) || stage.Aborting? || stage.Aborted?
  }

  function Logics(s: State): seq<Logic>
    requires forall i :: 0 <= i < |s.current| ==> s.current[i] < |s.attempts|
  {
    seq(|s.current|, i requires 0 <= i < |s.current| => s.attempts[s.current[i]].logic)
  }

  // The transactions of the validated ones among the first n attempts, in
  // timestamp order.
  function Order(ats: seq<Attempt>, n: nat): seq<TxnId>
    requires n <= |ats|
  {
    if n == 0 then []
    else Order(ats, n - 1) + if Validated(ats[n - 1].stage) then [ats[n - 1].txn] else []
  }

  ghost predicate Known(s: State) {
    && (forall i :: 0 <= i < |s.current| ==> s.current[i] < |s.attempts|)
    && (forall a :: 0 <= a < |s.attempts| ==> s.attempts[a].txn < |s.current|)
  }

  lemma {:induction false} OrderInRange(s: State, n: nat)
    requires Known(s) && n <= |s.attempts|
    ensures forall r :: 0 <= r < |Order(s.attempts, n)| ==> Order(s.attempts, n)[r] < |s.current|
  {
    if n == 0 {
    } else {
      OrderInRange(s, n - 1);
    }
  }

  // The database after those transactions ran one after the other.
  ghost function SerialAt(s: State, n: nat): Db
    requires Known(s) && n <= |s.attempts|
  {
    OrderInRange(s, n);
    Serial(Pick(Logics(s), Order(s.attempts, n)), |Order(s.attempts, n)|, s.db0)
  }

  lemma OrderStep(s: State, n: nat)
    requires Known(s) && CurrentOk(s) && n < |s.attempts|
    ensures SerialAt(s, n + 1) ==
      if Validated(s.attempts[n].stage) then SerialStep(s.attempts[n].logic, SerialAt(s, n)) else SerialAt(s, n)
  {
    OrderInRange(s, n);
    OrderInRange(s, n + 1);
    if Validated(s.attempts[n].stage) {
      assert Logics(s)[s.attempts[n].txn] == s.attempts[n].logic;
      SerialAppend(Logics(s), Order(s.attempts, n), s.attempts[n].txn, s.db0);
    } else {
      assert Order(s.attempts, n + 1) == Order(s.attempts, n);
    }
  }

  lemma KnownInv(s: State)
    requires Inv(s)
    ensures Known(s)
  {
    forall a | 0 <= a < |s.attempts| ensures s.attempts[a].txn < |s.current| {
      assert AttemptOk(s, s.attempts[a]);
    }
  }

  // An attempt that has read everything has read what the database of all
  // smaller timestamps would show it.
  lemma ReadsSerially(s: State, a: nat, db: Db)
    requires Inv(s) && a < |s.attempts| && HasRun(s.attempts[a].stage)
    requires forall k :: Get(db, k) == Val(s.db0, s.attempts, k, a)
    ensures s.attempts[a].got == ReadsOf(s.attempts[a].logic, db)
    ensures s.attempts[a].out == Exec(s.attempts[a].logic, db)
  {
    assert AttemptOk(s, s.attempts[a]);
    forall k | k in s.attempts[a].logic.Keys() ensures Get(s.attempts[a].got, k) == Get(db, k) {
      assert ReadOk(s, a, k);
    }
    ReadsAgree(s.attempts[a].logic, s.attempts[a].got, db);
  }

  // Counting the writes of validated attempts and running them again give the
  // same values.
  lemma {:induction false} ValIsSerial(s: State, n: nat)
    requires Inv(s) && Known(s) && n <= |s.attempts|
    ensures var db := SerialAt(s, n); forall k :: Get(db, k) == Val(s.db0, s.attempts, k, n)
  {
    if n == 0 {
      assert Order(s.attempts, 0) == [];
    } else {
      ValIsSerial(s, n - 1);
      SerialNext(s, n - 1);
    }
  }

  lemma SerialNext(s: State, a: nat)
    requires Inv(s) && Known(s) && a < |s.attempts|
    requires var db := SerialAt(s, a); forall k :: Get(db, k) == Val(s.db0, s.attempts, k, a)
    ensures var db := SerialAt(s, a + 1); forall k :: Get(db, k) == Val(s.db0, s.attempts, k, a + 1)
  {
    ValNext(s, a, SerialAt(s, a));
    OrderStep(s, a);
  }

  // One attempt more.
  lemma ValNext(s: State, a: nat, db: Db)
    requires Inv(s) && a < |s.attempts| && forall k :: Get(db, k) == Val(s.db0, s.attempts, k, a)
    ensures var at := s.attempts[a];
      var db' := if Validated(at.stage) then SerialStep(at.logic, db) else db;
      forall k :: Get(db', k) == Val(s.db0, s.attempts, k, a + 1)
  {
    var at := s.attempts[a];
    assert AttemptOk(s, at);
    if Validated(at.stage) {
      ReadsSerially(s, a, db);
    }
  }

  // Serializability in timestamp order. At every moment of every schedule, every
  // attempt that has run, even one that will not commit, has read and decided
  // what it would after the validated attempts with smaller timestamps, run one
  // after the other.
  lemma Serializable(ssi: bool, keys: set<Key>, db: Db, steps: seq<Step>, a: nat)
    requires keys <= db.Keys
    requires a < |Run(ssi, keys, db, steps).attempts| && HasRun(Run(ssi, keys, db, steps).attempts[a].stage)
    ensures var s := Run(ssi, keys, db, steps);
      && Known(s)
      && s.attempts[a].got == ReadsOf(s.attempts[a].logic, SerialAt(s, a))
      && s.attempts[a].out == Exec(s.attempts[a].logic, SerialAt(s, a))
  {
    var s := Run(ssi, keys, db, steps);
    Reachable(ssi, keys, db, steps);
    KnownInv(s);
    ValIsSerial(s, a);
    ReadsSerially(s, a, SerialAt(s, a));
  }

  predicate NothingApplying(s: State) {
    forall a :: 0 <= a < |s.attempts| ==> !s.attempts[a].stage.Applying?
  }

  // The versions at or below n hold the value that the first n attempts amount to.
  lemma SnapshotIsVal(s: State, k: Key, n: nat)
    requires Inv(s) && NothingApplying(s) && n <= |s.attempts|
    ensures ReadAt(VersionsAt(s, k), n) == Val(s.db0, s.attempts, k, n)
  {
    var vs := VersionsAt(s, k);
    assert VersionsOk(s, k);
    var p := Find(vs, n);
    var from := if p < |vs| then vs[p].id else 0;
    forall d | from <= d < n ensures !WritesTo(s.attempts[d], k) {
      if WritesTo(s.attempts[d], k) {
        SnapshotCovers(s, k, n, d);
      }
    }
    if p < |vs| {
      Listed(s, k, p);
      assert IsVersion(s, k, from, vs[p].value);
    } else {
      NoInitial(s, k, n);
    }
    ValSkips(s.db0, s.attempts, k, from, n);
  }

  lemma SnapshotCovers(s: State, k: Key, n: nat, d: nat)
    requires VersionsOk(s, k) && d < n <= |s.attempts| && Landed(s.attempts[d], k)
    ensures LatestAt(VersionsAt(s, k), n).Some? && d + 1 <= LatestAt(VersionsAt(s, k), n).value.id
  {
    assert IsVersion(s, k, d + 1, s.attempts[d].out.writes[k]);
    FoundAbove(VersionsAt(s, k), n, d + 1, s.attempts[d].out.writes[k]);
  }

  lemma NoInitial(s: State, k: Key, n: nat)
    requires VersionsOk(s, k) && LatestAt(VersionsAt(s, k), n).None?
    ensures k !in s.db0
  {
    if k in s.db0 {
      assert IsVersion(s, k, 0, s.db0[k]);
    }
  }

  // Storage keeps every past: while no one is in the middle of its writes, the
  // versions at or below any timestamp n are the database of the serial run of
  // the validated attempts up to n.
  lemma EverySnapshotIsSerial(ssi: bool, keys: set<Key>, db: Db, steps: seq<Step>, n: nat, k: Key)
    requires keys <= db.Keys
    requires NothingApplying(Run(ssi, keys, db, steps)) && n <= |Run(ssi, keys, db, steps).attempts|
    ensures var s := Run(ssi, keys, db, steps);
      Known(s) && ReadAt(VersionsAt(s, k), n) == Get(SerialAt(s, n), k)
  {
    var s := Run(ssi, keys, db, steps);
    Reachable(ssi, keys, db, steps);
    KnownInv(s);
    ValIsSerial(s, n);
    SnapshotIsVal(s, k, n);
  }

  /******* Drained schedules *******/

  // Every transaction has committed or aborted.
  predicate AllReturned(s: State) {
    forall i :: 0 <= i < |s.current| ==> s.current[i] < |s.attempts| && Ended(s.attempts[s.current[i]].stage)
  }

  predicate Ended(stage: Stage) {
    stage.Committed? || stage.Aborted?
  }

  // The newest version of every key.
  function Newest(s: State): Db {
    map k | k in s.data && s.data[k] != [] :: s.data[k][0].value
  }

  // The newest versions are what some serial run of all the transactions leaves.
  ghost predicate SomeSerialOrder(s: State) {
    exists ids: seq<TxnId> :: SerialOrder(s, ids)
  }

  ghost predicate SerialOrder(s: State, ids: seq<TxnId>) {
    && (forall i :: 0 <= i < |s.current| ==> s.current[i] < |s.attempts|)
    && Distinct(ids)
    && (forall r :: 0 <= r < |ids| ==> ids[r] < |s.current|)
    && (forall i :: 0 <= i < |s.current| ==> i in ids)
    && Newest(s) == Serial(Pick(Logics(s), ids), |ids|, s.db0)
  }

  // Each transaction has at most one place in the serial order.
  lemma {:induction false} OrderDistinct(s: State, n: nat)
    requires CurrentOk(s) && n <= |s.attempts|
    ensures Distinct(Order(s.attempts, n))
    ensures forall i :: i in Order(s.attempts, n) ==> i < |s.current| && s.current[i] < n
  {
    if n == 0 {
    } else {
      OrderDistinct(s, n - 1);
      if Validated(s.attempts[n - 1].stage) {
        var ids, i := Order(s.attempts, n - 1), s.attempts[n - 1].txn;
        assert i !in ids;
        assert forall r :: 0 <= r < |ids| ==> ids[r] in ids;
      }
    }
  }

  lemma {:induction false} InOrder(s: State, n: nat, a: nat)
    requires a < n <= |s.attempts| && Validated(s.attempts[a].stage)
    ensures s.attempts[a].txn in Order(s.attempts, n)
  {
    if a == n - 1 {
    } else {
      InOrder(s, n - 1, a);
    }
  }

  lemma NewestIsLast(s: State, k: Key)
    requires VersionsOk(s, k)
    ensures Get(Newest(s), k) == ReadAt(VersionsAt(s, k), |s.attempts|)
  {
    var vs := VersionsAt(s, k);
    if vs != [] {
      Listed(s, k, 0);
      FindUnique(vs, |s.attempts|, 0);
    }
  }

  lemma ReturnedNotApplying(s: State)
    requires CurrentOk(s) && AllReturned(s)
    ensures NothingApplying(s)
  {
    forall a | 0 <= a < |s.attempts| ensures !s.attempts[a].stage.Applying? {
      if !s.attempts[a].stage.Restarted? {
        assert s.current[s.attempts[a].txn] == a;
      }
    }
  }

  // Once all transactions have returned, timestamp order is a serial order of
  // all of them that explains the newest versions.
  lemma DrainedSerial(ssi: bool, keys: set<Key>, db: Db, steps: seq<Step>)
    requires keys <= db.Keys && AllReturned(Run(ssi, keys, db, steps))
    ensures var s := Run(ssi, keys, db, steps);
      SerialOrder(s, Order(s.attempts, |s.attempts|))
  {
    var s := Run(ssi, keys, db, steps);
    var n := |s.attempts|;
    Reachable(ssi, keys, db, steps);
    KnownInv(s);
    OrderDistinct(s, n);
    OrderInRange(s, n);
    ReturnedNotApplying(s);
    forall i | 0 <= i < |s.current| ensures i in Order(s.attempts, n) {
      InOrder(s, n, s.current[i]);
    }
    forall k ensures Get(Newest(s), k) == Get(SerialAt(s, n), k) {
      assert VersionsOk(s, k);
      NewestIsLast(s, k);
      SnapshotIsVal(s, k, n);
      ValIsSerial(s, n);
    }
    SameDb(Newest(s), SerialAt(s, n));
  }

  lemma MvccLosesNoUpdate(ssi: bool, keys: set<Key>, db: Db, steps: seq<Step>, kinds: seq<Kind>)
    requires keys <= db.Keys && AllReturned(Run(ssi, keys, db, steps))
    requires RmwWorkload(Logics(Run(ssi, keys, db, steps)), kinds)
    ensures var s := Run(ssi, keys, db, steps); Counted(Logics(s), db, Newest(s))
  {
    var s := Run(ssi, keys, db, steps);
    DrainedSerial(ssi, keys, db, steps);
    NoLostUpdatesInAnyOrder(Logics(s), kinds, Order(s.attempts, |s.attempts|), db);
  }

  /******* Mutexes *******/

  ghost predicate IsMin(keys: set<Key>, k: Key) {
    k in keys && forall m :: m in keys ==> k <= m
  }

  ghost function Min(keys: set<Key>): (k: Key)
    requires keys != {}
    ensures IsMin(keys, k)
  {
    MinExists(keys);
    var k :| IsMin(keys, k);
    k
  }

  lemma {:induction false} MinExists(keys: set<Key>)
    requires keys != {}
    ensures exists k :: IsMin(keys, k)
    decreases |keys|
  {
    var x :| x in keys;
    if keys == {x} {
      assert IsMin(keys, x);
    } else {
      var rest := keys - {x};
      MinExists(rest);
      var k :| IsMin(rest, k);
      forall m | m in keys ensures (if k < x then k else x) <= m {
        assert m == x || m in rest;
      }
      assert IsMin(keys, if k < x then k else x);
    }
  }

  // Attempt a waits for a mutex that b holds: the next one in key order.
  ghost predicate WaitsFor(s: State, a: nat, b: nat) {
    && a < |s.attempts| && b < |s.attempts| && s.attempts[a].stage.Locking? && s.attempts[a].todo != {}
    && Min(s.attempts[a].todo) in s.locks && s.locks[Min(s.attempts[a].todo)] == b
  }

  // Whoever is waited for and waits itself waits for a larger key.
  lemma WaitsRise(s: State, a: nat, b: nat)
    requires Inv(s) && WaitsFor(s, a, b) && s.attempts[b].stage.Locking? && s.attempts[b].todo != {}
    ensures Min(s.attempts[a].todo) < Min(s.attempts[b].todo)
  {
    assert AttemptOk(s, s.attempts[b]);
    var k := Min(s.attempts[a].todo);
    assert k in Held(s, s.attempts[b]);
  }

  lemma {:induction false} ChainRises(s: State, chain: seq<nat>, n: nat)
    requires Inv(s) && 0 < n < |chain|
    requires forall i :: 0 <= i < |chain| - 1 ==> WaitsFor(s, chain[i], chain[i + 1])
    requires chain[n] < |s.attempts| && s.attempts[chain[n]].stage.Locking? && s.attempts[chain[n]].todo != {}
    ensures WaitsFor(s, chain[0], chain[1]) && Min(s.attempts[chain[0]].todo) < Min(s.attempts[chain[n]].todo)
  {
    assert WaitsFor(s, chain[n - 1], chain[n - 1 + 1]);
    WaitsRise(s, chain[n - 1], chain[n]);
    if n > 1 {
      ChainRises(s, chain, n - 1);
    }
  }

  // No circular wait: taking mutexes in ascending order rules out any chain of
  // waiting attempts that comes back to where it began.
  lemma NoCircularWait(ssi: bool, keys: set<Key>, db: Db, steps: seq<Step>, chain: seq<nat>)
    requires keys <= db.Keys && |chain| > 1
    requires forall i :: 0 <= i < |chain| - 1 ==> WaitsFor(Run(ssi, keys, db, steps), chain[i], chain[i + 1])
    ensures chain[0] != chain[|chain| - 1]
  {
    var s := Run(ssi, keys, db, steps);
    Reachable(ssi, keys, db, steps);
    assert WaitsFor(s, chain[0], chain[0 + 1]);
    if chain[0] == chain[|chain| - 1] {
      ChainRises(s, chain, |chain| - 1);
    }
  }

  // Whatever the verdict, an attempt gives back exactly the mutexes it took: a
  // mutex is taken when an attempt has it, and by that one only, and an attempt
  // that has ended has none.
  lemma MutexesGivenBack(ssi: bool, keys: set<Key>, db: Db, steps: seq<Step>)
    requires keys <= db.Keys
    ensures var s := Run(ssi, keys, db, steps);
      && (forall k :: k in s.locks ==> s.locks[k] < |s.attempts|)
      && (forall a, k :: 0 <= a < |s.attempts| ==>
            (k in Held(s, s.attempts[a]) <==> k in s.locks && s.locks[k] == a))
      && (forall a :: 0 <= a < |s.attempts| && (Ended(s.attempts[a].stage) || s.attempts[a].stage.Restarted?) ==>
            Held(s, s.attempts[a]) == {})
      && (AllReturned(s) ==> s.locks == map[])
  {
    var s := Run(ssi, keys, db, steps);
    Reachable(ssi, keys, db, steps);
    LockedIsHeld(s);
    if AllReturned(s) {
      NoneHeld(s);
    }
  }

  lemma LockedIsHeld(s: State)
    requires LocksOk(s)
    ensures forall k :: k in s.locks ==> exists a :: 0 <= a < |s.attempts| && k in Held(s, s.attempts[a])
  {
    forall k | k in s.locks ensures exists a :: 0 <= a < |s.attempts| && k in Held(s, s.attempts[a]) {
      assert k in Held(s, s.attempts[s.locks[k]]);
    }
  }

  lemma NoneHeld(s: State)
    requires CurrentOk(s) && AllReturned(s)
    requires forall k :: k in s.locks ==> exists a :: 0 <= a < |s.attempts| && k in Held(s, s.attempts[a])
    ensures s.locks == map[]
  {
    forall a | 0 <= a < |s.attempts| ensures Held(s, s.attempts[a]) == {} {
      if !s.attempts[a].stage.Restarted? {
        assert s.current[s.attempts[a].txn] == a;
      }
    }
  }
}
