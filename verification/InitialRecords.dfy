/**
 Why multiversion storage starts with a version of every record: a key that has
 a mutex but no initial version keeps no mark of who found it missing, and two
 increments of it can both start from nothing. Hence the exact condition under
 which multiversion timestamp ordering keeps its promise.
 */
module InitialRecords {
  import opened Txns
  import opened Versions
  import opened Mvcc
  import opened MvccTheorems
  import opened MvccStorage

  // An increment that has found nothing starts from zero.
  function One(k: Key): Outcome {
    Outcome(true, map[k := 1])
  }

  function BothRead(k: Key): seq<Step> {
    [Submit(Increment(k)), Submit(Increment(k)), Assign, Assign, ReadKey(0, k), ReadKey(1, k)]
  }

  // From the end of its reads on, one attempt runs alone.
  function LockAndCheck(a: nat, k: Key): seq<Step> {
    [Advance(a), LockKey(a, k), Advance(a), CheckKey(a, k)]
  }

  function WriteAndUnlock(a: nat, k: Key): seq<Step> {
    [Advance(a), WriteKey(a, k)] + [Advance(a), UnlockKey(a, k), Advance(a)]
  }

  function LostUpdate(k: Key): seq<Step> {
    BothRead(k) + LockAndCheck(0, k) + WriteAndUnlock(0, k) + LockAndCheck(1, k) + WriteAndUnlock(1, k)
  }

  function Increasing(i: TxnId, k: Key, stage: Stage, todo: set<Key>): Attempt {
    Attempt(i, Increment(k), stage, todo, map[], if HasRun(stage) then One(k) else NOTHING)
  }

  // s with attempt a, an increment of k, at the given stage.
  function At(s: State, a: nat, k: Key, stage: Stage, todo: set<Key>, locked: bool): State
    requires a < |s.attempts|
  {
    s.(attempts := s.attempts[a := Increasing(a, k, stage, todo)], locks := if locked then map[k := a] else map[])
  }

  ghost predicate Alone(s: State, a: nat, k: Key) {
    && a < |s.attempts| && a < |s.current| && s.locks == map[] && k in s.keys
    && s.attempts[a] == Increasing(a, k, Reading, {}) && Passes(VersionsAt(s, k), a + 1)
  }

  lemma Locks(s: State, a: nat, k: Key)
    requires Alone(s, a, k)
    ensures Do(s, Advance(a)) == At(s, a, k, Locking, {k}, false)
    ensures Do(At(s, a, k, Locking, {k}, false), LockKey(a, k)) == At(s, a, k, Locking, {}, true)
  {
    IncrementRuns(k, map[]);
    assert {k} - {k} == {};
    var s1, s2 := At(s, a, k, Locking, {k}, false), At(s, a, k, Locking, {}, true);
    assert s1.attempts[a := s2.attempts[a]] == s2.attempts;
  }

  lemma Checks(s: State, a: nat, k: Key)
    requires Alone(s, a, k)
    ensures Do(At(s, a, k, Locking, {}, true), Advance(a)) == At(s, a, k, Checking, {k}, true)
    ensures Do(At(s, a, k, Checking, {k}, true), CheckKey(a, k)) == At(s, a, k, Checking, {}, true)
  {
    IncrementRuns(k, map[]);
    assert {k} - {k} == {};
    var s2, s3, s4 := At(s, a, k, Locking, {}, true), At(s, a, k, Checking, {k}, true), At(s, a, k, Checking, {}, true);
    assert s2.attempts[a := s3.attempts[a]] == s3.attempts;
    assert s3.attempts[a := s4.attempts[a]] == s4.attempts;
    assert VersionsAt(s3, k) == VersionsAt(s, k);
  }

  lemma LocksAndChecks(s: State, a: nat, k: Key)
    requires Alone(s, a, k)
    ensures RunFrom(s, LockAndCheck(a, k)) == At(s, a, k, Checking, {}, true)
  {
    Locks(s, a, k);
    Checks(s, a, k);
    RunVia([s, At(s, a, k, Locking, {k}, false), At(s, a, k, Locking, {}, true), At(s, a, k, Checking, {k}, true),
            At(s, a, k, Checking, {}, true)], LockAndCheck(a, k), 4);
    assert LockAndCheck(a, k)[..4] == LockAndCheck(a, k);
  }

  // s with the increment of attempt a written.
  function WithWrite(s: State, a: nat, k: Key): State {
    s.(data := s.data[k := Insert(VersionsAt(s, k), 1, a + 1)])
  }

  lemma Writes(s: State, a: nat, k: Key)
    requires Alone(s, a, k)
    ensures Do(At(s, a, k, Checking, {}, true), Advance(a)) == At(s, a, k, Applying, {k}, true)
    ensures Do(At(s, a, k, Applying, {k}, true), WriteKey(a, k)) == At(WithWrite(s, a, k), a, k, Applying, {}, true)
  {
    IncrementRuns(k, map[]);
    assert {k} - {k} == {} && One(k).writes.Keys == {k};
    var s4, s5 := At(s, a, k, Checking, {}, true), At(s, a, k, Applying, {k}, true);
    var s6 := At(s, a, k, Applying, {}, true);
    assert s4.attempts[a := s5.attempts[a]] == s5.attempts;
    assert s5.attempts[a := s6.attempts[a]] == s6.attempts;
    assert VersionsAt(s5, k) == VersionsAt(s, k);
  }

  lemma Unlocks(s: State, a: nat, k: Key)
    requires a < |s.attempts| && a < |s.current|
    ensures Do(At(s, a, k, Applying, {}, true), Advance(a)) == At(s, a, k, Committing, {k}, true)
    ensures Do(At(s, a, k, Committing, {k}, true), UnlockKey(a, k)) == At(s, a, k, Committing, {}, false)
    ensures Do(At(s, a, k, Committing, {}, false), Advance(a)) == At(s, a, k, Committed, {}, false)
  {
    IncrementRuns(k, map[]);
    assert {k} - {k} == {} && map[k := a] - {k} == map[];
    var s6, s7 := At(s, a, k, Applying, {}, true), At(s, a, k, Committing, {k}, true);
    var s8, s9 := At(s, a, k, Committing, {}, false), At(s, a, k, Committed, {}, false);
    assert s6.attempts[a := s7.attempts[a]] == s7.attempts;
    assert s7.attempts[a := s8.attempts[a]] == s8.attempts;
    assert s8.attempts[a := s9.attempts[a]] == s9.attempts;
  }

  lemma RunsWrites(s: State, a: nat, k: Key)
    requires Alone(s, a, k)
    ensures RunFrom(At(s, a, k, Checking, {}, true), [Advance(a), WriteKey(a, k)])
         == At(WithWrite(s, a, k), a, k, Applying, {}, true)
  {
    var s4, s5, s6 := At(s, a, k, Checking, {}, true), At(s, a, k, Applying, {k}, true),
                      At(WithWrite(s, a, k), a, k, Applying, {}, true);
    Writes(s, a, k);
    RunOn(s4, [], Advance(a), s4, s5);
    assert [] + [Advance(a)] == [Advance(a)];
    RunOn(s4, [Advance(a)], WriteKey(a, k), s5, s6);
    assert [Advance(a)] + [WriteKey(a, k)] == [Advance(a), WriteKey(a, k)];
  }

  lemma RunsUnlocks(s: State, a: nat, k: Key)
    requires a < |s.attempts| && a < |s.current|
    ensures RunFrom(At(s, a, k, Applying, {}, true), [Advance(a), UnlockKey(a, k), Advance(a)])
         == At(s, a, k, Committed, {}, false)
  {
    var steps := [Advance(a), UnlockKey(a, k), Advance(a)];
    Unlocks(s, a, k);
    RunVia([At(s, a, k, Applying, {}, true), At(s, a, k, Committing, {k}, true),
            At(s, a, k, Committing, {}, false), At(s, a, k, Committed, {}, false)], steps, 3);
    assert steps[..3] == steps;
  }

  lemma WritesAndUnlocks(s: State, a: nat, k: Key)
    requires Alone(s, a, k)
    ensures RunFrom(At(s, a, k, Checking, {}, true), WriteAndUnlock(a, k))
         == At(WithWrite(s, a, k), a, k, Committed, {}, false)
  {
    RunsWrites(s, a, k);
    RunsUnlocks(WithWrite(s, a, k), a, k);
    RunConcat(At(s, a, k, Checking, {}, true), [Advance(a), WriteKey(a, k)], [Advance(a), UnlockKey(a, k), Advance(a)]);
  }

  lemma Finishes(s: State, a: nat, k: Key)
    requires Alone(s, a, k)
    ensures RunFrom(RunFrom(s, LockAndCheck(a, k)), WriteAndUnlock(a, k))
         == At(WithWrite(s, a, k), a, k, Committed, {}, false)
  {
    LocksAndChecks(s, a, k);
    WritesAndUnlocks(s, a, k);
  }

  // Two increments of k at given stages; nothing else has happened.
  function Both(ssi: bool, keys: set<Key>, db: Db, k: Key, first: Attempt, second: Attempt, requests: seq<nat>): State {
    Init(ssi, keys, db).(current := [0, 1], attempts := [first, second], requests := requests)
  }

  // The list of k is empty once it has been looked at.
  function AfterReads(ssi: bool, keys: set<Key>, db: Db, k: Key): State {
    var s := Both(ssi, keys, db, k, Increasing(0, k, Reading, {}), Increasing(1, k, Reading, {}), []);
    s.(data := s.data[k := []])
  }

  lemma Submits(ssi: bool, keys: set<Key>, db: Db, k: Key)
    ensures Do(Do(Init(ssi, keys, db), Submit(Increment(k))), Submit(Increment(k)))
         == Both(ssi, keys, db, k, Increasing(0, k, Requested, {}), Increasing(1, k, Requested, {}), [0, 1])
  {
  }

  lemma Assigns(ssi: bool, keys: set<Key>, db: Db, k: Key)
    ensures
      var s := Both(ssi, keys, db, k, Increasing(0, k, Requested, {}), Increasing(1, k, Requested, {}), [0, 1]);
      && Do(s, Assign) == Both(ssi, keys, db, k, Increasing(0, k, Reading, {k}), Increasing(1, k, Requested, {}), [1])
      && Do(Do(s, Assign), Assign)
         == Both(ssi, keys, db, k, Increasing(0, k, Reading, {k}), Increasing(1, k, Reading, {k}), [])
  {
    IncrementRuns(k, map[]);
    assert [0, 1][1..] == [1] && [1][1..] == [];
  }

  lemma Reads(ssi: bool, keys: set<Key>, db: Db, k: Key)
    requires k in keys && k !in db
    ensures var s := Both(ssi, keys, db, k, Increasing(0, k, Reading, {k}), Increasing(1, k, Reading, {k}), []);
      Do(Do(s, ReadKey(0, k)), ReadKey(1, k)) == AfterReads(ssi, keys, db, k)
  {
    assert {k} - {k} == {};
    var s := Both(ssi, keys, db, k, Increasing(0, k, Reading, {k}), Increasing(1, k, Reading, {k}), []);
    var s1 := AfterReadKey(s, 0, k);
    assert s1.attempts == [Increasing(0, k, Reading, {}), Increasing(1, k, Reading, {k})];
    assert s1.data == s.data[k := []];
    var s2 := AfterReadKey(s1, 1, k);
    assert s2.attempts == AfterReads(ssi, keys, db, k).attempts;
    assert s2.data == s.data[k := []];
  }

  lemma BothHaveRead(ssi: bool, keys: set<Key>, db: Db, k: Key)
    requires k in keys && k !in db
    ensures Run(ssi, keys, db, BothRead(k)) == AfterReads(ssi, keys, db, k)
  {
    var s0 := Init(ssi, keys, db);
    var s1 := AfterSubmit(s0, Increment(k));
    var s2 := Both(ssi, keys, db, k, Increasing(0, k, Requested, {}), Increasing(1, k, Requested, {}), [0, 1]);
    var s3 := Both(ssi, keys, db, k, Increasing(0, k, Reading, {k}), Increasing(1, k, Requested, {}), [1]);
    var s4 := Both(ssi, keys, db, k, Increasing(0, k, Reading, {k}), Increasing(1, k, Reading, {k}), []);
    Submits(ssi, keys, db, k);
    Assigns(ssi, keys, db, k);
    Reads(ssi, keys, db, k);
    RunVia([s0, s1, s2, s3, s4, Do(s4, ReadKey(0, k)), AfterReads(ssi, keys, db, k)], BothRead(k), 6);
    assert BothRead(k)[..6] == BothRead(k);
  }

  lemma LostUpdateRuns(ssi: bool, keys: set<Key>, db: Db, k: Key)
    ensures Run(ssi, keys, db, LostUpdate(k)) ==
      RunFrom(RunFrom(RunFrom(RunFrom(Run(ssi, keys, db, BothRead(k)),
        LockAndCheck(0, k)), WriteAndUnlock(0, k)), LockAndCheck(1, k)), WriteAndUnlock(1, k))
  {
    var s := Init(ssi, keys, db);
    RunConcat(s, BothRead(k), LockAndCheck(0, k));
    RunConcat(s, BothRead(k) + LockAndCheck(0, k), WriteAndUnlock(0, k));
    RunConcat(s, BothRead(k) + LockAndCheck(0, k) + WriteAndUnlock(0, k), LockAndCheck(1, k));
    RunConcat(s, BothRead(k) + LockAndCheck(0, k) + WriteAndUnlock(0, k) + LockAndCheck(1, k), WriteAndUnlock(1, k));
  }

  // The first increment has committed.
  function FirstDone(ssi: bool, keys: set<Key>, db: Db, k: Key): State {
    Both(ssi, keys, db, k, Increasing(0, k, Committed, {}), Increasing(1, k, Reading, {}), [])
      .(data := Init(ssi, keys, db).data[k := [Version(1, 1, 1)]])
  }

  lemma FirstCommits(ssi: bool, keys: set<Key>, db: Db, k: Key)
    requires k in keys && k !in db
    ensures RunFrom(RunFrom(AfterReads(ssi, keys, db, k), LockAndCheck(0, k)), WriteAndUnlock(0, k))
         == FirstDone(ssi, keys, db, k)
  {
    var s := AfterReads(ssi, keys, db, k);
    Finishes(s, 0, k);
    var s1 := At(WithWrite(s, 0, k), 0, k, Committed, {}, false);
    assert Insert([], 1, 1) == [Version(1, 1, 1)];
    assert s1.data == FirstDone(ssi, keys, db, k).data;
    assert s1.attempts == FirstDone(ssi, keys, db, k).attempts;
  }

  function BothDone(ssi: bool, keys: set<Key>, db: Db, k: Key): State {
    Both(ssi, keys, db, k, Increasing(0, k, Committed, {}), Increasing(1, k, Committed, {}), [])
      .(data := Init(ssi, keys, db).data[k := [Version(1, 2, 2), Version(1, 1, 1)]])
  }

  lemma SecondCommits(ssi: bool, keys: set<Key>, db: Db, k: Key)
    requires k in keys && k !in db
    ensures RunFrom(RunFrom(FirstDone(ssi, keys, db, k), LockAndCheck(1, k)), WriteAndUnlock(1, k))
         == BothDone(ssi, keys, db, k)
  {
    var s := FirstDone(ssi, keys, db, k);
    var vs := [Version(1, 1, 1)];
    assert VersionsAt(s, k) == vs;
    FindUnique(vs, 2, 0);
    Finishes(s, 1, k);
    var s1 := At(WithWrite(s, 1, k), 1, k, Committed, {}, false);
    assert Insert(vs, 1, 2) == [Version(1, 2, 2), Version(1, 1, 1)];
    assert s1.data == BothDone(ssi, keys, db, k).data;
    assert s1.attempts == BothDone(ssi, keys, db, k).attempts;
  }

  lemma LostUpdateEnds(ssi: bool, keys: set<Key>, db: Db, k: Key)
    requires k in keys && k !in db
    ensures Run(ssi, keys, db, LostUpdate(k)) == BothDone(ssi, keys, db, k)
  {
    LostUpdateRuns(ssi, keys, db, k);
    BothHaveRead(ssi, keys, db, k);
    FirstCommits(ssi, keys, db, k);
    SecondCommits(ssi, keys, db, k);
  }

  // Both increments commit, yet the newest version of k holds 1.
  lemma LosesAnUpdate(ssi: bool, keys: set<Key>, db: Db, k: Key)
    requires k in keys && k !in db
    ensures AllReturned(Run(ssi, keys, db, LostUpdate(k))) && !SomeSerialOrder(Run(ssi, keys, db, LostUpdate(k)))
  {
    var s := BothDone(ssi, keys, db, k);
    LostUpdateEnds(ssi, keys, db, k);
    var kind, two := Rmw({}, {k}), [Increment(k), Increment(k)];
    assert Logics(s) == two;
    assert Writers(two, 1, k) == 1;
    assert Writers(two, 2, k) == 2;
    assert ValueOr0(Newest(s), k) == 1;
    forall ids: seq<TxnId> | SerialOrder(s, ids) ensures false {
      NoLostUpdatesInAnyOrder(two, [kind, kind], ids, db);
    }
  }

  // Initial versions decide: runs always amount to a serial run exactly when
  // every key that can be locked has one.
  lemma SerializableExactlyWhenInitialised(ssi: bool, keys: set<Key>, db: Db)
    ensures keys <= db.Keys <==> forall steps: seq<Step> ::
      AllReturned(Run(ssi, keys, db, steps)) ==> SomeSerialOrder(Run(ssi, keys, db, steps))
  {
    if keys <= db.Keys {
      forall steps: seq<Step> | AllReturned(Run(ssi, keys, db, steps))
        ensures SomeSerialOrder(Run(ssi, keys, db, steps))
      {
        DrainedSerial(ssi, keys, db, steps);
      }
    } else {
      var k :| k in keys && k !in db;
      LosesAnUpdate(ssi, keys, db, k);
    }
  }

  // The storage that a processor starts with is the machine's initial state. Every
  // key that can be locked has a version there, so every run that ends is serial.
  method Start(ssi: bool) returns (storage: MVCCStorage, s: State)
    ensures fresh(storage) && storage.Valid()
    ensures s == Init(ssi, storage.mutexes.Keys, s.db0) && s.keys <= s.db0.Keys
    ensures forall k: Key :: Get(s.db0, k) == if k < INITIAL_RECORDS then Some(0) else None
    ensures forall k :: VersionsAt(s, k) == storage.VersionsOf(k)
    ensures forall k :: k in storage.mutexes ==> !storage.mutexes[k]
    ensures forall steps: seq<Step> ::
      AllReturned(Run(ssi, s.keys, s.db0, steps)) ==> SomeSerialOrder(Run(ssi, s.keys, s.db0, steps))
  {
    storage := new MVCCStorage();
    var db := map k | k in storage.data && storage.data[k] != [] :: storage.data[k][0].value;
    s := Init(ssi, storage.mutexes.Keys, db);
    forall k: Key ensures Get(db, k) == if k < INITIAL_RECORDS then Some(0) else None {
      assert storage.VersionsOf(k) == if k < INITIAL_RECORDS then [Version(0, 0, 0)] else [];
    }
    forall k: Key ensures VersionsAt(s, k) == storage.VersionsOf(k) {
      assert Get(db, k) == if k < INITIAL_RECORDS then Some(0) else None;
    }
    forall k | k in s.keys ensures k in db {
      assert Get(db, k) == Some(0);
    }
    SerializableExactlyWhenInitialised(ssi, s.keys, db);
  }
}
