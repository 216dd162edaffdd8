/**
 What multiversion timestamp ordering locks and checks, and what makes an attempt
 restart, in both variants: the write set in timestamp ordering, both sets in the
 snapshot variant, and neither more nor less.
 */
module MvccDecisions {
  import opened Txns
  import opened Versions
  import opened Mvcc
  import opened MvccInvariant

  // The keys that an attempt has to lock and check.
  predicate Guarded(ssi: bool, p: Logic, k: Key) {
    k in p.writeset || (ssi && k in p.readset)
  }

  predicate LockedBy(s: State, a: nat, k: Key) {
    k in s.locks && s.locks[k] == a
  }

  // The version of k that a write by attempt a would supersede has been read at
  // a later timestamp.
  ghost predicate Conflict(s: State, a: nat, k: Key) {
    exists v :: IsLatest(VersionsAt(s, k), a + 1, v) && v.maxRead > a + 1
  }

  lemma ConflictMeans(s: State, a: nat, k: Key)
    requires VersionsOk(s, k)
    ensures Conflict(s, a, k) <==> !Passes(VersionsAt(s, k), a + 1)
  {
    FindsLatest(VersionsAt(s, k), a + 1);
  }

  // A mutex is held only for an attempt that has to lock its key.
  lemma LocksGuarded(ssi: bool, keys: set<Key>, db: Db, steps: seq<Step>, a: nat, k: Key)
    requires keys <= db.Keys && LockedBy(Run(ssi, keys, db, steps), a, k)
    ensures var s := Run(ssi, keys, db, steps);
      a < |s.attempts| && Guarded(ssi, s.attempts[a].logic, k)
  {
    var s := Run(ssi, keys, db, steps);
    Reachable(ssi, keys, db, steps);
    assert AttemptOk(s, s.attempts[a]);
    assert k in Held(s, s.attempts[a]);
  }

  /******* From checking to the first release *******/

  ghost predicate NoUnlock(steps: seq<Step>, a: nat) {
    forall m :: 0 <= m < |steps| ==> !(steps[m].UnlockKey? && steps[m].a == a)
  }

  predicate PastLocking(stage: Stage) {
    !stage.Requested? && !stage.Reading? && !stage.Locking?
  }

  ghost predicate HoldsGuarded(s: State, a: nat) {
    && a < |s.attempts| && PastLocking(s.attempts[a].stage)
    && forall k :: LockedBy(s, a, k) <==> Guarded(s.ssi, s.attempts[a].logic, k)
  }

  lemma StagesPass(s: State, step: Step, a: nat)
    requires Enabled(s, step) && RequestsOk(s) && a < |s.attempts| && PastLocking(s.attempts[a].stage)
    ensures a < |Do(s, step).attempts| && PastLocking(Do(s, step).attempts[a].stage)
    ensures Do(s, step).attempts[a].logic == s.attempts[a].logic
    ensures !(step.LockKey? && step.a == a)
  {
    if a == Mover(s, step) {
      MoverMoves(s, step);
      if step.Assign? {
        AssignsRequested(s);
      }
    } else {
      OthersStay(s, step, a);
    }
  }

  lemma UnlocksOwn(s: State, b: nat, k: Key)
    requires LocksOk(s) && Enabled(s, UnlockKey(b, k))
    ensures LockedBy(s, b, k)
  {
    assert k in Held(s, s.attempts[b]);
  }

  lemma StepKeepsGuarded(s: State, step: Step, a: nat)
    requires Inv(s) && HoldsGuarded(s, a) && Enabled(s, step) && !(step.UnlockKey? && step.a == a)
    ensures HoldsGuarded(Do(s, step), a)
  {
    StagesPass(s, step, a);
    LocksMove(s, step);
    if step.UnlockKey? {
      UnlocksOwn(s, step.a, step.key);
    }
    forall k ensures LockedBy(Do(s, step), a, k) <==> LockedBy(s, a, k) {
    }
  }

  lemma {:induction false} RunKeepsGuarded(s: State, steps: seq<Step>, a: nat)
    requires Inv(s) && HoldsGuarded(s, a) && NoUnlock(steps, a)
    ensures HoldsGuarded(RunFrom(s, steps), a)
  {
    if steps == [] {
    } else {
      var last := |steps| - 1;
      var mid := RunFrom(s, steps[..last]);
      RunKeepsGuarded(s, steps[..last], a);
      RunKeeps(s, steps[..last]);
      if Enabled(mid, steps[last]) {
        StepKeepsGuarded(mid, steps[last], a);
      }
    }
  }

  // From the moment an attempt begins to check, through its writes, until it
  // gives back the first mutex, it has exactly the mutexes of the keys it has to
  // lock, whatever others do meanwhile.
  lemma MutexesFromCheckToRelease(ssi: bool, keys: set<Key>, db: Db, front: seq<Step>, a: nat, mid: seq<Step>, k: Key)
    requires keys <= db.Keys && NoUnlock(mid, a)
    requires var s0 := Run(ssi, keys, db, front); a < |s0.attempts| && s0.attempts[a].stage.Checking?
    ensures var s := RunFrom(Run(ssi, keys, db, front), mid);
      a < |s.attempts| && (LockedBy(s, a, k) <==> Guarded(ssi, s.attempts[a].logic, k))
  {
    var s0 := Run(ssi, keys, db, front);
    Reachable(ssi, keys, db, front);
    assert AttemptOk(s0, s0.attempts[a]);
    forall m ensures LockedBy(s0, a, m) <==> Guarded(ssi, s0.attempts[a].logic, m) {
      assert LockedBy(s0, a, m) <==> m in Held(s0, s0.attempts[a]);
    }
    RunKeepsGuarded(s0, mid, a);
  }

  // Attempts wait for mutexes only: one that is reading can read any of its keys
  // whose mutex is free, one that has locked can take any of its next steps, and
  // requests are taken at any time.
  lemma WaitsForMutexesOnly(ssi: bool, keys: set<Key>, db: Db, steps: seq<Step>, a: nat)
    requires keys <= db.Keys && a < |Run(ssi, keys, db, steps).attempts|
    ensures var s := Run(ssi, keys, db, steps);
      var at := s.attempts[a];
      && (at.stage.Reading? ==> forall k :: k in at.todo && k in keys && k !in s.locks ==> Enabled(s, ReadKey(a, k)))
      && (at.stage.Checking? ==> forall k :: k in at.todo ==> Enabled(s, CheckKey(a, k)))
      && (at.stage.Applying? ==> forall k :: k in at.todo ==> Enabled(s, WriteKey(a, k)))
      && (Releasing(at.stage) ==> forall k :: k in at.todo ==> Enabled(s, UnlockKey(a, k)))
      && (Active(s, a) && at.todo == {} ==> Enabled(s, Advance(a)))
      && (s.requests != [] ==> Enabled(s, Assign))
  {
    var s := Run(ssi, keys, db, steps);
    Reachable(ssi, keys, db, steps);
    assert AttemptOk(s, s.attempts[a]);
    assert s.requests != [] ==> s.requests[0] in s.requests;
  }

  /******* Verdicts *******/

  // A check is of a key that has to be checked, and it makes the attempt fail
  // exactly when a later reader has seen what the attempt would supersede.
  lemma ChecksGuarded(ssi: bool, keys: set<Key>, db: Db, steps: seq<Step>, a: nat, k: Key)
    requires keys <= db.Keys && Enabled(Run(ssi, keys, db, steps), CheckKey(a, k))
    ensures var s := Run(ssi, keys, db, steps);
      && Guarded(ssi, s.attempts[a].logic, k)
      && (AfterCheckKey(s, a, k).attempts[a].stage.Failing? <==> Conflict(s, a, k))
  {
    var s := Run(ssi, keys, db, steps);
    Reachable(ssi, keys, db, steps);
    assert AttemptOk(s, s.attempts[a]);
    ConflictMeans(s, a, k);
  }

  // The only ways to begin to fail and to begin to write.
  lemma FailsByCheck(s: State, step: Step, a: nat)
    requires Enabled(s, step) && RequestsOk(s) && a < |s.attempts|
    ensures a < |Do(s, step).attempts|
    ensures Do(s, step).attempts[a].stage.Failing? && !s.attempts[a].stage.Failing? ==>
      step.CheckKey? && step.a == a
    ensures Do(s, step).attempts[a].stage.Restarted? && !s.attempts[a].stage.Restarted? ==>
      s.attempts[a].stage.Failing?
    ensures Do(s, step).attempts[a].stage.Applying? && !s.attempts[a].stage.Applying? ==>
      step == Advance(a) && s.attempts[a].stage.Checking? && s.attempts[a].out.commit
  {
    if a == Mover(s, step) {
      MoverMoves(s, step);
      if step.Assign? {
        AssignsRequested(s);
      }
    } else {
      OthersStay(s, step, a);
    }
  }

  // An attempt begins to write only when, at that moment, none of the keys that
  // it has to check has a conflict, and its vote is to commit.
  lemma WritesOnlyUnopposed(ssi: bool, keys: set<Key>, db: Db, steps: seq<Step>, step: Step, a: nat)
    requires keys <= db.Keys
    requires var s := Run(ssi, keys, db, steps);
      && Enabled(s, step) && a < |s.attempts| && a < |Do(s, step).attempts|
      && Do(s, step).attempts[a].stage.Applying? && !s.attempts[a].stage.Applying?
    ensures var s := Run(ssi, keys, db, steps);
      && s.attempts[a].out.commit && Do(s, step).attempts[a].todo == s.attempts[a].out.writes.Keys
      && forall k :: Guarded(ssi, s.attempts[a].logic, k) ==> !Conflict(s, a, k)
  {
    var s := Run(ssi, keys, db, steps);
    Reachable(ssi, keys, db, steps);
    FailsByCheck(s, step, a);
    assert ChecksOk(s, a) && AttemptOk(s, s.attempts[a]);
    forall k | Guarded(ssi, s.attempts[a].logic, k) ensures !Conflict(s, a, k) {
      assert k in LockSet(s, s.attempts[a]) - s.attempts[a].todo;
      ConflictMeans(s, a, k);
    }
  }

  // And it begins to fail only upon a conflict on such a key.
  lemma FailsOnlyOnConflict(ssi: bool, keys: set<Key>, db: Db, steps: seq<Step>, step: Step, a: nat)
    requires keys <= db.Keys
    requires var s := Run(ssi, keys, db, steps);
      && Enabled(s, step) && a < |s.attempts| && a < |Do(s, step).attempts|
      && Do(s, step).attempts[a].stage.Failing? && !s.attempts[a].stage.Failing?
    ensures var s := Run(ssi, keys, db, steps);
      exists k :: Guarded(ssi, s.attempts[a].logic, k) && Conflict(s, a, k)
  {
    var s := Run(ssi, keys, db, steps);
    Reachable(ssi, keys, db, steps);
    FailsByCheck(s, step, a);
    ChecksGuarded(ssi, keys, db, steps, a, step.key);
  }

  /******* What a conflict is *******/

  // The mark is that of the version's own writer, or of an attempt that has read k.
  predicate MarkFrom(s: State, k: Key, v: Version) {
    v.maxRead == v.id || (0 < v.maxRead <= |s.attempts| && HasRead(s.attempts[v.maxRead - 1], k))
  }

  predicate MarksFrom(s: State, k: Key, vs: seq<Version>) {
    forall p :: 0 <= p < |vs| ==> MarkFrom(s, k, vs[p])
  }

  lemma HasReadStays(s: State, step: Step, b: nat, k: Key)
    requires Enabled(s, step) && RequestsOk(s) && b < |s.attempts| && HasRead(s.attempts[b], k)
    ensures b < |Do(s, step).attempts| && HasRead(Do(s, step).attempts[b], k)
  {
    if b == Mover(s, step) {
      MoverMoves(s, step);
      if step.Assign? {
        AssignsRequested(s);
      }
    } else {
      OthersStay(s, step, b);
    }
  }

  lemma MarksStay(s: State, step: Step, k: Key, vs: seq<Version>)
    requires Enabled(s, step) && RequestsOk(s) && MarksFrom(s, k, vs)
    ensures MarksFrom(Do(s, step), k, vs)
  {
    Grows(s, step);
    forall p | 0 <= p < |vs| ensures MarkFrom(Do(s, step), k, vs[p]) {
      if vs[p].maxRead != vs[p].id {
        HasReadStays(s, step, vs[p].maxRead - 1, k);
      }
    }
  }

  lemma ReaderMarks(s: State, k: Key, vs: seq<Version>, a: nat)
    requires MarksFrom(s, k, vs) && a < |s.attempts| && HasRead(s.attempts[a], k)
    ensures MarksFrom(s, k, Mark(vs, a + 1))
  {
  }

  lemma WriterMarks(s: State, k: Key, vs: seq<Version>, value: Value, ts: Ts)
    requires MarksFrom(s, k, vs)
    ensures MarksFrom(s, k, Insert(vs, value, ts))
  {
    InsertAt(vs, value, ts);
  }

  lemma ReadsNow(s: State, a: nat, k: Key)
    requires Inv(s) && Enabled(s, ReadKey(a, k))
    ensures a < |AfterReadKey(s, a, k).attempts| && HasRead(AfterReadKey(s, a, k).attempts[a], k)
  {
    assert AttemptOk(s, s.attempts[a]);
  }

  lemma StepKeepsMarks(s: State, step: Step, k: Key)
    requires Inv(s) && Enabled(s, step) && MarksFrom(s, k, VersionsAt(s, k))
    ensures MarksFrom(Do(s, step), k, VersionsAt(Do(s, step), k))
  {
    var s', vs := Do(s, step), VersionsAt(s, k);
    DataMoves(s, step, k);
    MarksStay(s, step, k, vs);
    if step.ReadKey? && step.key == k {
      ReadsNow(s, step.a, k);
      ReaderMarks(s', k, vs, step.a);
    } else if step.WriteKey? && step.key == k {
      WriterMarks(s', k, vs, s.attempts[step.a].out.writes[k], step.a + 1);
    }
  }

  lemma {:induction false} MarksReachable(ssi: bool, keys: set<Key>, db: Db, steps: seq<Step>, k: Key)
    requires keys <= db.Keys
    ensures MarksFrom(Run(ssi, keys, db, steps), k, VersionsAt(Run(ssi, keys, db, steps), k))
  {
    if steps == [] {
    } else {
      var front, step := steps[..|steps| - 1], steps[|steps| - 1];
      MarksReachable(ssi, keys, db, front, k);
      Reachable(ssi, keys, db, front);
      if Enabled(Run(ssi, keys, db, front), step) {
        StepKeepsMarks(Run(ssi, keys, db, front), step, k);
      }
    }
  }

  // Attempt b, with a later timestamp than a, has read k, and what it read is
  // what a write by a would supersede: there is no version between the two.
  ghost predicate LaterReader(s: State, a: nat, b: nat, k: Key) {
    && a < b < |s.attempts| && HasRead(s.attempts[b], k)
    && exists v :: IsLatest(VersionsAt(s, k), b, v) && v.id <= a + 1
  }

  lemma SameLatest(vs: seq<Version>, low: Ts, high: Ts, v: Version)
    requires low <= high && IsLatest(vs, high, v) && v.id <= low
    ensures IsLatest(vs, low, v)
  {
  }

  lemma NoneBetween(vs: seq<Version>, low: Ts, v: Version)
    requires Orderly(vs) && IsLatest(vs, low, v) && v.maxRead > low
    ensures IsLatest(vs, v.maxRead - 1, v)
  {
    var q :| 0 <= q < |vs| && vs[q] == v;
    forall u | u in vs && u.id <= v.maxRead - 1 ensures u.id <= v.id {
      var p :| 0 <= p < |vs| && vs[p] == u;
    }
  }

  lemma MarkedLatest(vs: seq<Version>, b: nat, v: Version)
    requires Strict(vs) && Marked(vs, b + 1) && IsLatest(vs, b, v)
    ensures v.maxRead >= b + 1
  {
    FindsLatest(vs, b);
  }

  lemma ConflictHasReader(s: State, a: nat, k: Key)
    requires VersionsOk(s, k) && MarksFrom(s, k, VersionsAt(s, k)) && Conflict(s, a, k)
    ensures exists b :: LaterReader(s, a, b, k)
  {
    var vs := VersionsAt(s, k);
    var v :| IsLatest(vs, a + 1, v) && v.maxRead > a + 1;
    var p :| 0 <= p < |vs| && vs[p] == v;
    assert MarkFrom(s, k, vs[p]);
    NoneBetween(vs, a + 1, v);
    assert LaterReader(s, a, v.maxRead - 1, k);
  }

  lemma ReaderConflicts(s: State, a: nat, b: nat, k: Key)
    requires VersionsOk(s, k) && LaterReader(s, a, b, k) && ReadOk(s, b, k)
    ensures Conflict(s, a, k)
  {
    var vs := VersionsAt(s, k);
    var v :| IsLatest(vs, b, v) && v.id <= a + 1;
    MarkedLatest(vs, b, v);
    SameLatest(vs, a + 1, b, v);
  }

  // So the check refuses exactly the writes that an attempt with a later
  // timestamp should have read and has not.
  lemma ConflictExactly(ssi: bool, keys: set<Key>, db: Db, steps: seq<Step>, a: nat, k: Key)
    requires keys <= db.Keys
    ensures var s := Run(ssi, keys, db, steps);
      Conflict(s, a, k) <==> exists b :: LaterReader(s, a, b, k)
  {
    var s := Run(ssi, keys, db, steps);
    Reachable(ssi, keys, db, steps);
    MarksReachable(ssi, keys, db, steps, k);
    assert VersionsOk(s, k);
    if Conflict(s, a, k) {
      ConflictHasReader(s, a, k);
    }
    forall b | LaterReader(s, a, b, k) ensures Conflict(s, a, k) {
      assert ReadOk(s, b, k);
      ReaderConflicts(s, a, b, k);
    }
  }

  // Plain timestamp ordering never restarts a transaction that only reads.
  lemma {:induction false} ReadersNeverRestart(keys: set<Key>, db: Db, steps: seq<Step>, a: nat)
    requires keys <= db.Keys
    requires var s := Run(false, keys, db, steps); a < |s.attempts| && s.attempts[a].logic.writeset == {}
    ensures var s := Run(false, keys, db, steps);
      !s.attempts[a].stage.Failing? && !s.attempts[a].stage.Restarted?
  {
    if steps == [] {
    } else {
      var front, step := steps[..|steps| - 1], steps[|steps| - 1];
      var s := Run(false, keys, db, front);
      if Enabled(s, step) {
        Reachable(false, keys, db, front);
        if a < |s.attempts| {
          LogicStays(s, step, a);
          ReadersNeverRestart(keys, db, front, a);
          FailsByCheck(s, step, a);
          if step.CheckKey? && step.a == a {
            ChecksGuarded(false, keys, db, front, a, step.key);
          }
        } else {
          NewOnes(s, step, a);
        }
      } else {
        ReadersNeverRestart(keys, db, front, a);
      }
    }
  }

  lemma LogicStays(s: State, step: Step, a: nat)
    requires Enabled(s, step) && a < |s.attempts|
    ensures a < |Do(s, step).attempts| && Do(s, step).attempts[a].logic == s.attempts[a].logic
  {
    if a == Mover(s, step) {
      MoverMoves(s, step);
    } else {
      OthersStay(s, step, a);
    }
  }
}
