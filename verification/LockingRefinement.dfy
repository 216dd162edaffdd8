/**
 The scheduler class of LockingScheduler takes only steps of the machine in
 Locking, so its runs end with the serial result.
 */
module LockingRefinement {
  import opened Txns
  import opened LockTable
  import opened Locking
  import opened LockingTheorems
  import opened LockingScheduler
  import opened TxnObjects

  // Between sections of the loop, the snapshot n shows the machine state s.
  ghost predicate Shows(n: Snapshot, s: State) {
    && |s.txns| == |s.phases| && s.exclusiveOnly == n.exclusiveOnly && s.current.None?
    && s.txns == n.txns && s.db == n.data && s.locks == n.locks && s.committed == n.committed
    && s.requests == n.requests && s.ready == n.ready && s.completed == n.completed && s.results == n.results
    && TasksOk(s, n.pool, n.objects)
    && forall i :: 0 <= i < |n.txns| ==> n.txns[i].readset !! n.txns[i].writeset
  }

  // Tasks that no worker has begun are those in the pool, and transactions that
  // have run carry their votes and buffers.
  ghost predicate TasksOk(s: State, pool: seq<TxnId>, objects: seq<TxnRecord>) {
    && Distinct(pool) && (forall i :: i in pool ==> i < |s.phases|)
    && |s.phases| == |s.txns| == |objects|
    && forall i :: 0 <= i < |s.phases| ==> TaskOk(s.phases[i], s.txns[i], i in pool, objects[i])
  }

  ghost predicate TaskOk(ph: Phase, p: Logic, pooled: bool, rec: TxnRecord) {
    && (ph.Running? <==> pooled)
    && (ph.Running? ==> ph == Running(p.Keys(), map[]))
    && (InStage(ph, false) ==> Carries(rec, ph) && rec.status == if ph.out.commit then CompletedC else CompletedA)
    && (InStage(ph, true) ==> Carries(rec, ph) && rec.status == if ph.out.commit then Committed else Aborted)
  }

  ghost predicate Carries(rec: TxnRecord, ph: Phase)
    requires ph.Finished?
  {
    rec.writes == ph.out.writes && rec.got == ph.got + ph.out.writes
  }

  // The snapshot is that of a run of the machine.
  ghost predicate Tracks(n: Snapshot, db0: Db) {
    exists steps :: Shows(n, Run(n.exclusiveOnly, db0, steps))
  }

  lemma RunsOn(only: bool, db0: Db, steps: seq<Step>, more: seq<Step>, s': State, n': Snapshot)
    requires RunFrom(Run(only, db0, steps), more) == s' && Shows(n', s') && n'.exclusiveOnly == only
    ensures Tracks(n', db0)
  {
    RunConcat(Init(only, db0), steps, more);
    assert Shows(n', Run(only, db0, steps + more));
  }

  lemma OneStep(s: State, step: Step)
    requires |s.txns| == |s.phases|
    ensures RunFrom(s, [step]) == Do(s, step)
  {
    assert RunFrom(s, [step][..0]) == s;
  }

  lemma InitTracks(only: bool, db0: Db)
    ensures Tracks(Snapshot(only, [], [], db0, LockState(map[], {}), [], [], [], [], [], []), db0)
  {
    var n := Snapshot(only, [], [], db0, LockState(map[], {}), [], [], [], [], [], []);
    assert Shows(n, Run(only, db0, []));
  }

  // A step that starts or completes no task.
  lemma TasksStay(s: State, s': State, pool: seq<TxnId>, objects: seq<TxnRecord>)
    requires TasksOk(s, pool, objects) && |s.txns| == |s.phases| == |s'.phases| && s'.txns == s.txns
    requires forall i :: 0 <= i < |s.phases| ==> SameTask(s.phases[i], s'.phases[i])
    ensures TasksOk(s', pool, objects)
  {
    forall i | 0 <= i < |s.phases| ensures TaskOk(s'.phases[i], s.txns[i], i in pool, objects[i]) {
      assert SameTask(s.phases[i], s'.phases[i]);
    }
  }

  predicate IsTask(ph: Phase) {
    ph.Running? || InStage(ph, false) || InStage(ph, true)
  }

  ghost predicate SameTask(ph: Phase, ph': Phase) {
    ph' == ph || (!ph.Running? && !IsTask(ph'))
  }

  /******* Submission, admission, dispatch *******/

  lemma SubmitTracks(n: Snapshot, db0: Db, p: Logic)
    requires Tracks(n, db0) && p.readset !! p.writeset
    ensures Tracks(Submitted(n, p), db0)
  {
    var steps :| Shows(n, Run(n.exclusiveOnly, db0, steps));
    var s := Run(n.exclusiveOnly, db0, steps);
    OneStep(s, Submit(p));
    SubmitShows(n, s, p);
    RunsOn(n.exclusiveOnly, db0, steps, [Submit(p)], AfterSubmit(s, p), Submitted(n, p));
  }

  lemma SubmitShows(n: Snapshot, s: State, p: Logic)
    requires Shows(n, s) && p.readset !! p.writeset
    ensures Shows(Submitted(n, p), AfterSubmit(s, p))
  {
    var s', n' := AfterSubmit(s, p), Submitted(n, p);
    forall i | 0 <= i < |s'.phases| ensures TaskOk(s'.phases[i], s'.txns[i], i in n.pool, n'.objects[i]) {
      if i < |s.phases| {
        assert TaskOk(s.phases[i], s.txns[i], i in n.pool, n.objects[i]);
      }
    }
  }

  // A transaction that is still in the request queue is unknown to the lock manager.
  lemma NothingAsked(s: State, i: TxnId)
    requires Inv(s) && i < |s.txns| && s.phases[i].Requested?
    ensures Unknown(s.locks, i)
  {
    forall k ensures !Queued(QueueAt(s.locks.table, k), i) {
      var q := QueueAt(s.locks.table, k);
      assert QueueOk(s, k);
      forall p | 0 <= p < |q| ensures q[p].txn != i {
        assert Stands(s, q[p], k);
      }
    }
  }

  lemma AdmitLocksAgree(s: State, i: TxnId)
    requires i < |s.txns| && s.txns[i].readset !! s.txns[i].writeset
    ensures AskedFor(s.locks, s.exclusiveOnly, i, s.txns[i].readset, s.txns[i].writeset) == RequestAll(s, i)
  {
    assert AskedFor(s.locks, s.exclusiveOnly, i, s.txns[i].readset, s.txns[i].writeset).table == RequestAll(s, i).table;
  }

  lemma AdmitShows(n: Snapshot, s: State)
    requires Shows(n, s) && Inv(s) && n.requests != []
    ensures n.requests[0] < |n.txns| && Unknown(n.locks, n.requests[0]) && Enabled(s, Admit)
    ensures Shows(Admitted(n), AfterAdmit(s))
  {
    var i := s.requests[0];
    assert s.phases[i].Requested?;
    NothingAsked(s, i);
    AdmitLocksAgree(s, i);
    TasksStay(s, AfterAdmit(s), n.pool, n.objects);
  }

  lemma AdmitTracks(n: Snapshot, db0: Db)
    requires Tracks(n, db0) && n.requests != []
    ensures n.requests[0] < |n.txns| && Unknown(n.locks, n.requests[0])
    ensures Tracks(Admitted(n), db0)
  {
    var steps :| Shows(n, Run(n.exclusiveOnly, db0, steps));
    var s := Run(n.exclusiveOnly, db0, steps);
    Reachable(n.exclusiveOnly, db0, steps);
    AdmitShows(n, s);
    OneStep(s, Admit);
    RunsOn(n.exclusiveOnly, db0, steps, [Admit], AfterAdmit(s), Admitted(n));
  }

  lemma StartShows(n: Snapshot, s: State)
    requires Shows(n, s) && Inv(s) && n.ready != []
    ensures Enabled(s, Dispatch) && Shows(Started(n), AfterDispatch(s))
  {
    var i := s.ready[0];
    assert i in s.ready;
    var s', n' := AfterDispatch(s), Started(n);
    assert TaskOk(s.phases[i], s.txns[i], i in n.pool, n.objects[i]);
    forall j | 0 <= j < |s.phases| ensures TaskOk(s'.phases[j], s.txns[j], j in n'.pool, n.objects[j]) {
      assert TaskOk(s.phases[j], s.txns[j], j in n.pool, n.objects[j]);
    }
    DistinctAppend(n.pool, [i]);
  }

  lemma StartTracks(n: Snapshot, db0: Db)
    requires Tracks(n, db0) && n.ready != []
    ensures Tracks(Started(n), db0)
  {
    var steps :| Shows(n, Run(n.exclusiveOnly, db0, steps));
    var s := Run(n.exclusiveOnly, db0, steps);
    Reachable(n.exclusiveOnly, db0, steps);
    StartShows(n, s);
    OneStep(s, Dispatch);
    RunsOn(n.exclusiveOnly, db0, steps, [Dispatch], AfterDispatch(s), Started(n));
  }

  /******* A worker's task *******/

  function Fetched(db: Db, keys: set<Key>): map<Key, Value> {
    map k | k in keys && k in db :: db[k]
  }

  lemma FetchOne(db: Db, got: map<Key, Value>, todo: set<Key>, k: Key)
    requires k in todo
    ensures got + Fetched(db, todo) == (if k in db then got[k := db[k]] else got) + Fetched(db, todo - {k})
  {
  }

  // The reads that are still to do, one key after the other.
  lemma {:induction false} ReadRest(s: State, i: TxnId) returns (steps: seq<Step>)
    requires |s.txns| == |s.phases| && i < |s.phases| && s.phases[i].Running?
    ensures RunFrom(s, steps)
         == s.(phases := s.phases[i := Running({}, s.phases[i].got + Fetched(s.db, s.phases[i].todo))])
    decreases |s.phases[i].todo|
  {
    var todo, got := s.phases[i].todo, s.phases[i].got;
    if todo == {} {
      steps := [];
      assert got + Fetched(s.db, todo) == got;
    } else {
      var k :| k in todo;
      var s' := AfterReadKey(s, i, k);
      var rest := ReadRest(s', i);
      FetchOne(s.db, got, todo, k);
      steps := [ReadKey(i, k)] + rest;
      OneStep(s, ReadKey(i, k));
      RunConcat(s, [ReadKey(i, k)], rest);
      var done := Running({}, got + Fetched(s.db, todo));
      assert s'.phases[i := done] == s.phases[i := done];
    }
  }

  // The state after a pooled task has been done from start to end.
  function TaskDone(s: State, i: TxnId): State
    requires |s.txns| == |s.phases| && i < |s.phases|
  {
    var got := ReadsOf(s.txns[i], s.db);
    s.(phases := s.phases[i := Finished(Handed, got, s.txns[i].run(got))], completed := s.completed + [i])
  }

  lemma TaskRuns(s: State, i: TxnId) returns (steps: seq<Step>)
    requires |s.txns| == |s.phases| && i < |s.phases| && s.phases[i] == Running(s.txns[i].Keys(), map[])
    ensures RunFrom(s, steps) == TaskDone(s, i)
  {
    var fetch := ReadRest(s, i);
    var s' := RunFrom(s, fetch);
    var got := ReadsOf(s.txns[i], s.db);
    assert map[] + Fetched(s.db, s.txns[i].Keys()) == got;
    assert AfterRunLogic(s', i).phases == TaskDone(s, i).phases;
    OneStep(s', RunLogic(i));
    RunConcat(s, fetch, [RunLogic(i)]);
    steps := fetch + [RunLogic(i)];
  }

  lemma TakeOut(pool: seq<TxnId>, j: nat)
    requires Distinct(pool) && j < |pool|
    ensures Distinct(pool[..j] + pool[j + 1..])
    ensures forall x :: x in pool[..j] + pool[j + 1..] <==> x in pool && x != pool[j]
  {
    assert pool == pool[..j] + [pool[j]] + pool[j + 1..];
  }

  lemma ExecuteShows(n: Snapshot, s: State, j: nat)
    requires Shows(n, s) && Inv(s) && j < |n.pool|
    ensures n.pool[j] < |n.txns| == |n.objects| && s.phases[n.pool[j]] == Running(s.txns[n.pool[j]].Keys(), map[])
    ensures Shows(Executed(n, j), TaskDone(s, n.pool[j]))
  {
    var i := n.pool[j];
    assert i in n.pool;
    assert TaskOk(s.phases[i], s.txns[i], i in n.pool, n.objects[i]);
    var s', n' := TaskDone(s, i), Executed(n, j);
    TakeOut(n.pool, j);
    forall x | x in n'.pool ensures x < |s.phases| {
      assert x in n.pool;
    }
    forall m | 0 <= m < |s.phases| ensures TaskOk(s'.phases[m], s.txns[m], m in n'.pool, n'.objects[m]) {
      assert TaskOk(s.phases[m], s.txns[m], m in n.pool, n.objects[m]);
    }
  }

  lemma ExecuteTracks(n: Snapshot, db0: Db, j: nat)
    requires Tracks(n, db0) && j < |n.pool|
    ensures n.pool[j] < |n.txns| == |n.objects| && Tracks(Executed(n, j), db0)
  {
    var steps :| Shows(n, Run(n.exclusiveOnly, db0, steps));
    var s := Run(n.exclusiveOnly, db0, steps);
    Reachable(n.exclusiveOnly, db0, steps);
    ExecuteShows(n, s, j);
    var more := TaskRuns(s, n.pool[j]);
    RunsOn(n.exclusiveOnly, db0, steps, more, TaskDone(s, n.pool[j]), Executed(n, j));
  }

  /******* The end of a transaction *******/

  // The writes that are still to be applied.
  function Pending(writes: map<Key, Value>, todo: set<Key>): map<Key, Value> {
    map k | k in todo && k in writes :: writes[k]
  }

  lemma NonePending(db: Db, writes: map<Key, Value>)
    ensures db + Pending(writes, {}) == db
  {
  }

  // The rest of the writes of the transaction being committed.
  lemma {:induction false} WriteRest(s: State) returns (steps: seq<Step>)
    requires |s.txns| == |s.phases| && CurrentIn(s, true)
    requires s.phases[s.current.value].stage.todo <= s.phases[s.current.value].out.writes.Keys
    ensures var i := s.current.value;
      var ph := s.phases[i];
      RunFrom(s, steps) == s.(
        db := s.db + Pending(ph.out.writes, ph.stage.todo),
        phases := s.phases[i := ph.(stage := Applying({}))])
    decreases |s.phases[s.current.value].stage.todo|
  {
    var i := s.current.value;
    var ph := s.phases[i];
    var todo := ph.stage.todo;
    if todo == {} {
      steps := [];
      assert s.phases[i := ph.(stage := Applying({}))] == s.phases;
      NonePending(s.db, ph.out.writes);
    } else {
      var k :| k in todo;
      var s' := AfterWriteKey(s, k);
      var rest := WriteRest(s');
      steps := [WriteKey(k)] + rest;
      OneStep(s, WriteKey(k));
      RunConcat(s, [WriteKey(k)], rest);
      WriteOneMore(s.db, ph.out.writes, todo, k);
      assert s'.phases[i := ph.(stage := Applying({}))] == s.phases[i := ph.(stage := Applying({}))];
    }
  }

  lemma WriteOneMore(db: Db, writes: map<Key, Value>, todo: set<Key>, k: Key)
    requires k in todo && todo <= writes.Keys
    ensures db[k := writes[k]] + Pending(writes, todo - {k})
         == db + Pending(writes, todo)
  {
  }

  // The state once the oldest completed transaction is decided and its writes
  // are applied, before it releases anything.
  function DecidedState(s: State): State
    requires |s.txns| == |s.phases| && Enabled(s, Collect)
  {
    var i := s.completed[0];
    var ph := s.phases[i];
    s.(completed := s.completed[1..], current := Some(i),
       db := if ph.out.commit then s.db + ph.out.writes else s.db,
       committed := if ph.out.commit then s.committed + [Commit(i, ph.out.writes)] else s.committed,
       phases := s.phases[i := ph.(stage := Releasing(s.txns[i].Keys()))])
  }

  // A commit: all writes, then the committed list.
  lemma Commits(s: State) returns (steps: seq<Step>)
    requires |s.txns| == |s.phases| && CurrentIn(s, true)
    requires s.phases[s.current.value].stage.todo == s.phases[s.current.value].out.writes.Keys
    ensures var i := s.current.value;
      var ph := s.phases[i];
      RunFrom(s, steps) == s.(
        db := s.db + ph.out.writes, committed := s.committed + [Commit(i, ph.out.writes)],
        phases := s.phases[i := ph.(stage := Releasing(s.txns[i].Keys()))])
  {
    var i := s.current.value;
    var ph := s.phases[i];
    var apply := WriteRest(s);
    var s2 := RunFrom(s, apply);
    assert Pending(ph.out.writes, ph.out.writes.Keys) == ph.out.writes;
    OneStep(s2, PushCommit);
    RunConcat(s, apply, [PushCommit]);
    steps := apply + [PushCommit];
    var ph' := ph.(stage := Releasing(s.txns[i].Keys()));
    assert s2.phases[i := ph'] == s.phases[i := ph'];
  }

  lemma Decides(s: State) returns (steps: seq<Step>)
    requires |s.txns| == |s.phases| && Enabled(s, Collect)
    ensures RunFrom(s, steps) == DecidedState(s)
  {
    var i := s.completed[0];
    var ph := s.phases[i];
    var s1 := AfterCollect(s);
    OneStep(s, Collect);
    steps := [Collect];
    if ph.out.commit {
      var more := Commits(s1);
      RunConcat(s, [Collect], more);
      steps := [Collect] + more;
      assert s1.phases[i := ph.(stage := Releasing(s.txns[i].Keys()))] == DecidedState(s).phases;
    }
  }

  // The first m of keys have been released since s, according to plan.
  ghost predicate ReleasedSince(s: State, keys: seq<Key>, plan: Plan, m: nat, s': State)
    requires |s.txns| == |s.phases| && CurrentIn(s, false) && m <= |keys| && Follows(plan, s.current.value, keys)
  {
    var i := s.current.value;
    && s'.locks == plan.locks[m] && s'.ready == plan.ready[m]
    && s' == s.(locks := s'.locks, ready := s'.ready, phases := s'.phases)
    && |s'.phases| == |s.phases|
    && s'.phases[i] == s.phases[i].(stage := Releasing(Rest(s.txns[i].Keys(), keys, m)))
    && (forall j :: 0 <= j < |s.phases| && j != i ==> SameTask(s.phases[j], s'.phases[j]))
  }

  function Rest(all: set<Key>, keys: seq<Key>, m: nat): set<Key>
    requires m <= |keys|
  {
    set k | k in all && k !in keys[..m]
  }

  lemma RestNext(all: set<Key>, keys: seq<Key>, m: nat)
    requires m < |keys| && Lists(keys, all)
    ensures keys[m] in Rest(all, keys, m) && Rest(all, keys, m + 1) == Rest(all, keys, m) - {keys[m]}
  {
    assert keys[..m + 1] == keys[..m] + [keys[m]];
    assert forall j :: 0 <= j < m ==> keys[j] != keys[m];
    assert keys[m] in keys;
  }

  lemma ReleaseSameTask(ph: Phase, mid: State, k: Key, j: TxnId)
    requires Inv(mid) && Enabled(mid, ReleaseKey(k)) && j < |mid.txns| && mid.current != Some(j)
    requires SameTask(ph, mid.phases[j])
    ensures SameTask(ph, AfterReleaseKey(mid, k).phases[j])
  {
    ReleasePhases(mid, k, j);
  }

  lemma ReleasesOne(s: State, keys: seq<Key>, plan: Plan, m: nat, mid: State)
    requires |s.txns| == |s.phases| && CurrentIn(s, false) && m < |keys|
    requires Follows(plan, s.current.value, keys)
    requires Lists(keys, s.txns[s.current.value].Keys()) && ReleasedSince(s, keys, plan, m, mid) && Inv(mid)
    ensures Enabled(mid, ReleaseKey(keys[m])) && ReleasedSince(s, keys, plan, m + 1, AfterReleaseKey(mid, keys[m]))
  {
    var i, k := s.current.value, keys[m];
    RestNext(s.txns[i].Keys(), keys, m);
    assert QueueOk(mid, k) && PlanStep(plan, i, keys, m);
    ReleasePhases(mid, k, i);
    forall j | 0 <= j < |s.phases| && j != i ensures SameTask(s.phases[j], AfterReleaseKey(mid, k).phases[j]) {
      ReleaseSameTask(s.phases[j], mid, k, j);
    }
  }

  lemma ReleasesNext(s: State, keys: seq<Key>, plan: Plan, m: nat, front: seq<Step>, mid: State) returns (done: State)
    requires |s.txns| == |s.phases| && CurrentIn(s, false) && m < |keys|
    requires Follows(plan, s.current.value, keys)
    requires Lists(keys, s.txns[s.current.value].Keys())
    requires Inv(s) && mid == RunFrom(s, front) && ReleasedSince(s, keys, plan, m, mid)
    ensures done == RunFrom(s, front + [ReleaseKey(keys[m])]) && ReleasedSince(s, keys, plan, m + 1, done)
  {
    RunKeeps(s, front);
    ReleasesOne(s, keys, plan, m, mid);
    done := AfterReleaseKey(mid, keys[m]);
    OneMoreStep(s, front, ReleaseKey(keys[m]));
  }

  lemma ReleasesNone(s: State, keys: seq<Key>, plan: Plan)
    requires |s.txns| == |s.phases| && CurrentIn(s, false)
    requires Follows(plan, s.current.value, keys)
    requires s.phases[s.current.value].stage.todo == s.txns[s.current.value].Keys()
    requires plan.locks[0] == s.locks && plan.ready[0] == s.ready
    ensures ReleasedSince(s, keys, plan, 0, s)
  {
    assert Rest(s.txns[s.current.value].Keys(), keys, 0) == s.txns[s.current.value].Keys();
  }

  lemma {:induction false} ReleasesAll(s: State, keys: seq<Key>, plan: Plan, m: nat)
    returns (steps: seq<Step>, done: State)
    requires Inv(s) && CurrentIn(s, false) && m <= |keys|
    requires Follows(plan, s.current.value, keys)
    requires s.phases[s.current.value].stage.todo == s.txns[s.current.value].Keys()
    requires Lists(keys, s.txns[s.current.value].Keys()) && plan.locks[0] == s.locks && plan.ready[0] == s.ready
    ensures done == RunFrom(s, steps) && ReleasedSince(s, keys, plan, m, done)
  {
    if m == 0 {
      steps, done := [], s;
      ReleasesNone(s, keys, plan);
    } else {
      var front, mid := ReleasesAll(s, keys, plan, m - 1);
      done := ReleasesNext(s, keys, plan, m - 1, front, mid);
      steps := front + [ReleaseKey(keys[m - 1])];
    }
  }

  lemma OneMoreStep(s: State, front: seq<Step>, step: Step)
    requires |s.txns| == |s.phases| && Inv(RunFrom(s, front))
    ensures RunFrom(s, front + [step]) == Do(RunFrom(s, front), step) && Inv(RunFrom(s, front + [step]))
  {
    OneStep(RunFrom(s, front), step);
    RunConcat(s, front, [step]);
    StepKeeps(RunFrom(s, front), step);
  }

  // The state in which everything is released, returned.
  lemma ReturnShows(n: Snapshot, s: State, keys: seq<Key>, plan: Plan, done: State)
    requires Shows(n, s) && n.completed != [] && Enabled(s, Collect) && PlanOf(plan, n, s.completed[0], keys)
    requires Lists(keys, s.txns[s.completed[0]].Keys()) && s.completed[0] !in n.pool
    requires InStage(s.phases[s.completed[0]], false)
    requires ReleasedSince(DecidedState(s), keys, plan, |keys|, done)
    ensures Enabled(done, Return) && Shows(Concluded(n, keys, plan), AfterReturn(done))
  {
    var i, s1, n' := s.completed[0], DecidedState(s), Concluded(n, keys, plan);
    assert keys[..|keys|] == keys;
    assert Rest(s.txns[i].Keys(), keys, |keys|) == {};
    var s' := AfterReturn(done);
    assert TaskOk(s.phases[i], s.txns[i], i in n.pool, n.objects[i]);
    forall j | 0 <= j < |s.phases| ensures TaskOk(s'.phases[j], s.txns[j], j in n.pool, n'.objects[j]) {
      assert TaskOk(s.phases[j], s.txns[j], j in n.pool, n.objects[j]);
      if j != i {
        assert SameTask(s1.phases[j], done.phases[j]);
      }
    }
  }

  lemma CompletedTask(n: Snapshot, s: State)
    requires Shows(n, s) && Inv(s) && n.completed != []
    ensures var i := n.completed[0];
      && i < |n.txns| == |n.objects| && Enabled(s, Collect) && i !in n.pool && InStage(s.phases[i], false)
  {
    var i := n.completed[0];
    assert i in s.completed;
    assert TaskOk(s.phases[i], s.txns[i], i in n.pool, n.objects[i]);
  }

  lemma ConcludeTracks(n: Snapshot, db0: Db, keys: seq<Key>, plan: Plan)
    requires Tracks(n, db0) && n.completed != [] && n.completed[0] < |n.txns| == |n.objects|
    requires ReleaseOrder(n.txns[n.completed[0]], keys) && PlanOf(plan, n, n.completed[0], keys)
    ensures Tracks(Concluded(n, keys, plan), db0)
  {
    var steps :| Shows(n, Run(n.exclusiveOnly, db0, steps));
    var s := Run(n.exclusiveOnly, db0, steps);
    Reachable(n.exclusiveOnly, db0, steps);
    CompletedTask(n, s);
    var first := Decides(s);
    RunKeeps(s, first);
    var second, done := ReleasesAll(DecidedState(s), keys, plan, |keys|);
    ReturnShows(n, s, keys, plan, done);
    RunKeeps(DecidedState(s), second);
    OneMoreStep(DecidedState(s), second, Return);
    RunConcat(s, first, second + [Return]);
    RunsOn(n.exclusiveOnly, db0, steps, first + (second + [Return]), AfterReturn(done), Concluded(n, keys, plan));
  }

  // What FinishNext may rely on.
  lemma ConcludePossible(n: Snapshot, db0: Db)
    requires Tracks(n, db0) && n.completed != []
    ensures n.completed[0] < |n.txns| == |n.objects| && |n.results| < |n.txns|
  {
    var steps :| Shows(n, Run(n.exclusiveOnly, db0, steps));
    var s := Run(n.exclusiveOnly, db0, steps);
    Reachable(n.exclusiveOnly, db0, steps);
    CompletedTask(n, s);
    assert n.completed[0] in s.completed;
    assert forall r :: 0 <= r < |s.results| ==> s.results[r] in s.results;
    DistinctBelow(n.results, |n.txns|, n.completed[0]);
  }

  // Transaction i has ended as it would serially in arrival order.
  ghost predicate EndedSerially(n: Snapshot, i: TxnId, db0: Db)
    requires i < |n.txns| == |n.objects|
  {
    var out := Exec(n.txns[i], Serial(n.txns, i, db0));
    && i in n.results
    && n.objects[i].writes == out.writes
    && n.objects[i].status == if out.commit then Committed else Aborted
  }

  // With nothing left to do, every transaction has returned with its serial
  // decision, and storage is what the serial scheduler leaves.
  lemma DrainedIsSerial(n: Snapshot, db0: Db)
    requires Tracks(n, db0) && n.requests == n.ready == n.pool == n.completed == []
    ensures n.data == Serial(n.txns, |n.txns|, db0) && |n.txns| == |n.objects|
    ensures forall i :: 0 <= i < |n.txns| ==> EndedSerially(n, i, db0)
  {
    var steps :| Shows(n, Run(n.exclusiveOnly, db0, steps));
    var s := Run(n.exclusiveOnly, db0, steps);
    Reachable(n.exclusiveOnly, db0, steps);
    NothingPending(n, s);
    DeterministicStorage(n.exclusiveOnly, db0, steps);
    forall i | 0 <= i < |n.txns| ensures EndedSerially(n, i, db0) {
      assert TaskOk(s.phases[i], s.txns[i], i in n.pool, n.objects[i]);
      DeterministicDecisions(n.exclusiveOnly, db0, steps, i);
    }
  }

  lemma NothingPending(n: Snapshot, s: State)
    requires Shows(n, s) && Inv(s) && n.requests == n.ready == n.pool == n.completed == []
    ensures AllReturned(s)
  {
    forall i | 0 <= i < |s.phases| ensures !s.phases[i].Running? {
      assert TaskOk(s.phases[i], s.txns[i], i in n.pool, n.objects[i]);
    }
    if !AllReturned(s) {
      var step := Progress(s);
    }
  }

  /******* The scheduler loop *******/

  // Deals with everything in the completed queue.
  method FinishAll(p: TxnProcessor, ghost db0: Db)
    requires p.Valid() && Tracks(p.Snap(), db0)
    modifies p, p.storage, p.lm.a, p.lm.b, p.readyTxns
    ensures p.Valid() && Tracks(p.Snap(), db0) && p.txns == old(p.txns) && p.requests == old(p.requests)
    ensures old(p.completed) == [] ==>
      p.results == old(p.results) && p.readyTxns.items == old(p.readyTxns.items) && p.pool == old(p.pool)
    ensures old(p.completed) != [] ==> |old(p.results)| < |p.results| && |old(p.results)| < |p.txns|
  {
    while p.completed != []
      invariant p.Valid() && Tracks(p.Snap(), db0) && p.txns == old(p.txns) && p.requests == old(p.requests)
      invariant p.Snap() == old(p.Snap())
        || (old(p.completed) != [] && |old(p.results)| < |p.results| && |old(p.results)| < |p.txns|)
      decreases |p.completed|
    {
      ghost var n := p.Snap();
      ConcludePossible(n, db0);
      ghost var keys, plan := p.FinishNext();
      ConcludeTracks(n, db0, keys, plan);
    }
  }

  // Empties the ready queue into the pool.
  method StartAll(p: TxnProcessor, ghost db0: Db)
    requires p.Valid() && Tracks(p.Snap(), db0)
    modifies p`pool, p.readyTxns
    ensures p.Valid() && Tracks(p.Snap(), db0) && p.readyTxns.items == []
    ensures |p.pool| == |old(p.pool)| + |old(p.readyTxns.items)|
  {
    while p.readyTxns.items != []
      invariant p.Valid() && Tracks(p.Snap(), db0)
      invariant |p.pool| + |p.readyTxns.items| == |old(p.pool)| + |old(p.readyTxns.items)|
      decreases |p.readyTxns.items|
    {
      StartTracks(p.Snap(), db0);
      p.StartNext();
    }
  }

  method AdmitOne(p: TxnProcessor, ghost db0: Db)
    requires p.Valid() && Tracks(p.Snap(), db0) && p.requests != []
    modifies p, p.lm.a, p.lm.b, p.readyTxns
    ensures p.Valid() && Tracks(p.Snap(), db0) && p.txns == old(p.txns) && p.results == old(p.results)
    ensures |p.requests| < |old(p.requests)|
  {
    AdmitTracks(p.Snap(), db0);
    p.AdmitNext();
  }

  // Some worker runs some task of the pool.
  method WorkerTurn(p: TxnProcessor, ghost db0: Db)
    requires p.Valid() && Tracks(p.Snap(), db0) && p.pool != []
    modifies p`pool, p`completed, p`objects
    ensures p.Valid() && Tracks(p.Snap(), db0) && |p.pool| < |old(p.pool)|
  {
    var j :| 0 <= j < |p.pool|;
    ExecuteTracks(p.Snap(), db0, j);
    p.ExecuteTxn(j);
  }

  // Any number of tasks, in any order, but at least one if there is one.
  method WorkerTurns(p: TxnProcessor, ghost db0: Db)
    requires p.Valid() && Tracks(p.Snap(), db0)
    modifies p`pool, p`completed, p`objects
    ensures p.Valid() && Tracks(p.Snap(), db0)
    ensures if old(p.pool) == [] then p.Snap() == old(p.Snap()) else |p.pool| < |old(p.pool)|
  {
    if p.pool != [] {
      WorkerTurn(p, db0);
      var turns: nat := *;
      while turns > 0 && p.pool != []
        invariant p.Valid() && Tracks(p.Snap(), db0) && |p.pool| < |old(p.pool)|
        decreases |p.pool|
      {
        WorkerTurn(p, db0);
        turns := turns - 1;
      }
    }
  }

  predicate Idle(n: Snapshot) {
    n.requests == n.ready == n.pool == n.completed == []
  }

  // After a round with something to do, less is left.
  predicate LessLeft(n: Snapshot, n': Snapshot) {
    || (|n.results| < |n'.results| && |n.results| < |n.txns|)
    || (|n'.results| == |n.results| && |n'.requests| < |n.requests|)
    || (|n'.results| == |n.results| && |n'.requests| == |n.requests|
        && |n'.ready| + |n'.pool| < |n.ready| + |n.pool|)
  }

  // One round of the scheduler loop, and what workers do until the next.
  method Round(p: TxnProcessor, ghost db0: Db)
    requires p.Valid() && Tracks(p.Snap(), db0) && !Idle(p.Snap())
    modifies p, p.storage, p.lm.a, p.lm.b, p.readyTxns
    ensures p.Valid() && Tracks(p.Snap(), db0) && p.txns == old(p.txns)
    ensures LessLeft(old(p.Snap()), p.Snap())
  {
    if p.requests != [] {
      AdmitOne(p, db0);
    }
    FinishAll(p, db0);
    StartAll(p, db0);
    WorkerTurns(p, db0);
  }

  // The scheduler loop until nothing is left to do; between its rounds workers
  // finish tasks in any order. Every method it calls is a run of the machine, so
  // it ends, and ends with the serial result.
  method RunLockingScheduler(p: TxnProcessor, ghost db0: Db)
    requires p.Valid() && Tracks(p.Snap(), db0)
    modifies p, p.storage, p.lm.a, p.lm.b, p.readyTxns
    ensures p.Valid() && p.txns == old(p.txns)
    ensures p.storage.data == Serial(p.txns, |p.txns|, db0)
    ensures forall i :: 0 <= i < |p.txns| ==> EndedSerially(p.Snap(), i, db0)
  {
    while p.requests != [] || p.completed != [] || p.readyTxns.items != [] || p.pool != []
      invariant p.Valid() && Tracks(p.Snap(), db0) && p.txns == old(p.txns)
      decreases |p.txns| - |p.results|, |p.requests|, |p.readyTxns.items| + |p.pool|
    {
      Round(p, db0);
    }
    DrainedIsSerial(p.Snap(), db0);
  }

  method SubmitOne(p: TxnProcessor, ghost db0: Db, program: Logic)
    requires p.Valid() && Tracks(p.Snap(), db0) && program.readset !! program.writeset
    modifies p`requests, p`txns, p`objects
    ensures p.Valid() && Tracks(p.Snap(), db0) && p.txns == old(p.txns) + [program]
  {
    SubmitTracks(p.Snap(), db0, program);
    p.NewTxnRequest(program);
  }

  lemma NextPrefix(programs: seq<Logic>, m: nat)
    requires m < |programs|
    ensures programs[..m] + [programs[m]] == programs[..m + 1]
    ensures programs[..|programs|] == programs
  {
  }

  method SubmitAll(p: TxnProcessor, ghost db0: Db, programs: seq<Logic>)
    requires p.Valid() && Tracks(p.Snap(), db0) && p.txns == []
    requires forall i :: 0 <= i < |programs| ==> programs[i].readset !! programs[i].writeset
    modifies p`requests, p`txns, p`objects
    ensures p.Valid() && Tracks(p.Snap(), db0) && p.txns == programs
  {
    var m := 0;
    while m < |programs|
      invariant m <= |programs| && p.txns == programs[..m]
      invariant p.Valid() && Tracks(p.Snap(), db0)
    {
      NextPrefix(programs, m);
      SubmitOne(p, db0, programs[m]);
      m := m + 1;
    }
  }

  // A client's view: a processor in either locking mode that is given programs
  // runs them all, with the outcome of the serial reference on fresh storage.
  method ProcessAll(exclusiveOnly: bool, programs: seq<Logic>) returns (p: TxnProcessor, ghost db0: Db)
    requires forall i :: 0 <= i < |programs| ==> programs[i].readset !! programs[i].writeset
    ensures fresh(p) && p.Valid() && p.txns == programs
    ensures forall k: Key :: Get(db0, k) == if k < INITIAL_RECORDS then Some(0) else None
    ensures p.storage.data == Serial(programs, |programs|, db0)
    ensures forall i :: 0 <= i < |programs| ==> EndedSerially(p.Snap(), i, db0)
  {
    p := new TxnProcessor(exclusiveOnly);
    db0 := p.storage.data;
    InitTracks(exclusiveOnly, db0);
    SubmitAll(p, db0, programs);
    RunLockingScheduler(p, db0);
  }
}
