/**
 What the locking scheduler promises, for every schedule of its steps: it gives
 the serial scheduler's results in arrival order, it never gets stuck, and it
 loses and duplicates nothing.
 */
module LockingTheorems {
  import opened Txns
  import opened LockTable
  import opened Locking

  predicate AllReturned(s: State) {
    forall i :: 0 <= i < |s.phases| ==> InStage(s.phases[i], true)
  }

  // Determinism. However workers and scheduler interleave, every transaction
  // reads, decides and writes what it would if the transactions ran one after
  // the other in arrival order.
  lemma DeterministicDecisions(exclusiveOnly: bool, db: Db, steps: seq<Step>, i: TxnId)
    requires var s := Run(exclusiveOnly, db, steps); i < |s.txns| && s.phases[i].Finished?
    ensures var s := Run(exclusiveOnly, db, steps);
      && s.phases[i].got == ReadsOf(s.txns[i], Serial(s.txns, i, db))
      && s.phases[i].out == Exec(s.txns[i], Serial(s.txns, i, db))
  {
    Reachable(exclusiveOnly, db, steps);
    assert AsSerial(Run(exclusiveOnly, db, steps), i);
  }

  // When all transactions have returned, storage is what the serial scheduler
  // leaves after the same transactions in arrival order.
  lemma DeterministicStorage(exclusiveOnly: bool, db: Db, steps: seq<Step>)
    requires AllReturned(Run(exclusiveOnly, db, steps))
    ensures var s := Run(exclusiveOnly, db, steps);
      s.db == Serial(s.txns, |s.txns|, db)
  {
    var s := Run(exclusiveOnly, db, steps);
    Reachable(exclusiveOnly, db, steps);
    forall k ensures Get(s.db, k) == Get(Before(s, |s.txns|), k) {
      assert DbOk(s, k) && Cut(s, |s.txns|, k);
    }
    SameDb(s.db, Before(s, |s.txns|));
  }

  // The committed list, in whatever order workers finished, explains storage
  // at every moment at which no commit is half applied; drained, it has the
  // effect of the arrival order.
  lemma CommittedListExplainsStorage(exclusiveOnly: bool, db: Db, steps: seq<Step>)
    ensures var s := Run(exclusiveOnly, db, steps);
      && (!CurrentIn(s, true) ==> s.db == Fold(s.committed, db))
      && (AllReturned(s) ==> Fold(s.committed, db) == Serial(s.txns, |s.txns|, db))
  {
    Reachable(exclusiveOnly, db, steps);
    var s := Run(exclusiveOnly, db, steps);
    if AllReturned(s) {
      DeterministicStorage(exclusiveOnly, db, steps);
      assert !CurrentIn(s, true);
    }
  }

  // Transaction i has fetched k, or found it missing, and has not released it.
  predicate FetchedAndLocked(s: State, i: TxnId, k: Key)
    requires i < |s.txns| == |s.phases|
  {
    && OnQueue(s.phases[i], s.txns[i], k)
    && ((s.phases[i].Running? && k !in s.phases[i].todo) || s.phases[i].Finished?)
  }

  // The transaction itself has already overwritten k.
  predicate OwnWrite(ph: Phase, k: Key) {
    ph.Finished? && ph.out.commit && k in ph.out.writes && Effective(ph, k)
  }

  // Until a transaction releases k, whatever else is written meanwhile, storage
  // has what it fetched for k, or its own write to k once it has made that.
  lemma FetchedValuesStay(exclusiveOnly: bool, db: Db, steps: seq<Step>, i: TxnId, k: Key)
    requires i < |Run(exclusiveOnly, db, steps).txns| && FetchedAndLocked(Run(exclusiveOnly, db, steps), i, k)
    ensures var s := Run(exclusiveOnly, db, steps);
      var ph := s.phases[i];
      Get(s.db, k) == if OwnWrite(ph, k) then Some(ph.out.writes[k]) else Get(ph.got, k)
  {
    var s := Run(exclusiveOnly, db, steps);
    Reachable(exclusiveOnly, db, steps);
    assert AsSerial(s, i);
    FetchedSerially(s, i, k);
    EarlierEffective(s, i, k);
    LaterNotEffective(s, i, k);
    if Effective(s.phases[i], k) {
      assert Cut(s, i + 1, k) && DbOk(s, k);
    } else {
      assert Cut(s, i, k) && DbOk(s, k);
    }
  }

  // What i fetched is the serial value, and so is what it makes of it.
  lemma FetchedSerially(s: State, i: TxnId, k: Key)
    requires |s.txns| == |s.phases| && i < |s.txns| && AsSerial(s, i) && FetchedAndLocked(s, i, k)
    ensures Get(Before(s, i), k) == Get(s.phases[i].got, k)
    ensures Effective(s.phases[i], k) ==>
      Get(Before(s, i + 1), k)
        == if OwnWrite(s.phases[i], k) then Some(s.phases[i].out.writes[k]) else Get(s.phases[i].got, k)
  {
    if s.phases[i].Finished? {
      assert Before(s, i + 1) == SerialStep(s.txns[i], Before(s, i));
    }
  }

  // While i is queued for k with all its locks, the writers of k before it have
  // had their effect.
  lemma EarlierEffective(s: State, i: TxnId, k: Key)
    requires Inv(s) && i < |s.txns| && OnQueue(s.phases[i], s.txns[i], k) && HasLocks(s.phases[i])
    ensures forall j :: 0 <= j < i && k in s.txns[j].writeset ==> Effective(s.phases[j], k)
  {
    assert AllClear(s, i) && Clear(s, i, k);
    forall j | 0 <= j < i && k in s.txns[j].writeset ensures Effective(s.phases[j], k) {
      assert !OnQueue(s.phases[j], s.txns[j], k);
      assert j < |s.txns| - |s.requests|;
    }
  }

  // And those after it have not.
  lemma LaterNotEffective(s: State, i: TxnId, k: Key)
    requires Inv(s) && i < |s.txns| && OnQueue(s.phases[i], s.txns[i], k)
    ensures forall j :: i < j < |s.txns| && k in s.txns[j].writeset ==> !Effective(s.phases[j], k)
  {
    forall j | i < j < |s.txns| && k in s.txns[j].writeset ensures !Effective(s.phases[j], k) {
      LockKeepsOut(s, i, j, k);
    }
  }

  lemma HoldersCompatible(s: State, i: TxnId, j: TxnId, k: Key)
    requires |s.txns| == |s.phases| && QueueOk(s, k)
    requires i < j < |s.txns| && Holds(QueueAt(s.locks.table, k), j) && Queued(QueueAt(s.locks.table, k), i)
    ensures !IsExclusive(s, i, k) && !IsExclusive(s, j, k) && Holds(QueueAt(s.locks.table, k), i)
  {
    var q := QueueAt(s.locks.table, k);
    var p :| 0 <= p < GrantedLen(q) && q[p].txn == j;
    var r :| 0 <= r < |q| && q[r].txn == i;
    assert Stands(s, q[p], k) && Stands(s, q[r], k) && r < p;
    GrantedIff(q, p);
  }

  // Two transactions never hold conflicting locks on one key, and a lock is
  // held only when every earlier conflicting request is gone.
  lemma LocksExclude(exclusiveOnly: bool, db: Db, steps: seq<Step>, i: TxnId, j: TxnId, k: Key)
    requires var s := Run(exclusiveOnly, db, steps);
      i < j < |s.txns| && Holds(QueueAt(s.locks.table, k), j) && Queued(QueueAt(s.locks.table, k), i)
    ensures var s := Run(exclusiveOnly, db, steps);
      && !IsExclusive(s, i, k) && !IsExclusive(s, j, k)
      && Holds(QueueAt(s.locks.table, k), i)
  {
    Reachable(exclusiveOnly, db, steps);
    assert QueueOk(Run(exclusiveOnly, db, steps), k);
    HoldersCompatible(Run(exclusiveOnly, db, steps), i, j, k);
  }

  /******* Conservation *******/

  // How often each of the lists that a transaction can be in holds it.
  function Count(ids: seq<TxnId>, i: TxnId): nat {
    multiset(ids)[i]
  }

  function Flag(b: bool): nat {
    if b then 1 else 0
  }

  // Every submitted transaction is in exactly one of: the request queue, the set
  // of those waiting for locks, the ready queue, the workers' hands, the
  // completed queue, the scheduler's hands, the results. None is there twice.
  lemma Conserved(exclusiveOnly: bool, db: Db, steps: seq<Step>, i: TxnId)
    requires i < |Run(exclusiveOnly, db, steps).txns|
    ensures var s := Run(exclusiveOnly, db, steps);
      Count(s.requests, i) + Flag(s.phases[i].Waiting?) + Count(s.ready, i) + Flag(s.phases[i].Running?)
      + Count(s.completed, i) + Flag(s.current == Some(i)) + Count(s.results, i) == 1
  {
    var s := Run(exclusiveOnly, db, steps);
    Reachable(exclusiveOnly, db, steps);
    CountDistinct(s.requests, i);
    CountDistinct(s.ready, i);
    CountDistinct(s.completed, i);
    CountDistinct(s.results, i);
    if s.phases[i].Requested? {
      assert s.requests[i - (|s.txns| - |s.requests|)] == i;
    }
  }

  // Requests are served in the order of their unique ids.
  lemma RequestsInOrder(exclusiveOnly: bool, db: Db, steps: seq<Step>)
    ensures var q := Run(exclusiveOnly, db, steps).requests;
      forall a, b :: 0 <= a < b < |q| ==> q[a] < q[b]
  {
    Reachable(exclusiveOnly, db, steps);
  }

  /******* Progress *******/

  // The oldest unfinished transaction never waits: it holds every lock that it
  // has asked for and not given back.
  lemma OldestHoldsItsLocks(s: State, i: TxnId)
    requires Inv(s) && i < |s.txns|
    requires forall j :: 0 <= j < i ==> InStage(s.phases[j], true)
    ensures AllClear(s, i) && !s.phases[i].Waiting?
    ensures forall k :: OnQueue(s.phases[i], s.txns[i], k) ==> Holds(QueueAt(s.locks.table, k), i)
  {
    forall k ensures Clear(s, i, k) {
      assert forall j :: 0 <= j < i ==> !OnQueue(s.phases[j], s.txns[j], k);
    }
    forall k | OnQueue(s.phases[i], s.txns[i], k) ensures Holds(QueueAt(s.locks.table, k), i) {
      assert QueueOk(s, k);
      HoldsIffClear(s, i, k);
    }
  }

  // A transaction that waits for a key waits for an older transaction.
  lemma WaitsPointBackwards(s: State, i: TxnId) returns (j: TxnId, k: Key)
    requires Inv(s) && i < |s.txns| && s.phases[i].Waiting?
    ensures j < i && Queued(QueueAt(s.locks.table, k), j) && Blocked(QueueAt(s.locks.table, k), i)
    ensures IsExclusive(s, j, k) || IsExclusive(s, i, k)
  {
    assert !AllClear(s, i);
    k :| k in s.txns[i].Keys() && !Clear(s, i, k);
    j :| 0 <= j < i && OnQueue(s.phases[j], s.txns[j], k) && (IsExclusive(s, j, k) || IsExclusive(s, i, k));
    assert QueueOk(s, k);
    HoldsIffClear(s, i, k);
    HoldsIffClear(s, j, k);
    BlockedIff(QueueAt(s.locks.table, k), i);
  }

  // No deadlock: while some transaction has not returned, some step other than
  // a new submission is possible.
  lemma Progress(s: State) returns (step: Step)
    requires Inv(s) && !AllReturned(s)
    ensures Enabled(s, step) && !step.Submit?
  {
    if s.current.Some? {
      var i := s.current.value;
      var stage := s.phases[i].stage;
      assert AsSerial(s, i);
      if stage.Applying? {
        if stage.todo == {} {
          step := PushCommit;
        } else {
          var k :| k in stage.todo;
          step := WriteKey(k);
        }
      } else if stage.todo == {} {
        step := Return;
      } else {
        var k :| k in stage.todo;
        assert QueueOk(s, k);
        step := ReleaseKey(k);
      }
    } else if s.requests != [] {
      step := Admit;
    } else {
      var i := OldestUnfinished(s);
      OldestHoldsItsLocks(s, i);
      match s.phases[i]
      case Ready =>
        assert i in s.ready && s.ready[0] in s.ready;
        step := Dispatch;
      case Running(todo, _) =>
        if todo == {} {
          step := RunLogic(i);
        } else {
          var k :| k in todo;
          step := ReadKey(i, k);
        }
      case Finished(_, _, _) =>
        assert InStage(s.phases[i], false);
        assert i in s.completed && s.completed[0] in s.completed;
        step := Collect;
    }
  }

  lemma OldestUnfinished(s: State) returns (i: TxnId)
    requires |s.txns| == |s.phases| && !AllReturned(s)
    ensures i < |s.txns| && !InStage(s.phases[i], true)
    ensures forall j :: 0 <= j < i ==> InStage(s.phases[j], true)
  {
    i := 0;
    while InStage(s.phases[i], true)
      invariant i < |s.phases|
      invariant forall j :: 0 <= j < i ==> InStage(s.phases[j], true)
      decreases |s.phases| - i
    {
      i := i + 1;
    }
  }

  // Steps still to come for a transaction.
  function Rank(ph: Phase, p: Logic): nat {
    var keys := |p.Keys()|;
    match ph
    case Requested => 3 * keys + 7
    case Waiting => 3 * keys + 6
    case Ready => 3 * keys + 5
    case Running(todo, _) => 2 * keys + 4 + |todo|
    case Finished(stage, _, _) =>
      match stage
      case Handed => 2 * keys + 3
      case Applying(todo) => keys + 2 + |todo|
      case Releasing(todo) => 1 + |todo|
      case Returned => 0
  }

  function Work(s: State, n: nat): nat
    requires |s.txns| == |s.phases| && n <= |s.txns|
  {
    if n == 0 then 0 else Work(s, n - 1) + Rank(s.phases[n - 1], s.txns[n - 1])
  }

  // The transaction that a step moves forward.
  function Mover(s: State, step: Step): TxnId {
    match step
    case Admit => if s.requests == [] then 0 else s.requests[0]
    case Dispatch => if s.ready == [] then 0 else s.ready[0]
    case Collect => if s.completed == [] then 0 else s.completed[0]
    case ReadKey(i, _) => i
    case RunLogic(i) => i
    case _ => if s.current.None? then 0 else s.current.value
  }

  // Whoever else changes phase in a step is woken by a release.
  lemma OthersRank(s: State, step: Step, i: TxnId)
    requires Inv(s) && Enabled(s, step) && !step.Submit? && i < |s.txns| && i != Mover(s, step)
    ensures |Do(s, step).phases| == |s.phases|
    ensures Rank(Do(s, step).phases[i], s.txns[i]) <= Rank(s.phases[i], s.txns[i])
  {
    if step.ReleaseKey? {
      ReleasePhases(s, step.key, i);
    }
  }

  lemma MoverRank(s: State, step: Step)
    requires Inv(s) && Enabled(s, step) && !step.Submit?
    ensures Mover(s, step) < |s.txns| && Do(s, step).txns == s.txns && |Do(s, step).phases| == |s.phases|
    ensures var i := Mover(s, step);
      Rank(Do(s, step).phases[i], s.txns[i]) < Rank(s.phases[i], s.txns[i])
  {
    match step
    case Admit =>
      assert s.phases[s.requests[0]].Requested?;
    case Dispatch =>
      assert s.ready[0] in s.ready;
    case Collect => CollectRank(s);
    case ReadKey(_, _) =>
    case RunLogic(_) =>
    case _ => CommitRank(s, step);
  }

  lemma CommitRank(s: State, step: Step)
    requires Inv(s) && Enabled(s, step)
    requires step.WriteKey? || step.PushCommit? || step.ReleaseKey? || step.Return?
    ensures s.current.value < |s.txns| && Do(s, step).txns == s.txns && |Do(s, step).phases| == |s.phases|
    ensures var i := s.current.value;
      Rank(Do(s, step).phases[i], s.txns[i]) < Rank(s.phases[i], s.txns[i])
  {
    var i := s.current.value;
    assert i < |s.txns|;
    match step
    case ReleaseKey(k) =>
      ReleasePhases(s, k, i);
      assert Do(s, step).phases[i].stage.todo < s.phases[i].stage.todo;
    case WriteKey(k) => WriteKeyRank(s, k);
    case _ =>
  }

  lemma WriteKeyRank(s: State, k: Key)
    requires |s.txns| == |s.phases| && Enabled(s, WriteKey(k))
    ensures var i := s.current.value;
      Rank(AfterWriteKey(s, k).phases[i], s.txns[i]) < Rank(s.phases[i], s.txns[i])
  {
    assert AfterWriteKey(s, k).phases[s.current.value].stage.todo < s.phases[s.current.value].stage.todo;
  }

  lemma CollectRank(s: State)
    requires Inv(s) && Enabled(s, Collect)
    ensures var i := s.completed[0];
      Rank(AfterCollect(s).phases[i], s.txns[i]) < Rank(s.phases[i], s.txns[i])
  {
    var i := s.completed[0];
    assert i in s.completed && AsSerial(s, i);
    SubsetSize(s.phases[i].out.writes.Keys, s.txns[i].Keys());
  }

  lemma {:induction false} WorkMonotone(s: State, s': State, n: nat, m: TxnId)
    requires |s.txns| == |s.phases| == |s'.phases| && s'.txns == s.txns && n <= |s.txns|
    requires forall i :: 0 <= i < n ==> Rank(s'.phases[i], s.txns[i]) <= Rank(s.phases[i], s.txns[i])
    requires m < n ==> Rank(s'.phases[m], s.txns[m]) < Rank(s.phases[m], s.txns[m])
    ensures Work(s', n) <= Work(s, n)
    ensures m < n ==> Work(s', n) < Work(s, n)
  {
    if n == 0 {
    } else {
      WorkMonotone(s, s', n - 1, m);
    }
  }

  // Every step that is not a new submission uses up some of the remaining work,
  // so a schedule without new submissions takes finitely many effective steps.
  lemma EveryStepCounts(s: State, step: Step)
    requires Inv(s) && Enabled(s, step) && !step.Submit?
    ensures Do(s, step).txns == s.txns
    ensures Work(Do(s, step), |s.txns|) < Work(s, |s.txns|)
  {
    var m := Mover(s, step);
    MoverRank(s, step);
    forall i | 0 <= i < |s.txns|
      ensures Rank(Do(s, step).phases[i], s.txns[i]) <= Rank(s.phases[i], s.txns[i])
    {
      if i != m {
        OthersRank(s, step, i);
      }
    }
    WorkMonotone(s, Do(s, step), |s.txns|, m);
  }

  lemma {:induction false} DrainFrom(s: State) returns (more: seq<Step>)
    requires Inv(s)
    ensures forall m :: 0 <= m < |more| ==> !more[m].Submit?
    ensures RunFrom(s, more).txns == s.txns && AllReturned(RunFrom(s, more))
    decreases Work(s, |s.txns|)
  {
    more := [];
    if !AllReturned(s) {
      var step := Progress(s);
      EveryStepCounts(s, step);
      StepKeeps(s, step);
      var rest := DrainFrom(Do(s, step));
      more := [step] + rest;
      assert RunFrom(s, [step]) == Do(s, step) by {
        assert RunFrom(s, [step][..0]) == s;
      }
      RunConcat(s, [step], rest);
    }
  }

  // From every reachable state the scheduler can drain, and however it does,
  // it ends with the serial result.
  lemma Drains(exclusiveOnly: bool, db: Db, steps: seq<Step>) returns (more: seq<Step>)
    ensures forall m :: 0 <= m < |more| ==> !more[m].Submit?
    ensures var s, s' := Run(exclusiveOnly, db, steps), Run(exclusiveOnly, db, steps + more);
      s'.txns == s.txns && AllReturned(s') && s'.db == Serial(s.txns, |s.txns|, db)
  {
    var s := Run(exclusiveOnly, db, steps);
    Reachable(exclusiveOnly, db, steps);
    more := DrainFrom(s);
    RunConcat(Init(exclusiveOnly, db), steps, more);
    DeterministicStorage(exclusiveOnly, db, steps + more);
  }

  // A drained workload of read-modify-write transactions has counted every one.
  lemma LockingLosesNoUpdate(exclusiveOnly: bool, db: Db, steps: seq<Step>, kinds: seq<Kind>)
    requires RmwWorkload(Run(exclusiveOnly, db, steps).txns, kinds)
    requires AllReturned(Run(exclusiveOnly, db, steps))
    ensures Counted(Run(exclusiveOnly, db, steps).txns, db, Run(exclusiveOnly, db, steps).db)
  {
    DeterministicStorage(exclusiveOnly, db, steps);
    NoLostUpdates(Run(exclusiveOnly, db, steps).txns, kinds, db);
  }
}
