/**
 The locking scheduler and its workers as a state machine. One step is one
 critical section, one atomic-container operation or one single-key access to
 storage; the scheduler thread's private work between them is merged into the
 step it belongs to. Both lock managers are covered: exclusiveOnly selects A.
 */
module Locking {
  import opened Txns
  import opened LockTable

  // What happens to a transaction after its logic has run.
  datatype Stage =
    | Handed                        // in completed_txns_
    | Applying(todo: set<Key>)      // the scheduler is writing its buffer to storage
    | Releasing(todo: set<Key>)     // the scheduler is releasing its locks
    | Returned                      // in txn_results_

  datatype Phase =
    | Requested                     // in txn_requests_
    | Waiting                       // admitted, blocked on some lock
    | Ready                         // in ready_txns_
    | Running(todo: set<Key>, got: map<Key, Value>)
    | Finished(stage: Stage, got: map<Key, Value>, out: Outcome)

  datatype Commit = Commit(txn: TxnId, writes: map<Key, Value>)

  // Transaction i is the one with unique_id_ i + 1.
  datatype State = State(
    exclusiveOnly: bool,
    db0: Db,
    db: Db,
    txns: seq<Logic>,
    phases: seq<Phase>,
    requests: seq<TxnId>,
    locks: LockState,
    ready: seq<TxnId>,
    completed: seq<TxnId>,
    current: Option<TxnId>,
    committed: seq<Commit>,
    results: seq<TxnId>
  )

  datatype Step =
    | Submit(txn: Logic)
    | Admit
    | Dispatch
    | ReadKey(id: TxnId, key: Key)
    | RunLogic(id: TxnId)
    | Collect
    | WriteKey(key: Key)
    | PushCommit
    | ReleaseKey(key: Key)
    | Return

  function Init(exclusiveOnly: bool, db: Db): State {
    State(exclusiveOnly, db, db, [], [], [], LockState(map[], {}), [], [], None, [], [])
  }

  predicate IsExclusive(s: State, i: TxnId, k: Key)
    requires i < |s.txns|
  {
    s.exclusiveOnly || k in s.txns[i].writeset
  }

  // All lock requests of one transaction, made in one go.
  function RequestAll(s: State, i: TxnId): LockState
    requires i < |s.txns|
  {
    s.locks.(table := map k | k in s.locks.table.Keys + s.txns[i].Keys() ::
      if k in s.txns[i].Keys() then QueueAt(s.locks.table, k) + [Request(i, IsExclusive(s, i, k))]
      else s.locks.table[k])
  }

  function SetReady(phases: seq<Phase>, ids: seq<TxnId>): (r: seq<Phase>)
    ensures |r| == |phases|
    ensures forall i :: 0 <= i < |r| ==> r[i] == if i in ids then Ready else phases[i]
  {
    seq(|phases|, i requires 0 <= i < |phases| => if i in ids then Ready else phases[i])
  }

  // The phase of the transaction the scheduler is committing or releasing.
  predicate CurrentIn(s: State, applying: bool) {
    && s.current.Some?
    && s.current.value < |s.phases|
    && s.phases[s.current.value].Finished?
    && (if applying then s.phases[s.current.value].stage.Applying? else s.phases[s.current.value].stage.Releasing?)
  }

  ghost predicate Enabled(s: State, step: Step)
    requires |s.txns| == |s.phases|
  {
    match step
    // The lock calls demand that no key is both read and written.
    case Submit(p) => p.readset !! p.writeset
    case Admit => s.current.None? && s.requests != [] && s.requests[0] < |s.txns|
    case Dispatch => s.current.None? && s.ready != [] && s.ready[0] < |s.txns|
    case ReadKey(i, k) => i < |s.txns| && s.phases[i].Running? && k in s.phases[i].todo
    case RunLogic(i) => i < |s.txns| && s.phases[i].Running? && s.phases[i].todo == {}
    case Collect =>
      s.current.None? && s.completed != [] && s.completed[0] < |s.txns| && s.phases[s.completed[0]].Finished?
    case WriteKey(k) =>
      && CurrentIn(s, true)
      && k in s.phases[s.current.value].stage.todo && k in s.phases[s.current.value].out.writes
    case PushCommit => CurrentIn(s, true) && s.phases[s.current.value].stage.todo == {}
    case ReleaseKey(k) =>
      && CurrentIn(s, false) && k in s.phases[s.current.value].stage.todo
      && Unique(QueueAt(s.locks.table, k))
    case Return => CurrentIn(s, false) && s.phases[s.current.value].stage.todo == {}
  }

  ghost function AfterSubmit(s: State, p: Logic): State {
    s.(txns := s.txns + [p], phases := s.phases + [Requested], requests := s.requests + [|s.txns|])
  }

  ghost function AfterAdmit(s: State): (s': State)
    requires |s.txns| == |s.phases| && Enabled(s, Admit)
    ensures |s'.txns| == |s'.phases| && s'.db0 == s.db0
  {
    var i := s.requests[0];
    var locks := RequestAll(s, i);
    var granted := forall k :: k in s.txns[i].Keys() ==> Holds(QueueAt(locks.table, k), i);
    s.(requests := s.requests[1..], locks := locks,
       phases := s.phases[i := if granted then Ready else Waiting],
       ready := if granted then s.ready + [i] else s.ready)
  }

  ghost function AfterDispatch(s: State): State
    requires |s.txns| == |s.phases| && Enabled(s, Dispatch)
  {
    var i := s.ready[0];
    s.(ready := s.ready[1..], phases := s.phases[i := Running(s.txns[i].Keys(), map[])])
  }

  ghost function AfterReadKey(s: State, i: TxnId, k: Key): State
    requires |s.txns| == |s.phases| && Enabled(s, ReadKey(i, k))
  {
    var got := if k in s.db then s.phases[i].got[k := s.db[k]] else s.phases[i].got;
    s.(phases := s.phases[i := Running(s.phases[i].todo - {k}, got)])
  }

  ghost function AfterRunLogic(s: State, i: TxnId): State
    requires |s.txns| == |s.phases| && Enabled(s, RunLogic(i))
  {
    var got := s.phases[i].got;
    s.(phases := s.phases[i := Finished(Handed, got, s.txns[i].run(got))], completed := s.completed + [i])
  }

  ghost function AfterCollect(s: State): State
    requires |s.txns| == |s.phases| && Enabled(s, Collect)
  {
    var i := s.completed[0];
    var out := s.phases[i].out;
    var stage := if out.commit then Applying(out.writes.Keys) else Releasing(s.txns[i].Keys());
    s.(completed := s.completed[1..], current := Some(i), phases := s.phases[i := s.phases[i].(stage := stage)])
  }

  ghost function AfterWriteKey(s: State, k: Key): State
    requires |s.txns| == |s.phases| && Enabled(s, WriteKey(k))
  {
    var ph := s.phases[s.current.value];
    s.(db := s.db[k := ph.out.writes[k]],
       phases := s.phases[s.current.value := ph.(stage := Applying(ph.stage.todo - {k}))])
  }

  ghost function AfterPushCommit(s: State): State
    requires |s.txns| == |s.phases| && Enabled(s, PushCommit)
  {
    var i := s.current.value;
    s.(committed := s.committed + [Commit(i, s.phases[i].out.writes)],
       phases := s.phases[i := s.phases[i].(stage := Releasing(s.txns[i].Keys()))])
  }

  ghost function AfterReleaseKey(s: State, k: Key): (s': State)
    requires |s.txns| == |s.phases| && Enabled(s, ReleaseKey(k))
    ensures |s'.txns| == |s'.phases| && s'.db0 == s.db0
  {
    var i := s.current.value;
    var woken := Woken(s.locks, i, k);
    var phases := s.phases[i := s.phases[i].(stage := Releasing(s.phases[i].stage.todo - {k}))];
    s.(locks := Release(s.locks, i, k), ready := s.ready + woken, phases := SetReady(phases, woken))
  }

  ghost function AfterReturn(s: State): State
    requires |s.txns| == |s.phases| && Enabled(s, Return)
  {
    var i := s.current.value;
    s.(current := None, results := s.results + [i], phases := s.phases[i := s.phases[i].(stage := Returned)])
  }

  ghost function Do(s: State, step: Step): (s': State)
    requires |s.txns| == |s.phases|
    ensures |s'.txns| == |s'.phases| && s'.db0 == s.db0
  {
    if !Enabled(s, step) then s else
    match step
    case Submit(p) => AfterSubmit(s, p)
    case Admit => AfterAdmit(s)
    case Dispatch => AfterDispatch(s)
    case ReadKey(i, k) => AfterReadKey(s, i, k)
    case RunLogic(i) => AfterRunLogic(s, i)
    case Collect => AfterCollect(s)
    case WriteKey(k) => AfterWriteKey(s, k)
    case PushCommit => AfterPushCommit(s)
    case ReleaseKey(k) => AfterReleaseKey(s, k)
    case Return => AfterReturn(s)
  }

  // Any sequence of steps is a schedule; a step that is not enabled does nothing.
  ghost function RunFrom(s: State, steps: seq<Step>): (s': State)
    requires |s.txns| == |s.phases|
    ensures |s'.txns| == |s'.phases| && s'.db0 == s.db0
  {
    if steps == [] then s else Do(RunFrom(s, steps[..|steps| - 1]), steps[|steps| - 1])
  }

  ghost function Run(exclusiveOnly: bool, db: Db, steps: seq<Step>): (s: State)
    ensures |s.txns| == |s.phases|
  {
    RunFrom(Init(exclusiveOnly, db), steps)
  }

  /******* Invariant *******/

  // Transaction p in phase ph has a request for k in the lock table.
  predicate OnQueue(ph: Phase, p: Logic, k: Key) {
    k in p.Keys() &&
    match ph
    case Requested => false
    case Waiting => true
    case Ready => true
    case Running(_, _) => true
    case Finished(stage, _, _) =>
      match stage
      case Handed => true
      case Applying(_) => true
      case Releasing(todo) => k in todo
      case Returned => false
  }

  predicate HasLocks(ph: Phase) {
    ph.Ready? || ph.Running? || ph.Finished?
  }

  // The effect of the transaction on k, if any, has reached the database.
  predicate Effective(ph: Phase, k: Key) {
    ph.Finished? && !ph.stage.Handed? && (ph.stage.Applying? ==> k !in ph.stage.todo)
  }

  // r is the request for k that its transaction has in the lock table.
  predicate Stands(s: State, r: Request, k: Key)
    requires |s.txns| == |s.phases|
  {
    && r.txn < |s.txns|
    && OnQueue(s.phases[r.txn], s.txns[r.txn], k)
    && r.exclusive == IsExclusive(s, r.txn, k)
  }

  ghost predicate QueueOk(s: State, k: Key)
    requires |s.txns| == |s.phases|
  {
    var q := QueueAt(s.locks.table, k);
    && Ascending(q)
    && (forall p :: 0 <= p < |q| ==> Stands(s, q[p], k))
    && (forall i :: 0 <= i < |s.txns| && OnQueue(s.phases[i], s.txns[i], k) ==> Queued(q, i))
  }

  // No earlier transaction has a conflicting request for k in the lock table.
  ghost predicate Clear(s: State, i: TxnId, k: Key)
    requires |s.txns| == |s.phases| && i < |s.txns|
  {
    forall j :: 0 <= j < i && OnQueue(s.phases[j], s.txns[j], k) ==>
      !IsExclusive(s, j, k) && !IsExclusive(s, i, k)
  }

  ghost predicate AllClear(s: State, i: TxnId)
    requires |s.txns| == |s.phases| && i < |s.txns|
  {
    forall k :: k in s.txns[i].Keys() ==> Clear(s, i, k)
  }

  ghost predicate LocksOk(s: State)
    requires |s.txns| == |s.phases|
  {
    && (forall k :: QueueOk(s, k))
    && (forall i :: 0 <= i < |s.txns| && HasLocks(s.phases[i]) ==> AllClear(s, i))
    && (forall i :: 0 <= i < |s.txns| && s.phases[i].Waiting? ==> !AllClear(s, i))
    && (forall i :: i in s.locks.released ==>
          i < |s.txns| && s.phases[i].Finished? && (s.phases[i].stage.Releasing? || s.phases[i].stage.Returned?))
  }

  predicate InStage(ph: Phase, returned: bool) {
    ph.Finished? && (if returned then ph.stage.Returned? else ph.stage.Handed?)
  }

  // Every transaction is in exactly one place, and in that place once.
  ghost predicate ListsOk(s: State)
    requires |s.txns| == |s.phases|
  {
    && |s.requests| <= |s.txns|
    && (forall p :: 0 <= p < |s.requests| ==> s.requests[p] == |s.txns| - |s.requests| + p)
    && (forall i :: 0 <= i < |s.txns| ==> (s.phases[i].Requested? <==> i >= |s.txns| - |s.requests|))
    && Distinct(s.ready) && Distinct(s.completed) && Distinct(s.results)
    && (forall i: TxnId :: i in s.ready <==> i < |s.txns| && s.phases[i].Ready?)
    && (forall i: TxnId :: i in s.completed <==> i < |s.txns| && InStage(s.phases[i], false))
    && (forall i: TxnId :: i in s.results <==> i < |s.txns| && InStage(s.phases[i], true))
    && (forall i :: 0 <= i < |s.txns| && s.phases[i].Finished? ==>
          (s.current == Some(i) <==> s.phases[i].stage.Applying? || s.phases[i].stage.Releasing?))
    && (s.current.Some? ==> s.current.value < |s.txns| && s.phases[s.current.value].Finished?)
  }

  // The database the serial scheduler has when it comes to transaction i.
  function Before(s: State, i: nat): Db
    requires i <= |s.txns|
  {
    Serial(s.txns, i, s.db0)
  }

  // What transaction i has read, decided and written is what it would serially.
  ghost predicate AsSerial(s: State, i: TxnId)
    requires |s.txns| == |s.phases| && i < |s.txns|
  {
    var p := s.txns[i];
    match s.phases[i]
    case Running(todo, got) =>
      && todo <= p.Keys() && got.Keys <= p.Keys() - todo
      && forall k :: k in p.Keys() - todo ==> Get(got, k) == Get(Before(s, i), k)
    case Finished(stage, got, out) =>
      && got == ReadsOf(p, Before(s, i)) && out == p.run(got)
      && (stage.Applying? ==> out.commit && stage.todo <= out.writes.Keys)
      && (stage.Releasing? ==> stage.todo <= p.Keys())
    case _ => true
  }

  // Exactly the writers of k before i have had their effect on k.
  ghost predicate Cut(s: State, i: nat, k: Key)
    requires |s.txns| == |s.phases| && i <= |s.txns|
  {
    && (forall j :: 0 <= j < i && k in s.txns[j].writeset ==> Effective(s.phases[j], k))
    && (forall j :: i <= j < |s.txns| && k in s.txns[j].writeset ==> !Effective(s.phases[j], k))
  }

  ghost predicate DbOk(s: State, k: Key)
    requires |s.txns| == |s.phases|
  {
    forall i :: 0 <= i <= |s.txns| && Cut(s, i, k) ==> Get(s.db, k) == Get(Before(s, i), k)
  }

  // Storage as the committed list alone explains it.
  function Fold(committed: seq<Commit>, db0: Db): Db {
    if committed == [] then db0
    else Fold(committed[..|committed| - 1], db0) + committed[|committed| - 1].writes
  }

  ghost predicate FoldOk(s: State)
    requires |s.txns| == |s.phases|
  {
    && (CurrentIn(s, true) ==>
          var ph := s.phases[s.current.value];
          s.db == Fold(s.committed, s.db0) + Applied(ph.out.writes, ph.stage.todo))
    && (!CurrentIn(s, true) ==> s.db == Fold(s.committed, s.db0))
  }

  ghost predicate Inv(s: State) {
    && |s.txns| == |s.phases|
    && LocksOk(s)
    && ListsOk(s)
    && (forall i :: 0 <= i < |s.txns| ==> AsSerial(s, i))
    && (forall k :: DbOk(s, k))
    && FoldOk(s)
  }

  /******* Every step keeps the invariant *******/

  // The lock table's verdict and the arrival order say the same thing: a queued
  // transaction holds the lock exactly when no earlier conflicting one is queued.
  lemma HoldsIffClear(s: State, i: TxnId, k: Key)
    requires |s.txns| == |s.phases| && i < |s.txns|
    requires QueueOk(s, k) && OnQueue(s.phases[i], s.txns[i], k)
    ensures Unique(QueueAt(s.locks.table, k)) && Queued(QueueAt(s.locks.table, k), i)
    ensures Holds(QueueAt(s.locks.table, k), i) <==> Clear(s, i, k)
  {
    var q := QueueAt(s.locks.table, k);
    assert Queued(q, i);
    var p :| 0 <= p < |q| && q[p].txn == i;
    GrantedIff(q, p);
    AheadIsEarlier(s, i, k, p);
  }

  // Position in the queue is arrival order.
  lemma AheadIsEarlier(s: State, i: TxnId, k: Key, p: nat)
    requires |s.txns| == |s.phases| && i < |s.txns|
    requires QueueOk(s, k) && p < |QueueAt(s.locks.table, k)| && QueueAt(s.locks.table, k)[p].txn == i
    ensures Clear(s, i, k) <==> CompatibleAhead(QueueAt(s.locks.table, k), p)
  {
    var q := QueueAt(s.locks.table, k);
    assert Stands(s, q[p], k);
    if CompatibleAhead(q, p) {
      forall j | 0 <= j < i && OnQueue(s.phases[j], s.txns[j], k)
        ensures !IsExclusive(s, j, k) && !IsExclusive(s, i, k)
      {
        assert Queued(q, j);
        var r :| 0 <= r < |q| && q[r].txn == j;
        assert r < p && Stands(s, q[r], k);
      }
    } else {
      var r :| 0 <= r < p && (q[r].exclusive || q[p].exclusive);
      assert Stands(s, q[r], k) && q[r].txn < i;
      assert !Clear(s, i, k);
    }
  }

  // Steps that leave the lock table alone and change no one's standing in it.
  lemma LocksFrame(s: State, s': State)
    requires |s.txns| == |s.phases| == |s'.phases| && LocksOk(s)
    requires s'.txns == s.txns && s'.exclusiveOnly == s.exclusiveOnly && s'.locks == s.locks
    requires forall i :: 0 <= i < |s.txns| ==>
      && (forall k :: OnQueue(s'.phases[i], s.txns[i], k) == OnQueue(s.phases[i], s.txns[i], k))
      && HasLocks(s'.phases[i]) == HasLocks(s.phases[i])
      && s'.phases[i].Waiting? == s.phases[i].Waiting?
      && (i in s.locks.released ==>
            s'.phases[i].Finished? && (s'.phases[i].stage.Releasing? || s'.phases[i].stage.Returned?))
    ensures LocksOk(s')
  {
    forall k ensures QueueOk(s', k) {
      assert QueueOk(s, k);
    }
    forall i, k | 0 <= i < |s.txns| ensures Clear(s', i, k) <==> Clear(s, i, k) {
    }
    forall i | 0 <= i < |s.txns| ensures AllClear(s', i) <==> AllClear(s, i) {
    }
  }

  // Steps that change neither the database nor whose effects have reached it.
  lemma DbFrame(s: State, s': State)
    requires |s.txns| == |s.phases| == |s'.phases| && (forall k :: DbOk(s, k))
    requires s'.txns == s.txns && s'.db0 == s.db0 && s'.db == s.db
    requires forall i, k :: 0 <= i < |s.txns| && k in s.txns[i].writeset ==>
      Effective(s'.phases[i], k) == Effective(s.phases[i], k)
    ensures forall k :: DbOk(s', k)
  {
    forall k ensures DbOk(s', k) {
      assert DbOk(s, k);
      forall i | 0 <= i <= |s.txns| && Cut(s', i, k) ensures Cut(s, i, k) {
      }
    }
  }

  // A transaction that is queued for k keeps later conflicting ones from all of
  // their locks.
  lemma LockKeepsOut(s: State, i: TxnId, j: TxnId, k: Key)
    requires |s.txns| == |s.phases| && LocksOk(s)
    requires i < j < |s.txns| && OnQueue(s.phases[i], s.txns[i], k) && k in s.txns[j].Keys()
    requires k in s.txns[i].writeset || k in s.txns[j].writeset
    ensures !HasLocks(s.phases[j])
  {
    assert !Clear(s, j, k);
    assert !AllClear(s, j);
  }

  // While a transaction holds its locks and has not started to write, storage
  // has for each of its keys exactly the value the serial run would show it.
  lemma ReadsCurrent(s: State, i: TxnId, k: Key)
    requires |s.txns| == |s.phases| && LocksOk(s) && ListsOk(s) && DbOk(s, k)
    requires i < |s.txns| && k in s.txns[i].Keys()
    requires s.phases[i].Ready? || s.phases[i].Running? || InStage(s.phases[i], false)
    ensures Get(s.db, k) == Get(Before(s, i), k)
  {
    assert AllClear(s, i);
    forall j | 0 <= j < i && k in s.txns[j].writeset ensures Effective(s.phases[j], k) {
      assert !OnQueue(s.phases[j], s.txns[j], k) by {
        assert Clear(s, i, k);
      }
      assert j < |s.txns| - |s.requests|;
    }
    forall j | i <= j < |s.txns| && k in s.txns[j].writeset ensures !Effective(s.phases[j], k) {
      if j > i {
        LockKeepsOut(s, i, j, k);
      }
    }
    assert Cut(s, i, k) && DbOk(s, k);
  }

  lemma SubmitLocks(s: State, p: Logic)
    requires Inv(s) && Enabled(s, Submit(p))
    ensures LocksOk(AfterSubmit(s, p))
  {
    var s', n := AfterSubmit(s, p), |s.txns|;
    assert forall i :: 0 <= i < n ==> s'.txns[i] == s.txns[i] && s'.phases[i] == s.phases[i];
    forall k ensures QueueOk(s', k) {
      assert QueueOk(s, k);
    }
    forall i, k | 0 <= i < n ensures Clear(s', i, k) <==> Clear(s, i, k) {
      assert forall j :: 0 <= j < i ==>
        OnQueue(s'.phases[j], s'.txns[j], k) == OnQueue(s.phases[j], s.txns[j], k)
        && IsExclusive(s', j, k) == IsExclusive(s, j, k);
    }
    forall i | 0 <= i < n ensures AllClear(s', i) <==> AllClear(s, i) {
    }
  }

  // An admission queues the requests of the transaction behind all others.
  lemma AdmitMoves(s: State, k: Key)
    requires |s.txns| == |s.phases| && Enabled(s, Admit)
    ensures var s', i := AfterAdmit(s), s.requests[0];
      QueueAt(s'.locks.table, k)
        == QueueAt(s.locks.table, k) + if k in s.txns[i].Keys() then [Request(i, IsExclusive(s, i, k))] else []
  {
  }

  // s' is s after the admission of i.
  ghost predicate JustAdmitted(s: State, s': State, i: TxnId) {
    && |s.txns| == |s.phases| && i < |s.txns| && s.phases[i].Requested?
    && s'.txns == s.txns && s'.exclusiveOnly == s.exclusiveOnly && s'.locks.released == s.locks.released
    && |s'.phases| == |s.phases|
    && (forall j :: 0 <= j < |s.phases| && j != i ==> s'.phases[j] == s.phases[j])
    && (forall j :: i < j < |s.phases| ==> s.phases[j].Requested?)
    && (s'.phases[i].Waiting? || s'.phases[i].Ready?)
    && (s'.phases[i].Ready? <==> forall k :: k in s.txns[i].Keys() ==> Holds(QueueAt(s'.locks.table, k), i))
  }

  lemma AdmitsOne(s: State)
    requires |s.txns| == |s.phases| && ListsOk(s) && Enabled(s, Admit)
    ensures JustAdmitted(s, AfterAdmit(s), s.requests[0])
  {
    assert s.requests[0] == |s.txns| - |s.requests|;
  }

  lemma AdmitQueueAt(s: State, s': State, i: TxnId, k: Key)
    requires JustAdmitted(s, s', i) && QueueOk(s, k)
    requires QueueAt(s'.locks.table, k)
      == QueueAt(s.locks.table, k) + if k in s.txns[i].Keys() then [Request(i, IsExclusive(s, i, k))] else []
    ensures QueueOk(s', k)
  {
    var q, q' := QueueAt(s.locks.table, k), QueueAt(s'.locks.table, k);
    forall p | 0 <= p < |q| ensures q[p].txn < i && Stands(s', q[p], k) {
      assert Stands(s, q[p], k);
    }
    if k in s.txns[i].Keys() {
      var r := Request(i, IsExclusive(s, i, k));
      assert q' == q + [r] && Stands(s', r, k);
      forall j | 0 <= j < |s.txns| && OnQueue(s'.phases[j], s'.txns[j], k) ensures Queued(q', j) {
        AppendElements(q, r, j);
      }
    } else {
      assert q' == q;
    }
  }

  // No one stands before anyone earlier because of an admission.
  lemma AdmitClears(s: State, s': State, i: TxnId)
    requires JustAdmitted(s, s', i)
    ensures forall j, k :: 0 <= j <= i ==> (Clear(s', j, k) <==> Clear(s, j, k))
    ensures forall j :: 0 <= j <= i ==> (AllClear(s', j) <==> AllClear(s, j))
  {
    forall j, k | 0 <= j <= i ensures Clear(s', j, k) <==> Clear(s, j, k) {
    }
    forall j | 0 <= j <= i ensures AllClear(s', j) <==> AllClear(s, j) {
    }
  }

  lemma AdmitLocks(s: State)
    requires Inv(s) && Enabled(s, Admit)
    ensures LocksOk(AfterAdmit(s))
  {
    var s', i := AfterAdmit(s), s.requests[0];
    AdmitsOne(s);
    forall k ensures QueueOk(s', k) {
      AdmitMoves(s, k);
      AdmitQueueAt(s, s', i, k);
    }
    AdmitStanding(s, s', i);
  }

  lemma AdmitStanding(s: State, s': State, i: TxnId)
    requires JustAdmitted(s, s', i) && LocksOk(s) && forall k :: QueueOk(s', k)
    ensures LocksOk(s')
  {
    AdmitClears(s, s', i);
    forall k | k in s.txns[i].Keys()
      ensures Holds(QueueAt(s'.locks.table, k), i) <==> Clear(s', i, k)
    {
      HoldsIffClear(s', i, k);
    }
    assert s'.phases[i].Ready? <==> AllClear(s', i);
  }

  lemma GrantsWereWaiting(s: State, k: Key, x: TxnId)
    requires Inv(s) && Enabled(s, ReleaseKey(k))
    ensures KeptLen(QueueAt(s.locks.table, k), s.current.value)
         <= GrantedLen(Remove(QueueAt(s.locks.table, k), s.current.value))
    ensures x in NewGrants(QueueAt(s.locks.table, k), s.current.value) ==>
              x < |s.txns| && s.phases[x].Waiting? && !Clear(s, x, k)
  {
    var q, t := QueueAt(s.locks.table, k), s.current.value;
    GrantsPersist(q, t);
    NewGrantsExact(q, t, x);
    assert QueueOk(s, k);
    if x in NewGrants(q, t) {
      assert Queued(q, x);
      HoldsIffClear(s, x, k);
      assert !AllClear(s, x);
    }
  }

  // What a release makes of a phase.
  ghost predicate ReleasedPhase(before: Phase, after: Phase, own: bool, woken: bool, k: Key) {
    if own then before.Finished? && before.stage.Releasing? && after == before.(stage := Releasing(before.stage.todo - {k}))
    else if woken then before.Waiting? && after == Ready
    else after == before
  }

  lemma ReleasedQueued(before: Phase, after: Phase, own: bool, woken: bool, p: Logic, k: Key)
    requires ReleasedPhase(before, after, own, woken, k)
    ensures forall kk :: OnQueue(after, p, kk) == (OnQueue(before, p, kk) && !(own && kk == k))
  {
  }

  lemma ReleaseMoves(s: State, k: Key, x: TxnId)
    requires Inv(s) && Enabled(s, ReleaseKey(k)) && x < |s.txns|
    ensures var t := s.current.value;
      ReleasedPhase(s.phases[x], AfterReleaseKey(s, k).phases[x], x == t, x in Woken(s.locks, t, k), k)
    ensures s.current.value !in Woken(s.locks, s.current.value, k)
  {
    WokenWait(s, k, x);
    WokenWait(s, k, s.current.value);
  }

  // How a release changes the phases: only the releasing transaction moves, and
  // some waiting ones become ready.
  lemma ReleasePhases(s: State, k: Key, x: TxnId)
    requires Inv(s) && Enabled(s, ReleaseKey(k)) && x < |s.txns|
    ensures var s', t := AfterReleaseKey(s, k), s.current.value;
      && (x == t ==> s'.phases[t] == s.phases[t].(stage := Releasing(s.phases[t].stage.todo - {k})))
      && (x != t ==> s'.phases[x] == s.phases[x] || (s'.phases[x] == Ready && s.phases[x].Waiting?))
      && (s'.phases[x] != s.phases[x] && x != t <==> x in Woken(s.locks, t, k))
      && (forall kk :: OnQueue(s'.phases[x], s.txns[x], kk)
            == (OnQueue(s.phases[x], s.txns[x], kk) && !(x == t && kk == k)))
  {
    var s', t := AfterReleaseKey(s, k), s.current.value;
    ReleaseMoves(s, k, x);
    ReleasedQueued(s.phases[x], s'.phases[x], x == t, x in Woken(s.locks, t, k), s.txns[x], k);
  }

  lemma WokenWait(s: State, k: Key, x: TxnId)
    requires Inv(s) && Enabled(s, ReleaseKey(k))
    ensures x in Woken(s.locks, s.current.value, k) ==> x < |s.txns| && s.phases[x].Waiting?
  {
    GrantsWereWaiting(s, k, x);
    RunnableMembers(NewGrants(QueueAt(s.locks.table, k), s.current.value), Release(s.locks, s.current.value, k), x);
  }

  lemma ReleaseQueues(s: State, k: Key)
    requires Inv(s) && Enabled(s, ReleaseKey(k))
    ensures forall kk :: QueueOk(AfterReleaseKey(s, k), kk)
  {
    forall kk ensures QueueOk(AfterReleaseKey(s, k), kk) {
      ReleaseQueueAt(s, k, kk);
    }
  }

  lemma ReleaseQueueAt(s: State, k: Key, kk: Key)
    requires Inv(s) && Enabled(s, ReleaseKey(k))
    ensures QueueOk(AfterReleaseKey(s, k), kk)
  {
    var s', t := AfterReleaseKey(s, k), s.current.value;
    var q, q' := QueueAt(s.locks.table, kk), QueueAt(s'.locks.table, kk);
    assert QueueOk(s, kk);
    assert q' == if kk == k then Remove(q, t) else q;
    if kk == k {
      RemoveAscending(q, t);
    }
    forall p | 0 <= p < |q'| ensures Stands(s', q'[p], kk) {
      if kk == k {
        RemoveAt(q, t, p);
        RemoveElements(q, t, q'[p].txn);
        assert Queued(q', q'[p].txn);
        assert Stands(s, q[Skip(p, Position(q, t))], k);
      }
      ReleasePhases(s, k, q'[p].txn);
    }
    forall i | 0 <= i < |s.txns| && OnQueue(s'.phases[i], s.txns[i], kk) ensures Queued(q', i) {
      ReleasePhases(s, k, i);
      if kk == k {
        RemoveElements(q, t, i);
      }
    }
  }

  // A transaction waits for nothing exactly when nobody is in its way.
  lemma NoWaitIffClear(s: State, x: TxnId)
    requires |s.txns| == |s.phases| && x < |s.txns| && forall k :: QueueOk(s, k)
    requires s.phases[x].Waiting? || s.phases[x].Ready?
    ensures Waits(s.locks.table, x) == 0 <==> AllClear(s, x)
  {
    var table := s.locks.table;
    forall k | k in s.txns[x].Keys()
      ensures k in WaitingKeys(table, x) <==> !Clear(s, x, k)
    {
      assert QueueOk(s, k);
      HoldsIffClear(s, x, k);
      BlockedIff(QueueAt(table, k), x);
    }
    forall k | k in WaitingKeys(table, x) ensures k in s.txns[x].Keys() {
      assert QueueOk(s, k);
    }
    if AllClear(s, x) {
      assert WaitingKeys(table, x) == {};
    } else {
      var k :| k in s.txns[x].Keys() && !Clear(s, x, k);
      assert k in WaitingKeys(table, x);
    }
  }

  // Releasing a lock makes ready exactly those waiting transactions that no
  // earlier conflicting transaction stands in the way of any more.
  lemma WokenExactly(s: State, k: Key, x: TxnId)
    requires Inv(s) && Enabled(s, ReleaseKey(k)) && x < |s.txns|
    ensures x in Woken(s.locks, s.current.value, k)
       <==> s.phases[x].Waiting? && AllClear(AfterReleaseKey(s, k), x)
  {
    if s.phases[x].Waiting? {
      WaiterWoken(s, k, x);
    } else {
      WokenWait(s, k, x);
    }
  }

  // A waiting transaction is woken when its last wait ends.
  lemma WaiterWoken(s: State, k: Key, x: TxnId)
    requires Inv(s) && Enabled(s, ReleaseKey(k)) && x < |s.txns| && s.phases[x].Waiting?
    ensures x in Woken(s.locks, s.current.value, k) <==> AllClear(AfterReleaseKey(s, k), x)
  {
    var s' := AfterReleaseKey(s, k);
    ReleaseQueues(s, k);
    ReleasePhases(s, k, x);
    NoWaitIffClear(s, x);
    NoWaitIffClear(s', x);
    WokenWhenLastWaitEnds(s.locks, s.current.value, k, x);
  }

  // A release changes the standing of others at the released key only.
  lemma ReleaseClears(s: State, k: Key, x: TxnId)
    requires Inv(s) && Enabled(s, ReleaseKey(k)) && x < |s.txns|
    ensures forall kk :: Clear(s, x, kk) ==> Clear(AfterReleaseKey(s, k), x, kk)
    ensures forall kk :: kk != k ==> (Clear(s, x, kk) <==> Clear(AfterReleaseKey(s, k), x, kk))
  {
    forall j | 0 <= j < |s.txns| {
      ReleasePhases(s, k, j);
    }
  }

  lemma ReleaseLocks(s: State, k: Key)
    requires Inv(s) && Enabled(s, ReleaseKey(k))
    ensures LocksOk(AfterReleaseKey(s, k))
  {
    var s' := AfterReleaseKey(s, k);
    ReleaseQueues(s, k);
    forall x | 0 <= x < |s.txns|
      ensures HasLocks(s'.phases[x]) ==> AllClear(s', x)
      ensures s'.phases[x].Waiting? ==> !AllClear(s', x)
      ensures x in s'.locks.released ==>
                s'.phases[x].Finished? && (s'.phases[x].stage.Releasing? || s'.phases[x].stage.Returned?)
    {
      ReleasePhases(s, k, x);
      WokenExactly(s, k, x);
      ReleaseClears(s, k, x);
      assert HasLocks(s.phases[x]) ==> AllClear(s, x);
    }
  }

  lemma ReleaseReady(s: State, k: Key)
    requires Inv(s) && Enabled(s, ReleaseKey(k))
    ensures Distinct(AfterReleaseKey(s, k).ready)
    ensures forall x: TxnId :: x in Woken(s.locks, s.current.value, k) ==> x < |s.txns| && s.phases[x].Waiting?
  {
    var woken := Woken(s.locks, s.current.value, k);
    forall x: TxnId ensures x in woken ==> x < |s.txns| && s.phases[x].Waiting? {
      WokenWait(s, k, x);
    }
    WokenDistinct(s.locks, s.current.value, k);
    assert forall x: TxnId :: x in s.ready ==> s.phases[x].Ready?;
    DistinctAppend(s.ready, woken);
  }

  lemma WokenDistinct(ls: LockState, t: TxnId, k: Key)
    requires Unique(QueueAt(ls.table, k))
    ensures Distinct(Woken(ls, t, k))
  {
    GrantsPersist(QueueAt(ls.table, k), t);
    NewGrantsUnique(QueueAt(ls.table, k), t);
    RunnableDistinct(NewGrants(QueueAt(ls.table, k), t), Release(ls, t, k));
  }

  lemma DistinctAppend(xs: seq<TxnId>, ys: seq<TxnId>)
    requires Distinct(xs) && Distinct(ys) && forall x :: x in xs ==> x !in ys
    ensures Distinct(xs + ys)
  {
    forall i, j | 0 <= i < j < |xs + ys| ensures (xs + ys)[i] != (xs + ys)[j] {
      if i < |xs| <= j {
        assert xs[i] in xs && ys[j - |xs|] in ys;
      }
    }
  }

  lemma {:induction false} RunnableDistinct(ids: seq<TxnId>, ls: LockState)
    requires Distinct(ids)
    ensures Distinct(Runnable(ids, ls))
  {
    if ids == [] {
    } else {
      RunnableDistinct(ids[..|ids| - 1], ls);
      RunnableMembers(ids[..|ids| - 1], ls, ids[|ids| - 1]);
    }
  }

  lemma LocksKept(s: State, step: Step)
    requires Inv(s) && Enabled(s, step)
    ensures LocksOk(Do(s, step))
  {
    match step
    case Submit(p) => SubmitLocks(s, p);
    case Admit => AdmitLocks(s);
    case ReleaseKey(k) => ReleaseLocks(s, k);
    case _ => StandingKept(s, step);
  }

  // Other steps change no one's standing in the lock table.
  lemma StandingStays(s: State, step: Step, i: TxnId)
    requires |s.txns| == |s.phases| && ListsOk(s) && Enabled(s, step) && i < |s.txns| && AsSerial(s, i)
    requires !step.Submit? && !step.Admit? && !step.ReleaseKey?
    ensures i < |Do(s, step).phases|
    ensures var ph, ph' := s.phases[i], Do(s, step).phases[i];
      && (forall k :: OnQueue(ph', s.txns[i], k) == OnQueue(ph, s.txns[i], k))
      && HasLocks(ph') == HasLocks(ph) && ph'.Waiting? == ph.Waiting?
      && (ph.Finished? && (ph.stage.Releasing? || ph.stage.Returned?) ==>
            ph'.Finished? && (ph'.stage.Releasing? || ph'.stage.Returned?))
  {
    assert step.Collect? ==> s.completed[0] in s.completed;
    assert step.Dispatch? ==> s.ready[0] in s.ready;
  }

  lemma StandingKept(s: State, step: Step)
    requires |s.txns| == |s.phases| && LocksOk(s) && ListsOk(s) && Enabled(s, step)
    requires forall i :: 0 <= i < |s.txns| ==> AsSerial(s, i)
    requires !step.Submit? && !step.Admit? && !step.ReleaseKey?
    ensures LocksOk(Do(s, step))
  {
    var s' := Do(s, step);
    TableStays(s, step);
    forall i | 0 <= i < |s.txns| {
      StandingStays(s, step, i);
    }
    LocksFrame(s, s');
  }

  lemma TableStays(s: State, step: Step)
    requires |s.txns| == |s.phases| && Enabled(s, step)
    requires !step.Submit? && !step.Admit? && !step.ReleaseKey?
    ensures var s' := Do(s, step); s'.txns == s.txns && s'.exclusiveOnly == s.exclusiveOnly && s'.locks == s.locks
  {
  }

  lemma ListsKept(s: State, step: Step)
    requires Inv(s) && Enabled(s, step)
    ensures ListsOk(Do(s, step))
  {
    match step
    case Admit => AdmitLists(s);
    case Dispatch => DispatchLists(s);
    case Collect => CollectLists(s);
    case ReleaseKey(k) => ReleaseLists(s, k);
    case Submit(p) => SubmitLists(s, p);
    case RunLogic(i) => RunLogicLists(s, i);
    case Return => ReturnLists(s);
    case _ => OtherLists(s, step);
  }

  lemma OtherLists(s: State, step: Step)
    requires |s.txns| == |s.phases| && ListsOk(s) && Enabled(s, step)
    requires step.ReadKey? || step.WriteKey? || step.PushCommit?
    ensures ListsOk(Do(s, step))
  {
  }

  lemma SubmitLists(s: State, p: Logic)
    requires |s.txns| == |s.phases| && ListsOk(s) && Enabled(s, Submit(p))
    ensures ListsOk(AfterSubmit(s, p))
  {
  }

  lemma RunLogicLists(s: State, i: TxnId)
    requires |s.txns| == |s.phases| && ListsOk(s) && Enabled(s, RunLogic(i))
    ensures ListsOk(AfterRunLogic(s, i))
  {
    assert i !in s.completed;
    DistinctAppend(s.completed, [i]);
  }

  lemma ReturnLists(s: State)
    requires |s.txns| == |s.phases| && ListsOk(s) && Enabled(s, Return)
    ensures ListsOk(AfterReturn(s))
  {
    assert s.current.value !in s.results;
    DistinctAppend(s.results, [s.current.value]);
  }

  lemma AdmitLists(s: State)
    requires |s.txns| == |s.phases| && ListsOk(s) && Enabled(s, Admit)
    ensures ListsOk(AfterAdmit(s))
  {
    var i := s.requests[0];
    assert s.phases[i].Requested? && i !in s.ready;
    assert forall x :: x in AfterAdmit(s).ready <==> x in s.ready || (x == i && AfterAdmit(s).phases[i].Ready?);
    DistinctAppend(s.ready, [i]);
  }

  lemma DispatchLists(s: State)
    requires |s.txns| == |s.phases| && ListsOk(s) && Enabled(s, Dispatch)
    ensures ListsOk(AfterDispatch(s))
  {
    PopFront(s.ready);
    assert s.ready[0] in s.ready;
  }

  lemma CollectLists(s: State)
    requires |s.txns| == |s.phases| && ListsOk(s) && Enabled(s, Collect)
    ensures ListsOk(AfterCollect(s))
  {
    PopFront(s.completed);
    assert s.completed[0] in s.completed;
  }

  lemma ReleaseLists(s: State, k: Key)
    requires Inv(s) && Enabled(s, ReleaseKey(k))
    ensures ListsOk(AfterReleaseKey(s, k))
  {
    ReleaseReady(s, k);
    forall x | 0 <= x < |s.txns| {
      ReleasePhases(s, k, x);
    }
  }

  lemma BeforeKept(s: State, step: Step)
    requires |s.txns| == |s.phases| && Enabled(s, step)
    ensures forall i :: 0 <= i <= |s.txns| ==> Before(Do(s, step), i) == Before(s, i)
  {
    forall i | 0 <= i <= |s.txns| ensures Before(Do(s, step), i) == Before(s, i) {
      SerialPrefix(s.txns, Do(s, step).txns, i, s.db0);
    }
  }

  lemma SerialKept(s: State, step: Step, j: TxnId)
    requires Inv(s) && Enabled(s, step) && j < |s.txns|
    ensures AsSerial(Do(s, step), j)
  {
    BeforeKept(s, step);
    assert AsSerial(s, j);
    match step
    case ReadKey(i, k) => ReadKeySerial(s, i, k);
    case RunLogic(i) => RunLogicSerial(s, i);
    case ReleaseKey(k) => ReleasePhases(s, k, j);
    case _ => OtherSerial(s, step, j);
  }

  lemma ReadKeySerial(s: State, i: TxnId, k: Key)
    requires Inv(s) && Enabled(s, ReadKey(i, k))
    ensures AsSerial(AfterReadKey(s, i, k), i)
  {
    assert AsSerial(s, i);
    ReadsCurrent(s, i, k);
  }

  lemma RunLogicSerial(s: State, i: TxnId)
    requires |s.txns| == |s.phases| && Enabled(s, RunLogic(i)) && AsSerial(s, i)
    ensures AsSerial(AfterRunLogic(s, i), i)
  {
    ReadsAgree(s.txns[i], s.phases[i].got, Before(s, i));
  }

  lemma OtherSerial(s: State, step: Step, j: TxnId)
    requires |s.txns| == |s.phases| && ListsOk(s) && Enabled(s, step) && j < |s.txns| && AsSerial(s, j)
    requires Before(Do(s, step), j) == Before(s, j)
    requires !step.ReadKey? && !step.RunLogic? && !step.ReleaseKey?
    ensures AsSerial(Do(s, step), j)
  {
    assert step.Collect? ==> s.completed[0] in s.completed;
  }

  lemma SubmitDb(s: State, p: Logic, k: Key)
    requires |s.txns| == |s.phases| && DbOk(s, k) && Enabled(s, Submit(p))
    ensures DbOk(AfterSubmit(s, p), k)
  {
    var s', n := AfterSubmit(s, p), |s.txns|;
    BeforeKept(s, Submit(p));
    assert forall j :: 0 <= j < n ==> s'.txns[j] == s.txns[j] && s'.phases[j] == s.phases[j];
    forall i | 0 <= i <= n + 1 && Cut(s', i, k) ensures Get(s'.db, k) == Get(Before(s', i), k) {
      if i == n + 1 {
        assert s'.phases[n] == Requested && s'.txns[n] == p;
        SerialSkips(s'.txns, n, n + 1, s.db0, k);
      }
      assert Cut(s, if i <= n then i else n, k);
    }
  }

  // A transaction that has k locked for writing keeps later effects on k out.
  lemma NoLaterEffect(s: State, t: TxnId, k: Key, i: nat)
    requires |s.txns| == |s.phases| && LocksOk(s) && t < i <= |s.txns|
    requires OnQueue(s.phases[t], s.txns[t], k) && k in s.txns[t].writeset
    requires forall j :: t < j < i && k in s.txns[j].writeset ==> Effective(s.phases[j], k)
    ensures Get(Before(s, t + 1), k) == Get(Before(s, i), k)
  {
    forall j | t < j < i ensures k !in s.txns[j].writeset {
      if k in s.txns[j].Keys() {
        LockKeepsOut(s, t, j, k);
      }
    }
    SerialSkips(s.txns, t + 1, i, s.db0, k);
  }

  lemma CollectDb(s: State, k: Key)
    requires |s.txns| == |s.phases| && LocksOk(s) && ListsOk(s) && DbOk(s, k)
    requires Enabled(s, Collect) && AsSerial(s, s.completed[0])
    ensures DbOk(AfterCollect(s), k)
  {
    var s', t := AfterCollect(s), s.completed[0];
    assert t in s.completed;
    forall i | 0 <= i <= |s.txns| && Cut(s', i, k) ensures Get(s'.db, k) == Get(Before(s, i), k) {
      assert forall j :: 0 <= j < |s.txns| && j != t ==> s'.phases[j] == s.phases[j];
      if k in s.txns[t].writeset && Effective(s'.phases[t], k) {
        assert t < i;
        NoLaterEffect(s, t, k, i);
        ReadsCurrent(s, t, k);
        assert Before(s, t + 1) == SerialStep(s.txns[t], Before(s, t));
      } else {
        assert Cut(s, i, k);
      }
    }
  }

  lemma WriteKeyDb(s: State, k: Key, kk: Key)
    requires |s.txns| == |s.phases| && LocksOk(s) && DbOk(s, kk)
    requires Enabled(s, WriteKey(k)) && AsSerial(s, s.current.value)
    ensures DbOk(AfterWriteKey(s, k), kk)
  {
    var s', t := AfterWriteKey(s, k), s.current.value;
    assert forall j :: 0 <= j < |s.txns| && j != t ==> s'.phases[j] == s.phases[j];
    forall i | 0 <= i <= |s.txns| && Cut(s', i, kk) ensures Get(s'.db, kk) == Get(Before(s, i), kk) {
      if kk == k {
        assert t < i;
        NoLaterEffect(s, t, k, i);
        assert Before(s, t + 1) == SerialStep(s.txns[t], Before(s, t));
      } else {
        assert Cut(s, i, kk);
      }
    }
  }

  lemma DbKept(s: State, step: Step, k: Key)
    requires Inv(s) && Enabled(s, step)
    ensures DbOk(Do(s, step), k)
  {
    match step
    case Submit(p) => SubmitDb(s, p, k);
    case Collect =>
      assert s.completed[0] in s.completed;
      CollectDb(s, k);
    case WriteKey(kk) =>
      assert s.current.value < |s.txns|;
      WriteKeyDb(s, kk, k);
    case ReleaseKey(kk) => ReleaseDb(s, kk);
    case _ => OtherDb(s, step);
  }

  lemma ReleaseDb(s: State, k: Key)
    requires Inv(s) && Enabled(s, ReleaseKey(k))
    ensures forall kk :: DbOk(AfterReleaseKey(s, k), kk)
  {
    forall i | 0 <= i < |s.txns| {
      ReleasePhases(s, k, i);
    }
    DbFrame(s, AfterReleaseKey(s, k));
  }

  lemma OtherDb(s: State, step: Step)
    requires |s.txns| == |s.phases| && ListsOk(s) && (forall k :: DbOk(s, k)) && Enabled(s, step)
    requires !step.Submit? && !step.Collect? && !step.WriteKey? && !step.ReleaseKey?
    ensures forall k :: DbOk(Do(s, step), k)
  {
    assert step.Dispatch? ==> s.ready[0] in s.ready;
    assert step.Admit? ==> s.phases[s.requests[0]].Requested?;
    DbFrame(s, Do(s, step));
  }

  lemma FoldKept(s: State, step: Step)
    requires Inv(s) && Enabled(s, step)
    ensures FoldOk(Do(s, step))
  {
    match step
    case Collect =>
      assert s.completed[0] in s.completed;
      var out := s.phases[s.completed[0]].out;
      ApplyEnds(s.db, out.writes);
    case WriteKey(k) =>
      ApplyOne(Fold(s.committed, s.db0), s.phases[s.current.value].out.writes,
               s.phases[s.current.value].stage.todo, k);
    case PushCommit =>
      ApplyEnds(Fold(s.committed, s.db0), s.phases[s.current.value].out.writes);
      assert Do(s, step).committed[..|s.committed|] == s.committed;
    case ReleaseKey(k) =>
      ReleasePhases(s, k, s.current.value);
    case _ =>
  }

  lemma StepKeeps(s: State, step: Step)
    requires Inv(s)
    ensures Inv(Do(s, step))
  {
    if Enabled(s, step) {
      LocksKept(s, step);
      ListsKept(s, step);
      FoldKept(s, step);
      forall j | 0 <= j < |Do(s, step).txns| ensures AsSerial(Do(s, step), j) {
        if j < |s.txns| {
          SerialKept(s, step, j);
        }
      }
      forall k ensures DbOk(Do(s, step), k) {
        DbKept(s, step, k);
      }
    }
  }

  lemma {:induction false} RunKeeps(s: State, steps: seq<Step>)
    requires Inv(s)
    ensures Inv(RunFrom(s, steps))
  {
    if steps == [] {
    } else {
      var before := RunFrom(s, steps[..|steps| - 1]);
      assert Inv(before) by {
        RunKeeps(s, steps[..|steps| - 1]);
      }
      StepKeeps(before, steps[|steps| - 1]);
    }
  }

  // The invariant holds in every state of every schedule.
  lemma Reachable(exclusiveOnly: bool, db: Db, steps: seq<Step>)
    ensures Inv(Run(exclusiveOnly, db, steps)) && Run(exclusiveOnly, db, steps).db0 == db
  {
    forall k ensures DbOk(Init(exclusiveOnly, db), k) {
    }
    RunKeeps(Init(exclusiveOnly, db), steps);
  }

  lemma {:induction false} RunConcat(s: State, a: seq<Step>, b: seq<Step>)
    requires |s.txns| == |s.phases|
    ensures RunFrom(s, a + b) == RunFrom(RunFrom(s, a), b)
  {
    if b == [] {
      assert a + b == a;
    } else {
      var front := b[..|b| - 1];
      assert (a + b)[..|a + b| - 1] == a + front;
      RunConcat(s, a, front);
    }
  }
}
