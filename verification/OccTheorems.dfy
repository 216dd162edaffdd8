/**
 What optimistic concurrency control with serial validation promises: every
 schedule amounts to running the decided transactions one after the other in the
 order of their results, and no transaction restarts for ever.
 */
module OccTheorems {
  import opened Txns
  import opened Occ

  predicate AllReturned(s: State) {
    forall i :: 0 <= i < |s.phases| ==> InStage(s.phases[i], true)
  }

  // Serializability: the result at position r was read and decided, to commit or
  // to abort, as the serial scheduler would on the results before it.
  lemma Serializable(db: Db, steps: seq<Step>, r: nat)
    requires r < |Run(db, steps).results|
    ensures var s := Run(db, steps);
      && ResultsInRange(s)
      && var i := s.results[r];
         && s.phases[i].Finished?
         && s.phases[i].got == ReadsOf(s.txns[i], Serial(Order(s), r, db))
         && s.phases[i].out == Exec(s.txns[i], Serial(Order(s), r, db))
  {
    Reachable(db, steps);
    assert DecidedSerially(Run(db, steps), r);
  }

  // Storage is the serial one whenever no commit is half applied.
  lemma StorageSerial(db: Db, steps: seq<Step>)
    ensures var s := Run(db, steps);
      ResultsInRange(s) && (s.current.None? ==> s.db == Serial(Order(s), |s.results|, db))
  {
    Reachable(db, steps);
  }

  // A value that a running transaction has read is still the one in storage,
  // unless a transaction committed since it began, or the one now being applied,
  // declares the key as a write.
  lemma StaleReadsAreNoticed(db: Db, steps: seq<Step>, i: TxnId, k: Key)
    requires var s := Run(db, steps); IsRunning(s, i) && i < |s.txns| && k in s.txns[i].Keys() - s.phases[i].todo
    ensures var s := Run(db, steps);
      Get(s.phases[i].got, k) == Get(s.db, k) || Overwritten(s, s.phases[i].start, k)
  {
    Reachable(db, steps);
    assert ReadsOk(Run(db, steps), i);
  }

  // No livelock: with n transactions submitted, none restarts n times.
  lemma RestartsBounded(db: Db, steps: seq<Step>, i: TxnId)
    requires i < |Run(db, steps).txns|
    ensures Run(db, steps).restarts[i] < |Run(db, steps).txns|
  {
    Reachable(db, steps);
    FewRestarts(Run(db, steps), i);
  }

  lemma FewRestarts(s: State, i: TxnId)
    requires Inv(s) && i < |s.txns|
    ensures s.restarts[i] < |s.txns|
  {
    assert ChargesOk(s, i) && ReadsOk(s, i);
    if i in s.committed {
      var c :| 0 <= c < |s.committed| && s.committed[c] == i;
      assert i in s.results;
      assert s.restarts[i] <= c;
      var before := s.committed[..c];
      assert i !in before;
      CommittedBelow(s, before, i);
    } else {
      assert s.restarts[i] <= |s.committed|;
      CommittedBelow(s, s.committed, i);
    }
  }

  lemma CommittedBelow(s: State, ids: seq<TxnId>, i: TxnId)
    requires Sized(s) && ListsOk(s) && i < |s.txns| && i !in ids && ids <= s.committed
    ensures |ids| < |s.txns|
  {
    forall r | 0 <= r < |ids| ensures ids[r] < |s.txns| {
      assert s.committed[r] in s.committed;
    }
    DistinctBelow(ids, |s.txns|, i);
  }

  /******* Progress *******/

  // Each attempt of a transaction takes at most this many steps.
  function Attempt(p: Logic): nat {
    2 * |p.Keys()| + 6
  }

  function StepsLeft(ph: Phase, p: Logic): nat {
    var keys := |p.Keys()|;
    match ph
    case Requested => 2 * keys + 5
    case Assigned => 2 * keys + 4
    case Running(_, todo, _) => keys + 3 + |todo|
    case Finished(stage, _, _, _) =>
      match stage
      case Handed => keys + 2
      case Applying(todo) => 1 + |todo|
      case Returned => 0
  }

  function Times(n: int, length: nat): nat {
    if n <= 0 then 0 else length + Times(n - 1, length)
  }

  // Attempts that remain, times the length of one, plus the rest of this one.
  function Rank(ph: Phase, restarts: nat, p: Logic, n: nat): nat {
    if InStage(ph, true) then 0 else Times(n - restarts, Attempt(p)) + StepsLeft(ph, p)
  }

  function Work(s: State, m: nat): nat
    requires Sized(s) && m <= |s.txns|
  {
    if m == 0 then 0 else Work(s, m - 1) + Rank(s.phases[m - 1], s.restarts[m - 1], s.txns[m - 1], |s.txns|)
  }

  lemma {:induction false} WorkMonotone(s: State, s': State, m: nat, i: TxnId)
    requires Sized(s) && Sized(s') && s'.txns == s.txns && m <= |s.txns|
    requires forall j :: 0 <= j < m && j != i ==> s'.phases[j] == s.phases[j] && s'.restarts[j] == s.restarts[j]
    requires i < |s.txns|
    requires Rank(s'.phases[i], s'.restarts[i], s.txns[i], |s.txns|)
           < Rank(s.phases[i], s.restarts[i], s.txns[i], |s.txns|)
    ensures Work(s', m) <= Work(s, m)
    ensures i < m ==> Work(s', m) < Work(s, m)
  {
    if m == 0 {
    } else {
      WorkMonotone(s, s', m - 1, i);
    }
  }

  // The transaction that a step moves.
  function Mover(s: State, step: Step): TxnId {
    match step
    case Assign => if s.requests == [] then 0 else s.requests[0]
    case Begin(i) => i
    case ReadKey(i, _) => i
    case RunLogic(i) => i
    case Validate => if s.completed == [] then 0 else s.completed[0]
    case _ => if s.current.None? then 0 else s.current.value
  }

  lemma OnlyMoverMoves(s: State, step: Step)
    requires Inv(s) && Enabled(s, step) && !step.Submit?
    ensures var s', i := Do(s, step), Mover(s, step);
      && i < |s.txns| && s'.txns == s.txns
      && (forall j :: 0 <= j < |s.txns| && j != i ==> s'.phases[j] == s.phases[j] && s'.restarts[j] == s.restarts[j])
      && (s'.restarts[i] == s.restarts[i] || (s'.restarts[i] == s.restarts[i] + 1 && s'.phases[i].Requested?))
      && !InStage(s.phases[i], true)
  {
    assert step.Assign? ==> s.requests[0] in s.requests;
    assert step.Validate? ==> s.completed[0] in s.completed;
  }

  lemma SameAttempt(s: State, step: Step)
    requires Sized(s) && ListsOk(s) && (forall i :: 0 <= i < |s.txns| ==> ReadsOk(s, i))
    requires Enabled(s, step) && !step.Submit? && Mover(s, step) < |s.txns|
    requires Do(s, step).restarts == s.restarts
    ensures var i := Mover(s, step);
      StepsLeft(Do(s, step).phases[i], s.txns[i]) < StepsLeft(s.phases[i], s.txns[i])
  {
    match step
    case Assign => assert s.requests[0] in s.requests;
    case Validate => ValidateLeft(s);
    case ReadKey(i, k) => assert AfterReadKey(s, i, k).phases[i].todo < s.phases[i].todo;
    case WriteKey(k) => WriteKeyLeft(s, k);
    case _ =>
  }

  lemma ValidateLeft(s: State)
    requires Sized(s) && ListsOk(s) && (forall i :: 0 <= i < |s.txns| ==> ReadsOk(s, i))
    requires Enabled(s, Validate) && AfterValidate(s).restarts == s.restarts
    ensures var i := s.completed[0];
      StepsLeft(AfterValidate(s).phases[i], s.txns[i]) < StepsLeft(s.phases[i], s.txns[i])
  {
    var i := s.completed[0];
    assert i in s.completed && ReadsOk(s, i);
    assert s.txns[i].run(s.phases[i].got).writes.Keys <= s.txns[i].writeset;
    SubsetSize(s.phases[i].out.writes.Keys, s.txns[i].Keys());
  }

  lemma WriteKeyLeft(s: State, k: Key)
    requires Sized(s) && Enabled(s, WriteKey(k)) && s.current.value < |s.txns|
    ensures var i := s.current.value;
      StepsLeft(AfterWriteKey(s, k).phases[i], s.txns[i]) < StepsLeft(s.phases[i], s.txns[i])
  {
    assert AfterWriteKey(s, k).phases[s.current.value].stage.todo < s.phases[s.current.value].stage.todo;
  }

  // Every step that is not a new submission, restarts included, uses up some of
  // a bounded amount of work.
  lemma EveryStepCounts(s: State, step: Step)
    requires Inv(s) && Enabled(s, step) && !step.Submit?
    ensures Do(s, step).txns == s.txns
    ensures Work(Do(s, step), |s.txns|) < Work(s, |s.txns|)
  {
    OnlyMoverMoves(s, step);
    RankFalls(s, step);
    WorkMonotone(s, Do(s, step), |s.txns|, Mover(s, step));
  }

  lemma RankFalls(s: State, step: Step)
    requires Inv(s) && Enabled(s, step) && !step.Submit? && Mover(s, step) < |s.txns|
    ensures var s', i := Do(s, step), Mover(s, step);
      && |s'.phases| == |s.phases|
      && Rank(s'.phases[i], s'.restarts[i], s.txns[i], |s.txns|) < Rank(s.phases[i], s.restarts[i], s.txns[i], |s.txns|)
  {
    var s', i := Do(s, step), Mover(s, step);
    OnlyMoverMoves(s, step);
    if s'.restarts[i] == s.restarts[i] {
      assert s'.restarts == s.restarts;
      SameAttempt(s, step);
    } else {
      FewRestarts(s, i);
    }
  }

  // While some transaction has not returned, some step other than a new
  // submission is possible.
  lemma Progress(s: State) returns (step: Step)
    requires Inv(s) && !AllReturned(s)
    ensures Enabled(s, step) && !step.Submit?
  {
    var i :| 0 <= i < |s.phases| && !InStage(s.phases[i], true);
    assert ReadsOk(s, i);
    if s.current.Some? {
      var ph := s.phases[s.current.value];
      if ph.stage.todo == {} {
        step := PushCommit;
      } else {
        var k :| k in ph.stage.todo;
        step := WriteKey(k);
      }
    } else {
      match s.phases[i]
      case Requested =>
        assert i in s.requests && s.requests[0] in s.requests;
        step := Assign;
      case Assigned => step := Begin(i);
      case Running(_, todo, _) =>
        if todo == {} {
          step := RunLogic(i);
        } else {
          var k :| k in todo;
          step := ReadKey(i, k);
        }
      case Finished(_, _, _, _) =>
        assert InStage(s.phases[i], false);
        assert i in s.completed && s.completed[0] in s.completed;
        step := Validate;
    }
  }

  lemma {:induction false} DrainFrom(s: State) returns (more: seq<Step>)
    requires Inv(s)
    ensures forall m :: 0 <= m < |more| ==> !more[m].Submit?
    ensures RunFrom(s, more).txns == s.txns && AllReturned(RunFrom(s, more))
    decreases Work(s, |s.txns|)
  {
    more := [];
    if !AllReturned(s) {
      var step := Progress(s);
      EveryStepCounts(s, step);
      StepKeeps(s, step);
      var rest := DrainFrom(Do(s, step));
      more := [step] + rest;
      assert RunFrom(s, [step]) == Do(s, step) by {
        assert RunFrom(s, [step][..0]) == s;
      }
      RunConcat(s, [step], rest);
    }
  }

  // When everything has returned, each transaction has exactly one place in the
  // serial order.
  lemma OrderIsPermutation(s: State)
    requires Inv(s) && AllReturned(s)
    ensures Distinct(s.results) && forall i :: 0 <= i < |s.txns| ==> i in s.results
  {
  }

  // From every reachable state the scheduler can drain, and then storage is the
  // serial one for an order in which each transaction occurs exactly once.
  lemma Drains(db: Db, steps: seq<Step>) returns (more: seq<Step>)
    ensures forall m :: 0 <= m < |more| ==> !more[m].Submit?
    ensures var s, s' := Run(db, steps), Run(db, steps + more);
      && s'.txns == s.txns && AllReturned(s') && ResultsInRange(s')
      && Distinct(s'.results) && (forall i :: 0 <= i < |s.txns| ==> i in s'.results)
      && s'.db == Serial(Order(s'), |s'.results|, db)
  {
    Reachable(db, steps);
    more := DrainFrom(Run(db, steps));
    RunConcat(Init(db), steps, more);
    var s' := Run(db, steps + more);
    Reachable(db, steps + more);
    OrderIsPermutation(s');
    StorageSerial(db, steps + more);
  }

  // A drained workload of read-modify-write transactions has counted every one.
  lemma OccLosesNoUpdate(db: Db, steps: seq<Step>, kinds: seq<Kind>)
    requires RmwWorkload(Run(db, steps).txns, kinds) && AllReturned(Run(db, steps))
    ensures Counted(Run(db, steps).txns, db, Run(db, steps).db)
  {
    var s := Run(db, steps);
    Reachable(db, steps);
    OrderIsPermutation(s);
    StorageSerial(db, steps);
    NoLostUpdatesInAnyOrder(s.txns, kinds, s.results, db);
  }
}
