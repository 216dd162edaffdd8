/**
 Optimistic concurrency control with serial validation, as a state machine.
 Workers read and run without locks while the scheduler validates and applies
 one finished transaction after the other, key by key; worker reads may fall
 between any two of those writes.
 */
module Occ {
  import opened Txns

  type TxnId = nat

  datatype Stage =
    | Handed                        // in completed_txns_
    | Applying(todo: set<Key>)      // validated; the scheduler is writing its buffer
    | Returned                      // in txn_results_

  datatype Phase =
    | Requested                     // in txn_requests_
    | Assigned                      // handed to a worker that has not begun
    | Running(start: nat, todo: set<Key>, got: map<Key, Value>)
    | Finished(stage: Stage, start: nat, got: map<Key, Value>, out: Outcome)

  // start is occ_start_idx_; restarts counts failed validations.
  datatype State = State(
    db0: Db,
    db: Db,
    txns: seq<Logic>,
    phases: seq<Phase>,
    restarts: seq<nat>,
    requests: seq<TxnId>,
    completed: seq<TxnId>,
    current: Option<TxnId>,
    committed: seq<TxnId>,
    results: seq<TxnId>
  )

  datatype Step =
    | Submit(txn: Logic)
    | Assign
    | Begin(id: TxnId)
    | ReadKey(id: TxnId, key: Key)
    | RunLogic(id: TxnId)
    | Validate
    | WriteKey(key: Key)
    | PushCommit

  function Init(db: Db): State {
    State(db, db, [], [], [], [], [], None, [], [])
  }

  predicate Sized(s: State) {
    |s.txns| == |s.phases| == |s.restarts|
  }

  predicate IsRunning(s: State, i: TxnId) {
    i < |s.phases| && s.phases[i].Running?
  }

  predicate InStage(ph: Phase, returned: bool) {
    ph.Finished? && (if returned then ph.stage.Returned? else ph.stage.Handed?)
  }

  predicate CurrentApplying(s: State) {
    && s.current.Some? && s.current.value < |s.phases|
    && s.phases[s.current.value].Finished? && s.phases[s.current.value].stage.Applying?
  }

  predicate Enabled(s: State, step: Step)
    requires Sized(s)
  {
    match step
    case Submit(_) => true
    case Assign => s.requests != [] && s.requests[0] < |s.txns|
    case Begin(i) => i < |s.txns| && s.phases[i].Assigned?
    case ReadKey(i, k) => IsRunning(s, i) && k in s.phases[i].todo
    case RunLogic(i) => IsRunning(s, i) && s.phases[i].todo == {}
    case Validate =>
      s.current.None? && s.completed != [] && s.completed[0] < |s.txns| && s.phases[s.completed[0]].Finished?
    case WriteKey(k) =>
      && CurrentApplying(s)
      && k in s.phases[s.current.value].stage.todo && k in s.phases[s.current.value].out.writes
    case PushCommit => CurrentApplying(s) && s.phases[s.current.value].stage.todo == {}
  }

  // Transaction i declares k as a write.
  predicate Writes(s: State, i: TxnId, k: Key) {
    i < |s.txns| && k in s.txns[i].writeset
  }

  // Validation: nothing committed since the transaction began declares a write
  // to a key in its read or write set.
  predicate Valid(s: State, i: TxnId, start: nat)
    requires i < |s.txns|
  {
    forall c, k :: start <= c < |s.committed| && k in s.txns[i].Keys() ==> !Writes(s, s.committed[c], k)
  }

  function AfterSubmit(s: State, p: Logic): State {
    s.(txns := s.txns + [p], phases := s.phases + [Requested], restarts := s.restarts + [0],
       requests := s.requests + [|s.txns|])
  }

  function AfterAssign(s: State): State
    requires Sized(s) && Enabled(s, Assign)
  {
    s.(requests := s.requests[1..], phases := s.phases[s.requests[0] := Assigned])
  }

  function AfterBegin(s: State, i: TxnId): State
    requires Sized(s) && Enabled(s, Begin(i))
  {
    s.(phases := s.phases[i := Running(|s.committed|, s.txns[i].Keys(), map[])])
  }

  function AfterReadKey(s: State, i: TxnId, k: Key): State
    requires Sized(s) && Enabled(s, ReadKey(i, k))
  {
    var ph := s.phases[i];
    var got := if k in s.db then ph.got[k := s.db[k]] else ph.got;
    s.(phases := s.phases[i := ph.(todo := ph.todo - {k}, got := got)])
  }

  function AfterRunLogic(s: State, i: TxnId): State
    requires Sized(s) && Enabled(s, RunLogic(i))
  {
    var ph := s.phases[i];
    s.(phases := s.phases[i := Finished(Handed, ph.start, ph.got, s.txns[i].run(ph.got))],
       completed := s.completed + [i])
  }

  // Commit, abort by own decision, or clean up and restart.
  function AfterValidate(s: State): State
    requires Sized(s) && Enabled(s, Validate)
  {
    var i := s.completed[0];
    var ph := s.phases[i];
    var s' := s.(completed := s.completed[1..]);
    if !Valid(s, i, ph.start) then
      s'.(phases := s.phases[i := Requested], restarts := s.restarts[i := s.restarts[i] + 1],
          requests := s.requests + [i])
    else if ph.out.commit then
      s'.(phases := s.phases[i := ph.(stage := Applying(ph.out.writes.Keys))], current := Some(i))
    else
      s'.(phases := s.phases[i := ph.(stage := Returned)], results := s.results + [i])
  }

  function AfterWriteKey(s: State, k: Key): State
    requires Sized(s) && Enabled(s, WriteKey(k))
  {
    var ph := s.phases[s.current.value];
    s.(db := s.db[k := ph.out.writes[k]],
       phases := s.phases[s.current.value := ph.(stage := Applying(ph.stage.todo - {k}))])
  }

  function AfterPushCommit(s: State): State
    requires Sized(s) && Enabled(s, PushCommit)
  {
    var i := s.current.value;
    s.(committed := s.committed + [i], results := s.results + [i], current := None,
       phases := s.phases[i := s.phases[i].(stage := Returned)])
  }

  function Do(s: State, step: Step): (s': State)
    requires Sized(s)
    ensures Sized(s') && s'.db0 == s.db0
  {
    if !Enabled(s, step) then s else
    match step
    case Submit(p) => AfterSubmit(s, p)
    case Assign => AfterAssign(s)
    case Begin(i) => AfterBegin(s, i)
    case ReadKey(i, k) => AfterReadKey(s, i, k)
    case RunLogic(i) => AfterRunLogic(s, i)
    case Validate => AfterValidate(s)
    case WriteKey(k) => AfterWriteKey(s, k)
    case PushCommit => AfterPushCommit(s)
  }

  function RunFrom(s: State, steps: seq<Step>): (s': State)
    requires Sized(s)
    ensures Sized(s') && s'.db0 == s.db0
  {
    if steps == [] then s else Do(RunFrom(s, steps[..|steps| - 1]), steps[|steps| - 1])
  }

  function Run(db: Db, steps: seq<Step>): (s: State)
    ensures Sized(s) && s.db0 == db
  {
    RunFrom(Init(db), steps)
  }

  /******* Invariant *******/

  ghost predicate ListsOk(s: State)
    requires Sized(s)
  {
    && Distinct(s.requests) && Distinct(s.completed) && Distinct(s.results) && Distinct(s.committed)
    && (forall i: TxnId :: i in s.requests <==> i < |s.txns| && s.phases[i].Requested?)
    && (forall i: TxnId :: i in s.completed <==> i < |s.txns| && InStage(s.phases[i], false))
    && (forall i: TxnId :: i in s.results <==> i < |s.txns| && InStage(s.phases[i], true))
    && (forall i: TxnId :: i in s.committed ==> i in s.results)
    && (s.current.Some? ==> CurrentApplying(s))
    && (forall i :: 0 <= i < |s.txns| && s.phases[i].Finished? && s.phases[i].stage.Applying? ==> s.current == Some(i))
  }

  ghost predicate ResultsInRange(s: State) {
    forall r :: 0 <= r < |s.results| ==> s.results[r] < |s.txns|
  }

  // The decided transactions in the order of their results: the serial order.
  function Order(s: State): seq<Logic>
    requires forall r :: 0 <= r < |s.results| ==> s.results[r] < |s.txns|
  {
    Pick(s.txns, s.results)
  }

  // The database that the serial scheduler has after the first n results.
  function After(s: State, n: nat): Db
    requires n <= |s.results| && forall r :: 0 <= r < |s.results| ==> s.results[r] < |s.txns|
  {
    Serial(Order(s), n, s.db0)
  }

  // Result r was decided as it would be serially.
  ghost predicate DecidedSerially(s: State, r: nat)
    requires Sized(s) && ResultsInRange(s) && r < |s.results|
  {
    var i := s.results[r];
    && s.phases[i].Finished?
    && s.phases[i].got == ReadsOf(s.txns[i], After(s, r))
    && s.phases[i].out == s.txns[i].run(s.phases[i].got)
  }

  // Between commits storage is the serial one; during a commit it is on its way
  // to the next serial one.
  ghost predicate DbOk(s: State)
    requires Sized(s) && ResultsInRange(s)
  {
    if CurrentApplying(s) then
      var ph := s.phases[s.current.value];
      var before := After(s, |s.results|);
      && s.db == before + Applied(ph.out.writes, ph.stage.todo)
      && ph.got == ReadsOf(s.txns[s.current.value], before)
      && ph.out == s.txns[s.current.value].run(ph.got)
      && ph.out.commit && ph.stage.todo <= ph.out.writes.Keys
    else s.db == After(s, |s.results|)
  }

  // k is declared as a write by a transaction committed since start, or by the
  // one being applied.
  predicate Overwritten(s: State, start: nat, k: Key) {
    || (exists c :: start <= c < |s.committed| && Writes(s, s.committed[c], k))
    || (s.current.Some? && Writes(s, s.current.value, k))
  }

  // A value read is still current unless validation is going to notice.
  ghost predicate ReadsOk(s: State, i: TxnId)
    requires Sized(s) && i < |s.txns|
  {
    var keys := s.txns[i].Keys();
    match s.phases[i]
    case Running(start, todo, got) =>
      && start <= |s.committed| && todo <= keys && got.Keys <= keys - todo
      && forall k :: k in keys - todo ==> Get(got, k) == Get(s.db, k) || Overwritten(s, start, k)
    case Finished(stage, start, got, out) =>
      && start <= |s.committed| && got.Keys <= keys && out == s.txns[i].run(got)
      && (stage.Handed? ==> forall k :: k in keys ==> Get(got, k) == Get(s.db, k) || Overwritten(s, start, k))
    case _ => true
  }

  // Every failed attempt is charged to a commit that happened during it.
  ghost predicate ChargesOk(s: State, i: TxnId)
    requires Sized(s) && i < |s.txns|
  {
    match s.phases[i]
    case Running(start, _, _) => s.restarts[i] <= start
    case Finished(_, start, _, _) =>
      s.restarts[i] <= start && forall c :: 0 <= c < |s.committed| && s.committed[c] == i ==> start <= c
    case _ => s.restarts[i] <= |s.committed|
  }

  ghost predicate Inv(s: State) {
    && Sized(s) && ListsOk(s) && ResultsInRange(s)
    && DbOk(s)
    && (forall r :: 0 <= r < |s.results| ==> DecidedSerially(s, r))
    && (forall i :: 0 <= i < |s.txns| ==> ReadsOk(s, i))
    && (forall i :: 0 <= i < |s.txns| ==> ChargesOk(s, i))
  }

  /******* Every step keeps the invariant *******/

  lemma ValidateLists(s: State)
    requires Sized(s) && ListsOk(s) && Enabled(s, Validate)
    ensures ListsOk(AfterValidate(s))
  {
    var i := s.completed[0];
    assert i in s.completed && i !in s.results && i !in s.requests;
    PopFront(s.completed);
    if !Valid(s, i, s.phases[i].start) {
      PushBack(s.requests, i);
    } else if !s.phases[i].out.commit {
      PushBack(s.results, i);
    }
  }

  lemma PushCommitLists(s: State)
    requires Sized(s) && ListsOk(s) && Enabled(s, PushCommit)
    ensures ListsOk(AfterPushCommit(s))
  {
    var i := s.current.value;
    assert i !in s.results;
    PushBack(s.results, i);
    PushBack(s.committed, i);
  }

  lemma SubmitLists(s: State, p: Logic)
    requires Sized(s) && ListsOk(s)
    ensures ListsOk(AfterSubmit(s, p))
  {
    PushBack(s.requests, |s.txns|);
  }

  lemma AssignLists(s: State)
    requires Sized(s) && ListsOk(s) && Enabled(s, Assign)
    ensures ListsOk(AfterAssign(s))
  {
    PopFront(s.requests);
    assert s.requests[0] in s.requests;
  }

  lemma RunLogicLists(s: State, i: TxnId)
    requires Sized(s) && ListsOk(s) && Enabled(s, RunLogic(i))
    ensures ListsOk(AfterRunLogic(s, i))
  {
    PushBack(s.completed, i);
  }

  lemma ListsKept(s: State, step: Step)
    requires Sized(s) && ListsOk(s) && Enabled(s, step)
    ensures ListsOk(Do(s, step))
  {
    match step
    case Submit(p) => SubmitLists(s, p);
    case Assign => AssignLists(s);
    case RunLogic(i) => RunLogicLists(s, i);
    case Validate => ValidateLists(s);
    case PushCommit => PushCommitLists(s);
    case _ =>
  }

  // More results leave the serial prefixes as they are.
  lemma AfterKept(s: State, s': State, n: nat)
    requires ResultsInRange(s) && ResultsInRange(s') && s'.db0 == s.db0
    requires |s.txns| <= |s'.txns| && forall i :: 0 <= i < |s.txns| ==> s'.txns[i] == s.txns[i]
    requires n <= |s.results| <= |s'.results|
    requires forall r :: 0 <= r < |s.results| ==> s'.results[r] == s.results[r]
    ensures After(s', n) == After(s, n)
  {
    SerialPrefix(Order(s), Order(s'), n, s.db0);
  }

  // A transaction that passes validation has read exactly the present database.
  lemma ValidReads(s: State)
    requires Inv(s) && Enabled(s, Validate) && Valid(s, s.completed[0], s.phases[s.completed[0]].start)
    ensures s.phases[s.completed[0]].got == ReadsOf(s.txns[s.completed[0]], s.db)
    ensures s.phases[s.completed[0]].out == Exec(s.txns[s.completed[0]], s.db)
  {
    var i := s.completed[0];
    assert i in s.completed && ReadsOk(s, i);
    ReadsAgree(s.txns[i], s.phases[i].got, s.db);
  }

  lemma DecidedKept(s: State, step: Step, r: nat)
    requires Inv(s) && Enabled(s, step) && r < |s.results|
    requires ResultsInRange(Do(s, step))
    ensures DecidedSerially(Do(s, step), r)
  {
    var s', i := Do(s, step), s.results[r];
    assert DecidedSerially(s, r);
    assert i in s.results;
    assert step.Validate? ==> s.completed[0] in s.completed;
    assert step.Assign? ==> s.requests[0] in s.requests;
    assert s'.phases[i] == s.phases[i];
    AfterKept(s, s', r);
  }

  lemma ValidateDb(s: State)
    requires Inv(s) && Enabled(s, Validate)
    ensures ResultsInRange(AfterValidate(s)) && DbOk(AfterValidate(s))
    ensures |AfterValidate(s).results| > |s.results| ==> DecidedSerially(AfterValidate(s), |s.results|)
  {
    var s', i := AfterValidate(s), s.completed[0];
    assert ResultsInRange(s');
    AfterKept(s, s', |s.results|);
    if Valid(s, i, s.phases[i].start) {
      ValidReads(s);
      ApplyEnds(s.db, s.phases[i].out.writes);
    }
  }

  lemma PushCommitDb(s: State)
    requires Inv(s) && Enabled(s, PushCommit)
    ensures ResultsInRange(AfterPushCommit(s)) && DbOk(AfterPushCommit(s))
    ensures DecidedSerially(AfterPushCommit(s), |s.results|)
  {
    var s', i := AfterPushCommit(s), s.current.value;
    assert ResultsInRange(s');
    AfterKept(s, s', |s.results|);
    ApplyEnds(After(s, |s.results|), s.phases[i].out.writes);
  }

  lemma WriteKeyDb(s: State, k: Key)
    requires Inv(s) && Enabled(s, WriteKey(k))
    ensures DbOk(AfterWriteKey(s, k))
  {
    AfterKept(s, AfterWriteKey(s, k), |s.results|);
    ApplyOne(After(s, |s.results|), s.phases[s.current.value].out.writes, s.phases[s.current.value].stage.todo, k);
  }

  lemma OtherDb(s: State, step: Step)
    requires Sized(s) && ListsOk(s) && ResultsInRange(s) && DbOk(s) && Enabled(s, step)
    requires !step.Validate? && !step.PushCommit? && !step.WriteKey?
    ensures ResultsInRange(Do(s, step)) && DbOk(Do(s, step))
  {
    assert ResultsInRange(Do(s, step));
    AfterKept(s, Do(s, step), |s.results|);
    assert step.Assign? ==> s.requests[0] in s.requests;
  }

  lemma DbKept(s: State, step: Step)
    requires Inv(s) && Enabled(s, step)
    ensures ResultsInRange(Do(s, step)) && DbOk(Do(s, step))
    ensures |Do(s, step).results| > |s.results| ==> DecidedSerially(Do(s, step), |s.results|)
    ensures |s.results| <= |Do(s, step).results| <= |s.results| + 1
  {
    match step
    case Validate => ValidateDb(s);
    case PushCommit => PushCommitDb(s);
    case WriteKey(k) => WriteKeyDb(s, k);
    case _ => OtherDb(s, step);
  }

  // What counts as overwritten for a running transaction stays so, and a key
  // whose value changes becomes overwritten.
  lemma OverwrittenGrows(s: State, step: Step, start: nat, k: Key)
    requires Sized(s) && Enabled(s, step) && start <= |s.committed|
    requires step.WriteKey? ==> Writes(s, s.current.value, step.key)
    ensures start <= |Do(s, step).committed|
    ensures Overwritten(s, start, k) ==> Overwritten(Do(s, step), start, k)
    ensures Get(s.db, k) != Get(Do(s, step).db, k) ==> Overwritten(Do(s, step), start, k)
  {
    var s' := Do(s, step);
    if exists c :: start <= c < |s.committed| && Writes(s, s.committed[c], k) {
      var c :| start <= c < |s.committed| && Writes(s, s.committed[c], k);
      assert s'.committed[c] == s.committed[c] && Writes(s', s'.committed[c], k);
    } else if step.PushCommit? && Writes(s, s.current.value, k) {
      assert Writes(s', s'.committed[|s.committed|], k);
    }
  }

  lemma WriteKeyDeclared(s: State, k: Key)
    requires Inv(s) && Enabled(s, WriteKey(k))
    ensures Writes(s, s.current.value, k)
  {
    assert ReadsOk(s, s.current.value);
  }

  lemma ReadsKept(s: State, step: Step, i: TxnId)
    requires Inv(s) && Enabled(s, step) && i < |s.txns|
    ensures ReadsOk(Do(s, step), i)
  {
    var s' := Do(s, step);
    if step.WriteKey? {
      WriteKeyDeclared(s, step.key);
    }
    assert ReadsOk(s, i);
    forall start: nat, k | start <= |s.committed|
      ensures start <= |s'.committed|
      ensures Get(s.db, k) != Get(s'.db, k) || Overwritten(s, start, k) ==> Overwritten(s', start, k)
    {
      OverwrittenGrows(s, step, start, k);
    }
    PhaseMoves(s, step, i);
  }

  // How the phase of one transaction changes in a step, as far as its reads go.
  lemma PhaseMoves(s: State, step: Step, i: TxnId)
    requires Sized(s) && ListsOk(s) && Enabled(s, step) && i < |s.txns|
    ensures i < |Do(s, step).phases| && Do(s, step).txns[i] == s.txns[i]
    ensures var before, after := s.phases[i], Do(s, step).phases[i];
      || after == before
      || !(after.Running? || after.Finished?)
      || after == Running(|s.committed|, s.txns[i].Keys(), map[])
      || (step.ReadKey? && step.id == i && after == AfterReadKey(s, i, step.key).phases[i])
      || (before.Running? && before.todo == {}
          && after == Finished(Handed, before.start, before.got, s.txns[i].run(before.got)))
      || (before.Finished? && after.Finished? && !after.stage.Handed? && after == before.(stage := after.stage))
  {
    assert step.Assign? ==> s.requests[0] in s.requests;
    assert step.Validate? ==> s.completed[0] in s.completed;
  }

  lemma ChargesKept(s: State, step: Step, i: TxnId)
    requires Inv(s) && Enabled(s, step) && i < |s.txns|
    ensures ChargesOk(Do(s, step), i)
  {
    assert ChargesOk(s, i) && ReadsOk(s, i);
    match step
    case Validate => ValidateCharges(s, i);
    case Assign => assert s.requests[0] in s.requests;
    case PushCommit => PushCommitCharges(s, i);
    case _ =>
  }

  // A failed validation has a commit inside the attempt's window to point at.
  lemma ValidateCharges(s: State, i: TxnId)
    requires Sized(s) && ListsOk(s) && Enabled(s, Validate) && i < |s.txns| && ChargesOk(s, i) && ReadsOk(s, i)
    ensures ChargesOk(AfterValidate(s), i)
  {
    var t := s.completed[0];
    assert t in s.completed;
    if i == t && !Valid(s, t, s.phases[t].start) {
      var c, k :| s.phases[t].start <= c < |s.committed| && k in s.txns[t].Keys() && Writes(s, s.committed[c], k);
      assert s.restarts[t] + 1 <= c + 1 <= |s.committed|;
    }
  }

  lemma PushCommitCharges(s: State, i: TxnId)
    requires Sized(s) && ListsOk(s) && Enabled(s, PushCommit) && i < |s.txns| && ChargesOk(s, i) && ReadsOk(s, i)
    ensures ChargesOk(AfterPushCommit(s), i)
  {
  }

  lemma StepKeeps(s: State, step: Step)
    requires Inv(s)
    ensures Inv(Do(s, step))
  {
    if Enabled(s, step) {
      ListsKept(s, step);
      DbKept(s, step);
      AllDecidedKept(s, step);
      TxnsKept(s, step);
    }
  }

  lemma AllDecidedKept(s: State, step: Step)
    requires Inv(s) && Enabled(s, step)
    ensures forall r :: 0 <= r < |Do(s, step).results| ==> DecidedSerially(Do(s, step), r)
  {
    DbKept(s, step);
    forall r | 0 <= r < |Do(s, step).results| ensures DecidedSerially(Do(s, step), r) {
      if r < |s.results| {
        DecidedKept(s, step, r);
      }
    }
  }

  lemma TxnsKept(s: State, step: Step)
    requires Inv(s) && Enabled(s, step)
    ensures forall i :: 0 <= i < |Do(s, step).txns| ==> ReadsOk(Do(s, step), i) && ChargesOk(Do(s, step), i)
  {
    var s' := Do(s, step);
    forall i | 0 <= i < |s'.txns| ensures ReadsOk(s', i) && ChargesOk(s', i) {
      if i < |s.txns| {
        ReadsKept(s, step, i);
        ChargesKept(s, step, i);
      }
    }
  }

  lemma {:induction false} RunKeeps(s: State, steps: seq<Step>)
    requires Inv(s)
    ensures Inv(RunFrom(s, steps))
  {
    if steps == [] {
    } else {
      var before := RunFrom(s, steps[..|steps| - 1]);
      assert Inv(before) by {
        RunKeeps(s, steps[..|steps| - 1]);
      }
      StepKeeps(before, steps[|steps| - 1]);
    }
  }

  lemma Reachable(db: Db, steps: seq<Step>)
    ensures Inv(Run(db, steps))
  {
    RunKeeps(Init(db), steps);
  }

  lemma {:induction false} RunConcat(s: State, a: seq<Step>, b: seq<Step>)
    requires Sized(s)
    ensures RunFrom(s, a + b) == RunFrom(RunFrom(s, a), b)
  {
    if b == [] {
      assert a + b == a;
    } else {
      assert (a + b)[..|a + b| - 1] == a + b[..|b| - 1];
      RunConcat(s, a, b[..|b| - 1]);
    }
  }
}
