/**
 Multiversion timestamp ordering and its serializable-snapshot variant, as a
 state machine. Workers read, run, lock, check, write and unlock one key per
 step; reading a key needs its mutex to be free. A transaction that fails its
 check starts again under a new unique id, so attempts are numbered by
 timestamp: attempt a has unique id a + 1.
 */
module Mvcc {
  import opened Txns
  import opened Versions

  type TxnId = nat

  datatype Stage =
    | Requested
    | Reading       // todo: keys to read
    | Locking       // todo: mutexes to take
    | Checking      // todo: keys to check
    | Applying      // todo: keys to write
    | Committing    // todo: mutexes to release, and the same for the next two
    | Aborting
    | Failing
    | Committed
    | Aborted
    | Restarted

  datatype Attempt = Attempt(
    txn: TxnId,
    logic: Logic,
    stage: Stage,
    todo: set<Key>,
    got: map<Key, Value>,
    out: Outcome
  )

  // keys are those that have a mutex; locks says which attempt holds one.
  // current is the attempt of each transaction that has not been restarted.
  datatype State = State(
    ssi: bool,
    keys: set<Key>,
    db0: Db,
    data: map<Key, seq<Version>>,
    locks: map<Key, nat>,
    current: seq<nat>,
    attempts: seq<Attempt>,
    requests: seq<nat>
  )

  datatype Step =
    | Submit(logic: Logic)
    | Assign
    | ReadKey(a: nat, key: Key)
    | LockKey(a: nat, key: Key)
    | CheckKey(a: nat, key: Key)
    | WriteKey(a: nat, key: Key)
    | UnlockKey(a: nat, key: Key)
    | Advance(a: nat)               // a stage with nothing left to do ends

  function Init(ssi: bool, keys: set<Key>, db: Db): State {
    State(ssi, keys, db, map k | k in db :: [Version(db[k], 0, 0)], map[], [], [], [])
  }

  function VersionsAt(s: State, k: Key): seq<Version> {
    if k in s.data then s.data[k] else []
  }

  // Timestamp ordering locks and checks the write set, the snapshot variant both sets.
  function LockSet(s: State, at: Attempt): set<Key> {
    if s.ssi then at.logic.Keys() else at.logic.writeset
  }

  predicate Releasing(stage: Stage) {
    stage.Committing? || stage.Aborting? || stage.Failing?
  }

  predicate Active(s: State, a: nat) {
    && a < |s.attempts| && s.attempts[a].txn < |s.current|
    && (s.attempts[a].stage.Reading? || s.attempts[a].stage.Locking? || s.attempts[a].stage.Checking?
        || s.attempts[a].stage.Applying? || Releasing(s.attempts[a].stage))
  }

  predicate Enabled(s: State, step: Step) {
    match step
    case Submit(_) => true
    case Assign => s.requests != [] && s.requests[0] < |s.attempts|
    case ReadKey(a, k) =>
      Active(s, a) && s.attempts[a].stage.Reading? && k in s.attempts[a].todo && k in s.keys && k !in s.locks
    case LockKey(a, k) =>
      && Active(s, a) && s.attempts[a].stage.Locking? && k in s.attempts[a].todo && k in s.keys && k !in s.locks
      && forall m :: m in s.attempts[a].todo ==> k <= m
    case CheckKey(a, k) => Active(s, a) && s.attempts[a].stage.Checking? && k in s.attempts[a].todo
    case WriteKey(a, k) =>
      Active(s, a) && s.attempts[a].stage.Applying? && k in s.attempts[a].todo && k in s.attempts[a].out.writes
    case UnlockKey(a, k) => Active(s, a) && Releasing(s.attempts[a].stage) && k in s.attempts[a].todo
    case Advance(a) => Active(s, a) && s.attempts[a].todo == {}
  }

  const NOTHING: Outcome := Outcome(false, map[])

  function AfterSubmit(s: State, p: Logic): State {
    s.(attempts := s.attempts + [Attempt(|s.current|, p, Requested, {}, map[], NOTHING)],
       current := s.current + [|s.attempts|], requests := s.requests + [|s.attempts|])
  }

  function AfterAssign(s: State): State
    requires Enabled(s, Assign)
  {
    var a := s.requests[0];
    var at := s.attempts[a];
    s.(requests := s.requests[1..],
       attempts := s.attempts[a := at.(stage := Reading, todo := at.logic.Keys(), got := map[])])
  }

  function Done(at: Attempt, k: Key): Attempt {
    at.(todo := at.todo - {k})
  }

  function AfterReadKey(s: State, a: nat, k: Key): State
    requires Enabled(s, ReadKey(a, k))
  {
    var at, vs := s.attempts[a], VersionsAt(s, k);
    var v := ReadAt(vs, a + 1);
    var got := if v.Some? then at.got[k := v.value] else at.got;
    s.(data := s.data[k := Mark(vs, a + 1)], attempts := s.attempts[a := Done(at, k).(got := got)])
  }

  function AfterLockKey(s: State, a: nat, k: Key): State
    requires Enabled(s, LockKey(a, k))
  {
    s.(locks := s.locks[k := a], attempts := s.attempts[a := Done(s.attempts[a], k)])
  }

  function AfterCheckKey(s: State, a: nat, k: Key): State
    requires Enabled(s, CheckKey(a, k))
  {
    var at := s.attempts[a];
    var at' := if Passes(VersionsAt(s, k), a + 1) then Done(at, k) else at.(stage := Failing, todo := LockSet(s, at));
    s.(attempts := s.attempts[a := at'])
  }

  function AfterWriteKey(s: State, a: nat, k: Key): State
    requires Enabled(s, WriteKey(a, k))
  {
    var at := s.attempts[a];
    s.(data := s.data[k := Insert(VersionsAt(s, k), at.out.writes[k], a + 1)],
       attempts := s.attempts[a := Done(at, k)])
  }

  function AfterUnlockKey(s: State, a: nat, k: Key): State
    requires Enabled(s, UnlockKey(a, k))
  {
    s.(locks := s.locks - {k}, attempts := s.attempts[a := Done(s.attempts[a], k)])
  }

  // The end of a stage. A failed attempt restarts: its transaction gets the next
  // unique id and goes to the end of the request queue.
  function AfterAdvance(s: State, a: nat): State
    requires Enabled(s, Advance(a))
  {
    var at := s.attempts[a];
    if at.stage.Failing? then
      var n := |s.attempts|;
      s.(attempts := s.attempts[a := at.(stage := Restarted)]
                       + [Attempt(at.txn, at.logic, Requested, {}, map[], NOTHING)],
         current := s.current[at.txn := n], requests := s.requests + [n])
    else s.(attempts := s.attempts[a := Advanced(s, at)])
  }

  function Advanced(s: State, at: Attempt): Attempt {
    match at.stage
    case Reading => at.(stage := Locking, todo := LockSet(s, at), out := at.logic.run(at.got))
    case Locking => at.(stage := Checking, todo := LockSet(s, at))
    case Checking =>
      if at.out.commit then at.(stage := Applying, todo := at.out.writes.Keys)
      else at.(stage := Aborting, todo := LockSet(s, at))
    case Applying => at.(stage := Committing, todo := LockSet(s, at))
    case Committing => at.(stage := Committed)
    case Aborting => at.(stage := Aborted)
    case _ => at
  }

  function Do(s: State, step: Step): (s': State)
    ensures s'.ssi == s.ssi && s'.keys == s.keys && s'.db0 == s.db0
  {
    if !Enabled(s, step) then s else
    match step
    case Submit(p) => AfterSubmit(s, p)
    case Assign => AfterAssign(s)
    case ReadKey(a, k) => AfterReadKey(s, a, k)
    case LockKey(a, k) => AfterLockKey(s, a, k)
    case CheckKey(a, k) => AfterCheckKey(s, a, k)
    case WriteKey(a, k) => AfterWriteKey(s, a, k)
    case UnlockKey(a, k) => AfterUnlockKey(s, a, k)
    case Advance(a) => AfterAdvance(s, a)
  }

  function RunFrom(s: State, steps: seq<Step>): (s': State)
    ensures s'.ssi == s.ssi && s'.keys == s.keys && s'.db0 == s.db0
  {
    if steps == [] then s else Do(RunFrom(s, steps[..|steps| - 1]), steps[|steps| - 1])
  }

  function Run(ssi: bool, keys: set<Key>, db: Db, steps: seq<Step>): (s: State)
    ensures s.ssi == ssi && s.keys == keys && s.db0 == db
  {
    RunFrom(Init(ssi, keys, db), steps)
  }

  lemma {:induction false} RunConcat(s: State, a: seq<Step>, b: seq<Step>)
    ensures RunFrom(s, a + b) == RunFrom(RunFrom(s, a), b)
  {
    if b == [] {
      assert a + b == a;
    } else {
      RunConcat(s, a, b[..|b| - 1]);
      assert (a + b)[..|a + b| - 1] == a + b[..|b| - 1];
    }
  }

  // A run through the states listed in via.
  lemma {:induction false} RunVia(via: seq<State>, steps: seq<Step>, n: nat)
    requires n <= |steps| && |via| == |steps| + 1
    requires forall m :: 0 <= m < |steps| ==> Do(via[m], steps[m]) == via[m + 1]
    ensures RunFrom(via[0], steps[..n]) == via[n]
  {
    if n == 0 {
    } else {
      RunVia(via, steps, n - 1);
      assert steps[..n][..n - 1] == steps[..n - 1];
      assert Do(via[n - 1], steps[n - 1]) == via[n];
    }
  }

  // One more step of a run.
  lemma RunOn(s: State, steps: seq<Step>, step: Step, mid: State, s': State)
    requires RunFrom(s, steps) == mid && Do(mid, step) == s'
    ensures RunFrom(s, steps + [step]) == s'
  {
    assert (steps + [step])[..|steps|] == steps;
  }

  lemma OneStep(s: State, step: Step)
    ensures RunFrom(s, [step]) == Do(s, step)
  {
    assert RunFrom(s, [step][..0]) == s;
  }

  /******* What the attempts amount to *******/

  // Attempts that have passed all checks and voted to commit.
  predicate Counts(stage: Stage) {
    stage.Applying? || stage.Committing? || stage.Committed?
  }

  predicate WritesTo(at: Attempt, k: Key) {
    Counts(at.stage) && k in at.out.writes
  }

  // The write has reached the version list.
  predicate Landed(at: Attempt, k: Key) {
    WritesTo(at, k) && !(at.stage.Applying? && k in at.todo)
  }

  predicate HasRead(at: Attempt, k: Key) {
    k in at.logic.Keys() && !at.stage.Requested? && !(at.stage.Reading? && k in at.todo)
  }

  predicate HasRun(stage: Stage) {
    !stage.Requested? && !stage.Reading?
  }

  // The value of k after those among the first n attempts that count.
  function Val(db0: Db, ats: seq<Attempt>, k: Key, n: nat): Option<Value>
    requires n <= |ats|
  {
    if n == 0 then Get(db0, k)
    else if WritesTo(ats[n - 1], k) then Some(ats[n - 1].out.writes[k])
    else Val(db0, ats, k, n - 1)
  }

  // The mutexes that an attempt holds.
  function Held(s: State, at: Attempt): set<Key> {
    if at.stage.Locking? then LockSet(s, at) - at.todo
    else if at.stage.Checking? || at.stage.Applying? then LockSet(s, at)
    else if Releasing(at.stage) then at.todo
    else {}
  }

  /******* Invariant *******/

  ghost predicate AttemptOk(s: State, at: Attempt) {
    && at.txn < |s.current| && at.got.Keys <= at.logic.Keys()
    && (HasRun(at.stage) ==> at.out == at.logic.run(at.got))
    && (Counts(at.stage) ==> at.out.commit)
    && (at.stage.Aborting? || at.stage.Aborted? ==> !at.out.commit)
    && TodoOk(s, at)
  }

  ghost predicate TodoOk(s: State, at: Attempt) {
    && (at.stage.Reading? ==> at.todo <= at.logic.Keys())
    && (at.stage.Locking? || at.stage.Checking? || Releasing(at.stage) ==> at.todo <= LockSet(s, at))
    && (at.stage.Applying? ==> at.todo <= at.out.writes.Keys)
    && (at.stage.Locking? ==> forall k, m :: k in LockSet(s, at) - at.todo && m in at.todo ==> k < m)
  }

  ghost predicate CurrentOk(s: State) {
    && (forall i :: 0 <= i < |s.current| ==>
          && s.current[i] < |s.attempts|
          && s.attempts[s.current[i]].txn == i && !s.attempts[s.current[i]].stage.Restarted?)
    && (forall a :: 0 <= a < |s.attempts| && !s.attempts[a].stage.Restarted? ==>
          s.attempts[a].txn < |s.current| && s.current[s.attempts[a].txn] == a)
  }

  ghost predicate RequestsOk(s: State) {
    && (forall p, q :: 0 <= p < q < |s.requests| ==> s.requests[p] < s.requests[q])
    && (forall a: nat :: a in s.requests <==> a < |s.attempts| && s.attempts[a].stage.Requested?)
  }

  ghost predicate LocksOk(s: State) {
    && (forall k :: k in s.locks ==> s.locks[k] < |s.attempts|)
    && (forall a, k :: 0 <= a < |s.attempts| ==>
          (k in Held(s, s.attempts[a]) <==> k in s.locks && s.locks[k] == a))
  }

  // The initial value of k, or a write to k that has landed.
  ghost predicate IsVersion(s: State, k: Key, id: Ts, value: Value) {
    if id == 0 then k in s.db0 && value == s.db0[k]
    else id <= |s.attempts| && Landed(s.attempts[id - 1], k) && value == s.attempts[id - 1].out.writes[k]
  }

  // The version list of k holds exactly those.
  ghost predicate VersionsOk(s: State, k: Key) {
    && Orderly(VersionsAt(s, k))
    && forall id, value :: Has(VersionsAt(s, k), id, value) <==> IsVersion(s, k, id, value)
  }

  // The checks an attempt has made and still relies on.
  ghost predicate ChecksOk(s: State, a: nat)
    requires a < |s.attempts|
  {
    var at := s.attempts[a];
    && (at.stage.Checking? ==> forall k :: k in LockSet(s, at) - at.todo ==> Passes(VersionsAt(s, k), a + 1))
    && (at.stage.Applying? ==> forall k :: k in at.todo ==> Passes(VersionsAt(s, k), a + 1))
  }

  // Everything read is marked as such, and is the value that the attempts with
  // smaller timestamps amount to.
  ghost predicate ReadOk(s: State, a: nat, k: Key)
    requires a < |s.attempts|
  {
    HasRead(s.attempts[a], k) ==>
      && Marked(VersionsAt(s, k), a + 1)
      && Get(s.attempts[a].got, k) == Val(s.db0, s.attempts, k, a)
  }

  ghost predicate Inv(s: State) {
    && s.keys <= s.db0.Keys
    && (forall a :: 0 <= a < |s.attempts| ==> AttemptOk(s, s.attempts[a]))
    && CurrentOk(s) && RequestsOk(s) && LocksOk(s)
    && (forall k :: VersionsOk(s, k))
    && (forall a :: 0 <= a < |s.attempts| ==> ChecksOk(s, a))
    && (forall a, k :: 0 <= a < |s.attempts| ==> ReadOk(s, a, k))
  }

  /******* Facts about values and versions *******/

  predicate SameWrite(at: Attempt, at': Attempt, k: Key) {
    && WritesTo(at', k) == WritesTo(at, k)
    && (WritesTo(at, k) ==> at'.out.writes[k] == at.out.writes[k])
  }

  lemma {:induction false} ValSame(db0: Db, ats: seq<Attempt>, ats': seq<Attempt>, k: Key, n: nat)
    requires n <= |ats| && n <= |ats'|
    requires forall c :: 0 <= c < n ==> SameWrite(ats[c], ats'[c], k)
    ensures Val(db0, ats', k, n) == Val(db0, ats, k, n)
  {
    if n == 0 {
    } else {
      assert SameWrite(ats[n - 1], ats'[n - 1], k);
      ValSame(db0, ats, ats', k, n - 1);
    }
  }

  // What happens before a write does not matter after it.
  lemma {:induction false} ValAbove(db0: Db, ats: seq<Attempt>, ats': seq<Attempt>, k: Key, c: nat, n: nat)
    requires c < n <= |ats| && n <= |ats'| && WritesTo(ats[c], k)
    requires forall d :: c <= d < n ==> SameWrite(ats[d], ats'[d], k)
    ensures Val(db0, ats', k, n) == Val(db0, ats, k, n)
  {
    assert SameWrite(ats[n - 1], ats'[n - 1], k);
    if c < n - 1 {
      ValAbove(db0, ats, ats', k, c, n - 1);
    }
  }

  lemma {:induction false} ValSkips(db0: Db, ats: seq<Attempt>, k: Key, m: nat, n: nat)
    requires m <= n <= |ats|
    requires forall d :: m <= d < n ==> !WritesTo(ats[d], k)
    ensures Val(db0, ats, k, n) == Val(db0, ats, k, m)
  {
    if m == n {
    } else {
      ValSkips(db0, ats, k, m, n - 1);
    }
  }

  // With the mutex of k free, every write to k that counts has landed.
  lemma AllLanded(s: State, c: nat, k: Key)
    requires c < |s.attempts| && AttemptOk(s, s.attempts[c]) && LocksOk(s) && k !in s.locks
    ensures WritesTo(s.attempts[c], k) == Landed(s.attempts[c], k)
  {
    if s.attempts[c].stage.Applying? && k in s.attempts[c].todo {
      ApplyingHolds(s, c, k);
    }
  }

  lemma ApplyingHolds(s: State, c: nat, k: Key)
    requires c < |s.attempts| && AttemptOk(s, s.attempts[c]) && s.attempts[c].stage.Applying?
    requires k in s.attempts[c].out.writes
    ensures k in LockSet(s, s.attempts[c]) && k in Held(s, s.attempts[c])
  {
    var at := s.attempts[c];
    assert at.logic.run(at.got).writes.Keys <= at.logic.writeset;
  }

  // Between the version found and the reader no attempt writes k.
  lemma NoWriteBetween(s: State, a: nat, k: Key, d: nat)
    requires VersionsOk(s, k) && LocksOk(s) && k !in s.locks && d < a < |s.attempts|
    requires AttemptOk(s, s.attempts[d])
    requires LatestAt(VersionsAt(s, k), a + 1).Some? && LatestAt(VersionsAt(s, k), a + 1).value.id <= d
    ensures !WritesTo(s.attempts[d], k)
  {
    AllLanded(s, d, k);
    if Landed(s.attempts[d], k) {
      assert IsVersion(s, k, d + 1, s.attempts[d].out.writes[k]);
    }
  }

  lemma ValOfVersion(s: State, a: nat, k: Key, id: Ts, value: Value)
    requires id <= a < |s.attempts| && IsVersion(s, k, id, value)
    requires forall d :: id <= d < a ==> !WritesTo(s.attempts[d], k)
    ensures Val(s.db0, s.attempts, k, a) == Some(value)
  {
    ValSkips(s.db0, s.attempts, k, id, a);
  }

  // Every version in the list is one.
  lemma Listed(s: State, k: Key, p: nat)
    requires VersionsOk(s, k) && p < |VersionsAt(s, k)|
    ensures IsVersion(s, k, VersionsAt(s, k)[p].id, VersionsAt(s, k)[p].value)
  {
    assert Has(VersionsAt(s, k), VersionsAt(s, k)[p].id, VersionsAt(s, k)[p].value);
  }

  // Under a free mutex a read finds what the attempts with smaller timestamps
  // amount to.
  lemma ReadIsVal(s: State, a: nat, k: Key)
    requires VersionsOk(s, k) && LocksOk(s) && forall d :: 0 <= d < |s.attempts| ==> AttemptOk(s, s.attempts[d])
    requires a < |s.attempts| && k in s.db0 && k !in s.locks && !Counts(s.attempts[a].stage)
    ensures LatestAt(VersionsAt(s, k), a + 1).Some?
    ensures ReadAt(VersionsAt(s, k), a + 1) == Val(s.db0, s.attempts, k, a)
  {
    var vs := VersionsAt(s, k);
    assert IsVersion(s, k, 0, s.db0[k]);
    FoundAbove(vs, a + 1, 0, s.db0[k]);
    var p := Find(vs, a + 1);
    Listed(s, k, p);
    forall d | vs[p].id <= d < a ensures !WritesTo(s.attempts[d], k) {
      NoWriteBetween(s, a, k, d);
    }
    ValOfVersion(s, a, k, vs[p].id, vs[p].value);
  }

  // If a passes its check of k, then whoever read k at a later timestamp read a
  // version that is newer than what a would write.
  lemma ReaderIsAbove(s: State, a: nat, b: nat, k: Key) returns (c: nat)
    requires a < b < |s.attempts| && VersionsOk(s, k)
    requires Passes(VersionsAt(s, k), a + 1) && Marked(VersionsAt(s, k), b + 1)
    ensures a < c < b && Landed(s.attempts[c], k)
  {
    var vs := VersionsAt(s, k);
    var p, q := Find(vs, b), Find(vs, a + 1);
    assert p < q;
    Listed(s, k, p);
    c := vs[p].id - 1;
  }

  lemma NotYetThere(s: State, a: nat, k: Key)
    requires a < |s.attempts| && VersionsOk(s, k) && !Landed(s.attempts[a], k)
    ensures forall p :: 0 <= p < |VersionsAt(s, k)| ==> VersionsAt(s, k)[p].id != a + 1
  {
    forall p | 0 <= p < |VersionsAt(s, k)| ensures VersionsAt(s, k)[p].id != a + 1 {
      Listed(s, k, p);
    }
  }

  /******* How a step moves attempts *******/

  function Mover(s: State, step: Step): nat {
    match step
    case Submit(_) => |s.attempts|
    case Assign => if s.requests == [] then 0 else s.requests[0]
    case ReadKey(a, _) => a
    case LockKey(a, _) => a
    case CheckKey(a, _) => a
    case WriteKey(a, _) => a
    case UnlockKey(a, _) => a
    case Advance(a) => a
  }

  lemma OthersStay(s: State, step: Step, b: nat)
    requires Enabled(s, step) && b < |s.attempts| && b != Mover(s, step)
    ensures b < |Do(s, step).attempts| && Do(s, step).attempts[b] == s.attempts[b]
  {
  }

  // The attempt that a new submission or a restart adds.
  lemma NewOnes(s: State, step: Step, b: nat)
    requires Enabled(s, step) && |s.attempts| <= b < |Do(s, step).attempts|
    ensures b == |s.attempts| && Do(s, step).attempts[b].stage.Requested? && Do(s, step).attempts[b].got == map[]
  {
  }

  lemma Grows(s: State, step: Step)
    requires Enabled(s, step)
    ensures |s.attempts| <= |Do(s, step).attempts| && |s.current| <= |Do(s, step).current|
  {
  }

  // What a step can do to the attempt it moves.
  ghost predicate Moved(s: State, step: Step, at: Attempt, at': Attempt) {
    && at'.txn == at.txn && at'.logic == at.logic
    && match step
       case Submit(_) => false
       case Assign => at' == at.(stage := Reading, todo := at.logic.Keys(), got := map[])
       case ReadKey(a, k) => at.stage.Reading? && k in at.todo && at' == Done(at, k).(got := at'.got)
       case LockKey(_, k) => at.stage.Locking? && k in at.todo && at' == Done(at, k)
       case CheckKey(a, k) =>
         && at.stage.Checking? && k in at.todo
         && at' == (if Passes(VersionsAt(s, k), a + 1) then Done(at, k) else at.(stage := Failing, todo := LockSet(s, at)))
       case WriteKey(_, k) => at.stage.Applying? && k in at.todo && k in at.out.writes && at' == Done(at, k)
       case UnlockKey(_, k) => Releasing(at.stage) && k in at.todo && at' == Done(at, k)
       case Advance(_) =>
         at.todo == {} && at' == (if at.stage.Failing? then at.(stage := Restarted) else Advanced(s, at))
  }

  lemma MoverMoves(s: State, step: Step)
    requires Enabled(s, step) && !step.Submit?
    ensures Mover(s, step) < |s.attempts| <= |Do(s, step).attempts|
    ensures var a := Mover(s, step);
      Moved(s, step, s.attempts[a], Do(s, step).attempts[a])
  {
  }

  // Writes begin to count when a stage of checks ends well, and land one by one.
  lemma WritesMove(s: State, step: Step, b: nat, k: Key)
    requires Enabled(s, step) && b < |s.attempts| && AttemptOk(s, s.attempts[b])
    requires step.Assign? ==> s.attempts[Mover(s, step)].stage.Requested?
    ensures b < |Do(s, step).attempts|
    ensures var at, at' := s.attempts[b], Do(s, step).attempts[b];
      && (Landed(at', k) <==> Landed(at, k) || step == WriteKey(b, k))
      && (HasRun(at.stage) ==> at'.out == at.out)
      && (WritesTo(at', k) <==>
            || WritesTo(at, k)
            || (step == Advance(b) && at.stage.Checking? && at.out.commit && k in at.out.writes))
  {
    if b == Mover(s, step) {
      MoverMoves(s, step);
    } else {
      OthersStay(s, step, b);
    }
  }
}
