/**
 Multiversion timestamp ordering never gets stuck: from every reachable state it
 can finish all transactions, with the serial result. The continuation lets the
 attempts that are under way end and then takes the requested ones alone, oldest
 first; one that fails comes back with the newest timestamp, and then passes.
 */
module MvccProgress {
  import opened Txns
  import opened Versions
  import opened Mvcc
  import opened MvccInvariant
  import opened MvccTheorems

  // Every transaction touches only keys that have a mutex.
  ghost predicate KeysKnown(s: State) {
    forall a :: 0 <= a < |s.attempts| ==> s.attempts[a].logic.Keys() <= s.keys
  }

  // An attempt that is past its reads can move, unless the next mutex it needs
  // is taken.
  lemma CanMove(s: State, a: nat) returns (step: Step)
    requires a < |s.attempts| && AttemptOk(s, s.attempts[a]) && KeysKnown(s) && Active(s, a)
    requires s.attempts[a].todo != {} && (s.attempts[a].stage.Reading? || s.attempts[a].stage.Locking?) ==>
      Min(s.attempts[a].todo) !in s.locks
    ensures Enabled(s, step) && Mover(s, step) == a && !step.Submit? && !step.Assign?
  {
    var at := s.attempts[a];
    if at.todo == {} {
      step := Advance(a);
    } else {
      var k := Min(at.todo);
      match at.stage
      case Reading => step := ReadKey(a, k);
      case Locking => step := LockKey(a, k);
      case Checking => step := CheckKey(a, k);
      case Applying => step := WriteKey(a, k);
      case _ => step := UnlockKey(a, k);
    }
  }

  lemma MaxLocked(s: State) returns (a: nat, k: Key)
    requires LocksOk(s) && s.locks != map[]
    ensures k in s.locks && s.locks[k] == a && a < |s.attempts| && k in Held(s, s.attempts[a])
    ensures forall m :: m in s.locks ==> m <= k
  {
    k := Largest(s.locks.Keys);
    a := s.locks[k];
  }

  lemma {:induction false} Largest(keys: set<Key>) returns (k: Key)
    requires keys != {}
    ensures k in keys && forall m :: m in keys ==> m <= k
    decreases |keys|
  {
    k :| k in keys;
    if keys != {k} {
      var rest := Largest(keys - {k});
      assert forall m :: m in keys ==> m == k || m in keys - {k};
      k := if k < rest then rest else k;
    }
  }

  // Whoever holds the largest mutex in use is not waiting for another.
  lemma HolderMoves(s: State) returns (step: Step)
    requires Inv(s) && KeysKnown(s) && s.locks != map[]
    ensures Enabled(s, step) && !step.Submit? && !step.Assign?
  {
    var a, k := MaxLocked(s);
    assert AttemptOk(s, s.attempts[a]);
    if s.attempts[a].stage.Locking? && s.attempts[a].todo != {} {
      var m := Min(s.attempts[a].todo);
      assert k < m;
    }
    step := CanMove(s, a);
  }

  // No deadlock: while some transaction has neither committed nor aborted, some
  // step other than a new submission is possible.
  lemma Progress(ssi: bool, keys: set<Key>, db: Db, steps: seq<Step>) returns (step: Step)
    requires keys <= db.Keys
    requires KeysKnown(Run(ssi, keys, db, steps)) && !AllReturned(Run(ssi, keys, db, steps))
    ensures Enabled(Run(ssi, keys, db, steps), step) && !step.Submit?
  {
    var s := Run(ssi, keys, db, steps);
    Reachable(ssi, keys, db, steps);
    if s.locks != map[] {
      step := HolderMoves(s);
    } else {
      var i :| 0 <= i < |s.current| && !Ended(s.attempts[s.current[i]].stage);
      var a := s.current[i];
      assert AttemptOk(s, s.attempts[a]);
      if s.attempts[a].stage.Requested? {
        assert a in s.requests && s.requests[0] in s.requests;
        step := Assign;
      } else {
        step := CanMove(s, a);
      }
    }
  }

  /******* Marks are left by attempts that have begun *******/

  predicate MarkOk(s: State, mark: Ts) {
    mark == 0 || (mark <= |s.attempts| && !s.attempts[mark - 1].stage.Requested?)
  }

  predicate ListMarksOk(s: State, vs: seq<Version>) {
    forall p :: 0 <= p < |vs| ==> MarkOk(s, vs[p].maxRead)
  }

  ghost predicate MarksOk(s: State) {
    forall k :: ListMarksOk(s, VersionsAt(s, k))
  }

  lemma BegunStays(s: State, step: Step, mark: Ts)
    requires Enabled(s, step) && RequestsOk(s) && MarkOk(s, mark)
    ensures MarkOk(Do(s, step), mark)
  {
    Grows(s, step);
    if mark > 0 {
      if mark - 1 == Mover(s, step) {
        MoverMoves(s, step);
      } else {
        OthersStay(s, step, mark - 1);
      }
    }
  }

  lemma MarksKept(s: State, step: Step)
    requires Enabled(s, step) && RequestsOk(s) && MarksOk(s)
    ensures MarksOk(Do(s, step))
  {
    forall k ensures ListMarksOk(Do(s, step), VersionsAt(Do(s, step), k)) {
      ListMarksKept(s, step, k);
    }
  }

  lemma MarkMarks(s: State, vs: seq<Version>, ts: Ts)
    requires ListMarksOk(s, vs) && MarkOk(s, ts)
    ensures ListMarksOk(s, Mark(vs, ts))
  {
  }

  lemma InsertMarks(s: State, vs: seq<Version>, value: Value, ts: Ts)
    requires ListMarksOk(s, vs) && MarkOk(s, ts)
    ensures ListMarksOk(s, Insert(vs, value, ts))
  {
    InsertAt(vs, value, ts);
  }

  lemma ListMarksKept(s: State, step: Step, k: Key)
    requires Enabled(s, step) && RequestsOk(s) && ListMarksOk(s, VersionsAt(s, k))
    ensures ListMarksOk(Do(s, step), VersionsAt(Do(s, step), k))
  {
    var s', vs := Do(s, step), VersionsAt(s, k);
    DataMoves(s, step, k);
    assert ListMarksOk(s', vs) by {
      forall p | 0 <= p < |vs| ensures MarkOk(s', vs[p].maxRead) {
        BegunStays(s, step, vs[p].maxRead);
      }
    }
    if step.ReadKey? && step.key == k {
      BegunStays(s, step, step.a + 1);
      MarkMarks(s', vs, step.a + 1);
    } else if step.WriteKey? && step.key == k {
      BegunStays(s, step, step.a + 1);
      InsertMarks(s', vs, s.attempts[step.a].out.writes[k], step.a + 1);
    }
  }

  lemma {:induction false} MarksReachable(ssi: bool, keys: set<Key>, db: Db, steps: seq<Step>)
    requires keys <= db.Keys
    ensures MarksOk(Run(ssi, keys, db, steps))
  {
    if steps == [] {
      assert MarksOk(Init(ssi, keys, db));
    } else {
      var front := steps[..|steps| - 1];
      MarksReachable(ssi, keys, db, front);
      Reachable(ssi, keys, db, front);
      if Enabled(Run(ssi, keys, db, front), steps[|steps| - 1]) {
        MarksKept(Run(ssi, keys, db, front), steps[|steps| - 1]);
      }
    }
  }

  /******* What steps other than submissions keep *******/

  ghost predicate Sound(s: State) {
    Inv(s) && KeysKnown(s) && MarksOk(s)
  }

  // The same transactions, under other attempts perhaps.
  ghost predicate SameTxns(s: State, s': State)
    requires CurrentOk(s)
  {
    && |s'.current| == |s.current|
    && forall i :: 0 <= i < |s.current| ==>
         s'.current[i] < |s'.attempts| && s'.attempts[s'.current[i]].logic == s.attempts[s.current[i]].logic
  }

  lemma StillSame(s: State, s1: State, s2: State)
    requires CurrentOk(s) && CurrentOk(s1) && SameTxns(s, s1) && SameTxns(s1, s2)
    ensures SameTxns(s, s2)
  {
  }

  predicate NoSubmit(steps: seq<Step>) {
    forall m :: 0 <= m < |steps| ==> !steps[m].Submit?
  }

  lemma StepFirst(s: State, step: Step, rest: seq<Step>) returns (more: seq<Step>)
    requires NoSubmit(rest) && !step.Submit?
    ensures NoSubmit(more) && RunFrom(s, more) == RunFrom(Do(s, step), rest)
  {
    OneStep(s, step);
    RunConcat(s, [step], rest);
    more := [step] + rest;
  }

  lemma SoundKept(s: State, step: Step)
    requires Sound(s) && Enabled(s, step) && !step.Submit?
    ensures Sound(Do(s, step)) && SameTxns(s, Do(s, step))
  {
    StepKeeps(s, step);
    MarksKept(s, step);
    LogicsStay(s, step);
  }

  lemma LogicsStay(s: State, step: Step)
    requires CurrentOk(s) && RequestsOk(s) && KeysKnown(s) && Enabled(s, step) && !step.Submit?
    ensures KeysKnown(Do(s, step)) && SameTxns(s, Do(s, step))
  {
    var s' := Do(s, step);
    MoverMoves(s, step);
    forall b | 0 <= b < |s.attempts| ensures s'.attempts[b].logic == s.attempts[b].logic {
      if b != Mover(s, step) {
        OthersStay(s, step, b);
      }
    }
    if Restarts(s, step) {
      RestartAppends(s, step.a);
    } else {
      Plain(s, step);
    }
  }

  lemma RestartAppends(s: State, a: nat)
    requires Enabled(s, Advance(a)) && s.attempts[a].stage.Failing?
    ensures var s', n, at := AfterAdvance(s, a), |s.attempts|, s.attempts[a];
      && |s'.attempts| == n + 1 && s'.attempts[n].logic == at.logic && s'.attempts[n].stage.Requested?
      && s'.current == s.current[at.txn := n] && s'.requests == s.requests + [n]
      && s'.attempts[a].stage.Restarted?
  {
  }

  /******* The attempts under way *******/

  predicate UnderWay(stage: Stage) {
    stage.Reading? || stage.Locking? || stage.Checking? || stage.Applying? || Releasing(stage)
  }

  // How many steps an attempt can still take, at most: the rest of its stage and
  // the stages after it.
  function Left(at: Attempt): nat {
    var round := |at.logic.Keys()| + 1;
    match at.stage
    case Requested => 0
    case Reading => 4 * round + |at.todo| + 1
    case Locking => 3 * round + |at.todo| + 1
    case Checking => 2 * round + |at.todo| + 1
    case Applying => round + |at.todo| + 1
    case Committing => |at.todo| + 1
    case Aborting => |at.todo| + 1
    case Failing => |at.todo| + 1
    case _ => 0
  }

  lemma LockSetSize(s: State, at: Attempt)
    ensures |LockSet(s, at)| <= |at.logic.Keys()|
  {
    SubsetSize(LockSet(s, at), at.logic.Keys());
  }

  lemma WritesSize(at: Attempt)
    requires at.out == at.logic.run(at.got)
    ensures |at.out.writes.Keys| <= |at.logic.Keys()|
  {
    assert at.logic.run(at.got).writes.Keys <= at.logic.writeset;
    SubsetSize(at.out.writes.Keys, at.logic.Keys());
  }

  lemma LeftFalls(s: State, step: Step, at: Attempt, at': Attempt)
    requires AttemptOk(s, at) && Moved(s, step, at, at') && UnderWay(at.stage) && !step.Assign?
    ensures Left(at') < Left(at)
  {
    LockSetSize(s, at);
    if step.Advance? {
      if HasRun(at.stage) {
        WritesSize(at);
      }
    } else {
      SmallerTodo(s, step, at, at');
    }
  }

  lemma SmallerTodo(s: State, step: Step, at: Attempt, at': Attempt)
    requires Moved(s, step, at, at') && !step.Assign? && !step.Advance?
    ensures (at'.stage == at.stage && |at'.todo| < |at.todo|)
         || (at.stage.Checking? && at'.stage.Failing? && at'.todo == LockSet(s, at))
  {
    if at'.stage == at.stage {
      assert at'.todo < at.todo;
    }
  }

  // The steps left to the first n attempts.
  function Work(ats: seq<Attempt>, n: nat): nat
    requires n <= |ats|
  {
    if n == 0 then 0 else Work(ats, n - 1) + Left(ats[n - 1])
  }

  lemma {:induction false} WorkFalls(ats: seq<Attempt>, ats': seq<Attempt>, n: nat, a: nat)
    requires n <= |ats| && n <= |ats'|
    requires forall b :: 0 <= b < n && b != a ==> ats'[b] == ats[b]
    requires a < n ==> Left(ats'[a]) < Left(ats[a])
    ensures Work(ats', n) <= Work(ats, n) && (a < n ==> Work(ats', n) < Work(ats, n))
  {
    if n == 0 {
    } else {
      WorkFalls(ats, ats', n - 1, a);
    }
  }

  // The attempt that a step moves has one step less to take; a restart adds an
  // attempt that has not begun.
  ghost predicate Brought(s: State, s': State, a: nat) {
    && a < |s.attempts| <= |s'.attempts| <= |s.attempts| + 1
    && Left(s'.attempts[a]) < Left(s.attempts[a])
    && (forall b :: 0 <= b < |s.attempts| && b != a ==> s'.attempts[b] == s.attempts[b])
    && (|s'.attempts| == |s.attempts| ==> s'.requests == s.requests)
    && (|s'.attempts| > |s.attempts| ==>
          && s.attempts[a].stage.Failing? && s'.attempts[a].stage.Restarted?
          && s'.requests == s.requests + [|s.attempts|] && s'.attempts[|s.attempts|].stage.Requested?)
  }

  lemma StepBrings(s: State, step: Step)
    requires Enabled(s, step) && !step.Submit? && !step.Assign?
    requires AttemptOk(s, s.attempts[Mover(s, step)])
    ensures Brought(s, Do(s, step), Mover(s, step))
  {
    var s', a := Do(s, step), Mover(s, step);
    MoverMoves(s, step);
    LeftFalls(s, step, s.attempts[a], s'.attempts[a]);
    forall b | 0 <= b < |s.attempts| && b != a ensures s'.attempts[b] == s.attempts[b] {
      OthersStay(s, step, b);
    }
    if Restarts(s, step) {
      RestartAppends(s, step.a);
    } else {
      Plain(s, step);
    }
  }

  lemma BroughtLowersWork(s: State, s': State, a: nat)
    requires Brought(s, s', a)
    ensures Work(s'.attempts, |s'.attempts|) < Work(s.attempts, |s.attempts|)
  {
    WorkFalls(s.attempts, s'.attempts, |s.attempts|, a);
  }

  predicate Settled(s: State) {
    forall a :: 0 <= a < |s.attempts| ==> !UnderWay(s.attempts[a].stage)
  }

  lemma UnderWayMoves(s: State) returns (step: Step)
    requires Sound(s) && !Settled(s)
    ensures Enabled(s, step) && !step.Submit? && !step.Assign?
    ensures Sound(Do(s, step)) && SameTxns(s, Do(s, step))
    ensures Work(Do(s, step).attempts, |Do(s, step).attempts|) < Work(s.attempts, |s.attempts|)
  {
    if s.locks != map[] {
      step := HolderMoves(s);
    } else {
      var a :| 0 <= a < |s.attempts| && UnderWay(s.attempts[a].stage);
      assert AttemptOk(s, s.attempts[a]);
      step := CanMove(s, a);
    }
    SoundKept(s, step);
    assert AttemptOk(s, s.attempts[Mover(s, step)]);
    StepBrings(s, step);
    BroughtLowersWork(s, Do(s, step), Mover(s, step));
  }

  // Without new assignments the attempts that are under way end.
  lemma {:induction false} Settle(s: State) returns (more: seq<Step>)
    requires Sound(s)
    ensures NoSubmit(more)
    ensures var s' := RunFrom(s, more); Sound(s') && SameTxns(s, s') && Settled(s')
    decreases Work(s.attempts, |s.attempts|)
  {
    more := [];
    if !Settled(s) {
      var step := UnderWayMoves(s);
      var rest := Settle(Do(s, step));
      StillSame(s, Do(s, step), RunFrom(Do(s, step), rest));
      more := StepFirst(s, step, rest);
    }
  }

  /******* One attempt alone *******/

  ghost predicate AloneUnderWay(s: State, a: nat) {
    && a < |s.attempts| && UnderWay(s.attempts[a].stage)
    && forall b :: 0 <= b < |s.attempts| && b != a ==> !UnderWay(s.attempts[b].stage)
  }

  // No attempt with a later timestamp has begun.
  predicate LastBegun(s: State, a: nat) {
    forall b :: a < b < |s.attempts| ==> s.attempts[b].stage.Requested?
  }

  predicate Doomed(stage: Stage) {
    stage.Failing? || stage.Restarted?
  }

  lemma AloneHolds(s: State, a: nat)
    requires LocksOk(s) && AloneUnderWay(s, a)
    ensures forall k :: k in s.locks ==> k in Held(s, s.attempts[a])
  {
    forall k | k in s.locks ensures k in Held(s, s.attempts[a]) {
      assert k in Held(s, s.attempts[s.locks[k]]);
    }
  }

  lemma AloneMoves(s: State, a: nat) returns (step: Step)
    requires Sound(s) && AloneUnderWay(s, a)
    ensures Enabled(s, step) && Mover(s, step) == a && !step.Submit? && !step.Assign?
  {
    var at := s.attempts[a];
    assert AttemptOk(s, at);
    AloneHolds(s, a);
    step := CanMove(s, a);
  }

  // The attempt with the newest timestamp of those that have begun passes.
  lemma NewestPasses(s: State, a: nat, k: Key)
    requires MarksOk(s) && a < |s.attempts| && LastBegun(s, a)
    ensures Passes(VersionsAt(s, k), a + 1)
  {
    var vs := VersionsAt(s, k);
    assert ListMarksOk(s, vs);
    var p := Find(vs, a + 1);
    if p < |vs| {
      assert MarkOk(s, vs[p].maxRead);
    }
  }

  lemma NotDoomed(s: State, step: Step, a: nat)
    requires MarksOk(s) && Enabled(s, step) && Mover(s, step) == a && !step.Submit? && !step.Assign?
    requires a < |s.attempts| && LastBegun(s, a) && !Doomed(s.attempts[a].stage)
    ensures a < |Do(s, step).attempts| && !Doomed(Do(s, step).attempts[a].stage)
  {
    MoverMoves(s, step);
    if step.CheckKey? {
      NewestPasses(s, a, step.key);
    }
  }

  // An attempt that is run alone ends, or restarts as the newest request.
  ghost predicate RanAlone(s: State, s': State, a: nat)
    requires CurrentOk(s)
  {
    && Sound(s') && SameTxns(s, s') && Settled(s')
    && a < |s.attempts| <= |s'.attempts| <= |s.attempts| + 1
    && (forall b :: 0 <= b < |s.attempts| && b != a ==> s'.attempts[b] == s.attempts[b])
    && (|s'.attempts| == |s.attempts| ==> s'.requests == s.requests)
    && (|s'.attempts| > |s.attempts| ==>
          s'.requests == s.requests + [|s.attempts|] && s'.attempts[|s.attempts|].stage.Requested?)
    && (LastBegun(s, a) && !Doomed(s.attempts[a].stage) ==> |s'.attempts| == |s.attempts|)
  }

  lemma BroughtAlone(s: State, s': State, a: nat)
    requires AloneUnderWay(s, a) && Brought(s, s', a) && CurrentOk(s) && Sound(s') && SameTxns(s, s')
    ensures AloneUnderWay(s', a) || RanAlone(s, s', a)
    ensures AloneUnderWay(s', a) ==> |s'.attempts| == |s.attempts|
  {
  }

  lemma MoveAlone(s: State, step: Step, a: nat)
    requires Sound(s) && AloneUnderWay(s, a)
    requires Enabled(s, step) && Mover(s, step) == a && !step.Submit? && !step.Assign?
    ensures AloneUnderWay(Do(s, step), a) || RanAlone(s, Do(s, step), a)
    ensures AloneUnderWay(Do(s, step), a) ==> |Do(s, step).attempts| == |s.attempts|
    ensures Brought(s, Do(s, step), a)
  {
    SoundKept(s, step);
    assert AttemptOk(s, s.attempts[a]);
    StepBrings(s, step);
    BroughtAlone(s, Do(s, step), a);
  }

  lemma AloneStill(s: State, step: Step, s': State, a: nat)
    requires Sound(s) && AloneUnderWay(s, a)
    requires Enabled(s, step) && Mover(s, step) == a && !step.Submit? && !step.Assign?
    requires AloneUnderWay(Do(s, step), a) && CurrentOk(Do(s, step)) && RanAlone(Do(s, step), s', a)
    ensures RanAlone(s, s', a)
  {
    MoveAlone(s, step, a);
    SoundKept(s, step);
    StillSame(s, Do(s, step), s');
    if LastBegun(s, a) && !Doomed(s.attempts[a].stage) {
      NotDoomed(s, step, a);
    }
  }

  lemma {:induction false} RunAlone(s: State, a: nat) returns (more: seq<Step>)
    requires Sound(s) && AloneUnderWay(s, a)
    ensures NoSubmit(more) && RanAlone(s, RunFrom(s, more), a)
    decreases Left(s.attempts[a])
  {
    var step := AloneMoves(s, a);
    MoveAlone(s, step, a);
    SoundKept(s, step);
    if AloneUnderWay(Do(s, step), a) {
      var rest := RunAlone(Do(s, step), a);
      AloneStill(s, step, RunFrom(Do(s, step), rest), a);
      more := StepFirst(s, step, rest);
    } else {
      more := StepFirst(s, step, []);
    }
  }

  /******* The requested ones, oldest first *******/

  lemma AssignAlone(s: State)
    requires Sound(s) && Settled(s) && s.requests != []
    ensures Enabled(s, Assign) && AloneUnderWay(AfterAssign(s), s.requests[0])
    ensures |AfterAssign(s).attempts| == |s.attempts| && AfterAssign(s).requests == s.requests[1..]
    ensures forall b :: 0 <= b < |s.attempts| && b != s.requests[0] ==> AfterAssign(s).attempts[b] == s.attempts[b]
    ensures !Doomed(AfterAssign(s).attempts[s.requests[0]].stage)
  {
    assert s.requests[0] in s.requests;
  }

  // From the request at position u on, no one with a later timestamp has begun.
  predicate NewestFrom(s: State, u: nat) {
    u <= |s.requests| && forall p :: u <= p < |s.requests| ==> LastBegun(s, s.requests[p])
  }

  // Newest requests stay so while an older one is served, and so does its restart.
  lemma RestStayNewest(s: State, s1: State, s': State, u: nat)
    requires RequestsOk(s) && NewestFrom(s, u) && s.requests != [] && CurrentOk(s1)
    requires Enabled(s, Assign) && s1 == AfterAssign(s) && RanAlone(s1, s', s.requests[0])
    requires u == 0 ==> |s'.attempts| == |s.attempts|
    ensures NewestFrom(s', if u == 0 then 0 else u - 1)
    ensures (if u == 0 then 0 else u - 1) + |s'.requests| < u + |s.requests|
  {
    var u' := if u == 0 then 0 else u - 1;
    forall q | u' <= q < |s'.requests| ensures LastBegun(s', s'.requests[q]) {
      if q + 1 < |s.requests| {
        StaysNewest(s, s1, s', q + 1);
      }
    }
  }

  lemma StaysNewest(s: State, s1: State, s': State, p: nat)
    requires RequestsOk(s) && 0 < p < |s.requests| && LastBegun(s, s.requests[p]) && CurrentOk(s1)
    requires Enabled(s, Assign) && s1 == AfterAssign(s) && RanAlone(s1, s', s.requests[0])
    ensures p - 1 < |s'.requests| && s'.requests[p - 1] == s.requests[p] && LastBegun(s', s.requests[p])
  {
    assert s1.requests == s.requests[1..];
    forall b | s.requests[p] < b < |s'.attempts| ensures s'.attempts[b].stage.Requested? {
      if b < |s.attempts| {
        assert s'.attempts[b] == s1.attempts[b] == s.attempts[b];
      }
    }
  }

  // The next request, run alone.
  lemma ServeOne(s: State, u: nat) returns (more: seq<Step>)
    requires Sound(s) && Settled(s) && NewestFrom(s, u) && s.requests != []
    ensures NoSubmit(more)
    ensures var s', u' := RunFrom(s, more), if u == 0 then 0 else u - 1;
      && Sound(s') && SameTxns(s, s') && Settled(s') && NewestFrom(s', u')
      && u' + |s'.requests| < u + |s.requests|
  {
    AssignAlone(s);
    SoundKept(s, Assign);
    var s1, a := AfterAssign(s), s.requests[0];
    var one := RunAlone(s1, a);
    if u == 0 {
      assert LastBegun(s, a) && LastBegun(s1, a);
    }
    RestStayNewest(s, s1, RunFrom(s1, one), u);
    StillSame(s, s1, RunFrom(s1, one));
    more := StepFirst(s, Assign, one);
  }

  lemma {:induction false} ServeRequests(s: State, u: nat) returns (more: seq<Step>)
    requires Sound(s) && Settled(s) && NewestFrom(s, u)
    ensures NoSubmit(more)
    ensures var s' := RunFrom(s, more); SameTxns(s, s') && AllReturned(s')
    decreases u + |s.requests|
  {
    more := [];
    if s.requests == [] {
      NoneRequested(s);
    } else {
      var one := ServeOne(s, u);
      var s1 := RunFrom(s, one);
      var rest := ServeRequests(s1, if u == 0 then 0 else u - 1);
      RunConcat(s, one, rest);
      StillSame(s, s1, RunFrom(s1, rest));
      more := one + rest;
    }
  }

  lemma NoneRequested(s: State)
    requires Inv(s) && Settled(s) && s.requests == []
    ensures AllReturned(s)
  {
  }

  // From every reachable state some continuation ends all transactions, and then
  // timestamp order is a serial order of all of them that explains the newest
  // versions.
  lemma Drains(ssi: bool, keys: set<Key>, db: Db, steps: seq<Step>) returns (more: seq<Step>)
    requires keys <= db.Keys && KeysKnown(Run(ssi, keys, db, steps))
    ensures NoSubmit(more)
    ensures var s, s' := Run(ssi, keys, db, steps), Run(ssi, keys, db, steps + more);
      && CurrentOk(s) && SameTxns(s, s') && AllReturned(s')
      && SerialOrder(s', Order(s'.attempts, |s'.attempts|))
  {
    var s := Run(ssi, keys, db, steps);
    Reachable(ssi, keys, db, steps);
    MarksReachable(ssi, keys, db, steps);
    var settle := Settle(s);
    var s1 := RunFrom(s, settle);
    var serve := ServeRequests(s1, |s1.requests|);
    more := settle + serve;
    RunConcat(s, settle, serve);
    RunConcat(Init(ssi, keys, db), steps, more);
    DrainedSerial(ssi, keys, db, steps + more);
  }
}
