/**
 The thread launcher and its workers as a state machine: one worker thread per
 request, a counter that admits requests, a list through which finished workers
 hand their argument records back, and a count of executed requests. One step is
 one critical section, one atomic increment or one record-atomic write.
 */
module Launcher {
  import opened Txns
  import opened Requests

  datatype Stage =
    | Executing     // writing its records
    | Written       // done with the request
    | Listed        // its argument record is on the list
    | Signalled     // the admission counter has been raised
    | Counted       // counted as executed; the thread has ended

  datatype Worker = Worker(req: Request, done: nat, stage: Stage)

  // What the launching thread is doing.
  datatype Launching =
    | Idle                          // ExecuteRequest has returned
    | Admitting                     // the thread is created; waiting for the counter
    | Collecting                    // about to take the list
    | Freeing(args: seq<nat>)       // joining and freeing what it took

  // Request i is handled by worker i and described by argument record i.
  datatype State = State(
    limit: nat,
    counter: int,
    db0: seq<Record>,
    db: seq<Record>,
    workers: seq<Worker>,
    list: seq<nat>,
    freed: seq<nat>,
    executed: nat,
    launching: Launching
  )

  datatype Step =
    | Issue(req: Request)
    | Admit
    | Collect
    | Free
    | Finish
    | WriteRecord(w: nat)
    | EndRequest(w: nat)
    | List(w: nat)
    | Signal(w: nat)
    | Count(w: nat)

  function Init(limit: nat, db: seq<Record>): State {
    State(limit, limit, db, db, [], [], [], 0, Idle)
  }

  predicate At(s: State, w: nat, rank: nat) {
    w < |s.workers| && Rank(s.workers[w].stage) == rank
  }

  function Rank(stage: Stage): nat {
    match stage
    case Executing => 0
    case Written => 1
    case Listed => 2
    case Signalled => 3
    case Counted => 4
  }

  ghost predicate Enabled(s: State, step: Step) {
    match step
    case Issue(req) => s.launching.Idle? && InRange(req, |s.db|)
    case Admit => s.launching.Admitting? && s.counter > 0
    case Collect => s.launching.Collecting?
    // Joining waits for the thread to end.
    case Free => s.launching.Freeing? && s.launching.args != [] && At(s, s.launching.args[0], 4)
    case Finish => s.launching.Freeing? && s.launching.args == []
    case WriteRecord(w) =>
      && At(s, w, 0) && s.workers[w].done < |s.workers[w].req.writes|
      && s.workers[w].req.writes[s.workers[w].done] < |s.db|
    case EndRequest(w) => At(s, w, 0) && s.workers[w].done == |s.workers[w].req.writes|
    case List(w) => At(s, w, 1)
    case Signal(w) => At(s, w, 2)
    case Count(w) => At(s, w, 3)
  }

  function Staged(s: State, w: nat, stage: Stage): seq<Worker>
    requires w < |s.workers|
  {
    s.workers[w := s.workers[w].(stage := stage)]
  }

  ghost function Do(s: State, step: Step): (s': State)
    ensures s'.limit == s.limit && s'.db0 == s.db0 && |s'.db| == |s.db|
  {
    if !Enabled(s, step) then s else
    match step
    case Issue(req) => s.(workers := s.workers + [Worker(req, 0, Executing)], launching := Admitting)
    case Admit => s.(counter := s.counter - 1, launching := Collecting)
    case Collect => s.(launching := Freeing(s.list), list := [])
    case Free => s.(launching := Freeing(s.launching.args[1..]), freed := s.freed + [s.launching.args[0]])
    case Finish => s.(launching := Idle)
    case WriteRecord(w) =>
      var at := s.workers[w];
      var r := at.req.writes[at.done];
      s.(db := s.db[r := Plus(s.db[r], at.req.updates)], workers := s.workers[w := at.(done := at.done + 1)])
    case EndRequest(w) => s.(workers := Staged(s, w, Written))
    case List(w) => s.(workers := Staged(s, w, Listed), list := [w] + s.list)
    case Signal(w) => s.(workers := Staged(s, w, Signalled), counter := s.counter + 1)
    case Count(w) => s.(workers := Staged(s, w, Counted), executed := s.executed + 1)
  }

  ghost function RunFrom(s: State, steps: seq<Step>): (s': State)
    ensures s'.limit == s.limit && s'.db0 == s.db0 && |s'.db| == |s.db|
  {
    if steps == [] then s else Do(RunFrom(s, steps[..|steps| - 1]), steps[|steps| - 1])
  }

  ghost function Run(limit: nat, db: seq<Record>, steps: seq<Step>): (s: State)
    ensures s.limit == limit && s.db0 == db && |s.db| == |db|
  {
    RunFrom(Init(limit, db), steps)
  }

  /******* Invariant *******/

  // Workers that have reached the stage of the given rank.
  function Reached(workers: seq<Worker>, rank: nat): nat {
    if workers == [] then 0
    else Reached(workers[..|workers| - 1], rank) + if Rank(workers[|workers| - 1].stage) >= rank then 1 else 0
  }

  // Requests that ExecuteRequest has let through.
  function Admissions(s: State): int {
    |s.workers| - if s.launching.Admitting? then 1 else 0
  }

  // The argument records that the launching thread holds.
  function Taken(s: State): seq<nat> {
    if s.launching.Freeing? then s.launching.args else []
  }

  // Every argument record handed back is on the list, taken or freed, once.
  ghost predicate ArgsOk(s: State) {
    var all := s.list + Taken(s) + s.freed;
    && Distinct(all)
    && (forall a: nat :: a in all <==> a < |s.workers| && Rank(s.workers[a].stage) >= 2)
    && (forall a :: a in s.freed ==> a < |s.workers| && s.workers[a].stage.Counted?)
  }

  ghost predicate CountsOk(s: State) {
    && s.counter >= 0
    && s.counter + Admissions(s) == s.limit + Reached(s.workers, 3)
    && s.executed == Reached(s.workers, 4)
  }

  ghost predicate WorkersOk(s: State) {
    forall w :: 0 <= w < |s.workers| ==> WorkerOk(s.workers[w], |s.db|)
  }

  ghost predicate WorkerOk(at: Worker, size: nat) {
    && InRange(at.req, size) && at.done <= |at.req.writes|
    && (!at.stage.Executing? ==> at.done == |at.req.writes|)
  }

  // No worker has written more than its request names.
  predicate Sane(workers: seq<Worker>) {
    forall w :: 0 <= w < |workers| ==> workers[w].done <= |workers[w].req.writes|
  }

  // What the workers have added to field f of record r so far.
  function AddedSoFar(workers: seq<Worker>, r: nat, f: nat): nat
    requires f < FIELDS && Sane(workers)
  {
    if workers == [] then 0
    else
      var last := workers[|workers| - 1];
      AddedSoFar(workers[..|workers| - 1], r, f) + Adds(last.req, last.done, r, f)
  }

  ghost predicate FieldOk(s: State, r: nat, f: nat)
    requires WorkersOk(s) && r < |s.db| && |s.db| == |s.db0| && f < FIELDS
  {
    s.db[r][f] == Wrap(s.db0[r][f] + AddedSoFar(s.workers, r, f))
  }

  ghost predicate Inv(s: State) {
    && |s.db| == |s.db0| && WorkersOk(s) && CountsOk(s) && ArgsOk(s)
    && forall r, f :: 0 <= r < |s.db| && 0 <= f < FIELDS ==> FieldOk(s, r, f)
  }

  /******* Every step keeps the invariant *******/

  lemma ReachedPush(workers: seq<Worker>, at: Worker, rank: nat)
    ensures Reached(workers + [at], rank) == Reached(workers, rank) + if Rank(at.stage) >= rank then 1 else 0
  {
    assert (workers + [at])[..|workers|] == workers;
  }

  lemma {:induction false} ReachedMoves(workers: seq<Worker>, w: nat, at: Worker, rank: nat)
    requires w < |workers|
    ensures Reached(workers[w := at], rank) + (if Rank(workers[w].stage) >= rank then 1 else 0)
         == Reached(workers, rank) + (if Rank(at.stage) >= rank then 1 else 0)
  {
    var n := |workers| - 1;
    if w < n {
      ReachedMoves(workers[..n], w, at, rank);
      assert workers[w := at][..n] == workers[..n][w := at];
    } else {
      assert workers[w := at][..n] == workers[..n];
    }
  }

  lemma CountsKept(s: State, step: Step)
    requires CountsOk(s) && Enabled(s, step)
    ensures CountsOk(Do(s, step))
  {
    var s' := Do(s, step);
    match step
    case Issue(req) =>
      ReachedPush(s.workers, Worker(req, 0, Executing), 3);
      ReachedPush(s.workers, Worker(req, 0, Executing), 4);
    case WriteRecord(w) => CountsMove(s, w, s'.workers[w]);
    case EndRequest(w) => CountsMove(s, w, s'.workers[w]);
    case List(w) => CountsMove(s, w, s'.workers[w]);
    case Signal(w) => CountsMove(s, w, s'.workers[w]);
    case Count(w) => CountsMove(s, w, s'.workers[w]);
    case _ =>
  }

  lemma CountsMove(s: State, w: nat, at: Worker)
    requires w < |s.workers|
    ensures forall rank :: rank == 3 || rank == 4 ==>
      Reached(s.workers[w := at], rank) + (if Rank(s.workers[w].stage) >= rank then 1 else 0)
      == Reached(s.workers, rank) + (if Rank(at.stage) >= rank then 1 else 0)
  {
    ReachedMoves(s.workers, w, at, 3);
    ReachedMoves(s.workers, w, at, 4);
  }

  lemma WorkersKept(s: State, step: Step)
    requires WorkersOk(s) && Enabled(s, step)
    ensures WorkersOk(Do(s, step))
  {
  }

  lemma ArgsFrame(s: State, s': State)
    requires ArgsOk(s) && s'.list + Taken(s') + s'.freed == s.list + Taken(s) + s.freed && s'.freed == s.freed
    requires |s'.workers| >= |s.workers|
    requires forall a :: 0 <= a < |s.workers| ==>
      && (Rank(s'.workers[a].stage) >= 2 <==> Rank(s.workers[a].stage) >= 2)
      && (s.workers[a].stage.Counted? ==> s'.workers[a].stage.Counted?)
    requires forall a :: |s.workers| <= a < |s'.workers| ==> Rank(s'.workers[a].stage) < 2
    ensures ArgsOk(s')
  {
  }

  lemma ListArgs(s: State, w: nat)
    requires ArgsOk(s) && Enabled(s, List(w))
    ensures ArgsOk(Do(s, List(w)))
  {
    var s' := Do(s, List(w));
    var all, all' := s.list + Taken(s) + s.freed, s'.list + Taken(s') + s'.freed;
    assert all' == [w] + all;
    assert w !in all;
    assert forall a :: a in all' <==> a == w || a in all;
  }

  // Freeing moves the first record taken to the freed ones.
  lemma FreeArgs(s: State)
    requires ArgsOk(s) && Enabled(s, Free)
    ensures ArgsOk(Do(s, Free))
  {
    var s', args := Do(s, Free), s.launching.args;
    var all, all' := s.list + args + s.freed, s'.list + Taken(s') + s'.freed;
    assert args == [args[0]] + args[1..];
    assert s.list + ([args[0]] + (args[1..] + s.freed)) == all;
    assert s.list + (args[1..] + s.freed) + [args[0]] == all';
    MovedBack(s.list, args[0], args[1..] + s.freed);
  }

  lemma MovedBack(xs: seq<nat>, a: nat, ys: seq<nat>)
    requires Distinct(xs + ([a] + ys))
    ensures Distinct(xs + ys + [a])
    ensures forall b :: b in xs + ys + [a] <==> b in xs + ([a] + ys)
  {
    var before, after := xs + ([a] + ys), xs + ys + [a];
    forall i, j | 0 <= i < j < |after| ensures after[i] != after[j] {
      var i', j' := Back(i, |xs|, |after|), Back(j, |xs|, |after|);
      assert before[i'] == after[i] && before[j'] == after[j] && i' != j';
    }
    forall b ensures b in after <==> b in before {
      assert b in before <==> b in xs || b == a || b in ys;
    }
  }

  // Where an element was before the one at position at moved to the end.
  function Back(i: nat, at: nat, n: nat): nat {
    if i < at then i else if i + 1 < n then i + 1 else at
  }

  lemma ArgsKept(s: State, step: Step)
    requires ArgsOk(s) && Enabled(s, step)
    ensures ArgsOk(Do(s, step))
  {
    match step
    case List(w) => ListArgs(s, w);
    case Free => FreeArgs(s);
    case Collect =>
      assert s.list + [] == s.list && [] + s.list == s.list;
      ArgsFrame(s, Do(s, step));
    case _ => ArgsFrame(s, Do(s, step));
  }

  lemma AddedPush(workers: seq<Worker>, at: Worker, r: nat, f: nat)
    requires f < FIELDS && Sane(workers)
    requires at.done == 0
    ensures AddedSoFar(workers + [at], r, f) == AddedSoFar(workers, r, f)
  {
    assert (workers + [at])[..|workers|] == workers;
  }

  lemma {:induction false} AddedMoves(workers: seq<Worker>, w: nat, at: Worker, r: nat, f: nat)
    requires f < FIELDS && Sane(workers)
    requires w < |workers| && at.req == workers[w].req && at.done <= |at.req.writes|
    ensures AddedSoFar(workers[w := at], r, f) + Adds(at.req, workers[w].done, r, f)
         == AddedSoFar(workers, r, f) + Adds(at.req, at.done, r, f)
  {
    var n := |workers| - 1;
    if w < n {
      AddedMoves(workers[..n], w, at, r, f);
      assert workers[w := at][..n] == workers[..n][w := at];
    } else {
      assert workers[w := at][..n] == workers[..n];
    }
  }

  lemma PlusField(record: Record, updates: Record, f: nat, base: nat)
    requires f < FIELDS && record[f] == Wrap(base)
    ensures Plus(record, updates)[f] == Wrap(base + updates[f])
  {
    WrapPlus(base, updates[f]);
  }

  lemma WriteField(db: seq<Record>, workers: seq<Worker>, w: nat, r: nat, f: nat, base: nat)
    requires Sane(workers) && w < |workers| && workers[w].done < |workers[w].req.writes|
    requires workers[w].req.writes[workers[w].done] < |db| && r < |db| && f < FIELDS
    requires db[r][f] == Wrap(base + AddedSoFar(workers, r, f))
    ensures var at := workers[w];
      var k := at.req.writes[at.done];
      var workers' := workers[w := at.(done := at.done + 1)];
      Sane(workers') && db[k := Plus(db[k], at.req.updates)][r][f] == Wrap(base + AddedSoFar(workers', r, f))
  {
    var at := workers[w];
    AddedMoves(workers, w, at.(done := at.done + 1), r, f);
    if at.req.writes[at.done] == r {
      PlusField(db[r], at.req.updates, f, base + AddedSoFar(workers, r, f));
    }
  }

  lemma FieldWritten(s: State, w: nat, r: nat, f: nat)
    requires |s.db| == |s.db0| && WorkersOk(s) && r < |s.db| && f < FIELDS && FieldOk(s, r, f)
    requires Enabled(s, WriteRecord(w)) && WorkersOk(Do(s, WriteRecord(w)))
    ensures FieldOk(Do(s, WriteRecord(w)), r, f)
  {
    WriteField(s.db, s.workers, w, r, f, s.db0[r][f]);
  }

  lemma FieldKept(s: State, step: Step, r: nat, f: nat)
    requires |s.db| == |s.db0| && WorkersOk(s) && Enabled(s, step)
    requires r < |s.db| && f < FIELDS && WorkersOk(Do(s, step)) && FieldOk(s, r, f)
    ensures FieldOk(Do(s, step), r, f)
  {
    var s' := Do(s, step);
    match step
    case Issue(req) => AddedPush(s.workers, Worker(req, 0, Executing), r, f);
    case WriteRecord(w) => FieldWritten(s, w, r, f);
    case EndRequest(w) => AddedMoves(s.workers, w, s'.workers[w], r, f);
    case List(w) => AddedMoves(s.workers, w, s'.workers[w], r, f);
    case Signal(w) => AddedMoves(s.workers, w, s'.workers[w], r, f);
    case Count(w) => AddedMoves(s.workers, w, s'.workers[w], r, f);
    case _ =>
  }

  lemma StepKeeps(s: State, step: Step)
    requires Inv(s)
    ensures Inv(Do(s, step))
  {
    if Enabled(s, step) {
      WorkersKept(s, step);
      CountsKept(s, step);
      ArgsKept(s, step);
      forall r, f | 0 <= r < |s.db| && 0 <= f < FIELDS ensures FieldOk(Do(s, step), r, f) {
        FieldKept(s, step, r, f);
      }
    }
  }

  lemma {:induction false} RunKeeps(s: State, steps: seq<Step>)
    requires Inv(s)
    ensures Inv(RunFrom(s, steps))
  {
    if steps == [] {
    } else {
      var before := RunFrom(s, steps[..|steps| - 1]);
      assert Inv(before) by {
        RunKeeps(s, steps[..|steps| - 1]);
      }
      StepKeeps(before, steps[|steps| - 1]);
    }
  }

  lemma Reachable(limit: nat, db: seq<Record>, steps: seq<Step>)
    ensures Inv(Run(limit, db, steps))
  {
    RunKeeps(Init(limit, db), steps);
  }
}
