/**
 What the thread launcher promises: its accounting, its exact bound on
 outstanding requests, argument records freed once and in time, a launching
 thread that never waits in vain, and the result of the sequential run.
 */
module LauncherTheorems {
  import opened Txns
  import opened Requests
  import opened Launcher

  // Requests whose worker has not raised the counter yet.
  function Outstanding(s: State): int {
    |s.workers| - Reached(s.workers, 3)
  }

  lemma {:induction false} ReachedBound(workers: seq<Worker>, rank: nat)
    ensures Reached(workers, rank) <= |workers|
    ensures Reached(workers, rank) == |workers| <==>
      forall w :: 0 <= w < |workers| ==> Rank(workers[w].stage) >= rank
  {
    if workers == [] {
    } else {
      var front := workers[..|workers| - 1];
      ReachedBound(front, rank);
      assert workers == front + [workers[|workers| - 1]];
    }
  }

  // The counter, what has been let through, the limit and what has finished
  // always balance. When ExecuteRequest has returned at most limit requests are
  // outstanding; inside it there can be one more.
  lemma Accounting(limit: nat, db: seq<Record>, steps: seq<Step>)
    ensures var s := Run(limit, db, steps);
      && s.counter + Admissions(s) == limit + Reached(s.workers, 3)
      && 0 <= s.counter <= limit + 1
      && 0 <= Outstanding(s) <= limit + 1
      && (!s.launching.Admitting? ==> Outstanding(s) <= limit)
  {
    Reachable(limit, db, steps);
    ReachedBound(Run(limit, db, steps).workers, 3);
  }

  /******* The bound is attained *******/

  function Empty(): Request {
    Request([], seq(FIELDS, _ => 0))
  }

  // Requests are issued and let through while no worker gets a turn.
  function Flood(n: nat): seq<Step> {
    if n == 0 then [] else Flood(n - 1) + [Issue(Empty()), Admit, Collect, Finish]
  }

  function Waiting(n: nat): seq<Worker> {
    seq(n, _ => Worker(Empty(), 0, Executing))
  }

  lemma {:induction false} RunConcat(s: State, a: seq<Step>, b: seq<Step>)
    ensures RunFrom(s, a + b) == RunFrom(RunFrom(s, a), b)
  {
    if b == [] {
      assert a + b == a;
    } else {
      RunConcat(s, a, b[..|b| - 1]);
      assert (a + b)[..|a + b| - 1] == a + b[..|b| - 1];
    }
  }

  lemma OneStep(s: State, step: Step)
    ensures RunFrom(s, [step]) == Do(s, step)
  {
    assert RunFrom(s, [step][..0]) == s;
  }

  lemma LetThrough(s: State)
    requires s.launching.Idle? && s.counter > 0 && s.list == []
    ensures RunFrom(s, [Issue(Empty()), Admit, Collect, Finish])
         == s.(counter := s.counter - 1, workers := s.workers + [Worker(Empty(), 0, Executing)])
  {
    var s1 := Do(s, Issue(Empty()));
    var s2 := Do(s1, Admit);
    var s3 := Do(s2, Collect);
    OneStep(s, Issue(Empty()));
    RunConcat(s, [Issue(Empty())], [Admit]);
    OneStep(s1, Admit);
    RunConcat(s, [Issue(Empty()), Admit], [Collect]);
    OneStep(s2, Collect);
    RunConcat(s, [Issue(Empty()), Admit, Collect], [Finish]);
    OneStep(s3, Finish);
    assert [Issue(Empty())] + [Admit] == [Issue(Empty()), Admit];
    assert [Issue(Empty()), Admit] + [Collect] == [Issue(Empty()), Admit, Collect];
    assert [Issue(Empty()), Admit, Collect] + [Finish] == [Issue(Empty()), Admit, Collect, Finish];
  }

  lemma {:induction false} Floods(limit: nat, db: seq<Record>, n: nat)
    requires n <= limit
    ensures Run(limit, db, Flood(n)) == Init(limit, db).(counter := limit - n, workers := Waiting(n))
  {
    if n == 0 {
      assert Waiting(0) == [];
    } else {
      Floods(limit, db, n - 1);
      var s := Run(limit, db, Flood(n - 1));
      LetThrough(s);
      RunConcat(Init(limit, db), Flood(n - 1), [Issue(Empty()), Admit, Collect, Finish]);
      assert Waiting(n - 1) + [Worker(Empty(), 0, Executing)] == Waiting(n);
    }
  }

  lemma {:induction false} NoneFinished(n: nat)
    ensures Reached(Waiting(n), 3) == 0
  {
    if n == 0 {
    } else {
      NoneFinished(n - 1);
      assert Waiting(n)[..n - 1] == Waiting(n - 1);
    }
  }

  // One request more than the limit can really be outstanding, although the
  // comment on the limit says that it is never exceeded: the thread is created
  // before the launcher waits for the counter.
  lemma LimitExceeded(limit: nat, db: seq<Record>)
    ensures Outstanding(Run(limit, db, Flood(limit) + [Issue(Empty())])) == limit + 1
  {
    var s := Run(limit, db, Flood(limit));
    Floods(limit, db, limit);
    RunConcat(Init(limit, db), Flood(limit), [Issue(Empty())]);
    OneStep(s, Issue(Empty()));
    assert Waiting(limit) + [Worker(Empty(), 0, Executing)] == Waiting(limit + 1);
    NoneFinished(limit + 1);
  }

  // So m bounds the outstanding requests exactly when it exceeds the limit.
  lemma ExactBound(limit: nat, db: seq<Record>, m: nat)
    ensures limit < m <==> forall steps :: Outstanding(Run(limit, db, steps)) <= m
  {
    if limit < m {
      forall steps ensures Outstanding(Run(limit, db, steps)) <= m {
        Accounting(limit, db, steps);
      }
    } else {
      LimitExceeded(limit, db);
    }
  }

  /******* Argument records *******/

  // An argument record is freed at most once, after its worker has ended, and
  // never while it is still on the list or about to be joined.
  lemma FreedOnceAfterEnd(limit: nat, db: seq<Record>, steps: seq<Step>, a: nat)
    ensures var s := Run(limit, db, steps);
      && multiset(s.list + Taken(s) + s.freed)[a] == (if a < |s.workers| && Rank(s.workers[a].stage) >= 2 then 1 else 0)
      && (a in s.freed ==> a < |s.workers| && s.workers[a].stage.Counted?)
  {
    var s := Run(limit, db, steps);
    Reachable(limit, db, steps);
    CountDistinct(s.list + Taken(s) + s.freed, a);
  }

  // Record a has been freed, or the launching thread has it, or it is on the list
  // and is going to be taken: in this call, or if none is under way, in the next,
  // of which there has been none while n requests had been issued.
  predicate Owed(s: State, a: nat, n: int) {
    || a in s.freed || a in Taken(s)
    || (a in s.list && (s.launching.Admitting? || s.launching.Collecting? || |s.workers| == n))
  }

  lemma StepKeepsOwed(s: State, step: Step, a: nat, n: int)
    requires Owed(s, a, n) && Enabled(s, step)
    ensures Owed(Do(s, step), a, n) && |s.workers| <= |Do(s, step).workers|
  {
    if step.Free? {
      var args := s.launching.args;
      assert args == [args[0]] + args[1..];
    }
  }

  lemma {:induction false} RunKeepsOwed(s: State, steps: seq<Step>, a: nat, n: int)
    requires Owed(s, a, n)
    ensures Owed(RunFrom(s, steps), a, n) && |s.workers| <= |RunFrom(s, steps).workers|
  {
    if steps == [] {
    } else {
      var last := |steps| - 1;
      RunKeepsOwed(s, steps[..last], a, n);
      if Enabled(RunFrom(s, steps[..last]), steps[last]) {
        StepKeepsOwed(RunFrom(s, steps[..last]), steps[last], a, n);
      }
    }
  }

  lemma OnceInTail(xs: seq<nat>, ys: seq<nat>, a: nat)
    requires Distinct(xs + ys) && a in ys
    ensures multiset(ys)[a] == 1
  {
    forall i, j | 0 <= i < j < |ys| ensures ys[i] != ys[j] {
      assert (xs + ys)[|xs| + i] == ys[i] && (xs + ys)[|xs| + j] == ys[j];
    }
    CountDistinct(ys, a);
  }

  lemma AtRestFreed(s: State, a: nat, n: int)
    requires ArgsOk(s) && Owed(s, a, n) && s.launching.Idle? && |s.workers| > n
    ensures multiset(s.freed)[a] == 1
  {
    OnceInTail(s.list + Taken(s), s.freed, a);
  }

  lemma OwedIsFreed(limit: nat, db: seq<Record>, steps: seq<Step>, more: seq<Step>, a: nat, n: int)
    requires Owed(Run(limit, db, steps), a, n)
    requires var s' := Run(limit, db, steps + more); s'.launching.Idle? && |s'.workers| > n
    ensures multiset(Run(limit, db, steps + more).freed)[a] == 1
  {
    RunConcat(Init(limit, db), steps, more);
    RunKeepsOwed(Run(limit, db, steps), more, a, n);
    Reachable(limit, db, steps + more);
    AtRestFreed(Run(limit, db, steps + more), a, n);
  }

  // A call frees every record that is on the list before it takes the list, once
  // it has returned.
  lemma CallFrees(limit: nat, db: seq<Record>, steps: seq<Step>, more: seq<Step>, a: nat)
    requires var s := Run(limit, db, steps); a in s.list && (s.launching.Admitting? || s.launching.Collecting?)
    requires Run(limit, db, steps + more).launching.Idle?
    ensures multiset(Run(limit, db, steps + more).freed)[a] == 1
  {
    OwedIsFreed(limit, db, steps, more, a, -1);
  }

  // So every record handed back is freed once some later call has returned.
  lemma NextCallFrees(limit: nat, db: seq<Record>, steps: seq<Step>, more: seq<Step>, a: nat)
    requires a in Run(limit, db, steps).list
    requires var s' := Run(limit, db, steps + more);
      s'.launching.Idle? && |s'.workers| > |Run(limit, db, steps).workers|
    ensures multiset(Run(limit, db, steps + more).freed)[a] == 1
  {
    OwedIsFreed(limit, db, steps, more, a, |Run(limit, db, steps).workers|);
  }

  // The records not yet freed at rest are those listed since the last call took
  // the list: each ended request is in exactly one of the two.
  lemma RestIsListed(limit: nat, db: seq<Record>, steps: seq<Step>, a: nat)
    requires var s := Run(limit, db, steps);
      s.launching.Idle? && a < |s.workers| && s.workers[a].stage.Counted?
    ensures var s := Run(limit, db, steps);
      multiset(s.list)[a] + multiset(s.freed)[a] == 1
  {
    var s := Run(limit, db, steps);
    FreedOnceAfterEnd(limit, db, steps, a);
    assert s.list + Taken(s) + s.freed == s.list + s.freed;
  }

  /******* No waiting in vain *******/

  lemma WorkerMoves(s: State, w: nat) returns (step: Step)
    requires Inv(s) && w < |s.workers| && !s.workers[w].stage.Counted?
    ensures Enabled(s, step) && !step.Issue?
  {
    assert WorkerOk(s.workers[w], |s.db|);
    match s.workers[w].stage
    case Executing =>
      step := if s.workers[w].done < |s.workers[w].req.writes| then WriteRecord(w) else EndRequest(w);
    case Written => step := List(w);
    case Listed => step := Signal(w);
    case Signalled => step := Count(w);
  }

  // Inside ExecuteRequest something can always be done: if the counter holds
  // the launcher up, or a thread to be joined, then some worker can move.
  lemma Progress(s: State) returns (step: Step)
    requires Inv(s) && !s.launching.Idle?
    ensures Enabled(s, step) && !step.Issue?
  {
    match s.launching
    case Admitting =>
      if s.counter > 0 {
        step := Admit;
      } else {
        ReachedBound(s.workers, 3);
        var w :| 0 <= w < |s.workers| && Rank(s.workers[w].stage) < 3;
        step := WorkerMoves(s, w);
      }
    case Collecting => step := Collect;
    case Freeing(args) =>
      if args == [] {
        step := Finish;
      } else {
        assert args[0] in s.list + Taken(s) + s.freed by {
          assert (s.list + args + s.freed)[|s.list|] == args[0];
        }
        if s.workers[args[0]].stage.Counted? {
          step := Free;
        } else {
          step := WorkerMoves(s, args[0]);
        }
      }
  }

  // Steps still to come before everything is at rest.
  function Left(at: Worker): nat
    requires at.done <= |at.req.writes|
  {
    |at.req.writes| - at.done + 4 - Rank(at.stage)
  }

  function WorkersLeft(workers: seq<Worker>): nat
    requires Sane(workers)
  {
    if workers == [] then 0 else WorkersLeft(workers[..|workers| - 1]) + Left(workers[|workers| - 1])
  }

  function LaunchingLeft(s: State): nat {
    match s.launching
    case Idle => 0
    case Freeing(args) => 1 + |args|
    case Collecting => 2 + |s.list| + |s.workers|
    case Admitting => 3 + |s.list| + 2 * |s.workers|
  }

  lemma {:induction false} WorkersLeftMoves(workers: seq<Worker>, w: nat, at: Worker)
    requires Sane(workers) && w < |workers| && at.done <= |at.req.writes|
    ensures WorkersLeft(workers[w := at]) + Left(workers[w]) == WorkersLeft(workers) + Left(at)
  {
    var n := |workers| - 1;
    if w < n {
      WorkersLeftMoves(workers[..n], w, at);
      assert workers[w := at][..n] == workers[..n][w := at];
    } else {
      assert workers[w := at][..n] == workers[..n];
    }
  }

  // How much of a launch is left, in steps of the launcher and of the workers.
  // Handing a record back adds one to what the launcher may have to free.
  function Work(s: State): nat
    requires Sane(s.workers)
  {
    2 * WorkersLeft(s.workers) + LaunchingLeft(s)
  }

  // A step by a worker, and the worker after it.
  lemma WorkerStep(s: State, step: Step) returns (w: nat)
    requires WorkersOk(s) && Enabled(s, step)
    requires step.WriteRecord? || step.EndRequest? || step.List? || step.Signal? || step.Count?
    ensures var s' := Do(s, step);
      && w < |s.workers| && |s'.workers| == |s.workers| && s'.workers == s.workers[w := s'.workers[w]]
      && s'.workers[w].done <= |s'.workers[w].req.writes| && s.workers[w].done <= |s.workers[w].req.writes|
      && Left(s'.workers[w]) < Left(s.workers[w])
      && s'.launching == s.launching && |s'.list| <= |s.list| + 1
  {
    w := step.w;
    assert WorkerOk(s.workers[w], |s.db|);
  }

  lemma EveryStepCounts(s: State, step: Step)
    requires WorkersOk(s) && Enabled(s, step) && !step.Issue?
    ensures Sane(s.workers) && Sane(Do(s, step).workers) && Work(Do(s, step)) < Work(s)
  {
    var s' := Do(s, step);
    AllSane(s);
    WorkersKept(s, step);
    AllSane(s');
    if !(step.Admit? || step.Collect? || step.Free? || step.Finish?) {
      var w := WorkerStep(s, step);
      WorkersLeftMoves(s.workers, w, s'.workers[w]);
    }
  }

  lemma AllSane(s: State)
    requires WorkersOk(s)
    ensures Sane(s.workers)
  {
    assert forall w :: 0 <= w < |s.workers| ==> WorkerOk(s.workers[w], |s.db|);
  }

  // Every step uses up some of the work that is left, so ExecuteRequest returns
  // and WaitOutstanding ends whatever turns the threads take.
  lemma {:induction false} Settles(s: State) returns (more: seq<Step>)
    requires Inv(s)
    ensures forall m :: 0 <= m < |more| ==> !more[m].Issue?
    ensures var s' := RunFrom(s, more);
      s'.launching.Idle? && |s'.workers| == |s.workers| && s'.executed == |s'.workers|
    decreases Work(s)
  {
    more := [];
    if !s.launching.Idle? || s.executed != |s.workers| {
      var step := SomeStep(s);
      EveryStepCounts(s, step);
      StepKeeps(s, step);
      var rest := Settles(Do(s, step));
      more := [step] + rest;
      OneStep(s, step);
      RunConcat(s, [step], rest);
    }
  }

  lemma SomeStep(s: State) returns (step: Step)
    requires Inv(s) && (!s.launching.Idle? || s.executed != |s.workers|)
    ensures Enabled(s, step) && !step.Issue? && |Do(s, step).workers| == |s.workers|
  {
    if !s.launching.Idle? {
      step := Progress(s);
    } else {
      ReachedBound(s.workers, 4);
      var w :| 0 <= w < |s.workers| && Rank(s.workers[w].stage) < 4;
      step := WorkerMoves(s, w);
    }
  }

  /******* The sequential comparison *******/

  function RequestsOf(workers: seq<Worker>): (reqs: seq<Request>)
    ensures |reqs| == |workers| && forall i :: 0 <= i < |workers| ==> reqs[i] == workers[i].req
  {
    seq(|workers|, i requires 0 <= i < |workers| => workers[i].req)
  }

  lemma {:induction false} AllAdded(workers: seq<Worker>, reqs: seq<Request>, r: nat, f: nat)
    requires Sane(workers) && f < FIELDS && |workers| <= |reqs|
    requires forall w :: 0 <= w < |workers| ==> reqs[w] == workers[w].req && workers[w].done == |workers[w].req.writes|
    ensures AddedSoFar(workers, r, f) == Total(reqs, |workers|, r, f)
  {
    if workers == [] {
    } else {
      AllAdded(workers[..|workers| - 1], reqs, r, f);
    }
  }

  lemma FieldAgrees(s: State, r: nat, f: nat)
    requires |s.db| == |s.db0| && WorkersOk(s) && r < |s.db| && f < FIELDS && FieldOk(s, r, f)
    requires forall w :: 0 <= w < |s.workers| ==> s.workers[w].done == |s.workers[w].req.writes|
    requires forall w :: 0 <= w < |s.workers| ==> InRange(s.workers[w].req, |s.db0|)
    ensures s.db[r][f] == Sequential(s.db0, RequestsOf(s.workers), |s.workers|)[r][f]
  {
    AllAdded(s.workers, RequestsOf(s.workers), r, f);
    SequentialFields(s.db0, RequestsOf(s.workers), |s.workers|, r, f);
  }

  lemma AllDone(s: State)
    requires Inv(s) && s.executed == |s.workers|
    ensures forall w :: 0 <= w < |s.workers| ==>
      && s.workers[w].stage.Counted? && s.workers[w].done == |s.workers[w].req.writes|
      && InRange(s.workers[w].req, |s.db0|)
  {
    ReachedBound(s.workers, 4);
    forall w | 0 <= w < |s.workers| ensures s.workers[w].stage.Counted? {
      assert Rank(s.workers[w].stage) >= 4;
    }
  }

  lemma SameRecord(a: Record, b: Record)
    requires forall f :: 0 <= f < FIELDS ==> a[f] == b[f]
    ensures a == b
  {
  }

  // WaitOutstanding lets the comparison go ahead only when every request has
  // been carried out, and then the records are those of a sequential run, in
  // whatever order the workers wrote.
  lemma SameAsSequential(limit: nat, db: seq<Record>, steps: seq<Step>)
    requires Run(limit, db, steps).executed == |Run(limit, db, steps).workers|
    ensures var s := Run(limit, db, steps);
      && (forall w :: 0 <= w < |s.workers| ==> s.workers[w].stage.Counted? && InRange(s.workers[w].req, |db|))
      && s.db == Sequential(db, RequestsOf(s.workers), |s.workers|)
  {
    var s := Run(limit, db, steps);
    Reachable(limit, db, steps);
    AllDone(s);
    var serial := Sequential(db, RequestsOf(s.workers), |s.workers|);
    forall r | 0 <= r < |db| ensures s.db[r] == serial[r] {
      forall f | 0 <= f < FIELDS ensures s.db[r][f] == serial[r][f] {
        FieldAgrees(s, r, f);
      }
      SameRecord(s.db[r], serial[r]);
    }
  }
}
