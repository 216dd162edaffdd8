/**
 Which attempts serial validation lets pass: exactly those whose keys no
 transaction has committed a write to since they began. With what the lists of
 the scheduler hold, this pins down every verdict, not just the safe side.
 */
module OccDecisions {
  import opened Txns
  import opened Occ
  import opened OccValidation

  // i is not executing, or began when n transactions had committed.
  predicate BeganAt(s: State, i: TxnId, n: nat)
    requires Sized(s)
  {
    && i < |s.txns|
    && (s.phases[i].Running? ==> s.phases[i].start == n)
    && (s.phases[i].Finished? ==> s.phases[i].start == n)
  }

  ghost predicate NoBegin(steps: seq<Step>, i: TxnId) {
    forall m :: 0 <= m < |steps| ==> steps[m] != Begin(i)
  }

  lemma StepKeepsStart(s: State, step: Step, i: TxnId, n: nat)
    requires Sized(s) && BeganAt(s, i, n) && step != Begin(i)
    ensures BeganAt(Do(s, step), i, n)
    ensures Do(s, step).txns[i] == s.txns[i] && |s.committed| <= |Do(s, step).committed|
  {
  }

  lemma {:induction false} RunKeepsStart(s: State, steps: seq<Step>, i: TxnId, n: nat)
    requires Sized(s) && BeganAt(s, i, n) && NoBegin(steps, i)
    ensures BeganAt(RunFrom(s, steps), i, n)
    ensures RunFrom(s, steps).txns[i] == s.txns[i] && |s.committed| <= |RunFrom(s, steps).committed|
  {
    if steps == [] {
    } else {
      var last := |steps| - 1;
      RunKeepsStart(s, steps[..last], i, n);
      StepKeepsStart(RunFrom(s, steps[..last]), steps[last], i, n);
    }
  }

  // Some transaction that has committed at or after position n of the committed
  // list declares a write to a key of transaction i.
  predicate OverlapSince(s: State, i: TxnId, n: nat) {
    && i < |s.txns|
    && exists c :: n <= c < |s.committed| && s.committed[c] < |s.txns| && Overlapping(s.txns[i], s.txns[s.committed[c]])
  }

  // What validation makes of an attempt with the given vote.
  predicate Verdict(before: Phase, after: Phase, overlap: bool)
    requires before.Finished?
  {
    if overlap then after.Requested?
    else if before.out.commit then after == before.(stage := Applying(before.out.writes.Keys))
    else after == before.(stage := Returned)
  }

  // Every attempt, in every run: from its beginning after the steps of front to
  // its validation, whatever happens in between. It restarts exactly when a
  // transaction that committed meanwhile declares a write to one of its keys;
  // otherwise it is committed or aborted by its own vote.
  lemma RestartsExactlyOnOverlap(db: Db, front: seq<Step>, i: TxnId, mid: seq<Step>)
    requires Enabled(Run(db, front), Begin(i)) && NoBegin(mid, i)
    requires var s := RunFrom(AfterBegin(Run(db, front), i), mid); Enabled(s, Validate) && s.completed[0] == i
    ensures var s := RunFrom(AfterBegin(Run(db, front), i), mid);
      Verdict(s.phases[i], AfterValidate(s).phases[i], OverlapSince(s, i, |Run(db, front).committed|))
  {
    var s0 := Run(db, front);
    var s := RunFrom(AfterBegin(s0, i), mid);
    RunKeepsStart(AfterBegin(s0, i), mid, i, |s0.committed|);
    ReachableAfter(db, front, i, mid);
    forall c | 0 <= c < |s.committed| ensures s.committed[c] < |s.txns| {
      assert s.committed[c] in s.committed && s.committed[c] in s.results;
    }
    SerialMeans(s, i, |s0.committed|);
  }

  lemma ReachableAfter(db: Db, front: seq<Step>, i: TxnId, mid: seq<Step>)
    requires Enabled(Run(db, front), Begin(i))
    ensures Inv(RunFrom(AfterBegin(Run(db, front), i), mid))
  {
    Reachable(db, front);
    StepKeeps(Run(db, front), Begin(i));
    RunKeeps(AfterBegin(Run(db, front), i), mid);
  }

  // Nobody waits for a worker: one that is running can take any of its next steps
  // whatever others do, and the scheduler can turn to any queue between commits.
  lemma NothingHeldUp(db: Db, steps: seq<Step>)
    ensures var s := Run(db, steps);
      && (forall i, k :: 0 <= i < |s.txns| && s.phases[i].Running? && k in s.phases[i].todo ==> Enabled(s, ReadKey(i, k)))
      && (forall i :: 0 <= i < |s.txns| && s.phases[i].Running? && s.phases[i].todo == {} ==> Enabled(s, RunLogic(i)))
      && (forall i :: 0 <= i < |s.txns| && s.phases[i].Assigned? ==> Enabled(s, Begin(i)))
      && (s.requests != [] ==> Enabled(s, Assign))
      && (s.current.None? && s.completed != [] ==> Enabled(s, Validate))
  {
    var s := Run(db, steps);
    Reachable(db, steps);
    assert s.requests != [] ==> s.requests[0] in s.requests;
    assert s.completed != [] ==> s.completed[0] in s.completed;
  }

  /******* What the lists hold *******/

  // The committed list holds exactly the transactions that were returned with a
  // vote to commit.
  predicate CommitsOk(s: State)
    requires Sized(s)
  {
    && (forall c :: 0 <= c < |s.committed| ==>
          s.committed[c] < |s.txns| && InStage(s.phases[s.committed[c]], true) && s.phases[s.committed[c]].out.commit)
    && (forall i :: 0 <= i < |s.txns| && InStage(s.phases[i], true) && s.phases[i].out.commit ==> i in s.committed)
  }

  lemma ReturnsNow(s: State, step: Step, i: TxnId)
    requires Inv(s) && Enabled(s, step) && i < |s.txns|
    ensures Do(s, step).phases[i] == s.phases[i] || !InStage(s.phases[i], true)
    ensures InStage(Do(s, step).phases[i], true) && !InStage(s.phases[i], true) ==>
      || (step.PushCommit? && i == s.current.value && Do(s, step).phases[i].out.commit)
      || (step.Validate? && !Do(s, step).phases[i].out.commit)
  {
    match step
    case Assign => assert s.requests[0] in s.requests;
    case Validate => assert s.completed[0] in s.completed;
    case _ =>
  }

  lemma CommittedMoves(s: State, step: Step)
    requires Sized(s) && Enabled(s, step)
    ensures Do(s, step).committed == s.committed + if step.PushCommit? then [s.current.value] else []
    ensures step.PushCommit? ==>
      s.current.value < |s.txns| && InStage(Do(s, step).phases[s.current.value], true)
      && Do(s, step).phases[s.current.value].out == s.phases[s.current.value].out
  {
  }

  lemma StepKeepsCommits(s: State, step: Step)
    requires Inv(s) && CommitsOk(s) && Enabled(s, step)
    ensures CommitsOk(Do(s, step))
  {
    var s' := Do(s, step);
    CommittedMoves(s, step);
    forall c | 0 <= c < |s'.committed|
      ensures s'.committed[c] < |s'.txns| && InStage(s'.phases[s'.committed[c]], true)
      ensures s'.phases[s'.committed[c]].out.commit
    {
      if c < |s.committed| {
        ReturnsNow(s, step, s.committed[c]);
      }
    }
    forall i | 0 <= i < |s'.txns| && InStage(s'.phases[i], true) && s'.phases[i].out.commit ensures i in s'.committed {
      if i < |s.txns| {
        ReturnsNow(s, step, i);
      }
    }
  }

  lemma {:induction false} CommittedExactly(db: Db, steps: seq<Step>)
    ensures CommitsOk(Run(db, steps)) && Distinct(Run(db, steps).committed)
  {
    Reachable(db, steps);
    if steps == [] {
    } else {
      var last := |steps| - 1;
      CommittedExactly(db, steps[..last]);
      Reachable(db, steps[..last]);
      if Enabled(Run(db, steps[..last]), steps[last]) {
        StepKeepsCommits(Run(db, steps[..last]), steps[last]);
      }
    }
  }

  ghost predicate Forward(s: State, s': State) {
    && Advances(s.requests, s'.requests) && Advances(s.completed, s'.completed)
    && s.committed <= s'.committed && s.results <= s'.results
  }

  lemma StepForward(s: State, step: Step)
    requires Sized(s) && Enabled(s, step)
    ensures Forward(s, Do(s, step))
  {
    AdvancesPlus(s.requests, []);
    AdvancesPlus(s.completed, []);
    match step
    case Submit(_) => AdvancesPlus(s.requests, [|s.txns|]);
    case Assign => AdvancesPop(s.requests, []);
    case RunLogic(i) => AdvancesPlus(s.completed, [i]);
    case Validate =>
      AdvancesPlus(s.requests, [s.completed[0]]);
      AdvancesPop(s.completed, []);
    case _ =>
  }

  // Both queues are first in, first out, restarts included; the committed list
  // and the results only grow at their end.
  lemma {:induction false} FirstInFirstOut(s: State, steps: seq<Step>)
    requires Sized(s)
    ensures Forward(s, RunFrom(s, steps))
  {
    if steps == [] {
      AdvancesPlus(s.requests, []);
      AdvancesPlus(s.completed, []);
    } else {
      var last := |steps| - 1;
      var mid := RunFrom(s, steps[..last]);
      FirstInFirstOut(s, steps[..last]);
      if Enabled(mid, steps[last]) {
        StepForward(mid, steps[last]);
        AdvancesOn(s.requests, mid.requests, Do(mid, steps[last]).requests);
        AdvancesOn(s.completed, mid.completed, Do(mid, steps[last]).completed);
      }
    }
  }
}
