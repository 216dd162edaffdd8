/**
 What the queues and lists of the locking scheduler hold, and in which order:
 first in, first out everywhere, and a committed list of exactly the commits.
 */
module LockingQueues {
  import opened Txns
  import opened LockTable
  import opened Locking

  ghost predicate Forward(s: State, s': State) {
    && Advances(s.requests, s'.requests) && Advances(s.ready, s'.ready) && Advances(s.completed, s'.completed)
    && s.committed <= s'.committed && s.results <= s'.results
  }

  lemma Unmoved(s: State, s': State)
    requires s'.requests == s.requests && s'.ready == s.ready && s'.completed == s.completed
    requires s.committed <= s'.committed && s.results <= s'.results
    ensures Forward(s, s')
  {
    AdvancesPlus(s.requests, []);
    AdvancesPlus(s.ready, []);
    AdvancesPlus(s.completed, []);
  }

  lemma StepForward(s: State, step: Step)
    requires |s.txns| == |s.phases| && Enabled(s, step)
    ensures Forward(s, Do(s, step))
  {
    AdvancesPlus(s.requests, []);
    AdvancesPlus(s.ready, []);
    AdvancesPlus(s.completed, []);
    match step
    case Submit(_) => AdvancesPlus(s.requests, [|s.txns|]);
    case Admit =>
      AdvancesPop(s.requests, []);
      AdvancesPlus(s.ready, [s.requests[0]]);
    case Dispatch => AdvancesPop(s.ready, []);
    case RunLogic(i) => AdvancesPlus(s.completed, [i]);
    case Collect => AdvancesPop(s.completed, []);
    case ReleaseKey(k) => AdvancesPlus(s.ready, Woken(s.locks, s.current.value, k));
    case _ => Unmoved(s, Do(s, step));
  }

  lemma ForwardOn(s1: State, s2: State, s3: State)
    requires Forward(s1, s2) && Forward(s2, s3)
    ensures Forward(s1, s3)
  {
    AdvancesOn(s1.requests, s2.requests, s3.requests);
    AdvancesOn(s1.ready, s2.ready, s3.ready);
    AdvancesOn(s1.completed, s2.completed, s3.completed);
  }

  // The three queues are first in, first out; the committed list and the results
  // only grow at their end.
  lemma {:induction false} FirstInFirstOut(s: State, steps: seq<Step>)
    requires |s.txns| == |s.phases|
    ensures Forward(s, RunFrom(s, steps))
  {
    if steps == [] {
      Unmoved(s, s);
    } else {
      var last := |steps| - 1;
      var mid := RunFrom(s, steps[..last]);
      FirstInFirstOut(s, steps[..last]);
      if Enabled(mid, steps[last]) {
        StepForward(mid, steps[last]);
        ForwardOn(s, mid, Do(mid, steps[last]));
      }
    }
  }

  // Those that a release wakes become ready in the order of their arrival.
  lemma WokenByArrival(exclusiveOnly: bool, db: Db, steps: seq<Step>, k: Key)
    requires Enabled(Run(exclusiveOnly, db, steps), ReleaseKey(k))
    ensures var s := Run(exclusiveOnly, db, steps);
      var woken := AfterReleaseKey(s, k).ready[|s.ready|..];
      forall a, b :: 0 <= a < b < |woken| ==> woken[a] < woken[b]
  {
    var s := Run(exclusiveOnly, db, steps);
    var q, woken := QueueAt(s.locks.table, k), Woken(s.locks, s.current.value, k);
    Reachable(exclusiveOnly, db, steps);
    assert QueueOk(s, k);
    WokenInOrder(s.locks, s.current.value, k);
    assert AfterReleaseKey(s, k).ready[|s.ready|..] == woken;
    forall a, b | 0 <= a < b < |woken| ensures woken[a] < woken[b] {
      assert StandsBefore(q, woken[a], woken[b]);
    }
  }

  /******* Waiting *******/

  // The two programs cannot use k at the same time: one of them writes it, or
  // every lock is exclusive.
  predicate Conflicting(exclusiveOnly: bool, p: Logic, q: Logic, k: Key) {
    && (k in p.readset || k in p.writeset) && (k in q.readset || k in q.writeset)
    && (exclusiveOnly || k in p.writeset || k in q.writeset)
  }

  // Some transaction that arrived before i has a conflicting request in the lock
  // table.
  predicate Opposed(s: State, i: TxnId, j: TxnId, k: Key) {
    j < i < |s.txns| && Queued(QueueAt(s.locks.table, k), j) && Conflicting(s.exclusiveOnly, s.txns[j], s.txns[i], k)
  }

  // Requests are in the mode that the declared sets call for: shared for keys
  // that are only read, unless there are exclusive locks only.
  lemma RequestModes(exclusiveOnly: bool, db: Db, steps: seq<Step>, k: Key, p: nat)
    requires p < |QueueAt(Run(exclusiveOnly, db, steps).locks.table, k)|
    ensures var s := Run(exclusiveOnly, db, steps);
      var r := QueueAt(s.locks.table, k)[p];
      && r.txn < |s.txns| && (k in s.txns[r.txn].readset || k in s.txns[r.txn].writeset)
      && (r.exclusive <==> exclusiveOnly || k in s.txns[r.txn].writeset)
  {
    var s := Run(exclusiveOnly, db, steps);
    Reachable(exclusiveOnly, db, steps);
    RunMode(Init(exclusiveOnly, db), steps);
    assert QueueOk(s, k);
    assert Stands(s, QueueAt(s.locks.table, k)[p], k);
  }

  lemma {:induction false} RunMode(s: State, steps: seq<Step>)
    requires |s.txns| == |s.phases|
    ensures RunFrom(s, steps).exclusiveOnly == s.exclusiveOnly
  {
    if steps == [] {
    } else {
      var last := |steps| - 1;
      RunMode(s, steps[..last]);
      StepMode(RunFrom(s, steps[..last]), steps[last]);
    }
  }

  lemma StepMode(s: State, step: Step)
    requires |s.txns| == |s.phases|
    ensures Do(s, step).exclusiveOnly == s.exclusiveOnly
  {
  }

  lemma ClearMeans(s: State, i: TxnId, k: Key)
    requires |s.txns| == |s.phases| && i < |s.txns| && QueueOk(s, k) && k in s.txns[i].Keys()
    ensures Clear(s, i, k) <==> forall j :: !Opposed(s, i, j, k)
  {
    forall j | 0 <= j < i
      ensures Opposed(s, i, j, k) <==>
        OnQueue(s.phases[j], s.txns[j], k) && (IsExclusive(s, j, k) || IsExclusive(s, i, k))
    {
      QueuedMeans(s, j, k);
    }
    if forall j :: !Opposed(s, i, j, k) {
      assert Clear(s, i, k);
    }
  }

  lemma QueuedMeans(s: State, j: TxnId, k: Key)
    requires |s.txns| == |s.phases| && j < |s.txns| && QueueOk(s, k)
    ensures Queued(QueueAt(s.locks.table, k), j) <==> OnQueue(s.phases[j], s.txns[j], k)
  {
    var q := QueueAt(s.locks.table, k);
    if Queued(q, j) {
      var p :| 0 <= p < |q| && q[p].txn == j;
      assert Stands(s, q[p], k);
    }
  }

  // A transaction that has asked for its locks waits exactly when one that came
  // before it still has a request for a key that the two cannot share. Readers of
  // a key never wait for each other when locks can be shared.
  lemma WaitsExactlyOnConflict(exclusiveOnly: bool, db: Db, steps: seq<Step>, i: TxnId)
    requires i < |Run(exclusiveOnly, db, steps).txns| && !Run(exclusiveOnly, db, steps).phases[i].Requested?
    ensures var s := Run(exclusiveOnly, db, steps);
      s.phases[i].Waiting? <==> exists j, k :: Opposed(s, i, j, k)
  {
    var s := Run(exclusiveOnly, db, steps);
    Reachable(exclusiveOnly, db, steps);
    if s.phases[i].Waiting? {
      assert !AllClear(s, i);
      var k :| k in s.txns[i].Keys() && !Clear(s, i, k);
      assert QueueOk(s, k);
      ClearMeans(s, i, k);
    } else {
      assert HasLocks(s.phases[i]) && AllClear(s, i);
      forall j, k ensures !Opposed(s, i, j, k) {
        Unopposed(s, i, j, k);
      }
    }
  }

  lemma Unopposed(s: State, i: TxnId, j: TxnId, k: Key)
    requires |s.txns| == |s.phases| && i < |s.txns| && AllClear(s, i) && QueueOk(s, k)
    ensures !Opposed(s, i, j, k)
  {
    if k in s.txns[i].Keys() {
      ClearMeans(s, i, k);
    }
  }

  /******* Who can move *******/

  // Nobody waits for anything but locks: a running transaction can take any of
  // its next steps whatever others do, and the scheduler, between two
  // transactions, can turn to any queue that is not empty.
  lemma NothingHeldUp(exclusiveOnly: bool, db: Db, steps: seq<Step>)
    ensures var s := Run(exclusiveOnly, db, steps);
      && (forall i, k :: 0 <= i < |s.txns| && s.phases[i].Running? && k in s.phases[i].todo ==> Enabled(s, ReadKey(i, k)))
      && (forall i :: 0 <= i < |s.txns| && s.phases[i].Running? && s.phases[i].todo == {} ==> Enabled(s, RunLogic(i)))
      && (s.current.None? ==>
            && (s.requests != [] ==> Enabled(s, Admit))
            && (s.ready != [] ==> Enabled(s, Dispatch))
            && (s.completed != [] ==> Enabled(s, Collect)))
  {
    var s := Run(exclusiveOnly, db, steps);
    Reachable(exclusiveOnly, db, steps);
    assert s.requests != [] ==> s.requests[0] == |s.txns| - |s.requests|;
    assert s.ready != [] ==> s.ready[0] in s.ready;
    assert s.completed != [] ==> s.completed[0] in s.completed;
  }

  /******* The committed list *******/

  // The transaction is past its commit, if it voted for one.
  predicate Concluded(ph: Phase) {
    ph.Finished? && (ph.stage.Releasing? || ph.stage.Returned?)
  }

  predicate Committed(ph: Phase) {
    Concluded(ph) && ph.out.commit
  }

  predicate Recorded(s: State, c: Commit) {
    c.txn < |s.phases| && Committed(s.phases[c.txn]) && c.writes == s.phases[c.txn].out.writes
  }

  predicate Listed(s: State, i: TxnId) {
    exists c :: 0 <= c < |s.committed| && s.committed[c].txn == i
  }

  ghost predicate CommitsOk(s: State) {
    && (forall c, d :: 0 <= c < d < |s.committed| ==> s.committed[c].txn != s.committed[d].txn)
    && (forall c :: 0 <= c < |s.committed| ==> Recorded(s, s.committed[c]))
    && (forall i :: 0 <= i < |s.phases| && Committed(s.phases[i]) ==> Listed(s, i))
  }

  lemma CommittedMoves(s: State, step: Step)
    requires |s.txns| == |s.phases| && Enabled(s, step)
    ensures Do(s, step).committed ==
      s.committed + if step.PushCommit? then [Commit(s.current.value, s.phases[s.current.value].out.writes)] else []
  {
  }

  ghost predicate CommitMoves(before: Phase, after: Phase, pushed: bool) {
    && (Committed(before) ==> Committed(after) && after.out == before.out)
    && (Committed(after) <==> Committed(before) || pushed)
  }

  // Only PushCommit makes a transaction committed, and it stays so.
  lemma CommitsMove(s: State, step: Step, i: TxnId)
    requires Inv(s) && Enabled(s, step) && i < |s.txns|
    ensures i < |Do(s, step).phases|
    ensures CommitMoves(s.phases[i], Do(s, step).phases[i], step.PushCommit? && i == s.current.value)
  {
    assert AsSerial(s, i);
    if step.ReleaseKey? {
      ReleaseMoves(s, step.key, i);
    } else {
      OtherCommits(s, step, i);
    }
  }

  lemma OtherCommits(s: State, step: Step, i: TxnId)
    requires |s.txns| == |s.phases| && ListsOk(s) && i < |s.txns| && AsSerial(s, i)
    requires Enabled(s, step) && !step.ReleaseKey?
    ensures i < |Do(s, step).phases|
    ensures CommitMoves(s.phases[i], Do(s, step).phases[i], step.PushCommit? && i == s.current.value)
  {
    match step
    case Admit => assert s.requests[0] == |s.txns| - |s.requests|;
    case Dispatch => assert s.ready[0] in s.ready;
    case Collect => assert s.completed[0] in s.completed;
    case _ =>
  }

  lemma NewlySubmitted(s: State, step: Step, i: TxnId)
    requires |s.txns| == |s.phases| && Enabled(s, step) && |s.txns| <= i < |Do(s, step).phases|
    ensures Do(s, step).phases[i].Requested?
  {
  }

  lemma StepKeepsCommits(s: State, step: Step)
    requires Inv(s) && CommitsOk(s) && Enabled(s, step)
    ensures CommitsOk(Do(s, step))
  {
    var s' := Do(s, step);
    CommittedMoves(s, step);
    forall c | 0 <= c < |s'.committed| ensures Recorded(s', s'.committed[c]) {
      CommitsMove(s, step, s'.committed[c].txn);
    }
    forall i | 0 <= i < |s'.phases| && Committed(s'.phases[i]) ensures Listed(s', i) {
      if i < |s.txns| {
        CommittedListed(s, step, i);
      } else {
        NewlySubmitted(s, step, i);
      }
    }
    if step.PushCommit? {
      assert !Committed(s.phases[s.current.value]);
    }
  }

  lemma CommittedListed(s: State, step: Step, i: TxnId)
    requires Inv(s) && CommitsOk(s) && Enabled(s, step) && i < |s.txns|
    requires i < |Do(s, step).phases| && Committed(Do(s, step).phases[i])
    ensures Listed(Do(s, step), i)
  {
    CommittedMoves(s, step);
    CommitsMove(s, step, i);
    ListedStays(s, Do(s, step), i);
    if step.PushCommit? {
      assert Do(s, step).committed[|s.committed|].txn == s.current.value;
    }
  }

  lemma ListedStays(s: State, s': State, i: TxnId)
    requires s.committed <= s'.committed
    ensures Listed(s, i) ==> Listed(s', i)
  {
    if Listed(s, i) {
      var c :| 0 <= c < |s.committed| && s.committed[c].txn == i;
      assert s'.committed[c].txn == i;
    }
  }

  // The committed list holds exactly the transactions that have committed, once
  // each, with what they wrote.
  lemma {:induction false} CommittedExactly(exclusiveOnly: bool, db: Db, steps: seq<Step>)
    ensures CommitsOk(Run(exclusiveOnly, db, steps))
  {
    if steps == [] {
    } else {
      var last := |steps| - 1;
      CommittedExactly(exclusiveOnly, db, steps[..last]);
      Reachable(exclusiveOnly, db, steps[..last]);
      if Enabled(Run(exclusiveOnly, db, steps[..last]), steps[last]) {
        StepKeepsCommits(Run(exclusiveOnly, db, steps[..last]), steps[last]);
      }
    }
  }
}
