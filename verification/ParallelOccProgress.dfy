/**
 Optimistic concurrency control with parallel validation never gets stuck: from
 every reachable state it can finish all transactions, with the serial result.
 The continuation lets workers finish what they have in hand and then takes the
 requested transactions one at a time, so that each passes validation.
 */
module ParallelOccProgress {
  import opened Txns
  import opened ParallelOcc
  import opened ParallelOccTheorems

  // A worker has the transaction in hand.
  predicate InFlight(ph: Phase) {
    !ph.Requested? && !ph.Returned?
  }

  // Steps by which a worker brings transaction i on. It validates against all of
  // the committed list.
  ghost predicate StepOf(s: State, step: Step, i: TxnId)
    requires Sized(s)
  {
    && Enabled(s, step) && !step.Submit? && !step.Assign? && Mover(s, step) == i
    && (step.Validate? ==> step.upTo == |s.committed|)
  }

  // Workers never wait for each other: each can take its next step.
  lemma NextStep(s: State, i: TxnId) returns (step: Step)
    requires Inv(s) && i < |s.txns| && InFlight(s.phases[i])
    ensures StepOf(s, step, i)
  {
    assert ReadsOk(s, i) && PhaseOk(s, i);
    match s.phases[i]
    case Assigned => step := Begin(i);
    case Running(_, todo, _) =>
      if todo == {} {
        step := RunLogic(i);
      } else {
        var k :| k in todo;
        step := ReadKey(i, k);
      }
    case Ran(_, _, _) => step := Enter(i);
    case Entered(e) => step := EntryStep(s, e);
  }

  lemma EntryStep(s: State, e: nat) returns (step: Step)
    requires Sized(s) && e < |s.entries| && EntryOk(s, e) && Live(s.entries[e].status)
    ensures StepOf(s, step, s.entries[e].txn)
  {
    match s.entries[e].status
    case Pending => step := Validate(e, |s.committed|);
    case Applying(todo) =>
      if todo == {} {
        step := if s.publishFirst then Publish(e) else Erase(e);
      } else {
        var k :| k in todo;
        step := WriteKey(e, k);
      }
    case Leaving => step := if s.publishFirst then Erase(e) else Publish(e);
  }

  // While some transaction has not returned, some step other than a new
  // submission is possible.
  lemma Progress(s: State) returns (step: Step)
    requires Inv(s) && !AllReturned(s)
    ensures Enabled(s, step) && !step.Submit?
  {
    var i :| 0 <= i < |s.phases| && !s.phases[i].Returned?;
    if s.phases[i].Requested? {
      assert i in s.requests && s.requests[0] in s.requests;
      step := Assign;
    } else {
      step := NextStep(s, i);
    }
  }

  /******* One attempt *******/

  // How many steps the attempt of transaction i can still take.
  function StepsLeft(s: State, i: TxnId): nat
    requires Sized(s) && i < |s.txns|
  {
    var keys := |s.txns[i].Keys()|;
    match s.phases[i]
    case Assigned => 2 * keys + 6
    case Running(_, todo, _) => keys + 5 + |todo|
    case Ran(_, _, _) => keys + 4
    case Entered(e) => if e < |s.entries| then EntryLeft(s.entries[e].status, keys) else 0
    case _ => 0
  }

  function EntryLeft(status: Status, keys: nat): nat {
    match status
    case Pending => keys + 3
    case Applying(todo) => 2 + |todo|
    case Leaving => 1
    case _ => 0
  }

  lemma AttemptFalls(s: State, step: Step, i: TxnId)
    requires Inv(s) && StepOf(s, step, i) && i < |s.txns|
    ensures Do(s, step).txns == s.txns && StepsLeft(Do(s, step), i) < StepsLeft(s, i)
    ensures forall j :: 0 <= j < |s.txns| && j != i ==> Do(s, step).phases[j] == s.phases[j]
  {
    TxnsStay(s, step);
    forall j | 0 <= j < |s.txns| && j != i ensures Do(s, step).phases[j] == s.phases[j] {
      OthersStay(s, step, j);
    }
    if ByEntry(step) {
      assert EntryOk(s, step.entry);
      EntryFalls(s, step);
    } else if step.ReadKey? {
      assert AfterReadKey(s, i, step.key).phases[i].todo < s.phases[i].todo;
    }
  }

  lemma TxnsStay(s: State, step: Step)
    requires Sized(s) && Enabled(s, step) && !step.Submit?
    ensures Do(s, step).txns == s.txns
  {
  }

  lemma EntryFalls(s: State, step: Step)
    requires Sized(s) && Enabled(s, step) && ByEntry(step) && EntryOk(s, step.entry)
    ensures Mover(s, step) < |Do(s, step).txns|
    ensures StepsLeft(Do(s, step), Mover(s, step)) < StepsLeft(s, Mover(s, step))
  {
    var e := step.entry;
    TxnsStay(s, step);
    MoverLive(s, step);
    OwnPhase(s, step);
    StatusFalls(s, step);
  }

  lemma StatusFalls(s: State, step: Step)
    requires Sized(s) && Enabled(s, step) && ByEntry(step) && EntryOk(s, step.entry)
    ensures step.entry < |Do(s, step).entries|
    ensures var keys := |s.txns[Mover(s, step)].Keys()|;
      EntryLeft(Do(s, step).entries[step.entry].status, keys) < EntryLeft(s.entries[step.entry].status, keys)
  {
    var entry := s.entries[step.entry];
    if step.Validate? {
      assert s.txns[entry.txn].run(entry.got).writes.Keys <= s.txns[entry.txn].writeset;
      SubsetSize(entry.out.writes.Keys, s.txns[entry.txn].Keys());
    } else if step.WriteKey? {
      assert entry.status.todo - {step.key} < entry.status.todo;
    }
  }

  // An attempt that began when no one was in the active set, and since which no
  // one else has entered it.
  predicate Undisturbed(s: State, i: TxnId)
    requires Sized(s) && i < |s.txns|
  {
    && s.active <= {i}
    && match s.phases[i]
       case Assigned => true
       case Running(start, _, _) => start == |s.committed|
       case Ran(start, _, _) => start == |s.committed|
       case Entered(e) =>
         e < |s.entries| && (s.entries[e].status.Pending? ==> s.entries[e].saved == {} && s.entries[e].start == |s.committed|)
       case _ => false
  }

  // Such an attempt passes validation.
  lemma StaysUndisturbed(s: State, step: Step, i: TxnId)
    requires Inv(s) && StepOf(s, step, i) && i < |s.txns| && Undisturbed(s, i)
    ensures i < |Do(s, step).txns| && Do(s, step).requests == s.requests
    ensures Do(s, step).phases[i].Returned? || Undisturbed(Do(s, step), i)
  {
    assert PhaseOk(s, i);
    if ByEntry(step) {
      assert EntryOk(s, step.entry);
      MoverLive(s, step);
      EntryUndisturbed(s, step, i);
    }
  }

  lemma EntryUndisturbed(s: State, step: Step, i: TxnId)
    requires Sized(s) && StepOf(s, step, i) && ByEntry(step) && i < |s.txns| && Undisturbed(s, i)
    requires EntryOk(s, step.entry) && s.phases[i] == Entered(step.entry)
    ensures i < |Do(s, step).txns| && Do(s, step).requests == s.requests
    ensures Do(s, step).phases[i].Returned? || Undisturbed(Do(s, step), i)
  {
    if step.Validate? {
      assert Valid(s, step.entry, step.upTo);
    }
  }

  // What a run of one transaction's worker leaves: nothing in that worker's
  // hands, and everyone else where they were.
  ghost predicate PutDown(s: State, s': State, i: TxnId)
    requires Sized(s) && i < |s.txns|
  {
    && Inv(s') && s'.txns == s.txns && s'.publishFirst
    && !InFlight(s'.phases[i])
    && (forall j :: 0 <= j < |s.txns| && j != i ==> s'.phases[j] == s.phases[j])
    && (Undisturbed(s, i) ==> s'.phases[i].Returned? && s'.requests == s.requests)
  }

  predicate NoSubmit(steps: seq<Step>) {
    forall m :: 0 <= m < |steps| ==> !steps[m].Submit?
  }

  // A worker can always bring its transaction to an end or back to the requests.
  lemma {:induction false} FinishOne(s: State, i: TxnId) returns (more: seq<Step>)
    requires Inv(s) && s.publishFirst && i < |s.txns| && InFlight(s.phases[i])
    ensures NoSubmit(more) && PutDown(s, RunFrom(s, more), i)
    decreases StepsLeft(s, i)
  {
    var step := NextStep(s, i);
    var s' := Do(s, step);
    StepKeeps(s, step);
    AttemptFalls(s, step, i);
    if Undisturbed(s, i) {
      StaysUndisturbed(s, step, i);
    }
    OneStep(s, step);
    if InFlight(s'.phases[i]) {
      var rest := FinishOne(s', i);
      RunConcat(s, [step], rest);
      more := [step] + rest;
    } else {
      more := [step];
    }
  }

  /******* All of them *******/

  predicate QuietBelow(s: State, n: nat) {
    n <= |s.phases| && forall j :: 0 <= j < n ==> !InFlight(s.phases[j])
  }

  // The workers finish what they have in hand.
  lemma {:induction false} Settle(s: State, n: nat) returns (more: seq<Step>)
    requires Inv(s) && s.publishFirst && QuietBelow(s, n)
    ensures var s' := RunFrom(s, more);
      NoSubmit(more) && Inv(s') && s'.txns == s.txns && QuietBelow(s', |s.txns|)
    decreases |s.txns| - n
  {
    more := [];
    if n < |s.txns| {
      if InFlight(s.phases[n]) {
        more := FinishOne(s, n);
      }
      var mid := RunFrom(s, more);
      var rest := Settle(mid, n + 1);
      RunConcat(s, more, rest);
      more := more + rest;
    }
  }

  // With nothing in the workers' hands, the next transaction to be assigned
  // finds no one in the active set.
  lemma AssignUndisturbed(s: State)
    requires Inv(s) && QuietBelow(s, |s.txns|) && s.requests != []
    ensures Enabled(s, Assign)
    ensures var s', i := AfterAssign(s), s.requests[0];
      Undisturbed(s', i) && InFlight(s'.phases[i]) && forall j :: 0 <= j < |s.txns| && j != i ==> !InFlight(s'.phases[j])
  {
    assert s.requests[0] in s.requests;
    forall i: TxnId ensures i !in s.active {
      if i < |s.txns| {
        assert PhaseOk(s, i);
      }
    }
  }

  // Then they take the requested transactions one at a time.
  lemma {:induction false} ServeRequests(s: State) returns (more: seq<Step>)
    requires Inv(s) && s.publishFirst && QuietBelow(s, |s.txns|)
    ensures var s' := RunFrom(s, more);
      NoSubmit(more) && s'.txns == s.txns && AllReturned(s')
    decreases |s.requests|
  {
    more := [];
    if s.requests != [] {
      AssignUndisturbed(s);
      StepKeeps(s, Assign);
      OneStep(s, Assign);
      var s1 := AfterAssign(s);
      var one := FinishOne(s1, s.requests[0]);
      var rest := ServeRequests(RunFrom(s1, one));
      RunConcat(s1, one, rest);
      RunConcat(s, [Assign], one + rest);
      more := [Assign] + (one + rest);
    }
  }

  // From every reachable state some continuation returns all transactions, and
  // then entry order is a serial order of all of them that explains storage.
  lemma Drains(db: Db, steps: seq<Step>) returns (more: seq<Step>)
    ensures NoSubmit(more)
    ensures var s, s' := Run(true, db, steps), Run(true, db, steps + more);
      s'.txns == s.txns && AllReturned(s') && SerialOrder(s', Order(s'.entries, |s'.entries|))
  {
    Safe(true, db, steps);
    var settle := Settle(Run(true, db, steps), 0);
    var serve := ServeRequests(RunFrom(Run(true, db, steps), settle));
    more := settle + serve;
    RunConcat(Run(true, db, steps), settle, serve);
    RunConcat(Init(true, db), steps, more);
    DrainedSerial(true, db, steps + more);
  }
}
