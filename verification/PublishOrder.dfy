/**
 Leaving the active set before publishing the commit: a run in which an update
 is lost, for every initial database, and hence the exact condition under which
 parallel validation keeps its promise.
 */
module PublishOrder {
  import opened Txns
  import opened ParallelOcc
  import opened ParallelOccTheorems

  // What an increment of key 0 reads and decides.
  function Seen(db: Db): map<Key, Value> {
    if 0 in db then map[0 := db[0]] else map[]
  }

  function Decided(db: Db): Outcome {
    Outcome(true, map[0 := Incr(ValueOr0(db, 0))])
  }

  // Two increments of key 0. The second reads before the first writes, and enters
  // the active set in the window in which the first has left the set but is not
  // yet in the committed list.
  function LostUpdate(): seq<Step> {
    [Submit(Increment(0)), Submit(Increment(0))]
    + Prepare(0) + Prepare(1) + Finish(0, 0) + Finish(1, 1) + [Publish(0), Publish(1)]
  }

  function Prepare(i: TxnId): seq<Step> {
    [Assign, Begin(i), ReadKey(i, 0), RunLogic(i)]
  }

  function Finish(i: TxnId, e: nat): seq<Step> {
    [Enter(i), Validate(e, 0), WriteKey(e, 0), Erase(e)]
  }

  function Prepared(s: State, i: TxnId): State
    requires i < |s.phases| && s.requests != []
  {
    s.(requests := s.requests[1..], phases := s.phases[i := Ran(|s.committed|, Seen(s.db), Decided(s.db))])
  }

  function AtRead(s: State, i: TxnId, todo: set<Key>, got: map<Key, Value>): State
    requires i < |s.phases| && s.requests != []
  {
    s.(requests := s.requests[1..], phases := s.phases[i := Running(|s.committed|, todo, got)])
  }

  lemma Starts(s: State, i: TxnId)
    requires Sized(s) && i < |s.txns| && s.txns[i] == Increment(0)
    requires s.requests != [] && s.requests[0] == i
    ensures Do(Do(s, Assign), Begin(i)) == AtRead(s, i, {0}, map[])
  {
    var s1 := AfterAssign(s);
    IncrementRuns(0, Seen(s.db));
    assert s1.phases[i := Running(|s.committed|, {0}, map[])] == AtRead(s, i, {0}, map[]).phases;
  }

  lemma ReadsAndRuns(s: State, i: TxnId)
    requires Sized(s) && i < |s.txns| && s.txns[i] == Increment(0)
    requires s.requests != [] && s.requests[0] == i
    ensures Do(AtRead(s, i, {0}, map[]), ReadKey(i, 0)) == AtRead(s, i, {}, Seen(s.db))
    ensures Do(AtRead(s, i, {}, Seen(s.db)), RunLogic(i)) == Prepared(s, i)
  {
    var s2, s3 := AtRead(s, i, {0}, map[]), AtRead(s, i, {}, Seen(s.db));
    IncrementRuns(0, Seen(s.db));
    assert {0} - {0} == {};
    assert s2.phases[i := Running(|s.committed|, {}, Seen(s.db))] == s3.phases;
    assert s3.phases[i := Ran(|s.committed|, Seen(s.db), Decided(s.db))] == Prepared(s, i).phases;
  }

  // An increment whose turn it is gets assigned, reads key 0 and runs.
  lemma Prepares(s: State, i: TxnId)
    requires Sized(s) && i < |s.txns| && s.txns[i] == Increment(0)
    requires s.requests != [] && s.requests[0] == i
    ensures RunFrom(s, Prepare(i)) == Prepared(s, i)
  {
    Starts(s, i);
    ReadsAndRuns(s, i);
    RunVia([s, AfterAssign(s), AtRead(s, i, {0}, map[]), AtRead(s, i, {}, Seen(s.db)), Prepared(s, i)], Prepare(i), 4);
    assert Prepare(i)[..4] == Prepare(i);
  }

  function Finished(s: State, i: TxnId, v: Db): State
    requires i < |s.phases|
  {
    s.(db := s.db[0 := Incr(ValueOr0(v, 0))],
       entries := s.entries + [FinishedEntry(i, v, Leaving)],
       phases := s.phases[i := Entered(|s.entries|)])
  }

  function FinishedEntry(i: TxnId, v: Db, status: Status): Entry {
    Entry(i, 0, Seen(v), Decided(v), {}, 0, status)
  }

  function InSet(s: State, i: TxnId, v: Db): State
    requires i < |s.phases|
  {
    s.(entries := s.entries + [FinishedEntry(i, v, Pending)], active := {i},
       phases := s.phases[i := Entered(|s.entries|)])
  }

  function Passed(s: State, i: TxnId, v: Db): State
    requires i < |s.phases|
  {
    InSet(s, i, v).(entries := s.entries + [FinishedEntry(i, v, Applying({0}))])
  }

  function Written(s: State, i: TxnId, v: Db): State
    requires i < |s.phases|
  {
    InSet(s, i, v).(db := s.db[0 := Incr(ValueOr0(v, 0))],
                    entries := s.entries + [FinishedEntry(i, v, Applying({}))])
  }

  ghost predicate AloneInWindow(s: State, i: TxnId, v: Db) {
    && Sized(s) && !s.publishFirst && i < |s.txns| && s.txns[i] == Increment(0)
    && s.phases[i] == Ran(0, Seen(v), Decided(v)) && s.active == {} && s.committed == []
  }

  // It passes validation: the other writer is neither in the active set nor in
  // the committed list.
  lemma Passes(s: State, i: TxnId, v: Db)
    requires AloneInWindow(s, i, v)
    ensures Do(s, Enter(i)) == InSet(s, i, v)
    ensures Do(InSet(s, i, v), Validate(|s.entries|, 0)) == Passed(s, i, v)
  {
    var e, s1 := |s.entries|, InSet(s, i, v);
    IncrementRuns(0, Seen(v));
    assert Valid(s1, e, 0);
    assert Decided(v).writes.Keys == {0};
    assert SetStatus(s1, e, Applying({0})) == Passed(s, i, v).entries;
  }

  lemma WritesAndLeaves(s: State, i: TxnId, v: Db)
    requires AloneInWindow(s, i, v)
    ensures Do(Passed(s, i, v), WriteKey(|s.entries|, 0)) == Written(s, i, v)
    ensures Do(Written(s, i, v), Erase(|s.entries|)) == Finished(s, i, v)
  {
    var e := |s.entries|;
    assert {0} - {0} == {} && {i} - {i} == {};
    assert SetStatus(Passed(s, i, v), e, Applying({})) == Written(s, i, v).entries;
    assert SetStatus(Written(s, i, v), e, Leaving) == Finished(s, i, v).entries;
  }

  lemma Finishes(s: State, i: TxnId, v: Db)
    requires AloneInWindow(s, i, v)
    ensures RunFrom(s, Finish(i, |s.entries|)) == Finished(s, i, v)
  {
    Passes(s, i, v);
    WritesAndLeaves(s, i, v);
    RunVia([s, InSet(s, i, v), Passed(s, i, v), Written(s, i, v), Finished(s, i, v)], Finish(i, |s.entries|), 4);
    assert Finish(i, |s.entries|)[..4] == Finish(i, |s.entries|);
  }

  function BothSubmitted(db: Db): State {
    State(false, db, db, [Increment(0), Increment(0)], [Requested, Requested], [0, 1], {}, [], [])
  }

  function BothRan(db: Db): State {
    var ran := Ran(0, Seen(db), Decided(db));
    State(false, db, db, [Increment(0), Increment(0)], [ran, ran], [], {}, [], [])
  }

  lemma BothPrepare(db: Db)
    ensures RunFrom(RunFrom(BothSubmitted(db), Prepare(0)), Prepare(1)) == BothRan(db)
  {
    var s1 := BothSubmitted(db);
    Prepares(s1, 0);
    var s2 := Prepared(s1, 0);
    Prepares(s2, 1);
    assert Prepared(s2, 1).phases == BothRan(db).phases;
    assert Prepared(s2, 1).requests == [];
  }

  function BothFinished(db: Db): State {
    State(false, db, db[0 := Incr(ValueOr0(db, 0))], [Increment(0), Increment(0)], [Entered(0), Entered(1)], [], {},
          [FinishedEntry(0, db, Leaving), FinishedEntry(1, db, Leaving)], [])
  }

  lemma BothFinish(db: Db)
    ensures RunFrom(RunFrom(BothRan(db), Finish(0, 0)), Finish(1, 1)) == BothFinished(db)
  {
    var s3 := BothRan(db);
    Finishes(s3, 0, db);
    var s4 := Finished(s3, 0, db);
    Finishes(s4, 1, db);
    assert Finished(s4, 1, db).phases == BothFinished(db).phases;
    assert Finished(s4, 1, db).entries == BothFinished(db).entries;
    assert Finished(s4, 1, db).db == BothFinished(db).db;
  }

  lemma Submits(db: Db)
    ensures RunFrom(Init(false, db), [Submit(Increment(0)), Submit(Increment(0))]) == BothSubmitted(db)
  {
    var s1 := AfterSubmit(Init(false, db), Increment(0));
    assert AfterSubmit(s1, Increment(0)) == BothSubmitted(db);
    var steps := [Submit(Increment(0)), Submit(Increment(0))];
    RunVia([Init(false, db), s1, BothSubmitted(db)], steps, 2);
    assert steps[..2] == steps;
  }

  lemma Publishes(db: Db)
    ensures var s := RunFrom(BothFinished(db), [Publish(0), Publish(1)]);
      && s.phases == [Returned(0), Returned(1)] && s.txns == [Increment(0), Increment(0)] && s.db == BothFinished(db).db
  {
    var s1 := AfterPublish(BothFinished(db), 0);
    var s2 := AfterPublish(s1, 1);
    RunVia([BothFinished(db), s1, s2], [Publish(0), Publish(1)], 2);
    assert [Publish(0), Publish(1)][..2] == [Publish(0), Publish(1)];
  }

  // Both increments return, yet key 0 has grown by one.
  lemma LostUpdateResult(db: Db)
    ensures var s := Run(false, db, LostUpdate());
      && AllReturned(s) && s.txns == [Increment(0), Increment(0)]
      && ValueOr0(s.db, 0) == Incr(ValueOr0(db, 0))
  {
    LostUpdateRuns(db);
    Submits(db);
    BothPrepare(db);
    BothFinish(db);
    Publishes(db);
  }

  lemma LostUpdateRuns(db: Db)
    ensures Run(false, db, LostUpdate()) == RunFrom(RunFrom(RunFrom(RunFrom(RunFrom(RunFrom(Init(false, db),
      [Submit(Increment(0)), Submit(Increment(0))]), Prepare(0)), Prepare(1)), Finish(0, 0)), Finish(1, 1)),
      [Publish(0), Publish(1)])
  {
    var init, a := Init(false, db), [Submit(Increment(0)), Submit(Increment(0))];
    RunConcat(init, a, Prepare(0));
    RunConcat(init, a + Prepare(0), Prepare(1));
    RunConcat(init, a + Prepare(0) + Prepare(1), Finish(0, 0));
    RunConcat(init, a + Prepare(0) + Prepare(1) + Finish(0, 0), Finish(1, 1));
    RunConcat(init, a + Prepare(0) + Prepare(1) + Finish(0, 0) + Finish(1, 1), [Publish(0), Publish(1)]);
  }

  lemma LosesAnUpdate(db: Db)
    ensures AllReturned(Run(false, db, LostUpdate())) && !SomeSerialOrder(Run(false, db, LostUpdate()))
  {
    var s := Run(false, db, LostUpdate());
    LostUpdateResult(db);
    var kind := Rmw({}, {0});
    forall ids: seq<TxnId> | SerialOrder(s, ids) ensures false {
      NoLostUpdatesInAnyOrder(s.txns, [kind, kind], ids, db);
      assert Writers(s.txns, 1, 0) == 1;
      assert Writers(s.txns, 2, 0) == 2;
      assert ValueOr0(s.db, 0) == Wrap(ValueOr0(db, 0) + 2);
      assert ValueOr0(s.db, 0) == Wrap(ValueOr0(db, 0) + 1);
      Neighbours(ValueOr0(db, 0) + 1);
    }
  }

  lemma Neighbours(n: nat)
    ensures Wrap(n) != Wrap(n + 1)
  {
  }

  // That run is not quiet.
  lemma LostUpdateNotQuiet(db: Db)
    ensures !QuietRun(Init(false, db), LostUpdate())
  {
    LosesAnUpdate(db);
    if QuietRun(Init(false, db), LostUpdate()) {
      DrainedSerial(false, db, LostUpdate());
    }
  }

  // The order of the two last steps decides: runs always amount to a serial run
  // exactly when the commit is published before the active set is left.
  lemma SerializableExactlyWhenPublishedFirst(publishFirst: bool, db: Db)
    ensures publishFirst <==> forall steps: seq<Step> ::
      AllReturned(Run(publishFirst, db, steps)) ==> SomeSerialOrder(Run(publishFirst, db, steps))
  {
    if publishFirst {
      forall steps: seq<Step> | AllReturned(Run(true, db, steps)) ensures SomeSerialOrder(Run(true, db, steps)) {
        DrainedSerial(true, db, steps);
      }
    } else {
      LosesAnUpdate(db);
    }
  }
}
