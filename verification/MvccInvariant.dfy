/**
 Every step of multiversion timestamp ordering keeps the invariant.
 */
module MvccInvariant {
  import opened Txns
  import opened Versions
  import opened Mvcc

  lemma AssignsRequested(s: State)
    requires RequestsOk(s) && Enabled(s, Assign)
    ensures s.attempts[s.requests[0]].stage.Requested?
  {
    assert s.requests[0] in s.requests;
  }

  lemma MovedOk(s: State, step: Step, at: Attempt, at': Attempt)
    requires AttemptOk(s, at) && Moved(s, step, at, at')
    requires step.Assign? ==> at.stage.Requested?
    requires step.ReadKey? ==> at'.got.Keys <= at.logic.Keys()
    requires step.LockKey? ==> forall m :: m in at.todo ==> step.key <= m
    requires step.Advance? ==> !at.stage.Requested?
    requires step.Advance? ==> !at.stage.Committed? && !at.stage.Aborted? && !at.stage.Restarted?
    ensures AttemptOk(s, at')
  {
    if step.Advance? && at.stage.Checking? && at.out.commit {
      assert at.logic.run(at.got).writes.Keys <= at.logic.writeset;
    }
    if step.LockKey? {
      forall k, m | k in LockSet(s, at') - at'.todo && m in at'.todo ensures k < m {
        assert m in at.todo && m != step.key;
        assert k == step.key || k in LockSet(s, at) - at.todo;
      }
    }
  }

  lemma AttemptKept(s: State, step: Step, b: nat)
    requires Inv(s) && Enabled(s, step) && b < |Do(s, step).attempts|
    ensures AttemptOk(Do(s, step), Do(s, step).attempts[b])
  {
    var s' := Do(s, step);
    Grows(s, step);
    if b >= |s.attempts| {
      NewOnes(s, step, b);
      NewTxn(s, step, b);
    } else if b == Mover(s, step) {
      if step.Assign? {
        AssignsRequested(s);
      }
      MoverMoves(s, step);
      MovedOk(s, step, s.attempts[b], s'.attempts[b]);
      AttemptFrame(s, s', s'.attempts[b]);
    } else {
      OthersStay(s, step, b);
      AttemptFrame(s, s', s.attempts[b]);
    }
  }

  lemma AttemptFrame(s: State, s': State, at: Attempt)
    requires AttemptOk(s, at) && s'.ssi == s.ssi && |s.current| <= |s'.current|
    ensures AttemptOk(s', at)
  {
  }

  lemma NewTxn(s: State, step: Step, b: nat)
    requires Inv(s) && Enabled(s, step) && |s.attempts| <= b < |Do(s, step).attempts|
    ensures Do(s, step).attempts[b].txn < |Do(s, step).current|
  {
  }

  predicate Restarts(s: State, step: Step) {
    step.Advance? && step.a < |s.attempts| && s.attempts[step.a].stage.Failing?
  }

  // Unless a step submits or restarts, no attempt is added or given up.
  lemma Plain(s: State, step: Step)
    requires Enabled(s, step) && !step.Submit? && !Restarts(s, step)
    ensures var s' := Do(s, step);
      && |s'.attempts| == |s.attempts| && s'.current == s.current
      && s'.requests == if step.Assign? then s.requests[1..] else s.requests
  {
  }

  lemma SameStanding(s: State, step: Step, b: nat)
    requires Enabled(s, step) && !step.Submit? && !Restarts(s, step)
    requires b < |s.attempts| && (step.Assign? ==> s.attempts[Mover(s, step)].stage.Requested?)
    ensures b < |Do(s, step).attempts|
    ensures var at, at' := s.attempts[b], Do(s, step).attempts[b];
      && at'.txn == at.txn && at'.stage.Restarted? == at.stage.Restarted?
      && at'.stage.Requested? == (at.stage.Requested? && !(step.Assign? && s.requests[0] == b))
  {
    if b == Mover(s, step) {
      MoverMoves(s, step);
    } else {
      OthersStay(s, step, b);
    }
  }

  lemma CurrentKept(s: State, step: Step)
    requires CurrentOk(s) && RequestsOk(s) && Enabled(s, step)
    ensures CurrentOk(Do(s, step))
  {
    if step.Assign? {
      AssignsRequested(s);
    }
    if !step.Submit? && !Restarts(s, step) {
      Plain(s, step);
      forall b | 0 <= b < |s.attempts| {
        SameStanding(s, step, b);
      }
    } else if step.Submit? {
      SubmitCurrent(s, step.logic);
    } else {
      RestartCurrent(s, step.a);
    }
  }

  lemma SubmitCurrent(s: State, p: Logic)
    requires CurrentOk(s)
    ensures CurrentOk(AfterSubmit(s, p))
  {
  }

  lemma RestartCurrent(s: State, a: nat)
    requires CurrentOk(s) && Enabled(s, Advance(a)) && s.attempts[a].stage.Failing?
    ensures CurrentOk(AfterAdvance(s, a))
  {
  }

  lemma RequestsKept(s: State, step: Step)
    requires RequestsOk(s) && Enabled(s, step)
    ensures RequestsOk(Do(s, step))
  {
    if step.Assign? {
      AssignsRequested(s);
    }
    if !step.Submit? && !Restarts(s, step) {
      PlainRequests(s, step);
    } else {
      AddedRequest(s, step);
    }
  }

  lemma PopFirst(ids: seq<nat>)
    requires ids != [] && forall p, q :: 0 <= p < q < |ids| ==> ids[p] < ids[q]
    ensures forall p, q :: 0 <= p < q < |ids[1..]| ==> ids[1..][p] < ids[1..][q]
    ensures forall x :: x in ids[1..] <==> x in ids && x != ids[0]
  {
    assert ids == [ids[0]] + ids[1..];
  }

  lemma PlainRequests(s: State, step: Step)
    requires RequestsOk(s) && Enabled(s, step) && !step.Submit? && !Restarts(s, step)
    requires step.Assign? ==> s.attempts[Mover(s, step)].stage.Requested?
    ensures RequestsOk(Do(s, step))
  {
    var s' := Do(s, step);
    Plain(s, step);
    if step.Assign? {
      PopFirst(s.requests);
    }
    forall b: nat ensures b in s'.requests <==> b < |s.attempts| && s'.attempts[b].stage.Requested? {
      if b < |s.attempts| {
        SameStanding(s, step, b);
      }
    }
  }

  lemma AddedRequest(s: State, step: Step)
    requires RequestsOk(s) && Enabled(s, step) && (step.Submit? || Restarts(s, step))
    ensures RequestsOk(Do(s, step))
  {
    var s', n := Do(s, step), |s.attempts|;
    assert n !in s.requests;
    assert s'.requests == s.requests + [n] && |s'.attempts| == n + 1;
    assert forall b :: 0 <= b < n ==> s'.attempts[b].stage.Requested? == s.attempts[b].stage.Requested?;
    forall p | 0 <= p < |s.requests| ensures s.requests[p] < n {
      assert s.requests[p] in s.requests;
    }
  }

  // Only taking and releasing a mutex change what is held.
  lemma HeldMoves(s: State, step: Step, b: nat)
    requires Enabled(s, step) && b < |s.attempts| && AttemptOk(s, s.attempts[b])
    requires step.Assign? ==> s.attempts[Mover(s, step)].stage.Requested?
    ensures b < |Do(s, step).attempts|
    ensures var held, held' := Held(s, s.attempts[b]), Held(Do(s, step), Do(s, step).attempts[b]);
      held' == if step.LockKey? && step.a == b then held + {step.key}
               else if step.UnlockKey? && step.a == b then held - {step.key} else held
  {
    if b == Mover(s, step) {
      MoverMoves(s, step);
    } else {
      OthersStay(s, step, b);
    }
  }

  lemma LocksKept(s: State, step: Step)
    requires LocksOk(s) && RequestsOk(s) && Enabled(s, step)
    requires forall a :: 0 <= a < |s.attempts| ==> AttemptOk(s, s.attempts[a])
    ensures LocksOk(Do(s, step))
  {
    var s' := Do(s, step);
    Grows(s, step);
    LocksMove(s, step);
    forall a, k | 0 <= a < |s'.attempts|
      ensures k in Held(s', s'.attempts[a]) <==> k in s'.locks && s'.locks[k] == a
    {
      if a < |s.attempts| {
        LockKept(s, step, a, k);
      } else {
        NewOnes(s, step, a);
      }
    }
  }

  lemma LockKept(s: State, step: Step, a: nat, k: Key)
    requires LocksOk(s) && RequestsOk(s) && Enabled(s, step) && a < |s.attempts| && AttemptOk(s, s.attempts[a])
    ensures a < |Do(s, step).attempts|
    ensures var s' := Do(s, step);
      k in Held(s', s'.attempts[a]) <==> k in s'.locks && s'.locks[k] == a
  {
    if step.Assign? {
      AssignsRequested(s);
    }
    HeldMoves(s, step, a);
    LocksMove(s, step);
    if step.UnlockKey? {
      assert step.key in Held(s, s.attempts[step.a]);
    }
  }

  lemma LocksMove(s: State, step: Step)
    requires Enabled(s, step)
    ensures var s' := Do(s, step);
      s'.locks == if step.LockKey? then s.locks[step.key := step.a]
                  else if step.UnlockKey? then s.locks - {step.key} else s.locks
    ensures step.LockKey? ==> step.key !in s.locks && step.a < |s.attempts|
  {
  }

  lemma DataMoves(s: State, step: Step, k: Key)
    requires Enabled(s, step)
    ensures var vs, vs' := VersionsAt(s, k), VersionsAt(Do(s, step), k);
      && (step.ReadKey? && step.key == k ==> k !in s.locks && vs' == Mark(vs, step.a + 1))
      && (step.WriteKey? && step.key == k ==>
            step.a < |s.attempts| && s.attempts[step.a].stage.Applying? && k in s.attempts[step.a].todo
            && k in s.attempts[step.a].out.writes
            && vs' == Insert(vs, s.attempts[step.a].out.writes[k], step.a + 1))
      && (!((step.ReadKey? || step.WriteKey?) && step.key == k) ==> vs' == vs)
  {
  }

  lemma LandedMoves(s: State, step: Step, a: nat, k: Key)
    requires Enabled(s, step) && RequestsOk(s) && forall d :: 0 <= d < |s.attempts| ==> AttemptOk(s, s.attempts[d])
    requires a < |Do(s, step).attempts|
    ensures Landed(Do(s, step).attempts[a], k) <==>
      a < |s.attempts| && (Landed(s.attempts[a], k) || step == WriteKey(a, k))
    ensures a < |s.attempts| && Landed(Do(s, step).attempts[a], k) ==>
      k in s.attempts[a].out.writes && Do(s, step).attempts[a].out.writes[k] == s.attempts[a].out.writes[k]
  {
    if step.Assign? {
      AssignsRequested(s);
    }
    if a < |s.attempts| {
      WritesMove(s, step, a, k);
    } else {
      NewOnes(s, step, a);
    }
  }

  // A step makes a version of a write by letting it land, and changes no other.
  lemma VersionMoves(s: State, step: Step, k: Key, id: Ts, value: Value)
    requires Enabled(s, step) && RequestsOk(s) && forall a :: 0 <= a < |s.attempts| ==> AttemptOk(s, s.attempts[a])
    ensures IsVersion(Do(s, step), k, id, value) <==>
      || IsVersion(s, k, id, value)
      || (step.WriteKey? && step.key == k && id == step.a + 1 && value == s.attempts[step.a].out.writes[k])
  {
    Grows(s, step);
    if 0 < id <= |Do(s, step).attempts| {
      LandedMoves(s, step, id - 1, k);
    }
  }

  lemma WriteVersions(s: State, a: nat, k: Key)
    requires VersionsOk(s, k) && Enabled(s, WriteKey(a, k))
    requires Passes(VersionsAt(s, k), a + 1)
    ensures var vs', value := VersionsAt(AfterWriteKey(s, a, k), k), s.attempts[a].out.writes[k];
      && Orderly(vs')
      && forall id, v :: Has(vs', id, v) <==> Has(VersionsAt(s, k), id, v) || (id == a + 1 && v == value)
  {
    var vs, value := VersionsAt(s, k), s.attempts[a].out.writes[k];
    NotYetThere(s, a, k);
    AcceptedWriteKeepsOrderly(vs, value, a + 1);
    forall id, v ensures Has(Insert(vs, value, a + 1), id, v) <==> Has(vs, id, v) || (id == a + 1 && v == value) {
      InsertHas(vs, value, a + 1, id, v);
    }
  }

  lemma ReadVersions(s: State, a: nat, k: Key)
    requires VersionsOk(s, k) && Enabled(s, ReadKey(a, k))
    ensures var vs' := VersionsAt(AfterReadKey(s, a, k), k);
      && Orderly(vs')
      && forall id, v :: Has(vs', id, v) <==> Has(VersionsAt(s, k), id, v)
  {
    var vs := VersionsAt(s, k);
    ReadKeepsOrderly(vs, a + 1);
    forall id, v ensures Has(Mark(vs, a + 1), id, v) <==> Has(vs, id, v) {
      MarkHas(vs, a + 1, id, v);
    }
  }

  lemma VersionsKept(s: State, step: Step, k: Key)
    requires Inv(s) && Enabled(s, step)
    ensures VersionsOk(Do(s, step), k)
  {
    var s' := Do(s, step);
    assert VersionsOk(s, k);
    DataMoves(s, step, k);
    if step.WriteKey? && step.key == k {
      assert ChecksOk(s, step.a);
      WriteVersions(s, step.a, k);
    } else if step.ReadKey? && step.key == k {
      ReadVersions(s, step.a, k);
    }
    forall id, v ensures Has(VersionsAt(s', k), id, v) <==> IsVersion(s', k, id, v) {
      VersionMoves(s, step, k, id, v);
      assert Has(VersionsAt(s, k), id, v) <==> IsVersion(s, k, id, v);
    }
  }

  // Other attempts do not touch the version lists of keys whose mutex b holds.
  lemma HeldListStays(s: State, step: Step, b: nat, k: Key)
    requires LocksOk(s) && Enabled(s, step) && b < |s.attempts| && k in Held(s, s.attempts[b])
    requires forall a :: 0 <= a < |s.attempts| ==> AttemptOk(s, s.attempts[a])
    requires !(step.WriteKey? && step.a == b && step.key == k)
    ensures VersionsAt(Do(s, step), k) == VersionsAt(s, k)
  {
    DataMoves(s, step, k);
    if step.WriteKey? && step.key == k && step.a != b {
      ApplyingHolds(s, step.a, k);
    }
  }

  lemma ChecksKept(s: State, step: Step, b: nat)
    requires Inv(s) && Enabled(s, step) && b < |s.attempts|
    ensures b < |Do(s, step).attempts| && ChecksOk(Do(s, step), b)
  {
    var s', at := Do(s, step), s.attempts[b];
    Grows(s, step);
    assert ChecksOk(s, b) && AttemptOk(s, at);
    forall k | k in Held(s, at) && !(step.WriteKey? && step.a == b && step.key == k)
      ensures VersionsAt(s', k) == VersionsAt(s, k)
    {
      HeldListStays(s, step, b, k);
    }
    if b == Mover(s, step) {
      if step.Assign? {
        AssignsRequested(s);
      }
      MoverMoves(s, step);
    } else {
      OthersStay(s, step, b);
    }
    ChecksMove(s, step, s', b);
  }

  lemma ChecksMove(s: State, step: Step, s': State, b: nat)
    requires b < |s.attempts| && b < |s'.attempts| && s'.ssi == s.ssi
    requires ChecksOk(s, b) && AttemptOk(s, s.attempts[b])
    requires s'.attempts[b] == s.attempts[b] || (b == Mover(s, step) && Moved(s, step, s.attempts[b], s'.attempts[b]))
    requires step.WriteKey? && step.a == b ==>
      s.attempts[b].stage.Applying? && s'.attempts[b] == Done(s.attempts[b], step.key)
    requires forall k ::
      k in Held(s, s.attempts[b]) && !(step.WriteKey? && step.a == b && step.key == k) ==>
      VersionsAt(s', k) == VersionsAt(s, k)
    ensures ChecksOk(s', b)
  {
    var at, at' := s.attempts[b], s'.attempts[b];
    if at'.stage.Applying? {
      forall k | k in at'.todo ensures Passes(VersionsAt(s', k), b + 1) {
        assert at.logic.run(at.got).writes.Keys <= at.logic.writeset;
        assert k in LockSet(s, at);
      }
    } else if at'.stage.Checking? {
      forall k | k in LockSet(s', at') - at'.todo ensures Passes(VersionsAt(s', k), b + 1) {
        assert k in Held(s, at);
        assert k in at.todo || k in LockSet(s, at) - at.todo;
      }
    }
  }

  // What has been read stays marked as read: reads only add marks, and a write
  // that passed its check supersedes nothing that was read later.
  lemma MarkedKept(s: State, step: Step, b: nat, k: Key)
    requires VersionsOk(s, k) && Enabled(s, step) && b < |s.attempts| && Marked(VersionsAt(s, k), b + 1)
    requires step.WriteKey? && step.key == k ==> Passes(VersionsAt(s, k), step.a + 1)
    ensures Marked(VersionsAt(Do(s, step), k), b + 1)
  {
    DataMoves(s, step, k);
    if step.ReadKey? && step.key == k {
      MarkKeeps(VersionsAt(s, k), step.a + 1, b + 1);
    } else if step.WriteKey? && step.key == k {
      AcceptedWriteKeepsReads(VersionsAt(s, k), s.attempts[step.a].out.writes[k], step.a + 1, b + 1);
    }
  }

  // Apart from an attempt that passes all its checks, no attempt changes what it
  // writes to k.
  lemma WritesStay(s: State, step: Step, c: nat, k: Key)
    requires RequestsOk(s) && Enabled(s, step) && c < |s.attempts| && AttemptOk(s, s.attempts[c])
    ensures c < |Do(s, step).attempts|
    ensures !Validates(s, step, c, k) ==> SameWrite(s.attempts[c], Do(s, step).attempts[c], k)
  {
    if step.Assign? {
      AssignsRequested(s);
    }
    WritesMove(s, step, c, k);
  }

  // What has been read stays the value that smaller timestamps amount to: the
  // writes of an attempt that passes all its checks come too late to matter.
  lemma ValKept(s: State, step: Step, b: nat, k: Key)
    requires Inv(s) && Enabled(s, step) && b < |s.attempts| && Marked(VersionsAt(s, k), b + 1)
    ensures b < |Do(s, step).attempts|
    ensures Val(s.db0, Do(s, step).attempts, k, b) == Val(s.db0, s.attempts, k, b)
  {
    Grows(s, step);
    if step.Advance? && step.a < b && Validates(s, step, step.a, k) {
      ValidatedTooLate(s, step.a, b, k);
    } else {
      forall c | 0 <= c < b ensures SameWrite(s.attempts[c], Do(s, step).attempts[c], k) {
        WritesStay(s, step, c, k);
      }
      ValSame(s.db0, s.attempts, Do(s, step).attempts, k, b);
    }
  }

  // The step makes the write of attempt c to k count.
  predicate Validates(s: State, step: Step, c: nat, k: Key)
    requires c < |s.attempts|
  {
    step.Advance? && step.a == c && s.attempts[c].stage.Checking? && k in s.attempts[c].out.writes
  }

  lemma ValidatedTooLate(s: State, a: nat, b: nat, k: Key)
    requires Inv(s) && a < b < |s.attempts| && Marked(VersionsAt(s, k), b + 1)
    requires Enabled(s, Advance(a)) && Validates(s, Advance(a), a, k)
    ensures b <= |AfterAdvance(s, a).attempts|
    ensures Val(s.db0, AfterAdvance(s, a).attempts, k, b) == Val(s.db0, s.attempts, k, b)
  {
    var at, ats' := s.attempts[a], AfterAdvance(s, a).attempts;
    assert AttemptOk(s, at) && VersionsOk(s, k) && ChecksOk(s, a);
    assert at.logic.run(at.got).writes.Keys <= at.logic.writeset;
    assert k in LockSet(s, at) - at.todo;
    var c := ReaderIsAbove(s, a, b, k);
    assert forall d :: c <= d < b ==> SameWrite(s.attempts[d], ats'[d], k);
    ValAbove(s.db0, s.attempts, ats', k, c, b);
  }

  // The value just read is the right one, and bears the reader's mark.
  lemma FreshRead(s: State, a: nat, k: Key)
    requires Inv(s) && Enabled(s, ReadKey(a, k))
    ensures ReadOk(AfterReadKey(s, a, k), a, k)
  {
    var s', vs := AfterReadKey(s, a, k), VersionsAt(s, k);
    assert VersionsOk(s, k);
    ReadIsVal(s, a, k);
    NotYetThere(s, a, k);
    ReadMarks(vs, a + 1);
    ValSame(s.db0, s.attempts, s'.attempts, k, a);
  }

  lemma ReadKept(s: State, step: Step, b: nat, k: Key)
    requires Inv(s) && Enabled(s, step) && b < |s.attempts|
    ensures b < |Do(s, step).attempts| && ReadOk(Do(s, step), b, k)
  {
    assert ReadOk(s, b, k) && VersionsOk(s, k);
    Grows(s, step);
    ReadsMove(s, step, b, k);
    if step == ReadKey(b, k) {
      FreshRead(s, b, k);
    } else if HasRead(s.attempts[b], k) {
      if step.WriteKey? && step.key == k {
        assert ChecksOk(s, step.a);
      }
      MarkedKept(s, step, b, k);
      ValKept(s, step, b, k);
    }
  }

  // Only reading k makes it read, and the value read is kept.
  lemma ReadsMove(s: State, step: Step, b: nat, k: Key)
    requires Enabled(s, step) && b < |s.attempts| && RequestsOk(s)
    ensures b < |Do(s, step).attempts|
    ensures step != ReadKey(b, k) && HasRead(Do(s, step).attempts[b], k) ==>
      HasRead(s.attempts[b], k) && Get(Do(s, step).attempts[b].got, k) == Get(s.attempts[b].got, k)
  {
    if b == Mover(s, step) {
      MoverMoves(s, step);
      if step.Assign? {
        AssignsRequested(s);
      } else if step != ReadKey(b, k) {
        GotMoves(s, step, b, k);
      }
    } else {
      OthersStay(s, step, b);
    }
  }

  lemma GotMoves(s: State, step: Step, b: nat, k: Key)
    requires Enabled(s, step) && b < |s.attempts| && step != ReadKey(b, k) && !step.Assign? && b == Mover(s, step)
    ensures b < |Do(s, step).attempts|
    ensures Get(Do(s, step).attempts[b].got, k) == Get(s.attempts[b].got, k)
  {
  }

  lemma StepKeeps(s: State, step: Step)
    requires Inv(s)
    ensures Inv(Do(s, step))
  {
    var s' := Do(s, step);
    if Enabled(s, step) {
      CurrentKept(s, step);
      RequestsKept(s, step);
      LocksKept(s, step);
      forall k ensures VersionsOk(s', k) {
        VersionsKept(s, step, k);
      }
      forall b | 0 <= b < |s'.attempts| ensures AttemptOk(s', s'.attempts[b]) && ChecksOk(s', b) {
        AttemptKept(s, step, b);
        if b < |s.attempts| {
          ChecksKept(s, step, b);
        } else {
          NewOnes(s, step, b);
        }
      }
      forall b, k | 0 <= b < |s'.attempts| ensures ReadOk(s', b, k) {
        if b < |s.attempts| {
          ReadKept(s, step, b, k);
        } else {
          NewOnes(s, step, b);
        }
      }
    }
  }

  lemma {:induction false} RunKeeps(s: State, steps: seq<Step>)
    requires Inv(s)
    ensures Inv(RunFrom(s, steps))
  {
    if steps == [] {
    } else {
      var before := RunFrom(s, steps[..|steps| - 1]);
      assert Inv(before) by {
        RunKeeps(s, steps[..|steps| - 1]);
      }
      StepKeeps(before, steps[|steps| - 1]);
    }
  }

  lemma InitOk(ssi: bool, keys: set<Key>, db: Db)
    requires keys <= db.Keys
    ensures Inv(Init(ssi, keys, db))
  {
    var s := Init(ssi, keys, db);
    forall k ensures VersionsOk(s, k) {
      if k in db {
        assert VersionsAt(s, k)[0] == Version(db[k], 0, 0);
      }
    }
  }

  // The invariant holds in every state of every schedule.
  lemma Reachable(ssi: bool, keys: set<Key>, db: Db, steps: seq<Step>)
    requires keys <= db.Keys
    ensures Inv(Run(ssi, keys, db, steps))
  {
    InitOk(ssi, keys, db);
    RunKeeps(Init(ssi, keys, db), steps);
  }
}
