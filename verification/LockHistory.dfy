/**
 What the lock table promises over any sequence of requests, releases and
 cancels, and that both lock managers go through exactly such sequences.
 */
module LockHistory {
  import opened Txns
  import opened LockTable
  import opened LockManager

  // Releasing a lock and cancelling a request are the same call.
  datatype Op =
    | Ask(txn: TxnId, exclusive: bool, key: Key)
    | Drop(txn: TxnId, key: Key)

  // The lock table and the ready queue at one moment.
  datatype Moment = Moment(locks: LockState, ready: seq<TxnId>)

  function AfterOp(ls: LockState, op: Op): LockState {
    match op
    case Ask(t, exclusive, k) => Acquire(ls, t, exclusive, k)
    case Drop(t, k) => Release(ls, t, k)
  }

  // What one operation appends to the ready queue.
  ghost function Appends(ls: LockState, op: Op): seq<TxnId>
    requires UniqueRequests(ls.table)
  {
    match op
    case Ask(_, _, _) => []
    case Drop(t, k) => Woken(ls, t, k)
  }

  // Nobody asks for a key for which it is queued.
  ghost predicate Legal(ls: LockState, op: Op) {
    op.Ask? ==> !Queued(QueueAt(ls.table, op.key), op.txn)
  }

  ghost predicate Next(before: Moment, op: Op, after: Moment) {
    && UniqueRequests(before.locks.table) && Legal(before.locks, op)
    && after == Moment(AfterOp(before.locks, op), before.ready + Appends(before.locks, op))
  }

  ghost predicate NextAt(via: seq<Moment>, ops: seq<Op>, m: nat)
    requires m < |ops| && |via| == |ops| + 1
  {
    Next(via[m], ops[m], via[m + 1])
  }

  // via is the run of ops, moment by moment.
  ghost predicate Run(via: seq<Moment>, ops: seq<Op>) {
    |via| == |ops| + 1 && forall m :: 0 <= m < |ops| ==> NextAt(via, ops, m)
  }

  // Every legal operation leads on.
  lemma OpUnique(ls: LockState, op: Op)
    requires UniqueRequests(ls.table) && Legal(ls, op)
    ensures UniqueRequests(AfterOp(ls, op).table)
  {
    match op
    case Ask(t, exclusive, k) => WaitsAfterAcquire(ls, t, exclusive, k, t);
    case Drop(t, k) => RemoveElements(QueueAt(ls.table, k), t, t);
  }

  lemma RunsOn(via: seq<Moment>, ops: seq<Op>, op: Op) returns (after: Moment)
    requires Run(via, ops) && UniqueRequests(via[|ops|].locks.table) && Legal(via[|ops|].locks, op)
    ensures Run(via + [after], ops + [op]) && UniqueRequests(after.locks.table)
  {
    var last := via[|ops|];
    after := Moment(AfterOp(last.locks, op), last.ready + Appends(last.locks, op));
    OpUnique(last.locks, op);
    forall m | 0 <= m < |ops + [op]| ensures NextAt(via + [after], ops + [op], m) {
      if m < |ops| {
        assert NextAt(via, ops, m);
      }
    }
  }

  function Flag(b: bool): nat {
    if b then 1 else 0
  }

  // x has released nothing since it last asked, and still waits for something.
  ghost predicate Waiting(ls: LockState, x: TxnId) {
    x !in ls.released && Waits(ls.table, x) > 0
  }

  // An operation of another transaction appends x exactly when it ends x's wait.
  lemma OthersOp(before: Moment, op: Op, after: Moment, x: TxnId)
    requires Next(before, op, after) && op.txn != x
    ensures multiset(after.ready)[x]
         == multiset(before.ready)[x] + Flag(Waiting(before.locks, x) && !Waiting(after.locks, x))
    ensures Waiting(after.locks, x) ==> Waiting(before.locks, x)
  {
    match op
    case Ask(t, exclusive, k) => WaitsAfterAcquire(before.locks, t, exclusive, k, x);
    case Drop(t, k) => WokenWhenLastWaitEnds(before.locks, t, k, x);
  }

  // Over any sequence of requests, releases and cancels by others, a transaction
  // joins the ready queue exactly once if it was waiting and has nothing left to
  // wait for, and otherwise not at all.
  lemma {:induction false} JoinsOnce(via: seq<Moment>, ops: seq<Op>, n: nat, x: TxnId)
    requires Run(via, ops) && n <= |ops| && forall m :: 0 <= m < n ==> ops[m].txn != x
    ensures multiset(via[n].ready)[x]
         == multiset(via[0].ready)[x] + Flag(Waiting(via[0].locks, x) && !Waiting(via[n].locks, x))
    ensures Waiting(via[n].locks, x) ==> Waiting(via[0].locks, x)
  {
    if n == 0 {
    } else {
      JoinsOnce(via, ops, n - 1, x);
      assert NextAt(via, ops, n - 1);
      OthersOp(via[n - 1], ops[n - 1], via[n], x);
    }
  }

  lemma HolderKept(before: Moment, op: Op, after: Moment, x: TxnId, k: Key)
    requires Next(before, op, after) && Holds(QueueAt(before.locks.table, k), x) && op != Drop(x, k)
    ensures Holds(QueueAt(after.locks.table, k), x)
  {
    var q := QueueAt(before.locks.table, k);
    if op.key == k {
      match op
      case Ask(t, exclusive, _) =>
        AppendGrants(q, Request(t, exclusive));
        var p :| 0 <= p < GrantedLen(q) && q[p].txn == x;
        assert (q + [Request(t, exclusive)])[p].txn == x;
      case Drop(t, _) => GrantsPersist(q, t);
    }
  }

  // A grant persists until its holder drops it, through everything that others
  // do and everything that the holder does with other keys.
  lemma {:induction false} HoldersStay(via: seq<Moment>, ops: seq<Op>, n: nat, x: TxnId, k: Key)
    requires Run(via, ops) && n <= |ops|
    requires Holds(QueueAt(via[0].locks.table, k), x) && forall m :: 0 <= m < n ==> ops[m] != Drop(x, k)
    ensures Holds(QueueAt(via[n].locks.table, k), x)
  {
    if n == 0 {
    } else {
      HoldersStay(via, ops, n - 1, x, k);
      assert NextAt(via, ops, n - 1);
      HolderKept(via[n - 1], ops[n - 1], via[n], x, k);
    }
  }

  lemma {:induction false} RunUnique(via: seq<Moment>, ops: seq<Op>, n: nat)
    requires Run(via, ops) && n <= |ops| && UniqueRequests(via[0].locks.table)
    ensures UniqueRequests(via[n].locks.table)
  {
    if n == 0 {
    } else {
      assert NextAt(via, ops, n - 1);
      OpUnique(via[n - 1].locks, ops[n - 1]);
    }
  }

  // At every moment of every run from an empty table, the owners of a key are one
  // exclusive holder or shared holders only, and a queued request is granted
  // exactly when it conflicts with no request queued before it.
  lemma OwnersInRuns(via: seq<Moment>, ops: seq<Op>, n: nat, k: Key, p: nat)
    requires Run(via, ops) && n <= |ops| && via[0].locks == LockState(map[], {})
    requires p < |QueueAt(via[n].locks.table, k)|
    ensures var q := QueueAt(via[n].locks.table, k);
      && Unique(q)
      && (Holds(q, q[p].txn) <==> forall r :: 0 <= r < p ==> !q[r].exclusive && !q[p].exclusive)
      && (q[0].exclusive ==> forall x :: Holds(q, x) <==> x == q[0].txn)
  {
    var q := QueueAt(via[n].locks.table, k);
    RunUnique(via, ops, n);
    GrantedIff(q, p);
    OwnersExclusiveOrShared(q);
  }

  // What a manager of exclusive locks only makes of the calls.
  function AsAsked(exclusiveOnly: bool, op: Op): Op {
    if op.Ask? then op.(exclusive := op.exclusive || exclusiveOnly) else op
  }

  function AllAsAsked(exclusiveOnly: bool, ops: seq<Op>): (r: seq<Op>)
    ensures |r| == |ops| && forall m :: 0 <= m < |ops| ==> r[m] == AsAsked(exclusiveOnly, ops[m])
  {
    seq(|ops|, m requires 0 <= m < |ops| => AsAsked(exclusiveOnly, ops[m]))
  }

  // Either manager carries out any sequence of legal calls to the letter.
  method Play(lm: ModalLockManager, ops: seq<Op>, ghost via: seq<Moment>)
    requires lm.Valid() && Run(via, AllAsAsked(lm.exclusiveOnly, ops))
    requires via[0] == Moment(lm.State(), lm.readyTxns.items)
    modifies lm.a, lm.b, lm.readyTxns
    ensures lm.Valid() && via[|ops|] == Moment(lm.State(), lm.readyTxns.items)
  {
    var m := 0;
    while m < |ops|
      invariant m <= |ops| && lm.Valid() && via[m] == Moment(lm.State(), lm.readyTxns.items)
    {
      assert NextAt(via, AllAsAsked(lm.exclusiveOnly, ops), m);
      PlayOne(lm, ops[m]);
      m := m + 1;
    }
  }

  method PlayOne(lm: ModalLockManager, op: Op)
    requires lm.Valid() && Legal(lm.State(), op)
    modifies lm.a, lm.b, lm.readyTxns
    ensures lm.Valid()
    ensures Next(old(Moment(lm.State(), lm.readyTxns.items)), AsAsked(lm.exclusiveOnly, op),
                 Moment(lm.State(), lm.readyTxns.items))
  {
    lm.TableUnique();
    match op
    case Ask(t, exclusive, k) =>
      if exclusive {
        var _ := lm.WriteLock(t, k);
      } else {
        var _ := lm.ReadLock(t, k);
      }
    case Drop(t, k) => lm.Release(t, k);
  }
}
