/**
 The lock table of the lock managers, as a value: a queue of requests for each
 key, and what the declaration of the lock table says about who holds a lock.
 */
module LockTable {
  import opened Txns

  type TxnId = nat

  // A lock request is either exclusive or shared.
  datatype Request = Request(txn: TxnId, exclusive: bool)

  type Queue = seq<Request>
  type Table = map<Key, Queue>

  function QueueAt(table: Table, k: Key): Queue {
    if k in table then table[k] else []
  }

  // The first exclusive request at or after i, or the length of the queue.
  function FirstExclusive(q: Queue, i: nat): (n: nat)
    requires i <= |q|
    ensures i <= n <= |q|
    ensures forall r :: i <= r < n ==> !q[r].exclusive
    ensures n < |q| ==> q[n].exclusive
    decreases |q| - i
  {
    if i == |q| || q[i].exclusive then i else FirstExclusive(q, i + 1)
  }

  // The granted prefix: an exclusive request at the front owns the lock alone;
  // otherwise all leading shared requests own it together.
  function GrantedLen(q: Queue): (n: nat)
    ensures n <= |q|
    ensures q != [] ==> n > 0
  {
    if q != [] && q[0].exclusive then 1 else FirstExclusive(q, 0)
  }

  // Index of the first request by t at or after i, or the length of the queue.
  function FindFrom(q: Queue, t: TxnId, i: nat): (p: nat)
    requires i <= |q|
    ensures i <= p <= |q|
    ensures p < |q| ==> q[p].txn == t
    ensures forall r :: i <= r < p ==> q[r].txn != t
    decreases |q| - i
  {
    if i == |q| || q[i].txn == t then i else FindFrom(q, t, i + 1)
  }

  function Position(q: Queue, t: TxnId): (p: nat)
    ensures p <= |q|
    ensures p < |q| ==> q[p].txn == t
    ensures forall r :: 0 <= r < p ==> q[r].txn != t
  {
    FindFrom(q, t, 0)
  }

  predicate Queued(q: Queue, t: TxnId) {
    exists p :: 0 <= p < |q| && q[p].txn == t
  }

  predicate Holds(q: Queue, t: TxnId) {
    exists p :: 0 <= p < GrantedLen(q) && q[p].txn == t
  }

  predicate Blocked(q: Queue, t: TxnId) {
    exists p :: GrantedLen(q) <= p < |q| && q[p].txn == t
  }

  ghost predicate Unique(q: Queue) {
    forall i, j :: 0 <= i < j < |q| ==> q[i].txn != q[j].txn
  }

  function Remove(q: Queue, t: TxnId): Queue {
    var p := Position(q, t);
    if p < |q| then q[..p] + q[p + 1..] else q
  }

  // A request is granted exactly when it comes first or it and everything
  // before it are shared: no request overtakes an earlier conflicting one.
  lemma GrantedIff(q: Queue, p: nat)
    requires p < |q|
    ensures p < GrantedLen(q) <==> CompatibleAhead(q, p)
  {
    if p > 0 && CompatibleAhead(q, p) {
      assert !q[0].exclusive;
    }
    if p > 0 && p < GrantedLen(q) {
      assert !q[0].exclusive;
    }
  }

  // Request p conflicts with none of those before it.
  ghost predicate CompatibleAhead(q: Queue, p: nat)
    requires p < |q|
  {
    forall r :: 0 <= r < p ==> !q[r].exclusive && !q[p].exclusive
  }

  // The owners of a lock are one exclusive holder or any number of shared holders.
  lemma OwnersExclusiveOrShared(q: Queue)
    ensures |q| > 0 && q[0].exclusive ==> GrantedLen(q) == 1
    ensures |q| > 0 && !q[0].exclusive ==> forall p :: 0 <= p < GrantedLen(q) ==> !q[p].exclusive
    ensures GrantedLen(q) == 0 <==> q == []
  {
  }

  lemma RemoveElements(q: Queue, t: TxnId, x: TxnId)
    requires Unique(q)
    ensures Unique(Remove(q, t))
    ensures Queued(Remove(q, t), x) <==> Queued(q, x) && x != t
  {
    var p, q' := Position(q, t), Remove(q, t);
    if Queued(q, x) && x != t {
      var i :| 0 <= i < |q| && q[i].txn == x;
      assert q'[if i < p then i else i - 1].txn == x;
    }
  }

  lemma AppendElements(q: Queue, r: Request, x: TxnId)
    ensures Queued(q + [r], x) <==> Queued(q, x) || x == r.txn
  {
    if Queued(q, x) {
      var p :| 0 <= p < |q| && q[p].txn == x;
      assert (q + [r])[p].txn == x;
    }
    assert (q + [r])[|q|] == r;
  }

  // Requests are queued in the order of arrival.
  ghost predicate Ascending(q: Queue) {
    forall i, j :: 0 <= i < j < |q| ==> q[i].txn < q[j].txn
  }

  function Skip(p: nat, hole: nat): nat {
    if p < hole then p else p + 1
  }

  lemma RemoveAt(q: Queue, t: TxnId, p: nat)
    requires p < |Remove(q, t)|
    ensures Skip(p, Position(q, t)) < |q| && Remove(q, t)[p] == q[Skip(p, Position(q, t))]
  {
    var hole := Position(q, t);
    if hole < |q| {
      assert Remove(q, t) == q[..hole] + q[hole + 1..];
    }
  }

  lemma RemoveAscending(q: Queue, t: TxnId)
    requires Ascending(q)
    ensures Ascending(Remove(q, t))
  {
    var q' := Remove(q, t);
    forall i, j | 0 <= i < j < |q'| ensures q'[i].txn < q'[j].txn {
      RemoveAt(q, t, i);
      RemoveAt(q, t, j);
    }
  }

  // The part of the granted prefix that survives when t leaves the queue.
  function KeptLen(q: Queue, t: TxnId): (h: nat) {
    if Position(q, t) < GrantedLen(q) then GrantedLen(q) - 1 else GrantedLen(q)
  }

  // When a request leaves, the remaining holders keep their locks: they still
  // form the front of the queue, inside the new granted prefix.
  lemma GrantsPersist(q: Queue, t: TxnId)
    requires Unique(q)
    ensures KeptLen(q, t) <= GrantedLen(Remove(q, t))
    ensures forall i :: 0 <= i < KeptLen(q, t) ==> Holds(q, Remove(q, t)[i].txn)
    ensures forall x :: x != t && Holds(q, x) ==> Holds(Remove(q, t), x)
  {
    var p, q', h := Position(q, t), Remove(q, t), KeptLen(q, t);
    if h > 0 {
      assert forall r :: 0 <= r < h ==> q'[r] == q[if r < p then r else r + 1];
      if p < |q| {
        if h > 1 || p < GrantedLen(q) {
          assert forall r :: 0 <= r < h ==> !q'[r].exclusive by {
            GrantedIff(q, GrantedLen(q) - 1);
          }
        }
        if h > 1 {
          GrantedIff(q', h - 1);
        }
      }
    }
    forall x | x != t && Holds(q, x) ensures Holds(q', x) {
      var i :| 0 <= i < GrantedLen(q) && q[i].txn == x;
      var i' := if i < p then i else i - 1;
      assert q'[i'].txn == x && i' < h;
    }
  }

  function Ids(q: Queue): (ids: seq<TxnId>)
    ensures |ids| == |q| && forall i :: 0 <= i < |q| ==> ids[i] == q[i].txn
  {
    seq(|q|, i requires 0 <= i < |q| => q[i].txn)
  }

  // The transactions that get the lock when t leaves, in queue order.
  function NewGrants(q: Queue, t: TxnId): seq<TxnId>
    requires KeptLen(q, t) <= GrantedLen(Remove(q, t))
  {
    Ids(Remove(q, t)[KeptLen(q, t)..GrantedLen(Remove(q, t))])
  }

  // NewGrants is the new granted prefix minus the old one: it leaves nobody
  // out, and names nobody who held the lock before.
  lemma NewGrantsExact(q: Queue, t: TxnId, x: TxnId)
    requires Unique(q)
    requires KeptLen(q, t) <= GrantedLen(Remove(q, t))
    ensures x in NewGrants(q, t) <==> Holds(Remove(q, t), x) && !Holds(q, x)
    ensures x in NewGrants(q, t) ==> Blocked(q, x) && x != t
  {
    if x in NewGrants(q, t) {
      NewGrantsWereBlocked(q, t, x);
    } else if Holds(Remove(q, t), x) && !Holds(q, x) {
      NewGrantsComplete(q, t, x);
    }
  }

  lemma InMiddle(q: Queue, h: nat, g: nat, i: nat)
    requires h <= i < g <= |q|
    ensures q[i].txn in Ids(q[h..g])
  {
    assert Ids(q[h..g])[i - h] == q[i].txn;
  }

  lemma NewGrantsComplete(q: Queue, t: TxnId, x: TxnId)
    requires KeptLen(q, t) <= GrantedLen(Remove(q, t))
    requires Holds(Remove(q, t), x) && !Holds(q, x)
    ensures x in NewGrants(q, t)
  {
    var i :| 0 <= i < GrantedLen(Remove(q, t)) && Remove(q, t)[i].txn == x;
    if i < KeptLen(q, t) {
      KeptHeld(q, t, i);
    } else {
      InMiddle(Remove(q, t), KeptLen(q, t), GrantedLen(Remove(q, t)), i);
    }
  }

  lemma KeptHeld(q: Queue, t: TxnId, i: nat)
    requires i < KeptLen(q, t) && i < |Remove(q, t)|
    ensures Holds(q, Remove(q, t)[i].txn)
  {
    RemoveAt(q, t, i);
    assert q[Skip(i, Position(q, t))].txn == Remove(q, t)[i].txn;
  }

  lemma NewGrantsWereBlocked(q: Queue, t: TxnId, x: TxnId)
    requires Unique(q)
    requires KeptLen(q, t) <= GrantedLen(Remove(q, t))
    requires x in NewGrants(q, t)
    ensures Holds(Remove(q, t), x) && !Holds(q, x) && Blocked(q, x) && x != t
  {
    var p, q', h, ids := Position(q, t), Remove(q, t), KeptLen(q, t), NewGrants(q, t);
    var i :| 0 <= i < |ids| && ids[i] == x;
    assert q'[h + i].txn == x;
    var at := if h + i < p then h + i else h + i + 1;
    assert p < |q| && GrantedLen(q) <= at < |q| && q[at].txn == x;
  }

  // x stands before y in the queue.
  ghost predicate StandsBefore(q: Queue, x: TxnId, y: TxnId) {
    exists i, j :: 0 <= i < j < |q| && q[i].txn == x && q[j].txn == y
  }

  ghost predicate InQueueOrder(q: Queue, ids: seq<TxnId>) {
    forall a, b :: 0 <= a < b < |ids| ==> StandsBefore(q, ids[a], ids[b])
  }

  // Whoever leaves and for whatever reason, the new grants come in the order in
  // which their requests stood in the queue.
  lemma NewGrantsInOrder(q: Queue, t: TxnId)
    requires KeptLen(q, t) <= GrantedLen(Remove(q, t))
    ensures InQueueOrder(q, NewGrants(q, t))
  {
    var q', ids, h := Remove(q, t), NewGrants(q, t), KeptLen(q, t);
    forall a, b | 0 <= a < b < |ids| ensures StandsBefore(q, ids[a], ids[b]) {
      assert ids[a] == q'[h + a].txn && ids[b] == q'[h + b].txn;
      RemoveKeepsOrder(q, t, h + a, h + b);
    }
  }

  lemma RemoveKeepsOrder(q: Queue, t: TxnId, i: nat, j: nat)
    requires i < j < |Remove(q, t)|
    ensures StandsBefore(q, Remove(q, t)[i].txn, Remove(q, t)[j].txn)
  {
    RemoveAt(q, t, i);
    RemoveAt(q, t, j);
    assert Skip(i, Position(q, t)) < Skip(j, Position(q, t));
  }

  // An exclusive request that is cancelled between two groups of shared ones
  // lets the second group join the first, in order.
  lemma CancelMergesGroups(a: Queue, t: TxnId, b: Queue, rest: Queue)
    requires a != [] && Unique(a + [Request(t, true)] + b + rest)
    requires forall i :: 0 <= i < |a| ==> !a[i].exclusive
    requires forall i :: 0 <= i < |b| ==> !b[i].exclusive
    requires rest == [] || rest[0].exclusive
    ensures var q := a + [Request(t, true)] + b + rest;
      && GrantedLen(q) == |a| && KeptLen(q, t) <= GrantedLen(Remove(q, t))
      && NewGrants(q, t) == Ids(b)
  {
    var q := a + [Request(t, true)] + b + rest;
    assert a + [Request(t, true)] + (b + rest) == q;
    assert a + (b + rest) == a + b + rest;
    FirstGroupHolds(a, t, b + rest);
    FirstGroupStays(a, t, b + rest);
    MergedPrefix(a, b, rest);
    assert (a + b + rest)[|a|..|a| + |b|] == b;
  }

  lemma FirstGroupHolds(a: Queue, t: TxnId, more: Queue)
    requires a != [] && forall i :: 0 <= i < |a| ==> !a[i].exclusive
    ensures GrantedLen(a + [Request(t, true)] + more) == |a|
  {
    var q, n := a + [Request(t, true)] + more, |a|;
    assert q[0] == a[0] && q[n] == Request(t, true);
    assert forall i :: 0 <= i < n ==> q[i] == a[i];
  }

  lemma FirstGroupStays(a: Queue, t: TxnId, more: Queue)
    requires Unique(a + [Request(t, true)] + more)
    ensures Position(a + [Request(t, true)] + more, t) == |a|
    ensures Remove(a + [Request(t, true)] + more, t) == a + more
  {
    var q, n := a + [Request(t, true)] + more, |a|;
    assert q[n] == Request(t, true);
    assert forall i :: 0 <= i < n ==> q[i].txn != q[n].txn;
    assert q[..n] == a && q[n + 1..] == more;
  }

  lemma MergedPrefix(a: Queue, b: Queue, rest: Queue)
    requires a != [] && (forall i :: 0 <= i < |a| ==> !a[i].exclusive)
    requires (forall i :: 0 <= i < |b| ==> !b[i].exclusive) && (rest == [] || rest[0].exclusive)
    ensures GrantedLen(a + b + rest) == |a| + |b|
  {
    var q, n := a + b + rest, |a| + |b|;
    assert q[0] == a[0];
    assert forall i :: 0 <= i < n ==> !q[i].exclusive;
    assert rest != [] ==> q[n] == rest[0];
  }

  lemma NewGrantsUnique(q: Queue, t: TxnId)
    requires Unique(q)
    requires KeptLen(q, t) <= GrantedLen(Remove(q, t))
    ensures var ids := NewGrants(q, t); forall i, j :: 0 <= i < j < |ids| ==> ids[i] != ids[j]
  {
    var q', ids, h := Remove(q, t), NewGrants(q, t), KeptLen(q, t);
    RemoveElements(q, t, t);
    forall i, j | 0 <= i < j < |ids| ensures ids[i] != ids[j] {
      assert q'[h + i].txn == ids[i] && q'[h + j].txn == ids[j];
    }
  }

  /******* Waiting transactions *******/

  ghost function WaitingKeys(table: Table, t: TxnId): set<Key> {
    set k | k in table && Blocked(table[k], t)
  }

  // The number of keys on which t is queued outside the granted prefix.
  ghost function Waits(table: Table, t: TxnId): nat {
    |WaitingKeys(table, t)|
  }

  // released: transactions for which Release has been called; their entries in
  // the wait counters are not valid until they ask for a lock again.
  datatype LockState = LockState(table: Table, released: set<TxnId>)

  function Acquire(ls: LockState, t: TxnId, exclusive: bool, k: Key): LockState {
    LockState(ls.table[k := QueueAt(ls.table, k) + [Request(t, exclusive)]], ls.released - {t})
  }

  function Release(ls: LockState, t: TxnId, k: Key): LockState {
    LockState(ls.table[k := Remove(QueueAt(ls.table, k), t)], ls.released + {t})
  }

  // The members of ids, in order, that have acquired all they asked for.
  ghost function Runnable(ids: seq<TxnId>, ls: LockState): seq<TxnId> {
    if ids == [] then []
    else
      var last := ids[|ids| - 1];
      Runnable(ids[..|ids| - 1], ls)
      + if last !in ls.released && Waits(ls.table, last) == 0 then [last] else []
  }

  // What releasing a lock appends to the ready queue.
  ghost function Woken(ls: LockState, t: TxnId, k: Key): seq<TxnId>
    requires Unique(QueueAt(ls.table, k))
  {
    GrantsPersist(QueueAt(ls.table, k), t);
    Runnable(NewGrants(QueueAt(ls.table, k), t), Release(ls, t, k))
  }

  lemma {:induction false} RunnableInOrder(q: Queue, ids: seq<TxnId>, ls: LockState)
    requires InQueueOrder(q, ids)
    ensures InQueueOrder(q, Runnable(ids, ls))
    ensures forall x :: x in Runnable(ids, ls) ==> x in ids
  {
    if ids == [] {
    } else {
      var n := |ids| - 1;
      var front := Runnable(ids[..n], ls);
      RunnableInOrder(q, ids[..n], ls);
      forall a | 0 <= a < |front| ensures StandsBefore(q, front[a], ids[n]) {
        assert front[a] in ids[..n];
        var b :| 0 <= b < n && ids[b] == front[a];
      }
    }
  }

  // So a release appends to the ready queue in the order of the requests in the
  // queue before it.
  lemma WokenInOrder(ls: LockState, t: TxnId, k: Key)
    requires Unique(QueueAt(ls.table, k))
    ensures InQueueOrder(QueueAt(ls.table, k), Woken(ls, t, k))
  {
    var q := QueueAt(ls.table, k);
    GrantsPersist(q, t);
    NewGrantsInOrder(q, t);
    RunnableInOrder(q, NewGrants(q, t), Release(ls, t, k));
  }

  lemma {:induction false} RunnableMembers(ids: seq<TxnId>, ls: LockState, x: TxnId)
    ensures x in Runnable(ids, ls) <==> x in ids && x !in ls.released && Waits(ls.table, x) == 0
  {
    if ids == [] {
    } else {
      RunnableMembers(ids[..|ids| - 1], ls, x);
      assert ids == ids[..|ids| - 1] + [ids[|ids| - 1]];
    }
  }

  // Releasing changes the wait of a transaction by one if it gets the lock, and
  // otherwise not at all.
  lemma WaitsAfterRelease(ls: LockState, t: TxnId, k: Key, x: TxnId)
    requires Unique(QueueAt(ls.table, k)) && x != t
    ensures var q := QueueAt(ls.table, k);
      Waits(ls.table, x)
      == Waits(Release(ls, t, k).table, x) + if Holds(Remove(q, t), x) && !Holds(q, x) then 1 else 0
  {
    var q, table' := QueueAt(ls.table, k), Release(ls, t, k).table;
    var q' := Remove(q, t);
    GrantsPersist(q, t);
    RemoveElements(q, t, x);
    BlockedIff(q, x);
    BlockedIff(q', x);
    NewGrantsExact(q, t, x);
    var before, after := WaitingKeys(ls.table, x), WaitingKeys(table', x);
    if Holds(q', x) && !Holds(q, x) {
      assert before == after + {k};
    } else {
      assert before == after;
    }
  }

  // A release appends to the ready queue exactly those whose last wait it ends,
  // each of them once. Nobody else's requests or releases make a wait longer, so
  // a transaction that makes no further request is appended at most once.
  lemma WokenWhenLastWaitEnds(ls: LockState, t: TxnId, k: Key, x: TxnId)
    requires Unique(QueueAt(ls.table, k)) && x != t
    ensures multiset(Woken(ls, t, k))[x] == if x !in ls.released && Waits(ls.table, x) > 0
                                                && Waits(Release(ls, t, k).table, x) == 0 then 1 else 0
    ensures Waits(Release(ls, t, k).table, x) <= Waits(ls.table, x)
  {
    var q, ls' := QueueAt(ls.table, k), Release(ls, t, k);
    GrantsPersist(q, t);
    WaitsAfterRelease(ls, t, k, x);
    NewGrantsExact(q, t, x);
    NewGrantsUnique(q, t);
    RunnableCount(NewGrants(q, t), ls', x);
  }

  lemma {:induction false} RunnableCount(ids: seq<TxnId>, ls: LockState, x: TxnId)
    requires forall i, j :: 0 <= i < j < |ids| ==> ids[i] != ids[j]
    ensures multiset(Runnable(ids, ls))[x]
         == if x in ids && x !in ls.released && Waits(ls.table, x) == 0 then 1 else 0
  {
    if ids == [] {
    } else {
      var front, last := ids[..|ids| - 1], ids[|ids| - 1];
      assert ids == front + [last];
      RunnableCount(front, ls, x);
      assert last !in front;
    }
  }

  lemma BlockedIff(q: Queue, x: TxnId)
    requires Unique(q)
    ensures Blocked(q, x) <==> Queued(q, x) && !Holds(q, x)
  {
  }

  // Asking for a lock adds one to the requester's wait if it is not granted at
  // once, and changes nobody else's wait.
  lemma WaitsAfterAcquire(ls: LockState, t: TxnId, exclusive: bool, k: Key, x: TxnId)
    requires Unique(QueueAt(ls.table, k)) && !Queued(QueueAt(ls.table, k), t)
    ensures var ls' := Acquire(ls, t, exclusive, k);
      && Unique(QueueAt(ls'.table, k))
      && Waits(ls'.table, x)
         == Waits(ls.table, x) + if x == t && !Holds(QueueAt(ls'.table, k), t) then 1 else 0
  {
    var q, ls' := QueueAt(ls.table, k), Acquire(ls, t, exclusive, k);
    var q' := QueueAt(ls'.table, k);
    AppendGrants(q, Request(t, exclusive));
    var before, after := WaitingKeys(ls.table, x), WaitingKeys(ls'.table, x);
    if x == t && !Holds(q', t) {
      assert q'[|q|].txn == t;
      assert after == before + {k};
    } else {
      assert Blocked(q', x) <==> Blocked(q, x) by {
        if Blocked(q, x) {
          var p :| GrantedLen(q) <= p < |q| && q[p].txn == x;
          assert q'[p].txn == x;
        }
      }
      assert after == before;
    }
  }

  // The wait counters say, for every transaction that has released nothing since
  // it last asked, on how many keys it is still waiting; no entry means none.
  ghost predicate CountersAgree(ls: LockState, waits: map<TxnId, int>) {
    && (forall t :: t !in ls.released ==> CounterOf(waits, t) == Waits(ls.table, t))
    && (forall t :: t in waits ==> t !in ls.released && waits[t] > 0)
  }

  function CounterOf(waits: map<TxnId, int>, t: TxnId): int {
    if t in waits then waits[t] else 0
  }

  // No entry stands for a counter of zero.
  function SetCounter(waits: map<TxnId, int>, t: TxnId, n: nat): map<TxnId, int> {
    if n == 0 then waits - {t} else waits[t := n]
  }

  // Setting the counter of the requester is all that a request calls for.
  lemma CountersAfterAcquire(ls: LockState, waits: map<TxnId, int>, t: TxnId, exclusive: bool, k: Key)
    requires UniqueRequests(ls.table) && CountersAgree(ls, waits) && !Queued(QueueAt(ls.table, k), t)
    ensures var ls' := Acquire(ls, t, exclusive, k);
      UniqueRequests(ls'.table) && CountersAgree(ls', SetCounter(waits, t, Waits(ls'.table, t)))
  {
    forall x ensures x != t ==> Waits(Acquire(ls, t, exclusive, k).table, x) == Waits(ls.table, x) {
      WaitsAfterAcquire(ls, t, exclusive, k, x);
    }
    WaitsAfterAcquire(ls, t, exclusive, k, t);
  }

  // Removing a request lowers the waits of exactly the new grantees, by one each.
  lemma CountersAfterRelease(ls: LockState, waits: map<TxnId, int>, t: TxnId, k: Key)
    requires UniqueRequests(ls.table) && CountersAgree(ls, waits)
    ensures KeptLen(QueueAt(ls.table, k), t) <= GrantedLen(Remove(QueueAt(ls.table, k), t))
    ensures UniqueRequests(Release(ls, t, k).table)
    ensures CountersOwe(Release(ls, t, k), waits - {t}, NewGrants(QueueAt(ls.table, k), t))
  {
    GrantsPersist(QueueAt(ls.table, k), t);
    RemoveElements(QueueAt(ls.table, k), t, t);
    forall x | x !in ls.released && x != t {
      CounterAfterRelease(ls, waits, t, k, x);
    }
  }

  lemma CounterAfterRelease(ls: LockState, waits: map<TxnId, int>, t: TxnId, k: Key, x: TxnId)
    requires Unique(QueueAt(ls.table, k)) && CountersAgree(ls, waits) && x !in ls.released && x != t
    requires KeptLen(QueueAt(ls.table, k), t) <= GrantedLen(Remove(QueueAt(ls.table, k), t))
    ensures CounterOf(waits - {t}, x)
         == Waits(Release(ls, t, k).table, x) + if x in NewGrants(QueueAt(ls.table, k), t) then 1 else 0
  {
    WaitsAfterRelease(ls, t, k, x);
    NewGrantsExact(QueueAt(ls.table, k), t, x);
  }

  // The counters of owed are one too high; all others agree with the table.
  ghost predicate CountersOwe(ls: LockState, waits: map<TxnId, int>, owed: seq<TxnId>) {
    && (forall t :: t !in ls.released ==> CounterOf(waits, t) == Waits(ls.table, t) + if t in owed then 1 else 0)
    && (forall t :: t in waits ==> t !in ls.released && waits[t] > 0)
  }

  function Decrement(waits: map<TxnId, int>, t: TxnId): map<TxnId, int> {
    if t !in waits then waits
    else if waits[t] == 1 then waits - {t}
    else waits[t := waits[t] - 1]
  }

  // Counting one grantee down settles its counter and no other; the counter
  // reaches zero exactly when the grantee has nothing left to wait for.
  lemma DecrementSettles(ls: LockState, waits: map<TxnId, int>, x: TxnId, owed: seq<TxnId>)
    requires CountersOwe(ls, waits, [x] + owed) && x !in owed
    ensures CountersOwe(ls, Decrement(waits, x), owed)
    ensures x in waits && waits[x] == 1 <==> x !in ls.released && Waits(ls.table, x) == 0
  {
    assert forall t :: t in [x] + owed <==> t == x || t in owed;
    assert x !in ls.released ==> CounterOf(waits, x) == Waits(ls.table, x) + 1;
  }

  lemma RunnableAppend(ids: seq<TxnId>, x: TxnId, ls: LockState)
    ensures Runnable(ids + [x], ls)
         == Runnable(ids, ls) + if x !in ls.released && Waits(ls.table, x) == 0 then [x] else []
  {
    assert (ids + [x])[..|ids|] == ids;
  }

  lemma WakeStart(ls: LockState, waits: map<TxnId, int>, ids: seq<TxnId>)
    requires CountersOwe(ls, waits, ids)
    ensures CountersOwe(ls, waits, ids[0..]) && Runnable(ids[..0], ls) == []
  {
    assert ids[0..] == ids;
  }

  lemma WakeEnd(ls: LockState, waits: map<TxnId, int>, ids: seq<TxnId>)
    requires CountersOwe(ls, waits, ids[|ids|..])
    ensures CountersAgree(ls, waits) && ids[..|ids|] == ids
  {
  }

  // One step of counting down the grantees in order.
  lemma WakeStep(ls: LockState, waits: map<TxnId, int>, ids: seq<TxnId>, i: nat)
    requires i < |ids| && CountersOwe(ls, waits, ids[i..])
    requires forall a, b :: 0 <= a < b < |ids| ==> ids[a] != ids[b]
    ensures CountersOwe(ls, Decrement(waits, ids[i]), ids[i + 1..])
    ensures Runnable(ids[..i + 1], ls)
         == Runnable(ids[..i], ls) + if ids[i] in waits && waits[ids[i]] == 1 then [ids[i]] else []
  {
    var x, rest := ids[i], ids[i + 1..];
    assert ids[i..] == [x] + rest && x !in rest;
    DecrementSettles(ls, waits, x, rest);
    assert ids[..i + 1] == ids[..i] + [x];
    RunnableAppend(ids[..i], x, ls);
  }

  // A request at the back is granted when the queue is empty or all shared.
  lemma LastHolds(q: Queue, r: Request)
    requires !Queued(q, r.txn)
    ensures Holds(q + [r], r.txn)
       <==> q == [] || (!r.exclusive && forall i :: 0 <= i < |q| ==> !q[i].exclusive)
  {
    var q' := q + [r];
    GrantedIff(q', |q|);
    assert q'[|q|].txn == r.txn;
    assert forall i :: 0 <= i < |q| ==> q'[i] == q[i];
  }

  ghost predicate UniqueRequests(table: Table) {
    forall k :: k in table ==> Unique(table[k])
  }

  // A new request at the back takes no lock away and is granted only if it is
  // alone or shared among shared requests.
  lemma AppendGrants(q: Queue, r: Request)
    ensures GrantedLen(q + [r]) == if GrantedLen(q) == |q| && (q == [] || (!q[0].exclusive && !r.exclusive))
                                   then |q| + 1 else GrantedLen(q)
  {
    var q' := q + [r];
    var n, n' := GrantedLen(q), GrantedLen(q');
    assert q'[|q|] == r && (n < |q| ==> q'[n] == q[n]) && (n' < |q| ==> q'[n'] == q[n']);
    assert q != [] ==> q'[0] == q[0];
  }
}
