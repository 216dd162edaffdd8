/**
 Optimistic concurrency control with parallel validation, as a state machine.
 Workers read, run, validate and write on their own. Entering the active set
 and copying it is one critical section; every other shared access is a step.

 publishFirst says in which order a transaction that has applied its writes
 leaves: appended to the committed list before it is erased from the active set,
 or, as the protocol is listed, the other way round.
 */
module ParallelOcc {
  import opened Txns

  type TxnId = nat

  datatype Status =
    | Pending                       // in the active set, not yet validated
    | Applying(todo: set<Key>)      // valid; writing its buffer to storage
    | Leaving                       // writes applied; one of publish and erase is done
    | Committed
    | Aborted                       // valid, with an abort vote
    | Failed                        // restarted

  // One attempt that has entered the active set. saved is its copy of the set,
  // seen the length of the committed list at that moment.
  datatype Entry = Entry(
    txn: TxnId,
    start: nat,
    got: map<Key, Value>,
    out: Outcome,
    saved: set<TxnId>,
    seen: nat,
    status: Status
  )

  datatype Phase =
    | Requested
    | Assigned
    | Running(start: nat, todo: set<Key>, got: map<Key, Value>)
    | Ran(start: nat, got: map<Key, Value>, out: Outcome)
    | Entered(entry: nat)
    | Returned(entry: nat)

  datatype State = State(
    publishFirst: bool,
    db0: Db,
    db: Db,
    txns: seq<Logic>,
    phases: seq<Phase>,
    requests: seq<TxnId>,
    active: set<TxnId>,
    entries: seq<Entry>,
    committed: seq<TxnId>
  )

  datatype Step =
    | Submit(txn: Logic)
    | Assign
    | Begin(id: TxnId)
    | ReadKey(id: TxnId, key: Key)
    | RunLogic(id: TxnId)
    | Enter(id: TxnId)
    | Validate(entry: nat, upTo: nat)
    | WriteKey(entry: nat, key: Key)
    | Publish(entry: nat)
    | Erase(entry: nat)

  function Init(publishFirst: bool, db: Db): State {
    State(publishFirst, db, db, [], [], [], {}, [], [])
  }

  predicate Sized(s: State) {
    && |s.txns| == |s.phases|
    && forall e :: 0 <= e < |s.entries| ==> s.entries[e].txn < |s.txns|
  }

  predicate Enabled(s: State, step: Step)
    requires Sized(s)
  {
    match step
    case Submit(_) => true
    case Assign => s.requests != [] && s.requests[0] < |s.txns|
    case Begin(i) => i < |s.txns| && s.phases[i].Assigned?
    case ReadKey(i, k) => i < |s.txns| && s.phases[i].Running? && k in s.phases[i].todo
    case RunLogic(i) => i < |s.txns| && s.phases[i].Running? && s.phases[i].todo == {}
    case Enter(i) => i < |s.txns| && s.phases[i].Ran?
    case Validate(e, upTo) =>
      e < |s.entries| && s.entries[e].status.Pending? && s.entries[e].seen <= upTo <= |s.committed|
    case WriteKey(e, k) =>
      && e < |s.entries| && s.entries[e].status.Applying?
      && k in s.entries[e].status.todo && k in s.entries[e].out.writes
    case Publish(e) =>
      e < |s.entries| && (if s.publishFirst then WritesDone(s.entries[e]) else s.entries[e].status.Leaving?)
    case Erase(e) =>
      e < |s.entries| && (if s.publishFirst then s.entries[e].status.Leaving? else WritesDone(s.entries[e]))
  }

  predicate WritesDone(entry: Entry) {
    entry.status.Applying? && entry.status.todo == {}
  }

  // Transaction i declares k as a write.
  predicate Writes(s: State, i: TxnId, k: Key) {
    i < |s.txns| && k in s.txns[i].writeset
  }

  // Validation against the committed list, from where the attempt began up to
  // where it was read, and against the saved copy of the active set.
  predicate Valid(s: State, e: nat, upTo: nat)
    requires Sized(s) && e < |s.entries| && upTo <= |s.committed|
  {
    var keys := s.txns[s.entries[e].txn].Keys();
    && (forall c, k :: s.entries[e].start <= c < upTo && k in keys ==> !Writes(s, s.committed[c], k))
    && (forall t, k :: t in s.entries[e].saved && k in keys ==> !Writes(s, t, k))
  }

  function AfterSubmit(s: State, p: Logic): (s': State)
    requires Sized(s)
    ensures Sized(s')
  {
    s.(txns := s.txns + [p], phases := s.phases + [Requested], requests := s.requests + [|s.txns|])
  }

  function AfterAssign(s: State): (s': State)
    requires Sized(s) && Enabled(s, Assign)
    ensures Sized(s')
  {
    s.(requests := s.requests[1..], phases := s.phases[s.requests[0] := Assigned])
  }

  function AfterBegin(s: State, i: TxnId): State
    requires Sized(s) && Enabled(s, Begin(i))
  {
    s.(phases := s.phases[i := Running(|s.committed|, s.txns[i].Keys(), map[])])
  }

  function AfterReadKey(s: State, i: TxnId, k: Key): State
    requires Sized(s) && Enabled(s, ReadKey(i, k))
  {
    var ph := s.phases[i];
    var got := if k in s.db then ph.got[k := s.db[k]] else ph.got;
    s.(phases := s.phases[i := ph.(todo := ph.todo - {k}, got := got)])
  }

  function AfterRunLogic(s: State, i: TxnId): State
    requires Sized(s) && Enabled(s, RunLogic(i))
  {
    var ph := s.phases[i];
    s.(phases := s.phases[i := Ran(ph.start, ph.got, s.txns[i].run(ph.got))])
  }

  // The critical section: copy the active set, then join it.
  function AfterEnter(s: State, i: TxnId): (s': State)
    requires Sized(s) && Enabled(s, Enter(i))
    ensures Sized(s')
  {
    var ph := s.phases[i];
    s.(entries := s.entries + [Entry(i, ph.start, ph.got, ph.out, s.active, |s.committed|, Pending)],
       active := s.active + {i}, phases := s.phases[i := Entered(|s.entries|)])
  }

  function SetStatus(s: State, e: nat, status: Status): seq<Entry>
    requires e < |s.entries|
  {
    s.entries[e := s.entries[e].(status := status)]
  }

  function AfterValidate(s: State, e: nat, upTo: nat): (s': State)
    requires Sized(s) && Enabled(s, Validate(e, upTo))
    ensures Sized(s')
  {
    var i, out := s.entries[e].txn, s.entries[e].out;
    if !Valid(s, e, upTo) then
      s.(entries := SetStatus(s, e, Failed), active := s.active - {i},
         phases := s.phases[i := Requested], requests := s.requests + [i])
    else if out.commit then
      s.(entries := SetStatus(s, e, Applying(out.writes.Keys)))
    else
      s.(entries := SetStatus(s, e, Aborted), active := s.active - {i}, phases := s.phases[i := Returned(e)])
  }

  function AfterWriteKey(s: State, e: nat, k: Key): (s': State)
    requires Sized(s) && Enabled(s, WriteKey(e, k))
    ensures Sized(s')
  {
    s.(db := s.db[k := s.entries[e].out.writes[k]],
       entries := SetStatus(s, e, Applying(s.entries[e].status.todo - {k})))
  }

  // Whichever of Publish and Erase comes second returns the transaction.
  function AfterPublish(s: State, e: nat): (s': State)
    requires Sized(s) && Enabled(s, Publish(e))
    ensures Sized(s')
  {
    var i := s.entries[e].txn;
    s.(committed := s.committed + [i],
       entries := SetStatus(s, e, if s.publishFirst then Leaving else Committed),
       phases := if s.publishFirst then s.phases else s.phases[i := Returned(e)])
  }

  function AfterErase(s: State, e: nat): (s': State)
    requires Sized(s) && Enabled(s, Erase(e))
    ensures Sized(s')
  {
    var i := s.entries[e].txn;
    s.(active := s.active - {i},
       entries := SetStatus(s, e, if s.publishFirst then Committed else Leaving),
       phases := if s.publishFirst then s.phases[i := Returned(e)] else s.phases)
  }

  function Do(s: State, step: Step): (s': State)
    requires Sized(s)
    ensures Sized(s') && s'.db0 == s.db0 && s'.publishFirst == s.publishFirst
  {
    if !Enabled(s, step) then s else
    match step
    case Submit(p) => AfterSubmit(s, p)
    case Assign => AfterAssign(s)
    case Begin(i) => AfterBegin(s, i)
    case ReadKey(i, k) => AfterReadKey(s, i, k)
    case RunLogic(i) => AfterRunLogic(s, i)
    case Enter(i) => AfterEnter(s, i)
    case Validate(e, upTo) => AfterValidate(s, e, upTo)
    case WriteKey(e, k) => AfterWriteKey(s, e, k)
    case Publish(e) => AfterPublish(s, e)
    case Erase(e) => AfterErase(s, e)
  }

  function RunFrom(s: State, steps: seq<Step>): (s': State)
    requires Sized(s)
    ensures Sized(s') && s'.db0 == s.db0 && s'.publishFirst == s.publishFirst
  {
    if steps == [] then s else Do(RunFrom(s, steps[..|steps| - 1]), steps[|steps| - 1])
  }

  function Run(publishFirst: bool, db: Db, steps: seq<Step>): (s: State)
    ensures Sized(s) && s.db0 == db && s.publishFirst == publishFirst
  {
    RunFrom(Init(publishFirst, db), steps)
  }

  lemma {:induction false} RunConcat(s: State, a: seq<Step>, b: seq<Step>)
    requires Sized(s)
    ensures RunFrom(s, a + b) == RunFrom(RunFrom(s, a), b)
  {
    if b == [] {
      assert a + b == a;
    } else {
      RunConcat(s, a, b[..|b| - 1]);
      assert (a + b)[..|a + b| - 1] == a + b[..|b| - 1];
    }
  }

  // A run through the states listed in via.
  lemma {:induction false} RunVia(via: seq<State>, steps: seq<Step>, n: nat)
    requires n <= |steps| && |via| == |steps| + 1
    requires forall m :: 0 <= m < |via| ==> Sized(via[m])
    requires forall m :: 0 <= m < |steps| ==> Do(via[m], steps[m]) == via[m + 1]
    ensures RunFrom(via[0], steps[..n]) == via[n]
  {
    if n == 0 {
    } else {
      RunVia(via, steps, n - 1);
      assert steps[..n][..n - 1] == steps[..n - 1];
      assert Do(via[n - 1], steps[n - 1]) == via[n];
    }
  }

  lemma OneStep(s: State, step: Step)
    requires Sized(s)
    ensures RunFrom(s, [step]) == Do(s, step)
  {
    assert RunFrom(s, [step][..0]) == s;
  }

  /******* The serial order *******/

  // Valid attempts that voted to commit: their writes count.
  predicate Counts(status: Status) {
    status.Applying? || status.Leaving? || status.Committed?
  }

  predicate Validated(status: Status) {
    Counts(status) || status.Aborted?
  }

  predicate Live(status: Status) {
    status.Pending? || status.Applying? || status.Leaving?
  }

  // The transactions whose attempt among the first n entries is valid, in the
  // order in which they entered the active set.
  function Order(entries: seq<Entry>, n: nat): seq<TxnId>
    requires n <= |entries|
  {
    if n == 0 then []
    else Order(entries, n - 1) + if Validated(entries[n - 1].status) then [entries[n - 1].txn] else []
  }

  // The database with the writes of the first n entries that count.
  function DbAt(db0: Db, entries: seq<Entry>, n: nat): Db
    requires n <= |entries|
  {
    if n == 0 then db0
    else if Counts(entries[n - 1].status) then DbAt(db0, entries, n - 1) + entries[n - 1].out.writes
    else DbAt(db0, entries, n - 1)
  }

  // The same, as far as the writes have been applied.
  function DbSoFar(db0: Db, entries: seq<Entry>, n: nat): Db
    requires n <= |entries|
  {
    if n == 0 then db0 else DbSoFar(db0, entries, n - 1) + SoFar(entries[n - 1])
  }

  function SoFar(entry: Entry): map<Key, Value> {
    if entry.status.Applying? then Applied(entry.out.writes, entry.status.todo)
    else if Counts(entry.status) then entry.out.writes
    else map[]
  }

  // A member of the active set: for the listed order, Leaving means having left it.
  predicate InSet(s: State, status: Status) {
    status.Pending? || status.Applying? || (status.Leaving? && s.publishFirst)
  }

  // Writes may have reached storage, and the committed list does not say so yet.
  predicate Unpublished(s: State, status: Status) {
    status.Applying? || (status.Leaving? && !s.publishFirst)
  }

  // The program of transaction i has no key that transaction t declares as a write.
  predicate Apart(s: State, t: TxnId, i: TxnId)
    requires i < |s.txns|
  {
    forall k :: k in s.txns[i].Keys() ==> !Writes(s, t, k)
  }

  // No one enters the active set while a conflicting writer is in neither the
  // set nor the committed list. Publishing first, no one ever is.
  predicate Quiet(s: State, step: Step)
    requires Sized(s)
  {
    !s.publishFirst && step.Enter? && step.id < |s.txns| ==>
      forall e :: 0 <= e < |s.entries| && s.entries[e].status.Leaving? ==> Apart(s, s.entries[e].txn, step.id)
  }

  predicate QuietRun(s: State, steps: seq<Step>)
    requires Sized(s)
  {
    if steps == [] then true
    else
      && QuietRun(s, steps[..|steps| - 1])
      && Quiet(RunFrom(s, steps[..|steps| - 1]), steps[|steps| - 1])
  }

  /******* Invariant, for quiet runs *******/

  ghost predicate ListsOk(s: State)
    requires Sized(s)
  {
    && Distinct(s.requests)
    && (forall i: TxnId :: i in s.requests <==> i < |s.txns| && s.phases[i].Requested?)
  }

  // Entries belong to the transactions whose phase says so, one live entry each.
  ghost predicate EntryOk(s: State, e: nat)
    requires Sized(s) && e < |s.entries|
  {
    var entry := s.entries[e];
    && (Live(entry.status) ==> s.phases[entry.txn] == Entered(e))
    && (entry.status.Committed? || entry.status.Aborted? ==> s.phases[entry.txn] == Returned(e))
    && entry.start <= entry.seen <= |s.committed|
    && (forall t :: t in entry.saved ==> t < |s.txns|)
    && entry.got.Keys <= s.txns[entry.txn].Keys()
    && entry.out == s.txns[entry.txn].run(entry.got)
    && (Counts(entry.status) ==> entry.out.commit) && (entry.status.Aborted? ==> !entry.out.commit)
    && (entry.status.Applying? ==> entry.status.todo <= entry.out.writes.Keys)
    && (Validated(entry.status) ==> SavedApart(s, e))
  }

  // Nothing in the saved copy declares a write to a key of the entry.
  ghost predicate SavedApart(s: State, e: nat)
    requires Sized(s) && e < |s.entries|
  {
    forall t :: t in s.entries[e].saved ==> Apart(s, t, s.entries[e].txn)
  }

  // A live entry is in the saved copy of every entry after it that it could harm.
  ghost predicate SavedOk(s: State)
    requires Sized(s)
  {
    forall d, e :: 0 <= d < e < |s.entries| && Live(s.entries[d].status) ==>
      s.entries[d].txn in s.entries[e].saved || Apart(s, s.entries[d].txn, s.entries[e].txn)
  }

  // k is declared as a write by a transaction committed since start, or by one
  // that is about to be.
  predicate Overwritten(s: State, start: nat, k: Key) {
    || (exists c :: start <= c < |s.committed| && Writes(s, s.committed[c], k))
    || (exists e :: 0 <= e < |s.entries| && Unpublished(s, s.entries[e].status) && Writes(s, s.entries[e].txn, k))
  }

  ghost predicate ReadsOk(s: State, i: TxnId)
    requires Sized(s) && i < |s.txns|
  {
    var keys := s.txns[i].Keys();
    match s.phases[i]
    case Running(start, todo, got) =>
      && start <= |s.committed| && todo <= keys && got.Keys <= keys - todo
      && forall k :: k in keys - todo ==> Get(got, k) == Get(s.db, k) || Overwritten(s, start, k)
    case Ran(start, got, out) =>
      && start <= |s.committed| && got.Keys <= keys && out == s.txns[i].run(got)
      && forall k :: k in keys ==> Get(got, k) == Get(s.db, k) || Overwritten(s, start, k)
    case _ => true
  }

  // Validation of entry e would notice a conflict on k.
  predicate Noticed(s: State, e: nat, k: Key)
    requires e < |s.entries|
  {
    || (exists c :: s.entries[e].start <= c < s.entries[e].seen && c < |s.committed| && Writes(s, s.committed[c], k))
    || (exists t :: t in s.entries[e].saved && Writes(s, t, k))
  }

  // What an entry read is the serial value, unless its validation will fail.
  ghost predicate EntryReads(s: State, e: nat)
    requires Sized(s) && e < |s.entries|
  {
    var entry := s.entries[e];
    forall k :: k in s.txns[entry.txn].Keys() ==>
      && (Validated(entry.status) ==> Get(entry.got, k) == Get(DbAt(s.db0, s.entries, e), k))
      && (entry.status.Pending? ==> Get(entry.got, k) == Get(DbAt(s.db0, s.entries, e), k) || Noticed(s, e, k))
  }

  // A transaction that has entered or returned did so with its entry; only those
  // that have entered are in the active set.
  ghost predicate PhaseOk(s: State, i: TxnId)
    requires Sized(s) && i < |s.txns|
  {
    match s.phases[i]
    case Entered(e) =>
      && e < |s.entries| && s.entries[e].txn == i && Live(s.entries[e].status)
      && (i in s.active <==> InSet(s, s.entries[e].status))
    case Returned(e) =>
      && e < |s.entries| && s.entries[e].txn == i && i !in s.active
      && (s.entries[e].status.Committed? || s.entries[e].status.Aborted?)
    case _ => i !in s.active
  }

  ghost predicate Inv(s: State) {
    && Sized(s) && ListsOk(s)
    && (forall e :: 0 <= e < |s.entries| ==> EntryOk(s, e))
    && SavedOk(s) && (forall i :: i in s.active ==> i < |s.txns|)
    && s.db == DbSoFar(s.db0, s.entries, |s.entries|)
    && (forall i :: 0 <= i < |s.txns| ==> ReadsOk(s, i) && PhaseOk(s, i))
    && (forall e :: 0 <= e < |s.entries| ==> EntryReads(s, e))
  }

  /******* Facts about the two databases *******/

  // Entries that look the same as far as it matters give the same databases.
  lemma {:induction false} DbAtFrame(db0: Db, es: seq<Entry>, es': seq<Entry>, n: nat)
    requires n <= |es| && n <= |es'|
    requires forall e :: 0 <= e < n ==>
      Counts(es'[e].status) == Counts(es[e].status) && es'[e].out == es[e].out
    ensures DbAt(db0, es', n) == DbAt(db0, es, n)
  {
    if n == 0 {
    } else {
      DbAtFrame(db0, es, es', n - 1);
    }
  }

  lemma {:induction false} DbSoFarFrame(db0: Db, es: seq<Entry>, es': seq<Entry>, n: nat)
    requires n <= |es| && n <= |es'|
    requires forall e :: 0 <= e < n ==> SoFar(es'[e]) == SoFar(es[e])
    ensures DbSoFar(db0, es', n) == DbSoFar(db0, es, n)
  {
    if n == 0 {
    } else {
      DbSoFarFrame(db0, es, es', n - 1);
    }
  }

  // An entry whose writes begin to count changes only the keys it writes.
  lemma {:induction false} DbAtElsewhere(db0: Db, es: seq<Entry>, es': seq<Entry>, n: nat, d: nat, k: Key)
    requires n <= |es| && n <= |es'|
    requires forall e :: 0 <= e < n && e != d ==>
      Counts(es'[e].status) == Counts(es[e].status) && es'[e].out == es[e].out
    requires d < n ==> es'[d].out == es[d].out && k !in es[d].out.writes
    ensures Get(DbAt(db0, es', n), k) == Get(DbAt(db0, es, n), k)
  {
    if n == 0 {
    } else {
      DbAtElsewhere(db0, es, es', n - 1, d, k);
    }
  }

  // Where nothing is left to apply, the two databases agree.
  lemma {:induction false} SoFarAgrees(db0: Db, es: seq<Entry>, n: nat, k: Key)
    requires n <= |es|
    requires forall e :: 0 <= e < n && es[e].status.Applying? ==> k !in es[e].status.todo
    ensures Get(DbSoFar(db0, es, n), k) == Get(DbAt(db0, es, n), k)
  {
    if n == 0 {
    } else {
      SoFarAgrees(db0, es, n - 1, k);
    }
  }

  // Applying one more write of entry d reaches storage directly when no later
  // entry that counts writes the same key.
  lemma {:induction false} ApplyReaches(db0: Db, es: seq<Entry>, es': seq<Entry>, n: nat, d: nat, k: Key)
    requires n <= |es| == |es'| && d < |es|
    requires es[d].status.Applying? && k in es[d].out.writes
    requires es' == es[d := es[d].(status := Applying(es[d].status.todo - {k}))]
    requires forall e :: d < e < n && Counts(es[e].status) ==> k !in es[e].out.writes
    ensures DbSoFar(db0, es', n)
         == if d < n then DbSoFar(db0, es, n)[k := es[d].out.writes[k]] else DbSoFar(db0, es, n)
  {
    if n == 0 {
    } else {
      ApplyReaches(db0, es, es', n - 1, d, k);
      var prev, last := DbSoFar(db0, es, n - 1), SoFar(es[n - 1]);
      if d == n - 1 {
        ApplyOne(prev, es[d].out.writes, es[d].status.todo, k);
      } else if d < n {
        assert k !in last && es'[n - 1] == es[n - 1];
        var both: Db := prev + last;
        assert prev[k := es[d].out.writes[k]] + last == both[k := es[d].out.writes[k]];
      } else {
        assert es'[n - 1] == es[n - 1];
      }
    }
  }

  /******* Every step keeps the invariant *******/

  lemma ListsKept(s: State, step: Step)
    requires Sized(s) && ListsOk(s) && Enabled(s, step)
    requires ByEntry(step) ==> EntryOk(s, step.entry)
    ensures ListsOk(Do(s, step))
  {
    match step
    case Submit(_) => PushBack(s.requests, |s.txns|);
    case Assign =>
      PopFront(s.requests);
      assert s.requests[0] in s.requests;
    case Validate(e, upTo) => ValidateLists(s, e, upTo);
    case _ => OtherLists(s, step);
  }

  lemma ValidateLists(s: State, e: nat, upTo: nat)
    requires Sized(s) && ListsOk(s) && Enabled(s, Validate(e, upTo)) && EntryOk(s, e)
    ensures ListsOk(AfterValidate(s, e, upTo))
  {
    PushBack(s.requests, s.entries[e].txn);
  }

  lemma OtherLists(s: State, step: Step)
    requires Sized(s) && ListsOk(s) && Enabled(s, step)
    requires !step.Submit? && !step.Assign? && !step.Validate?
    requires ByEntry(step) ==> EntryOk(s, step.entry)
    ensures ListsOk(Do(s, step))
  {
  }

  // The part of an entry that never changes.
  lemma EntriesGrow(s: State, step: Step, e: nat)
    requires Sized(s) && Enabled(s, step) && e < |s.entries|
    ensures var s' := Do(s, step);
      && e < |s'.entries| && s'.entries[e] == s.entries[e].(status := s'.entries[e].status)
      && |s.txns| <= |s'.txns| && s'.txns[s.entries[e].txn] == s.txns[s.entries[e].txn]
      && |s.committed| <= |s'.committed|
  {
  }

  lemma CommittedGrows(s: State, step: Step)
    requires Sized(s) && Enabled(s, step)
    ensures var s' := Do(s, step);
      && |s.committed| <= |s'.committed|
      && (forall c :: 0 <= c < |s.committed| ==> s'.committed[c] == s.committed[c])
      && |s.txns| <= |s'.txns|
      && (forall i :: 0 <= i < |s.txns| ==> s'.txns[i] == s.txns[i])
  {
  }

  // Only the entry that a step names changes status, and only in these ways.
  ghost predicate Moves(s: State, step: Step, e: nat, before: Status, after: Status) {
    || after == before
    || (before.Pending? && step.Validate? && step.entry == e && (after.Failed? || after.Aborted? || after.Applying?))
    || (before.Applying? && after.Applying? && step.WriteKey? && step.entry == e)
    || (before.Applying? && after.Leaving? && step == (if s.publishFirst then Publish(e) else Erase(e)))
    || (before.Leaving? && after.Committed? && step == (if s.publishFirst then Erase(e) else Publish(e)))
  }

  lemma EntryMoves(s: State, step: Step, e: nat)
    requires Sized(s) && Enabled(s, step) && e < |s.entries|
    ensures e < |Do(s, step).entries|
    ensures Moves(s, step, e, s.entries[e].status, Do(s, step).entries[e].status)
  {
  }

  // The transaction that a step moves.
  function Mover(s: State, step: Step): TxnId {
    match step
    case Assign => if s.requests == [] then 0 else s.requests[0]
    case Begin(i) => i
    case ReadKey(i, _) => i
    case RunLogic(i) => i
    case Enter(i) => i
    case Submit(_) => |s.txns|
    case _ => if step.entry < |s.entries| then s.entries[step.entry].txn else 0
  }

  lemma OthersStay(s: State, step: Step, i: TxnId)
    requires Sized(s) && Enabled(s, step) && i < |s.txns| && i != Mover(s, step)
    ensures i < |Do(s, step).phases| && Do(s, step).phases[i] == s.phases[i]
    ensures i in Do(s, step).active <==> i in s.active
  {
  }

  // A step by an entry is one by a live entry, which its transaction has entered.
  predicate ByEntry(step: Step) {
    step.Validate? || step.WriteKey? || step.Publish? || step.Erase?
  }

  lemma MoverLive(s: State, step: Step)
    requires Sized(s) && Enabled(s, step) && ByEntry(step) && EntryOk(s, step.entry)
    ensures step.entry < |s.entries| && Live(s.entries[step.entry].status)
    ensures s.phases[Mover(s, step)] == Entered(step.entry)
  {
  }

  // The transaction of a live entry is moved by steps of that entry only.
  lemma LivePhase(s: State, step: Step, e: nat)
    requires Sized(s) && ListsOk(s) && Enabled(s, step) && e < |s.entries|
    requires forall d :: 0 <= d < |s.entries| ==> EntryOk(s, d)
    requires s.phases[s.entries[e].txn] == Entered(e) || s.phases[s.entries[e].txn].Returned?
    requires !(ByEntry(step) && step.entry == e)
    ensures s.entries[e].txn < |Do(s, step).phases|
    ensures Do(s, step).phases[s.entries[e].txn] == s.phases[s.entries[e].txn]
  {
    if s.entries[e].txn == Mover(s, step) {
      if ByEntry(step) {
        assert EntryOk(s, step.entry);
        MoverLive(s, step);
      }
    } else {
      OthersStay(s, step, s.entries[e].txn);
    }
  }

  // What the entry that moves does to its transaction.
  lemma OwnPhase(s: State, step: Step)
    requires Sized(s) && Enabled(s, step) && ByEntry(step) && EntryOk(s, step.entry)
    ensures step.entry < |Do(s, step).entries| && Mover(s, step) < |Do(s, step).phases|
    ensures var s', i, e := Do(s, step), Mover(s, step), step.entry;
      && (Live(s'.entries[e].status) ==> s'.phases[i] == Entered(e))
      && (s'.entries[e].status.Committed? || s'.entries[e].status.Aborted? ==> s'.phases[i] == Returned(e))
      && (s'.entries[e].status.Failed? ==> s'.phases[i].Requested?)
      && (i in s'.active <==> if step.WriteKey? || step.Publish? then i in s.active
                              else step.Validate? && Live(s'.entries[e].status) && i in s.active)
  {
  }

  lemma EntryKept(s: State, step: Step, e: nat)
    requires Inv(s) && Enabled(s, step) && e < |s.entries|
    ensures EntryOk(Do(s, step), e)
  {
    assert EntryOk(s, e);
    EntriesGrow(s, step, e);
    EntryMoves(s, step, e);
    CommittedGrows(s, step);
    if ByEntry(step) && step.entry == e {
      OwnPhase(s, step);
    } else if !s.entries[e].status.Failed? {
      LivePhase(s, step, e);
    }
    if Validated(Do(s, step).entries[e].status) {
      SavedApartKept(s, step, e);
    }
  }

  lemma SavedInRange(s: State, step: Step, e: nat)
    requires Sized(s) && Enabled(s, step) && e < |s.entries| && SavedApart(s, e)
    requires forall t :: t in s.entries[e].saved ==> t < |s.txns|
    ensures SavedApart(Do(s, step), e)
  {
    EntriesGrow(s, step, e);
    forall t | t in s.entries[e].saved ensures Apart(Do(s, step), t, s.entries[e].txn) {
      ApartKept(s, step, t, s.entries[e].txn);
    }
  }

  lemma SavedApartKept(s: State, step: Step, e: nat)
    requires Inv(s) && Enabled(s, step) && e < |s.entries|
    requires e < |Do(s, step).entries| && Validated(Do(s, step).entries[e].status)
    ensures SavedApart(Do(s, step), e)
  {
    assert EntryOk(s, e);
    EntryMoves(s, step, e);
    SavedInRange(s, step, e);
  }

  // The entry that Enter appends.
  lemma NewEntry(s: State, i: TxnId)
    requires Inv(s) && Enabled(s, Enter(i))
    ensures EntryOk(AfterEnter(s, i), |s.entries|)
  {
    assert ReadsOk(s, i);
    forall t | t in s.active ensures t < |s.txns| {
    }
  }

  lemma ApartKept(s: State, step: Step, t: TxnId, i: TxnId)
    requires Sized(s) && Enabled(s, step) && t < |s.txns| && i < |s.txns|
    ensures i < |Do(s, step).txns|
    ensures Apart(Do(s, step), t, i) == Apart(s, t, i)
  {
    CommittedGrows(s, step);
    forall k ensures Writes(Do(s, step), t, k) == Writes(s, t, k) {
    }
  }

  // Who enters saves everyone who could do harm.
  lemma NewSaved(s: State, i: TxnId, d: nat)
    requires Inv(s) && Enabled(s, Enter(i)) && Quiet(s, Enter(i)) && d < |s.entries| && Live(s.entries[d].status)
    ensures s.entries[d].txn in s.active || Apart(s, s.entries[d].txn, i)
  {
    assert EntryOk(s, d) && PhaseOk(s, s.entries[d].txn);
  }

  lemma SavedKept(s: State, step: Step)
    requires Inv(s) && Enabled(s, step) && Quiet(s, step)
    ensures SavedOk(Do(s, step))
  {
    var s' := Do(s, step);
    forall d, e | 0 <= d < e < |s'.entries| && Live(s'.entries[d].status)
      ensures s'.entries[d].txn in s'.entries[e].saved || Apart(s', s'.entries[d].txn, s'.entries[e].txn)
    {
      EntryMoves(s, step, d);
      EntriesGrow(s, step, d);
      if e < |s.entries| {
        EntriesGrow(s, step, e);
        ApartKept(s, step, s.entries[d].txn, s.entries[e].txn);
      } else {
        NewSaved(s, step.id, d);
        ApartKept(s, step, s.entries[d].txn, step.id);
      }
    }
  }

  lemma WritesDeclared(s: State, e: nat, k: Key)
    requires Sized(s) && e < |s.entries| && EntryOk(s, e) && k in s.entries[e].out.writes
    ensures Writes(s, s.entries[e].txn, k)
  {
  }

  lemma SoFarKept(s: State, step: Step, e: nat)
    requires Inv(s) && Enabled(s, step) && e < |s.entries| && !(step.WriteKey? && step.entry == e)
    ensures e < |Do(s, step).entries|
    ensures SoFar(Do(s, step).entries[e]) == SoFar(s.entries[e])
  {
    EntriesGrow(s, step, e);
    EntryMoves(s, step, e);
    ApplyEnds(map[], s.entries[e].out.writes);
    assert Applied(s.entries[e].out.writes, s.entries[e].out.writes.Keys) == map[];
    assert Applied(s.entries[e].out.writes, {}) == s.entries[e].out.writes;
  }

  lemma WriteKeyDb(s: State, e: nat, k: Key)
    requires Inv(s) && Enabled(s, WriteKey(e, k))
    ensures AfterWriteKey(s, e, k).db == DbSoFar(s.db0, AfterWriteKey(s, e, k).entries, |s.entries|)
  {
    assert EntryOk(s, e);
    WritesDeclared(s, e, k);
    forall d | e < d < |s.entries| && Counts(s.entries[d].status) ensures k !in s.entries[d].out.writes {
      assert EntryOk(s, d) && Apart(s, s.entries[e].txn, s.entries[d].txn);
      if k in s.entries[d].out.writes {
        WritesDeclared(s, d, k);
      }
    }
    ApplyReaches(s.db0, s.entries, AfterWriteKey(s, e, k).entries, |s.entries|, e, k);
  }

  lemma DbKept(s: State, step: Step)
    requires Inv(s) && Enabled(s, step)
    ensures Do(s, step).db == DbSoFar(s.db0, Do(s, step).entries, |Do(s, step).entries|)
  {
    if step.WriteKey? {
      WriteKeyDb(s, step.entry, step.key);
    } else {
      DbUnwritten(s, step);
    }
  }

  lemma DbUnwritten(s: State, step: Step)
    requires Inv(s) && Enabled(s, step) && !step.WriteKey?
    ensures Do(s, step).db == DbSoFar(s.db0, Do(s, step).entries, |Do(s, step).entries|)
  {
    var s' := Do(s, step);
    NothingWritten(s, step);
    forall e | 0 <= e < |s.entries| ensures SoFar(s'.entries[e]) == SoFar(s.entries[e]) {
      SoFarKept(s, step, e);
    }
    SameSoFar(s.db0, s.entries, s'.entries);
  }

  lemma NothingWritten(s: State, step: Step)
    requires Sized(s) && Enabled(s, step) && !step.WriteKey?
    ensures var s' := Do(s, step);
      && s'.db == s.db && |s.entries| <= |s'.entries| <= |s.entries| + 1
      && (|s.entries| < |s'.entries| ==> s'.entries[|s.entries|].status.Pending?)
  {
  }

  lemma SameSoFar(db0: Db, es: seq<Entry>, es': seq<Entry>)
    requires |es| <= |es'| <= |es| + 1
    requires |es| < |es'| ==> es'[|es|].status.Pending?
    requires forall e :: 0 <= e < |es| ==> SoFar(es'[e]) == SoFar(es[e])
    ensures DbSoFar(db0, es', |es'|) == DbSoFar(db0, es, |es|)
  {
    DbSoFarFrame(db0, es, es', |es|);
  }

  // A write that the committed list does not show yet is one that it will show.
  lemma UnpublishedStays(s: State, step: Step, start: nat, e: nat, k: Key)
    requires Sized(s) && Enabled(s, step) && start <= |s.committed|
    requires e < |s.entries| && Unpublished(s, s.entries[e].status) && Writes(s, s.entries[e].txn, k)
    ensures Overwritten(Do(s, step), start, k)
  {
    var s' := Do(s, step);
    CommittedGrows(s, step);
    EntriesGrow(s, step, e);
    EntryMoves(s, step, e);
    if step.Publish? && step.entry == e {
      assert Writes(s', s'.committed[|s.committed|], k);
    } else {
      assert Unpublished(s', s'.entries[e].status) && Writes(s', s'.entries[e].txn, k);
    }
  }

  lemma DbMoves(s: State, step: Step, k: Key)
    requires Inv(s) && Enabled(s, step) && Get(s.db, k) != Get(Do(s, step).db, k)
    ensures step.WriteKey? && step.entry < |s.entries|
    ensures Unpublished(s, s.entries[step.entry].status) && Writes(s, s.entries[step.entry].txn, k)
  {
    assert EntryOk(s, step.entry);
    WritesDeclared(s, step.entry, k);
  }

  // What counts as overwritten stays so, and a key whose value changes becomes
  // overwritten.
  lemma OverwrittenGrows(s: State, step: Step, start: nat, k: Key)
    requires Inv(s) && Enabled(s, step) && start <= |s.committed|
    ensures start <= |Do(s, step).committed|
    ensures Overwritten(s, start, k) || Get(s.db, k) != Get(Do(s, step).db, k)
        ==> Overwritten(Do(s, step), start, k)
  {
    var s' := Do(s, step);
    CommittedGrows(s, step);
    if exists c :: start <= c < |s.committed| && Writes(s, s.committed[c], k) {
      var c :| start <= c < |s.committed| && Writes(s, s.committed[c], k);
      assert Writes(s', s'.committed[c], k);
    } else if Overwritten(s, start, k) {
      var e :| 0 <= e < |s.entries| && Unpublished(s, s.entries[e].status) && Writes(s, s.entries[e].txn, k);
      UnpublishedStays(s, step, start, e, k);
    } else if Get(s.db, k) != Get(s'.db, k) {
      DbMoves(s, step, k);
      UnpublishedStays(s, step, start, step.entry, k);
    }
  }

  lemma ReadsKept(s: State, step: Step, i: TxnId)
    requires Inv(s) && Enabled(s, step) && i < |s.txns|
    ensures ReadsOk(Do(s, step), i)
  {
    var s' := Do(s, step);
    CommittedGrows(s, step);
    assert ReadsOk(s, i);
    forall start: nat, k | start <= |s.committed|
      ensures start <= |s'.committed|
      ensures Get(s.db, k) != Get(s'.db, k) || Overwritten(s, start, k) ==> Overwritten(s', start, k)
    {
      OverwrittenGrows(s, step, start, k);
    }
    PhaseMoves(s, step, i);
  }

  // The only steps that matter to what a running transaction has read.
  lemma PhaseMoves(s: State, step: Step, i: TxnId)
    requires Inv(s) && Enabled(s, step) && i < |s.txns|
    ensures i < |Do(s, step).phases|
    ensures var before, after := s.phases[i], Do(s, step).phases[i];
      || after == before
      || !(after.Running? || after.Ran?)
      || after == Running(|s.committed|, s.txns[i].Keys(), map[])
      || (step.ReadKey? && step.id == i && after == AfterReadKey(s, i, step.key).phases[i])
      || (before.Running? && before.todo == {} && after == Ran(before.start, before.got, s.txns[i].run(before.got)))
  {
  }

  // The serial value before entry e changes only when an earlier live entry
  // turns out valid, and only at keys that it declares as writes.
  lemma SerialValueMoves(s: State, step: Step, e: nat, k: Key)
    requires Inv(s) && Enabled(s, step) && e < |s.entries|
    ensures e <= |Do(s, step).entries|
    ensures Get(DbAt(s.db0, Do(s, step).entries, e), k) == Get(DbAt(s.db0, s.entries, e), k)
         || exists t :: t in s.entries[e].saved && Writes(s, t, k)
    requires k in s.txns[s.entries[e].txn].Keys()
  {
    var s' := Do(s, step);
    forall d | 0 <= d < e ensures d < |s'.entries| && s'.entries[d].out == s.entries[d].out
      && (!step.Validate? || step.entry != d ==> Counts(s'.entries[d].status) == Counts(s.entries[d].status))
    {
      EntriesGrow(s, step, d);
      EntryMoves(s, step, d);
    }
    if step.Validate? && step.entry < e && k in s.entries[step.entry].out.writes {
      assert EntryOk(s, step.entry);
      WritesDeclared(s, step.entry, k);
      assert !Apart(s, s.entries[step.entry].txn, s.entries[e].txn);
    } else if step.Validate? && step.entry < e {
      DbAtElsewhere(s.db0, s.entries, s'.entries, e, step.entry, k);
    } else {
      DbAtFrame(s.db0, s.entries, s'.entries, e);
    }
  }

  lemma EntryReadsKept(s: State, step: Step, e: nat)
    requires Inv(s) && Enabled(s, step) && e < |s.entries|
    ensures EntryReads(Do(s, step), e)
  {
    var s' := Do(s, step);
    assert EntryReads(s, e) && EntryOk(s, e);
    EntriesGrow(s, step, e);
    EntryMoves(s, step, e);
    CommittedGrows(s, step);
    forall k | k in s.txns[s.entries[e].txn].Keys()
      ensures Validated(s'.entries[e].status) ==>
        Get(s'.entries[e].got, k) == Get(DbAt(s'.db0, s'.entries, e), k)
      ensures s'.entries[e].status.Pending? ==>
        Get(s'.entries[e].got, k) == Get(DbAt(s'.db0, s'.entries, e), k) || Noticed(s', e, k)
    {
      SerialValueMoves(s, step, e, k);
      NoticedStays(s, step, e, k);
    }
  }

  lemma NoticedStays(s: State, step: Step, e: nat, k: Key)
    requires Inv(s) && Enabled(s, step) && e < |s.entries|
    ensures e < |Do(s, step).entries|
    ensures Noticed(s, e, k) ==> Noticed(Do(s, step), e, k)
    ensures Noticed(s, e, k) && step.Validate? && step.entry == e && k in s.txns[s.entries[e].txn].Keys()
        ==> Do(s, step).entries[e].status.Failed?
  {
    var s' := Do(s, step);
    EntriesGrow(s, step, e);
    CommittedGrows(s, step);
    assert EntryOk(s, e);
    if exists c :: s.entries[e].start <= c < s.entries[e].seen && c < |s.committed| && Writes(s, s.committed[c], k) {
      var c :| s.entries[e].start <= c < s.entries[e].seen && c < |s.committed| && Writes(s, s.committed[c], k);
      assert Writes(s', s'.committed[c], k);
    } else if Noticed(s, e, k) {
      var t :| t in s.entries[e].saved && Writes(s, t, k);
      assert t in s'.entries[e].saved && Writes(s', t, k);
    }
  }

  lemma NewEntryReads(s: State, i: TxnId)
    requires Inv(s) && Enabled(s, Enter(i)) && Quiet(s, Enter(i))
    ensures EntryReads(AfterEnter(s, i), |s.entries|)
  {
    var s', n := AfterEnter(s, i), |s.entries|;
    assert ReadsOk(s, i);
    DbAtFrame(s.db0, s.entries, s'.entries, n);
    forall k | k in s.txns[i].Keys()
      ensures Get(s.phases[i].got, k) == Get(DbAt(s.db0, s.entries, n), k) || Noticed(s', n, k)
    {
      if Overwritten(s, s.phases[i].start, k) {
        OverwrittenNoticed(s, i, k);
      } else {
        NoOneWrites(s, k);
      }
    }
  }

  lemma OverwrittenNoticed(s: State, i: TxnId, k: Key)
    requires Inv(s) && Enabled(s, Enter(i)) && Quiet(s, Enter(i)) && k in s.txns[i].Keys()
    requires Overwritten(s, s.phases[i].start, k)
    ensures Noticed(AfterEnter(s, i), |s.entries|, k)
  {
    var s', n := AfterEnter(s, i), |s.entries|;
    if exists c :: s.phases[i].start <= c < |s.committed| && Writes(s, s.committed[c], k) {
      var c :| s.phases[i].start <= c < |s.committed| && Writes(s, s.committed[c], k);
      assert Writes(s', s'.committed[c], k);
    } else {
      var e :| 0 <= e < n && Unpublished(s, s.entries[e].status) && Writes(s, s.entries[e].txn, k);
      assert EntryOk(s, e) && PhaseOk(s, s.entries[e].txn);
      assert s.entries[e].status.Leaving? ==> Apart(s, s.entries[e].txn, i);
      assert s.entries[e].txn in s'.entries[n].saved && Writes(s', s.entries[e].txn, k);
    }
  }

  // Storage has the serial value of k when no one is about to write it.
  lemma NoOneWrites(s: State, k: Key)
    requires Inv(s) && !Overwritten(s, |s.committed|, k)
    ensures Get(s.db, k) == Get(DbAt(s.db0, s.entries, |s.entries|), k)
  {
    forall e | 0 <= e < |s.entries| && s.entries[e].status.Applying? ensures k !in s.entries[e].status.todo {
      assert EntryOk(s, e) && Unpublished(s, s.entries[e].status);
    }
    SoFarAgrees(s.db0, s.entries, |s.entries|, k);
  }

  lemma OtherPhaseKept(s: State, step: Step, i: TxnId)
    requires Sized(s) && Enabled(s, step) && i < |s.txns| && PhaseOk(s, i) && i != Mover(s, step)
    ensures i < |Do(s, step).txns| && PhaseOk(Do(s, step), i)
  {
    OthersStay(s, step, i);
    CommittedGrows(s, step);
    var ph := s.phases[i];
    if ph.Entered? || ph.Returned? {
      EntriesGrow(s, step, ph.entry);
      EntryMoves(s, step, ph.entry);
    }
  }

  lemma OwnPhaseKept(s: State, step: Step)
    requires Sized(s) && Enabled(s, step) && ByEntry(step) && EntryOk(s, step.entry) && PhaseOk(s, Mover(s, step))
    ensures Mover(s, step) < |Do(s, step).txns| && PhaseOk(Do(s, step), Mover(s, step))
  {
    MoverLive(s, step);
    OwnPhase(s, step);
    EntriesGrow(s, step, step.entry);
    EntryMoves(s, step, step.entry);
  }

  lemma EarlyPhaseKept(s: State, step: Step)
    requires Sized(s) && ListsOk(s) && Enabled(s, step) && !ByEntry(step) && !step.Submit?
    requires Mover(s, step) < |s.txns| && PhaseOk(s, Mover(s, step))
    ensures Mover(s, step) < |Do(s, step).txns| && PhaseOk(Do(s, step), Mover(s, step))
  {
    if step.Assign? {
      assert s.requests[0] in s.requests;
    }
  }

  lemma PhaseKept(s: State, step: Step, i: TxnId)
    requires Sized(s) && ListsOk(s) && Enabled(s, step) && i < |s.txns| && PhaseOk(s, i)
    requires ByEntry(step) ==> EntryOk(s, step.entry)
    ensures i < |Do(s, step).txns| && PhaseOk(Do(s, step), i)
  {
    if i != Mover(s, step) {
      OtherPhaseKept(s, step, i);
    } else if ByEntry(step) {
      OwnPhaseKept(s, step);
    } else {
      EarlyPhaseKept(s, step);
    }
  }

  lemma StepKeeps(s: State, step: Step)
    requires Inv(s) && Quiet(s, step)
    ensures Inv(Do(s, step))
  {
    if Enabled(s, step) {
      ListsKept(s, step);
      SavedKept(s, step);
      DbKept(s, step);
      EntriesKept(s, step);
      TxnsKept(s, step);
    }
  }

  lemma EntriesKept(s: State, step: Step)
    requires Inv(s) && Enabled(s, step) && Quiet(s, step)
    ensures var s' := Do(s, step); forall e :: 0 <= e < |s'.entries| ==> EntryOk(s', e) && EntryReads(s', e)
  {
    var s' := Do(s, step);
    forall e | 0 <= e < |s'.entries| ensures EntryOk(s', e) && EntryReads(s', e) {
      if e < |s.entries| {
        EntryKept(s, step, e);
        EntryReadsKept(s, step, e);
      } else {
        NewEntry(s, step.id);
        NewEntryReads(s, step.id);
      }
    }
  }

  lemma TxnsKept(s: State, step: Step)
    requires Inv(s) && Enabled(s, step)
    ensures var s' := Do(s, step);
      && (forall i :: i in s'.active ==> i < |s'.txns|)
      && (forall i :: 0 <= i < |s'.txns| ==> ReadsOk(s', i) && PhaseOk(s', i))
  {
    var s' := Do(s, step);
    forall i | 0 <= i < |s'.txns| ensures ReadsOk(s', i) && PhaseOk(s', i) {
      if i < |s.txns| {
        ReadsKept(s, step, i);
        PhaseKept(s, step, i);
      }
    }
  }

  lemma {:induction false} RunKeeps(s: State, steps: seq<Step>)
    requires Inv(s) && QuietRun(s, steps)
    ensures Inv(RunFrom(s, steps))
  {
    if steps == [] {
    } else {
      var before := RunFrom(s, steps[..|steps| - 1]);
      assert Inv(before) by {
        RunKeeps(s, steps[..|steps| - 1]);
      }
      StepKeeps(before, steps[|steps| - 1]);
    }
  }

  // Published first, every run is quiet.
  lemma {:induction false} AlwaysQuiet(s: State, steps: seq<Step>)
    requires Sized(s) && s.publishFirst
    ensures QuietRun(s, steps)
  {
    if steps == [] {
    } else {
      AlwaysQuiet(s, steps[..|steps| - 1]);
    }
  }

  lemma Reachable(publishFirst: bool, db: Db, steps: seq<Step>)
    requires QuietRun(Init(publishFirst, db), steps)
    ensures Inv(Run(publishFirst, db, steps))
  {
    RunKeeps(Init(publishFirst, db), steps);
  }
}
