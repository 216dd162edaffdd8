/**
 Transactions as the schedulers see them: a declared read set, a declared write
 set and program logic that turns the values read into a vote and a write buffer.
 The module also holds the sequential reference: running programs one after the
 other against one database, which is what the serial scheduler does.
 */
module Txns {

  const TWO_64: nat := 0x1_0000_0000_0000_0000

  // Key and Value are 64-bit unsigned integers in the source.
  type Key = nat
  type Value = v: nat | v < TWO_64
  type Db = map<Key, Value>

  datatype Option<+T> = None | Some(value: T)

  const INITIAL_RECORDS: nat := 1000000

  function Get(db: Db, k: Key): Option<Value> {
    if k in db then Some(db[k]) else None
  }

  // The vote of a finished transaction and its write buffer.
  datatype Outcome = Outcome(commit: bool, writes: map<Key, Value>)

  datatype Program = Program(readset: set<Key>, writeset: set<Key>, run: map<Key, Value> -> Outcome) {
    // Txn::Write ends the process when the key is not in the write set.
    ghost predicate Valid() {
      forall r :: run(r).writes.Keys <= writeset
    }

    function Keys(): set<Key> {
      readset + writeset
    }
  }

  type Logic = p: Program | p.Valid() witness Program({}, {}, _ => Outcome(true, map[]))

  // Some write that t declares is to a key of p's read set or write set.
  predicate Overlapping(p: Logic, t: Logic) {
    exists k :: (k in p.readset || k in p.writeset) && k in t.writeset
  }

  // What a transaction finds when it got all of its keys in one go.
  function ReadsOf(p: Logic, db: Db): map<Key, Value> {
    map k | k in p.Keys() && k in db :: db[k]
  }

  // The vote and write buffer of a transaction that runs alone on db.
  function Exec(p: Logic, db: Db): Outcome {
    p.run(ReadsOf(p, db))
  }

  // The part of a write buffer that has been applied when todo is still to come.
  function Applied(writes: map<Key, Value>, todo: set<Key>): map<Key, Value> {
    map k | k in writes && k !in todo :: writes[k]
  }

  lemma ApplyOne(base: Db, writes: map<Key, Value>, todo: set<Key>, k: Key)
    requires k in writes
    ensures base + Applied(writes, todo - {k}) == (base + Applied(writes, todo))[k := writes[k]]
  {
  }

  lemma ApplyEnds(base: Db, writes: map<Key, Value>)
    ensures base + Applied(writes, {}) == base + writes
    ensures base + Applied(writes, writes.Keys) == base
  {
  }

  function SerialStep(p: Logic, db: Db): Db {
    var out := Exec(p, db);
    if out.commit then db + out.writes else db
  }

  // The database after the first n programs of ps ran one after the other.
  function Serial(ps: seq<Logic>, n: nat, db: Db): Db
    requires n <= |ps|
  {
    if n == 0 then db else SerialStep(ps[n - 1], Serial(ps, n - 1, db))
  }

  // A longer list has the same serial prefixes.
  lemma {:induction false} SerialPrefix(ps: seq<Logic>, qs: seq<Logic>, n: nat, db: Db)
    requires n <= |ps| && n <= |qs|
    requires forall i :: 0 <= i < n ==> ps[i] == qs[i]
    ensures Serial(ps, n, db) == Serial(qs, n, db)
  {
    if n == 0 {
    } else {
      SerialPrefix(ps, qs, n - 1, db);
    }
  }

  // Programs that do not declare k as a write leave k alone.
  lemma {:induction false} SerialSkips(ps: seq<Logic>, i: nat, j: nat, db: Db, k: Key)
    requires i <= j <= |ps|
    requires forall m :: i <= m < j ==> k !in ps[m].writeset
    ensures Get(Serial(ps, i, db), k) == Get(Serial(ps, j, db), k)
  {
    if i == j {
    } else {
      SerialSkips(ps, i, j - 1, db, k);
      assert k !in ps[j - 1].writeset;
    }
  }

  // A collection of reads agrees with db on a transaction's keys exactly when
  // it is what the transaction would read from db.
  lemma ReadsAgree(p: Logic, got: map<Key, Value>, db: Db)
    requires got.Keys <= p.Keys()
    ensures (forall k :: k in p.Keys() ==> Get(got, k) == Get(db, k)) <==> got == ReadsOf(p, db)
  {
    var r := ReadsOf(p, db);
    if forall k :: k in p.Keys() ==> Get(got, k) == Get(db, k) {
      assert forall k :: k in p.Keys() ==> Get(got, k) == Get(r, k);
      assert forall k :: k in got <==> k in r by {
        forall k ensures k in got <==> k in r {
          if k in p.Keys() { assert Get(got, k) == Get(r, k); }
        }
      }
    }
  }

  lemma SameDb(a: Db, b: Db)
    requires forall k :: Get(a, k) == Get(b, k)
    ensures a == b
  {
    forall k ensures k in a <==> k in b {
      assert Get(a, k) == Get(b, k);
    }
    forall k | k in a ensures a[k] == b[k] {
      assert Get(a, k) == Get(b, k);
    }
  }

  /******* The transaction types of the repository *******/

  datatype Kind =
    | Noop
    | Expect(expected: map<Key, Value>)
    | Put(puts: map<Key, Value>)
    | Rmw(readset: set<Key>, writeset: set<Key>)

  // Arithmetic on values is modulo 2^64.
  function Wrap(n: nat): Value {
    n % TWO_64
  }

  function Incr(v: Value): Value {
    Wrap(v + 1)
  }

  function ValueOr0(db: Db, k: Key): Value {
    if k in db then db[k] else 0
  }

  function LogicOf(kind: Kind): Logic {
    match kind
    case Noop => Program({}, {}, _ => Outcome(true, map[]))
    case Expect(m) =>
      Program(m.Keys, {}, got => Outcome(forall k :: k in m ==> k in got && got[k] == m[k], map[]))
    case Put(m) => Program({}, m.Keys, _ => Outcome(true, m))
    case Rmw(rs, ws) =>
      Program(rs, ws, got => Outcome(true, map k | k in ws :: Incr(ValueOr0(got, k))))
  }

  /******* What each of them does *******/

  // The sets that each type declares.
  lemma DeclaredSets(kind: Kind)
    ensures kind.Noop? ==> LogicOf(kind).readset == {} && LogicOf(kind).writeset == {}
    ensures kind.Expect? ==> LogicOf(kind).readset == kind.expected.Keys && LogicOf(kind).writeset == {}
    ensures kind.Put? ==> LogicOf(kind).readset == {} && LogicOf(kind).writeset == kind.puts.Keys
    ensures kind.Rmw? ==> LogicOf(kind).readset == kind.readset && LogicOf(kind).writeset == kind.writeset
  {
  }

  // A put always commits and leaves each of its keys at the value given, and all
  // others as they were.
  lemma PutDoes(m: map<Key, Value>, db: Db)
    ensures Exec(LogicOf(Put(m)), db).commit
    ensures forall k :: Get(SerialStep(LogicOf(Put(m)), db), k) == if k in m then Some(m[k]) else Get(db, k)
  {
    assert LogicOf(Put(m)).run(ReadsOf(LogicOf(Put(m)), db)) == Outcome(true, m);
  }

  // An expectation commits if and only if every record it names has the value
  // it names, and changes nothing either way.
  lemma ExpectDoes(m: map<Key, Value>, db: Db)
    ensures Exec(LogicOf(Expect(m)), db).commit <==> forall k :: k in m ==> Get(db, k) == Some(m[k])
    ensures SerialStep(LogicOf(Expect(m)), db) == db
  {
    var p := LogicOf(Expect(m));
    var got := ReadsOf(p, db);
    assert p.run(got) == Outcome(forall k :: k in m ==> k in got && got[k] == m[k], map[]);
    assert forall k :: k in m ==> Get(got, k) == Get(db, k);
  }

  lemma NoopDoes(db: Db)
    ensures Exec(LogicOf(Noop), db).commit && SerialStep(LogicOf(Noop), db) == db
  {
    assert LogicOf(Noop).run(ReadsOf(LogicOf(Noop), db)) == Outcome(true, map[]);
  }

  // What has been put is found again, by whoever expects it before another
  // transaction declares one of the keys as a write.
  lemma PutThenExpect(ps: seq<Logic>, i: nat, j: nat, m: map<Key, Value>, db: Db)
    requires i < j < |ps| && ps[i] == LogicOf(Put(m)) && ps[j] == LogicOf(Expect(m))
    requires forall n, k :: i < n < j && k in m ==> k !in ps[n].writeset
    ensures Exec(ps[j], Serial(ps, j, db)).commit
  {
    PutDoes(m, Serial(ps, i, db));
    ExpectDoes(m, Serial(ps, j, db));
    forall k | k in m ensures Get(Serial(ps, j, db), k) == Some(m[k]) {
      SerialSkips(ps, i + 1, j, db, k);
      assert Serial(ps, i + 1, db) == SerialStep(ps[i], Serial(ps, i, db));
    }
  }

  // An increment adds one, modulo 2^64, to the records of its write set, missing
  // ones counting as zero, and changes nothing else.
  lemma RmwDoes(rs: set<Key>, ws: set<Key>, db: Db)
    ensures Exec(LogicOf(Rmw(rs, ws)), db).commit
    ensures var db' := SerialStep(LogicOf(Rmw(rs, ws)), db);
      && (forall k :: k in ws ==> Get(db', k) == Some(((if k in db then db[k] else 0) + 1) % TWO_64))
      && (forall k :: k !in ws ==> Get(db', k) == Get(db, k))
  {
    var p := LogicOf(Rmw(rs, ws));
    var got := ReadsOf(p, db);
    assert p.run(got) == Outcome(true, map k | k in ws :: Incr(ValueOr0(got, k)));
    assert forall k :: k in ws ==> ValueOr0(got, k) == ValueOr0(db, k);
  }

  function Increment(k: Key): Logic {
    LogicOf(Rmw({}, {k}))
  }

  lemma IncrementRuns(k: Key, got: map<Key, Value>)
    ensures Increment(k).run(got) == Outcome(true, map[k := Incr(ValueOr0(got, k))])
    ensures Increment(k).Keys() == {k} && Increment(k).writeset == {k}
  {
    assert Increment(k).run(got) == Outcome(true, map m | m in {k} :: Incr(ValueOr0(got, m)));
  }

  // ps are read-modify-write transactions, as described by kinds.
  ghost predicate RmwWorkload(ps: seq<Logic>, kinds: seq<Kind>) {
    |ps| == |kinds| && forall i :: 0 <= i < |ps| ==> IsRmw(ps, kinds, i)
  }

  ghost predicate IsRmw(ps: seq<Logic>, kinds: seq<Kind>, i: nat)
    requires i < |ps| == |kinds|
  {
    kinds[i].Rmw? && ps[i] == LogicOf(kinds[i])
  }

  // How many of the first n programs have k in their write set.
  function Writers(ps: seq<Logic>, n: nat, k: Key): nat
    requires n <= |ps|
  {
    if n == 0 then 0 else Writers(ps, n - 1, k) + if k in ps[n - 1].writeset then 1 else 0
  }

  lemma CountOne(total: nat)
    ensures Incr(Wrap(total)) == Wrap(total + 1)
  {
    assert total + 1 == (total / TWO_64) * TWO_64 + (total % TWO_64 + 1);
  }

  // One read-modify-write transaction adds one to its write set and to nothing else.
  lemma RmwStep(kind: Kind, db: Db, k: Key)
    requires kind.Rmw?
    ensures ValueOr0(SerialStep(LogicOf(kind), db), k)
         == if k in kind.writeset then Incr(ValueOr0(db, k)) else ValueOr0(db, k)
  {
    var p := LogicOf(kind);
    assert p.run(ReadsOf(p, db)) == Outcome(true, map k | k in kind.writeset :: Incr(ValueOr0(ReadsOf(p, db), k)));
  }

  lemma RmwStepCounts(kind: Kind, db: Db, k: Key, total: nat)
    requires kind.Rmw? && ValueOr0(db, k) == Wrap(total)
    ensures ValueOr0(SerialStep(LogicOf(kind), db), k) == Wrap(total + if k in kind.writeset then 1 else 0)
  {
    RmwStep(kind, db, k);
    CountOne(total);
  }

  lemma RmwNone(ps: seq<Logic>, db: Db, k: Key)
    ensures ValueOr0(Serial(ps, 0, db), k) == Wrap(ValueOr0(db, k) + Writers(ps, 0, k))
  {
    var v := ValueOr0(db, k);
    assert Writers(ps, 0, k) == 0 && Wrap(v) == v;
  }

  lemma RmwNext(ps: seq<Logic>, kinds: seq<Kind>, n: nat, db: Db, k: Key)
    requires RmwWorkload(ps, kinds) && n < |ps|
    requires ValueOr0(Serial(ps, n, db), k) == Wrap(ValueOr0(db, k) + Writers(ps, n, k))
    ensures ValueOr0(Serial(ps, n + 1, db), k) == Wrap(ValueOr0(db, k) + Writers(ps, n + 1, k))
  {
    var total := ValueOr0(db, k) + Writers(ps, n, k);
    assert IsRmw(ps, kinds, n);
    RmwStepCounts(kinds[n], Serial(ps, n, db), k, total);
    assert Writers(ps, n + 1, k) == Writers(ps, n, k) + if k in kinds[n].writeset then 1 else 0;
  }

  lemma {:induction false} RmwPrefix(ps: seq<Logic>, kinds: seq<Kind>, n: nat, db: Db, k: Key)
    requires RmwWorkload(ps, kinds) && n <= |ps|
    ensures ValueOr0(Serial(ps, n, db), k) == Wrap(ValueOr0(db, k) + Writers(ps, n, k))
  {
    if n == 0 {
      RmwNone(ps, db, k);
    } else {
      RmwPrefix(ps, kinds, n - 1, db, k);
      RmwNext(ps, kinds, n - 1, db, k);
    }
  }

  // Every key has grown by the number of programs that declare it as a write.
  ghost predicate Counted(ps: seq<Logic>, db: Db, final: Db) {
    forall k :: ValueOr0(final, k) == Wrap(ValueOr0(db, k) + Writers(ps, |ps|, k))
  }

  // No update is lost when read-modify-write transactions run one after the other.
  lemma NoLostUpdates(ps: seq<Logic>, kinds: seq<Kind>, db: Db)
    requires RmwWorkload(ps, kinds)
    ensures Counted(ps, db, Serial(ps, |ps|, db))
  {
    forall k {
      RmwPrefix(ps, kinds, |ps|, db, k);
    }
  }

  /******* Serial orders other than the order of arrival *******/

  ghost predicate Distinct(ids: seq<nat>) {
    forall i, j :: 0 <= i < j < |ids| ==> ids[i] != ids[j]
  }

  // q2 is q1 after departures from its front and arrivals at its back.
  ghost predicate Advances(q1: seq<nat>, q2: seq<nat>) {
    exists n :: 0 <= n <= |q1| && q1[n..] <= q2
  }

  lemma AdvancesPlus(q: seq<nat>, more: seq<nat>)
    ensures Advances(q, q + more)
  {
    assert q[0..] <= q + more;
  }

  lemma AdvancesPop(q: seq<nat>, more: seq<nat>)
    requires q != []
    ensures Advances(q, q[1..]) && Advances(q, q[1..] + more)
  {
    assert q[1..] <= q[1..] + more;
  }

  lemma AdvancesOn(q1: seq<nat>, q2: seq<nat>, q3: seq<nat>)
    requires Advances(q1, q2) && Advances(q2, q3)
    ensures Advances(q1, q3)
  {
    var m :| 0 <= m <= |q1| && q1[m..] <= q2;
    var n :| 0 <= n <= |q2| && q2[n..] <= q3;
    if n <= |q1| - m {
      assert q1[m + n..] == q1[m..][n..] <= q2[n..];
    } else {
      assert q1[|q1|..] == [];
    }
  }

  lemma PopFront(ids: seq<nat>)
    requires Distinct(ids) && ids != []
    ensures Distinct(ids[1..])
    ensures forall x :: x in ids[1..] <==> x in ids && x != ids[0]
  {
    assert ids == [ids[0]] + ids[1..];
  }

  lemma PushBack(ids: seq<nat>, x: nat)
    requires Distinct(ids) && x !in ids
    ensures Distinct(ids + [x])
    ensures forall y :: y in ids + [x] <==> y in ids || y == x
  {
  }

  lemma {:induction false} CountDistinct(ids: seq<nat>, x: nat)
    requires Distinct(ids)
    ensures multiset(ids)[x] == if x in ids then 1 else 0
  {
    if ids == [] {
    } else {
      var front, last := ids[..|ids| - 1], ids[|ids| - 1];
      assert ids == front + [last];
      CountDistinct(front, x);
      assert last !in front;
    }
  }

  // The programs of txns that ids names, in that order.
  function Pick(txns: seq<Logic>, ids: seq<nat>): (ps: seq<Logic>)
    requires forall r :: 0 <= r < |ids| ==> ids[r] < |txns|
    ensures |ps| == |ids| && forall r :: 0 <= r < |ids| ==> ps[r] == txns[ids[r]]
  {
    seq(|ids|, r requires 0 <= r < |ids| => txns[ids[r]])
  }

  // One more transaction at the end of a serial order.
  lemma SerialAppend(txns: seq<Logic>, ids: seq<nat>, i: nat, db: Db)
    requires i < |txns| && forall r :: 0 <= r < |ids| ==> ids[r] < |txns|
    ensures Serial(Pick(txns, ids + [i]), |ids| + 1, db)
         == SerialStep(txns[i], Serial(Pick(txns, ids), |ids|, db))
  {
    assert Pick(txns, ids + [i])[|ids|] == txns[i];
    SerialPrefix(Pick(txns, ids), Pick(txns, ids + [i]), |ids|, db);
  }

  // Those of the first n in ids that have k in their write set.
  function WriterSet(txns: seq<Logic>, ids: seq<nat>, n: nat, k: Key): set<nat>
    requires forall r :: 0 <= r < |ids| ==> ids[r] < |txns|
    requires n <= |ids|
  {
    if n == 0 then {}
    else WriterSet(txns, ids, n - 1, k) + if k in txns[ids[n - 1]].writeset then {ids[n - 1]} else {}
  }

  lemma {:induction false} WriterSetMembers(txns: seq<Logic>, ids: seq<nat>, n: nat, k: Key, x: nat)
    requires forall r :: 0 <= r < |ids| ==> ids[r] < |txns|
    requires n <= |ids|
    ensures x in WriterSet(txns, ids, n, k) <==> x in ids[..n] && k in txns[x].writeset
  {
    if n == 0 {
    } else {
      WriterSetMembers(txns, ids, n - 1, k, x);
      assert ids[..n] == ids[..n - 1] + [ids[n - 1]];
    }
  }

  lemma {:induction false} WritersAsSet(ps: seq<Logic>, txns: seq<Logic>, ids: seq<nat>, n: nat, k: Key)
    requires |ps| == |ids| && forall r :: 0 <= r < |ids| ==> ids[r] < |txns| && ps[r] == txns[ids[r]]
    requires Distinct(ids) && n <= |ids|
    ensures Writers(ps, n, k) == |WriterSet(txns, ids, n, k)|
  {
    if n == 0 {
      assert WriterSet(txns, ids, 0, k) == {};
    } else {
      WritersAsSet(ps, txns, ids, n - 1, k);
      OneWriterMore(txns, ids, n - 1, k);
    }
  }

  lemma OneWriterMore(txns: seq<Logic>, ids: seq<nat>, n: nat, k: Key)
    requires forall r :: 0 <= r < |ids| ==> ids[r] < |txns|
    requires Distinct(ids) && n < |ids|
    ensures |WriterSet(txns, ids, n + 1, k)|
         == |WriterSet(txns, ids, n, k)| + if k in txns[ids[n]].writeset then 1 else 0
  {
    WriterSetMembers(txns, ids, n, k, ids[n]);
    assert ids[n] !in ids[..n];
  }

  function Identity(n: nat): (ids: seq<nat>)
    ensures |ids| == n && forall i :: 0 <= i < n ==> ids[i] == i
  {
    seq(n, i => i)
  }

  // A permutation of the programs has as many writers of each key.
  lemma WritersPermuted(txns: seq<Logic>, ids: seq<nat>, k: Key)
    requires forall r :: 0 <= r < |ids| ==> ids[r] < |txns|
    requires Distinct(ids) && forall i :: 0 <= i < |txns| ==> i in ids
    ensures Writers(Pick(txns, ids), |ids|, k) == Writers(txns, |txns|, k)
  {
    WritersAsSet(Pick(txns, ids), txns, ids, |ids|, k);
    WritersAsSet(txns, txns, Identity(|txns|), |txns|, k);
    SameWriters(txns, ids, k);
  }

  lemma SameWriters(txns: seq<Logic>, ids: seq<nat>, k: Key)
    requires forall r :: 0 <= r < |ids| ==> ids[r] < |txns|
    requires forall i :: 0 <= i < |txns| ==> i in ids
    ensures WriterSet(txns, ids, |ids|, k) == WriterSet(txns, Identity(|txns|), |txns|, k)
  {
    var all := Identity(|txns|);
    forall i | 0 <= i < |txns| ensures i in all {
      assert all[i] == i;
    }
    forall x: nat ensures x in WriterSet(txns, ids, |ids|, k) <==> x in WriterSet(txns, all, |txns|, k) {
      AllWriters(txns, ids, k, x);
      AllWriters(txns, all, k, x);
    }
  }

  lemma AllWriters(txns: seq<Logic>, ids: seq<nat>, k: Key, x: nat)
    requires forall r :: 0 <= r < |ids| ==> ids[r] < |txns|
    requires forall i :: 0 <= i < |txns| ==> i in ids
    ensures x in WriterSet(txns, ids, |ids|, k) <==> x < |txns| && k in txns[x].writeset
  {
    WriterSetMembers(txns, ids, |ids|, k, x);
    assert ids[..|ids|] == ids;
  }

  // So the count is the same whatever serial order the schedule amounts to.
  lemma NoLostUpdatesInAnyOrder(txns: seq<Logic>, kinds: seq<Kind>, ids: seq<nat>, db: Db)
    requires RmwWorkload(txns, kinds)
    requires forall r :: 0 <= r < |ids| ==> ids[r] < |txns|
    requires Distinct(ids) && forall i :: 0 <= i < |txns| ==> i in ids
    ensures Counted(txns, db, Serial(Pick(txns, ids), |ids|, db))
  {
    var ps := Pick(txns, ids);
    var kinds' := seq(|ids|, r requires 0 <= r < |ids| => kinds[ids[r]]);
    forall r | 0 <= r < |ids| ensures IsRmw(ps, kinds', r) {
      assert IsRmw(txns, kinds, ids[r]);
    }
    NoLostUpdates(ps, kinds', db);
    forall k ensures ValueOr0(Serial(ps, |ids|, db), k) == Wrap(ValueOr0(db, k) + Writers(txns, |txns|, k)) {
      WritersPermuted(txns, ids, k);
    }
  }

  // A list of distinct numbers below n that leaves one of them out is shorter than n.
  lemma DistinctBelow(ids: seq<nat>, n: nat, missing: nat)
    requires Distinct(ids) && missing < n && missing !in ids
    requires forall r :: 0 <= r < |ids| ==> ids[r] < n
    ensures |ids| < n
  {
    var all := Identity(n);
    DistinctCount(ids, |ids|);
    DistinctCount(all, n);
    var used, range := (set r | 0 <= r < |ids| :: ids[r]), (set r | 0 <= r < n :: all[r]);
    assert used < range by {
      assert all[missing] in range;
      forall x | x in used ensures x in range {
        assert all[x] == x;
      }
    }
    SubsetSize(used, range);
  }

  lemma {:induction false} DistinctCount(ids: seq<nat>, n: nat)
    requires Distinct(ids) && n <= |ids|
    ensures |set r | 0 <= r < n :: ids[r]| == n
  {
    if n == 0 {
    } else {
      DistinctCount(ids, n - 1);
      var before := set r | 0 <= r < n - 1 :: ids[r];
      assert (set r | 0 <= r < n :: ids[r]) == before + {ids[n - 1]};
    }
  }

  lemma {:induction false} SubsetSize<T>(a: set<T>, b: set<T>)
    requires a <= b
    ensures |a| <= |b| && (a < b ==> |a| < |b|)
  {
    if a == {} {
    } else {
      var x :| x in a;
      SubsetSize(a - {x}, b - {x});
    }
  }
}
