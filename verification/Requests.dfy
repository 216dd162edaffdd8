/**
 Requests of the first assignment: each adds an update to every field of the
 records it names, modulo 2^64. Adding in any order gives the same records.
 */
module Requests {
  import opened Txns

  // RECORD_SIZE / FIELD_SIZE.
  const FIELDS: nat := 10

  type Record = r: seq<Value> | |r| == FIELDS witness seq(FIELDS, _ => 0)

  datatype Request = Request(writes: seq<nat>, updates: Record)

  ghost predicate InRange(req: Request, size: nat) {
    forall j :: 0 <= j < |req.writes| ==> req.writes[j] < size
  }

  function Sum(a: Value, b: Value): Value {
    var total: nat := a + b;
    Wrap(total)
  }

  function Plus(record: Record, updates: Record): Record {
    seq(FIELDS, f requires 0 <= f < FIELDS => Sum(record[f], updates[f]))
  }

  // The first m writes of req.
  function Written(db: seq<Record>, req: Request, m: nat): (db': seq<Record>)
    requires InRange(req, |db|) && m <= |req.writes|
    ensures |db'| == |db|
  {
    if m == 0 then db
    else
      var before := Written(db, req, m - 1);
      before[req.writes[m - 1] := Plus(before[req.writes[m - 1]], req.updates)]
  }

  // The first n requests one after the other.
  function Sequential(db: seq<Record>, reqs: seq<Request>, n: nat): (db': seq<Record>)
    requires n <= |reqs| && forall i :: 0 <= i < |reqs| ==> InRange(reqs[i], |db|)
    ensures |db'| == |db|
  {
    if n == 0 then db else Written(Sequential(db, reqs, n - 1), reqs[n - 1], |reqs[n - 1].writes|)
  }

  // What the first m writes of req add to field f of record r.
  function Adds(req: Request, m: nat, r: nat, f: nat): nat
    requires m <= |req.writes| && f < FIELDS
  {
    if m == 0 then 0 else Adds(req, m - 1, r, f) + if req.writes[m - 1] == r then req.updates[f] else 0
  }

  // What the first n requests add to it.
  function Total(reqs: seq<Request>, n: nat, r: nat, f: nat): nat
    requires n <= |reqs| && f < FIELDS
  {
    if n == 0 then 0 else Total(reqs, n - 1, r, f) + Adds(reqs[n - 1], |reqs[n - 1].writes|, r, f)
  }

  lemma WrapPlus(a: nat, b: nat)
    ensures Wrap(Wrap(a) + b) == Wrap(a + b)
  {
    assert a + b == TWO_64 * (a / TWO_64) + (a % TWO_64 + b);
    ModShift(a % TWO_64 + b, a / TWO_64);
  }

  lemma {:induction false} ModShift(x: nat, q: nat)
    ensures (TWO_64 * q + x) % TWO_64 == x % TWO_64
  {
    if q == 0 {
    } else {
      ModShift(x, q - 1);
      assert TWO_64 * q + x == TWO_64 * (q - 1) + x + TWO_64;
    }
  }

  lemma {:induction false} WrittenFields(db: seq<Record>, req: Request, m: nat, r: nat, f: nat, base: nat)
    requires InRange(req, |db|) && m <= |req.writes| && r < |db| && f < FIELDS
    requires db[r][f] == Wrap(base)
    ensures Written(db, req, m)[r][f] == Wrap(base + Adds(req, m, r, f))
  {
    if m == 0 {
    } else {
      WrittenFields(db, req, m - 1, r, f, base);
      WrapPlus(base + Adds(req, m - 1, r, f), req.updates[f]);
    }
  }

  lemma {:induction false} SequentialFields(db: seq<Record>, reqs: seq<Request>, n: nat, r: nat, f: nat)
    requires n <= |reqs| && forall i :: 0 <= i < |reqs| ==> InRange(reqs[i], |db|)
    requires r < |db| && f < FIELDS
    ensures Sequential(db, reqs, n)[r][f] == Wrap(db[r][f] + Total(reqs, n, r, f))
  {
    if n == 0 {
    } else {
      SequentialFields(db, reqs, n - 1, r, f);
      var before := Sequential(db, reqs, n - 1);
      WrittenFields(before, reqs[n - 1], |reqs[n - 1].writes|, r, f, db[r][f] + Total(reqs, n - 1, r, f));
    }
  }

  // Records in place.
  class Database {
    const records: array2<Value>

    ghost predicate Valid() {
      records.Length1 == FIELDS
    }

    ghost function Contents(): (db: seq<Record>)
      requires Valid()
      reads records
      ensures |db| == records.Length0
      ensures forall r, f :: 0 <= r < |db| && 0 <= f < FIELDS ==> db[r][f] == records[r, f]
    {
      seq(records.Length0, r requires 0 <= r < records.Length0 reads records =>
        seq(FIELDS, f requires 0 <= f < FIELDS reads records => records[r, f]))
    }

    // The initial contents are random in the source.
    constructor (initial: seq<Record>)
      ensures Valid() && fresh(records) && Contents() == initial
    {
      records := new Value[|initial|, FIELDS]((r, f) requires 0 <= r < |initial| && 0 <= f < FIELDS => initial[r][f]);
      new;
      forall r | 0 <= r < |initial| ensures Contents()[r] == initial[r] {
        assert forall f :: 0 <= f < FIELDS ==> Contents()[r][f] == initial[r][f];
      }
    }

    method DoWrite(k: nat, updates: Record)
      requires Valid() && k < records.Length0
      modifies records
      ensures Contents() == old(Contents())[k := Plus(old(Contents())[k], updates)]
    {
      ghost var before := Contents();
      for i := 0 to FIELDS
        invariant forall r, f :: 0 <= r < records.Length0 && 0 <= f < FIELDS ==>
          records[r, f] == if r == k && f < i then Sum(before[r][f], updates[f]) else before[r][f]
      {
        records[k, i] := Sum(records[k, i], updates[i]);
      }
      forall r | 0 <= r < records.Length0 ensures Contents()[r] == before[k := Plus(before[k], updates)][r] {
        assert forall f :: 0 <= f < FIELDS ==> Contents()[r][f] == before[k := Plus(before[k], updates)][r][f];
      }
    }

    // No two neighbours in the write set are equal; the process stops otherwise.
    method Txn(req: Request)
      requires Valid() && InRange(req, records.Length0)
      requires forall j :: 0 < j < |req.writes| ==> req.writes[j - 1] != req.writes[j]
      modifies records
      ensures Contents() == Written(old(Contents()), req, |req.writes|)
    {
      for i := 0 to |req.writes|
        invariant Contents() == Written(old(Contents()), req, i)
      {
        DoWrite(req.writes[i], req.updates);
      }
    }
  }
}
