/**
 Version lists of multiversion storage, newest first, and what reading, checking
 and writing at a timestamp mean for them.
 */
module Versions {
  import opened Txns

  type Ts = nat

  datatype Version = Version(value: Value, maxRead: Ts, id: Ts)

  ghost predicate Sorted(vs: seq<Version>) {
    forall p, q :: 0 <= p < q < |vs| ==> vs[p].id >= vs[q].id
  }

  ghost predicate Strict(vs: seq<Version>) {
    forall p, q :: 0 <= p < q < |vs| ==> vs[p].id > vs[q].id
  }

  // A version was read no earlier than it was written and, if there is a newer
  // one, by no transaction after the one that wrote that.
  ghost predicate Orderly(vs: seq<Version>) {
    && Strict(vs)
    && (forall p :: 0 <= p < |vs| ==> vs[p].id <= vs[p].maxRead)
    && (forall p, q :: 0 <= p < q < |vs| ==> vs[q].maxRead <= vs[p].id)
  }

  // The first position from p on whose version is at or below ts.
  function FindFrom(vs: seq<Version>, ts: Ts, p: nat): (r: nat)
    requires p <= |vs|
    ensures p <= r <= |vs| && (r < |vs| ==> vs[r].id <= ts)
    ensures forall q :: p <= q < r ==> vs[q].id > ts
    decreases |vs| - p
  {
    if p == |vs| || vs[p].id <= ts then p else FindFrom(vs, ts, p + 1)
  }

  function Find(vs: seq<Version>, ts: Ts): (r: nat)
    ensures r <= |vs| && (r < |vs| ==> vs[r].id <= ts)
    ensures forall q :: 0 <= q < r ==> vs[q].id > ts
  {
    FindFrom(vs, ts, 0)
  }

  function LatestAt(vs: seq<Version>, ts: Ts): Option<Version> {
    var p := Find(vs, ts);
    if p < |vs| then Some(vs[p]) else None
  }

  function ReadAt(vs: seq<Version>, ts: Ts): Option<Value> {
    var v := LatestAt(vs, ts);
    if v.Some? then Some(v.value.value) else None
  }

  function Max(a: nat, b: nat): nat {
    if a < b then b else a
  }

  // Reading raises the read timestamp of the version that is read.
  function Mark(vs: seq<Version>, ts: Ts): (r: seq<Version>)
    ensures |r| == |vs|
    ensures forall p :: 0 <= p < |vs| ==>
      r[p] == if p == Find(vs, ts) then vs[p].(maxRead := Max(vs[p].maxRead, ts)) else vs[p]
  {
    var p := Find(vs, ts);
    if p < |vs| then vs[p := vs[p].(maxRead := Max(vs[p].maxRead, ts))] else vs
  }

  // A write at ts is safe if no later transaction has read what it supersedes.
  predicate Passes(vs: seq<Version>, ts: Ts) {
    var p := Find(vs, ts);
    p < |vs| ==> vs[p].maxRead <= ts
  }

  function Insert(vs: seq<Version>, value: Value, ts: Ts): seq<Version> {
    var p := Find(vs, ts);
    vs[..p] + [Version(value, ts, ts)] + vs[p..]
  }

  // What the transaction with timestamp ts finds before it writes itself.
  function LatestBefore(vs: seq<Version>, ts: Ts): Option<Version> {
    if ts == 0 then None else LatestAt(vs, ts - 1)
  }

  // The version before ts bears the mark of having been read at ts.
  predicate Marked(vs: seq<Version>, ts: Ts) {
    LatestBefore(vs, ts).Some? && LatestBefore(vs, ts).value.maxRead >= ts
  }

  ghost predicate Has(vs: seq<Version>, id: Ts, value: Value) {
    exists p :: 0 <= p < |vs| && vs[p].id == id && vs[p].value == value
  }

  // Lookup without reference to the order of the list.
  ghost predicate IsLatest(vs: seq<Version>, ts: Ts, v: Version) {
    && v in vs && v.id <= ts
    && forall u :: u in vs && u.id <= ts ==> u.id <= v.id
  }

  // Scanning a list from the front finds the version with the largest id at or
  // below the timestamp, and finds none exactly when there is none.
  lemma FindsLatest(vs: seq<Version>, ts: Ts)
    requires Strict(vs)
    ensures forall v :: LatestAt(vs, ts) == Some(v) <==> IsLatest(vs, ts, v)
    ensures LatestAt(vs, ts).None? <==> forall u :: u in vs ==> u.id > ts
  {
    var p := Find(vs, ts);
    forall v | IsLatest(vs, ts, v) ensures LatestAt(vs, ts) == Some(v) {
      var q :| 0 <= q < |vs| && vs[q] == v;
      assert p <= q && vs[p] in vs;
    }
    if p < |vs| {
      assert vs[p] in vs;
      forall u | u in vs && u.id <= ts ensures u.id <= vs[p].id {
        var q :| 0 <= q < |vs| && vs[q] == u;
      }
    }
  }

  lemma FindUnique(vs: seq<Version>, ts: Ts, p: nat)
    requires p <= |vs| && (p < |vs| ==> vs[p].id <= ts)
    requires forall q :: 0 <= q < p ==> vs[q].id > ts
    ensures Find(vs, ts) == p
  {
  }

  // An insertion moves what is at or below its timestamp back by one.
  lemma InsertAt(vs: seq<Version>, value: Value, ts: Ts)
    ensures var p, vs' := Find(vs, ts), Insert(vs, value, ts);
      && |vs'| == |vs| + 1
      && forall r :: 0 <= r < |vs'| ==>
           vs'[r] == if r < p then vs[r] else if r == p then Version(value, ts, ts) else vs[r - 1]
  {
  }

  // Where lookups land after an insertion.
  lemma FindInserted(vs: seq<Version>, value: Value, ts: Ts, t: Ts)
    requires Sorted(vs)
    ensures var r := Find(Insert(vs, value, ts), t);
      if t < ts then r == Find(vs, t) + 1
      else r == if Find(vs, t) < Find(vs, ts) then Find(vs, t) else Find(vs, ts)
    ensures LatestAt(Insert(vs, value, ts), t)
      == if t >= ts && Find(vs, t) == Find(vs, ts) then Some(Version(value, ts, ts)) else LatestAt(vs, t)
  {
    var p, q, vs' := Find(vs, ts), Find(vs, t), Insert(vs, value, ts);
    InsertAt(vs, value, ts);
    if t < ts {
      FindUnique(vs', t, q + 1);
    } else {
      FindUnique(vs', t, if q < p then q else p);
    }
  }

  // In a sorted list everything from the position found on is at or below ts.
  lemma BelowFound(vs: seq<Version>, ts: Ts)
    requires Sorted(vs)
    ensures forall q :: Find(vs, ts) <= q < |vs| ==> vs[q].id <= ts
  {
    var p := Find(vs, ts);
    forall q | p <= q < |vs| ensures vs[q].id <= ts {
      assert p == q || vs[p].id >= vs[q].id;
    }
  }

  lemma InsertKeepsSorted(vs: seq<Version>, value: Value, ts: Ts)
    requires Sorted(vs)
    ensures Sorted(Insert(vs, value, ts))
  {
    InsertAt(vs, value, ts);
    BelowFound(vs, ts);
  }

  lemma InsertKeepsStrict(vs: seq<Version>, value: Value, ts: Ts)
    requires Strict(vs) && forall p :: 0 <= p < |vs| ==> vs[p].id != ts
    ensures Strict(Insert(vs, value, ts))
  {
    InsertAt(vs, value, ts);
    BelowFound(vs, ts);
  }

  // A timestamp at which nothing was written sees what is before it.
  lemma AtIsBefore(vs: seq<Version>, ts: Ts)
    requires ts > 0 && forall p :: 0 <= p < |vs| ==> vs[p].id != ts
    ensures LatestAt(vs, ts) == LatestBefore(vs, ts) && Find(vs, ts) == Find(vs, ts - 1)
  {
    FindUnique(vs, ts - 1, Find(vs, ts));
  }

  // Reads leave every lookup as it was.
  lemma MarkKeeps(vs: seq<Version>, ts: Ts, t: Ts)
    ensures Find(Mark(vs, ts), t) == Find(vs, t)
    ensures ReadAt(Mark(vs, ts), t) == ReadAt(vs, t)
    ensures Marked(vs, t) ==> Marked(Mark(vs, ts), t)
  {
    FindUnique(Mark(vs, ts), t, Find(vs, t));
    if t > 0 {
      FindUnique(Mark(vs, ts), t - 1, Find(vs, t - 1));
    }
  }

  // A transaction that has not written the key leaves its mark by reading it.
  lemma ReadMarks(vs: seq<Version>, ts: Ts)
    requires ts > 0 && LatestAt(vs, ts).Some? && forall p :: 0 <= p < |vs| ==> vs[p].id != ts
    ensures Marked(Mark(vs, ts), ts)
  {
    AtIsBefore(vs, ts);
    FindUnique(Mark(vs, ts), ts - 1, Find(vs, ts));
  }

  // A later reader is unaffected by an insertion exactly when what it read is
  // newer than the insertion.
  lemma ReaderUnaffected(vs: seq<Version>, value: Value, ts: Ts, t: Ts)
    requires Sorted(vs) && t > ts && Marked(vs, t)
    ensures LatestBefore(Insert(vs, value, ts), t) == LatestBefore(vs, t) <==> Find(vs, t - 1) < Find(vs, ts)
  {
    FindInserted(vs, value, ts, t - 1);
    if Find(vs, ts) <= Find(vs, t - 1) {
      FindUnique(vs, t - 1, Find(vs, ts));
    }
  }

  lemma RefusedReader(vs: seq<Version>, ts: Ts) returns (t: Ts)
    requires Orderly(vs) && !Passes(vs, ts)
    ensures t > ts && Marked(vs, t) && Find(vs, t - 1) == Find(vs, ts)
  {
    t := vs[Find(vs, ts)].maxRead;
    FindUnique(vs, t - 1, Find(vs, ts));
  }

  // The check accepts exactly the writes that take nothing away from anyone who
  // has read at a later timestamp.
  lemma CheckIsExact(vs: seq<Version>, value: Value, ts: Ts)
    requires Orderly(vs)
    ensures Passes(vs, ts) <==>
      forall t :: t > ts && Marked(vs, t) ==> LatestBefore(Insert(vs, value, ts), t) == LatestBefore(vs, t)
  {
    if Passes(vs, ts) {
      forall t | t > ts && Marked(vs, t)
        ensures LatestBefore(Insert(vs, value, ts), t) == LatestBefore(vs, t)
      {
        ReaderUnaffected(vs, value, ts, t);
      }
    } else {
      var t := RefusedReader(vs, ts);
      ReaderUnaffected(vs, value, ts, t);
    }
  }

  // A write that passes the check leaves every earlier read by others as it was.
  lemma AcceptedWriteKeepsReads(vs: seq<Version>, value: Value, ts: Ts, t: Ts)
    requires Sorted(vs) && Passes(vs, ts) && Marked(vs, t)
    ensures Marked(Insert(vs, value, ts), t)
    ensures LatestBefore(Insert(vs, value, ts), t) == LatestBefore(vs, t)
  {
    FindInserted(vs, value, ts, t - 1);
  }

  lemma ReadKeepsOrderly(vs: seq<Version>, ts: Ts)
    requires Orderly(vs)
    ensures Orderly(Mark(vs, ts))
  {
  }

  lemma AcceptedWriteKeepsOrderly(vs: seq<Version>, value: Value, ts: Ts)
    requires Orderly(vs) && Passes(vs, ts) && forall p :: 0 <= p < |vs| ==> vs[p].id != ts
    ensures Orderly(Insert(vs, value, ts))
  {
    InsertKeepsStrict(vs, value, ts);
    InsertAt(vs, value, ts);
    MarksBelowFound(vs, ts);
  }

  lemma MarksBelowFound(vs: seq<Version>, ts: Ts)
    requires Orderly(vs) && Passes(vs, ts)
    ensures forall q :: Find(vs, ts) <= q < |vs| ==> vs[q].maxRead <= ts
    ensures forall q :: 0 <= q < Find(vs, ts) ==> vs[q].id > ts
  {
    var p := Find(vs, ts);
    forall q | p <= q < |vs| ensures vs[q].maxRead <= ts {
      assert p == q || vs[q].maxRead <= vs[p].id;
    }
  }

  // Reading changes neither the versions nor their values.
  lemma MarkHas(vs: seq<Version>, ts: Ts, id: Ts, value: Value)
    ensures Has(Mark(vs, ts), id, value) <==> Has(vs, id, value)
  {
    if Has(vs, id, value) {
      var p :| 0 <= p < |vs| && vs[p].id == id && vs[p].value == value;
      assert Mark(vs, ts)[p].id == id;
    }
  }

  // Writing adds one version.
  lemma InsertHas(vs: seq<Version>, value: Value, ts: Ts, id: Ts, v: Value)
    ensures Has(Insert(vs, value, ts), id, v) <==> Has(vs, id, v) || (id == ts && v == value)
  {
    var vs', n := Insert(vs, value, ts), Find(vs, ts);
    assert vs'[n] == Version(value, ts, ts);
    if Has(vs, id, v) {
      var p :| 0 <= p < |vs| && vs[p].id == id && vs[p].value == v;
      assert vs'[if p < n then p else p + 1] == vs[p];
    }
    if Has(vs', id, v) {
      var p :| 0 <= p < |vs'| && vs'[p].id == id && vs'[p].value == v;
      if p != n {
        assert vs[if p < n then p else p - 1] == vs'[p];
      }
    }
  }

  // Nothing newer than the version found at ts is at or below ts.
  lemma FoundAbove(vs: seq<Version>, ts: Ts, id: Ts, value: Value)
    requires Strict(vs) && Has(vs, id, value) && id <= ts
    ensures LatestAt(vs, ts).Some? && id <= LatestAt(vs, ts).value.id
  {
    var q :| 0 <= q < |vs| && vs[q].id == id && vs[q].value == value;
    assert Find(vs, ts) <= q;
  }
}
