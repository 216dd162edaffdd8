/**
 The validation phases of the optimistic schedulers, written as the loops they
 are, and shown to decide what the machines in Occ and ParallelOcc call valid.
 */
module OccValidation {
  import opened Txns
  import Occ
  import ParallelOcc

  // Does any key occur in both sets?
  method Overlap(a: set<Key>, b: set<Key>) returns (yes: bool)
    ensures yes <==> exists k :: k in a && k in b
  {
    var todo := a;
    while todo != {}
      invariant todo <= a
      invariant forall k :: k in a && k !in todo ==> k !in b
      decreases |todo|
    {
      var k :| k in todo;
      if k in b {
        return true;
      }
      todo := todo - {k};
    }
    yes := false;
  }

  lemma SerialMeans(s: Occ.State, i: nat, start: nat)
    requires i < |s.txns| && forall c :: 0 <= c < |s.committed| ==> s.committed[c] < |s.txns|
    ensures Occ.Valid(s, i, start) <==>
      forall c :: start <= c < |s.committed| ==> !Overlapping(s.txns[i], s.txns[s.committed[c]])
  {
    forall c | start <= c < |s.committed|
      ensures Overlapping(s.txns[i], s.txns[s.committed[c]])
        <==> exists k :: k in s.txns[i].Keys() && Occ.Writes(s, s.committed[c], k)
    {
      if Overlapping(s.txns[i], s.txns[s.committed[c]]) {
        var k :| (k in s.txns[i].readset || k in s.txns[i].writeset) && k in s.txns[s.committed[c]].writeset;
        assert k in s.txns[i].Keys() && Occ.Writes(s, s.committed[c], k);
      }
    }
  }

  lemma WritesMeans(s: ParallelOcc.State, i: nat, t: nat)
    requires i < |s.txns| && t < |s.txns|
    ensures Overlapping(s.txns[i], s.txns[t]) <==> exists k :: k in s.txns[i].Keys() && ParallelOcc.Writes(s, t, k)
  {
    if Overlapping(s.txns[i], s.txns[t]) {
      var k :| (k in s.txns[i].readset || k in s.txns[i].writeset) && k in s.txns[t].writeset;
      assert k in s.txns[i].Keys() && ParallelOcc.Writes(s, t, k);
    }
  }

  lemma ParallelMeans(s: ParallelOcc.State, e: nat, upTo: nat)
    requires ParallelOcc.Sized(s) && e < |s.entries| && upTo <= |s.committed|
    requires forall c :: 0 <= c < |s.committed| ==> s.committed[c] < |s.txns|
    requires forall t :: t in s.entries[e].saved ==> t < |s.txns|
    ensures ParallelOcc.Valid(s, e, upTo) <==>
      && (forall c :: s.entries[e].start <= c < upTo ==>
            !Overlapping(s.txns[s.entries[e].txn], s.txns[s.committed[c]]))
      && (forall t :: t in s.entries[e].saved ==> !Overlapping(s.txns[s.entries[e].txn], s.txns[t]))
  {
    var i := s.entries[e].txn;
    forall t: nat | t < |s.txns|
      ensures Overlapping(s.txns[i], s.txns[t]) <==> exists k :: k in s.txns[i].Keys() && ParallelOcc.Writes(s, t, k)
    {
      WritesMeans(s, i, t);
    }
  }

  // Serial validation: every transaction committed since this one began.
  method SerialValidate(s: Occ.State, i: nat, start: nat) returns (valid: bool)
    requires i < |s.txns| && forall c :: 0 <= c < |s.committed| ==> s.committed[c] < |s.txns|
    ensures valid <==> forall c :: start <= c < |s.committed| ==> !Overlapping(s.txns[i], s.txns[s.committed[c]])
    ensures valid == Occ.Valid(s, i, start)
  {
    SerialMeans(s, i, start);
    var p := s.txns[i];
    var c := start;
    while c < |s.committed|
      invariant forall d, k :: start <= d < c && d < |s.committed| && k in p.Keys() ==>
        !Occ.Writes(s, s.committed[d], k)
      decreases |s.committed| - c
    {
      var t := s.txns[s.committed[c]];
      var shared := Overlap(p.readset, t.writeset);
      var exclusive := Overlap(p.writeset, t.writeset);
      if shared || exclusive {
        ghost var k :| k in p.Keys() && k in t.writeset;
        assert Occ.Writes(s, s.committed[c], k);
        return false;
      }
      c := c + 1;
    }
    valid := true;
  }

  // Parallel validation: the committed list as far as it was read, and the copy
  // of the active set.
  method ParallelValidate(s: ParallelOcc.State, e: nat, upTo: nat) returns (valid: bool)
    requires ParallelOcc.Sized(s) && e < |s.entries| && upTo <= |s.committed|
    requires forall c :: 0 <= c < |s.committed| ==> s.committed[c] < |s.txns|
    requires forall t :: t in s.entries[e].saved ==> t < |s.txns|
    ensures valid <==>
      && (forall c :: s.entries[e].start <= c < upTo ==>
            !Overlapping(s.txns[s.entries[e].txn], s.txns[s.committed[c]]))
      && (forall t :: t in s.entries[e].saved ==> !Overlapping(s.txns[s.entries[e].txn], s.txns[t]))
    ensures valid == ParallelOcc.Valid(s, e, upTo)
  {
    ParallelMeans(s, e, upTo);
    var p := s.txns[s.entries[e].txn];
    var c := s.entries[e].start;
    while c < upTo
      invariant forall d, k :: s.entries[e].start <= d < c && d < upTo && k in p.Keys() ==>
        !ParallelOcc.Writes(s, s.committed[d], k)
      decreases upTo - c
    {
      var conflict := Conflicts(s, p, s.committed[c]);
      if conflict {
        return false;
      }
      c := c + 1;
    }
    var todo := s.entries[e].saved;
    while todo != {}
      invariant todo <= s.entries[e].saved
      invariant forall t, k :: t in s.entries[e].saved && t !in todo && k in p.Keys() ==> !ParallelOcc.Writes(s, t, k)
      decreases |todo|
    {
      var t :| t in todo;
      var conflict := Conflicts(s, p, t);
      if conflict {
        return false;
      }
      todo := todo - {t};
    }
    valid := true;
  }

  // The write set of t meets the read set or the write set of p.
  method Conflicts(s: ParallelOcc.State, p: Logic, t: nat) returns (yes: bool)
    requires t < |s.txns|
    ensures yes <==> exists k :: k in p.Keys() && ParallelOcc.Writes(s, t, k)
  {
    var exclusive := Overlap(p.writeset, s.txns[t].writeset);
    var shared := Overlap(p.readset, s.txns[t].writeset);
    yes := exclusive || shared;
    if yes {
      ghost var k :| k in p.Keys() && k in s.txns[t].writeset;
      assert ParallelOcc.Writes(s, t, k);
    } else {
      assert forall k :: k in p.Keys() ==> !ParallelOcc.Writes(s, t, k);
    }
  }
}
