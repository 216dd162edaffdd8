/**
 The processor in serial mode: one transaction after the other, in the order of
 their unique ids. This is the reference that every other mode is held to, tied
 here to the function Txns.Serial.
 */
module SerialScheduler {
  import opened Txns
  import opened TxnObjects

  function KindsOf(txns: seq<Txn>): (kinds: seq<Kind>)
    ensures |kinds| == |txns| && forall i :: 0 <= i < |txns| ==> kinds[i] == txns[i].kind
  {
    seq(|txns|, i requires 0 <= i < |txns| => txns[i].kind)
  }

  function LogicsOf(kinds: seq<Kind>): (ps: seq<Logic>)
    ensures |ps| == |kinds| && forall i :: 0 <= i < |kinds| ==> ps[i] == LogicOf(kinds[i])
  {
    seq(|kinds|, i requires 0 <= i < |kinds| => LogicOf(kinds[i]))
  }

  class TxnProcessor {
    const storage: Storage
    var nextUniqueId: nat
    var requests: seq<Txn>
    var completed: seq<Txn>
    var committed: seq<Txn>
    var results: seq<Txn>

    // Requests wait in the order of their unique ids, each object once.
    ghost predicate Valid()
      reads this, requests
    {
      && (forall i :: 0 <= i < |requests| ==>
            requests[i].Valid() && requests[i].Fresh() && requests[i].uniqueId < nextUniqueId)
      && (forall i, j :: 0 <= i < j < |requests| ==> requests[i].uniqueId < requests[j].uniqueId)
    }

    constructor ()
      ensures Valid() && requests == results == committed == [] && nextUniqueId == 1 && fresh(storage)
    {
      storage := new Storage();
      nextUniqueId, requests, completed, committed, results := 1, [], [], [], [];
    }

    method NewTxnRequest(txn: Txn)
      requires Valid() && txn.Valid() && txn.Fresh() && txn !in requests
      modifies this`nextUniqueId, this`requests, txn`uniqueId
      ensures Valid() && requests == old(requests) + [txn] && nextUniqueId == old(nextUniqueId) + 1
      ensures forall t :: t in old(requests) ==> t.uniqueId < txn.uniqueId
    {
      txn.uniqueId := nextUniqueId;
      nextUniqueId := nextUniqueId + 1;
      requests := requests + [txn];
    }

    // Reads everything in the read set and in the write set, then runs.
    method ExecuteTxn(txn: Txn)
      requires txn.Valid() && txn.Fresh()
      modifies txn, this`completed
      ensures txn.Result() == Exec(LogicOf(txn.kind), storage.data)
      ensures txn.status.CompletedC? || txn.status.CompletedA?
      ensures txn.occStart == |committed| && txn.uniqueId == old(txn.uniqueId)
      ensures completed == old(completed) + [txn]
    {
      txn.occStart := |committed|;
      FetchSet(txn, txn.readset);
      FetchSet(txn, txn.writeset);
      assert txn.got == ReadsOf(LogicOf(txn.kind), storage.data);
      txn.Run();
      completed := completed + [txn];
    }

    // Saves each read result if and only if the record exists.
    method FetchSet(txn: Txn, keys: set<Key>)
      modifies txn`got
      ensures txn.got == old(txn.got) + map k | k in keys && k in storage.data :: storage.data[k]
    {
      var got := FetchAll(storage, keys);
      txn.got := txn.got + got;
    }

    method ApplyWrites(txn: Txn)
      modifies storage
      ensures storage.data == old(storage.data) + txn.writes
    {
      WriteAll(storage, txn.writes);
    }

    // Commits or aborts a transaction by its own vote and returns it.
    method Conclude(txn: Txn)
      requires txn.status.CompletedC? || txn.status.CompletedA?
      modifies this`committed, this`results, storage, txn`status
      ensures storage.data == if old(txn.Result()).commit then old(storage.data) + txn.writes else old(storage.data)
      ensures Decided(txn, old(txn.Result()))
      ensures committed == old(committed) + if old(txn.Result()).commit then [txn] else []
      ensures results == old(results) + [txn]
    {
      if txn.status.CompletedC? {
        ApplyWrites(txn);
        committed := committed + [txn];
        txn.status := Committed;
      } else {
        txn.status := Aborted;
      }
      results := results + [txn];
    }

    // One turn of the scheduler: the oldest request is executed and concluded.
    method ServeNext()
      requires Valid() && requests != []
      modifies this, storage, requests[0]
      ensures Valid() && requests == old(requests)[1..] && nextUniqueId == old(nextUniqueId)
      ensures storage.data == SerialStep(LogicOf(old(requests)[0].kind), old(storage.data))
      ensures Decided(old(requests)[0], Exec(LogicOf(old(requests)[0].kind), old(storage.data)))
      ensures committed == old(committed) + if old(requests)[0].status.Committed? then [old(requests)[0]] else []
      ensures results == old(results) + [old(requests)[0]]
    {
      var txn := requests[0];
      requests := requests[1..];
      assert forall i :: 0 <= i < |requests| ==> requests[i] == old(requests)[i + 1] && requests[i] != txn;
      ExecuteTxn(txn);
      Conclude(txn);
    }

    // The first n of all have been served, from storage before on.
    ghost predicate Served(all: seq<Txn>, ps: seq<Logic>, n: nat, before: Db)
      reads this, storage, requests, all
    {
      && Valid() && n <= |all| == |ps| && requests == all[n..]
      && storage.data == Serial(ps, n, before) && AllDecided(all, ps, n, before)
    }

    // They have been added to the results, and to the list if they commit.
    ghost predicate Recorded(results0: seq<Txn>, list: seq<Txn>, all: seq<Txn>, ps: seq<Logic>, n: nat, before: Db)
      requires n <= |all| == |ps|
      reads this
    {
      results == results0 + all[..n] && committed == Commits(list, all, ps, n, before)
    }

    // A turn as one step of the programs ps that the requests all stand for.
    method ServeProgram(ghost all: seq<Txn>, ghost ps: seq<Logic>, ghost n: nat)
      requires Valid() && n < |all| && requests == all[n..] && ProgramsOf(all, ps)
      modifies this, storage, requests[0]
      ensures Valid() && requests == all[n + 1..]
      ensures storage.data == SerialStep(ps[n], old(storage.data))
      ensures Decided(all[n], Exec(ps[n], old(storage.data)))
      ensures committed == old(committed) + if Exec(ps[n], old(storage.data)).commit then [all[n]] else []
      ensures results == old(results) + [all[n]]
    {
      assert requests[0] == all[n] && requests[1..] == all[n + 1..];
      assert IsProgram(all, ps, n);
      ServeNext();
    }

    method ServeNth(ghost results0: seq<Txn>, ghost list: seq<Txn>,
                    ghost all: seq<Txn>, ghost ps: seq<Logic>, ghost n: nat, ghost before: Db)
      requires Served(all, ps, n, before) && n < |all| && Different(all) && ProgramsOf(all, ps)
      requires Recorded(results0, list, all, ps, n, before)
      modifies this, storage, requests[0]
      ensures Served(all, ps, n + 1, before) && Recorded(results0, list, all, ps, n + 1, before)
      ensures |requests| < |old(requests)|
    {
      assert requests[0] == all[n];
      NextInLine(all, n, results0);
      ServeProgram(all, ps, n);
      forall i | 0 <= i < n ensures EndedAsProgram(all, ps, i, before) {
        assert all[i] != all[n];
        assert old(EndedAsProgram(all, ps, i, before));
      }
    }

    method ServeAll(ghost all: seq<Txn>, ghost ps: seq<Logic>)
      requires Valid() && requests == all && ProgramsOf(all, ps)
      modifies this, storage, requests
      ensures requests == [] && results == old(results) + all
      ensures storage.data == Serial(ps, |ps|, old(storage.data))
      ensures AllDecided(all, ps, |ps|, old(storage.data))
      ensures committed == Commits(old(committed), all, ps, |ps|, old(storage.data))
    {
      ghost var before, earlier, list, n := storage.data, results, committed, 0;
      Ends(all, earlier);
      assert Different(all);
      while requests != []
        invariant Served(all, ps, n, before) && Different(all) && Recorded(earlier, list, all, ps, n, before)
        decreases |requests|
      {
        ServeNth(earlier, list, all, ps, n, before);
        n := n + 1;
      }
      assert n == |all|;
    }

    // Drains the request queue: the serial reference, in the order of arrival.
    method RunSerialScheduler()
      requires Valid()
      modifies this, storage, requests
      ensures requests == [] && results == old(results) + old(requests)
      ensures var ps := LogicsOf(KindsOf(old(requests)));
        && storage.data == Serial(ps, |ps|, old(storage.data))
        && AllDecided(old(requests), ps, |ps|, old(storage.data))
        && committed == Commits(old(committed), old(requests), ps, |ps|, old(storage.data))
    {
      ghost var ps := LogicsOf(KindsOf(requests));
      assert forall i :: 0 <= i < |ps| ==> IsProgram(requests, ps, i);
      ServeAll(requests, ps);
    }
  }

  ghost predicate IsProgram(txns: seq<Txn>, ps: seq<Logic>, i: nat)
    requires i < |txns| == |ps|
  {
    ps[i] == LogicOf(txns[i].kind)
  }

  ghost predicate ProgramsOf(txns: seq<Txn>, ps: seq<Logic>) {
    |txns| == |ps| && forall i :: 0 <= i < |txns| ==> IsProgram(txns, ps, i)
  }

  // The committed list after the first n of all, in order.
  ghost function Commits(list: seq<Txn>, all: seq<Txn>, ps: seq<Logic>, n: nat, before: Db): seq<Txn>
    requires n <= |all| == |ps|
  {
    if n == 0 then list
    else
      Commits(list, all, ps, n - 1, before)
      + if Exec(ps[n - 1], Serial(ps, n - 1, before)).commit then [all[n - 1]] else []
  }

  lemma NextInLine<T>(all: seq<T>, n: nat, earlier: seq<T>)
    requires n < |all|
    ensures earlier + all[..n] + [all[n]] == earlier + all[..n + 1]
  {
  }

  lemma Ends<T>(all: seq<T>, earlier: seq<T>)
    ensures all[0..] == all && earlier + all[..0] == earlier && all[..|all|] == all
  {
  }

  ghost predicate Different(txns: seq<Txn>) {
    forall i, j :: 0 <= i < j < |txns| ==> txns[i] != txns[j]
  }

  // The first n have ended as they would serially.
  ghost predicate AllDecided(txns: seq<Txn>, ps: seq<Logic>, n: nat, db: Db)
    requires n <= |txns| == |ps|
    reads txns
  {
    forall i :: 0 <= i < n ==> EndedAsProgram(txns, ps, i, db)
  }

  ghost predicate EndedAsProgram(txns: seq<Txn>, ps: seq<Logic>, i: nat, db: Db)
    requires i < |txns| == |ps|
    reads txns
  {
    Decided(txns[i], Exec(ps[i], Serial(ps, i, db)))
  }

  // The transaction carries the vote and the buffer of out, and ended accordingly.
  predicate Decided(txn: Txn, out: Outcome)
    reads txn
  {
    txn.writes == out.writes && txn.status == if out.commit then Committed else Aborted
  }
}
