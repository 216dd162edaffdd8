/**
 Multiversion storage: version lists and key mutexes, changed in place.
 */
module MvccStorage {
  import opened Txns
  import opened Versions

  // The versions of k once the records below n have been initialised.
  function Initial(k: Key, vs: seq<Version>, n: nat): seq<Version> {
    if k < n then Insert(vs, 0, 0) else vs
  }

  class MVCCStorage {
    var data: map<Key, seq<Version>>
    // Whether the mutex of a key is held; keys without a mutex cannot be locked.
    var mutexes: map<Key, bool>

    ghost predicate Valid()
      reads this
    {
      forall k :: k in data ==> Sorted(data[k])
    }

    function VersionsOf(k: Key): (vs: seq<Version>)
      reads this
    {
      if k in data then data[k] else []
    }

    // The constructor of the processor fills fresh storage.
    constructor ()
      ensures Valid()
      ensures forall k: Key :: VersionsOf(k) == if k < INITIAL_RECORDS then [Version(0, 0, 0)] else []
      ensures forall k: Key :: k in mutexes <==> k < INITIAL_RECORDS
      ensures forall k :: k in mutexes ==> !mutexes[k]
    {
      data, mutexes := map[], map[];
      new;
      InitStorage();
    }

    method InitStorage()
      requires Valid()
      modifies this
      ensures Valid()
      ensures forall k: Key :: VersionsOf(k) == Initial(k, old(VersionsOf(k)), INITIAL_RECORDS)
      ensures forall k: Key :: k in mutexes <==> k in old(mutexes) || k < INITIAL_RECORDS
      ensures forall k :: k in mutexes ==> mutexes[k] == (k >= INITIAL_RECORDS && old(mutexes)[k])
    {
      for i := 0 to INITIAL_RECORDS
        invariant Valid()
        invariant forall k: Key :: VersionsOf(k) == Initial(k, old(VersionsOf(k)), i)
        invariant forall k: Key :: k in mutexes <==> k in old(mutexes) || k < i
        invariant forall k :: k in mutexes ==> mutexes[k] == (k >= i && old(mutexes)[k])
      {
        Write(i, 0, 0);
        mutexes := mutexes[i := false];
      }
    }

    // Waits until the mutex is free.
    method Lock(k: Key)
      requires k in mutexes && !mutexes[k]
      modifies this`mutexes
      ensures mutexes == old(mutexes)[k := true]
    {
      mutexes := mutexes[k := true];
    }

    method Unlock(k: Key)
      requires k in mutexes && mutexes[k]
      modifies this`mutexes
      ensures mutexes == old(mutexes)[k := false]
    {
      mutexes := mutexes[k := false];
    }

    // The scan that reading, checking and writing share.
    method Seek(k: Key, ts: Ts) returns (p: nat)
      ensures p == Find(VersionsOf(k), ts)
    {
      var vs := VersionsOf(k);
      p := 0;
      while p < |vs| && vs[p].id > ts
        invariant p <= |vs|
        invariant forall q :: 0 <= q < p ==> vs[q].id > ts
      {
        p := p + 1;
      }
      FindUnique(vs, ts, p);
    }

    // Finds the version with the largest id at or below ts and raises its read
    // timestamp.
    method Read(k: Key, ts: Ts) returns (found: bool, value: Value)
      requires Valid()
      modifies this`data
      ensures Valid()
      ensures found <==> exists v :: v in old(VersionsOf(k)) && v.id <= ts
      ensures found ==> ReadAt(old(VersionsOf(k)), ts) == Some(value)
      ensures VersionsOf(k) == Mark(old(VersionsOf(k)), ts)
      ensures forall other :: other != k ==> VersionsOf(other) == old(VersionsOf(other))
    {
      var p := Seek(k, ts);
      var vs := VersionsOf(k);
      found, value := p < |vs|, 0;
      if found {
        assert vs[p] in vs;
        value := vs[p].value;
        if vs[p].maxRead < ts {
          data := data[k := vs[p := vs[p].(maxRead := ts)]];
        }
      } else {
        forall v | v in vs ensures v.id > ts {
          var q :| 0 <= q < |vs| && vs[q] == v;
        }
      }
    }

    method CheckKey(k: Key, ts: Ts) returns (ok: bool)
      ensures ok == Passes(VersionsOf(k), ts)
    {
      var p := Seek(k, ts);
      var vs := VersionsOf(k);
      ok := p == |vs| || vs[p].maxRead <= ts;
    }

    // Puts the new version in its place, newest first.
    method Write(k: Key, value: Value, ts: Ts)
      requires Valid()
      modifies this`data
      ensures Valid()
      ensures VersionsOf(k) == Insert(old(VersionsOf(k)), value, ts)
      ensures forall other :: other != k ==> VersionsOf(other) == old(VersionsOf(other))
    {
      var p := Seek(k, ts);
      var vs := VersionsOf(k);
      InsertKeepsSorted(vs, value, ts);
      data := data[k := vs[..p] + [Version(value, ts, ts)] + vs[p..]];
    }
  }
}
