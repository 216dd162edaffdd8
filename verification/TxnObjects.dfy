/**
 The objects that the schedulers work on: single-version storage, and the
 transaction object with its buffers and the concrete transaction types.
 */
module TxnObjects {
  import opened Txns

  class Storage {
    var data: Db

    // The constructor of the processor fills fresh storage.
    constructor ()
      ensures forall k: Key :: Get(data, k) == if k < INITIAL_RECORDS then Some(0) else None
    {
      data := map[];
      new;
      InitStorage();
    }

    method InitStorage()
      modifies this
      ensures forall k: Key :: Get(data, k) == if k < INITIAL_RECORDS then Some(0) else Get(old(data), k)
    {
      for i := 0 to INITIAL_RECORDS
        invariant forall k: Key :: Get(data, k) == if k < i then Some(0) else Get(old(data), k)
      {
        ghost var before := data;
        Write(i, 0);
        forall k: Key ensures Get(data, k) == if k == i then Some(0) else Get(before, k) {
        }
      }
    }

    // A missing record is reported, not an error.
    method Read(k: Key) returns (found: bool, value: Value)
      ensures Get(data, k) == if found then Some(value) else None
    {
      found := k in data;
      value := if found then data[k] else 0;
    }

    method Write(k: Key, value: Value)
      modifies this
      ensures data == old(data)[k := value]
    {
      data := data[k := value];
    }
  }

  // Reads all of keys; a missing record leaves no entry.
  method FetchAll(storage: Storage, keys: set<Key>) returns (got: map<Key, Value>)
    ensures got == map k | k in keys && k in storage.data :: storage.data[k]
  {
    got := map[];
    var todo := keys;
    while todo != {}
      invariant todo <= keys
      invariant got == map k | k in keys && k !in todo && k in storage.data :: storage.data[k]
      decreases |todo|
    {
      var k :| k in todo;
      var found, value := storage.Read(k);
      if found {
        got := got[k := value];
      }
      todo := todo - {k};
    }
  }

  // Writes a buffer out, record by record.
  method WriteAll(storage: Storage, writes: map<Key, Value>)
    modifies storage
    ensures storage.data == old(storage.data) + writes
  {
    var todo := writes.Keys;
    ApplyEnds(storage.data, writes);
    while todo != {}
      invariant todo <= writes.Keys
      invariant storage.data == old(storage.data) + Applied(writes, todo)
      decreases |todo|
    {
      var k :| k in todo;
      ApplyOne(old(storage.data), writes, todo, k);
      storage.Write(k, writes[k]);
      todo := todo - {k};
    }
  }

  datatype Status = Incomplete | CompletedC | CompletedA | Committed | Aborted

  // A transaction of one of the concrete types.
  class Txn {
    const kind: Kind
    const readset: set<Key>
    const writeset: set<Key>
    var got: map<Key, Value>
    var writes: map<Key, Value>
    var status: Status
    var uniqueId: nat
    var occStart: nat

    constructor (kind: Kind)
      ensures this.kind == kind && Valid() && Fresh()
    {
      this.kind := kind;
      readset := LogicOf(kind).readset;
      writeset := LogicOf(kind).writeset;
      got, writes, status := map[], map[], Incomplete;
      uniqueId, occStart := 0, 0;
    }

    // The sets are those of the concrete type, and never change.
    predicate Valid() {
      readset == LogicOf(kind).readset && writeset == LogicOf(kind).writeset
    }

    // Not executed, or cleaned up since.
    predicate Fresh()
      reads this
    {
      status.Incomplete? && got == map[] && writes == map[]
    }

    // The vote and the write buffer.
    function Result(): Outcome
      reads this
    {
      Outcome(status.CompletedC? || status.Committed?, writes)
    }

    // Reads and writes have no effect once the transaction has voted.
    method Read(k: Key) returns (found: bool, value: Value)
      requires k in readset + writeset
      ensures (if found then Some(value) else None) == if status.Incomplete? then Get(got, k) else None
    {
      if !status.Incomplete? {
        return false, 0;
      }
      found := k in got;
      value := if found then got[k] else 0;
    }

    // A later read of the key sees the value written.
    method Write(k: Key, value: Value)
      requires k in writeset
      modifies this`got, this`writes
      ensures old(status.Incomplete?) ==> writes == old(writes)[k := value] && got == old(got)[k := value]
      ensures !old(status.Incomplete?) ==> writes == old(writes) && got == old(got)
    {
      if !status.Incomplete? {
        return;
      }
      writes := writes[k := value];
      got := got[k := value];
    }

    // The check ends the process when the sets overlap.
    method CheckReadWriteSets() returns (ok: bool)
      ensures ok <==> readset !! writeset
    {
      var todo := writeset;
      while todo != {}
        invariant todo <= writeset && (writeset - todo) !! readset
        decreases |todo|
      {
        var k :| k in todo;
        if k in readset {
          return false;
        }
        todo := todo - {k};
      }
      ok := true;
    }

    // What is undone before a restart.
    method Cleanup()
      modifies this`got, this`writes, this`status
      ensures Fresh()
    {
      got, writes, status := map[], map[], Incomplete;
    }

    // Runs the logic of the concrete type on what has been read. The vote and
    // the buffer are those of LogicOf, whatever order the loops take keys in.
    method Run()
      requires Valid() && status.Incomplete? && writes == map[]
      modifies this`got, this`writes, this`status
      ensures status.CompletedC? || status.CompletedA?
      ensures Result() == LogicOf(kind).run(old(got))
    {
      match kind
      case Noop => status := CompletedC;
      case Expect(m) => RunExpect(m);
      case Put(m) => RunPut(m);
      case Rmw(_, ws) => RunRmw(ws);
    }

    method RunExpect(m: map<Key, Value>)
      requires kind == Expect(m) && Valid() && status.Incomplete? && writes == map[]
      modifies this`status
      ensures status.CompletedC? || status.CompletedA?
      ensures Result() == LogicOf(kind).run(old(got))
    {
      var todo := m.Keys;
      while todo != {}
        invariant todo <= m.Keys && status.Incomplete?
        invariant forall k :: k in m && k !in todo ==> k in got && got[k] == m[k]
        decreases |todo|
      {
        var k :| k in todo;
        var found, value := Read(k);
        if !found || value != m[k] {
          status := CompletedA;
          return;
        }
        todo := todo - {k};
      }
      status := CompletedC;
    }

    method RunPut(m: map<Key, Value>)
      requires kind == Put(m) && Valid() && status.Incomplete? && writes == map[]
      modifies this`got, this`writes, this`status
      ensures status.CompletedC? && Result() == LogicOf(kind).run(old(got))
    {
      var todo := m.Keys;
      while todo != {}
        invariant todo <= m.Keys && status.Incomplete?
        invariant writes == Applied(m, todo)
        decreases |todo|
      {
        var k :| k in todo;
        Write(k, m[k]);
        todo := todo - {k};
      }
      assert Applied(m, {}) == m;
      status := CompletedC;
    }

    // Reads its own earlier writes, which are to other keys.
    method RunRmw(ws: set<Key>)
      requires kind.Rmw? && kind.writeset == ws && Valid() && status.Incomplete? && writes == map[]
      modifies this`got, this`writes, this`status
      ensures status.CompletedC? && Result() == LogicOf(kind).run(old(got))
    {
      ReadAll(readset);
      ghost var before := got;
      var todo := ws;
      NothingYet(before, ws);
      while todo != {}
        invariant todo <= ws && status.Incomplete?
        invariant writes == Incremented(before, ws, todo)
        invariant forall k :: k in todo ==> Get(got, k) == Get(before, k)
        decreases |todo|
      {
        var k :| k in todo;
        Increment(k);
        IncrementMore(before, ws, todo, k);
        todo := todo - {k};
      }
      AllIncremented(kind, before);
      status := CompletedC;
    }

    method Increment(k: Key)
      requires k in writeset && status.Incomplete?
      modifies this`got, this`writes
      ensures writes == old(writes)[k := Incr(ValueOr0(old(got), k))]
      ensures forall m :: m != k ==> Get(got, m) == Get(old(got), m)
    {
      var found, value := Read(k);
      Write(k, Incr(if found then value else 0));
    }

    // The values read are not used.
    method ReadAll(keys: set<Key>)
      requires keys <= readset
    {
      var todo := keys;
      while todo != {}
        invariant todo <= keys
        decreases |todo|
      {
        var k :| k in todo;
        var _, _ := Read(k);
        todo := todo - {k};
      }
    }
  }

  // What a read-modify-write transaction has buffered when todo is still to come.
  function Incremented(got: map<Key, Value>, ws: set<Key>, todo: set<Key>): map<Key, Value> {
    map k | k in ws && k !in todo :: Incr(ValueOr0(got, k))
  }

  lemma NothingYet(got: map<Key, Value>, ws: set<Key>)
    ensures Incremented(got, ws, ws) == map[]
  {
  }

  lemma IncrementMore(got: map<Key, Value>, ws: set<Key>, todo: set<Key>, k: Key)
    requires k in todo && todo <= ws
    ensures Incremented(got, ws, todo)[k := Incr(ValueOr0(got, k))] == Incremented(got, ws, todo - {k})
  {
  }

  lemma AllIncremented(kind: Kind, got: map<Key, Value>)
    requires kind.Rmw?
    ensures LogicOf(kind).run(got) == Outcome(true, Incremented(got, kind.writeset, {}))
  {
    assert Incremented(got, kind.writeset, {}) == map k | k in kind.writeset :: Incr(ValueOr0(got, k));
  }
}
