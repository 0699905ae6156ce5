// The reference object store (internal/storage/memory.go), and the same store behind a
// connection on which any call can fail, with or without its effect (the ObjectStore seam of
// internal/storage/store.go as the pipeline meets it in production).
module MemoryStore {
  import opened Wrappers
  import opened Order

  // How a store call went: it succeeded, it failed without effect, or it failed although its
  // effect was applied.
  datatype Outcome = Done | Lost | Applied

  datatype StoreError = NotFound | Failed

  function KeysUnder(objects: map<string, Bytes>, prefix: string): set<string> {
    set k | k in objects && prefix <= k
  }

  class MemoryStore {
    var objects: map<string, Bytes>

    constructor ()
      ensures objects == map[]
    {
      objects := map[];
    }

    method Put(key: string, data: Bytes)
      modifies this
      ensures objects == old(objects)[key := data]
    {
      objects := objects[key := data];
    }

    method Get(key: string) returns (r: Result<Bytes, StoreError>)
      ensures r == if key in objects then Ok(objects[key]) else Err(NotFound)
    {
      if key !in objects { return Err(NotFound); }
      return Ok(objects[key]);
    }

    // Filters the keys in whatever order the map yields them, then sorts.
    method List(prefix: string) returns (keys: seq<string>)
      ensures keys == Sorted(KeysUnder(objects, prefix))
    {
      keys := [];
      var rest := objects.Keys;
      while rest != {}
        invariant rest <= objects.Keys
        invariant forall i, j :: 0 <= i < j < |keys| ==> keys[i] != keys[j]
        invariant forall x :: x in keys <==> x in KeysUnder(objects, prefix) && x !in rest
        decreases |rest|
      {
        var k :| k in rest;
        rest := rest - {k};
        if prefix <= k {
          keys := keys + [k];
        }
      }
      keys := SortStrings(keys);
      AscendingUnique(keys, Sorted(KeysUnder(objects, prefix)));
    }

    method Delete(key: string)
      modifies this
      ensures objects == old(objects) - {key}
    {
      objects := objects - {key};
    }
  }

  // What becomes of the objects by the n-th store call.
  type Effect = (nat, map<string, Bytes>) -> map<string, Bytes>

  // fault(n) is the outcome of the n-th call made through this connection, and others(n, objects)
  // what everyone else has made of the objects by then.
  class RemoteStore {
    const backing: MemoryStore
    const fault: nat -> Outcome
    const others: Effect
    var calls: nat

    constructor (backing: MemoryStore, fault: nat -> Outcome, others: Effect)
      ensures this.backing == backing && this.fault == fault && this.others == others && calls == 0
    {
      this.backing := backing;
      this.fault := fault;
      this.others := others;
      calls := 0;
    }

    // The objects the next call meets.
    function Met(): map<string, Bytes>
      reads this, backing
    {
      others(calls, backing.objects)
    }

    method Put(key: string, data: Bytes) returns (ok: bool)
      modifies this, backing
      ensures calls == old(calls) + 1
      ensures ok == fault(old(calls)).Done?
      ensures backing.objects == if fault(old(calls)).Lost? then old(Met()) else old(Met())[key := data]
    {
      var o := TakeTurn();
      if !o.Lost? { backing.Put(key, data); }
      return o.Done?;
    }

    method Get(key: string) returns (r: Result<Bytes, StoreError>)
      modifies this, backing
      ensures calls == old(calls) + 1 && backing.objects == old(Met())
      ensures r == if !fault(old(calls)).Done? then Err(Failed)
                   else if key in backing.objects then Ok(backing.objects[key])
                   else Err(NotFound)
    {
      var o := TakeTurn();
      if !o.Done? { return Err(Failed); }
      r := backing.Get(key);
    }

    method List(prefix: string) returns (r: Result<seq<string>, StoreError>)
      modifies this, backing
      ensures calls == old(calls) + 1 && backing.objects == old(Met())
      ensures r == if fault(old(calls)).Done? then Ok(Sorted(KeysUnder(backing.objects, prefix))) else Err(Failed)
    {
      var o := TakeTurn();
      if !o.Done? { return Err(Failed); }
      var keys := backing.List(prefix);
      return Ok(keys);
    }

    method Delete(key: string) returns (ok: bool)
      modifies this, backing
      ensures calls == old(calls) + 1
      ensures ok == fault(old(calls)).Done?
      ensures backing.objects == if fault(old(calls)).Lost? then old(Met()) else old(Met()) - {key}
    {
      var o := TakeTurn();
      if !o.Lost? { backing.Delete(key); }
      return o.Done?;
    }

    // The others go first.
    method TakeTurn() returns (o: Outcome)
      modifies this, backing
      ensures calls == old(calls) + 1 && backing.objects == old(Met())
      ensures o == fault(old(calls))
    {
      backing.objects := others(calls, backing.objects);
      o := fault(calls);
      calls := calls + 1;
    }
  }
}
