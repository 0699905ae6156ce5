// The lifecycle manager over a store reached by string keys (internal/lifecycle/lifecycle.go),
// and its agreement with the protocol over (status, id) pairs.
module Lifecycle {
  import opened Wrappers
  import opened Order
  import opened MemoryStore
  import opened StatusKeys
  import opened Move

  // The ids whose pending key exists.
  function PendingIds(objects: map<string, Bytes>): set<string> {
    set k | k in objects && StatusPrefix(Pending) <= k :: k[|StatusPrefix(Pending)|..]
  }

  lemma PendingIdsExact(objects: map<string, Bytes>, id: string)
    ensures id in PendingIds(objects) <==> ReportKey(Pending, id) in objects
  {
    var prefix := StatusPrefix(Pending);
    if ReportKey(Pending, id) in objects {
      assert prefix <= ReportKey(Pending, id) && ReportKey(Pending, id)[|prefix|..] == id;
    }
    if id in PendingIds(objects) {
      var k :| k in objects && prefix <= k && k[|prefix|..] == id;
      assert k == prefix + id;
    }
  }

  // Stripping the common prefix from the sorted keys leaves the sorted ids.
  lemma StrippedSorted(objects: map<string, Bytes>, keys: seq<string>, ids: seq<string>)
    requires keys == Sorted(KeysUnder(objects, StatusPrefix(Pending)))
    requires |ids| == |keys|
    requires forall i :: 0 <= i < |ids| ==> keys[i] == StatusPrefix(Pending) + ids[i]
    ensures ids == Sorted(PendingIds(objects))
  {
    var prefix := StatusPrefix(Pending);
    forall i, j | 0 <= i < j < |ids|
      ensures Less(ids[i], ids[j])
    {
      assert Less(keys[i], keys[j]);
      LessUnderPrefix(prefix, ids[i], ids[j]);
    }
    forall id
      ensures id in ids <==> id in PendingIds(objects)
    {
      PendingIdsExact(objects, id);
      if id in ids {
        var i :| 0 <= i < |ids| && ids[i] == id;
        assert keys[i] in keys;
      }
      if ReportKey(Pending, id) in objects {
        assert prefix <= ReportKey(Pending, id);
        assert ReportKey(Pending, id) in keys;
        var i :| 0 <= i < |keys| && keys[i] == ReportKey(Pending, id);
        assert (prefix + ids[i])[|prefix|..] == ids[i] && (prefix + id)[|prefix|..] == id;
      }
    }
    AscendingUnique(ids, Sorted(PendingIds(objects)));
  }

  function TrimPrefix(s: string, prefix: string): string {
    if prefix <= s then s[|prefix|..] else s
  }

  class Manager {
    const store: RemoteStore

    constructor (store: RemoteStore)
      ensures this.store == store
    {
      this.store := store;
    }

    method ListPending() returns (r: Result<seq<string>, StoreError>)
      modifies store, store.backing
      ensures store.calls == old(store.calls) + 1 && store.backing.objects == old(store.Met())
      ensures r == if store.fault(old(store.calls)).Done?
                   then Ok(Sorted(PendingIds(store.backing.objects)))
                   else Err(Failed)
    {
      var prefix := StatusPrefix(Pending);
      var listed := store.List(prefix);
      if listed.Err? { return Err(listed.error); }
      var keys := listed.value;
      var ids: seq<string> := [];
      for i := 0 to |keys|
        invariant |ids| == i
        invariant forall j :: 0 <= j < i ==> keys[j] == prefix + ids[j]
      {
        assert keys[i] in keys;
        ids := ids + [TrimPrefix(keys[i], prefix)];
      }
      StrippedSorted(store.backing.objects, keys, ids);
      return Ok(ids);
    }

    method GetPending(id: string) returns (r: Result<Bytes, StoreError>)
      modifies store, store.backing
      ensures store.calls == old(store.calls) + 1 && store.backing.objects == old(store.Met())
      ensures r == if !store.fault(old(store.calls)).Done? then Err(Failed)
                   else if ReportKey(Pending, id) in store.backing.objects
                   then Ok(store.backing.objects[ReportKey(Pending, id)])
                   else Err(NotFound)
    {
      r := store.Get(ReportKey(Pending, id));
    }

    // The run of the transition machine over this store, from a program counter on.
    ghost function RunFrom(pc: Pc, from: string, to: string): (Config<string>, nat)
      reads store, store.backing
    {
      CompleteAmid(Config(store.backing.objects, pc), from, to, store.fault, store.others, store.calls)
    }

    method MarkRemoved(id: string) returns (r: MoveResult)
      modifies store, store.backing
      ensures old(RunFrom(Read, ReportKey(Pending, id), ReportKey(Removed, id)))
              == (Config(store.backing.objects, Halted(r)), store.calls)
    {
      r := Transition(id, Pending, Removed);
    }

    method MarkPublished(id: string) returns (r: MoveResult)
      modifies store, store.backing
      ensures old(RunFrom(Read, ReportKey(Pending, id), ReportKey(Published, id)))
              == (Config(store.backing.objects, Halted(r)), store.calls)
    {
      r := Transition(id, Pending, Published);
    }

    // Whatever the faults, and whatever the others do to the store in between, exactly the run of
    // the transition machine; and which result that has. n is the number of its first call.
    method Transition(id: string, from: Status, to: Status) returns (r: MoveResult)
      modifies store, store.backing
      ensures old(RunFrom(Read, ReportKey(from, id), ReportKey(to, id)))
              == (Config(store.backing.objects, Halted(r)), store.calls)
      ensures var n, met := old(store.calls), old(store.Met());
              && (r.StoreFailed? <==>
                    || !store.fault(n).Done?
                    || (ReportKey(from, id) in met && !(store.fault(n + 1).Done? && store.fault(n + 2).Done?)))
              && (r.UnknownReport? <==>
                    && store.fault(n).Done? && ReportKey(from, id) !in met
                    && !(store.fault(n + 1).Done? && ReportKey(to, id) in store.others(n + 1, met)))
    {
      var fromKey := ReportKey(from, id);
      var toKey := ReportKey(to, id);
      ResultExactly(store.backing.objects, fromKey, toKey, store.fault, store.others, store.calls);
      ghost var run := RunFrom(Read, fromKey, toKey);

      var data := store.Get(fromKey);
      if data == Err(NotFound) {
        assert run == RunFrom(Recheck, fromKey, toKey);
        var there := store.Get(toKey);
        assert run == RunFrom(Halted(if there.Ok? then Moved else UnknownReport), fromKey, toKey);
        if there.Ok? { return Moved; }
        return UnknownReport;
      }
      assert data.Err? ==> run == RunFrom(Halted(StoreFailed), fromKey, toKey);
      if data.Err? { return StoreFailed; }

      assert run == RunFrom(Write(data.value), fromKey, toKey);
      var put := store.Put(toKey, data.value);
      assert !put ==> run == RunFrom(Halted(StoreFailed), fromKey, toKey);
      if !put { return StoreFailed; }
      assert run == RunFrom(Drop, fromKey, toKey);
      var deleted := store.Delete(fromKey);
      assert run == RunFrom(Halted(if deleted then Moved else StoreFailed), fromKey, toKey);
      if !deleted { return StoreFailed; }
      return Moved;
    }
  }

  // The string-keyed store holds exactly these reports; keys that spell no report are ignored.
  ghost predicate Represents(objects: map<string, Bytes>, reports: map<Key, Bytes>) {
    forall k :: (k in reports <==> Encode(k) in objects) && (k in reports ==> reports[k] == objects[Encode(k)])
  }

  lemma AdvanceRefinesProtocol(c: Config<string>, d: Config<Key>, from: Key, to: Key, o: Outcome)
    requires Represents(c.store, d.store) && c.pc == d.pc && !c.pc.Halted?
    ensures var c', d' := Advance(c, Encode(from), Encode(to), o), Advance(d, from, to, o);
            Represents(c'.store, d'.store) && c'.pc == d'.pc
  {
    var c', d' := Advance(c, Encode(from), Encode(to), o), Advance(d, from, to, o);
    forall k
      ensures (k in d'.store <==> Encode(k) in c'.store) && (k in d'.store ==> d'.store[k] == c'.store[Encode(k)])
    {
      if Encode(k) == Encode(from) { KeyInjective(k, from); }
      if Encode(k) == Encode(to) { KeyInjective(k, to); }
    }
  }

  // The others do the same to both stores.
  ghost predicate Alike(f: Effect, g: (nat, map<Key, Bytes>) -> map<Key, Bytes>) {
    forall n, objects, reports :: Represents(objects, reports) ==> Represents(f(n, objects), g(n, reports))
  }

  // The manager's transition over string keys is the protocol's transition over pairs, call by
  // call, amid the same changes by others.
  lemma {:induction false} TransitionRefinesProtocol(
      c: Config<string>, d: Config<Key>, from: Key, to: Key, fault: nat -> Outcome,
      f: Effect, g: (nat, map<Key, Bytes>) -> map<Key, Bytes>, at: nat)
    requires Represents(c.store, d.store) && c.pc == d.pc && Alike(f, g)
    ensures var (x, n) := CompleteAmid(c, Encode(from), Encode(to), fault, f, at);
            var (y, m) := CompleteAmid(d, from, to, fault, g, at);
            Represents(x.store, y.store) && x.pc == y.pc && n == m
    decreases CallsLeft(c.pc)
  {
    hide Represents;
    if !c.pc.Halted? {
      var c1, d1 := c.(store := f(at, c.store)), d.(store := g(at, d.store));
      AdvanceRefinesProtocol(c1, d1, from, to, fault(at));
      TransitionRefinesProtocol(Advance(c1, Encode(from), Encode(to), fault(at)), Advance(d1, from, to, fault(at)),
                                from, to, fault, f, g, at + 1);
    }
  }
}
