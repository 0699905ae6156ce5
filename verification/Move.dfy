// The transition program of internal/lifecycle/lifecycle.go as a machine: one store call per
// step. It is generic in the key type, so the method that runs it over string keys (Lifecycle)
// and the concurrent protocol over (status, id) pairs (Protocol) share one definition.
module Move {
  import opened Wrappers
  import opened MemoryStore

  datatype MoveResult = Moved | UnknownReport | StoreFailed

  // The program counter, with the frame buffered between the calls.
  datatype Pc =
    | Read                      // about to Get the source
    | Recheck                   // source absent: about to Get the destination
    | Write(frame: Bytes)       // about to Put the destination
    | Drop                      // about to Delete the source
    | Halted(result: MoveResult)

  datatype Config<K> = Config(store: map<K, Bytes>, pc: Pc)

  // One store call with the given outcome.
  function Advance<K>(c: Config<K>, from: K, to: K, o: Outcome): Config<K>
    requires !c.pc.Halted?
  {
    match c.pc
    case Read =>
      if !o.Done? then c.(pc := Halted(StoreFailed))
      else if from in c.store then c.(pc := Write(c.store[from]))
      else c.(pc := Recheck)
    case Recheck =>
      c.(pc := Halted(if o.Done? && to in c.store then Moved else UnknownReport))
    case Write(frame) =>
      var store := if o.Lost? then c.store else c.store[to := frame];
      Config(store, if o.Done? then Drop else Halted(StoreFailed))
    case Drop =>
      var store := if o.Lost? then c.store else c.store - {from};
      Config(store, Halted(if o.Done? then Moved else StoreFailed))
  }

  // Calls still to make at most.
  function CallsLeft(pc: Pc): nat {
    match pc
    case Read => 3
    case Recheck => 1
    case Write(_) => 2
    case Drop => 1
    case Halted(_) => 0
  }

  // The uninterrupted, non-overlapping run whose i-th call has outcome fault(at + i).
  function Complete<K>(c: Config<K>, from: K, to: K, fault: nat -> Outcome, at: nat): (r: (Config<K>, nat))
    ensures r.0.pc.Halted?
    ensures at <= r.1 <= at + CallsLeft(c.pc)
    decreases CallsLeft(c.pc)
  {
    if c.pc.Halted? then (c, at)
    else Complete(Advance(c, from, to, fault(at)), from, to, fault, at + 1)
  }

  // The run in which others(n, store) is what everyone else has made of the store by the n-th call.
  function CompleteAmid<K>(c: Config<K>, from: K, to: K, fault: nat -> Outcome,
                           others: (nat, map<K, Bytes>) -> map<K, Bytes>, at: nat): (r: (Config<K>, nat))
    ensures r.0.pc.Halted?
    ensures at <= r.1 <= at + CallsLeft(c.pc)
    decreases CallsLeft(c.pc)
  {
    if c.pc.Halted? then (c, at)
    else CompleteAmid(Advance(c.(store := others(at, c.store)), from, to, fault(at)), from, to, fault, others, at + 1)
  }

  ghost predicate Quiet<K(!new)>(others: (nat, map<K, Bytes>) -> map<K, Bytes>) {
    forall n, store :: others(n, store) == store
  }

  lemma {:induction false} AmidQuiet<K(!new)>(c: Config<K>, from: K, to: K, fault: nat -> Outcome,
                                              others: (nat, map<K, Bytes>) -> map<K, Bytes>, at: nat)
    requires Quiet(others)
    ensures CompleteAmid(c, from, to, fault, others, at) == Complete(c, from, to, fault, at)
    decreases CallsLeft(c.pc)
  {
    if !c.pc.Halted? {
      assert c.(store := others(at, c.store)) == c;
      AmidQuiet(Advance(c, from, to, fault(at)), from, to, fault, others, at + 1);
    }
  }

  ghost predicate FaultFree(fault: nat -> Outcome) {
    forall n :: fault(n).Done?
  }

  // A fault-free run: the report is at the destination, the source is gone, nothing else has
  // changed; or, with neither key present, nothing has changed at all.
  lemma CompleteFaultFree<K>(store: map<K, Bytes>, from: K, to: K, fault: nat -> Outcome, at: nat)
    requires FaultFree(fault) && from != to
    ensures var r := Complete(Config(store, Read), from, to, fault, at).0;
            if from in store then
              r == Config(store[to := store[from]] - {from}, Halted(Moved))
            else
              r == Config(store, Halted(if to in store then Moved else UnknownReport))
  {
    var c1 := Advance(Config(store, Read), from, to, fault(at));
    var c2 := Advance(c1, from, to, fault(at + 1));
    if from in store {
      var c3 := Advance(c2, from, to, fault(at + 2));
      assert Complete(c2, from, to, fault, at + 2).0 == c3;
    } else {
      assert Complete(c2, from, to, fault, at + 2).0 == c2;
    }
  }

  // Whatever the faults: no other key is touched, the destination only ever receives the bytes
  // read from the source, and the source disappears only with the destination in place.
  lemma {:induction false} CompleteSafe<K>(c: Config<K>, from: K, to: K, fault: nat -> Outcome, at: nat, bytes: Bytes)
    requires from != to
    requires from in c.store ==> c.store[from] == bytes
    requires to in c.store ==> c.store[to] == bytes
    requires c.pc.Write? ==> c.pc.frame == bytes
    requires c.pc.Drop? ==> to in c.store
    ensures var s := Complete(c, from, to, fault, at).0.store;
            && (forall k :: k != from && k != to ==> (k in s <==> k in c.store) && (k in s ==> s[k] == c.store[k]))
            && (from in s ==> s[from] == bytes)
            && (to in s ==> s[to] == bytes)
            && (from in c.store || to in c.store ==> from in s || to in s)
            && (to in c.store ==> to in s)
            && (from in s ==> from in c.store)
    decreases CallsLeft(c.pc)
  {
    if !c.pc.Halted? {
      CompleteSafe(Advance(c, from, to, fault(at)), from, to, fault, at + 1, bytes);
    }
  }

  // What a transition returns, what it leaves in the store and how many calls it makes, whatever
  // the outcomes of its calls and whatever the others do before each of them. met is the store its
  // first Get meets.
  lemma ResultExactly<K>(store: map<K, Bytes>, from: K, to: K, fault: nat -> Outcome,
                         others: (nat, map<K, Bytes>) -> map<K, Bytes>, at: nat)
    ensures var met, r := others(at, store), CompleteAmid(Config(store, Read), from, to, fault, others, at);
            if !fault(at).Done? then
              r == (Config(met, Halted(StoreFailed)), at + 1)
            else if from !in met then
              var again := others(at + 1, met);
              r == (Config(again, Halted(if fault(at + 1).Done? && to in again then Moved else UnknownReport)), at + 2)
            else
              var again := others(at + 1, met);
              var copied := if fault(at + 1).Lost? then again else again[to := met[from]];
              if !fault(at + 1).Done? then r == (Config(copied, Halted(StoreFailed)), at + 2)
              else
                var last := others(at + 2, copied);
                r == (Config(if fault(at + 2).Lost? then last else last - {from},
                             Halted(if fault(at + 2).Done? then Moved else StoreFailed)), at + 3)
  {
    var c1 := Advance(Config(others(at, store), Read), from, to, fault(at));
    var r := CompleteAmid(Config(store, Read), from, to, fault, others, at);
    assert r == CompleteAmid(c1, from, to, fault, others, at + 1);
    if !c1.pc.Halted? {
      var c2 := Advance(c1.(store := others(at + 1, c1.store)), from, to, fault(at + 1));
      assert r == CompleteAmid(c2, from, to, fault, others, at + 2);
      if !c2.pc.Halted? {
        var c3 := Advance(c2.(store := others(at + 2, c2.store)), from, to, fault(at + 2));
        assert r == CompleteAmid(c3, from, to, fault, others, at + 3);
      }
    }
  }
}
