// Exclusion under races: exactly when a report can no longer come to be under two statuses,
// whatever transitions of it overlap, fail or stop (internal/lifecycle/lifecycle.go).
module Races {
  import opened Wrappers
  import opened MemoryStore
  import opened StatusKeys
  import opened Move
  import opened Protocol
  import opened Exclusion
  import opened Finality

  // However the run goes on, whenever the report has left pending it is under exactly one status.
  ghost predicate AlwaysExclusive(s: State, id: string) {
    forall events :: Valid(s, events) && Left(Exec(s, events), id) ==> UnderExactlyOne(Exec(s, events).store, id)
  }

  // A transition of the report past its Get of the source: it will write its destination, or has.
  predicate Writer(p: Process, id: string) {
    p.Moving? && p.id == id && (p.pc.Write? || p.pc.Drop?)
  }

  // The report has left pending for one terminal status, and nobody is about to write the other.
  ghost predicate Decided(s: State, id: string) {
    && Left(s, id) && UnderExactlyOne(s.store, id)
    && forall pid :: pid in s.procs && Writer(s.procs[pid], id) ==> Key(s.procs[pid].target, id) in s.store
  }

  // ----- Enough -----

  lemma StepDecided(s: State, e: Event, id: string)
    requires Inv(s) && Enabled(s, e) && Decided(s, id)
    ensures Decided(Apply(s, e), id)
  {
    hide Held;
    var t := Apply(s, e);
    if e.pid in s.procs { assert ProcessOk(s, s.procs[e.pid]); }
    assert forall st: Status :: Key(st, id) in t.store <==> Key(st, id) in s.store;
    forall pid | pid in t.procs && Writer(t.procs[pid], id)
      ensures Key(t.procs[pid].target, id) in t.store
    {
      assert pid in s.procs && Writer(s.procs[pid], id) && s.procs[pid].target == t.procs[pid].target;
    }
  }

  lemma {:induction false} RunDecided(s: State, events: seq<Event>, id: string)
    requires Inv(s) && Valid(s, events) && Decided(s, id)
    ensures Decided(Exec(s, events), id)
    decreases |events|
  {
    hide Inv, Decided, Enabled, Apply;
    if events != [] {
      StepKeepsInv(s, events[0]);
      StepDecided(s, events[0], id);
      RunDecided(Apply(s, events[0]), events[1..], id);
    }
  }

  // ----- Needed -----

  // These events lead to the report having left pending for both terminal statuses.
  ghost predicate EndsTwice(s: State, events: seq<Event>, id: string) {
    && Valid(s, events)
    && var t := Exec(s, events);
    Left(t, id) && Key(Removed, id) in t.store && Key(Published, id) in t.store
  }

  lemma TwiceNow(s: State, id: string)
    requires Left(s, id) && Key(Removed, id) in s.store && Key(Published, id) in s.store
    ensures EndsTwice(s, [], id)
  {
  }

  lemma TwiceBefore(s: State, e: Event, events: seq<Event>, id: string)
    requires Enabled(s, e) && EndsTwice(Apply(s, e), events, id)
    ensures EndsTwice(s, [e] + events, id)
  {
    hide Enabled, Apply, Left;
    assert ([e] + events)[1..] == events;
  }

  // A removal and a publication, both past their Get of the pending report.
  lemma BothWrite(s: State, r: nat, p: nat, id: string, frame: Bytes) returns (events: seq<Event>)
    requires id in s.ingested && r != p && r in s.procs && p in s.procs
    requires s.procs[r] == Moving(id, Removed, true, Write(frame))
    requires s.procs[p] == Moving(id, Published, true, Write(frame))
    ensures EndsTwice(s, events, id)
  {
    hide EndsTwice;
    var s1 := Apply(s, Step(r, Done));
    assert s1.store == s.store[Key(Removed, id) := frame] && s1.procs[r] == Moving(id, Removed, true, Drop);
    var s2 := Apply(s1, Step(p, Done));
    assert s2.store == s1.store[Key(Published, id) := frame] && s2.procs[r] == Moving(id, Removed, true, Drop);
    var s3 := Apply(s2, Step(r, Done));
    assert s3.store == s2.store - {Key(Pending, id)};
    TwiceNow(s3, id);
    TwiceBefore(s2, Step(r, Done), [], id);
    events := [Step(r, Done)] + [];
    TwiceBefore(s1, Step(p, Done), events, id);
    events := [Step(p, Done)] + events;
    TwiceBefore(s, Step(r, Done), events, id);
    events := [Step(r, Done)] + events;
  }

  // While a report is pending, two new transitions of it can still race.
  lemma PendingCanRace(s: State, id: string) returns (events: seq<Event>)
    requires id in s.ingested && Key(Pending, id) in s.store
    ensures EndsTwice(s, events, id)
  {
    hide EndsTwice;
    var frame := s.store[Key(Pending, id)];
    var r := FreshPid(s);
    var s1 := Apply(s, BeginMove(r, id, Removed));
    var p := FreshPid(s1);
    var s2 := Apply(s1, BeginMove(p, id, Published));
    var s3 := Apply(s2, Step(r, Done));
    assert s3.procs[r] == Moving(id, Removed, true, Write(frame)) && s3.procs[p] == Moving(id, Published, false, Read);
    var s4 := Apply(s3, Step(p, Done));
    events := BothWrite(s4, r, p, id, frame);
    TwiceBefore(s3, Step(p, Done), events, id);
    events := [Step(p, Done)] + events;
    TwiceBefore(s2, Step(r, Done), events, id);
    events := [Step(r, Done)] + events;
    TwiceBefore(s1, BeginMove(p, id, Published), events, id);
    events := [BeginMove(p, id, Published)] + events;
    TwiceBefore(s, BeginMove(r, id, Removed), events, id);
    events := [BeginMove(r, id, Removed)] + events;
  }

  // One about to write the other status gets there.
  lemma WriterGetsThere(s: State, pid: nat, id: string) returns (events: seq<Event>)
    requires Inv(s) && Left(s, id) && UnderExactlyOne(s.store, id)
    requires pid in s.procs && Writer(s.procs[pid], id) && Key(s.procs[pid].target, id) !in s.store
    ensures EndsTwice(s, events, id)
  {
    assert ProcessOk(s, s.procs[pid]);
    var t := Apply(s, Step(pid, Done));
    assert t.store == s.store[Key(s.procs[pid].target, id) := s.procs[pid].pc.frame];
    TwiceNow(t, id);
    TwiceBefore(s, Step(pid, Done), [], id);
    events := [Step(pid, Done)] + [];
  }

  lemma CanEndTwice(s: State, id: string) returns (events: seq<Event>)
    requires Inv(s) && id in s.ingested && !Decided(s, id)
    ensures EndsTwice(s, events, id)
  {
    hide EndsTwice;
    assert Held(s, id);
    if Key(Pending, id) in s.store {
      events := PendingCanRace(s, id);
    } else if !UnderExactlyOne(s.store, id) {
      TwiceNow(s, id);
      events := [];
    } else {
      var pid :| pid in s.procs && Writer(s.procs[pid], id) && Key(s.procs[pid].target, id) !in s.store;
      events := WriterGetsThere(s, pid, id);
    }
  }

  // ----- The exact condition -----

  // For every ingested report in every reachable state: no continuation, with whatever overlaps,
  // faults and crashes, takes it to two terminal statuses if and only if it is decided. Until then
  // it is open to a race.
  lemma ExclusiveExactly(s: State, id: string)
    requires Reachable(s) && id in s.ingested
    ensures AlwaysExclusive(s, id) <==> Decided(s, id)
  {
    hide Valid, Exec, Decided, Left, UnderExactlyOne, Inv;
    ReachableInv(s);
    if Decided(s, id) {
      forall events | Valid(s, events)
        ensures UnderExactlyOne(Exec(s, events).store, id)
      {
        RunDecided(s, events, id);
        DecidedIsOne(Exec(s, events), id);
      }
    } else {
      var events := CanEndTwice(s, id);
      TwiceIsNotOne(s, events, id);
    }
  }

  lemma DecidedIsOne(s: State, id: string)
    requires Decided(s, id)
    ensures UnderExactlyOne(s.store, id)
  {
  }

  lemma TwiceIsNotOne(s: State, events: seq<Event>, id: string)
    requires EndsTwice(s, events, id)
    ensures Valid(s, events) && Left(Exec(s, events), id) && !UnderExactlyOne(Exec(s, events).store, id)
  {
  }

  // The same for a report that has left pending already, where it can be said of every continuation.
  ghost predicate OneThroughout(s: State, id: string) {
    forall events :: Valid(s, events) ==> UnderExactlyOne(Exec(s, events).store, id)
  }

  // In particular after a transition to a target: the report stays under that status alone, in
  // every continuation, if and only if it is not under the opposite one and no transition to the
  // opposite one is between its first Get and its Delete.
  lemma AloneForGoodExactly(s: State, id: string, target: Status)
    requires Reachable(s) && Left(s, id) && !target.Pending? && Key(target, id) in s.store
    ensures OneThroughout(s, id)
            <==> Key(Opposite(target), id) !in s.store
                 && forall pid :: pid in s.procs && Writer(s.procs[pid], id) ==> s.procs[pid].target != Opposite(target)
  {
    hide Valid, Exec, UnderExactlyOne, Left, Decided;
    ReachableInv(s);
    IngestedWhenLeft(s, id);
    ExclusiveExactly(s, id);
    DecidedFor(s, id, target);
    if OneThroughout(s, id) {
      forall events | Valid(s, events) && Left(Exec(s, events), id)
        ensures UnderExactlyOne(Exec(s, events).store, id)
      {
      }
      assert AlwaysExclusive(s, id);
    }
    if AlwaysExclusive(s, id) {
      forall events | Valid(s, events)
        ensures UnderExactlyOne(Exec(s, events).store, id)
      {
        RunKeepsInv(s, events);
        assert Left(Exec(s, events), id);
      }
    }
  }

  lemma IngestedWhenLeft(s: State, id: string)
    ensures Left(s, id) ==> id in s.ingested
  {
  }

  lemma DecidedFor(s: State, id: string, target: Status)
    requires Inv(s) && Left(s, id) && !target.Pending? && Key(target, id) in s.store
    ensures Decided(s, id)
            <==> Key(Opposite(target), id) !in s.store
                 && forall pid :: pid in s.procs && Writer(s.procs[pid], id) ==> s.procs[pid].target != Opposite(target)
  {
    forall pid | pid in s.procs && Writer(s.procs[pid], id)
      ensures !s.procs[pid].target.Pending?
    {
      assert ProcessOk(s, s.procs[pid]);
    }
  }
}
