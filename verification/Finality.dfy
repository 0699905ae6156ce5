// When success means that a report has left pending. A transition's first Get decides: the exact
// condition under which every success it can still return is final, and a run in which one is
// not (internal/lifecycle/lifecycle.go).
module Finality {
  import opened Wrappers
  import opened MemoryStore
  import opened StatusKeys
  import opened Move
  import opened Protocol

  // Not ingested yet, but it can be: the id has not been drawn, or its ingest is about to Put.
  ghost predicate Ingestible(s: State, id: string) {
    && id !in s.ingested
    && (id !in s.minted || exists q :: q in s.procs && s.procs[q].Ingesting? && s.procs[q].id == id)
  }

  ghost predicate Succeeded(s: State, pid: nat) {
    pid in s.procs && s.procs[pid].Moving? && s.procs[pid].pc == Halted(Moved)
  }

  // However the run goes on, from the moment this transition has returned success its report has
  // left pending.
  ghost predicate AlwaysFinal(s: State, pid: nat, id: string) {
    forall events :: Valid(s, events) && Succeeded(Exec(s, events), pid) ==> Left(Exec(s, events), id)
  }

  // ----- Enough: the report was ingested at the Get, or never will be -----

  ghost predicate Stays(s: State, pid: nat, id: string, known: bool) {
    pid in s.procs && (s.procs[pid].Stopped? ||
      (s.procs[pid].Moving? && s.procs[pid].id == id && s.procs[pid].known == known && !s.procs[pid].pc.Read?))
  }

  lemma {:induction false} RunStays(s: State, events: seq<Event>, pid: nat, id: string, known: bool)
    requires Valid(s, events) && Stays(s, pid, id, known)
    ensures Stays(Exec(s, events), pid, id, known)
    decreases |events|
  {
    if events != [] { RunStays(Apply(s, events[0]), events[1..], pid, id, known); }
  }

  // An id that was drawn, was not ingested and has no ingest left.
  ghost predicate Dropped(s: State, id: string) {
    id !in s.ingested && id in s.minted && forall q :: q in s.procs && s.procs[q].Ingesting? ==> s.procs[q].id != id
  }

  lemma {:induction false} RunDropped(s: State, events: seq<Event>, id: string)
    requires Valid(s, events) && Dropped(s, id)
    ensures Dropped(Exec(s, events), id)
    decreases |events|
  {
    if events != [] {
      StepDropped(s, events[0], id);
      RunDropped(Apply(s, events[0]), events[1..], id);
    }
  }

  lemma StepDropped(s: State, e: Event, id: string)
    requires Enabled(s, e) && Dropped(s, id)
    ensures Dropped(Apply(s, e), id)
  {
  }

  lemma DroppedOrIngestible(s: State, id: string)
    requires id !in s.ingested
    ensures Dropped(s, id) <==> !Ingestible(s, id)
  {
  }

  lemma FinalWhenKnown(s: State, events: seq<Event>, pid: nat, id: string)
    requires Inv(s) && Valid(s, events) && Stays(s, pid, id, true)
    ensures Succeeded(Exec(s, events), pid) ==> Left(Exec(s, events), id)
  {
    hide Left;
    RunKeepsInv(s, events);
    RunStays(s, events, pid, id, true);
    var t := Exec(s, events);
    assert ProcessOk(t, t.procs[pid]);
  }

  lemma NoSuccessWhenDropped(s: State, events: seq<Event>, pid: nat, id: string)
    requires Inv(s) && Valid(s, events) && Stays(s, pid, id, false) && Dropped(s, id)
    ensures !Succeeded(Exec(s, events), pid)
  {
    RunKeepsInv(s, events);
    RunStays(s, events, pid, id, false);
    RunDropped(s, events, id);
    var t := Exec(s, events);
    assert ProcessOk(t, t.procs[pid]);
  }

  // ----- Needed: otherwise another transition can get ahead -----

  lemma FreshPid(s: State) returns (pid: nat)
    ensures pid !in s.procs
  {
    pid := 0;
    var rest := s.procs.Keys;
    while rest != {}
      invariant rest <= s.procs.Keys
      invariant forall p :: p in s.procs && p !in rest ==> p < pid
      decreases |rest|
    {
      var p :| p in rest;
      rest := rest - {p};
      if p >= pid { pid := p + 1; }
    }
  }

  // These events lead to success with the report still pending.
  ghost predicate EndsEarly(s: State, events: seq<Event>, pid: nat, id: string) {
    Valid(s, events) && Succeeded(Exec(s, events), pid) && Key(Pending, id) in Exec(s, events).store
  }

  lemma Before(s: State, e: Event, events: seq<Event>, pid: nat, id: string)
    requires Enabled(s, e) && EndsEarly(Apply(s, e), events, pid, id)
    ensures EndsEarly(s, [e] + events, pid, id)
  {
    hide Enabled, Apply, Succeeded;
    assert ([e] + events)[1..] == events;
  }

  // The source was absent; the report is pending by now, and someone else copies it.
  lemma OvertakenSucceeds(s: State, pid: nat, id: string, target: Status) returns (events: seq<Event>)
    requires Key(Pending, id) in s.store && !target.Pending?
    requires pid in s.procs && s.procs[pid] == Moving(id, target, false, Recheck)
    ensures EndsEarly(s, events, pid, id)
  {
    hide EndsEarly;
    var q := FreshPid(s);
    var frame := s.store[Key(Pending, id)];
    var s1 := Apply(s, BeginMove(q, id, target));
    var s2 := Apply(s1, Step(q, Done));
    assert s2.procs[q].pc == Write(frame) && s2.store == s.store;
    var s3 := Apply(s2, Step(q, Done));
    assert s3.store == s.store[Key(target, id) := frame];
    var s4 := Apply(s3, Step(pid, Done));
    assert EndsEarly(s4, [], pid, id) by { assert Succeeded(s4, pid) && Exec(s4, []) == s4; EarlyNow(s4, pid, id); }
    Before(s3, Step(pid, Done), [], pid, id);
    events := [Step(pid, Done)] + [];
    Before(s2, Step(q, Done), events, pid, id);
    events := [Step(q, Done)] + events;
    Before(s1, Step(q, Done), events, pid, id);
    events := [Step(q, Done)] + events;
    Before(s, BeginMove(q, id, target), events, pid, id);
    events := [BeginMove(q, id, target)] + events;
  }

  lemma EarlyNow(s: State, pid: nat, id: string)
    requires Succeeded(s, pid) && Key(Pending, id) in s.store
    ensures EndsEarly(s, [], pid, id)
  {
  }

  lemma IngestedLater(s: State, q: nat, pid: nat, id: string, target: Status) returns (events: seq<Event>)
    requires q in s.procs && s.procs[q].Ingesting? && s.procs[q].id == id && !target.Pending?
    requires pid in s.procs && s.procs[pid] == Moving(id, target, false, Recheck)
    ensures EndsEarly(s, events, pid, id)
  {
    hide EndsEarly;
    var t := Apply(s, PutReport(q, Done));
    events := OvertakenSucceeds(t, pid, id, target);
    Before(s, PutReport(q, Done), events, pid, id);
    events := [PutReport(q, Done)] + events;
  }

  lemma EndsEarlyWhenIngestible(s: State, pid: nat, id: string, target: Status) returns (events: seq<Event>)
    requires Ingestible(s, id) && !target.Pending?
    requires pid in s.procs && s.procs[pid] == Moving(id, target, false, Recheck)
    ensures EndsEarly(s, events, pid, id)
  {
    hide EndsEarly;
    if id in s.minted {
      var q :| q in s.procs && s.procs[q].Ingesting? && s.procs[q].id == id;
      events := IngestedLater(s, q, pid, id, target);
    } else {
      var q := FreshPid(s);
      var begin := BeginIngest(q, id, []);
      events := IngestedLater(Apply(s, begin), q, pid, id, target);
      Before(s, begin, events, pid, id);
      events := [begin] + events;
    }
  }

  lemma GetFindsNothing(s: State, pid: nat)
    requires Inv(s) && Enabled(s, Step(pid, Done)) && s.procs[pid].pc.Read? && Ingestible(s, s.procs[pid].id)
    ensures var p, t := s.procs[pid], Apply(s, Step(pid, Done));
            t.procs[pid] == Moving(p.id, p.target, false, Recheck) && Ingestible(t, p.id)
  {
    var p, t := s.procs[pid], Apply(s, Step(pid, Done));
    assert Key(Pending, p.id) !in s.store;
    if p.id in s.minted {
      var q :| q in s.procs && s.procs[q].Ingesting? && s.procs[q].id == p.id;
      assert q in t.procs && t.procs[q] == s.procs[q];
    }
  }

  // ----- The exact condition -----

  // A transition at its first Get: every success it can return from there on is final if and only
  // if the report is not one that has yet to be ingested. So for every report that is ever
  // ingested, success is final if and only if the ingest took effect before that Get.
  lemma SuccessFinalExactly(s: State, pid: nat)
    requires Reachable(s) && Enabled(s, Step(pid, Done)) && s.procs[pid].pc.Read?
    ensures var id := s.procs[pid].id;
            AlwaysFinal(Apply(s, Step(pid, Done)), pid, id) <==> !Ingestible(s, id)
  {
    hide Left, Valid, Exec;
    ReachableInv(s);
    assert ProcessOk(s, s.procs[pid]);
    var p := s.procs[pid];
    var t := Apply(s, Step(pid, Done));
    StepKeepsInv(s, Step(pid, Done));
    if Ingestible(s, p.id) {
      GetFindsNothing(s, pid);
      var events := EndsEarlyWhenIngestible(t, pid, p.id, p.target);
      PendingHasNotLeft(Exec(t, events), p.id);
    } else {
      forall events | Valid(t, events) && Succeeded(Exec(t, events), pid)
        ensures Left(Exec(t, events), p.id)
      {
        if p.id in s.ingested { FinalWhenKnown(t, events, pid, p.id); }
        else {
          DroppedOrIngestible(s, p.id);
          StepDropped(s, Step(pid, Done), p.id);
          NoSuccessWhenDropped(t, events, pid, p.id);
        }
      }
    }
  }

  lemma PendingHasNotLeft(s: State, id: string)
    ensures Key(Pending, id) in s.store ==> !Left(s, id)
  {
  }

  // From the initial state: a removal finds no source, the report is ingested, another removal
  // copies it, and the first returns success with the report still pending.
  lemma EarlyCallMaySucceedWhilePending(id: string, frame: Bytes)
    ensures exists s :: Reachable(s) && Key(Pending, id) in s.store
                        && 1 in s.procs && s.procs[1] == Moving(id, Removed, false, Halted(Moved))
  {
    hide Valid, Exec;
    InitialReachable();
    var s1 := Apply(Initial, BeginMove(1, id, Removed));
    Extend(Initial, BeginMove(1, id, Removed), s1);
    var s2 := Apply(s1, Step(1, Done));
    Extend(s1, Step(1, Done), s2);
    var s3 := Apply(s2, BeginIngest(0, id, frame));
    Extend(s2, BeginIngest(0, id, frame), s3);
    var s4 := Apply(s3, PutReport(0, Done));
    Extend(s3, PutReport(0, Done), s4);
    var s5 := Apply(s4, BeginMove(2, id, Removed));
    Extend(s4, BeginMove(2, id, Removed), s5);
    var s6 := Apply(s5, Step(2, Done));
    Extend(s5, Step(2, Done), s6);
    var s7 := Apply(s6, Step(2, Done));
    Extend(s6, Step(2, Done), s7);
    var s8 := Apply(s7, Step(1, Done));
    Extend(s7, Step(1, Done), s8);
  }
}
