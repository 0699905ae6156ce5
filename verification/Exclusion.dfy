// When a report is under exactly one status. Transitions exclude each other only when they do
// not overlap and none is left interrupted: the exact condition, over a store alone and over
// runs of the protocol, and what happens outside it (internal/lifecycle/lifecycle.go).
module Exclusion {
  import opened Wrappers
  import opened MemoryStore
  import opened StatusKeys
  import opened Move
  import opened Protocol

  predicate UnderExactlyOne(store: map<Key, Bytes>, id: string) {
    var p, r, q := Key(Pending, id) in store, Key(Removed, id) in store, Key(Published, id) in store;
    (p && !r && !q) || (!p && r && !q) || (!p && !r && q)
  }

  function Opposite(target: Status): Status
    requires !target.Pending?
  {
    if target.Removed? then Published else Removed
  }

  // The store before a transition, as a caller can look it up: not also under the opposite
  // status, unless that is all there is; and not unknown.
  predicate Settles(store: map<Key, Bytes>, id: string, target: Status)
    requires !target.Pending?
  {
    if Key(Opposite(target), id) in store
    then Key(Pending, id) !in store && Key(target, id) !in store
    else Key(Pending, id) in store || Key(target, id) in store
  }

  // One completed transition leaves its report under exactly one status if and only if the store
  // before it settles.
  lemma CompletedExactly(store: map<Key, Bytes>, id: string, target: Status, fault: nat -> Outcome, at: nat)
    requires !target.Pending? && FaultFree(fault)
    ensures var after := Complete(Config(store, Read), Key(Pending, id), Key(target, id), fault, at).0.store;
            && (UnderExactlyOne(after, id) <==> Settles(store, id, target))
            && Key(Pending, id) !in after
  {
    CompleteFaultFree(store, Key(Pending, id), Key(target, id), fault, at);
  }

  // The store after transitions of one report that each ran alone to completion.
  ghost function InTurn(store: map<Key, Bytes>, id: string, targets: seq<Status>, fault: nat -> Outcome, at: nat)
    : map<Key, Bytes>
    decreases |targets|
  {
    if targets == [] then store
    else
      var r := Complete(Config(store, Read), Key(Pending, id), Key(targets[0], id), fault, at);
      InTurn(r.0.store, id, targets[1..], fault, r.1)
  }

  // Any number of completed transitions, from any store: the first one decides, and no later one
  // can spoil or repair what it left.
  lemma {:induction false} ExactlyOneStatus(store: map<Key, Bytes>, id: string, targets: seq<Status>,
                                            fault: nat -> Outcome, at: nat)
    requires FaultFree(fault) && targets != []
    requires forall i :: 0 <= i < |targets| ==> !targets[i].Pending?
    ensures UnderExactlyOne(InTurn(store, id, targets, fault, at), id) <==> Settles(store, id, targets[0])
    decreases |targets|
  {
    var r := Complete(Config(store, Read), Key(Pending, id), Key(targets[0], id), fault, at);
    CompletedExactly(store, id, targets[0], fault, at);
    if |targets| == 1 {
      assert InTurn(r.0.store, id, targets[1..], fault, r.1) == r.0.store;
    } else {
      ExactlyOneStatus(r.0.store, id, targets[1..], fault, r.1);
      SettledStore(r.0.store, id, targets[1]);
    }
  }

  // A report under one status settles whatever the target; one that has left pending settles only
  // then.
  lemma SettledStore(store: map<Key, Bytes>, id: string, target: Status)
    requires !target.Pending?
    ensures UnderExactlyOne(store, id) ==> Settles(store, id, target)
    ensures Key(Pending, id) !in store && Settles(store, id, target) ==> UnderExactlyOne(store, id)
  {
  }

  // ----- With everything else going on in between -----

  // The event is a successful call of this transition, or no business of its report.
  predicate Apart(s: State, e: Event, id: string, pid: nat)
    requires Enabled(s, e)
  {
    match e
    case BeginIngest(_, _, _) => true
    case PutReport(q, _) => s.procs[q].id != id
    case BeginMove(_, _, _) => true
    case Step(q, o) => if q == pid then o.Done? else s.procs[q].id != id
    case Crash(q) => q != pid
  }

  ghost predicate AllApart(s: State, events: seq<Event>, id: string, pid: nat)
    requires Valid(s, events)
    decreases |events|
  {
    events == [] || (Apart(s, events[0], id, pid) && AllApart(Apply(s, events[0]), events[1..], id, pid))
  }

  // Two stores that hold this report alike.
  ghost predicate SameFor(a: map<Key, Bytes>, b: map<Key, Bytes>, id: string) {
    forall st: Status ::
      (Key(st, id) in a <==> Key(st, id) in b) && (Key(st, id) in a ==> a[Key(st, id)] == b[Key(st, id)])
  }

  lemma {:induction false} CompleteSame(c: Config<Key>, d: Config<Key>, id: string, target: Status,
                                        fault: nat -> Outcome, at: nat)
    requires SameFor(c.store, d.store, id) && c.pc == d.pc
    ensures var from, to := Key(Pending, id), Key(target, id);
            && SameFor(Complete(c, from, to, fault, at).0.store, Complete(d, from, to, fault, at).0.store, id)
            && Complete(c, from, to, fault, at).0.pc == Complete(d, from, to, fault, at).0.pc
    decreases CallsLeft(c.pc)
  {
    if !c.pc.Halted? {
      var from, to := Key(Pending, id), Key(target, id);
      CompleteSame(Advance(c, from, to, fault(at)), Advance(d, from, to, fault(at)), id, target, fault, at + 1);
    }
  }

  lemma ApartLeavesReport(s: State, e: Event, id: string, pid: nat)
    requires Enabled(s, e) && Apart(s, e, id, pid) && pid in s.procs && s.procs[pid].Moving? && s.procs[pid].id == id
    ensures var t := Apply(s, e);
            && pid in t.procs && t.procs[pid].Moving? && t.procs[pid].id == id
            && t.procs[pid].target == s.procs[pid].target
            && (!(e.Step? && e.pid == pid) ==> SameFor(t.store, s.store, id) && t.procs[pid].pc == s.procs[pid].pc)
  {
  }

  // Whatever ingests, removals and publications of other reports come in between, a transition
  // ends as it would have running alone.
  lemma {:induction false} EndsAsAlone(s: State, events: seq<Event>, id: string, pid: nat, fault: nat -> Outcome,
                                       at: nat)
    requires Valid(s, events) && AllApart(s, events, id, pid) && FaultFree(fault)
    requires pid in s.procs && s.procs[pid].Moving? && s.procs[pid].id == id
    ensures var t, p := Exec(s, events), s.procs[pid];
            && pid in t.procs && t.procs[pid].Moving?
            && (t.procs[pid].pc.Halted? ==>
                  var alone := Complete(Config(s.store, p.pc), Key(Pending, id), Key(p.target, id), fault, at).0;
                  SameFor(t.store, alone.store, id) && t.procs[pid].pc == alone.pc)
    decreases |events|
  {
    hide SameFor;
    var p := s.procs[pid];
    if events == [] {
      Same(s.store, s.store, id);
    } else {
      var e, t, u := events[0], Apply(s, events[0]), Exec(s, events);
      ApartLeavesReport(s, e, id, pid);
      var from, to := Key(Pending, id), Key(p.target, id);
      if e.Step? && e.pid == pid {
        assert Config(t.store, t.procs[pid].pc) == Advance(Config(s.store, p.pc), from, to, fault(at));
        EndsAsAlone(t, events[1..], id, pid, fault, at + 1);
      } else {
        EndsAsAlone(t, events[1..], id, pid, fault, at);
        CompleteSame(Config(t.store, p.pc), Config(s.store, p.pc), id, p.target, fault, at);
        SameChain(u.store, Complete(Config(t.store, p.pc), from, to, fault, at).0.store,
                  Complete(Config(s.store, p.pc), from, to, fault, at).0.store, id);
      }
    }
  }

  lemma Same(a: map<Key, Bytes>, b: map<Key, Bytes>, id: string)
    requires a == b
    ensures SameFor(a, b, id)
  {
  }

  lemma SameChain(a: map<Key, Bytes>, b: map<Key, Bytes>, c: map<Key, Bytes>, id: string)
    ensures SameFor(a, b, id) && SameFor(b, c, id) ==> SameFor(a, c, id)
  {
  }

  // So the condition is exact in the protocol as well, from any state, however earlier transitions
  // were cut: a transition that no other of its report overlaps, once it has completed, leaves the
  // report under exactly one status if and only if the store settled when it started.
  lemma ExactlyOneAmidOthers(s: State, events: seq<Event>, pid: nat)
    requires pid in s.procs && s.procs[pid].Moving? && s.procs[pid].pc.Read? && !s.procs[pid].target.Pending?
    requires Valid(s, events) && AllApart(s, events, s.procs[pid].id, pid)
    requires var t := Exec(s, events); pid in t.procs && t.procs[pid].Moving? && t.procs[pid].pc.Halted?
    ensures var p := s.procs[pid];
            UnderExactlyOne(Exec(s, events).store, p.id) <==> Settles(s.store, p.id, p.target)
  {
    var p := s.procs[pid];
    var fault: nat -> Outcome := n => Done;
    EndsAsAlone(s, events, p.id, pid, fault, 0);
    CompletedExactly(s.store, p.id, p.target, fault, 0);
  }

  // ----- Whole histories -----

  predicate InFlight(p: Process, id: string) {
    p.Moving? && p.id == id && !p.pc.Halted?
  }

  ghost predicate Active(s: State, id: string) {
    exists pid :: pid in s.procs && InFlight(s.procs[pid], id)
  }

  // No transition of the report begins while another is in flight.
  ghost predicate Solo(s: State, e: Event, id: string) {
    e.BeginMove? && e.id == id ==> !Active(s, id)
  }

  // Nor does one that has begun fail or stop.
  ghost predicate Orderly(s: State, e: Event, id: string)
    requires Enabled(s, e)
  {
    && Solo(s, e, id)
    && (e.Step? && s.procs[e.pid].id == id ==> e.outcome.Done?)
    && (e.Crash? ==> !InFlight(s.procs[e.pid], id))
  }

  ghost predicate AllOrderly(s: State, events: seq<Event>, id: string)
    requires Valid(s, events)
    decreases |events|
  {
    events == [] || (Orderly(s, events[0], id) && AllOrderly(Apply(s, events[0]), events[1..], id))
  }

  // What the transition in flight has made of a report that was under one status.
  predicate Midway(store: map<Key, Bytes>, p: Process)
    requires p.Moving? && !p.target.Pending?
  {
    match p.pc
    case Write(_) => UnderExactlyOne(store, p.id) && Key(Pending, p.id) in store
    case Drop =>
      Key(Pending, p.id) in store && Key(p.target, p.id) in store && Key(Opposite(p.target), p.id) !in store
    case _ => UnderExactlyOne(store, p.id)
  }

  ghost predicate InOrder(s: State, id: string) {
    && (forall p, q :: p in s.procs && q in s.procs && InFlight(s.procs[p], id) && InFlight(s.procs[q], id) ==> p == q)
    && (id in s.ingested ==>
          && (!Active(s, id) ==> UnderExactlyOne(s.store, id))
          && forall p :: p in s.procs && InFlight(s.procs[p], id) ==>
               !s.procs[p].target.Pending? && Midway(s.store, s.procs[p]))
  }

  lemma OwnStepInOrder(s: State, pid: nat, id: string)
    requires Inv(s) && InOrder(s, id) && Enabled(s, Step(pid, Done)) && s.procs[pid].id == id
    ensures InOrder(Apply(s, Step(pid, Done)), id)
  {
    var t := Apply(s, Step(pid, Done));
    assert ProcessOk(s, s.procs[pid]);
    assert InFlight(s.procs[pid], id);
    assert forall q :: q in t.procs && q != pid ==> t.procs[q] == s.procs[q];
    assert InFlight(t.procs[pid], id) ==> Active(t, id);
  }

  lemma IngestInOrder(s: State, pid: nat, o: Outcome, id: string)
    requires Inv(s) && InOrder(s, id) && Enabled(s, PutReport(pid, o)) && s.procs[pid].id == id
    ensures InOrder(Apply(s, PutReport(pid, o)), id)
  {
    var t := Apply(s, PutReport(pid, o));
    assert ProcessOk(s, s.procs[pid]);
    assert forall st: Status :: Key(st, id) !in s.store;
    forall q | q in t.procs && InFlight(t.procs[q], id)
      ensures q in s.procs && s.procs[q] == t.procs[q] && ProcessOk(s, s.procs[q])
    {
    }
  }

  lemma StepInOrder(s: State, e: Event, id: string)
    requires Inv(s) && InOrder(s, id) && Enabled(s, e) && Orderly(s, e, id)
    ensures InOrder(Apply(s, e), id)
  {
    var t := Apply(s, e);
    if e.Step? && s.procs[e.pid].id == id {
      OwnStepInOrder(s, e.pid, id);
    } else if e.PutReport? && s.procs[e.pid].id == id {
      IngestInOrder(s, e.pid, e.outcome, id);
    } else if e.BeginMove? && e.id == id {
      BeginInOrder(s, e.pid, id, e.target);
    } else {
      FlightsElsewhere(s, e, id);
      ElsewhereInOrder(s, t, id);
    }
  }

  lemma BeginInOrder(s: State, pid: nat, id: string, target: Status)
    requires InOrder(s, id) && !Active(s, id) && Enabled(s, BeginMove(pid, id, target))
    ensures InOrder(Apply(s, BeginMove(pid, id, target)), id)
  {
    var t := Apply(s, BeginMove(pid, id, target));
    assert InFlight(t.procs[pid], id);
    assert forall q :: q in t.procs && InFlight(t.procs[q], id) ==> q == pid;
  }

  // The same transitions of the report are in flight, at the same calls.
  ghost predicate SameFlights(s: State, t: State, id: string) {
    && (forall q :: q in s.procs && InFlight(s.procs[q], id) ==> q in t.procs && t.procs[q] == s.procs[q])
    && (forall q :: q in t.procs && InFlight(t.procs[q], id) ==> q in s.procs && s.procs[q] == t.procs[q])
  }

  lemma FlightsElsewhere(s: State, e: Event, id: string)
    requires Inv(s) && Enabled(s, e) && Orderly(s, e, id)
    requires e.Step? || e.PutReport? ==> s.procs[e.pid].id != id
    requires e.BeginMove? ==> e.id != id
    ensures var t := Apply(s, e);
            SameFlights(s, t, id) && SameFor(t.store, s.store, id) && (id in t.ingested <==> id in s.ingested)
  {
  }

  lemma ElsewhereInOrder(s: State, t: State, id: string)
    requires InOrder(s, id) && SameFlights(s, t, id)
    requires SameFor(t.store, s.store, id) && (id in t.ingested <==> id in s.ingested)
    ensures InOrder(t, id)
  {
    hide Midway, UnderExactlyOne;
    SameStatuses(t.store, s.store, id);
    forall p | p in t.procs && InFlight(t.procs[p], id) && id in t.ingested
      ensures !t.procs[p].target.Pending? && Midway(t.store, t.procs[p])
    {
      SameMidway(t.store, s.store, t.procs[p]);
    }
  }

  lemma SameStatuses(a: map<Key, Bytes>, b: map<Key, Bytes>, id: string)
    requires SameFor(a, b, id)
    ensures UnderExactlyOne(a, id) <==> UnderExactlyOne(b, id)
  {
  }

  lemma SameMidway(a: map<Key, Bytes>, b: map<Key, Bytes>, p: Process)
    requires p.Moving? && !p.target.Pending? && SameFor(a, b, p.id)
    ensures Midway(a, p) <==> Midway(b, p)
  {
  }

  lemma {:induction false} RunInOrder(s: State, events: seq<Event>, id: string)
    requires Inv(s) && InOrder(s, id) && Valid(s, events) && AllOrderly(s, events, id)
    ensures InOrder(Exec(s, events), id)
    decreases |events|
  {
    hide InOrder, Inv, Orderly, Enabled, Apply;
    if events != [] {
      StepKeepsInv(s, events[0]);
      StepInOrder(s, events[0], id);
      RunInOrder(Apply(s, events[0]), events[1..], id);
    }
  }

  // Over every history in which the transitions of a report do not overlap and each completes,
  // with its ingest and everything about other reports interleaved at will, the report is under
  // exactly one status whenever none is in flight.
  lemma OrderlyHistory(events: seq<Event>, id: string)
    requires Valid(Initial, events) && AllOrderly(Initial, events, id)
    ensures var t := Exec(Initial, events);
            id in t.ingested && !Active(t, id) ==> UnderExactlyOne(t.store, id)
  {
    RunInOrder(Initial, events, id);
  }

  // ----- Outside the condition -----

  lemma IngestReachable(id: string, frame: Bytes)
    ensures Reachable(State(map[Key(Pending, id) := frame], map[0 := Stopped], map[id := frame], {id}))
  {
    var s := State(map[], map[0 := Ingesting(id, frame)], map[id := frame], {});
    InitialReachable();
    Extend(Initial, BeginIngest(0, id, frame), s);
    Extend(s, PutReport(0, Done), State(map[Key(Pending, id) := frame], map[0 := Stopped], map[id := frame], {id}));
  }

  // A removal (process 1) and a publication (process 2) of one report in flight together.
  ghost function Racing(store: map<Key, Bytes>, id: string, frame: Bytes, removal: Pc, publication: Pc): State {
    State(store,
          map[0 := Stopped, 1 := Moving(id, Removed, !removal.Read?, removal),
              2 := Moving(id, Published, !publication.Read?, publication)],
          map[id := frame], {id})
  }

  lemma RacingReachable(id: string, frame: Bytes)
    ensures Reachable(Racing(map[Key(Pending, id) := frame], id, frame, Read, Read))
  {
    var store := map[Key(Pending, id) := frame];
    IngestReachable(id, frame);
    var s := State(store, map[0 := Stopped], map[id := frame], {id});
    var t := Apply(s, BeginMove(1, id, Removed));
    Extend(s, BeginMove(1, id, Removed), t);
    Extend(t, BeginMove(2, id, Published), Racing(store, id, frame, Read, Read));
  }

  lemma RemovalSteps(store: map<Key, Bytes>, id: string, frame: Bytes, r: Pc, p: Pc, c: Config<Key>)
    requires Reachable(Racing(store, id, frame, r, p)) && !r.Halted?
    requires c == Advance(Config(store, r), Key(Pending, id), Key(Removed, id), Done)
    ensures Reachable(Racing(c.store, id, frame, c.pc, p))
  {
    Extend(Racing(store, id, frame, r, p), Step(1, Done), Racing(c.store, id, frame, c.pc, p));
  }

  lemma PublicationSteps(store: map<Key, Bytes>, id: string, frame: Bytes, r: Pc, p: Pc, c: Config<Key>)
    requires Reachable(Racing(store, id, frame, r, p)) && !p.Halted?
    requires c == Advance(Config(store, p), Key(Pending, id), Key(Published, id), Done)
    ensures Reachable(Racing(c.store, id, frame, r, c.pc))
  {
    Extend(Racing(store, id, frame, r, p), Step(2, Done), Racing(c.store, id, frame, r, c.pc));
  }

  // Under a race exclusion fails: two transitions that both read before either deletes leave
  // the report removed and published at once, and both return success.
  lemma RaceLeavesTwoStatuses(id: string, frame: Bytes)
    ensures exists s :: Reachable(s) && Key(Removed, id) in s.store && Key(Published, id) in s.store
                        && 1 in s.procs && s.procs[1] == Moving(id, Removed, true, Halted(Moved))
                        && 2 in s.procs && s.procs[2] == Moving(id, Published, true, Halted(Moved))
  {
    hide Reachable;
    var s0 := map[Key(Pending, id) := frame];
    var s1 := s0[Key(Removed, id) := frame];
    var s2 := s1[Key(Published, id) := frame];
    var s3 := s2 - {Key(Pending, id)};
    RacingReachable(id, frame);
    RemovalSteps(s0, id, frame, Read, Read, Config(s0, Write(frame)));
    PublicationSteps(s0, id, frame, Write(frame), Read, Config(s0, Write(frame)));
    RemovalSteps(s0, id, frame, Write(frame), Write(frame), Config(s1, Drop));
    PublicationSteps(s1, id, frame, Drop, Write(frame), Config(s2, Drop));
    RemovalSteps(s2, id, frame, Drop, Drop, Config(s3, Halted(Moved)));
    assert s3 - {Key(Pending, id)} == s3;
    PublicationSteps(s3, id, frame, Halted(Moved), Drop, Config(s3, Halted(Moved)));
    assert Reachable(Racing(s3, id, frame, Halted(Moved), Halted(Moved)));
  }

  // Reached without two transitions of the report ever overlapping.
  ghost predicate AllSolo(s: State, events: seq<Event>, id: string)
    requires Valid(s, events)
    decreases |events|
  {
    events == [] || (Solo(s, events[0], id) && AllSolo(Apply(s, events[0]), events[1..], id))
  }

  ghost predicate SoloReachable(s: State, id: string) {
    exists events :: Valid(Initial, events) && AllSolo(Initial, events, id) && s == Exec(Initial, events)
  }

  lemma {:induction false} SoloAppend(s: State, events: seq<Event>, e: Event, id: string)
    requires Valid(s, events) && AllSolo(s, events, id) && Enabled(Exec(s, events), e) && Solo(Exec(s, events), e, id)
    ensures Valid(s, events + [e]) && AllSolo(s, events + [e], id)
    ensures Exec(s, events + [e]) == Apply(Exec(s, events), e)
    decreases |events|
  {
    hide Solo, Enabled, Apply;
    ValidAppend(s, events, e);
    if events == [] {
      assert [e][1..] == [] && AllSolo(Apply(s, e), [], id);
    } else {
      assert (events + [e])[1..] == events[1..] + [e];
      SoloAppend(Apply(s, events[0]), events[1..], e, id);
    }
  }

  lemma ExtendSolo(s: State, e: Event, t: State, id: string)
    requires SoloReachable(s, id) && Enabled(s, e) && Solo(s, e, id) && t == Apply(s, e)
    ensures SoloReachable(t, id)
  {
    hide Solo, Enabled, Apply;
    var events :| Valid(Initial, events) && AllSolo(Initial, events, id) && s == Exec(Initial, events);
    SoloAppend(Initial, events, e, id);
  }

  lemma SoloInitial(id: string)
    ensures SoloReachable(Initial, id)
  {
    assert Valid(Initial, []) && AllSolo(Initial, [], id);
  }

  // A report ingested by process 0 and removed by process 1, up to its lost Delete.
  ghost function Interrupted(id: string, frame: Bytes): State {
    State(map[Key(Pending, id) := frame, Key(Removed, id) := frame],
          map[0 := Stopped, 1 := Moving(id, Removed, true, Halted(StoreFailed))],
          map[id := frame], {id})
  }

  lemma InterruptedReachable(id: string, frame: Bytes)
    ensures SoloReachable(Interrupted(id, frame), id)
  {
    hide SoloReachable, AllSolo, Valid, Exec;
    SoloInitial(id);
    var s1 := Apply(Initial, BeginIngest(0, id, frame));
    ExtendSolo(Initial, BeginIngest(0, id, frame), s1, id);
    var s2 := State(map[Key(Pending, id) := frame], map[0 := Stopped], map[id := frame], {id});
    ExtendSolo(s1, PutReport(0, Done), s2, id);
    var s3 := s2.(procs := map[0 := Stopped, 1 := Moving(id, Removed, false, Read)]);
    ExtendSolo(s2, BeginMove(1, id, Removed), s3, id);
    var s4 := s2.(procs := map[0 := Stopped, 1 := Moving(id, Removed, true, Write(frame))]);
    ExtendSolo(s3, Step(1, Done), s4, id);
    var s5 := Interrupted(id, frame).(procs := map[0 := Stopped, 1 := Moving(id, Removed, true, Drop)]);
    ExtendSolo(s4, Step(1, Done), s5, id);
    ExtendSolo(s5, Step(1, Lost), Interrupted(id, frame), id);
  }

  // The same, with a publication by process 2.
  ghost function Overtaken(store: map<Key, Bytes>, id: string, frame: Bytes, pc: Pc): State {
    State(store,
          map[0 := Stopped, 1 := Moving(id, Removed, true, Halted(StoreFailed)),
              2 := Moving(id, Published, !pc.Read?, pc)],
          map[id := frame], {id})
  }

  lemma OvertakenSteps(store: map<Key, Bytes>, id: string, frame: Bytes, p: Pc, c: Config<Key>)
    requires SoloReachable(Overtaken(store, id, frame, p), id) && !p.Halted?
    requires c == Advance(Config(store, p), Key(Pending, id), Key(Published, id), Done)
    ensures SoloReachable(Overtaken(c.store, id, frame, c.pc), id)
  {
    hide SoloReachable;
    ExtendSolo(Overtaken(store, id, frame, p), Step(2, Done), Overtaken(c.store, id, frame, c.pc), id);
  }

  // Without any overlap exclusion fails after an interruption: a removal whose Delete is lost,
  // then a publication that runs alone and returns success, leave the report under both.
  lemma InterruptedThenOther(id: string, frame: Bytes)
    ensures exists s :: SoloReachable(s, id) && Key(Removed, id) in s.store && Key(Published, id) in s.store
                        && 1 in s.procs && s.procs[1] == Moving(id, Removed, true, Halted(StoreFailed))
                        && 2 in s.procs && s.procs[2] == Moving(id, Published, true, Halted(Moved))
  {
    hide SoloReachable, AllSolo, Valid, Exec;
    InterruptedReachable(id, frame);
    var s := Interrupted(id, frame);
    var both := s.store[Key(Published, id) := frame];
    var last := both - {Key(Pending, id)};
    ExtendSolo(s, BeginMove(2, id, Published), Overtaken(s.store, id, frame, Read), id);
    OvertakenSteps(s.store, id, frame, Read, Config(s.store, Write(frame)));
    OvertakenSteps(s.store, id, frame, Write(frame), Config(both, Drop));
    OvertakenSteps(both, id, frame, Drop, Config(last, Halted(Moved)));
    assert SoloReachable(Overtaken(last, id, frame, Halted(Moved)), id);
  }
}
