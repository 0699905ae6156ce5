// The status protocol under concurrency: any number of ingests and transitions in flight over
// one store, each a program of single store calls that can fail, with or without effect, or
// stop for good between any two calls (internal/storage/sink.go, internal/lifecycle/lifecycle.go).
module Protocol {
  import opened Wrappers
  import opened MemoryStore
  import opened StatusKeys
  import opened Move

  // known is history: the report had been ingested when the transition made its first Get.
  datatype Process =
    | Ingesting(id: string, frame: Bytes)          // sealed, about to Put the pending key
    | Moving(id: string, target: Status, known: bool, pc: Pc)
    | Stopped

  // minted and ingested are history: the frame sealed for each id drawn so far, and the ids
  // whose ingest Put took effect.
  datatype State = State(
    store: map<Key, Bytes>,
    procs: map<nat, Process>,
    minted: map<string, Bytes>,
    ingested: set<string>)

  datatype Event =
    | BeginIngest(pid: nat, id: string, frame: Bytes)
    | PutReport(pid: nat, outcome: Outcome)
    | BeginMove(pid: nat, id: string, target: Status)
    | Step(pid: nat, outcome: Outcome)
    | Crash(pid: nat)

  const Initial := State(map[], map[], map[], {})

  // Ids are fresh: 80 random bits per id make a collision negligible (sink.go).
  predicate Enabled(s: State, e: Event) {
    match e
    case BeginIngest(pid, id, _) => pid !in s.procs && id !in s.minted
    case PutReport(pid, _) => pid in s.procs && s.procs[pid].Ingesting?
    case BeginMove(pid, _, target) => pid !in s.procs && !target.Pending?
    case Step(pid, _) => pid in s.procs && s.procs[pid].Moving? && !s.procs[pid].pc.Halted?
    case Crash(pid) => pid in s.procs
  }

  function Apply(s: State, e: Event): State
    requires Enabled(s, e)
  {
    match e
    case BeginIngest(pid, id, frame) =>
      s.(procs := s.procs[pid := Ingesting(id, frame)], minted := s.minted[id := frame])
    case PutReport(pid, o) =>
      var p := s.procs[pid];
      if o.Lost? then s.(procs := s.procs[pid := Stopped])
      else s.(store := s.store[Key(Pending, p.id) := p.frame],
              procs := s.procs[pid := Stopped],
              ingested := s.ingested + {p.id})
    case BeginMove(pid, id, target) =>
      s.(procs := s.procs[pid := Moving(id, target, false, Read)])
    case Step(pid, o) =>
      var p := s.procs[pid];
      var c := Advance(Config(s.store, p.pc), Key(Pending, p.id), Key(p.target, p.id), o);
      var known := if p.pc.Read? then p.id in s.ingested else p.known;
      s.(store := c.store, procs := s.procs[pid := Moving(p.id, p.target, known, c.pc)])
    case Crash(pid) =>
      s.(procs := s.procs[pid := Stopped])
  }

  ghost predicate Valid(s: State, events: seq<Event>)
    decreases |events|
  {
    events == [] || (Enabled(s, events[0]) && Valid(Apply(s, events[0]), events[1..]))
  }

  ghost function Exec(s: State, events: seq<Event>): State
    requires Valid(s, events)
    decreases |events|
  {
    if events == [] then s else Exec(Apply(s, events[0]), events[1..])
  }

  // The report is held under some status.
  predicate Held(s: State, id: string) {
    || Key(Pending, id) in s.store
    || Key(Removed, id) in s.store
    || Key(Published, id) in s.store
  }

  // The report has left pending: by then it is under a terminal status for good.
  predicate Left(s: State, id: string) {
    id in s.ingested && Key(Pending, id) !in s.store
  }

  // What a process in flight may rely on.
  predicate ProcessOk(s: State, p: Process) {
    match p
    case Ingesting(id, frame) => id in s.minted && s.minted[id] == frame && id !in s.ingested
    case Moving(id, target, known, pc) =>
      && !target.Pending?
      && (known ==> id in s.ingested)
      && (match pc
          case Read => !known
          case Recheck => known ==> Left(s, id)
          case Write(frame) => known && id in s.minted && s.minted[id] == frame
          case Drop => known && Key(target, id) in s.store
          case Halted(r) => r.Moved? ==> Key(target, id) in s.store && (known ==> Left(s, id)))
    case Stopped => true
  }

  ghost predicate StoreOk(s: State) {
    && s.ingested <= s.minted.Keys
    && (forall k :: k in s.store ==> k.id in s.ingested && s.store[k] == s.minted[k.id])
    && (forall id :: id in s.ingested ==> Held(s, id))
  }

  ghost predicate ProcessesOk(s: State) {
    && (forall pid :: pid in s.procs ==> ProcessOk(s, s.procs[pid]))
    && (forall p, q :: p in s.procs && q in s.procs && p != q && s.procs[p].Ingesting? && s.procs[q].Ingesting?
          ==> s.procs[p].id != s.procs[q].id)
  }

  ghost predicate Inv(s: State) {
    StoreOk(s) && ProcessesOk(s)
  }

  // What a step may change is one-way: frames and ingests are never forgotten, a terminal key
  // stays, and a report that has left pending never returns to it.
  ghost predicate OneWay(s: State, t: State) {
    && s.ingested <= t.ingested
    && (forall id :: id in s.minted ==> id in t.minted && t.minted[id] == s.minted[id])
    && (forall k :: k in s.store && !k.status.Pending? ==> k in t.store)
    && (forall id :: Left(s, id) ==> Left(t, id))
  }

  lemma OneWayToSelf(s: State)
    ensures OneWay(s, s)
  {
  }

  lemma InvInitial()
    ensures Inv(Initial)
  {
  }

  // A process in flight is not disturbed by what the others do.
  lemma ProcessUndisturbed(s: State, t: State, p: Process)
    requires ProcessOk(s, p) && OneWay(s, t)
    requires p.Ingesting? ==> (p.id in t.ingested ==> p.id in s.ingested)
    ensures ProcessOk(t, p)
  {
  }

  lemma AdvanceOneWay(s: State, pid: nat, o: Outcome)
    requires Inv(s) && Enabled(s, Step(pid, o))
    ensures OneWay(s, Apply(s, Step(pid, o)))
  {
    assert ProcessOk(s, s.procs[pid]);
  }

  lemma AdvanceKeepsStore(s: State, pid: nat, o: Outcome)
    requires Inv(s) && Enabled(s, Step(pid, o))
    ensures StoreOk(Apply(s, Step(pid, o)))
  {
    var t := Apply(s, Step(pid, o));
    assert ProcessOk(s, s.procs[pid]);
    forall id | id in t.ingested
      ensures Held(t, id)
    {
      assert Held(s, id);
    }
  }

  lemma AdvanceKeepsProcess(s: State, pid: nat, o: Outcome)
    requires Inv(s) && Enabled(s, Step(pid, o))
    ensures var t := Apply(s, Step(pid, o)); ProcessOk(t, t.procs[pid])
  {
    assert ProcessOk(s, s.procs[pid]);
  }

  lemma PutKeepsStore(s: State, pid: nat, o: Outcome)
    requires Inv(s) && Enabled(s, PutReport(pid, o))
    ensures var t := Apply(s, PutReport(pid, o)); StoreOk(t) && OneWay(s, t)
  {
    var t := Apply(s, PutReport(pid, o));
    assert ProcessOk(s, s.procs[pid]);
    forall id | id in t.ingested
      ensures Held(t, id)
    {
      assert id in s.ingested ==> Held(s, id);
    }
  }

  lemma StepKeepsInv(s: State, e: Event)
    requires Inv(s) && Enabled(s, e)
    ensures Inv(Apply(s, e))
    ensures OneWay(s, Apply(s, e))
  {
    var t := Apply(s, e);
    if e.Step? {
      AdvanceOneWay(s, e.pid, e.outcome);
      AdvanceKeepsStore(s, e.pid, e.outcome);
      AdvanceKeepsProcess(s, e.pid, e.outcome);
    } else if e.PutReport? {
      assert ProcessOk(s, s.procs[e.pid]);
      PutKeepsStore(s, e.pid, e.outcome);
    }
    assert StoreOk(t) && OneWay(s, t);
    forall q | q in t.procs
      ensures ProcessOk(t, t.procs[q])
    {
      if q != e.pid { ProcessUndisturbed(s, t, s.procs[q]); }
    }
  }

  lemma {:induction false} RunKeepsInv(s: State, events: seq<Event>)
    requires Inv(s) && Valid(s, events)
    ensures Inv(Exec(s, events))
    ensures OneWay(s, Exec(s, events))
    decreases |events|
  {
    if events != [] {
      StepKeepsInv(s, events[0]);
      RunKeepsInv(Apply(s, events[0]), events[1..]);
    }
  }

  ghost predicate Reachable(s: State) {
    exists events :: Valid(Initial, events) && s == Exec(Initial, events)
  }

  lemma ReachableInv(s: State)
    requires Reachable(s)
    ensures Inv(s)
  {
    var events :| Valid(Initial, events) && s == Exec(Initial, events);
    RunKeepsInv(Initial, events);
  }

  // No loss: once an ingest Put has taken effect (s0 --e-->), after any further steps of any
  // processes the report is held under some status, and every status key of it holds exactly
  // the bytes that were sealed.
  lemma NoLoss(s0: State, e: Event, events: seq<Event>)
    requires Reachable(s0)
    requires e.PutReport? && !e.outcome.Lost? && Enabled(s0, e)
    requires Valid(Apply(s0, e), events)
    ensures var p := s0.procs[e.pid];
            var s := Exec(Apply(s0, e), events);
            && Held(s, p.id)
            && forall st :: Key(st, p.id) in s.store ==> s.store[Key(st, p.id)] == p.frame
  {
    ReachableInv(s0);
    assert ProcessOk(s0, s0.procs[e.pid]);
    StepKeepsInv(s0, e);
    RunKeepsInv(Apply(s0, e), events);
  }

  // A pending key once gone never returns, and the report stays under the terminal status.
  lemma NeverReturns(s: State, id: string, events: seq<Event>)
    requires Reachable(s) && Left(s, id) && Valid(s, events)
    ensures var t := Exec(s, events);
            && Key(Pending, id) !in t.store
            && id in s.minted
            && exists st: Status :: !st.Pending? && Key(st, id) in t.store && t.store[Key(st, id)] == s.minted[id]
  {
    ReachableInv(s);
    RunKeepsInv(s, events);
    var t := Exec(s, events);
    assert Left(t, id) && Held(t, id);
    var st := if Key(Removed, id) in t.store then Removed else Published;
    assert Key(st, id) in t.store;
  }

  // A transition whose first Get was made after the ingest and that returned success is final: in
  // every continuation the source is absent and the destination holds the original bytes.
  lemma SuccessIsFinal(s: State, pid: nat, events: seq<Event>)
    requires Reachable(s) && Valid(s, events)
    requires pid in s.procs && s.procs[pid].Moving? && s.procs[pid].known && s.procs[pid].pc == Halted(Moved)
    ensures var p := s.procs[pid];
            var t := Exec(s, events);
            && p.id in s.minted
            && Key(Pending, p.id) !in t.store
            && Key(p.target, p.id) in t.store
            && t.store[Key(p.target, p.id)] == s.minted[p.id]
  {
    ReachableInv(s);
    assert ProcessOk(s, s.procs[pid]);
    RunKeepsInv(s, events);
  }

  // Convergence: whatever crashes and races came before, one uninterrupted fault-free rerun
  // succeeds exactly when the report is pending or already at the destination, and then leaves
  // it at the destination with its original bytes and not pending; otherwise it reports an
  // unknown id and changes nothing.
  lemma Converges(s: State, id: string, target: Status, fault: nat -> Outcome, at: nat)
    requires Reachable(s) && !target.Pending? && FaultFree(fault)
    ensures var r := Complete(Config(s.store, Read), Key(Pending, id), Key(target, id), fault, at).0;
            if Key(Pending, id) in s.store || Key(target, id) in s.store then
              && r.pc == Halted(Moved)
              && id in s.minted
              && Key(Pending, id) !in r.store
              && Key(target, id) in r.store && r.store[Key(target, id)] == s.minted[id]
            else
              r == Config(s.store, Halted(UnknownReport))
  {
    ReachableInv(s);
    CompleteFaultFree(s.store, Key(Pending, id), Key(target, id), fault, at);
  }

  lemma {:induction false} ValidAppend(s: State, events: seq<Event>, e: Event)
    requires Valid(s, events) && Enabled(Exec(s, events), e)
    ensures Valid(s, events + [e]) && Exec(s, events + [e]) == Apply(Exec(s, events), e)
    decreases |events|
  {
    if events == [] {
      assert Valid(Apply(s, e), [e][1..]);
    } else {
      assert (events + [e])[1..] == events[1..] + [e];
      ValidAppend(Apply(s, events[0]), events[1..], e);
    }
  }

  // One more step of a run, from s to t.
  lemma Extend(s: State, e: Event, t: State)
    requires Reachable(s) && Enabled(s, e) && t == Apply(s, e)
    ensures Reachable(t)
  {
    var events :| Valid(Initial, events) && s == Exec(Initial, events);
    ValidAppend(Initial, events, e);
  }

  lemma InitialReachable()
    ensures Reachable(Initial)
  {
    assert Valid(Initial, []);
  }

  // The steps of one process running alone until it halts.
  ghost function StepsAlone(pid: nat, c: Config<Key>, from: Key, to: Key, fault: nat -> Outcome, at: nat): seq<Event>
    decreases CallsLeft(c.pc)
  {
    if c.pc.Halted? then []
    else [Step(pid, fault(at))] + StepsAlone(pid, Advance(c, from, to, fault(at)), from, to, fault, at + 1)
  }

  // Whether the report had been ingested at the first Get of a transition with no other step to come.
  predicate KnownBy(s: State, p: Process)
    requires p.Moving?
  {
    if p.pc.Read? then p.id in s.ingested else p.known
  }

  // The sequential reading of a transition (Complete) is the protocol's run of that process
  // with no one else stepping in between.
  lemma {:induction false} AloneIsRun(s: State, pid: nat, fault: nat -> Outcome, at: nat)
    requires pid in s.procs && s.procs[pid].Moving?
    ensures var p := s.procs[pid];
            var c := Config(s.store, p.pc);
            var events := StepsAlone(pid, c, Key(Pending, p.id), Key(p.target, p.id), fault, at);
            var d := Complete(c, Key(Pending, p.id), Key(p.target, p.id), fault, at).0;
            && Valid(s, events)
            && Exec(s, events) == s.(store := d.store,
                                     procs := s.procs[pid := Moving(p.id, p.target, KnownBy(s, p), d.pc)])
    decreases CallsLeft(s.procs[pid].pc)
  {
    var p := s.procs[pid];
    if p.pc.Halted? {
      assert s.procs[pid := Moving(p.id, p.target, p.known, p.pc)] == s.procs;
    } else {
      var t := Apply(s, Step(pid, fault(at)));
      AloneIsRun(t, pid, fault, at + 1);
      var c := Config(s.store, p.pc);
      var events := StepsAlone(pid, c, Key(Pending, p.id), Key(p.target, p.id), fault, at);
      assert events[1..] == StepsAlone(pid, Config(t.store, t.procs[pid].pc), Key(Pending, p.id), Key(p.target, p.id),
                                       fault, at + 1);
    }
  }
}
