// How many issues a report can come to have: without bound, and exactly when no more than it has.
module Duplicates {
  import opened Wrappers
  import opened Order
  import opened MemoryStore
  import opened StatusKeys
  import opened Move
  import opened Frame
  import opened Format
  import opened Github
  import opened Backlog
  import opened Pipeline
  import opened Guarantees
  import P = Protocol

  // ----- Without bound -----

  // A run over one pending report that creates its issue and then fails to mark it.
  function FailedRound(pid: nat): seq<Event> {
    [StartRun] + [List(Done)] + [Pick] + [Fetch(Done)] + [Post(true, Created, pid)] + [Mark(Lost)] + [Pick]
  }

  // Idle, with one readable report pending, and n processes started.
  ghost predicate Stuck(c: Setup, s: State, id: string, n: nat) {
    && s.phase.Idle? && c.maxAttempts > 0
    && PendingReports(s.base.store) == {id}
    && Key(Pending, id) in s.base.store
    && Open(c.aead, s.ring, s.base.store[Key(Pending, id)]).Ok?
    && forall pid :: pid in s.base.procs ==> pid < n
  }

  lemma SingleBatch(id: string, cap: int)
    ensures Batch(Sorted({id}), cap) == [id]
  {
    assert id in Sorted({id});
    AscendingSize(Sorted({id}), {id});
  }

  lemma FailedRoundRuns(c: Setup, s: State, id: string, n: nat) returns (t: State)
    requires Stuck(c, s, id, n)
    ensures Leads(c, s, FailedRound(n), t) && Stuck(c, t, id, n + 1)
    ensures Ids(t.server)[id] == Ids(s.server)[id] + 1
  {
    hide Leads, Ids, Open, SealFrame, FormatIssue;
    SingleBatch(id, c.maxPerRun);
    var store := s.base.store;
    var issue := FormatIssue(c.decode, id, Open(c.aead, s.ring, store[Key(Pending, id)]).value);
    var posted := Posted(id, issue.0, issue.1);
    var s1 := s.(phase := Listing, runRing := s.ring);
    var s2 := s1.(phase := Picking([id]));
    var s3 := s1.(phase := Fetching(id, []));
    var s4 := s1.(phase := Creating(id, issue.0, issue.1, 0, []));
    LeadsOne(c, s, StartRun);
    LeadsThen(c, s, [StartRun], s1, List(Done), s2);
    LeadsThen(c, s, [StartRun] + [List(Done)], s2, Pick, s3);
    LeadsThen(c, s, [StartRun] + [List(Done)] + [Pick], s3, Fetch(Done), s4);
    var before := [StartRun] + [List(Done)] + [Pick] + [Fetch(Done)];
    var s5 := Apply(c, s4, Post(true, Created, n));
    LeadsThen(c, s, before, s4, Post(true, Created, n), s5);
    var s6 := Apply(c, s5, Mark(Lost));
    LeadsThen(c, s, before + [Post(true, Created, n)], s5, Mark(Lost), s6);
    t := Apply(c, s6, Pick);
    LeadsThen(c, s, before + [Post(true, Created, n)] + [Mark(Lost)], s6, Pick, t);
    IdsAppend(s.server, posted);
  }

  lemma {:induction false} FailedRounds(c: Setup, s: State, id: string, n: nat, rounds: nat)
    returns (events: seq<Event>, t: State)
    requires Stuck(c, s, id, n)
    ensures Leads(c, s, events, t) && Ids(t.server)[id] == Ids(s.server)[id] + rounds
    decreases rounds
  {
    hide Stuck, Ids, Enabled, Apply, FailedRound;
    if rounds == 0 { return [], s; }
    var u := FailedRoundRuns(c, s, id, n);
    events, t := FailedRounds(c, u, id, n + 1, rounds - 1);
    LeadsOn(c, s, FailedRound(n), u, events, t);
    events := FailedRound(n) + events;
  }

  // The residual exposure is one duplicate per failed mark, without bound: any report that can
  // be sealed can end up with any number of issues.
  lemma DuplicatesUnbounded(c: Setup, ring: Keyring, id: string, raw: Bytes, nonce: Bytes, n: nat)
    requires Lawful(c.aead) && c.maxAttempts > 0 && ValidKeyring(ring)
    requires SealFrame(c.aead, ring, c.scrub(raw), nonce).Ok?
    ensures exists events :: Run(c, ring, events) && Ids(After(c, ring, events).server)[id] == n
  {
    hide Leads, Ids, Open, SealFrame, FormatIssue, Lawful;
    var s := InitialState(ring);
    var frame := SealFrame(c.aead, ring, c.scrub(raw), nonce).value;
    OpenInvertsSeal(c.aead, ring, c.scrub(raw), nonce, ring);
    var ingest, put := Ingest(0, id, raw, nonce, ring), Other(P.PutReport(0, Done));
    LeadsOne(c, s, ingest);
    var t := Apply(c, s, ingest);
    var u := Apply(c, t, put);
    LeadsThen(c, s, [ingest], t, put, u);
    assert PendingReports(u.base.store) == {id} by { assert u.base.store == map[Key(Pending, id) := frame]; }
    var events, v := FailedRounds(c, u, id, 1, n);
    LeadsOn(c, s, [ingest] + [put], u, events, v);
    LeadsMeansRun(c, ring, [ingest] + [put] + events, v);
    assert Ids(v.server)[id] == n by { assert u.server == []; EmptyServer(); }
  }

  lemma EmptyServer()
    ensures Ids([]) == multiset{}
  {
  }

  lemma LeadsMeansRun(c: Setup, ring: Keyring, events: seq<Event>, t: State)
    requires ValidKeyring(ring) && Leads(c, InitialState(ring), events, t)
    ensures Run(c, ring, events) && After(c, ring, events) == t
  {
    hide Valid, Exec;
  }

  // ----- No more issues -----

  // However things go on, the server gets no further issue of this report.
  ghost predicate NoMoreIssues(c: Setup, s: State, id: string) {
    forall events :: Valid(c, s, events) ==> Ids(Exec(c, s, events).server)[id] == Ids(s.server)[id]
  }

  // The publisher is creating an issue of it.
  predicate BeingCreated(s: State, id: string) {
    s.phase.Creating? && s.phase.id == id
  }

  lemma BaseOneWay(c: Setup, s: State, e: Event)
    requires Inv(c, s) && Enabled(c, s, e)
    ensures P.OneWay(s.base, Apply(c, s, e).base)
  {
    hide P.Inv, Open, SealFrame, FormatIssue, P.Apply, P.OneWay, Balanced, MarksFinal, PhaseOk, PublishedOk, OriginsOk;
    P.OneWayToSelf(s.base);
    match e
    case Ingest(pid, id, raw, nonce, ring) =>
      P.StepKeepsInv(s.base, P.BeginIngest(pid, id, SealFrame(c.aead, ring, c.scrub(raw), nonce).value));
    case Remove(pid, id) => P.StepKeepsInv(s.base, P.BeginMove(pid, id, Removed));
    case Other(b) => P.StepKeepsInv(s.base, b);
    case Mark(o) => P.StepKeepsInv(s.base, P.Step(s.phase.pid, o));
    case Kill(applied) =>
      if s.phase.Marking? { P.StepKeepsInv(s.base, P.Step(s.phase.pid, if applied then Applied else Lost)); }
    case Post(_, kind, pid) =>
      if kind.Created? { P.StepKeepsInv(s.base, P.BeginMove(pid, s.phase.id, Published)); }
    case _ =>
  }

  lemma LeftStepNoIssue(c: Setup, s: State, e: Event, id: string)
    requires Inv(c, s) && Enabled(c, s, e) && P.Left(s.base, id) && !BeingCreated(s, id)
    ensures var t := Apply(c, s, e);
            Ids(t.server)[id] == Ids(s.server)[id] && P.Left(t.base, id) && !BeingCreated(t, id)
  {
    hide Inv, Enabled, Apply, Ids, BeingCreated;
    BaseOneWay(c, s, e);
    NotPosted(c, s, e, id);
    NotTakenUp(c, s, e, id);
  }

  lemma NotPosted(c: Setup, s: State, e: Event, id: string)
    requires Enabled(c, s, e) && !BeingCreated(s, id)
    ensures Ids(Apply(c, s, e).server)[id] == Ids(s.server)[id]
  {
    hide Ids, Open, SealFrame, FormatIssue, P.Apply, P.Enabled, Sorted, Batch, PendingReports, AfterFetch;
    if s.phase.Creating? { IdsAppend(s.server, Posted(s.phase.id, s.phase.title, s.phase.body)); }
  }

  lemma NotTakenUp(c: Setup, s: State, e: Event, id: string)
    requires Enabled(c, s, e) && Key(Pending, id) !in s.base.store && !BeingCreated(s, id)
    ensures !BeingCreated(Apply(c, s, e), id)
  {
    hide Open, SealFrame, FormatIssue, P.Apply, P.Enabled, Sorted, Batch, PendingReports;
  }

  lemma {:induction false} LeftRunNoIssue(c: Setup, s: State, events: seq<Event>, id: string)
    requires Inv(c, s) && Valid(c, s, events) && P.Left(s.base, id) && !BeingCreated(s, id)
    ensures Ids(Exec(c, s, events).server)[id] == Ids(s.server)[id]
    decreases |events|
  {
    hide Inv, Enabled, Apply, P.Left, BeingCreated, Ids;
    if events != [] {
      EventKeepsInv(c, s, events[0]);
      LeftStepNoIssue(c, s, events[0], id);
      LeftRunNoIssue(c, Apply(c, s, events[0]), events[1..], id);
    }
  }

  // ----- Otherwise there can be one more -----

  // An administrator removes a pending report.
  lemma ClearOne(c: Setup, s: State, x: string) returns (events: seq<Event>, t: State)
    requires s.phase.Idle? && Key(Pending, x) in s.base.store
    ensures Leads(c, s, events, t) && t.phase.Idle? && t.ring == s.ring && t.server == s.server
    ensures PendingReports(t.base.store) == PendingReports(s.base.store) - {x}
    ensures forall y :: y != x && Key(Pending, y) in s.base.store ==>
              Key(Pending, y) in t.base.store && t.base.store[Key(Pending, y)] == s.base.store[Key(Pending, y)]
  {
    hide Leads, Open, SealFrame, FormatIssue;
    var pid := FreshPid(s);
    var store, frame := s.base.store, s.base.store[Key(Pending, x)];
    var call := Other(P.Step(pid, Done));
    var s1 := Apply(c, s, Remove(pid, x));
    LeadsOne(c, s, Remove(pid, x));
    var s2 := Apply(c, s1, call);
    LeadsThen(c, s, [Remove(pid, x)], s1, call, s2);
    assert s2.base.procs[pid].pc == Write(frame) && s2.base.store == store;
    var s3 := Apply(c, s2, call);
    LeadsThen(c, s, [Remove(pid, x)] + [call], s2, call, s3);
    assert s3.base.procs[pid].pc == Drop && s3.base.store == store[Key(Removed, x) := frame];
    t := Apply(c, s3, call);
    LeadsThen(c, s, [Remove(pid, x)] + [call] + [call], s3, call, t);
    assert t.base.store == store[Key(Removed, x) := frame] - {Key(Pending, x)};
    events := [Remove(pid, x)] + [call] + [call] + [call];
    PendingWithout(store, x, frame);
  }

  lemma PendingWithout(store: map<Key, Bytes>, x: string, frame: Bytes)
    ensures PendingReports(store[Key(Removed, x) := frame] - {Key(Pending, x)}) == PendingReports(store) - {x}
  {
    var after := store[Key(Removed, x) := frame] - {Key(Pending, x)};
    forall y
      ensures y in PendingReports(after) <==> y in PendingReports(store) && y != x
    {
      PendingKey(after, y);
      PendingKey(store, y);
    }
  }

  lemma PendingKey(store: map<Key, Bytes>, y: string)
    ensures y in PendingReports(store) <==> Key(Pending, y) in store
  {
    if Key(Pending, y) in store { assert Key(Pending, y).status.Pending?; }
  }

  lemma {:induction false} ClearOthers(c: Setup, s: State, id: string) returns (events: seq<Event>, t: State)
    requires s.phase.Idle? && Key(Pending, id) in s.base.store
    ensures Leads(c, s, events, t) && t.phase.Idle? && t.ring == s.ring && t.server == s.server
    ensures PendingReports(t.base.store) == {id}
    ensures Key(Pending, id) in t.base.store && t.base.store[Key(Pending, id)] == s.base.store[Key(Pending, id)]
    decreases PendingReports(s.base.store)
  {
    hide Leads, PendingReports;
    PendingKey(s.base.store, id);
    if PendingReports(s.base.store) == {id} {
      LeadsNowhere(c, s);
      return [], s;
    }
    var others := PendingReports(s.base.store) - {id};
    assert others == {} ==> PendingReports(s.base.store) == others + {id};
    var x :| x in others;
    PendingKey(s.base.store, x);
    var first, u := ClearOne(c, s, x);
    var more, v := ClearOthers(c, u, id);
    LeadsOn(c, s, first, u, more, v);
    return first + more, v;
  }

  lemma LeadsNowhere(c: Setup, s: State)
    ensures Leads(c, s, [], s)
  {
    hide Enabled, Apply;
  }

  lemma OpeningRing(c: Setup, s: State, id: string) returns (ring: Keyring)
    requires Lawful(c.aead) && Inv(c, s) && Key(Pending, id) in s.base.store
    ensures ValidKeyring(ring) && Open(c.aead, ring, s.base.store[Key(Pending, id)]).Ok?
  {
    hide Open, SealFrame, FormatIssue, Lawful, Balanced, MarksFinal, PublishedOk, PhaseOk, P.ProcessesOk;
    var frame := s.base.store[Key(Pending, id)];
    assert id in s.origin && Sealed(c, s.origin[id], frame);
    var o := s.origin[id];
    var sealer: Keyring, nonce: Bytes :|
      && ValidKeyring(sealer) && sealer.active == o.keyId && Holds(sealer, o.keyId, o.key)
      && SealFrame(c.aead, sealer, c.scrub(o.raw), nonce) == Ok(frame);
    OpenInvertsSeal(c.aead, sealer, c.scrub(o.raw), nonce, sealer);
    ring := sealer;
  }

  lemma CanBeKilled(c: Setup, s: State)
    requires Inv(c, s) && !s.phase.Idle?
    ensures Enabled(c, s, Kill(false))
  {
    hide Open, SealFrame, FormatIssue, P.Inv, Balanced, MarksFinal, PublishedOk, OriginsOk, Rendered;
  }

  // A ring that opens the report comes into force, with no run going on.
  lemma MakeReady(c: Setup, s: State, id: string) returns (events: seq<Event>, t: State)
    requires Lawful(c.aead) && Inv(c, s) && Key(Pending, id) in s.base.store
    ensures Leads(c, s, events, t) && t.phase.Idle? && t.base.store == s.base.store
    ensures !BeingCreated(s, id) ==> t.server == s.server
    ensures Open(c.aead, t.ring, s.base.store[Key(Pending, id)]).Ok?
  {
    hide Leads, Open, SealFrame, FormatIssue, Inv, ValidKeyring;
    var ring := OpeningRing(c, s, id);
    var u;
    if s.phase.Idle? {
      events, u := [], s;
      LeadsNowhere(c, s);
    } else {
      CanBeKilled(c, s);
      events, u := [Kill(false)], Apply(c, s, Kill(false));
      LeadsOne(c, s, Kill(false));
    }
    t := Apply(c, u, Rotate(ring));
    LeadsThen(c, s, events, u, Rotate(ring), t);
    events := events + [Rotate(ring)];
  }

  lemma PidBound(s: State) returns (n: nat)
    ensures forall pid :: pid in s.base.procs ==> pid < n
  {
    n := 0;
    var rest := s.base.procs.Keys;
    while rest != {}
      invariant rest <= s.base.procs.Keys
      invariant forall p :: p in s.base.procs && p !in rest ==> p < n
      decreases |rest|
    {
      var p :| p in rest;
      rest := rest - {p};
      if p >= n { n := p + 1; }
    }
  }

  // While a report is pending, there is a way to one more issue of it.
  lemma PendingCanBeIssued(c: Setup, s: State, id: string) returns (events: seq<Event>, t: State)
    requires Lawful(c.aead) && c.maxAttempts > 0 && Inv(c, s)
    requires Key(Pending, id) in s.base.store && !BeingCreated(s, id)
    ensures Leads(c, s, events, t) && Ids(t.server)[id] == Ids(s.server)[id] + 1
  {
    hide Leads, Open, Lawful, Inv, Ids, PendingReports, FailedRound;
    var u;
    events, u := MakeReady(c, s, id);
    var more, v := ClearOthers(c, u, id);
    LeadsOn(c, s, events, u, more, v);
    events := events + more;
    var n := PidBound(v);
    t := FailedRoundRuns(c, v, id, n);
    LeadsOn(c, s, events, v, FailedRound(n), t);
    events := events + FailedRound(n);
  }

  lemma CreatingCanBeIssued(c: Setup, s: State, id: string) returns (t: State)
    requires BeingCreated(s, id)
    ensures Leads(c, s, [Kill(true)], t) && Ids(t.server)[id] == Ids(s.server)[id] + 1
  {
    hide Leads, Open, SealFrame, FormatIssue, Ids;
    LeadsOne(c, s, Kill(true));
    t := Apply(c, s, Kill(true));
    IdsAppend(s.server, Posted(s.phase.id, s.phase.title, s.phase.body));
  }

  // What an operator can look up after a failed mark: an ingested report gets no further issue,
  // whatever runs, faults, removals and rotations follow, if and only if it has left pending and is
  // not being created.
  lemma NoMoreIssuesExactly(c: Setup, ring: Keyring, before: seq<Event>, id: string)
    requires Lawful(c.aead) && c.maxAttempts > 0 && Run(c, ring, before)
    requires id in After(c, ring, before).base.ingested
    ensures var s := After(c, ring, before);
            NoMoreIssues(c, s, id) <==> P.Left(s.base, id) && !BeingCreated(s, id)
  {
    hide Inv, Valid, Exec, Run, After, Lawful, Ids;
    AfterKeepsInv(c, ring, before);
    var s := After(c, ring, before);
    if P.Left(s.base, id) && !BeingCreated(s, id) {
      forall events | Valid(c, s, events)
        ensures Ids(Exec(c, s, events).server)[id] == Ids(s.server)[id]
      {
        LeftRunNoIssue(c, s, events, id);
      }
    } else if BeingCreated(s, id) {
      var t := CreatingCanBeIssued(c, s, id);
      OneMore(c, s, [Kill(true)], t, id);
    } else {
      var events, t := PendingCanBeIssued(c, s, id);
      OneMore(c, s, events, t, id);
    }
  }

  lemma OneMore(c: Setup, s: State, events: seq<Event>, t: State, id: string)
    requires Leads(c, s, events, t) && Ids(t.server)[id] == Ids(s.server)[id] + 1
    ensures !NoMoreIssues(c, s, id)
  {
    hide Valid, Exec, Ids;
  }

  // A failed mark whose Delete was applied leaves nothing behind to publish again: the report has
  // left pending although the call reported failure.
  lemma FailedMarkMayBeFinal(c: Setup, s: State)
    requires s.phase.Marking? && s.phase.pid in s.base.procs && s.phase.id in s.base.ingested
    requires var p := s.base.procs[s.phase.pid];
             p.Moving? && p.id == s.phase.id && p.pc.Drop? && Key(Pending, p.id) in s.base.store
    ensures Enabled(c, s, Mark(Applied))
    ensures var t := Apply(c, s, Mark(Applied));
            && t.unmarked == s.unmarked + multiset{s.phase.id} && P.Left(t.base, s.phase.id)
            && t.phase == Picking(s.phase.todo)
  {
    hide Open, SealFrame, FormatIssue;
  }
}
