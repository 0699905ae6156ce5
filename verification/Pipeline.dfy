// The whole report pipeline as one machine: the status protocol with ingests and removals in
// flight, key rotations, and the weekly publisher that creates issues and marks reports
// published, one run at a time (internal/publish/publish.go over internal/lifecycle).
module Pipeline {
  import opened Wrappers
  import opened Order
  import opened MemoryStore
  import opened StatusKeys
  import opened Move
  import opened Frame
  import opened Format
  import opened Github
  import opened Backlog
  import P = Protocol

  datatype Setup = Setup(
    aead: Aead,
    scrub: Bytes -> Bytes,
    decode: string -> Option<Report>,
    maxPerRun: int,
    maxAttempts: nat)

  // An issue on the server.
  datatype Posted = Posted(id: string, title: string, body: string)

  // Where the publisher stands; todo is the rest of the batch.
  datatype Phase =
    | Idle
    | Listing
    | Picking(todo: seq<string>)
    | Fetching(id: string, todo: seq<string>)
    | Creating(id: string, title: string, body: string, attempt: nat, todo: seq<string>)
    | Marking(id: string, pid: nat, todo: seq<string>)

  // What a report was ingested from, and the key its frame was sealed under.
  datatype Origin = Origin(raw: Bytes, keyId: KeyId, key: Bytes)

  // ring is the keyring secret, runRing the one read at the start of the run. marked and
  // unmarked count MarkPublished calls that returned success and failure; lost counts issues
  // created whose confirmation never led to such a call.
  datatype State = State(
    base: P.State,
    phase: Phase,
    ring: Keyring,
    runRing: Keyring,
    server: seq<Posted>,
    marked: multiset<string>,
    unmarked: multiset<string>,
    lost: multiset<string>,
    origin: map<string, Origin>)

  // An ingest seals under the ring its sink holds, which may be older than the secret in force.
  datatype Event =
    | Ingest(pid: nat, id: string, raw: Bytes, nonce: Bytes, ring: Keyring)
    | Remove(pid: nat, id: string)
    | Other(e: P.Event)                    // a step of an ingest or a removal
    | Rotate(next: Keyring)
    | StartRun
    | List(outcome: Outcome)
    | Pick
    | Cancel
    | Fetch(outcome: Outcome)
    | Post(created: bool, kind: HttpKind, pid: nat)
    | GiveUp
    | Mark(outcome: Outcome)
    | Kill(applied: bool)                  // the run is cut, its pending call applied or not

  function InitialState(ring: Keyring): State {
    State(P.Initial, Idle, ring, ring, [], multiset{}, multiset{}, multiset{}, map[])
  }

  ghost predicate Enabled(c: Setup, s: State, e: Event) {
    match e
    case Ingest(pid, id, raw, nonce, ring) =>
      && ValidKeyring(ring)
      && var frame := SealFrame(c.aead, ring, c.scrub(raw), nonce);
      && frame.Ok? && P.Enabled(s.base, P.BeginIngest(pid, id, frame.value))
    case Remove(pid, id) => P.Enabled(s.base, P.BeginMove(pid, id, Removed))
    case Other(b) =>
      && (b.PutReport? || b.Step? || b.Crash?)
      && P.Enabled(s.base, b)
      && !(s.phase.Marking? && s.phase.pid == b.pid)
    case Rotate(next) => ValidKeyring(next)
    case StartRun => s.phase.Idle?
    case List(_) => s.phase.Listing?
    case Pick => s.phase.Picking?
    case Cancel => s.phase.Picking?
    case Fetch(_) => s.phase.Fetching?
    case Post(created, kind, pid) =>
      && s.phase.Creating? && s.phase.attempt < c.maxAttempts
      && (kind.Created? || kind.Undecodable? ==> created)
      && (kind.Created? ==> P.Enabled(s.base, P.BeginMove(pid, s.phase.id, Published)))
    case GiveUp => s.phase.Creating?
    case Mark(o) => s.phase.Marking? && P.Enabled(s.base, P.Step(s.phase.pid, o))
    case Kill(_) => !s.phase.Idle? && (s.phase.Marking? ==> P.Enabled(s.base, P.Step(s.phase.pid, Lost)))
  }

  function PendingReports(store: map<Key, Bytes>): set<string> {
    set k | k in store && k.status.Pending? :: k.id
  }

  function AfterMark(s: State, b: P.State, result: MoveResult): State
    requires s.phase.Marking?
  {
    var id := s.phase.id;
    if result.Moved?
    then s.(base := b, phase := Picking(s.phase.todo), marked := s.marked + multiset{id})
    else s.(base := b, phase := Picking(s.phase.todo), unmarked := s.unmarked + multiset{id})
  }

  function AfterFetch(c: Setup, phase: Phase, ring: Keyring, store: map<Key, Bytes>, o: Outcome): Phase
    requires phase.Fetching?
  {
    var key := Key(Pending, phase.id);
    if !o.Done? || key !in store then Picking(phase.todo)
    else
      match Open(c.aead, ring, store[key])
      case Err(_) => Picking(phase.todo)
      case Ok(plaintext) =>
        var issue := FormatIssue(c.decode, phase.id, plaintext);
        Creating(phase.id, issue.0, issue.1, 0, phase.todo)
  }

  // After an attempt without a decodable 201, whether or not it created an issue.
  function AfterLostPost(c: Setup, s: State, created: bool, kind: HttpKind): State
    requires s.phase.Creating?
  {
    var p := s.phase;
    s.(server := if created then s.server + [Posted(p.id, p.title, p.body)] else s.server,
       lost := if created then s.lost + multiset{p.id} else s.lost,
       phase := if kind.Retryable? && p.attempt + 1 < c.maxAttempts
                then p.(attempt := p.attempt + 1)
                else Picking(p.todo))
  }

  ghost function Apply(c: Setup, s: State, e: Event): State
    requires Enabled(c, s, e)
  {
    match e
    case Ingest(pid, id, raw, nonce, ring) =>
      var frame := SealFrame(c.aead, ring, c.scrub(raw), nonce).value;
      s.(base := P.Apply(s.base, P.BeginIngest(pid, id, frame)),
         origin := s.origin[id := Origin(raw, ring.active, ring.keys[ring.active])])
    case Remove(pid, id) => s.(base := P.Apply(s.base, P.BeginMove(pid, id, Removed)))
    case Other(b) => s.(base := P.Apply(s.base, b))
    case Rotate(next) => s.(ring := next)
    case StartRun => s.(phase := Listing, runRing := s.ring)
    case List(o) =>
      if !o.Done? then s.(phase := Idle)
      else s.(phase := Picking(Batch(Sorted(PendingReports(s.base.store)), c.maxPerRun)))
    case Pick =>
      var todo := s.phase.todo;
      if todo == [] then s.(phase := Idle) else s.(phase := Fetching(todo[0], todo[1..]))
    case Cancel => s.(phase := Idle)
    case Fetch(o) => s.(phase := AfterFetch(c, s.phase, s.runRing, s.base.store, o))
    case Post(created, kind, pid) =>
      var p := s.phase;
      if kind.Created? then
        s.(base := P.Apply(s.base, P.BeginMove(pid, p.id, Published)),
           server := s.server + [Posted(p.id, p.title, p.body)],
           phase := Marking(p.id, pid, p.todo))
      else
        AfterLostPost(c, s, created, kind)
    case GiveUp => s.(phase := Picking(s.phase.todo))
    case Mark(o) =>
      var b := P.Apply(s.base, P.Step(s.phase.pid, o));
      var pc := b.procs[s.phase.pid].pc;
      if pc.Halted? then AfterMark(s, b, pc.result) else s.(base := b)
    case Kill(applied) =>
      var p := s.phase;
      if p.Creating? && applied then
        s.(server := s.server + [Posted(p.id, p.title, p.body)], lost := s.lost + multiset{p.id}, phase := Idle)
      else if p.Marking? then
        s.(base := P.Apply(s.base, P.Step(p.pid, if applied then Applied else Lost)),
           lost := s.lost + multiset{p.id}, phase := Idle)
      else s.(phase := Idle)
  }

  ghost predicate Valid(c: Setup, s: State, events: seq<Event>)
    decreases |events|
  {
    events == [] || (Enabled(c, s, events[0]) && Valid(c, Apply(c, s, events[0]), events[1..]))
  }

  ghost function Exec(c: Setup, s: State, events: seq<Event>): State
    requires Valid(c, s, events)
    decreases |events|
  {
    if events == [] then s else Exec(c, Apply(c, s, events[0]), events[1..])
  }

  // ----- Accounting -----

  function Ids(server: seq<Posted>): multiset<string> {
    if server == [] then multiset{} else Ids(server[..|server| - 1]) + multiset{server[|server| - 1].id}
  }

  // A confirmed create whose mark has not returned yet.
  function InFlight(p: Phase): multiset<string> {
    if p.Marking? then multiset{p.id} else multiset{}
  }

  ghost predicate Balanced(server: seq<Posted>, marked: multiset<string>, unmarked: multiset<string>,
                           lost: multiset<string>, p: Phase) {
    Ids(server) == marked + unmarked + lost + InFlight(p)
  }

  // A mark that succeeded found the report pending and left it not pending, for good.
  ghost predicate MarksFinal(marked: multiset<string>, b: P.State) {
    forall id :: id in marked ==> marked[id] == 1 && P.Left(b, id)
  }

  // What the publisher may rely on between its calls.
  ghost predicate PhaseOk(c: Setup, phase: Phase, b: P.State, marked: multiset<string>, ring: Keyring) {
    match phase
    case Creating(id, title, body, _, _) => id !in marked && id in b.ingested && Rendered(c, b, ring, id, title, body)
    case Marking(id, pid, _) =>
      && id !in marked && id in b.ingested
      && pid in b.procs
      && var p := b.procs[pid];
      && p.Moving? && p.id == id && p.target == Published && !p.pc.Halted? && (p.pc.Read? || p.known)
    case _ => true
  }

  ghost predicate Rendered(c: Setup, b: P.State, ring: Keyring, id: string, title: string, body: string) {
    && id in b.minted
    && Open(c.aead, ring, b.minted[id]).Ok?
    && FormatIssue(c.decode, id, Open(c.aead, ring, b.minted[id]).value) == (title, body)
  }

  // Only a confirmed create leads to the published status.
  ghost predicate PublishedOk(b: P.State, posted: multiset<string>) {
    && (forall pid :: pid in b.procs && b.procs[pid].Moving? && b.procs[pid].target == Published
          ==> b.procs[pid].id in posted)
    && (forall k :: k in b.store && k.status == Published ==> k.id in posted)
  }

  ghost predicate Sealed(c: Setup, o: Origin, frame: Bytes) {
    exists ring: Keyring, nonce: Bytes ::
      ValidKeyring(ring) && ring.active == o.keyId && Holds(ring, o.keyId, o.key)
      && SealFrame(c.aead, ring, c.scrub(o.raw), nonce) == Ok(frame)
  }

  ghost predicate OriginsOk(c: Setup, origin: map<string, Origin>, minted: map<string, Bytes>) {
    && origin.Keys == minted.Keys
    && forall id :: id in origin ==> Sealed(c, origin[id], minted[id])
  }

  ghost predicate Inv(c: Setup, s: State) {
    && P.Inv(s.base)
    && Balanced(s.server, s.marked, s.unmarked, s.lost, s.phase)
    && MarksFinal(s.marked, s.base)
    && PhaseOk(c, s.phase, s.base, s.marked, s.runRing)
    && PublishedOk(s.base, Ids(s.server))
    && OriginsOk(c, s.origin, s.base.minted)
    && ValidKeyring(s.ring)
  }

  lemma InvInitial(c: Setup, ring: Keyring)
    requires ValidKeyring(ring)
    ensures Inv(c, InitialState(ring))
  {
    hide Sealed, Open, SealFrame, FormatIssue, Rendered, ValidKeyring;
    P.InvInitial();
  }

  lemma IdsAppend(server: seq<Posted>, p: Posted)
    ensures Ids(server + [p]) == Ids(server) + multiset{p.id}
  {
    assert (server + [p])[..|server|] == server;
  }

  // ----- What any step of the protocol leaves intact -----

  lemma MarksUndisturbed(marked: multiset<string>, b: P.State, d: P.State)
    requires MarksFinal(marked, b) && P.OneWay(b, d)
    ensures MarksFinal(marked, d)
  {
    hide P.Left;
  }

  lemma PhaseUndisturbed(c: Setup, phase: Phase, b: P.State, d: P.State, marked: multiset<string>, ring: Keyring)
    requires PhaseOk(c, phase, b, marked, ring) && P.OneWay(b, d)
    requires phase.Marking? && phase.pid in b.procs ==> phase.pid in d.procs && d.procs[phase.pid] == b.procs[phase.pid]
    ensures PhaseOk(c, phase, d, marked, ring)
  {
    hide FormatIssue, Open, P.Left;
  }

  // No publication begins, or one for a report that has an issue.
  lemma PublishedUndisturbed(b: P.State, e: P.Event, posted: multiset<string>)
    requires PublishedOk(b, posted) && P.Enabled(b, e)
    requires e.BeginMove? && e.target == Published ==> e.id in posted
    ensures PublishedOk(P.Apply(b, e), posted)
  {
    var d := P.Apply(b, e);
    forall k | k in d.store && k.status == Published
      ensures k.id in posted
    {
      if k !in b.store {
        var p := b.procs[e.pid];
        assert e.Step? && k == Key(p.target, p.id);
      }
    }
  }

  lemma OriginsUndisturbed(c: Setup, origin: map<string, Origin>, b: P.State, e: P.Event)
    requires OriginsOk(c, origin, b.minted) && P.Enabled(b, e) && !e.BeginIngest?
    ensures OriginsOk(c, origin, P.Apply(b, e).minted)
  {
    hide Sealed;
    assert P.Apply(b, e).minted == b.minted;
  }

  lemma MarkingPidTaken(c: Setup, s: State)
    requires PhaseOk(c, s.phase, s.base, s.marked, s.runRing)
    ensures s.phase.Marking? ==> s.phase.pid in s.base.procs
  {
    hide Rendered;
  }

  // ----- Each kind of step -----

  lemma BaseStepKeepsInv(c: Setup, s: State, e: P.Event)
    requires Inv(c, s) && P.Enabled(s.base, e) && !e.BeginIngest?
    requires e.BeginMove? ==> e.target == Removed
    requires s.phase.Marking? ==> e.pid != s.phase.pid
    ensures Inv(c, s.(base := P.Apply(s.base, e)))
  {
    hide P.Inv, Balanced, MarksFinal, PhaseOk, PublishedOk, OriginsOk, Ids;
    var b := P.Apply(s.base, e);
    P.StepKeepsInv(s.base, e);
    MarksUndisturbed(s.marked, s.base, b);
    PhaseUndisturbed(c, s.phase, s.base, b, s.marked, s.runRing);
    PublishedUndisturbed(s.base, e, Ids(s.server));
    OriginsUndisturbed(c, s.origin, s.base, e);
  }

  lemma IngestKeepsInv(c: Setup, s: State, e: Event)
    requires Inv(c, s) && Enabled(c, s, e) && e.Ingest?
    ensures Inv(c, Apply(c, s, e))
  {
    hide P.Inv, Balanced, MarksFinal, PhaseOk, PublishedOk, OriginsOk, Ids, SealFrame, Open, FormatIssue;
    var frame := SealFrame(c.aead, e.ring, c.scrub(e.raw), e.nonce).value;
    var begin := P.BeginIngest(e.pid, e.id, frame);
    var b := P.Apply(s.base, begin);
    MarkingPidTaken(c, s);
    P.StepKeepsInv(s.base, begin);
    MarksUndisturbed(s.marked, s.base, b);
    PhaseUndisturbed(c, s.phase, s.base, b, s.marked, s.runRing);
    PublishedUndisturbed(s.base, begin, Ids(s.server));
    OriginAdded(c, s.origin, s.base.minted, e.id, e.raw, e.ring, e.nonce, frame);
  }

  lemma OriginAdded(c: Setup, origin: map<string, Origin>, minted: map<string, Bytes>, id: string,
                    raw: Bytes, ring: Keyring, nonce: Bytes, frame: Bytes)
    requires OriginsOk(c, origin, minted)
    requires ValidKeyring(ring) && SealFrame(c.aead, ring, c.scrub(raw), nonce) == Ok(frame)
    ensures OriginsOk(c, origin[id := Origin(raw, ring.active, ring.keys[ring.active])], minted[id := frame])
  {
    hide SealFrame;
    assert Sealed(c, Origin(raw, ring.active, ring.keys[ring.active]), frame);
  }

  lemma EnvironmentKeepsInv(c: Setup, s: State, e: Event)
    requires Inv(c, s) && Enabled(c, s, e) && (e.Remove? || e.Other?)
    ensures Inv(c, Apply(c, s, e))
  {
    hide P.Inv, Balanced, MarksFinal, PhaseOk, PublishedOk, OriginsOk, Ids;
    MarkingPidTaken(c, s);
    BaseStepKeepsInv(c, s, if e.Remove? then P.BeginMove(e.pid, e.id, Removed) else e.e);
  }

  // Steps that touch neither the store nor the server.
  lemma QuietStepKeepsInv(c: Setup, s: State, e: Event)
    requires Inv(c, s) && Enabled(c, s, e)
    requires e.Rotate? || e.StartRun? || e.List? || e.Pick? || e.Cancel? || e.GiveUp?
    ensures Inv(c, Apply(c, s, e))
  {
    hide P.Inv, MarksFinal, PublishedOk, OriginsOk, Ids, Rendered, ValidKeyring, Balanced, P.Enabled, P.Apply, Open,
         SealFrame, FormatIssue;
    if !e.Rotate? {
      BalancedPost(s.server, Posted("", "", ""), s.marked, s.unmarked, s.lost, s.phase, Apply(c, s, e).phase);
    }
  }

  lemma FetchKeepsInv(c: Setup, s: State, o: Outcome)
    requires Inv(c, s) && Enabled(c, s, Fetch(o))
    ensures Inv(c, Apply(c, s, Fetch(o)))
  {
    hide P.Inv, MarksFinal, PublishedOk, OriginsOk, Ids, FormatIssue, Open, ValidKeyring;
    PendingIsUnmarked(s.marked, s.base, s.phase.id);
  }

  lemma PendingIsUnmarked(marked: multiset<string>, b: P.State, id: string)
    requires MarksFinal(marked, b) && P.Inv(b)
    ensures Key(Pending, id) in b.store ==>
              id !in marked && id in b.ingested && id in b.minted && b.store[Key(Pending, id)] == b.minted[id]
  {
    hide P.ProcessesOk;
  }

  lemma BalancedPost(server: seq<Posted>, p: Posted, m: multiset<string>, u: multiset<string>, l: multiset<string>,
                     from: Phase, to: Phase)
    requires Balanced(server, m, u, l, from) && !from.Marking?
    ensures !to.Marking? ==> Balanced(server, m, u, l, to) && Balanced(server + [p], m, u, l + multiset{p.id}, to)
    ensures to.Marking? && to.id == p.id ==> Balanced(server + [p], m, u, l, to)
  {
    hide Ids;
    IdsAppend(server, p);
  }

  lemma BalancedMark(server: seq<Posted>, m: multiset<string>, u: multiset<string>, l: multiset<string>, from: Phase,
                     to: Phase)
    requires Balanced(server, m, u, l, from) && from.Marking? && !to.Marking?
    ensures Balanced(server, m + multiset{from.id}, u, l, to)
    ensures Balanced(server, m, u + multiset{from.id}, l, to)
    ensures Balanced(server, m, u, l + multiset{from.id}, to)
  {
    hide Ids;
  }

  // What starting the mark of a created report guarantees.
  lemma BeginMark(c: Setup, b: P.State, pid: nat, id: string, marked: multiset<string>, origin: map<string, Origin>,
                  posted: multiset<string>)
    requires P.Inv(b) && MarksFinal(marked, b) && PublishedOk(b, posted) && OriginsOk(c, origin, b.minted)
    requires P.Enabled(b, P.BeginMove(pid, id, Published)) && id in b.ingested && id in posted
    ensures var d := P.Apply(b, P.BeginMove(pid, id, Published));
            && P.Inv(d) && MarksFinal(marked, d) && PublishedOk(d, posted) && OriginsOk(c, origin, d.minted)
            && d.ingested == b.ingested
            && pid in d.procs && d.procs[pid] == P.Moving(id, Published, false, Read)
  {
    hide P.Inv, MarksFinal, PublishedOk, OriginsOk;
    var begin := P.BeginMove(pid, id, Published);
    P.StepKeepsInv(b, begin);
    MarksUndisturbed(marked, b, P.Apply(b, begin));
    PublishedUndisturbed(b, begin, posted);
    OriginsUndisturbed(c, origin, b, begin);
  }

  // A create that the server carried out and confirmed is in flight.
  lemma ConfirmedPostKeepsInv(c: Setup, s: State, e: Event)
    requires Inv(c, s) && Enabled(c, s, e) && e.Post? && e.kind.Created?
    ensures Inv(c, Apply(c, s, e))
  {
    hide P.Inv, MarksFinal, PublishedOk, OriginsOk, Ids, Rendered, ValidKeyring, Balanced, P.Enabled, P.Apply, Open,
         SealFrame, FormatIssue;
    var p := s.phase;
    var posted := Posted(p.id, p.title, p.body);
    BalancedPost(s.server, posted, s.marked, s.unmarked, s.lost, p, Marking(p.id, e.pid, p.todo));
    IdsAppend(s.server, posted);
    MorePosted(s.base, Ids(s.server), Ids(s.server + [posted]));
    BeginMark(c, s.base, e.pid, p.id, s.marked, s.origin, Ids(s.server + [posted]));
  }

  // One that was not confirmed is lost at once.
  lemma LostPostKeepsInv(c: Setup, s: State, e: Event)
    requires Inv(c, s) && Enabled(c, s, e) && e.Post? && !e.kind.Created?
    ensures Inv(c, Apply(c, s, e))
  {
    hide P.Inv, MarksFinal, PublishedOk, OriginsOk, Ids, Rendered, ValidKeyring, Balanced, P.Enabled, P.Apply, Open,
         SealFrame, FormatIssue;
    var p := s.phase;
    var posted := Posted(p.id, p.title, p.body);
    BalancedPost(s.server, posted, s.marked, s.unmarked, s.lost, p, Apply(c, s, e).phase);
    IdsAppend(s.server, posted);
    MorePosted(s.base, Ids(s.server), Ids(s.server + [posted]));
  }

  lemma MorePosted(b: P.State, posted: multiset<string>, more: multiset<string>)
    requires PublishedOk(b, posted) && posted <= more
    ensures PublishedOk(b, more)
  {
  }

  // What the publisher's own step of the mark guarantees.
  lemma MarkStep(c: Setup, s: State, o: Outcome)
    requires Inv(c, s) && s.phase.Marking? && P.Enabled(s.base, P.Step(s.phase.pid, o))
    ensures s.phase.pid in P.Apply(s.base, P.Step(s.phase.pid, o)).procs
    ensures var b := P.Apply(s.base, P.Step(s.phase.pid, o));
            var p := b.procs[s.phase.pid];
            && P.Inv(b) && MarksFinal(s.marked, b) && PublishedOk(b, Ids(s.server)) && OriginsOk(c, s.origin, b.minted)
            && s.phase.id !in s.marked && s.phase.id in b.ingested
            && p.Moving? && p.id == s.phase.id && p.target == Published && p.known
            && (p.pc == Halted(Moved) ==> P.Left(b, p.id))
            && (!o.Done? ==> p.pc.Halted?)
  {
    hide P.Inv, MarksFinal, PublishedOk, OriginsOk, Ids, P.StoreOk, Balanced, Rendered, ValidKeyring;
    var e := P.Step(s.phase.pid, o);
    var b := P.Apply(s.base, e);
    P.StepKeepsInv(s.base, e);
    MarksUndisturbed(s.marked, s.base, b);
    PublishedUndisturbed(s.base, e, Ids(s.server));
    OriginsUndisturbed(c, s.origin, s.base, e);
    HaltedIsOk(b, s.phase.pid);
  }

  lemma HaltedIsOk(b: P.State, pid: nat)
    requires P.Inv(b) && pid in b.procs
    ensures P.ProcessOk(b, b.procs[pid])
  {
    hide P.StoreOk, P.ProcessOk;
  }

  lemma MarkKeepsInv(c: Setup, s: State, o: Outcome)
    requires Inv(c, s) && Enabled(c, s, Mark(o))
    ensures Inv(c, Apply(c, s, Mark(o)))
  {
    hide P.Inv, MarksFinal, PublishedOk, OriginsOk, Ids, Rendered, ValidKeyring, P.Apply, P.Enabled, P.Left, Balanced,
         Open, SealFrame, FormatIssue;
    MarkStep(c, s, o);
    var b := P.Apply(s.base, P.Step(s.phase.pid, o));
    BalancedMark(s.server, s.marked, s.unmarked, s.lost, s.phase, Picking(s.phase.todo));
    if b.procs[s.phase.pid].pc == Halted(Moved) { NewMarkFinal(s.marked, b, s.phase.id); }
  }

  lemma NewMarkFinal(marked: multiset<string>, b: P.State, id: string)
    requires MarksFinal(marked, b) && id !in marked && P.Left(b, id)
    ensures MarksFinal(marked + multiset{id}, b)
  {
    hide P.Left;
  }

  lemma KillKeepsInv(c: Setup, s: State, applied: bool)
    requires Inv(c, s) && Enabled(c, s, Kill(applied))
    ensures Inv(c, Apply(c, s, Kill(applied)))
  {
    hide P.Inv, MarksFinal, PublishedOk, OriginsOk, Ids, Rendered, ValidKeyring, P.Apply, Balanced, Open, SealFrame,
         FormatIssue;
    var p := s.phase;
    if p.Marking? {
      MarkStep(c, s, if applied then Applied else Lost);
      BalancedMark(s.server, s.marked, s.unmarked, s.lost, p, Idle);
    } else if p.Creating? {
      var posted := Posted(p.id, p.title, p.body);
      BalancedPost(s.server, posted, s.marked, s.unmarked, s.lost, p, Idle);
      IdsAppend(s.server, posted);
      MorePosted(s.base, Ids(s.server), Ids(s.server + [posted]));
    } else {
      BalancedPost(s.server, Posted("", "", ""), s.marked, s.unmarked, s.lost, p, Idle);
    }
  }

  lemma EventKeepsInv(c: Setup, s: State, e: Event)
    requires Inv(c, s) && Enabled(c, s, e)
    ensures Inv(c, Apply(c, s, e))
  {
    hide Inv, Enabled, Apply;
    match e
    case Ingest(_, _, _, _, _) => IngestKeepsInv(c, s, e);
    case Remove(_, _) => EnvironmentKeepsInv(c, s, e);
    case Other(_) => EnvironmentKeepsInv(c, s, e);
    case Fetch(o) => FetchKeepsInv(c, s, o);
    case Post(_, kind, _) =>
      if kind.Created? { ConfirmedPostKeepsInv(c, s, e); } else { LostPostKeepsInv(c, s, e); }
    case Mark(o) => MarkKeepsInv(c, s, o);
    case Kill(applied) => KillKeepsInv(c, s, applied);
    case _ => QuietStepKeepsInv(c, s, e);
  }

  lemma {:induction false} RunKeepsInv(c: Setup, s: State, events: seq<Event>)
    requires Inv(c, s) && Valid(c, s, events)
    ensures Inv(c, Exec(c, s, events))
    decreases |events|
  {
    hide Inv, Enabled, Apply;
    if events != [] {
      EventKeepsInv(c, s, events[0]);
      RunKeepsInv(c, Apply(c, s, events[0]), events[1..]);
    }
  }

  // ----- Runs in pieces -----

  // These events lead from s to t.
  ghost predicate Leads(c: Setup, s: State, events: seq<Event>, t: State) {
    Valid(c, s, events) && Exec(c, s, events) == t
  }

  lemma LeadsOne(c: Setup, s: State, e: Event)
    requires Enabled(c, s, e)
    ensures Leads(c, s, [e], Apply(c, s, e))
  {
    hide Enabled, Apply;
    var t := Apply(c, s, e);
    assert [e][1..] == [] && Valid(c, t, []) && Exec(c, t, []) == t;
  }

  lemma {:induction false} LeadsOn(c: Setup, s: State, first: seq<Event>, t: State, second: seq<Event>, u: State)
    requires Leads(c, s, first, t) && Leads(c, t, second, u)
    ensures Leads(c, s, first + second, u)
    decreases |first|
  {
    hide Enabled, Apply;
    if first == [] {
      assert first + second == second;
    } else {
      assert (first + second)[1..] == first[1..] + second;
      LeadsOn(c, Apply(c, s, first[0]), first[1..], t, second, u);
    }
  }

  lemma LeadsThen(c: Setup, s: State, events: seq<Event>, t: State, e: Event, u: State)
    requires Leads(c, s, events, t) && Enabled(c, t, e) && u == Apply(c, t, e)
    ensures Leads(c, s, events + [e], u)
  {
    hide Enabled, Apply, Leads;
    LeadsOne(c, t, e);
    LeadsOn(c, s, events, t, [e], u);
  }

  // Between runs, the issues on the server are the successful marks, the failed marks and the
  // lost confirmations.
  lemma IdleAccount(c: Setup, s: State, events: seq<Event>, t: State)
    requires Inv(c, s) && Leads(c, s, events, t) && t.phase.Idle?
    ensures Inv(c, t) && Ids(t.server) == t.marked + t.unmarked + t.lost
  {
    hide Valid, Exec, P.Inv, MarksFinal, PublishedOk, OriginsOk, Ids, ValidKeyring;
    RunKeepsInv(c, s, events);
  }

  // A process number not in use.
  lemma FreshPid(s: State) returns (pid: nat)
    ensures pid !in s.base.procs && !(s.phase.Marking? && s.phase.pid == pid)
  {
    var taken := s.base.procs.Keys + if s.phase.Marking? then {s.phase.pid} else {};
    pid := 0;
    var rest := taken;
    while rest != {}
      invariant rest <= taken
      invariant forall p :: p in taken && p !in rest ==> p < pid
      decreases |rest|
    {
      var p :| p in rest;
      rest := rest - {p};
      if p >= pid { pid := p + 1; }
    }
  }
}
