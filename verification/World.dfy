// A world that meets what the publisher asks of everyone else at the store: it ingests a report at
// some point of the publisher's run.
module World {
  import opened Wrappers
  import opened Order
  import opened MemoryStore
  import opened StatusKeys
  import opened Lifecycle
  import opened Frame
  import opened Format
  import opened Backlog
  import opened Pipeline
  import opened Steps
  import opened Sink
  import P = Protocol

  lemma FreshPidExists(s: State)
    ensures exists pid :: Unused(s, pid)
  {
    var pid := FreshPid(s);
    assert Unused(s, pid);
  }

  predicate Unused(s: State, pid: nat) {
    pid !in s.base.procs && !(s.phase.Marking? && s.phase.pid == pid)
  }

  ghost function UnusedPid(s: State): (pid: nat)
    ensures Unused(s, pid)
  {
    FreshPidExists(s);
    var pid :| Unused(s, pid);
    pid
  }

  // Everyone else ingests one report, just before store call k.
  ghost function IngestAt(k: nat, ring: Keyring, id: string, raw: Bytes, nonce: Bytes): Rest {
    Rest((n: nat, s: State) => n <= k ==> id !in s.base.minted,
         (n: nat, s: State) =>
           if n != k then []
           else [Ingest(UnusedPid(s), id, raw, nonce, ring)] + [Other(P.PutReport(UnusedPid(s), Done))])
  }

  function AddAt(k: nat, key: string, frame: Bytes): Effect {
    (n: nat, objects: map<string, Bytes>) => if n == k then objects[key := frame] else objects
  }

  lemma IngestAtMoves(c: Setup, k: nat, ring: Keyring, id: string, raw: Bytes, nonce: Bytes, n: nat, s: State,
                      objects: map<string, Bytes>)
    requires ValidKeyring(ring) && SealFrame(c.aead, ring, c.scrub(raw), nonce).Ok?
    requires n <= k ==> id !in s.base.minted
    requires Represents(objects, s.base.store)
    ensures var frame := SealFrame(c.aead, ring, c.scrub(raw), nonce).value;
            MovesOk(c, AddAt(k, ReportKey(Pending, id), frame), IngestAt(k, ring, id, raw, nonce), n, s, objects)
  {
    hide Represents, SealFrame, ReportKey, Enabled, Apply;
    if n == k {
      var events, t := IngestSteps(c, s, UnusedPid(s), id, raw, nonce, ring, Done, objects);
    } else {
      assert Valid(c, s, []) && Exec(c, s, []) == s;
    }
  }

  // What is asked of everyone else can be met by a world that changes the store.
  lemma RelyIsSatisfiable(c: Setup, k: nat, ring: Keyring, id: string, raw: Bytes, nonce: Bytes)
    requires ValidKeyring(ring) && SealFrame(c.aead, ring, c.scrub(raw), nonce).Ok?
    ensures var frame := SealFrame(c.aead, ring, c.scrub(raw), nonce).value;
            var rest := IngestAt(k, ring, id, raw, nonce);
            Rely(c, AddAt(k, ReportKey(Pending, id), frame), rest) && rest.plausible(0, InitialState(ring))
  {
    hide Represents, SealFrame, ReportKey, MovesOk, Open, FormatIssue;
    var frame := SealFrame(c.aead, ring, c.scrub(raw), nonce).value;
    var rest, effect := IngestAt(k, ring, id, raw, nonce), AddAt(k, ReportKey(Pending, id), frame);
    forall n, s, objects | rest.plausible(n, s) && Represents(objects, s.base.store)
      ensures MovesOk(c, effect, rest, n, s, objects)
    {
      IngestAtMoves(c, k, ring, id, raw, nonce, n, s, objects);
    }
    forall n, s, e | rest.plausible(n, s) && !Foreign(e)
      ensures Unmoved(c, rest, n, s, e)
    {
      if Enabled(c, s, e) { OwnStepMintsNothing(c, s, e); }
    }
  }

  lemma MintsNothing(b: P.State, e: P.Event)
    requires P.Enabled(b, e) && !e.BeginIngest?
    ensures P.Apply(b, e).minted == b.minted
  {
  }

  lemma OwnStepMintsNothing(c: Setup, s: State, e: Event)
    requires Enabled(c, s, e) && !Foreign(e)
    ensures Apply(c, s, e).base.minted == s.base.minted
  {
    hide SealFrame, Open, FormatIssue, P.Apply, PendingReports, Sorted, Batch;
    match e
    case Post(_, kind, pid) =>
      if kind.Created? { MintsNothing(s.base, P.BeginMove(pid, s.phase.id, Published)); }
    case Mark(o) => MintsNothing(s.base, P.Step(s.phase.pid, o));
    case Kill(applied) =>
      if s.phase.Marking? { MintsNothing(s.base, P.Step(s.phase.pid, if applied then Applied else Lost)); }
    case _ =>
  }
}
