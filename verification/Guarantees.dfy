// What the pipeline promises over every run of the machine: the accounting of issues, no silent
// loss, no issue after a successful mark, and issues faithful to what was ingested.
module Guarantees {
  import opened Wrappers
  import opened MemoryStore
  import opened StatusKeys
  import opened Frame
  import opened Format
  import opened Utf8
  import opened Fences
  import opened Reading
  import opened Pipeline
  import P = Protocol

  // ----- What holds over every run -----

  ghost predicate Run(c: Setup, ring: Keyring, events: seq<Event>) {
    ValidKeyring(ring) && Valid(c, InitialState(ring), events)
  }

  ghost function After(c: Setup, ring: Keyring, events: seq<Event>): State
    requires Run(c, ring, events)
  {
    Exec(c, InitialState(ring), events)
  }

  lemma AfterKeepsInv(c: Setup, ring: Keyring, events: seq<Event>)
    requires Run(c, ring, events)
    ensures Inv(c, After(c, ring, events))
  {
    hide Inv, Valid, Exec;
    InvInitial(c, ring);
    RunKeepsInv(c, InitialState(ring), events);
  }

  // Accounting: the issues of a report are its successful marks, its failed marks, the creates
  // whose confirmation was lost, and the one in flight; it is marked successfully at most once.
  lemma Accounting(c: Setup, ring: Keyring, events: seq<Event>, id: string)
    requires Run(c, ring, events)
    ensures var s := After(c, ring, events);
            && Ids(s.server)[id] == s.marked[id] + s.unmarked[id] + s.lost[id]
                                    + (if s.phase.Marking? && s.phase.id == id then 1 else 0)
            && s.marked[id] <= 1
            && (id in s.marked ==> P.Left(s.base, id))
  {
    hide P.Inv, PublishedOk, OriginsOk, Run, After, ValidKeyring, PhaseOk, Ids, P.Left;
    AfterKeepsInv(c, ring, events);
  }

  // A report is never dropped silently: each one ingested is pending, removed or has an issue,
  // and one under published has an issue.
  lemma NothingVanishes(c: Setup, ring: Keyring, events: seq<Event>, id: string)
    requires Run(c, ring, events)
    ensures var s := After(c, ring, events);
            && (id in s.base.ingested ==>
                Key(Pending, id) in s.base.store || Key(Removed, id) in s.base.store || id in Ids(s.server))
            && (Key(Published, id) in s.base.store ==> id in Ids(s.server))
  {
    hide Balanced, MarksFinal, OriginsOk, Run, After, ValidKeyring, PhaseOk, Ids, P.ProcessesOk;
    AfterKeepsInv(c, ring, events);
  }

  // Mark only after a confirmed create: a mark begins, and a publication is called at all, only in
  // the step in which the server's confirmation of that report's issue arrives.
  lemma OnlyConfirmedMarks(c: Setup, s: State, e: Event)
    requires Enabled(c, s, e)
    ensures var t := Apply(c, s, e);
            && (t.phase.Marking? && !s.phase.Marking? ==> ConfirmedCreate(s, e, t.phase.id, t.phase.pid))
            && (forall pid :: pid in t.base.procs && pid !in s.base.procs && t.base.procs[pid].Moving?
                  && t.base.procs[pid].target == Published
                  ==> ConfirmedCreate(s, e, t.base.procs[pid].id, pid) && Ids(t.server)[t.base.procs[pid].id] > 0)
  {
    hide Open, SealFrame, FormatIssue, Ids, P.Apply;
    match e
    case Ingest(pid, id, raw, nonce, ring) =>
      NoPublication(s.base, P.BeginIngest(pid, id, SealFrame(c.aead, ring, c.scrub(raw), nonce).value));
    case Remove(pid, id) => NoPublication(s.base, P.BeginMove(pid, id, Removed));
    case Other(b) => NoPublication(s.base, b);
    case Mark(o) => NoPublication(s.base, P.Step(s.phase.pid, o));
    case Kill(applied) =>
      if s.phase.Marking? { NoPublication(s.base, P.Step(s.phase.pid, if applied then Applied else Lost)); }
    case Post(_, kind, pid) =>
      if kind.Created? {
        OnePublication(s.base, pid, s.phase.id);
        IdsAppend(s.server, Posted(s.phase.id, s.phase.title, s.phase.body));
      }
    case _ =>
  }

  lemma NoPublication(b: P.State, e: P.Event)
    requires P.Enabled(b, e) && (e.BeginMove? ==> e.target == Removed)
    ensures var d := P.Apply(b, e);
            forall pid :: pid in d.procs && pid !in b.procs
              ==> !(d.procs[pid].Moving? && d.procs[pid].target == Published)
  {
  }

  lemma OnePublication(b: P.State, pid: nat, id: string)
    requires P.Enabled(b, P.BeginMove(pid, id, Published))
    ensures var d := P.Apply(b, P.BeginMove(pid, id, Published));
            forall q :: q in d.procs && q !in b.procs ==> q == pid && d.procs[q].Moving? && d.procs[q].id == id
  {
  }

  ghost predicate ConfirmedCreate(s: State, e: Event, id: string, pid: nat) {
    s.phase.Creating? && s.phase.id == id && e.Post? && e.created && e.kind.Created? && e.pid == pid
  }

  // The server and the counts of one report are out of the publisher's reach.
  ghost predicate Untouched(s: State, t: State, id: string) {
    && Ids(t.server)[id] == Ids(s.server)[id]
    && t.marked[id] == s.marked[id] && t.unmarked[id] == s.unmarked[id] && t.lost[id] == s.lost[id]
  }

  lemma MarkedStepUntouched(c: Setup, s: State, e: Event, id: string)
    requires Inv(c, s) && Enabled(c, s, e) && id in s.marked
    ensures Untouched(s, Apply(c, s, e), id)
  {
    hide P.Inv, MarksFinal, PublishedOk, OriginsOk, Ids, Rendered, ValidKeyring, Balanced, P.Apply, P.Enabled, Open,
         SealFrame, FormatIssue;
    if s.phase.Creating? {
      IdsAppend(s.server, Posted(s.phase.id, s.phase.title, s.phase.body));
    }
  }

  lemma {:induction false} RunLeavesMarkedAlone(c: Setup, s: State, events: seq<Event>, id: string)
    requires Inv(c, s) && Valid(c, s, events) && id in s.marked
    ensures Untouched(s, Exec(c, s, events), id)
    decreases |events|
  {
    hide Inv, Enabled, Apply;
    if events != [] {
      var t := Apply(c, s, events[0]);
      EventKeepsInv(c, s, events[0]);
      MarkedStepUntouched(c, s, events[0], id);
      assert Untouched(s, t, id) && id in t.marked;
      RunLeavesMarkedAlone(c, t, events[1..], id);
    }
  }

  // De-duplication: once a mark has succeeded, no later run touches the report again, whatever
  // else happens.
  lemma NeverRecreated(c: Setup, ring: Keyring, before: seq<Event>, after: seq<Event>, id: string)
    requires Run(c, ring, before) && Valid(c, After(c, ring, before), after)
    requires id in After(c, ring, before).marked
    ensures Untouched(After(c, ring, before), Exec(c, After(c, ring, before), after), id)
  {
    hide Inv, Valid, Exec, Run, After, Untouched;
    AfterKeepsInv(c, ring, before);
    RunLeavesMarkedAlone(c, After(c, ring, before), after, id);
  }

  // ----- End to end -----

  // The key id names this key, or none.
  ghost predicate Agrees(ring: Keyring, keyId: KeyId, key: Bytes) {
    keyId in ring.keys ==> ring.keys[keyId] == key
  }

  // No keyring in force gives the key id to another key. Rotations that retain the key are of
  // this kind, and so is dropping it.
  ghost predicate NeverReused(ring: Keyring, events: seq<Event>, keyId: KeyId, key: Bytes) {
    && Agrees(ring, keyId, key)
    && forall i :: 0 <= i < |events| && events[i].Rotate? ==> Agrees(events[i].next, keyId, key)
  }

  ghost predicate Faithful(c: Setup, p: Posted, o: Origin) {
    (p.title, p.body) == FormatIssue(c.decode, p.id, c.scrub(o.raw))
  }

  ghost predicate AllFaithful(c: Setup, server: seq<Posted>, id: string, o: Origin) {
    forall i :: 0 <= i < |server| && server[i].id == id ==> Faithful(c, server[i], o)
  }

  // A frame that opens at all opens to what was sealed.
  lemma OpensToOrigin(c: Setup, o: Origin, frame: Bytes, ring: Keyring)
    requires Lawful(c.aead) && Sealed(c, o, frame) && Agrees(ring, o.keyId, o.key)
    ensures Open(c.aead, ring, frame).Ok? ==> Open(c.aead, ring, frame) == Ok(c.scrub(o.raw))
  {
    hide Open, SealFrame, Lawful;
    var sealer: Keyring, nonce: Bytes :|
      && ValidKeyring(sealer) && sealer.active == o.keyId && Holds(sealer, o.keyId, o.key)
      && SealFrame(c.aead, sealer, c.scrub(o.raw), nonce) == Ok(frame);
    DroppedKeyIsReported(c.aead, sealer, c.scrub(o.raw), nonce, ring);
    if o.keyId in ring.keys { OpenInvertsSeal(c.aead, sealer, c.scrub(o.raw), nonce, ring); }
  }

  // What the publisher is about to post is faithful.
  lemma CreatingFaithful(c: Setup, s: State, o: Origin)
    requires Lawful(c.aead) && Inv(c, s) && s.phase.Creating?
    requires Agrees(s.runRing, o.keyId, o.key)
    requires s.phase.id in s.origin ==> s.origin[s.phase.id] == o
    ensures Faithful(c, Posted(s.phase.id, s.phase.title, s.phase.body), o)
  {
    hide P.Inv, MarksFinal, PublishedOk, Ids, Balanced, Lawful, Open, FormatIssue, Sealed, Agrees, ValidKeyring;
    var id := s.phase.id;
    assert id in s.base.minted && id in s.origin;
    OpensToOrigin(c, o, s.base.minted[id], s.runRing);
  }

  ghost predicate ContentOk(c: Setup, s: State, id: string, o: Origin) {
    && Agrees(s.ring, o.keyId, o.key) && Agrees(s.runRing, o.keyId, o.key)
    && AllFaithful(c, s.server, id, o)
  }

  lemma StepKeepsContent(c: Setup, s: State, e: Event, id: string, o: Origin)
    requires Lawful(c.aead) && Inv(c, s) && Enabled(c, s, e) && ContentOk(c, s, id, o)
    requires id in s.origin ==> s.origin[id] == o
    requires e.Rotate? ==> Agrees(e.next, o.keyId, o.key)
    ensures ContentOk(c, Apply(c, s, e), id, o)
  {
    hide Inv, Lawful, Agrees, Faithful, P.Apply, P.Enabled, Open, SealFrame, FormatIssue;
    if s.phase.Creating? && s.phase.id == id { CreatingFaithful(c, s, o); }
  }

  // Ids are minted once, so an origin is never rewritten.
  lemma OriginKept(c: Setup, s: State, e: Event, id: string)
    requires Inv(c, s) && Enabled(c, s, e) && id in s.origin
    ensures var t := Apply(c, s, e); id in t.origin && t.origin[id] == s.origin[id]
  {
    hide P.Inv, MarksFinal, PublishedOk, Ids, Balanced, Open, SealFrame, FormatIssue, Sealed, PhaseOk, P.Apply,
         ValidKeyring;
  }

  lemma {:induction false} RunKeepsOrigin(c: Setup, s: State, events: seq<Event>, id: string)
    requires Inv(c, s) && Valid(c, s, events) && id in s.origin
    ensures var t := Exec(c, s, events); id in t.origin && t.origin[id] == s.origin[id]
    decreases |events|
  {
    hide Inv, Enabled, Apply;
    if events != [] {
      EventKeepsInv(c, s, events[0]);
      OriginKept(c, s, events[0], id);
      RunKeepsOrigin(c, Apply(c, s, events[0]), events[1..], id);
    }
  }

  lemma {:induction false} RunKeepsContent(c: Setup, s: State, events: seq<Event>, id: string, o: Origin)
    requires Lawful(c.aead) && Inv(c, s) && Valid(c, s, events) && ContentOk(c, s, id, o)
    requires NeverReused(s.ring, events, o.keyId, o.key)
    requires var t := Exec(c, s, events); id in t.origin && t.origin[id] == o
    ensures AllFaithful(c, Exec(c, s, events).server, id, o)
    decreases |events|
  {
    hide Inv, Enabled, Apply, Lawful, Agrees;
    if events != [] {
      var e, rest := events[0], events[1..];
      var t := Apply(c, s, e);
      EventKeepsInv(c, s, e);
      if id in s.origin { RunKeepsOrigin(c, s, events, id); }
      StepKeepsContent(c, s, e, id, o);
      forall i | 0 <= i < |rest| && rest[i].Rotate?
        ensures Agrees(rest[i].next, o.keyId, o.key)
      {
        assert rest[i] == events[i + 1];
      }
      RunKeepsContent(c, t, rest, id, o);
    }
  }

  // End to end: after any run in which the id of its key was never given to another key, every
  // issue of a report has the title and body formatted from its scrubbed ingested bytes.
  lemma EndToEnd(c: Setup, ring: Keyring, events: seq<Event>, id: string)
    requires Lawful(c.aead) && Run(c, ring, events) && id in After(c, ring, events).origin
    requires var o := After(c, ring, events).origin[id]; NeverReused(ring, events, o.keyId, o.key)
    ensures var s := After(c, ring, events);
            forall i :: 0 <= i < |s.server| && s.server[i].id == id
              ==> (s.server[i].title, s.server[i].body) == FormatIssue(c.decode, id, c.scrub(s.origin[id].raw))
  {
    hide Inv, Valid, Exec, Lawful, ValidKeyring, FormatIssue;
    InvInitial(c, ring);
    RunKeepsContent(c, InitialState(ring), events, id, After(c, ring, events).origin[id]);
  }

  ghost predicate LeavesRoom(c: Setup, id: string, plaintext: string) {
    var rep := c.decode(plaintext);
    var text := ReportText(rep, plaintext);
    Overhead(id, rep, text) + Min(RuneCount(text), RuneCount(Marker())) <= MAX_ISSUE_BODY_RUNES
  }

  // What an issue tells a reader: the title, the id, the metadata and the report itself.
  ghost predicate ReadsBack(c: Setup, id: string, plaintext: string, title: string, body: string) {
    var rep := c.decode(plaintext);
    var text := if rep.Some? then rep.value.report else plaintext;
    && TitleTells(rep, title)
    && ReadHead(body) == Expected(id, rep)
    && exists shown ::
         Shown(text, MAX_ISSUE_BODY_RUNES - Overhead(id, rep, text), shown)
         && ReadBlock(body) == Some(Block(0, "", shown + "\n"))
  }

  lemma IssueReads(c: Setup, id: string, plaintext: string)
    requires Plain(id) && LeavesRoom(c, id, plaintext)
    ensures var (title, body) := FormatIssue(c.decode, id, plaintext); ReadsBack(c, id, plaintext, title, body)
  {
    hide Plain, ReadBlock, Shown, Overhead, Body, Title, ReportText, RuneCount, Marker, TitleTells, ReadHead, Expected;
    var rep := c.decode(plaintext);
    SameText(rep, plaintext);
    BodyReadsBack(id, rep, plaintext);
    HeadReadsBack(id, rep, plaintext);
    TitleExact(rep);
  }

  lemma SameText(rep: Option<Report>, plaintext: string)
    ensures ReportText(rep, plaintext) == if rep.Some? then rep.value.report else plaintext
  {
  }

  // And read back: the title of every issue of a report names its version and platform, the lines
  // above the block hold its id and each of its metadata values under its label, and the first fenced
  // block is what is shown of its scrubbed ingested text, whenever the fixed sections leave room for
  // that text or for the marker.
  lemma IssuesReadBack(c: Setup, ring: Keyring, events: seq<Event>, id: string, i: nat)
    requires Lawful(c.aead) && Run(c, ring, events) && id in After(c, ring, events).origin && Plain(id)
    requires var o := After(c, ring, events).origin[id]; NeverReused(ring, events, o.keyId, o.key)
    requires var s := After(c, ring, events); i < |s.server| && s.server[i].id == id
    requires LeavesRoom(c, id, c.scrub(After(c, ring, events).origin[id].raw))
    ensures var s := After(c, ring, events);
            ReadsBack(c, id, c.scrub(s.origin[id].raw), s.server[i].title, s.server[i].body)
  {
    hide Run, After, Lawful, NeverReused, Plain, ReadsBack, LeavesRoom, FormatIssue;
    EndToEnd(c, ring, events, id);
    IssueReads(c, id, c.scrub(After(c, ring, events).origin[id].raw));
  }
}
