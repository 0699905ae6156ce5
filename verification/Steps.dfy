// The publisher's calls as steps of the pipeline machine, with everyone else's steps before every
// store call.
module Steps {
  import opened Wrappers
  import opened Order
  import opened MemoryStore
  import opened StatusKeys
  import opened Move
  import opened Lifecycle
  import opened Frame
  import opened Format
  import opened Github
  import opened Backlog
  import opened Pipeline
  import P = Protocol

  // ----- Everyone else -----

  // What everyone else does by the n-th store call, in a state in which they may find themselves
  // then. They ingest, remove and rotate keys.
  datatype Rest = Rest(plausible: (nat, State) -> bool, moves: (nat, State) -> seq<Event>)

  predicate Foreign(e: Event) {
    e.Ingest? || e.Remove? || e.Other? || e.Rotate?
  }

  ghost predicate AllForeign(events: seq<Event>) {
    forall i :: 0 <= i < |events| ==> Foreign(events[i])
  }

  // Their moves are steps of the machine, and effect is what these do to the objects.
  ghost predicate MovesOk(c: Setup, effect: Effect, rest: Rest, n: nat, s: State, objects: map<string, Bytes>) {
    var events := rest.moves(n, s);
    && AllForeign(events) && Valid(c, s, events)
    && Represents(effect(n, objects), Exec(c, s, events).base.store)
    && rest.plausible(n + 1, Exec(c, s, events))
  }

  // They do not depend on where the publisher is.
  ghost predicate Unmoved(c: Setup, rest: Rest, n: nat, s: State, e: Event) {
    Enabled(c, s, e) ==> rest.plausible(n, Apply(c, s, e))
  }

  ghost predicate Rely(c: Setup, effect: Effect, rest: Rest) {
    && (forall n, s, objects :: rest.plausible(n, s) && Represents(objects, s.base.store)
          ==> MovesOk(c, effect, rest, n, s, objects))
    && (forall n, s, e :: rest.plausible(n, s) && !Foreign(e) ==> Unmoved(c, rest, n, s, e))
  }

  ghost predicate KeepsRing(rest: Rest) {
    forall n, s, i :: 0 <= i < |rest.moves(n, s)| ==> !rest.moves(n, s)[i].Rotate?
  }

  // What everyone else leaves to the publisher.
  ghost predicate Untaken(s: State, t: State) {
    && t.phase == s.phase && t.runRing == s.runRing
    && t.server == s.server && t.marked == s.marked && t.unmarked == s.unmarked && t.lost == s.lost
    && (s.phase.Marking? && s.phase.pid in s.base.procs ==>
          s.phase.pid in t.base.procs && t.base.procs[s.phase.pid] == s.base.procs[s.phase.pid])
  }

  lemma ForeignStep(c: Setup, s: State, e: Event)
    requires Enabled(c, s, e) && Foreign(e)
    ensures var t := Apply(c, s, e); Untaken(s, t) && (!e.Rotate? ==> t.ring == s.ring)
  {
    hide Open, SealFrame, FormatIssue;
  }

  lemma {:induction false} ForeignRun(c: Setup, s: State, events: seq<Event>)
    requires Valid(c, s, events) && AllForeign(events)
    ensures var t := Exec(c, s, events);
            Untaken(s, t) && ((forall i :: 0 <= i < |events| ==> !events[i].Rotate?) ==> t.ring == s.ring)
    decreases |events|
  {
    hide Enabled, Apply, Foreign;
    if events != [] {
      ForeignStep(c, s, events[0]);
      assert forall i :: 0 <= i < |events[1..]| ==> events[1..][i] == events[i + 1];
      ForeignRun(c, Apply(c, s, events[0]), events[1..]);
    }
  }

  // Their turn before a store call.
  lemma TheirTurn(c: Setup, effect: Effect, rest: Rest, n: nat, s: State, objects: map<string, Bytes>)
    returns (events: seq<Event>, t: State)
    requires Rely(c, effect, rest) && rest.plausible(n, s) && Represents(objects, s.base.store)
    ensures Leads(c, s, events, t) && Untaken(s, t) && (KeepsRing(rest) ==> t.ring == s.ring)
    ensures rest.plausible(n + 1, t) && Represents(effect(n, objects), t.base.store)
  {
    hide Represents, Enabled, Apply, Untaken, Valid, Exec;
    assert MovesOk(c, effect, rest, n, s, objects);
    events := rest.moves(n, s);
    t := Exec(c, s, events);
    ForeignRun(c, s, events);
  }

  // A step of the publisher.
  lemma OwnTurn(c: Setup, effect: Effect, rest: Rest, n: nat, s: State, e: Event)
    requires Rely(c, effect, rest) && rest.plausible(n, s) && Enabled(c, s, e) && !Foreign(e)
    ensures Leads(c, s, [e], Apply(c, s, e)) && rest.plausible(n, Apply(c, s, e))
  {
    hide Enabled, Apply, Leads, Foreign, MovesOk;
    assert Unmoved(c, rest, n, s, e);
    LeadsOne(c, s, e);
  }

  // The rings stay as the publisher needs them.
  ghost predicate SameRings(rest: Rest, s: State, t: State) {
    t.runRing == s.runRing && (KeepsRing(rest) ==> t.ring == s.ring)
  }

  // ----- The publisher's calls -----

  // Whether the server created an issue: when it said so, or when it did without saying so.
  function WasCreated(kind: HttpKind, unconfirmed: bool): bool {
    kind.Created? || kind.Undecodable? || unconfirmed
  }

  // The issues that the attempts of a call from the k-th on leave on the server: one for a 201 that
  // ends it, and one wherever the server created an issue without saying so.
  function Copies(call: seq<Attempt>, unconfirmed: nat -> bool, base: nat, k: nat): nat
    decreases |call| - k
  {
    if k >= |call| then 0
    else
      var a := call[k];
      var made := (a.decision.Final? && a.reply.Response? && a.reply.status == 201) || unconfirmed(base + k);
      (if made then 1 else 0) + Copies(call, unconfirmed, base, k + 1)
  }

  // n more issues on the server, all of this report.
  ghost predicate PostedMore(before: seq<Posted>, after: seq<Posted>, id: string, n: nat) {
    && before <= after && |after| == |before| + n
    && forall i :: |before| <= i < |after| ==> after[i].id == id
  }

  lemma NonePosted(server: seq<Posted>, id: string, unconfirmed: nat -> bool, base: nat)
    ensures PostedMore(server, server, id, Copies([], unconfirmed, base, 0))
  {
  }

  // A publication has begun, and nothing else has happened.
  ghost predicate Began(b: P.State, pid: nat, id: string, d: P.State) {
    d.store == b.store && d.ingested == b.ingested
    && pid in d.procs && d.procs[pid] == P.Moving(id, Published, false, Read)
  }

  // The attempts of one CreateIssue, as steps of the machine.
  lemma {:induction false} CreateSteps(
      c: Setup, effect: Effect, rest: Rest, n: nat, s: State,
      call: seq<Attempt>, decodes: string -> bool, unconfirmed: nat -> bool, base: nat, pid: nat)
    returns (events: seq<Event>, t: State)
    requires Rely(c, effect, rest) && rest.plausible(n, s)
    requires s.phase.Creating? && s.phase.attempt <= |call| <= c.maxAttempts
    requires s.phase.attempt == |call| > 0 ==> Kind(call[|call| - 1], decodes).Retryable?
    requires forall i :: 0 <= i < |call| - 1 ==> Kind(call[i], decodes).Retryable?
    requires pid !in s.base.procs
    ensures Leads(c, s, events, t) && rest.plausible(n, t)
    ensures t.ring == s.ring && t.runRing == s.runRing && t.marked == s.marked && t.unmarked == s.unmarked
    ensures if Confirmed(call, decodes)
            then t.phase == Marking(s.phase.id, pid, s.phase.todo) && Began(s.base, pid, s.phase.id, t.base)
            else t.phase == Picking(s.phase.todo) && t.base == s.base
    ensures PostedMore(s.server, t.server, s.phase.id, Copies(call, unconfirmed, base, s.phase.attempt))
    decreases |call| - s.phase.attempt
  {
    hide Leads, Open, SealFrame, FormatIssue, Kind, Rely;
    var k := s.phase.attempt;
    if k < |call| { KindExactly(call[k], decodes); }
    if k == |call| {
      OwnTurn(c, effect, rest, n, s, GiveUp);
      return [GiveUp], Apply(c, s, GiveUp);
    }
    var kind := Kind(call[k], decodes);
    var e := Post(WasCreated(kind, unconfirmed(base + k)), kind, pid);
    OwnTurn(c, effect, rest, n, s, e);
    t := Apply(c, s, e);
    events := [e];
    if t.phase.Creating? {
      var more, u := CreateSteps(c, effect, rest, n, t, call, decodes, unconfirmed, base, pid);
      LeadsOn(c, s, [e], t, more, u);
      return [e] + more, u;
    }
  }

  // What a mark makes of the counts.
  ghost predicate Tallied(s: State, t: State, id: string, moved: bool) {
    && t.server == s.server && t.lost == s.lost
    && (if moved then t.marked == s.marked + multiset{id} && t.unmarked == s.unmarked
        else t.marked == s.marked && t.unmarked == s.unmarked + multiset{id})
  }

  // One store call of a mark, after the others' turn.
  lemma MarkCall(c: Setup, s: State, o: Outcome, objects: map<string, Bytes>) returns (t: State)
    requires s.phase.Marking? && s.phase.pid in s.base.procs && Represents(objects, s.base.store)
    requires var p := s.base.procs[s.phase.pid];
             p.Moving? && p.id == s.phase.id && p.target == Published && !p.pc.Halted?
    ensures Enabled(c, s, Mark(o)) && t == Apply(c, s, Mark(o)) && t.ring == s.ring && t.runRing == s.runRing
    ensures var id, pid := s.phase.id, s.phase.pid;
            var d := Advance(Config(objects, s.base.procs[pid].pc), ReportKey(Pending, id), ReportKey(Published, id),
                             o);
            && Represents(d.store, t.base.store)
            && if d.pc.Halted? then t.phase == Picking(s.phase.todo) && Tallied(s, t, id, d.pc == Halted(Moved))
               else
                 && t.phase == s.phase
                 && t.server == s.server && t.lost == s.lost && t.marked == s.marked && t.unmarked == s.unmarked
                 && pid in t.base.procs && t.base.procs[pid].Moving? && t.base.procs[pid].id == id
                 && t.base.procs[pid].target == Published && t.base.procs[pid].pc == d.pc
  {
    hide Open, SealFrame, FormatIssue, Represents, ReportKey;
    var id, pid := s.phase.id, s.phase.pid;
    var from, to := Key(Pending, id), Key(Published, id);
    assert Encode(from) == ReportKey(Pending, id) && Encode(to) == ReportKey(Published, id);
    AdvanceRefinesProtocol(Config(objects, s.base.procs[pid].pc), Config(s.base.store, s.base.procs[pid].pc), from,
                           to, o);
    t := Apply(c, s, Mark(o));
  }

  // MarkPublished amid everyone else's steps, as steps of the machine.
  lemma {:induction false} MarkSteps(
      c: Setup, effect: Effect, rest: Rest, s: State,
      fault: nat -> Outcome, at: nat, objects: map<string, Bytes>)
    returns (events: seq<Event>, t: State)
    requires Rely(c, effect, rest) && rest.plausible(at, s) && Represents(objects, s.base.store)
    requires s.phase.Marking? && s.phase.pid in s.base.procs
    requires var p := s.base.procs[s.phase.pid];
             p.Moving? && p.id == s.phase.id && p.target == Published && !p.pc.Halted?
    ensures Leads(c, s, events, t) && SameRings(rest, s, t)
    ensures var id := s.phase.id;
            var d := CompleteAmid(Config(objects, s.base.procs[s.phase.pid].pc), ReportKey(Pending, id),
                                  ReportKey(Published, id), fault, effect, at);
            && Represents(d.0.store, t.base.store) && rest.plausible(d.1, t)
            && t.phase == Picking(s.phase.todo) && Tallied(s, t, id, d.0.pc == Halted(Moved))
    decreases CallsLeft(s.base.procs[s.phase.pid].pc)
  {
    hide Leads, Rely, Represents, ReportKey, Enabled, Apply;
    var before, u := TheirTurn(c, effect, rest, at, s, objects);
    var e := Mark(fault(at));
    t := MarkCall(c, u, fault(at), effect(at, objects));
    OwnTurn(c, effect, rest, at + 1, u, e);
    LeadsOn(c, s, before, u, [e], t);
    events := before + [e];
    if t.phase.Marking? {
      var pc := s.base.procs[s.phase.pid].pc;
      var d := Advance(Config(effect(at, objects), pc), ReportKey(Pending, s.phase.id),
                       ReportKey(Published, s.phase.id), fault(at));
      var more, v := MarkSteps(c, effect, rest, t, fault, at + 1, d.store);
      LeadsOn(c, s, events, t, more, v);
      return events + more, v;
    }
  }

  lemma PendingAgrees(objects: map<string, Bytes>, reports: map<Key, Bytes>)
    requires Represents(objects, reports)
    ensures PendingReports(reports) == PendingIds(objects)
  {
    hide StatusPrefix;
    forall id
      ensures id in PendingReports(reports) <==> id in PendingIds(objects)
    {
      PendingIdsExact(objects, id);
      assert Encode(Key(Pending, id)) == ReportKey(Pending, id);
      assert Key(Pending, id) in reports <==> id in PendingReports(reports);
    }
  }

  ghost function FrameOf(objects: map<string, Bytes>, id: string): Option<Bytes> {
    var key := ReportKey(Pending, id);
    if key in objects then Some(objects[key]) else None
  }

  lemma PickStep(c: Setup, effect: Effect, rest: Rest, n: nat, s: State)
    returns (t: State)
    requires Rely(c, effect, rest) && rest.plausible(n, s) && s.phase.Picking?
    ensures Leads(c, s, [Pick], t) && rest.plausible(n, t)
    ensures t == if s.phase.todo == [] then s.(phase := Idle)
                 else s.(phase := Fetching(s.phase.todo[0], s.phase.todo[1..]))
  {
    hide Leads, Open, SealFrame, FormatIssue, Rely;
    OwnTurn(c, effect, rest, n, s, Pick);
    t := Apply(c, s, Pick);
  }

  lemma CancelStep(c: Setup, effect: Effect, rest: Rest, n: nat, s: State)
    requires Rely(c, effect, rest) && rest.plausible(n, s) && s.phase.Picking?
    ensures Leads(c, s, [Cancel], s.(phase := Idle)) && rest.plausible(n, s.(phase := Idle))
  {
    hide Leads, Open, SealFrame, FormatIssue, Rely;
    OwnTurn(c, effect, rest, n, s, Cancel);
  }

  lemma NoSteps(c: Setup, s: State)
    ensures Leads(c, s, [], s)
  {
    hide Enabled, Apply;
  }

  // The fetch itself, after the others' turn.
  lemma FetchCall(c: Setup, s: State, o: Outcome, objects: map<string, Bytes>) returns (t: State)
    requires s.phase.Fetching? && Represents(objects, s.base.store)
    ensures Enabled(c, s, Fetch(o)) && t == Apply(c, s, Fetch(o))
    ensures var id, todo := s.phase.id, s.phase.todo;
            var frame := FrameOf(objects, id);
            if !o.Done? || frame.None? || Open(c.aead, s.runRing, frame.value).Err? then t == s.(phase := Picking(todo))
            else
              var issue := FormatIssue(c.decode, id, Open(c.aead, s.runRing, frame.value).value);
              t == s.(phase := Creating(id, issue.0, issue.1, 0, todo))
  {
    hide Open, FormatIssue, ReportKey, SealFrame;
    assert Encode(Key(Pending, s.phase.id)) == ReportKey(Pending, s.phase.id);
    t := Apply(c, s, Fetch(o));
  }

  // Taking up the next report, fetching and decrypting it, as steps of the machine.
  lemma FetchSteps(c: Setup, effect: Effect, rest: Rest, n: nat, s: State, o: Outcome, objects: map<string, Bytes>)
    returns (events: seq<Event>, t: State)
    requires Rely(c, effect, rest) && rest.plausible(n, s)
    requires s.phase.Picking? && s.phase.todo != [] && Represents(objects, s.base.store)
    ensures Leads(c, s, events, t) && SameRings(rest, s, t)
    ensures rest.plausible(n + 1, t) && Represents(effect(n, objects), t.base.store)
    ensures t.server == s.server && t.marked == s.marked && t.unmarked == s.unmarked
    ensures var id, todo := s.phase.todo[0], s.phase.todo[1..];
            var frame := FrameOf(effect(n, objects), id);
            if !o.Done? || frame.None? || Open(c.aead, s.runRing, frame.value).Err? then t.phase == Picking(todo)
            else
              var issue := FormatIssue(c.decode, id, Open(c.aead, s.runRing, frame.value).value);
              t.phase == Creating(id, issue.0, issue.1, 0, todo)
  {
    hide Leads, Open, FormatIssue, FrameOf, Rely, Represents, Enabled, Apply;
    var picked := PickStep(c, effect, rest, n, s);
    var theirs, u := TheirTurn(c, effect, rest, n, picked, objects);
    t := FetchCall(c, u, o, effect(n, objects));
    OwnTurn(c, effect, rest, n + 1, u, Fetch(o));
    LeadsOn(c, s, [Pick], picked, theirs, u);
    LeadsOn(c, s, [Pick] + theirs, u, [Fetch(o)], t);
    events := [Pick] + theirs + [Fetch(o)];
  }

  lemma ListCall(c: Setup, s: State, o: Outcome, objects: map<string, Bytes>) returns (t: State)
    requires s.phase.Listing? && Represents(objects, s.base.store)
    ensures Enabled(c, s, List(o)) && t == Apply(c, s, List(o))
    ensures t == s.(phase := if o.Done? then Picking(Batch(Sorted(PendingIds(objects)), c.maxPerRun)) else Idle)
  {
    hide Open, FormatIssue, SealFrame, Represents, PendingIds, PendingReports, Sorted, Batch;
    PendingAgrees(objects, s.base.store);
    t := Apply(c, s, List(o));
  }

  // Starting a run and listing what is pending, as steps of the machine.
  lemma ListSteps(c: Setup, effect: Effect, rest: Rest, n: nat, s: State, o: Outcome, objects: map<string, Bytes>)
    returns (events: seq<Event>, t: State)
    requires Rely(c, effect, rest) && rest.plausible(n, s)
    requires s.phase.Idle? && Represents(objects, s.base.store)
    ensures Leads(c, s, events, t)
    ensures t.runRing == s.ring && (KeepsRing(rest) ==> t.ring == s.ring)
    ensures rest.plausible(n + 1, t) && Represents(effect(n, objects), t.base.store)
    ensures t.server == s.server && t.marked == s.marked && t.unmarked == s.unmarked
    ensures t.phase == if o.Done? then Picking(Batch(Sorted(PendingIds(effect(n, objects))), c.maxPerRun)) else Idle
  {
    hide Leads, Open, FormatIssue, SealFrame, Represents, PendingIds, PendingReports, Sorted, Batch, Rely;
    OwnTurn(c, effect, rest, n, s, StartRun);
    var started := Apply(c, s, StartRun);
    var theirs, u := TheirTurn(c, effect, rest, n, started, objects);
    t := ListCall(c, u, o, effect(n, objects));
    OwnTurn(c, effect, rest, n + 1, u, List(o));
    LeadsOn(c, s, [StartRun], started, theirs, u);
    LeadsOn(c, s, [StartRun] + theirs, u, [List(o)], t);
    events := [StartRun] + theirs + [List(o)];
  }
}
