// The weekly publisher in the form of internal/publish/publish.go, and the gate around a run
// (internal/schedule/schedule.go). Its methods drive the lifecycle manager and the GitHub
// client, and each is proved to be a run of the pipeline machine.
module Publish {
  import opened Wrappers
  import opened Order
  import opened StatusKeys
  import opened Move
  import opened Lifecycle
  import opened Frame
  import opened Format
  import opened Github
  import opened Backlog
  import opened Pipeline
  import opened Steps
  import Calendar
  import Fences
  import Guarantees
  import Schedule
  import P = Protocol

  // Why a report was left as it was.
  datatype Failure = FetchFailed | DecryptFailed | CreateFailed | MarkFailed

  // ----- What a run may count on -----

  // Moving a report out of pending takes it off the list and leaves the other frames alone.
  ghost predicate OnlyLeft(before: map<string, Bytes>, after: map<string, Bytes>, gone: set<string>) {
    && PendingIds(after) == PendingIds(before) - gone
    && forall id :: id in PendingIds(after) ==> FrameOf(after, id) == FrameOf(before, id)
  }

  lemma PublishedLeaves(objects: map<string, Bytes>, id: string, frame: Bytes)
    ensures OnlyLeft(objects, objects[ReportKey(Published, id) := frame] - {ReportKey(Pending, id)}, {id})
  {
    hide PendingIds, StatusPrefix, ReportKey;
    var after := objects[ReportKey(Published, id) := frame] - {ReportKey(Pending, id)};
    forall x
      ensures x in PendingIds(after) <==> x in PendingIds(objects) && x != id
      ensures x != id ==> FrameOf(after, x) == FrameOf(objects, x)
    {
      PendingIdsExact(objects, x);
      PendingIdsExact(after, x);
      KeysApart(x, id);
    }
  }

  lemma KeysApart(x: string, id: string)
    ensures ReportKey(Pending, x) != ReportKey(Published, id)
    ensures x != id ==> ReportKey(Pending, x) != ReportKey(Pending, id)
  {
    hide ReportKey;
    assert Encode(Key(Pending, x)) == ReportKey(Pending, x);
    if ReportKey(Pending, x) == ReportKey(Published, id) {
      KeyInjective(Key(Pending, x), Key(Published, id));
    }
    if ReportKey(Pending, x) == ReportKey(Pending, id) {
      KeyInjective(Key(Pending, x), Key(Pending, id));
    }
  }

  // What became of one attempted report: published, or left for a reason.
  type Ending = Option<Failure>

  // The attempted ids that ended this way.
  function Ended(ids: seq<string>, outcomes: seq<Ending>, how: Ending): multiset<string>
    requires |outcomes| <= |ids|
  {
    if outcomes == [] then multiset{}
    else
      var n := |outcomes| - 1;
      Ended(ids, outcomes[..n], how) + (if outcomes[n] == how then multiset{ids[n]} else multiset{})
  }

  function CountPublished(outcomes: seq<Ending>): nat {
    if outcomes == [] then 0
    else CountPublished(outcomes[..|outcomes| - 1]) + (if outcomes[|outcomes| - 1].None? then 1 else 0)
  }

  // The machine's counts have moved by what the attempts ended as.
  ghost predicate Counted(before: Counts, after: Counts, batch: seq<string>, outcomes: seq<Ending>) {
    && |outcomes| <= |batch|
    && after.marked == before.marked + Ended(batch, outcomes, None)
    && after.unmarked == before.unmarked + Ended(batch, outcomes, Some(MarkFailed))
  }

  datatype Counts = Counts(marked: multiset<string>, unmarked: multiset<string>)

  function CountsOf(s: State): Counts {
    Counts(s.marked, s.unmarked)
  }

  lemma CountedMore(s: Counts, t: Counts, u: Counts, batch: seq<string>, outcomes: seq<Ending>, next: Ending)
    requires |outcomes| < |batch| && Counted(s, t, batch, outcomes)
    requires u.marked == t.marked + (if next.None? then multiset{batch[|outcomes|]} else multiset{})
    requires u.unmarked == t.unmarked + (if next == Some(MarkFailed) then multiset{batch[|outcomes|]} else multiset{})
    ensures Counted(s, u, batch, outcomes + [next])
  {
    assert (outcomes + [next])[..|outcomes|] == outcomes;
  }

  lemma OneMoreOutcome(outcomes: seq<Ending>, next: Ending)
    ensures CountPublished(outcomes + [next]) == CountPublished(outcomes) + (if next.None? then 1 else 0)
  {
    assert (outcomes + [next])[..|outcomes|] == outcomes;
  }

  // outcomes: one per attempted report, in order; errors is whether Publish returns an error.
  datatype RunReport = RunReport(
    outcomes: seq<Ending>, published: nat, labelFailures: nat, cancelled: bool, capHit: bool)

  // Every other report is as pending as before.
  ghost predicate Elsewhere(before: map<string, Bytes>, after: map<string, Bytes>, id: string) {
    forall y :: y != id ==> FrameOf(after, y) == FrameOf(before, y)
  }

  lemma FrameThere(objects: map<string, Bytes>, id: string)
    ensures FrameOf(objects, id)
            == if ReportKey(Pending, id) in objects then Some(objects[ReportKey(Pending, id)]) else None
  {
  }

  lemma CutMeansCancelled(w: World, from: nat, to: nat)
    ensures CutShort(w, from, to) ==> !Uncancelled(w)
  {
  }

  // Everything sent since is this request, if anything.
  ghost predicate SentOnly(before: seq<Attempt>, after: seq<Attempt>, request: Option<string>) {
    before <= after && forall i :: |before| <= i < |after| ==> request == Some(after[i].request)
  }

  lemma SentByCall(before: seq<Attempt>, call: seq<Attempt>, request: string)
    requires CallOk(call, request)
    ensures SentOnly(before, before + call, Some(request))
  {
  }

  lemma NothingSent(trace: seq<Attempt>)
    ensures forall request :: SentOnly(trace, trace, request)
  {
  }

  // The labels were tried before anything else was sent.
  ghost predicate LabelsFirst(before: seq<Attempt>, after: seq<Attempt>, labels: seq<string>, failed: nat) {
    exists results, calls :: LabelsTried(labels, results, calls) && failed == LabelFailures(results)
        && before + Joined(calls) <= after
  }

  lemma LabelsNow(before: seq<Attempt>, labels: seq<string>, results: seq<DoResult>, calls: seq<seq<Attempt>>)
    requires LabelsTried(labels, results, calls)
    ensures LabelsFirst(before, before + Joined(calls), labels, LabelFailures(results))
  {
    hide LabelsTried, Joined, LabelFailures;
  }

  lemma LabelsStay(before: seq<Attempt>, now: seq<Attempt>, after: seq<Attempt>, request: Option<string>,
                   labels: seq<string>, failed: nat)
    requires LabelsFirst(before, now, labels, failed) && SentOnly(now, after, request)
    ensures LabelsFirst(before, after, labels, failed)
  {
    hide LabelsTried, Joined, LabelFailures;
  }

  // Publish returns an error.
  predicate HasErrors(r: RunReport) {
    r.labelFailures > 0 || r.cancelled || r.published < |r.outcomes|
  }

  // It returns none exactly when no label failed, the run was not cancelled and every attempt
  // ended in a published report.
  lemma NoErrorsExactly(r: RunReport)
    requires r.published == CountPublished(r.outcomes)
    ensures !HasErrors(r) <==>
              r.labelFailures == 0 && !r.cancelled && forall i :: 0 <= i < |r.outcomes| ==> r.outcomes[i].None?
  {
    AllPublished(r.outcomes);
  }

  lemma {:induction false} AllPublished(outcomes: seq<Ending>)
    ensures CountPublished(outcomes) <= |outcomes|
    ensures CountPublished(outcomes) == |outcomes| <==> forall i :: 0 <= i < |outcomes| ==> outcomes[i].None?
  {
    if outcomes != [] {
      var n := |outcomes| - 1;
      AllPublished(outcomes[..n]);
      assert forall i :: 0 <= i < n ==> outcomes[..n][i] == outcomes[i];
    }
  }

  lemma LeftMore(a: map<string, Bytes>, b: map<string, Bytes>, c: map<string, Bytes>, gone: set<string>, id: string)
    requires OnlyLeft(a, b, gone) && OnlyLeft(b, c, {id})
    ensures OnlyLeft(a, c, gone + {id})
  {
    hide PendingIds, FrameOf;
  }

  lemma NothingLeft(objects: map<string, Bytes>)
    ensures OnlyLeft(objects, objects, {})
  {
    hide PendingIds, FrameOf;
  }

  ghost function Elements(ids: seq<string>): set<string> {
    set id | id in ids
  }

  lemma NothingYet(batch: seq<string>)
    ensures forall counts :: Counted(counts, counts, batch, [])
    ensures CountPublished([]) == 0
  {
  }

  // A report that was listed and not yet attempted is as it was listed.
  lemma StillThere(before: map<string, Bytes>, now: map<string, Bytes>, batch: seq<string>, i: nat, good: set<string>)
    requires i < |batch| && Ascending(batch) && batch[i] in PendingIds(before)
    requires OnlyLeft(before, now, Elements(batch[..i]) * good)
    ensures FrameOf(now, batch[i]) == FrameOf(before, batch[i])
    ensures FrameOf(now, batch[i]).Some?
    ensures Elements(batch[..i + 1]) * good
            == if batch[i] in good then Elements(batch[..i]) * good + {batch[i]} else Elements(batch[..i]) * good
  {
    hide PendingIds, Less;
    var id := batch[i];
    if id in batch[..i] {
      var j :| 0 <= j < i && batch[j] == id;
      Irreflexive(id);
    }
    PendingIdsExact(before, id);
    assert batch[..i + 1] == batch[..i] + [id];
  }

  lemma BatchPending(pending: set<string>, cap: int)
    ensures var batch := Batch(Sorted(pending), cap);
            && Ascending(batch) && Elements(batch) == Attempted(pending, cap)
            && forall id :: id in batch ==> id in pending
  {
    hide Less;
    AttemptedSize(pending, cap);
    assert forall id :: id in Batch(Sorted(pending), cap) ==> id in Attempted(pending, cap);
  }

  // Some reports have left pending, and the rest are untouched.
  ghost predicate Trimmed(before: map<string, Bytes>, now: map<string, Bytes>) {
    && PendingIds(now) <= PendingIds(before)
    && forall id :: id in PendingIds(now) ==> FrameOf(now, id) == FrameOf(before, id)
  }

  // The invocations that pass the gate.
  function OpenFires(fires: seq<int>): nat {
    if fires == [] then 0
    else OpenFires(fires[..|fires| - 1]) + (if Schedule.IsFriday1700Central(fires[|fires| - 1]) then 1 else 0)
  }

  lemma OneMoreFire(fires: seq<int>, i: nat)
    requires i < |fires|
    ensures var one := if Schedule.IsFriday1700Central(fires[i]) then 1 else 0;
            OpenFires(fires[..i + 1]) == OpenFires(fires[..i]) + one
  {
    hide Schedule.IsFriday1700Central;
    assert fires[..i + 1][..i] == fires[..i];
  }

  // Both cron triggers on each of n Fridays.
  function CronFires(friday: int, n: nat): seq<int> {
    if n == 0 then []
    else CronFires(friday, n - 1) + [(friday + 7 * (n - 1)) * Calendar.DAY + 22 * Calendar.HOUR,
                                     (friday + 7 * (n - 1)) * Calendar.DAY + 23 * Calendar.HOUR]
  }

  // Two triggers a week open the gate once a week.
  lemma {:induction false} OneRunPerFriday(friday: int, n: nat)
    requires Calendar.Weekday(friday) == Calendar.FRIDAY
    ensures OpenFires(CronFires(friday, n)) == n
  {
    hide Schedule.IsFriday1700Central;
    if n > 0 {
      var f := friday + 7 * (n - 1);
      var early, late := f * Calendar.DAY + 22 * Calendar.HOUR, f * Calendar.DAY + 23 * Calendar.HOUR;
      var fires, less := CronFires(friday, n), CronFires(friday, n - 1);
      OneRunPerFriday(friday, n - 1);
      assert Calendar.Weekday(f) == Calendar.FRIDAY;
      Schedule.ExactlyOneCronPasses(f);
      assert fires[..|less|] == less && fires[..|less| + 2] == fires;
      OneMoreFire(fires, |less|);
      OneMoreFire(fires, |less| + 1);
    }
  }

  lemma TrimmedFirst(objects: map<string, Bytes>, good: set<string>, cap: int)
    ensures Trimmed(objects, objects) && OpenFires([]) == 0
    ensures Weeks(PendingIds(objects), good, cap, 0) == PendingIds(objects)
  {
  }

  // A week on top of n weeks.
  lemma OneMoreWeek(before: map<string, Bytes>, now: map<string, Bytes>, after: map<string, Bytes>, good: set<string>,
                    cap: int, n: nat)
    requires Trimmed(before, now)
    requires PendingIds(now) == Weeks(PendingIds(before), good, cap, n)
    ensures OnlyLeft(now, after, Attempted(PendingIds(now), cap) * (good * PendingIds(now))) ==>
              Trimmed(before, after) && PendingIds(after) == Weeks(PendingIds(before), good, cap, n + 1)
  {
    hide PendingIds, FrameOf, Attempted;
    var pending := PendingIds(now);
    AttemptedSize(pending, cap);
    assert Attempted(pending, cap) * (good * pending) == Attempted(pending, cap) * good;
    WeeksMore(PendingIds(before), good, cap, n);
  }

  // What a method of the publisher changes, at one moment.
  datatype Snapshot = Snapshot(sys: State, objects: map<string, Bytes>, calls: nat, trace: seq<Attempt>)

  // The outcome of one attempt in the machine's tallies.
  ghost predicate Tallies(before: State, after: State, id: string, r: Ending) {
    && after.marked == before.marked + (if r.None? then multiset{id} else multiset{})
    && after.unmarked == before.unmarked + (if r == Some(MarkFailed) then multiset{id} else multiset{})
  }

  // The bounds of n consecutive stretches of numbers from from to before to.
  ghost predicate Spans(bounds: seq<nat>, n: nat, from: nat, to: nat) {
    |bounds| == n + 1 && bounds[0] == from && bounds[n] == to
  }

  datatype RunResult = Skipped | ListFailed | Ran(report: RunReport)

  class Publisher {
    const manager: Manager
    const client: Client
    const keyring: Keyring
    const setup: Setup
    const labels: seq<string>                      // the requests that create the labels
    const request: (string, string) -> string      // the issue request for a title and a body
    const decodes: string -> bool                  // a 201 body that decodes
    const cancelled: nat -> bool                   // ctx.Err() at the n-th look
    const unconfirmed: nat -> bool                 // the server created an issue at this attempt without saying so
    ghost const rest: Rest                         // what everyone else does in the meantime

    var looks: nat
    ghost var sys: State

    constructor (manager: Manager, client: Client, keyring: Keyring, setup: Setup, labels: seq<string>,
                 request: (string, string) -> string, decodes: string -> bool,
                 cancelled: nat -> bool, unconfirmed: nat -> bool, ghost rest: Rest, ghost sys: State)
      ensures this.manager == manager && this.client == client && this.keyring == keyring && this.setup == setup
      ensures this.request == request && this.decodes == decodes && this.cancelled == cancelled
      ensures this.labels == labels && this.unconfirmed == unconfirmed
      ensures looks == 0 && this.rest == rest && this.sys == sys
    {
      this.manager, this.client, this.keyring, this.setup, this.labels := manager, client, keyring, setup, labels;
      this.request, this.decodes, this.cancelled, this.unconfirmed := request, decodes, cancelled, unconfirmed;
      looks := 0;
      this.rest, this.sys := rest, sys;
    }

    // The store and the client are in the state the machine says, and so is everyone else.
    ghost predicate Tied()
      reads this`sys, client, manager.store, manager.store.backing
    {
      && client.Valid() && client.maxAttempts == setup.maxAttempts
      && Represents(manager.store.backing.objects, sys.base.store)
      && Rely(setup, manager.store.others, rest) && rest.plausible(manager.store.calls, sys)
    }

    // No fault, no cancellation, nobody else at the store: nothing but the reports themselves can
    // fail.
    ghost predicate Calm() {
      && FaultFree(manager.store.fault) && Quiet(manager.store.others)
      && (forall n :: !cancelled(n))
      && Uncancelled(client.world) && client.validUrl
    }

    // Nobody else at the store and nothing cancelled, but any faults.
    ghost predicate Alone() {
      Quiet(manager.store.others) && Uncancelled(client.world) && client.validUrl
    }

    lemma NeverStopped(n: nat)
      requires Calm()
      ensures !cancelled(n)
    {
    }

    // The request that publishes this frame, if it opens.
    function RequestFor(id: string, frame: Bytes): Option<string> {
      match Open(setup.aead, keyring, frame)
      case Err(_) => None
      case Ok(plaintext) =>
        var issue := FormatIssue(setup.decode, id, plaintext);
        Some(request(issue.0, issue.1))
    }

    // The request that publishes the report as it is stored.
    ghost function IssueRequest(objects: map<string, Bytes>, id: string): Option<string> {
      if FrameOf(objects, id).Some? then RequestFor(id, FrameOf(objects, id).value) else None
    }

    ghost function Now(): Snapshot
      reads this`sys, client`trace, manager.store, manager.store.backing
    {
      Snapshot(sys, manager.store.backing.objects, manager.store.calls, client.trace)
    }

    // It carries the title and the body, in this order, and these read back.
    lemma RequestTells(id: string, frame: Bytes)
      requires Open(setup.aead, keyring, frame).Ok? && Fences.Plain(id)
      requires Guarantees.LeavesRoom(setup, id, Open(setup.aead, keyring, frame).value)
      ensures exists title, body ::
                && RequestFor(id, frame) == Some(request(title, body))
                && Guarantees.ReadsBack(setup, id, Open(setup.aead, keyring, frame).value, title, body)
    {
      hide Open, FormatIssue, Guarantees.ReadsBack, Guarantees.LeavesRoom, Fences.Plain;
      var plaintext := Open(setup.aead, keyring, frame).value;
      var (title, body) := FormatIssue(setup.decode, id, plaintext);
      Guarantees.IssueReads(setup, id, plaintext);
      assert RequestFor(id, frame) == Some(request(title, body));
    }

    // A report whose issue the server accepts every time.
    ghost predicate Publishable(id: string, frame: Bytes) {
      RequestFor(id, frame).Some? && Accepts(client.world, RequestFor(id, frame).value, decodes)
    }

    // One that fails every time: it does not open, or the server never takes it.
    ghost predicate Failing(id: string, frame: Bytes) {
      RequestFor(id, frame).None? || Refuses(client.world, RequestFor(id, frame).value, decodes)
    }

    // The hook of WithMarkPublished: runs only on a confirmed create.
    method OnPublished(id: string) returns (ok: bool, ghost events: seq<Event>)
      requires Tied() && sys.phase.Marking? && sys.phase.id == id && sys.phase.pid in sys.base.procs
      requires sys.base.procs[sys.phase.pid] == P.Moving(id, Published, false, Read)
      modifies this`sys, manager.store, manager.store.backing
      ensures Tied() && Leads(setup, old(sys), events, sys) && SameRings(rest, old(sys), sys)
      ensures sys.phase == Picking(old(sys.phase.todo)) && Tallied(old(sys), sys, id, ok)
      ensures var run := old(manager.RunFrom(Read, ReportKey(Pending, id), ReportKey(Published, id)));
              manager.store.backing.objects == run.0.store && manager.store.calls == run.1
              && (ok <==> run.0.pc == Halted(Moved))
    {
      hide Leads, CompleteAmid, ReportKey, Represents, Rely, SameRings, Tallied;
      ghost var fault, others, at := manager.store.fault, manager.store.others, manager.store.calls;
      ghost var marked;
      events, marked := MarkSteps(setup, others, rest, sys, fault, at, manager.store.backing.objects);
      var result := manager.MarkPublished(id);
      sys := marked;
      ok := result.Moved?;
    }

    // What the mark of a report makes of the store its fetch left, its first call being number n.
    ghost function MarkRun(id: string, objects: map<string, Bytes>, n: nat): (Config<string>, nat) {
      CompleteAmid(Config(objects, Read), ReportKey(Pending, id), ReportKey(Published, id),
                   manager.store.fault, manager.store.others, n)
    }

    // How a report ended: met is what its first store call, number n, met, and call are the HTTP
    // attempts made for it.
    ghost predicate EndsAs(id: string, met: map<string, Bytes>, n: nat, call: seq<Attempt>, r: Ending) {
      var frame := FrameOf(met, id);
      if !manager.store.fault(n).Done? || frame.None? then r == Some(FetchFailed) && call == []
      else if Open(setup.aead, keyring, frame.value).Err? then r == Some(DecryptFailed) && call == []
      else if !Confirmed(call, decodes) then r == Some(CreateFailed)
      else r == if MarkRun(id, met, n + 1).0.pc == Halted(Moved) then None else Some(MarkFailed)
    }

    // What is left in the store then, and how many calls have been made.
    ghost predicate LeavesBehind(id: string, met: map<string, Bytes>, n: nat, r: Ending,
                                 after: map<string, Bytes>, calls: nat) {
      var run := MarkRun(id, met, n + 1);
      if r.None? || r == Some(MarkFailed) then after == run.0.store && calls == run.1
      else after == met && calls == n + 1
    }

    // What becomes of one report, from its first store call, number n, on; uncut: no sleep of its HTTP
    // calls was cut short.
    ghost predicate OneDone(id: string, met: map<string, Bytes>, n: nat, call: seq<Attempt>, r: Ending,
                            after: map<string, Bytes>, calls: nat, uncut: bool) {
      && EndsAs(id, met, n, call, r) && LeavesBehind(id, met, n, r, after, calls)
      && (FrameOf(met, id).Some? && r != Some(FetchFailed) ==>
            && (Publishable(id, FrameOf(met, id).value) && client.validUrl && uncut ==>
                  r != Some(DecryptFailed) && r != Some(CreateFailed))
            && (Failing(id, FrameOf(met, id).value) ==> r.Some? && r != Some(MarkFailed)))
    }

    lemma EndsUnfetched(id: string, met: map<string, Bytes>, n: nat, uncut: bool)
      requires !manager.store.fault(n).Done? || FrameOf(met, id).None?
      ensures OneDone(id, met, n, [], Some(FetchFailed), met, n + 1, uncut)
    {
      hide Publishable, Failing;
    }

    lemma EndsUnopened(id: string, met: map<string, Bytes>, n: nat, frame: Bytes, uncut: bool)
      requires manager.store.fault(n).Done? && FrameOf(met, id) == Some(frame)
      requires Open(setup.aead, keyring, frame).Err?
      ensures OneDone(id, met, n, [], Some(DecryptFailed), met, n + 1, uncut)
    {
      hide Open, FormatIssue;
    }

    lemma RequestOfOpened(id: string, met: map<string, Bytes>, frame: Bytes, title: string, body: string)
      requires FrameOf(met, id) == Some(frame)
      requires var plaintext := Open(setup.aead, keyring, frame);
               plaintext.Ok? && FormatIssue(setup.decode, id, plaintext.value) == (title, body)
      ensures IssueRequest(met, id) == Some(request(title, body))
      ensures Publishable(id, frame) <==> Accepts(client.world, request(title, body), decodes)
      ensures Failing(id, frame) <==> Refuses(client.world, request(title, body), decodes)
    {
      hide Open, FormatIssue, Accepts, Refuses;
    }

    lemma EndsOpened(id: string, met: map<string, Bytes>, n: nat, frame: Bytes, call: seq<Attempt>, uncut: bool)
      requires manager.store.fault(n).Done? && FrameOf(met, id) == Some(frame)
      requires Open(setup.aead, keyring, frame).Ok?
      requires Publishable(id, frame) && client.validUrl && uncut ==> Confirmed(call, decodes)
      requires Failing(id, frame) ==> !Confirmed(call, decodes)
      ensures !Confirmed(call, decodes) ==> OneDone(id, met, n, call, Some(CreateFailed), met, n + 1, uncut)
      ensures var run := MarkRun(id, met, n + 1);
              Confirmed(call, decodes) ==>
                OneDone(id, met, n, call, if run.0.pc == Halted(Moved) then None else Some(MarkFailed),
                        run.0.store, run.1, uncut)
    {
      hide Open, Publishable, Failing, Confirmed, MarkRun;
    }

    method PublishOne(id: string) returns (r: Ending, ghost call: seq<Attempt>, ghost events: seq<Event>)
      requires Tied() && sys.runRing == keyring
      requires sys.phase.Picking? && sys.phase.todo != [] && sys.phase.todo[0] == id
      modifies this`sys, client, manager.store, manager.store.backing
      ensures Tied() && Leads(setup, old(sys), events, sys) && SameRings(rest, old(sys), sys)
      ensures sys.phase == Picking(old(sys.phase.todo[1..]))
      ensures Tallies(old(sys), sys, id, r)
      ensures PostedMore(old(sys.server), sys.server, id, Copies(call, unconfirmed, |old(client.trace)|, 0))
      ensures OneDone(id, old(manager.store.Met()), old(manager.store.calls), call, r,
                      manager.store.backing.objects, manager.store.calls, client.cuts == old(client.cuts))
      ensures client.trace == old(client.trace) + call
      ensures SentOnly(old(client.trace), client.trace, IssueRequest(old(manager.store.Met()), id))
      ensures r == Some(CreateFailed) ==>
                CallEnded(call, client.maxAttempts) || !client.validUrl || client.cuts > old(client.cuts)
      ensures client.cuts == old(client.cuts) || !Uncancelled(client.world)
    {
      hide Leads, Open, SealFrame, FormatIssue, ReportKey, Accepts, Refuses, FairRandom, P.Apply, MarkRun, CallEnded,
           Kind, CallOk, NoSignal, SleepBudget, Paced, Enabled, Apply, Represents, Confirmed, SentOnly, Rely, KeepsRing,
           AllFromWorld, CutShort, Uncancelled, FrameOf, OneDone, Publishable, Failing, IssueRequest, Copies,
           PostedMore, PendingIds, Isolated, Tracks, Progress, Looked, Trimmed, Elsewhere, CallsDone, CompleteAmid;
      ghost var before, others, n := sys, manager.store.others, manager.store.calls;
      ghost var met := manager.store.Met();
      call := [];
      NothingSent(client.trace);
      NonePosted(sys.server, id, unconfirmed, |client.trace|);
      ghost var fetched;
      events, fetched := FetchSteps(setup, others, rest, n, sys, manager.store.fault(n), manager.store.backing.objects);
      FrameThere(met, id);
      var frame := manager.GetPending(id);
      sys := fetched;
      if frame.Err? {
        EndsUnfetched(id, met, n, true);
        return Some(FetchFailed), call, events;
      }
      var plaintext := Open(setup.aead, keyring, frame.value);
      if plaintext.Err? {
        EndsUnopened(id, met, n, frame.value, true);
        return Some(DecryptFailed), call, events;
      }
      var (title, body) := FormatIssue(setup.decode, id, plaintext.value);

      ghost var trace := client.trace;
      ghost var uses, cuts := client.uses, client.cuts;
      var created;
      created, call := client.CreateIssue(request(title, body), decodes);
      SentByCall(trace, call, request(title, body));
      CutMeansCancelled(client.world, uses, client.uses);
      RequestOfOpened(id, met, frame.value, title, body);
      EndsOpened(id, met, n, frame.value, call, client.cuts == cuts);
      ghost var pid := FreshPid(sys);
      ghost var posts, posted :=
        CreateSteps(setup, others, rest, n + 1, sys, call, decodes, unconfirmed, |trace|, pid);
      LeadsOn(setup, before, events, sys, posts, posted);
      sys, events := posted, events + posts;
      if !created { return Some(CreateFailed), call, events; }

      ghost var marks;
      var marked;
      RunIsMarkRun(id);
      marked, marks := OnPublished(id);
      LeadsOn(setup, before, events, posted, marks, sys);
      events := events + marks;
      if !marked { return Some(MarkFailed), call, events; }
      return None, call, events;
    }

    lemma RunIsMarkRun(id: string)
      ensures manager.RunFrom(Read, ReportKey(Pending, id), ReportKey(Published, id))
              == MarkRun(id, manager.store.backing.objects, manager.store.calls)
    {
    }

    // ----- One report's failure is its own -----

    // No store call from number from to before number to failed.
    ghost predicate CallsDone(from: nat, to: nat) {
      forall n :: from <= n < to ==> manager.store.fault(n).Done?
    }

    // With nobody else at the store a mark touches no other report, and it moves its own unless one
    // of its calls fails.
    lemma MarkTouchesOne(id: string, objects: map<string, Bytes>, n: nat)
      requires Quiet(manager.store.others)
      ensures var run := MarkRun(id, objects, n);
              && n < run.1 && Elsewhere(objects, run.0.store, id)
              && (FrameOf(objects, id).Some? && CallsDone(n, run.1) ==>
                    run.0.pc == Halted(Moved) && OnlyLeft(objects, run.0.store, {id}))
    {
      hide CompleteAmid, ReportKey, OnlyLeft;
      var from, to := ReportKey(Pending, id), ReportKey(Published, id);
      ResultExactly(objects, from, to, manager.store.fault, manager.store.others, n);
      forall y | y != id
        ensures ReportKey(Pending, y) != from && ReportKey(Pending, y) != to
      {
        KeysApart(y, id);
      }
      KeysApart(id, id);
      if FrameOf(objects, id).Some? { PublishedLeaves(objects, id, FrameOf(objects, id).value); }
    }

    // So, with nobody else at the store, does publishing a report; and one whose own calls do not
    // fail, that opens and is created, is published.
    lemma OneTouchesOne(id: string, met: map<string, Bytes>, n: nat, call: seq<Attempt>, r: Ending,
                        after: map<string, Bytes>, calls: nat)
      requires Quiet(manager.store.others)
      requires EndsAs(id, met, n, call, r) && LeavesBehind(id, met, n, r, after, calls)
      ensures n < calls && Elsewhere(met, after, id)
      ensures r.Some? && r != Some(MarkFailed) ==> after == met
      ensures FrameOf(met, id).Some? && CallsDone(n, calls) && r != Some(DecryptFailed) && r != Some(CreateFailed)
              ==> r.None? && OnlyLeft(met, after, {id})
    {
      hide MarkRun, Open, Confirmed, OnlyLeft, FrameOf, Quiet;
      MarkTouchesOne(id, met, n + 1);
      assert CallsDone(n, calls) && n < calls ==> manager.store.fault(n).Done? && CallsDone(n + 1, calls);
    }

    // The verdict on one report of the batch does not depend on what became of the others: whether
    // it can be published, and whether its own store calls, from number from on, failed.
    ghost predicate OwnVerdict(id: string, frame: Option<Bytes>, from: nat, to: nat, r: Ending) {
      frame.Some? ==>
        && (Publishable(id, frame.value) && CallsDone(from, to) ==> r.None?)
        && (Failing(id, frame.value) ==> r.Some?)
    }

    // bounds[i] is the number of the first store call made for the i-th report.
    ghost predicate Isolated(before: map<string, Bytes>, batch: seq<string>, outcomes: seq<Ending>, bounds: seq<nat>)
    {
      && |outcomes| <= |batch| && |bounds| == |outcomes| + 1
      && forall i :: 0 <= i < |outcomes| ==>
           && bounds[i] < bounds[i + 1]
           && OwnVerdict(batch[i], FrameOf(before, batch[i]), bounds[i], bounds[i + 1], outcomes[i])
    }

    lemma OneVerdict(id: string, met: map<string, Bytes>, n: nat, call: seq<Attempt>, r: Ending,
                     after: map<string, Bytes>, calls: nat)
      requires Quiet(manager.store.others) && client.validUrl && OneDone(id, met, n, call, r, after, calls, true)
      ensures n < calls && Elsewhere(met, after, id) && OwnVerdict(id, FrameOf(met, id), n, calls, r)
    {
      hide EndsAs, LeavesBehind, Publishable, Failing, FrameOf, Elsewhere, OnlyLeft, Quiet;
      OneTouchesOne(id, met, n, call, r, after, calls);
    }

    // Under calm a good report leaves pending and a failing one changes nothing.
    lemma CalmOne(id: string, met: map<string, Bytes>, n: nat, call: seq<Attempt>, r: Ending,
                  after: map<string, Bytes>, calls: nat)
      requires Calm() && OneDone(id, met, n, call, r, after, calls, true) && FrameOf(met, id).Some?
      ensures Publishable(id, FrameOf(met, id).value) ==> OnlyLeft(met, after, {id})
      ensures Failing(id, FrameOf(met, id).value) ==> after == met
    {
      hide LeavesBehind, Publishable, Failing, FrameOf, Elsewhere, OnlyLeft, MarkRun, Open, Confirmed;
      assert manager.store.fault(n).Done?;
      assert CallsDone(n, calls);
      OneTouchesOne(id, met, n, call, r, after, calls);
    }

    // The reports from the i-th on are as pending as at the start.
    ghost predicate Unspoiled(before: map<string, Bytes>, now: map<string, Bytes>, batch: seq<string>, i: nat) {
      forall j :: i <= j < |batch| ==> FrameOf(now, batch[j]) == FrameOf(before, batch[j])
    }

    lemma UnspoiledMore(before: map<string, Bytes>, now: map<string, Bytes>, after: map<string, Bytes>,
                        batch: seq<string>, i: nat)
      requires i < |batch| && Ascending(batch) && Unspoiled(before, now, batch, i) && Elsewhere(now, after, batch[i])
      ensures Unspoiled(before, after, batch, i + 1)
    {
      hide FrameOf, Less;
      forall j | i < j < |batch|
        ensures batch[j] != batch[i]
      {
        Irreflexive(batch[i]);
      }
    }

    lemma IsolatedMore(before: map<string, Bytes>, batch: seq<string>, outcomes: seq<Ending>, bounds: seq<nat>,
                       r: Ending, calls: nat)
      requires |outcomes| < |batch| && |bounds| == |outcomes| + 1 && Isolated(before, batch, outcomes, bounds)
      requires var i := |outcomes|;
               bounds[i] < calls && OwnVerdict(batch[i], FrameOf(before, batch[i]), bounds[i], calls, r)
      ensures Isolated(before, batch, outcomes + [r], bounds + [calls])
    {
      hide OwnVerdict, FrameOf;
    }

    // Every report that is pending is one or the other, for good.
    ghost predicate AllSettled(objects: map<string, Bytes>) {
      forall id :: id in PendingIds(objects) && FrameOf(objects, id).Some? ==>
        Publishable(id, FrameOf(objects, id).value) || Failing(id, FrameOf(objects, id).value)
    }

    ghost function GoodIds(objects: map<string, Bytes>): set<string> {
      set id | id in PendingIds(objects) && FrameOf(objects, id).Some? && Publishable(id, FrameOf(objects, id).value)
    }

    // Of the pending reports, exactly the good ones among these have left.
    ghost predicate Drained(before: map<string, Bytes>, now: map<string, Bytes>, tried: seq<string>) {
      OnlyLeft(before, now, Elements(tried) * GoodIds(before))
    }

    lemma DrainedMore(before: map<string, Bytes>, now: map<string, Bytes>, after: map<string, Bytes>,
                      batch: seq<string>, i: nat)
      requires AllSettled(before) && i < |batch| && Ascending(batch) && batch[i] in PendingIds(before)
      requires Drained(before, now, batch[..i])
      requires FrameOf(now, batch[i]).Some? ==>
                 var frame := FrameOf(now, batch[i]).value;
                 && (Publishable(batch[i], frame) ==> OnlyLeft(now, after, {batch[i]}))
                 && (Failing(batch[i], frame) ==> after == now)
      ensures Drained(before, after, batch[..i + 1])
    {
      hide Ascending, OnlyLeft, PendingIds, FrameOf, Elements, Publishable, Failing;
      var good := GoodIds(before);
      StillThere(before, now, batch, i, good);
      if batch[i] in good { LeftMore(before, now, after, Elements(batch[..i]) * good, batch[i]); }
    }

    // With nobody else at the store and nothing cancelled, what it met is what was there.
    lemma CountsAsOne(id: string, now: map<string, Bytes>, met: map<string, Bytes>, n: nat, call: seq<Attempt>,
                      r: Ending, after: map<string, Bytes>, calls: nat, uncut: bool)
      requires Alone() || Calm()
      requires met == manager.store.others(n, now) && (uncut || !Uncancelled(client.world))
      requires OneDone(id, met, n, call, r, after, calls, uncut)
      ensures OneDone(id, now, n, call, r, after, calls, true)
    {
      hide OneDone;
    }

    lemma OneAlone(before: map<string, Bytes>, now: map<string, Bytes>, batch: seq<string>, i: nat, n: nat,
                   call: seq<Attempt>, r: Ending, after: map<string, Bytes>, calls: nat)
      requires Alone() && i < |batch| && Ascending(batch) && Unspoiled(before, now, batch, i)
      requires OneDone(batch[i], now, n, call, r, after, calls, true)
      ensures n < calls && OwnVerdict(batch[i], FrameOf(before, batch[i]), n, calls, r)
      ensures Unspoiled(before, after, batch, i + 1)
    {
      hide FrameOf, OwnVerdict, Ascending, OneDone;
      OneVerdict(batch[i], now, n, call, r, after, calls);
      UnspoiledMore(before, now, after, batch, i);
    }

    lemma OneCalm(before: map<string, Bytes>, now: map<string, Bytes>, batch: seq<string>, i: nat, n: nat,
                  call: seq<Attempt>, r: Ending, after: map<string, Bytes>, calls: nat)
      requires Calm() && AllSettled(before) && i < |batch| && Ascending(batch) && batch[i] in PendingIds(before)
      requires Drained(before, now, batch[..i]) && OneDone(batch[i], now, n, call, r, after, calls, true)
      ensures Drained(before, after, batch[..i + 1])
    {
      hide FrameOf, OneDone, Calm, AllSettled, Drained, Ascending, PendingIds, Publishable, Failing, OnlyLeft;
      if FrameOf(now, batch[i]).Some? { CalmOne(batch[i], now, n, call, r, after, calls); }
      DrainedMore(before, now, after, batch, i);
    }

    // What a run keeps from one report to the next: of the store when nobody else is at it, and of
    // the pending reports when nothing can go wrong.
    ghost predicate Tracks(alone: bool, steady: bool, before: map<string, Bytes>, now: map<string, Bytes>,
                           batch: seq<string>, outcomes: seq<Ending>, bounds: seq<nat>, calls: nat)
    {
      && |outcomes| <= |batch| && |bounds| == |outcomes| + 1 && bounds[|outcomes|] == calls
      && (alone ==> Isolated(before, batch, outcomes, bounds) && Unspoiled(before, now, batch, |outcomes|))
      && (steady ==> Drained(before, now, batch[..|outcomes|]))
    }

    lemma TracksFirst(alone: bool, steady: bool, before: map<string, Bytes>, batch: seq<string>, calls: nat)
      ensures Tracks(alone, steady, before, before, batch, [], [calls], calls)
    {
      hide OnlyLeft, PendingIds, GoodIds;
      NothingLeft(before);
      assert Elements(batch[..0]) * GoodIds(before) == {};
    }

    lemma TracksMore(alone: bool, steady: bool, before: map<string, Bytes>, now: map<string, Bytes>,
                     met: map<string, Bytes>, batch: seq<string>, outcomes: seq<Ending>, bounds: seq<nat>, n: nat,
                     call: seq<Attempt>, r: Ending, after: map<string, Bytes>, calls: nat, uncut: bool)
      requires |outcomes| < |batch| && Tracks(alone, steady, before, now, batch, outcomes, bounds, n)
      requires alone ==> Alone() && Ascending(batch)
      requires steady ==> Calm() && AllSettled(before) && Ascending(batch) && batch[|outcomes|] in PendingIds(before)
      requires met == manager.store.others(n, now) && (uncut || !Uncancelled(client.world))
      requires OneDone(batch[|outcomes|], met, n, call, r, after, calls, uncut)
      ensures Tracks(alone, steady, before, after, batch, outcomes + [r], bounds + [calls], calls)
    {
      hide OneDone, Alone, Calm, AllSettled, Ascending, PendingIds, Drained, Isolated, Unspoiled, OwnVerdict, FrameOf,
           Uncancelled;
      var i := |outcomes|;
      if alone || steady {
        CountsAsOne(batch[i], now, met, n, call, r, after, calls, uncut);
      }
      if alone {
        OneAlone(before, now, batch, i, n, call, r, after, calls);
        IsolatedMore(before, batch, outcomes, bounds, r, calls);
      }
      if steady {
        OneCalm(before, now, batch, i, n, call, r, after, calls);
      }
    }

    // How far a run has come: in the machine, in its counts, in the store and at the server.
    ghost predicate Progress(alone: bool, steady: bool, start: Snapshot, now: Snapshot, batch: seq<string>,
                             outcomes: seq<Ending>, bounds: seq<nat>, events: seq<Event>, failed: nat, published: nat)
    {
      && Tracks(alone, steady, start.objects, now.objects, batch, outcomes, bounds, now.calls)
      && bounds[0] == start.calls
      && Leads(setup, start.sys, events, now.sys) && SameRings(rest, start.sys, now.sys)
      && now.sys.phase == Picking(batch[|outcomes|..])
      && Counted(CountsOf(start.sys), CountsOf(now.sys), batch, outcomes)
      && published == CountPublished(outcomes)
      && (batch != [] ==> LabelsFirst(start.trace, now.trace, labels, failed))
    }

    lemma ProgressFirst(alone: bool, steady: bool, start: Snapshot, now: Snapshot, batch: seq<string>, failed: nat)
      requires start.sys.phase == Picking(batch) && now == start.(trace := now.trace)
      requires batch != [] ==> LabelsFirst(start.trace, now.trace, labels, failed)
      ensures Progress(alone, steady, start, now, batch, [], [start.calls], [], failed, 0)
    {
      hide Tracks, Leads, LabelsFirst;
      TracksFirst(alone, steady, start.objects, batch, start.calls);
      NoSteps(setup, start.sys);
    }

    // The publisher's place in the batch.
    lemma ProgressPlace(alone: bool, steady: bool, start: Snapshot, now: Snapshot, batch: seq<string>,
                        outcomes: seq<Ending>, bounds: seq<nat>, events: seq<Event>, failed: nat, published: nat)
      requires Progress(alone, steady, start, now, batch, outcomes, bounds, events, failed, published)
      ensures |outcomes| <= |batch| && |bounds| == |outcomes| + 1
      ensures now.sys.phase == Picking(batch[|outcomes|..]) && now.sys.runRing == start.sys.runRing
    {
      hide Isolated, Unspoiled, Drained, Leads, Counted;
    }

    lemma ProgressMore(alone: bool, steady: bool, start: Snapshot, was: Snapshot, met: map<string, Bytes>,
                       now: Snapshot, batch: seq<string>, outcomes: seq<Ending>, bounds: seq<nat>,
                       events: seq<Event>, failed: nat, published: nat, call: seq<Attempt>, r: Ending,
                       more: seq<Event>, uncut: bool, request: Option<string>)
      requires |outcomes| < |batch|
      requires Progress(alone, steady, start, was, batch, outcomes, bounds, events, failed, published)
      requires alone ==> Alone() && Ascending(batch)
      requires steady ==> Calm() && AllSettled(start.objects) && Ascending(batch)
                          && batch[|outcomes|] in PendingIds(start.objects)
      requires met == manager.store.others(was.calls, was.objects) && (uncut || !Uncancelled(client.world))
      requires OneDone(batch[|outcomes|], met, was.calls, call, r, now.objects, now.calls, uncut)
      requires Leads(setup, was.sys, more, now.sys) && SameRings(rest, was.sys, now.sys)
      requires now.sys.phase == Picking(batch[|outcomes|..][1..])
      requires Tallies(was.sys, now.sys, batch[|outcomes|], r) && SentOnly(was.trace, now.trace, request)
      ensures Progress(alone, steady, start, now, batch, outcomes + [r], bounds + [now.calls], events + more, failed,
                       if r.None? then published + 1 else published)
    {
      hide Leads, Calm, Alone, AllSettled, Ascending, PendingIds, OneDone, Tracks, Uncancelled, Counted, LabelsFirst,
           SentOnly, CountPublished;
      ProgressPlace(alone, steady, start, was, batch, outcomes, bounds, events, failed, published);
      TracksMore(alone, steady, start.objects, was.objects, met, batch, outcomes, bounds, was.calls, call, r,
                 now.objects, now.calls, uncut);
      LeadsOn(setup, start.sys, events, was.sys, more, now.sys);
      CountedMore(CountsOf(start.sys), CountsOf(was.sys), CountsOf(now.sys), batch, outcomes, r);
      OneMoreOutcome(outcomes, r);
      LabelsStay(start.trace, was.trace, now.trace, request, labels, failed);
    }

    // What that comes to when the run ends.
    lemma ProgressEnds(alone: bool, steady: bool, start: Snapshot, now: Snapshot, batch: seq<string>,
                       outcomes: seq<Ending>, bounds: seq<nat>, events: seq<Event>, failed: nat, published: nat)
      requires Progress(alone, steady, start, now, batch, outcomes, bounds, events, failed, published)
      ensures |outcomes| <= |batch| && Spans(bounds, |outcomes|, start.calls, now.calls)
      ensures Leads(setup, start.sys, events, now.sys) && SameRings(rest, start.sys, now.sys)
      ensures now.sys.phase == Picking(batch[|outcomes|..])
      ensures Counted(CountsOf(start.sys), CountsOf(now.sys), batch, outcomes)
      ensures published == CountPublished(outcomes)
      ensures batch != [] ==> LabelsFirst(start.trace, now.trace, labels, failed)
      ensures alone ==> Isolated(start.objects, batch, outcomes, bounds)
      ensures steady && |outcomes| == |batch| && batch == Batch(Sorted(PendingIds(start.objects)), setup.maxPerRun)
              ==> OnlyLeft(start.objects, now.objects,
                           Attempted(PendingIds(start.objects), setup.maxPerRun) * GoodIds(start.objects))
    {
      hide Isolated, Unspoiled, OnlyLeft, PendingIds, GoodIds, Attempted, Sorted, Batch, Counted, Leads, SameRings;
      BatchPending(PendingIds(start.objects), setup.maxPerRun);
      assert batch[..|batch|] == batch;
    }

    // The looks at the context of a run: one before every report attempted, none of these cancelled;
    // and the run is cut short exactly when the next look is.
    ghost predicate Looked(from: nat, to: nat, r: RunReport, size: nat) {
      && |r.outcomes| <= size
      && (r.cancelled <==> |r.outcomes| < size)
      && to == from + |r.outcomes| + (if r.cancelled then 1 else 0)
      && (forall k :: from <= k < from + |r.outcomes| ==> !cancelled(k))
      && (r.cancelled ==> cancelled(from + |r.outcomes|))
    }

    // The labels, best effort, before any issue.
    method TryLabels() returns (failed: nat)
      requires Tied()
      modifies client
      ensures Tied() && LabelsFirst(old(client.trace), client.trace, labels, failed)
    {
      hide Represents, FairRandom, Paced, LabelsTried, LabelsFirst, LabelFailures, Rely, AllFromWorld, CutShort,
           Uncancelled, Joined;
      ghost var results, calls;
      failed, results, calls := client.EnsureLabels(labels);
      LabelsNow(old(client.trace), labels, results, calls);
    }

    // The end of a batch, and a cancelled one, in the machine.
    ghost method Finish()
      requires Tied() && sys.phase == Picking([])
      modifies this`sys
      ensures Tied() && Leads(setup, old(sys), [Pick], sys) && sys == old(sys).(phase := Idle)
    {
      hide Rely, Represents, Leads;
      sys := PickStep(setup, manager.store.others, rest, manager.store.calls, sys);
    }

    ghost method GiveIn()
      requires Tied() && sys.phase.Picking?
      modifies this`sys
      ensures Tied() && Leads(setup, old(sys), [Cancel], sys) && sys == old(sys).(phase := Idle)
    {
      hide Rely, Represents, Leads;
      CancelStep(setup, manager.store.others, rest, manager.store.calls, sys);
      sys := sys.(phase := Idle);
    }

    ghost method EndRun(start: State, events: seq<Event>, stopped: bool) returns (last: seq<Event>)
      requires Tied() && Leads(setup, start, events, sys)
      requires sys.phase.Picking? && (!stopped ==> sys.phase.todo == [])
      modifies this`sys
      ensures Tied() && Leads(setup, start, events + last, sys) && sys == old(sys).(phase := Idle)
    {
      hide Tied, Leads;
      var was := sys;
      if stopped {
        GiveIn();
        last := [Cancel];
      } else {
        Finish();
        last := [Pick];
      }
      LeadsOn(setup, start, events, was, last, sys);
    }

    // One report of the batch in a run that has come so far.
    method PublishNext(id: string, ghost alone: bool, ghost steady: bool, ghost start: Snapshot,
                       ghost batch: seq<string>, ghost outcomes: seq<Ending>, ghost bounds: seq<nat>,
                       ghost events: seq<Event>, ghost failed: nat, ghost published: nat)
      returns (r: Ending, ghost more: seq<Event>)
      requires Tied() && |outcomes| < |batch| && batch[|outcomes|] == id && start.sys.runRing == keyring
      requires Progress(alone, steady, start, Now(), batch, outcomes, bounds, events, failed, published)
      requires alone ==> Alone() && Ascending(batch)
      requires steady ==> Calm() && AllSettled(start.objects) && Ascending(batch) && id in PendingIds(start.objects)
      modifies this`sys, client, manager.store, manager.store.backing
      ensures Tied()
      ensures Progress(alone, steady, start, Now(), batch, outcomes + [r], bounds + [manager.store.calls],
                       events + more, failed, if r.None? then published + 1 else published)
    {
      hide Leads, Enabled, Apply, PendingIds, Tied, OneDone, Progress, SentOnly, IssueRequest, CallEnded, Uncancelled,
           Tallies, Calm, Alone, AllSettled, Ascending, Copies, PostedMore;
      ghost var was, met, cuts := Now(), manager.store.Met(), client.cuts;
      ProgressPlace(alone, steady, start, was, batch, outcomes, bounds, events, failed, published);
      ghost var call;
      r, call, more := PublishOne(id);
      ProgressMore(alone, steady, start, was, met, Now(), batch, outcomes, bounds, events, failed, published,
                   call, r, more, client.cuts == cuts, IssueRequest(met, id));
    }

    lemma NothingToTry(ids: seq<string>)
      ensures Batch(ids, setup.maxPerRun) == [] <==> ids == []
    {
    }

    // Publish: the oldest maxPerRun ids are attempted one by one whatever becomes of the others,
    // until the run is cancelled; each is counted as what it ended as. bounds are the numbers of the
    // store calls at which the reports were taken up, and the number after the last.
    method Publish(ids: seq<string>) returns (r: RunReport, ghost bounds: seq<nat>, ghost events: seq<Event>)
      requires Tied() && sys.runRing == keyring
      requires sys.phase == Picking(Batch(ids, setup.maxPerRun))
      modifies this`sys, this`looks, client, manager.store, manager.store.backing
      ensures Tied() && Leads(setup, old(sys), events, sys) && SameRings(rest, old(sys), sys) && sys.phase.Idle?
      ensures var batch := Batch(ids, setup.maxPerRun);
              && Looked(old(looks), looks, r, |batch|)
              && r.published == CountPublished(r.outcomes)
              && Counted(CountsOf(old(sys)), CountsOf(sys), batch, r.outcomes)
      ensures Spans(bounds, |r.outcomes|, old(manager.store.calls), manager.store.calls)
      ensures Alone() && Ascending(Batch(ids, setup.maxPerRun)) ==>
                Isolated(old(manager.store.backing.objects), Batch(ids, setup.maxPerRun), r.outcomes, bounds)
      ensures r.capHit <==> 0 < setup.maxPerRun < |ids|
      ensures if ids == [] then client.trace == old(client.trace)
              else LabelsFirst(old(client.trace), client.trace, labels, r.labelFailures)
      ensures Calm() ==> !r.cancelled
      ensures var before := old(manager.store.backing.objects);
              Calm() && AllSettled(before) && ids == Sorted(PendingIds(before)) ==>
                OnlyLeft(before, manager.store.backing.objects,
                         Attempted(PendingIds(before), setup.maxPerRun) * GoodIds(before))
    {
      hide Leads, Enabled, Apply, PendingIds, OnlyLeft, FrameOf, Counted, CountPublished, LabelFailures, LabelsTried,
           LabelsFirst, Represents, FairRandom, Paced, Ascending, Attempted, Elements, Calm, Alone, AllSettled,
           Sorted, GoodIds, Rely, KeepsRing, Tied, Isolated, Progress, Uncancelled, Spans, Batch;
      NothingToTry(ids);
      ghost var start, batch := Now(), Batch(ids, setup.maxPerRun);
      ghost var steady := Calm() && AllSettled(start.objects) && ids == Sorted(PendingIds(start.objects));
      ghost var alone := Alone() && Ascending(batch);
      events, bounds := [], [manager.store.calls];
      NothingYet(batch);
      if |ids| == 0 {
        ProgressFirst(alone, steady, start, Now(), batch, 0);
        ProgressEnds(alone, steady, start, Now(), batch, [], bounds, [], 0, 0);
        Finish();
        return RunReport([], 0, 0, false, false), bounds, [Pick];
      }

      var capHit := setup.maxPerRun > 0 && |ids| > setup.maxPerRun;
      var labelFailures := TryLabels();
      ProgressFirst(alone, steady, start, Now(), batch, labelFailures);
      BatchPending(PendingIds(start.objects), setup.maxPerRun);

      var outcomes: seq<Ending> := [];
      var published, stopped := 0, false;
      for i := 0 to |Batch(ids, setup.maxPerRun)|
        invariant Tied() && !stopped && |outcomes| == i
        invariant looks == old(looks) + i && forall k :: old(looks) <= k < looks ==> !cancelled(k)
        invariant Progress(alone, steady, start, Now(), batch, outcomes, bounds, events, labelFailures, published)
      {
        var stop := cancelled(looks);
        if Calm() { NeverStopped(looks); }
        looks := looks + 1;
        if stop {
          stopped := true;
          break;
        }
        var outcome;
        ghost var more;
        outcome, more := PublishNext(Batch(ids, setup.maxPerRun)[i], alone, steady, start, batch, outcomes, bounds,
                                     events, labelFailures, published);
        if outcome.None? { published := published + 1; }
        outcomes, bounds, events := outcomes + [outcome], bounds + [manager.store.calls], events + more;
      }
      ProgressEnds(alone, steady, start, Now(), batch, outcomes, bounds, events, labelFailures, published);
      ghost var last := EndRun(start.sys, events, stopped);
      return RunReport(outcomes, published, labelFailures, stopped, capHit), bounds, events + last;
    }

    // Run: behind the gate, list what is pending and publish it; otherwise touch nothing.
    method Run(scheduledFor: int) returns (r: RunResult, ghost bounds: seq<nat>, ghost events: seq<Event>)
      requires Tied() && sys.phase.Idle? && sys.ring == keyring
      modifies this`sys, this`looks, client, manager.store, manager.store.backing
      ensures Tied() && Leads(setup, old(sys), events, sys) && sys.phase.Idle?
      ensures KeepsRing(rest) ==> sys.ring == keyring
      ensures r.Skipped? <==> !Schedule.IsFriday1700Central(scheduledFor)
      ensures !r.Skipped? ==> (r.ListFailed? <==> !manager.store.fault(old(manager.store.calls)).Done?)
      ensures r.Skipped? ==>
                && sys == old(sys) && looks == old(looks) && client.trace == old(client.trace)
                && manager.store.calls == old(manager.store.calls)
                && manager.store.backing.objects == old(manager.store.backing.objects)
      ensures r.ListFailed? ==>
                && client.trace == old(client.trace) && sys.server == old(sys.server)
                && manager.store.backing.objects == old(manager.store.Met())
      ensures r.Ran? ==>
                var batch := Batch(Sorted(PendingIds(old(manager.store.Met()))), setup.maxPerRun);
                && Looked(old(looks), looks, r.report, |batch|)
                && Spans(bounds, |r.report.outcomes|, old(manager.store.calls) + 1, manager.store.calls)
                && (Alone() ==> Isolated(old(manager.store.Met()), batch, r.report.outcomes, bounds))
                && r.report.published == CountPublished(r.report.outcomes)
                && Counted(CountsOf(old(sys)), CountsOf(sys), batch, r.report.outcomes)
      ensures var before := old(manager.store.backing.objects);
              Calm() && AllSettled(before) && Schedule.IsFriday1700Central(scheduledFor) ==>
                && r.Ran? && !r.report.cancelled
                && OnlyLeft(before, manager.store.backing.objects,
                            Attempted(PendingIds(before), setup.maxPerRun) * GoodIds(before))
    {
      hide Leads, Enabled, Apply, PendingIds, OnlyLeft, Counted, CountPublished, Represents, FairRandom, Paced,
           Attempted, AllSettled, GoodIds, Sorted, Batch, Schedule.IsFriday1700Central, Rely, KeepsRing, Isolated,
           Looked, Spans, Uncancelled, LabelsFirst;
      events, bounds := [], [];
      NoSteps(setup, sys);
      if !Schedule.IsFriday1700Central(scheduledFor) { return Skipped, bounds, events; }
      ghost var start, n := sys, manager.store.calls;
      ghost var begun;
      events, begun :=
        ListSteps(setup, manager.store.others, rest, n, sys, manager.store.fault(n), manager.store.backing.objects);
      var listed := manager.ListPending();
      sys := begun;
      if listed.Err? { return ListFailed, bounds, events; }
      ghost var from := sys;
      var report;
      ghost var more;
      BatchPending(PendingIds(manager.store.backing.objects), setup.maxPerRun);
      report, bounds, more := Publish(listed.value);
      LeadsOn(setup, start, events, from, more, sys);
      return Ran(report), bounds, events + more;
    }

    lemma TrimmedSettles(before: map<string, Bytes>, now: map<string, Bytes>)
      requires AllSettled(before) && Trimmed(before, now)
      ensures AllSettled(now) && GoodIds(now) == GoodIds(before) * PendingIds(now)
    {
      hide PendingIds, FrameOf, Publishable, Failing;
    }

    // The scheduled invocations in turn: under calm, each one that passes the gate takes the
    // pending reports one week further, and enough of them leave exactly the failing ones.
    method OnSchedule(fires: seq<int>) returns (ghost events: seq<Event>)
      requires Tied() && sys.phase.Idle? && sys.ring == keyring && KeepsRing(rest)
      modifies this`sys, this`looks, client, manager.store, manager.store.backing
      ensures Tied() && Leads(setup, old(sys), events, sys) && sys.phase.Idle?
      ensures var before := old(manager.store.backing.objects);
              var pending, good, cap := PendingIds(before), GoodIds(before), setup.maxPerRun;
              Calm() && AllSettled(before) ==>
                && PendingIds(manager.store.backing.objects) == Weeks(pending, good, cap, OpenFires(fires))
                && (Drainable(pending, good, cap, OpenFires(fires)) ==>
                    PendingIds(manager.store.backing.objects) == pending - good)
      ensures Inv(setup, old(sys)) ==> Inv(setup, sys) && Ids(sys.server) == sys.marked + sys.unmarked + sys.lost
    {
      hide Leads, PendingIds, OnlyLeft, Represents, FairRandom, Paced, Attempted, Trimmed, Calm, AllSettled, GoodIds,
           Sorted, Inv, Batch, Schedule.IsFriday1700Central, Weeks, NextPending, Drainable, Counted,
           CountPublished, OpenFires, Rely, KeepsRing, Looked, Isolated, Alone, Spans, CountsOf, Tied, Uncancelled;
      ghost var before, start := manager.store.backing.objects, sys;
      ghost var pending, good, cap := PendingIds(before), GoodIds(before), setup.maxPerRun;
      ghost var steady := Calm() && AllSettled(before);
      events := [];
      NoSteps(setup, sys);
      TrimmedFirst(before, good, cap);
      for i := 0 to |fires|
        invariant Tied() && Leads(setup, start, events, sys) && sys.phase.Idle? && sys.ring == keyring
        invariant steady ==> Trimmed(before, manager.store.backing.objects)
        invariant steady ==>
                    PendingIds(manager.store.backing.objects) == Weeks(pending, good, cap, OpenFires(fires[..i]))
      {
        ghost var now, from := manager.store.backing.objects, sys;
        if steady { TrimmedSettles(before, now); }
        var r;
        ghost var more;
        ghost var bounds;
        r, bounds, more := Run(fires[i]);
        LeadsOn(setup, start, events, from, more, sys);
        events := events + more;
        OneMoreFire(fires, i);
        if steady {
          OneMoreWeek(before, now, manager.store.backing.objects, good, cap, OpenFires(fires[..i]));
        }
      }
      assert fires[..|fires|] == fires;
      if Drainable(pending, good, cap, OpenFires(fires)) { Drains(pending, good, cap, OpenFires(fires)); }
      if Inv(setup, start) { IdleAccount(setup, start, events, sys); }
    }
  }
}
