// The GitHub client: pacing of mutations, retries and server-directed waits
// (internal/publish/github.go). Time is in nanoseconds on an injected clock.
module Github {
  import opened Wrappers
  import opened Utf8
  import opened Backoff
  import opened Policy

  // One attempt: the use of the outside world that answered it, when it started, the stamp
  // recordMutation left, the clock when the decision was made, and the decision.
  datatype Attempt = Attempt(
    request: string, use: nat, start: int, stamp: int, decided: int,
    reply: Reply, random: real, decision: Decision)

  // The n-th use of the outside world: time that passes unasked, how much longer a sleep lasts
  // than asked (None: it is cut short by cancellation), the reply to a request, random numbers.
  datatype World = World(
    drift: nat -> nat,
    oversleep: nat -> Option<nat>,
    latency: nat -> nat,
    reply: (nat, string) -> Reply,
    random: nat -> real)

  ghost predicate FairRandom(w: World) {
    forall n :: 0.0 <= w.random(n) <= 1.0
  }

  // No sleep is cut short.
  ghost predicate Uncancelled(w: World) {
    forall n :: w.oversleep(n).Some?
  }

  predicate IsCreated(reply: Reply, decodes: string -> bool) {
    reply.Response? && reply.status == 201 && decodes(reply.body)
  }

  // The attempt is what that use of the world made of it, and it was stamped when the reply was in.
  ghost predicate FromWorld(w: World, a: Attempt) {
    && a.reply == w.reply(a.use, a.request) && a.random == w.random(a.use)
    && a.stamp >= a.start + w.latency(a.use)
  }

  ghost predicate AllFromWorld(w: World, call: seq<Attempt>) {
    forall i :: 0 <= i < |call| ==> FromWorld(w, call[i])
  }

  // A sleep among these uses was cut short.
  ghost predicate CutShort(w: World, from: nat, to: nat) {
    exists n :: from <= n < to && w.oversleep(n).None?
  }

  // A request the server accepts every time, and one it never does.
  ghost predicate Accepts(w: World, request: string, decodes: string -> bool) {
    forall n :: IsCreated(w.reply(n, request), decodes)
  }

  ghost predicate Refuses(w: World, request: string, decodes: string -> bool) {
    forall n :: !IsCreated(w.reply(n, request), decodes)
  }

  function NonNegative(d: int): int { if d < 0 then 0 else d }

  // Every attempt starts at least spacing after the stamp of the one before.
  ghost predicate Paced(trace: seq<Attempt>, spacing: int) {
    forall j :: 0 < j < |trace| ==> trace[j].start >= trace[j - 1].stamp + spacing
  }

  ghost predicate AttemptOk(a: Attempt, i: nat, request: string) {
    && a.request == request
    && a.start <= a.stamp <= a.decided
    && 0.0 <= a.random <= 1.0
    && a.decision == Decide(a.reply, i, a.decided, a.random)
  }

  // b was made because a was retryable, and after the wait a called for.
  ghost predicate Follows(a: Attempt, b: Attempt) {
    a.decision.Retry? && a.use < b.use && b.start >= a.decided + NonNegative(a.decision.wait)
  }

  // The sleep that the waits of a call and the spacing before its attempts, and one more, can ask for.
  function WaitBudget(call: seq<Attempt>, spacing: int): int {
    if call == [] then NonNegative(spacing)
    else
      var last := call[|call| - 1];
      WaitBudget(call[..|call| - 1], spacing) + NonNegative(spacing)
      + (if last.decision.Retry? then NonNegative(last.decision.wait) else 0)
  }

  // The attempts of one call: all but the last were retryable, and each wait was kept.
  ghost predicate CallOk(call: seq<Attempt>, request: string) {
    && (forall i :: 0 <= i < |call| ==> AttemptOk(call[i], i, request))
    && (forall j :: 0 < j < |call| ==> Follows(call[j - 1], call[j]))
  }

  datatype DoResult = Answer(status: int, body: string) | GaveUp | Aborted

  // An answer is the last response, which was not retryable; without one every attempt was.
  ghost predicate Concludes(r: DoResult, call: seq<Attempt>) {
    if r.Answer? then
      && call != []
      && var last := call[|call| - 1];
      && last.decision.Final? && last.reply.Response?
      && last.reply.status == r.status && last.reply.body == r.body
    else
      forall i :: 0 <= i < |call| ==> call[i].decision.Retry?
  }

  // The last attempt was answered for good, or there were as many as there may be.
  ghost predicate CallEnded(call: seq<Attempt>, maxAttempts: nat) {
    |call| == maxAttempts || (call != [] && call[|call| - 1].decision.Final?)
  }

  ghost predicate NoSignal(call: seq<Attempt>) {
    forall i :: 0 <= i < |call| ==> !RateSignal(call[i].reply)
  }

  // Seconds a call may ask to sleep in its first n attempts when nothing but backoff and default
  // spacing delays it.
  function SleepBudget(n: nat): nat {
    if n == 0 then 0
    else if n == 1 then 1
    else SleepBudget(n - 1) + Min(60, Pow2(n - 2))
  }

  class Client {
    const world: World
    const minSpacing: int
    const maxAttempts: nat
    const validUrl: bool

    var clock: int
    var uses: nat
    var lastMutation: int   // 0: the zero time, no mutation yet

    ghost var trace: seq<Attempt>
    ghost var asked: int    // the sleep asked for
    ghost var cuts: nat     // the sleeps cut short

    ghost predicate Valid()
      reads this
    {
      && FairRandom(world)
      && maxAttempts >= 1
      && -TWO63 <= minSpacing <= MAX64
      && clock > 0
      && 0 <= lastMutation <= clock
      && (trace == [] <==> lastMutation == 0)
      && (trace != [] ==> trace[|trace| - 1].stamp == lastMutation)
      && Paced(trace, minSpacing)
    }

    constructor (world: World, minSpacing: int, maxAttempts: nat, validUrl: bool, clock: int)
      requires FairRandom(world) && maxAttempts >= 1 && -TWO63 <= minSpacing <= MAX64 && clock > 0
      ensures Valid() && trace == [] && asked == 0 && cuts == 0
      ensures this.world == world && this.minSpacing == minSpacing && this.maxAttempts == maxAttempts
      ensures this.validUrl == validUrl && this.clock == clock
    {
      this.world, this.minSpacing, this.maxAttempts, this.validUrl := world, minSpacing, maxAttempts, validUrl;
      this.clock, uses, lastMutation := clock, 0, 0;
      trace, asked, cuts := [], 0, 0;
    }

    // Reads the injected clock, which never goes back.
    method Now() returns (t: int)
      modifies `clock, `uses
      ensures t == clock >= old(clock) && uses == old(uses) + 1
    {
      clock := clock + world.drift(uses);
      uses := uses + 1;
      t := clock;
    }

    // Sleeps at least as long as asked unless cancelled.
    method Sleep(d: int) returns (ok: bool)
      modifies `clock, `uses, `asked, `cuts
      ensures clock >= old(clock) && uses == old(uses) + 1
      ensures ok ==> clock >= old(clock) + NonNegative(d)
      ensures ok <==> world.oversleep(old(uses)).Some?
      ensures cuts == old(cuts) + (if ok then 0 else 1)
      ensures asked == old(asked) + NonNegative(d)
    {
      var over := world.oversleep(uses);
      asked := asked + NonNegative(d);
      if over.None? { cuts := cuts + 1; }
      clock := clock + (if over.Some? then NonNegative(d) + over.value else world.drift(uses));
      uses := uses + 1;
      ok := over.Some?;
    }

    method SpaceMutations() returns (ok: bool)
      requires Valid()
      modifies `clock, `uses, `asked, `cuts
      ensures clock >= old(clock) && uses >= old(uses)
      ensures cuts == old(cuts) + (if ok then 0 else 1)
      ensures !ok ==> CutShort(world, old(uses), uses)
      ensures ok && lastMutation != 0 ==> clock >= lastMutation + minSpacing
      ensures asked >= old(asked)
      ensures lastMutation == 0 ==> asked == old(asked)
      ensures lastMutation != 0 ==>
                asked <= old(asked) + NonNegative(minSpacing - NonNegative(old(clock) - lastMutation))
    {
      var last := lastMutation;
      if last == 0 { return true; }
      var now := Now();
      var elapsed := Clamp64(now - last);
      if elapsed < minSpacing {
        ok := Sleep(minSpacing - elapsed);
        return;
      }
      return true;
    }

    method RecordMutation()
      modifies `clock, `uses, `lastMutation
      ensures clock >= old(clock) && lastMutation == clock && uses >= old(uses)
    {
      lastMutation := Now();
    }

    // retryDecision; only the reset branch reads the clock.
    method RetryDecision(reply: Reply, attempt: nat, r: real) returns (d: Decision)
      modifies `clock, `uses
      ensures clock >= old(clock) && uses >= old(uses)
      ensures d == Decide(reply, attempt, clock, r)
    {
      if !reply.Response? || reply.status >= 500 {
        return Retry(JitteredBackoff(attempt, r));
      }
      if reply.status != 403 && reply.status != 429 { return Final; }
      var after := ParseRetryAfter(reply.retryAfter);
      if after.Some? { return Retry(after.value); }
      if reply.remaining == "0" {
        var now := Now();
        var reset := UntilReset(reply.reset, now);
        if reset.Some? { return Retry(reset.value); }
        return Retry(JitteredBackoff(attempt, r));
      }
      if reply.status == 429 { return Retry(JitteredBackoff(attempt, r)); }
      if IsSecondaryRateLimit(reply.body) {
        var wait := JitteredBackoff(attempt, r);
        if wait < SECONDARY_MIN { wait := SECONDARY_MIN; }
        return Retry(wait);
      }
      return Final;
    }

    // One turn of the loop in do: space, send, stamp, decide.
    method AttemptOnce(request: string, attempt: nat)
      returns (sent: bool, reply: Reply, decision: Decision, ghost a: Attempt)
      requires Valid()
      modifies `clock, `uses, `lastMutation, `trace, `asked, `cuts
      ensures Valid() && clock >= old(clock) && uses >= old(uses)
      ensures old(asked) <= asked
              <= old(asked) + if old(lastMutation) == 0 then 0
                              else NonNegative(minSpacing - NonNegative(old(clock) - old(lastMutation)))
      ensures sent <==> validUrl && cuts == old(cuts)
      ensures cuts == old(cuts) || (cuts == old(cuts) + 1 && CutShort(world, old(uses), uses))
      ensures !sent ==> trace == old(trace) && lastMutation == old(lastMutation)
      ensures sent ==>
                && trace == old(trace) + [a]
                && AttemptOk(a, attempt, request)
                && a.reply == reply && a.decision == decision && a.decided == clock && a.start >= old(clock)
                && FromWorld(world, a) && old(uses) <= a.use < uses
    {
      hide Decide;
      reply, decision := TransportError, Final;
      a := Attempt(request, uses, 0, 0, 0, reply, 0.0, decision);
      var spaced := SpaceMutations();
      if !spaced || !validUrl { return false, reply, decision, a; }
      ghost var start, use := clock, uses;
      reply := world.reply(uses, request);
      var random := world.random(uses);
      clock := clock + world.latency(uses);
      uses := uses + 1;
      RecordMutation();
      ghost var stamp := lastMutation;
      decision := RetryDecision(reply, attempt, random);
      a := Attempt(request, use, start, stamp, clock, reply, random, decision);
      PacedAppend(trace, a, minSpacing);
      trace := trace + [a];
      sent := true;
    }

    // do: at most maxAttempts attempts; an answer is the last, non-retryable response; every
    // earlier attempt was retryable and its wait was kept; attempts stay spaced across calls. The
    // call is cut off only by a cancelled sleep or a URL no request can be made for; otherwise a
    // retryable attempt is always followed by another one, up to the limit.
    method Do(request: string) returns (r: DoResult, ghost call: seq<Attempt>)
      requires Valid()
      modifies `clock, `uses, `lastMutation, `trace, `asked, `cuts
      ensures Valid() && uses >= old(uses)
      ensures trace == old(trace) + call && |call| <= maxAttempts
      ensures CallOk(call, request) && AllFromWorld(world, call)
      ensures Concludes(r, call)
      ensures r.GaveUp? ==> |call| == maxAttempts
      ensures r.Aborted? <==> !validUrl || cuts > old(cuts)
      ensures cuts == old(cuts) || (cuts == old(cuts) + 1 && CutShort(world, old(uses), uses))
      ensures !validUrl ==> call == []
      ensures asked <= old(asked) + WaitBudget(call, minSpacing)
      ensures NoSignal(call) && minSpacing <= SECOND ==> asked <= old(asked) + SleepBudget(maxAttempts) * SECOND
    {
      hide Decide, Paced, RateSignal, AttemptOk, SleepBudget, CallOk, NoSignal, Frugal, Uncancelled, Concludes,
           FairRandom, FromWorld, AllFromWorld, WaitBudget, CutShort;
      call := [];
      ghost var slept := 0;   // the wait asked for before this attempt
      var attempt := 0;
      EmptyCall(request, maxAttempts);
      NothingAsked(world, minSpacing);
      while attempt < maxAttempts
        invariant 0 <= attempt <= maxAttempts && |call| == attempt
        invariant Valid() && trace == old(trace) + call && uses >= old(uses) && cuts == old(cuts)
        invariant CallOk(call, request) && AllFromWorld(world, call)
        invariant forall i :: 0 <= i < |call| ==> call[i].decision.Retry?
        invariant attempt == 0 ==> slept == 0
        invariant attempt > 0 ==> slept == NonNegative(call[attempt - 1].decision.wait)
        invariant attempt > 0 ==> validUrl && lastMutation != 0 && clock >= call[attempt - 1].decided + slept
        invariant attempt > 0 ==> call[attempt - 1].decided >= lastMutation && call[attempt - 1].use < uses
        invariant asked - old(asked) + NonNegative(minSpacing) <= WaitBudget(call, minSpacing)
        invariant NoSignal(call) && minSpacing <= SECOND ==>
                    && Frugal(asked - old(asked), slept, attempt)
                    && asked <= old(asked) + SleepBudget(maxAttempts) * SECOND
      {
        var sent, reply, decision;
        ghost var a;
        ghost var before, from := asked, uses;
        sent, reply, decision, a := AttemptOnce(request, attempt);
        SpacingFits(before - old(asked), asked - old(asked), slept, attempt, maxAttempts);
        CutWithin(world, old(uses), from, uses, uses);
        if !sent { NoAnswer(call); return Aborted, call; }
        CallAppend(call, a, request);
        WorldAppend(world, call, a);
        MoreAsked(call, a, minSpacing);
        NoSignalBefore(call, a);
        call := call + [a];
        if decision.Final? {
          AnswerConcludes(call, a, attempt, request);
          return Answer(reply.status, reply.body), call;
        }
        NoAnswer(call);
        if attempt == maxAttempts - 1 { return GaveUp, call; }
        slept := NonNegative(decision.wait);
        ghost var at := uses;
        var kept := Sleep(decision.wait);
        BackoffFits(call, asked - old(asked), slept, attempt + 1, maxAttempts, request);
        if !kept {
          CutHere(world, old(uses), at, uses);
          return Aborted, call;
        }
        attempt := attempt + 1;
      }
      NoAnswer(call);
      return GaveUp, call;
    }

    // CreateIssue: success is exactly a confirmed, decodable 201, and no attempt before it was
    // answered. Short of that the call has ended for one of the reasons there are.
    method CreateIssue(request: string, decodes: string -> bool) returns (ok: bool, ghost call: seq<Attempt>)
      requires Valid()
      modifies `clock, `uses, `lastMutation, `trace, `asked, `cuts
      ensures Valid() && uses >= old(uses)
      ensures trace == old(trace) + call && |call| <= maxAttempts
      ensures CallOk(call, request) && AllFromWorld(world, call)
      ensures forall i :: 0 <= i < |call| - 1 ==> Kind(call[i], decodes).Retryable?
      ensures ok <==> Confirmed(call, decodes)
      ensures CallEnded(call, maxAttempts) || !validUrl || cuts > old(cuts)
      ensures cuts == old(cuts) || (cuts == old(cuts) + 1 && CutShort(world, old(uses), uses))
      ensures Accepts(world, request, decodes) && validUrl && cuts == old(cuts) ==> ok
      ensures Refuses(world, request, decodes) ==> !ok
    {
      hide Decide, Paced, NoSignal, SleepBudget, RateSignal, WaitBudget, CutShort;
      var r;
      r, call := Do(request);
      ok := r.Answer? && r.status == 201 && decodes(r.body);
      forall i | 0 <= i < |call| - 1
        ensures call[i].decision.Retry?
      {
        var j := i + 1;
        assert Follows(call[j - 1], call[j]);
      }
      if call != [] { LastOfCall(world, call, request, decodes); }
    }

    // ensureLabel and EnsureLabels: each label is tried, whatever became of the ones before; one
    // that exists already (422) is no failure.
    method EnsureLabels(labels: seq<string>)
      returns (failed: nat, ghost results: seq<DoResult>, ghost calls: seq<seq<Attempt>>)
      requires Valid()
      modifies `clock, `uses, `lastMutation, `trace, `asked, `cuts
      ensures Valid() && cuts >= old(cuts)
      ensures trace == old(trace) + Joined(calls)
      ensures LabelsTried(labels, results, calls) && failed == LabelFailures(results)
      ensures validUrl && cuts == old(cuts) ==> forall i :: 0 <= i < |results| ==> !results[i].Aborted?
    {
      hide Paced, CallOk, NoSignal, SleepBudget, Concludes, FairRandom, AllFromWorld, WaitBudget, CutShort, LabelsTried,
           LabelFailures, Joined;
      calls, results := [], [];
      failed := 0;
      NoLabels();
      for i := 0 to |labels|
        invariant Valid() && trace == old(trace) + Joined(calls) && cuts >= old(cuts)
        invariant LabelsTried(labels[..i], results, calls) && failed == LabelFailures(results)
        invariant validUrl && cuts == old(cuts) ==> forall j :: 0 <= j < |results| ==> !results[j].Aborted?
      {
        var r;
        ghost var call;
        r, call := Do(labels[i]);
        if LabelFailed(r) { failed := failed + 1; }
        OneMoreLabel(labels, i, results, calls, r, call);
        results, calls := results + [r], calls + [call];
      }
      assert labels[..|labels|] == labels;
    }
  }

  function Joined(calls: seq<seq<Attempt>>): seq<Attempt> {
    if calls == [] then [] else Joined(calls[..|calls| - 1]) + calls[|calls| - 1]
  }

  // One call and one result per label, in order.
  ghost predicate LabelsTried(labels: seq<string>, results: seq<DoResult>, calls: seq<seq<Attempt>>) {
    && |results| == |calls| == |labels|
    && forall i :: 0 <= i < |labels| ==> CallOk(calls[i], labels[i]) && Concludes(results[i], calls[i])
  }

  predicate LabelFailed(r: DoResult) {
    !(r.Answer? && (r.status == 201 || r.status == 422))
  }

  function LabelFailures(results: seq<DoResult>): nat {
    if results == [] then 0
    else LabelFailures(results[..|results| - 1]) + (if LabelFailed(results[|results| - 1]) then 1 else 0)
  }

  lemma NoLabels()
    ensures Joined([]) == [] && LabelsTried([], [], []) && LabelFailures([]) == 0
  {
  }

  lemma OneMoreLabel(labels: seq<string>, i: nat, results: seq<DoResult>, calls: seq<seq<Attempt>>,
                     r: DoResult, call: seq<Attempt>)
    requires i < |labels| && LabelsTried(labels[..i], results, calls)
    requires CallOk(call, labels[i]) && Concludes(r, call)
    ensures LabelsTried(labels[..i + 1], results + [r], calls + [call])
    ensures Joined(calls + [call]) == Joined(calls) + call
    ensures LabelFailures(results + [r]) == LabelFailures(results) + (if LabelFailed(r) then 1 else 0)
  {
    hide CallOk, Concludes;
    assert (results + [r])[..|results|] == results && (calls + [call])[..|calls|] == calls;
    assert labels[..i + 1][..i] == labels[..i];
  }

  // Created, or there already.
  predicate Acceptable(r: DoResult) {
    match r
    case Answer(status, _) => status == 201 || status == 422
    case _ => false
  }

  // The failures are the labels that were answered neither 201 nor 422.
  lemma {:induction false} LabelFailuresExact(results: seq<DoResult>)
    ensures LabelFailures(results)
            == |set i | 0 <= i < |results| && !Acceptable(results[i])|
  {
    var bad := set i | 0 <= i < |results| && !Acceptable(results[i]);
    if results == [] {
      assert bad == {};
    } else {
      var n := |results| - 1;
      var front := results[..n];
      LabelFailuresExact(front);
      var fewer := set i | 0 <= i < |front| && !Acceptable(front[i]);
      assert bad == fewer + (if LabelFailed(results[n]) then {n} else {});
    }
  }

  // An attempt to create an issue, as the publisher must account for it.
  datatype HttpKind = Created | Undecodable | Retryable | Refused

  function Kind(a: Attempt, decodes: string -> bool): HttpKind {
    if a.decision.Retry? then Retryable
    else if !a.reply.Response? || a.reply.status != 201 then Refused
    else if decodes(a.reply.body) then Created
    else Undecodable
  }

  lemma KindExactly(a: Attempt, decodes: string -> bool)
    ensures Kind(a, decodes).Retryable? <==> a.decision.Retry?
    ensures Kind(a, decodes).Created? <==> a.decision.Final? && IsCreated(a.reply, decodes)
    ensures Kind(a, decodes).Undecodable? <==>
              a.decision.Final? && a.reply.Response? && a.reply.status == 201 && !decodes(a.reply.body)
  {
  }

  // The last attempt of the call got a decodable 201.
  ghost predicate Confirmed(call: seq<Attempt>, decodes: string -> bool) {
    call != [] && Kind(call[|call| - 1], decodes).Created?
  }

  // ----- What the waits amount to -----

  lemma {:induction false} SleepBudgetClosed(n: nat)
    requires n >= 1
    ensures SleepBudget(n) == if n <= 7 then Pow2(n - 1) else 64 + 60 * (n - 7)
  {
    Pow2Values();
    if n >= 2 {
      SleepBudgetClosed(n - 1);
      if n >= 8 { Pow2Monotone(6, n - 2); }
      if n == 7 { assert Pow2(n - 2) == 32; }
      if n < 7 { Pow2Monotone(n - 2, 5); }
    }
  }

  lemma NextStart(call: seq<Attempt>, request: string, i: nat)
    requires CallOk(call, request) && i + 1 < |call|
    ensures call[i + 1].start >=
              call[i].decided + NonNegative(Decide(call[i].reply, i, call[i].decided, call[i].random).wait)
  {
    hide Decide;
    assert AttemptOk(call[i], i, request);
    var j := i + 1;
    assert Follows(call[j - 1], call[j]);
  }

  // After a 403 or 429 with a Retry-After in delta-seconds, the next attempt of the call starts
  // no earlier than it demands.
  lemma RetryAfterKept(call: seq<Attempt>, request: string, i: nat, secs: int)
    requires CallOk(call, request) && i + 1 < |call|
    requires call[i].reply.Response? && (call[i].reply.status == 403 || call[i].reply.status == 429)
    requires Spells(call[i].reply.retryAfter, secs) && 0 <= secs <= 9223372036
    ensures call[i + 1].start >= call[i].decided + secs * SECOND
  {
    hide Spells, ParseRetryAfter, AttemptOk;
    NextStart(call, request, i);
    RetryAfterExact(call[i].reply.retryAfter, secs);
  }

  // After one with no quota left, no earlier than a second past max(reset, now).
  lemma ResetKept(call: seq<Attempt>, request: string, i: nat, epoch: int)
    requires CallOk(call, request) && i + 1 < |call|
    requires call[i].reply.Response? && (call[i].reply.status == 403 || call[i].reply.status == 429)
    requires !NamesDelay(call[i].reply.retryAfter) && call[i].reply.remaining == "0"
    requires Spells(call[i].reply.reset, epoch) && -TWO63 <= epoch <= MAX64
    requires 0 <= call[i].decided <= MAX64
    requires epoch * SECOND - call[i].decided <= MAX64 - SECOND
    ensures call[i + 1].start >= call[i].decided + SECOND
    ensures call[i + 1].start >= epoch * SECOND + SECOND
  {
    hide Spells, NamesDelay, ParseRetryAfter, UntilReset, AttemptOk;
    NextStart(call, request, i);
    RetryAfterTaken(call[i].reply.retryAfter);
    UntilResetExact(call[i].reply.reset, epoch, call[i].decided);
  }

  // After a secondary rate limit without either, no earlier than a minute.
  lemma SecondaryFloorKept(call: seq<Attempt>, request: string, i: nat)
    requires CallOk(call, request) && i + 1 < |call|
    requires call[i].reply.Response? && call[i].reply.status == 403
    requires !NamesDelay(call[i].reply.retryAfter) && call[i].reply.remaining != "0"
    requires SaysSecondary(call[i].reply.body)
    ensures call[i + 1].start >= call[i].decided + 60 * SECOND
  {
    hide NamesDelay, SaysSecondary, ParseRetryAfter, IsSecondaryRateLimit, AttemptOk, JitteredBackoff;
    NextStart(call, request, i);
    RetryAfterTaken(call[i].reply.retryAfter);
    SecondaryExactly(call[i].reply.body);
  }

  lemma PacedAppend(trace: seq<Attempt>, a: Attempt, spacing: int)
    requires Paced(trace, spacing)
    requires trace != [] ==> a.start >= trace[|trace| - 1].stamp + spacing
    ensures Paced(trace + [a], spacing)
  {
  }

  lemma EmptyCall(request: string, n: nat)
    ensures CallOk([], request) && Frugal(0, 0, 0) && SleepBudget(n) >= 0
  {
  }

  lemma CallAppend(call: seq<Attempt>, a: Attempt, request: string)
    requires CallOk(call, request) && AttemptOk(a, |call|, request)
    requires call != [] ==> Follows(call[|call| - 1], a)
    ensures CallOk(call + [a], request)
  {
    hide AttemptOk, Follows;
    var longer := call + [a];
    forall i | 0 <= i < |longer|
      ensures AttemptOk(longer[i], i, request)
    {
      if i < |call| { assert longer[i] == call[i]; }
    }
    forall j | 0 < j < |longer|
      ensures Follows(longer[j - 1], longer[j])
    {
      if j < |call| { assert longer[j] == call[j]; }
    }
  }

  lemma NoSignalBefore(call: seq<Attempt>, a: Attempt)
    ensures NoSignal(call + [a]) ==> NoSignal(call)
  {
    hide RateSignal;
    forall i | NoSignal(call + [a]) && 0 <= i < |call|
      ensures !RateSignal(call[i].reply)
    {
      assert (call + [a])[i] == call[i];
    }
  }

  lemma NothingAsked(w: World, spacing: int)
    ensures AllFromWorld(w, []) && WaitBudget([], spacing) == NonNegative(spacing)
  {
  }

  lemma WorldAppend(w: World, call: seq<Attempt>, a: Attempt)
    requires AllFromWorld(w, call) && FromWorld(w, a)
    ensures AllFromWorld(w, call + [a])
  {
    hide FromWorld;
  }

  lemma MoreAsked(call: seq<Attempt>, a: Attempt, spacing: int)
    ensures WaitBudget(call + [a], spacing)
            == WaitBudget(call, spacing) + NonNegative(spacing)
               + (if a.decision.Retry? then NonNegative(a.decision.wait) else 0)
  {
    assert (call + [a])[..|call|] == call;
  }

  lemma CutWithin(w: World, low: nat, from: nat, to: nat, high: nat)
    requires low <= from && to <= high
    ensures CutShort(w, from, to) ==> CutShort(w, low, high)
  {
  }

  lemma CutHere(w: World, low: nat, at: nat, high: nat)
    requires low <= at < high && w.oversleep(at).None?
    ensures CutShort(w, low, high)
  {
  }

  lemma LastOfCall(w: World, call: seq<Attempt>, request: string, decodes: string -> bool)
    requires CallOk(call, request) && AllFromWorld(w, call) && call != []
    ensures var a := call[|call| - 1];
            && (Accepts(w, request, decodes) ==> IsCreated(a.reply, decodes) && a.decision.Final?)
            && (Refuses(w, request, decodes) ==> !IsCreated(a.reply, decodes))
  {
    hide Decide, Follows;
    var i := |call| - 1;
    assert AttemptOk(call[i], i, request) && FromWorld(w, call[i]);
    FinalReply(call[i], i, request);
  }

  lemma FinalReply(a: Attempt, i: nat, request: string)
    requires AttemptOk(a, i, request)
    ensures a.reply.Response? && a.reply.status < 500 && a.reply.status != 403 && a.reply.status != 429
            ==> a.decision.Final?
  {
  }

  lemma AnswerConcludes(call: seq<Attempt>, a: Attempt, i: nat, request: string)
    requires AttemptOk(a, i, request) && a.decision.Final? && call != [] && call[|call| - 1] == a
    ensures a.reply.Response? && Concludes(Answer(a.reply.status, a.reply.body), call)
  {
  }

  lemma NoAnswer(call: seq<Attempt>)
    requires forall i :: 0 <= i < |call| ==> call[i].decision.Retry?
    ensures Concludes(GaveUp, call) && Concludes(Aborted, call)
  {
  }

  // Sleep asked for so far, before the attempt with this number: the budget of the attempts
  // made, and the last wait.
  ghost predicate Frugal(asked: int, slept: int, attempt: nat) {
    if attempt == 0 then asked <= 0 && slept == 0
    else 0 <= slept <= Min(60, Pow2(attempt - 1)) * SECOND && asked <= SleepBudget(attempt) * SECOND + slept
  }

  lemma {:induction false} SleepBudgetGrows(m: nat, n: nat)
    requires m <= n
    ensures SleepBudget(m) <= SleepBudget(n)
    decreases n - m
  {
    if m < n {
      if n >= 2 { Pow2Monotone(0, n - 2); }
      SleepBudgetGrows(m, n - 1);
    }
  }

  // Spacing only tops a wait up to a second, and the backoff bound is never less.
  lemma SpacingFits(before: int, after: int, slept: int, attempt: nat, n: nat)
    requires attempt < n
    ensures Frugal(before, slept, attempt)
              && after <= before + (if attempt == 0 then SECOND else NonNegative(SECOND - slept))
            ==> after <= SleepBudget(attempt + 1) * SECOND <= SleepBudget(n) * SECOND
  {
    SleepBudgetGrows(attempt + 1, n);
    if attempt > 0 { Pow2Monotone(0, attempt - 1); }
  }

  lemma BackoffFits(call: seq<Attempt>, asked: int, slept: int, attempt: nat, n: nat, request: string)
    requires CallOk(call, request) && |call| == attempt && 0 < attempt < n
    requires call[attempt - 1].decision.Retry? && slept == NonNegative(call[attempt - 1].decision.wait)
    ensures NoSignal(call) && asked <= SleepBudget(attempt) * SECOND + slept ==> Frugal(asked, slept, attempt)
    ensures Frugal(asked, slept, attempt) ==> asked <= SleepBudget(n) * SECOND
  {
    hide Decide, RateSignal;
    var last := call[attempt - 1];
    assert AttemptOk(last, attempt - 1, request);
    if NoSignal(call) { DecideWithoutSignal(last.reply, attempt - 1, last.decided, last.random); }
    SleepBudgetGrows(attempt + 1, n);
  }
}
