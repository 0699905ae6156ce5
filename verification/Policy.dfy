// The retry policy of internal/publish/github.go: what is made of one reply, and which replies
// these are, in terms of their status, headers and body.
module Policy {
  import opened Wrappers
  import opened Utf8
  import opened Backoff

  // What one HTTP attempt came back with: no response, a body that could not be read, or a
  // response with the headers the retry policy looks at.
  datatype Reply =
    | TransportError
    | ReadError
    | Response(status: int, retryAfter: string, remaining: string, reset: string, body: string)

  datatype Decision = Final | Retry(wait: int)

  // Lower case of a body, for the runes whose lower case is ASCII: the capitals, U+0130 and
  // the Kelvin sign U+212A.
  function Lower(s: string): string
    decreases |s|
  {
    if s == "" then ""
    else if 'A' <= s[0] <= 'Z' then [(s[0] as int + 32) as char] + Lower(s[1..])
    else if |s| >= 2 && s[..2] == "\U{C4}\U{B0}" then "i" + Lower(s[2..])
    else if |s| >= 3 && s[..3] == "\U{E2}\U{84}\U{AA}" then "k" + Lower(s[3..])
    else [s[0]] + Lower(s[1..])
  }

  predicate Contains(s: string, part: string) {
    exists i | 0 <= i <= |s| :: part <= s[i..]
  }

  predicate IsSecondaryRateLimit(body: string) {
    Contains(Lower(body), "secondary rate limit") || Contains(Lower(body), "abuse detection")
  }

  // retryDecision, and the same backoff for an attempt without a usable response; now is the
  // clock reading and r the random number it uses.
  function Decide(reply: Reply, attempt: nat, now: int, r: real): Decision {
    match reply
    case TransportError => Retry(JitteredBackoff(attempt, r))
    case ReadError => Retry(JitteredBackoff(attempt, r))
    case Response(status, retryAfter, remaining, reset, body) =>
      if status >= 500 then Retry(JitteredBackoff(attempt, r))
      else if status != 403 && status != 429 then Final
      else
        match ParseRetryAfter(retryAfter)
        case Some(d) => Retry(d)
        case None =>
          if remaining == "0" then
            match UntilReset(reset, now)
            case Some(d) => Retry(d)
            case None => Retry(JitteredBackoff(attempt, r))
          else if status == 429 then Retry(JitteredBackoff(attempt, r))
          else if IsSecondaryRateLimit(body) then
            Retry(if JitteredBackoff(attempt, r) < SECONDARY_MIN then SECONDARY_MIN else JitteredBackoff(attempt, r))
          else Final
  }

  // ----- The words of a secondary rate limit -----

  // Bytes at the start of s that read as this small letter or blank, in either case; two runes
  // beyond ASCII have a small ASCII letter.
  function LetterAt(s: string, c: char): nat
    ensures LetterAt(s, c) <= |s|
  {
    if s == "" then 0
    else if s[0] == c || ('a' <= c <= 'z' && s[0] as int == c as int - 32) then 1
    else if c == 'i' && |s| >= 2 && s[..2] == "\U{C4}\U{B0}" then 2
    else if c == 'k' && |s| >= 3 && s[..3] == "\U{E2}\U{84}\U{AA}" then 3
    else 0
  }

  predicate Reads(s: string, part: string)
    decreases |part|
  {
    part == "" || (LetterAt(s, part[0]) > 0 && Reads(s[LetterAt(s, part[0])..], part[1..]))
  }

  // The words stand somewhere in the text, in letters of either case.
  ghost predicate Says(s: string, part: string) {
    exists i :: 0 <= i <= |s| && Reads(s[i..], part)
  }

  ghost predicate SaysSecondary(body: string) {
    Says(body, "secondary rate limit") || Says(body, "abuse detection")
  }

  // Small letters and blanks.
  predicate Words(part: string) {
    forall i :: 0 <= i < |part| ==> 'a' <= part[i] <= 'z' || part[i] == ' '
  }

  lemma {:induction false} LowerReads(s: string, part: string)
    requires Words(part)
    ensures part <= Lower(s) <==> Reads(s, part)
    decreases |part|
  {
    if part != "" && s != "" {
      var w := LetterAt(s, part[0]);
      LowerStep(s, part[0]);
      if w > 0 {
        LowerReads(s[w..], part[1..]);
        assert part <= Lower(s) <==> part[1..] <= Lower(s[w..]) by {
          assert part == [part[0]] + part[1..];
        }
      } else {
        assert Lower(s)[0] != part[0];
      }
    }
  }

  // What one step of lowering yields and takes.
  lemma LowerStep(s: string, c: char)
    requires s != "" && ('a' <= c <= 'z' || c == ' ')
    ensures Lower(s) != ""
    ensures if LetterAt(s, c) > 0 then Lower(s) == [c] + Lower(s[LetterAt(s, c)..]) else Lower(s)[0] != c
  {
    hide Lower, LetterAt, Taken, Head;
    var h := Head(s);
    LowerTakes(s);
    HeadIs(s, c);
    assert Lower(s) == [h] + Lower(s)[1..];
  }

  // What one step of lowering yields.
  function Head(s: string): char
    requires s != ""
  {
    if 'A' <= s[0] <= 'Z' then (s[0] as int + 32) as char
    else if |s| >= 2 && s[..2] == "\U{C4}\U{B0}" then 'i'
    else if |s| >= 3 && s[..3] == "\U{E2}\U{84}\U{AA}" then 'k'
    else s[0]
  }

  lemma HeadIs(s: string, c: char)
    requires s != "" && ('a' <= c <= 'z' || c == ' ')
    ensures LetterAt(s, c) == if Head(s) == c then Taken(s) else 0
  {
    if |s| >= 2 && s[..2] == "\U{C4}\U{B0}" { assert s[0] == s[..2][0]; }
    if |s| >= 3 && s[..3] == "\U{E2}\U{84}\U{AA}" { assert s[0] == s[..3][0]; }
  }

  // The bytes one step takes.
  function Taken(s: string): nat
    requires s != ""
    ensures 1 <= Taken(s) <= |s|
  {
    if |s| >= 2 && s[..2] == "\U{C4}\U{B0}" then 2
    else if |s| >= 3 && s[..3] == "\U{E2}\U{84}\U{AA}" then 3
    else 1
  }

  lemma LowerTakes(s: string)
    requires s != ""
    ensures Lower(s) != "" && Lower(s)[0] == Head(s) && Lower(s)[1..] == Lower(s[Taken(s)..])
  {
    if |s| >= 2 && s[..2] == "\U{C4}\U{B0}" { assert s[0] == s[..2][0]; }
    if |s| >= 3 && s[..3] == "\U{E2}\U{84}\U{AA}" { assert s[0] == s[..3][0]; }
    assert Lower(s) == [Head(s)] + Lower(s[Taken(s)..]);
  }

  // No word starts within a rune.
  lemma NoneWithin(s: string, part: string, i: nat)
    requires s != "" && part != "" && Words(part) && 0 < i < Taken(s)
    ensures !Reads(s[i..], part)
  {
    assert s[i..][0] == s[i];
    assert s[i] == s[..Taken(s)][i];
  }

  lemma ContainsStep(x: string, part: string)
    requires x != "" && part != ""
    ensures Contains(x, part) <==> part <= x || Contains(x[1..], part)
  {
    if i :| 0 <= i <= |x| && part <= x[i..] {
      if i > 0 { assert x[i..] == x[1..][i - 1..]; }
    }
    if j :| 0 <= j <= |x[1..]| && part <= x[1..][j..] { assert x[1..][j..] == x[j + 1..]; }
  }

  lemma SaysStep(s: string, part: string)
    requires s != "" && part != "" && Words(part)
    ensures Says(s, part) <==> Reads(s, part) || Says(s[Taken(s)..], part)
  {
    hide Reads, Taken;
    var w := Taken(s);
    if i :| 0 <= i <= |s| && Reads(s[i..], part) {
      if i == 0 {
        assert s[0..] == s;
      } else if i < w {
        NoneWithin(s, part, i);
      } else {
        assert s[i..] == s[w..][i - w..];
      }
    }
    if j :| 0 <= j <= |s[w..]| && Reads(s[w..][j..], part) { assert s[w..][j..] == s[j + w..]; }
    if Reads(s, part) { assert s[0..] == s; }
  }

  lemma {:induction false} LowerSays(s: string, part: string)
    requires Words(part) && part != ""
    ensures Contains(Lower(s), part) <==> Says(s, part)
    decreases |s|
  {
    hide Reads, Taken, Says, Contains;
    if s == "" {
      NothingSaid(part);
    } else {
      LowerReads(s, part);
      LowerTakes(s);
      ContainsStep(Lower(s), part);
      SaysStep(s, part);
      LowerSays(s[Taken(s)..], part);
    }
  }

  lemma NothingSaid(part: string)
    requires part != ""
    ensures !Contains(Lower(""), part) && !Says("", part)
  {
  }

  // A body is taken for a secondary rate limit exactly when it says so, in letters of either case.
  lemma SecondaryExactly(body: string)
    ensures IsSecondaryRateLimit(body) <==> SaysSecondary(body)
  {
    hide Lower, Contains, Says;
    LowerSays(body, "secondary rate limit");
    LowerSays(body, "abuse detection");
  }

  // ----- What becomes of a reply -----

  // A response ends the call exactly when it is no server error and no rate limit: not a 429, and a
  // 403 only without a Retry-After that names a delay, with quota left, and no word of a limit.
  lemma FinalExactly(reply: Reply, attempt: nat, now: int, r: real)
    ensures Decide(reply, attempt, now, r).Final? <==>
            && reply.Response? && reply.status < 500
            && ((reply.status != 403 && reply.status != 429)
                || (reply.status == 403 && !NamesDelay(reply.retryAfter) && reply.remaining != "0"
                    && !SaysSecondary(reply.body)))
  {
    hide ParseRetryAfter, UntilReset, IsSecondaryRateLimit, JitteredBackoff, NamesDelay, SaysSecondary;
    if reply.Response? {
      RetryAfterTaken(reply.retryAfter);
      SecondaryExactly(reply.body);
    }
  }

  // How long a retryable reply asks to wait, each case on what it says. jitter is the jittered
  // backoff for this attempt.
  lemma WaitExactly(reply: Reply, attempt: nat, now: int, r: real)
    requires Decide(reply, attempt, now, r).Retry?
    ensures var wait, jitter := Decide(reply, attempt, now, r).wait, JitteredBackoff(attempt, r);
            if !reply.Response? || reply.status >= 500 then wait == jitter
            else if NamesDelay(reply.retryAfter) then
              forall n :: Spells(reply.retryAfter, n) && 0 <= n <= 9223372036 ==> wait == n * SECOND
            else if reply.remaining == "0" then
              if !NamesInstant(reply.reset) then wait == jitter
              else
                0 <= now <= MAX64 ==> forall n :: Spells(reply.reset, n) ==>
                  var later := if n * SECOND < now then now else n * SECOND;
                  later - now <= MAX64 - SECOND ==> wait == later + SECOND - now
            else if reply.status == 429 then wait == jitter
            else SaysSecondary(reply.body) && wait == (if jitter < 60 * SECOND then 60 * SECOND else jitter)
  {
    hide ParseRetryAfter, UntilReset, IsSecondaryRateLimit, JitteredBackoff, NamesDelay, NamesInstant, SaysSecondary,
         Spells;
    if reply.Response? {
      RetryAfterTaken(reply.retryAfter);
      ResetTaken(reply.reset, now);
      SecondaryExactly(reply.body);
      forall n | Spells(reply.retryAfter, n)
        ensures ParseRetryAfter(reply.retryAfter) == Some(n * SECOND) <==> 0 <= n <= 9223372036
      {
        RetryAfterExact(reply.retryAfter, n);
      }
      if 0 <= now <= MAX64 && NamesInstant(reply.reset) { ResetWaits(reply.reset, now); }
    }
  }

  lemma ResetWaits(reset: string, now: int)
    requires 0 <= now <= MAX64 && UntilReset(reset, now).Some?
    ensures forall n :: Spells(reset, n) ==>
              var later := if n * SECOND < now then now else n * SECOND;
              later - now <= MAX64 - SECOND ==> UntilReset(reset, now) == Some(later + SECOND - now)
  {
    hide UntilReset, Spells;
    forall n | Spells(reset, n)
      ensures var later := if n * SECOND < now then now else n * SECOND;
              later - now <= MAX64 - SECOND ==> UntilReset(reset, now) == Some(later + SECOND - now)
    {
      UntilResetExact(reset, n, now);
    }
  }

  // A 403 or 429 that says how long to stay away.
  ghost predicate RateSignal(reply: Reply) {
    reply.Response? && (reply.status == 403 || reply.status == 429) &&
    (|| NamesDelay(reply.retryAfter)
     || (reply.remaining == "0" && NamesInstant(reply.reset))
     || (reply.remaining != "0" && reply.status == 403 && SaysSecondary(reply.body)))
  }

  lemma DecideWithoutSignal(reply: Reply, attempt: nat, now: int, r: real)
    requires !RateSignal(reply) && 0.0 <= r <= 1.0
    ensures var d := Decide(reply, attempt, now, r);
            d.Retry? ==> 0 <= d.wait <= Min(60, Pow2(attempt)) * SECOND
  {
    hide Decide, JitteredBackoff, NamesDelay, NamesInstant, SaysSecondary;
    JitterRange(attempt, r);
    FinalExactly(reply, attempt, now, r);
    if Decide(reply, attempt, now, r).Retry? { WaitExactly(reply, attempt, now, r); }
  }
}
