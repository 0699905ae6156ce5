// Retry arithmetic of internal/publish/github.go in 64-bit durations: the wrapping shift, the
// Retry-After and x-ratelimit-reset headers, and the decision they lead to.
module Backoff {
  import opened Wrappers
  import opened Utf8
  import opened Format
  import opened Runes

  // Nanoseconds, as time.Duration counts them.
  const SECOND := 1_000_000_000

  const TWO63 := 0x8000_0000_0000_0000
  const TWO64 := 0x1_0000_0000_0000_0000
  const MAX64 := TWO63 - 1

  const BASE_BACKOFF := SECOND
  const CAP_BACKOFF := 60 * SECOND
  const SECONDARY_MIN := 60 * SECOND

  // The int64 with the same low 64 bits.
  function Wrap64(x: int): int {
    (x + TWO63) % TWO64 - TWO63
  }

  // time.Time.Sub saturates.
  function Clamp64(x: int): int {
    if x < -TWO63 then -TWO63 else if x > MAX64 then MAX64 else x
  }

  function Pow2(n: nat): nat {
    if n == 0 then 1 else 2 * Pow2(n - 1)
  }

  // jitteredBackoff's bound: base << attempt in 64 bits, then the guard.
  function BackoffCap(attempt: nat): int {
    var shifted := Wrap64(BASE_BACKOFF * Pow2(attempt));
    if shifted <= 0 || shifted > CAP_BACKOFF then CAP_BACKOFF else shifted
  }

  function JitteredBackoff(attempt: nat, r: real): int {
    (r * (BackoffCap(attempt) as real)).Floor
  }

  lemma {:induction false} Pow2Split(a: nat, b: nat)
    ensures Pow2(a + b) == Pow2(a) * Pow2(b)
  {
    if a > 0 { Pow2Split(a - 1, b); }
  }

  lemma {:induction false} Pow2Monotone(a: nat, b: nat)
    requires a <= b
    ensures Pow2(a) <= Pow2(b)
  {
    if a < b { Pow2Monotone(a, b - 1); }
  }

  lemma Pow2Values()
    ensures Pow2(5) == 32 && Pow2(6) == 64 && Pow2(27) == 0x800_0000
    ensures Pow2(0) == 1 && Pow2(1) == 2 && Pow2(2) == 4 && Pow2(3) == 8 && Pow2(4) == 16
  {
    assert Pow2(9) == 512 by { assert Pow2(8) == 2 * Pow2(7); }
    Pow2Split(9, 9);
    Pow2Split(18, 9);
  }

  // A multiple of 2^36 stays one when wrapped, so it is never a small positive duration.
  lemma WrapKeepsFactor(k: nat)
    ensures var x := Wrap64(k * 0x10_0000_0000); x <= 0 || x >= 0x10_0000_0000
  {
    var unit := 0x10_0000_0000;
    var m := k % 0x1000_0000;
    var q := k / 0x1000_0000;
    assert TWO64 == unit * 0x1000_0000;
    assert k * unit == m * unit + q * TWO64;
    var x := if m * unit < TWO63 then m * unit else m * unit - TWO64;
    assert k * unit + TWO63 == x + TWO63 + (if m * unit < TWO63 then q else q + 1) * TWO64;
    WrapUnique(k * unit, x, if m * unit < TWO63 then q else q + 1);
    if x > 0 { assert m >= 1; }
  }

  lemma WrapUnique(y: int, x: int, q: int)
    requires y == x + q * TWO64 && -TWO63 <= x < TWO63
    ensures Wrap64(y) == x
  {
    assert (x + TWO63 + q * TWO64) % TWO64 == (x + TWO63) % TWO64;
  }

  // The wrapped shift is harmless: for every attempt number the guard yields min(60 s, 1 s * 2^n)
  // over unbounded integers. It needs the factor 2^9 of 10^9 once the shift overflows.
  lemma ShiftIsHarmless(attempt: nat)
    ensures BackoffCap(attempt) == Min(60 * SECOND, SECOND * Pow2(attempt))
  {
    Pow2Values();
    if attempt < 27 {
      Pow2Monotone(attempt, 27);
      WrapUnique(BASE_BACKOFF * Pow2(attempt), BASE_BACKOFF * Pow2(attempt), 0);
    } else {
      Pow2Split(27, attempt - 27);
      var k := 1953125 * Pow2(attempt - 27);
      assert BASE_BACKOFF * Pow2(attempt) == k * 0x10_0000_0000;
      WrapKeepsFactor(k);
      Pow2Monotone(27, attempt);
    }
  }

  // Full jitter stays between nothing and the bound.
  lemma JitterRange(attempt: nat, r: real)
    requires 0.0 <= r <= 1.0
    ensures 0 <= JitteredBackoff(attempt, r) <= Min(60 * SECOND, SECOND * Pow2(attempt))
  {
    hide BackoffCap;
    ShiftIsHarmless(attempt);
    Pow2Monotone(0, attempt);
    assert BASE_BACKOFF * Pow2(attempt) >= 0;
    FloorRange(r, BackoffCap(attempt));
  }

  // The wait follows the random number: it is that part of the bound, in whole nanoseconds.
  lemma JitterFollows(attempt: nat, r: real)
    ensures var part := r * (Min(60 * SECOND, SECOND * Pow2(attempt)) as real);
            JitteredBackoff(attempt, r) as real <= part < JitteredBackoff(attempt, r) as real + 1.0
  {
    hide BackoffCap;
    ShiftIsHarmless(attempt);
  }

  lemma FloorRange(r: real, b: int)
    requires 0.0 <= r <= 1.0 && b >= 0
    ensures 0 <= (r * (b as real)).Floor <= b
  {
    var x := b as real;
    assert (1.0 - r) * x >= 0.0;
    assert r * x >= 0.0;
    assert r * x == x - (1.0 - r) * x;
    assert r * x <= x;
  }

  // ----- Headers -----

  // ASCII '0' to '9'.
  predicate AllDigits(s: string) {
    forall i :: 0 <= i < |s| ==> 48 <= s[i] as int <= 57
  }

  function DigitsValue(s: string): nat
    requires AllDigits(s)
  {
    if s == "" then 0
    else
      var last := s[|s| - 1] as int;
      10 * DigitsValue(s[..|s| - 1]) + (last - 48)
  }

  // strconv.Atoi and ParseInt(s, 10, 64): an optional sign, digits, and the 64-bit range.
  function ParseInt64(s: string): Option<int> {
    var signed := s != "" && (s[0] == '+' || s[0] == '-');
    var digits := if signed then s[1..] else s;
    if digits == "" || !AllDigits(digits) then None
    else
      var sign := if signed && s[0] == '-' then -1 else 1;
      var v := sign * DigitsValue(digits);
      if -TWO63 <= v <= MAX64 then Some(v) else None
  }

  function ParseRetryAfter(v: string): Option<int> {
    var t := TrimSpace(v);
    if t == "" then None
    else
      match ParseInt64(t)
      case None => None
      case Some(secs) => if secs < 0 then None else Some(Wrap64(secs * SECOND))
  }

  // Nanoseconds from the Unix epoch to time.Unix(epoch, 0), whose seconds since year 1 wrap.
  function UnixInstant(epoch: int): int {
    (Wrap64(epoch + 62135596800) - 62135596800) * SECOND
  }

  function UntilReset(reset: string, now: int): Option<int> {
    if reset == "" then None
    else
      match ParseInt64(TrimSpace(reset))
      case None => None
      case Some(epoch) =>
        var d := Clamp64(UnixInstant(epoch) - now);
        Some(Wrap64((if d < 0 then 0 else d) + SECOND))
  }

  // ----- What a header value spells -----

  ghost predicate SpelledAs(v: string, n: int, lead: string, sign: string, digits: string, trail: string) {
    && Padded(v, lead, sign + digits, trail)
    && (sign == "" || sign == "+" || sign == "-")
    && digits != "" && AllDigits(digits)
    && n == (if sign == "-" then -1 else 1) * DigitsValue(digits)
  }

  // A decimal number in any spelling: leading zeros, a sign, white space around it.
  ghost predicate Spells(v: string, n: int) {
    exists lead, sign, digits, trail :: SpelledAs(v, n, lead, sign, digits, trail)
  }

  lemma SpellingParses(v: string, n: int, lead: string, sign: string, digits: string, trail: string)
    requires SpelledAs(v, n, lead, sign, digits, trail)
    ensures v != "" && TrimSpace(v) == sign + digits != ""
    ensures ParseInt64(sign + digits) == if -TWO63 <= n <= MAX64 then Some(n) else None
  {
    hide DigitsValue, White, TrimSpace;
    var x := sign + digits;
    assert Solid(x);
    TrimPadded(v, lead, x, trail);
    assert sign != "" ==> x[1..] == digits;
    assert sign == "" ==> x == digits;
  }

  // Nothing else is taken for a number.
  lemma ParsedIsSpelled(v: string, n: int)
    requires ParseInt64(TrimSpace(v)) == Some(n)
    ensures Spells(v, n) && -TWO63 <= n <= MAX64
  {
    hide DigitsValue, White, TrimSpace, ParseInt64, Padded;
    var t := TrimSpace(v);
    TrimSpaceExact(v);
    var lead, trail :| Padded(v, lead, t, trail);
    var sign, digits := ParsedParts(t, n);
    assert SpelledAs(v, n, lead, sign, digits, trail);
  }

  lemma ParsedParts(t: string, n: int) returns (sign: string, digits: string)
    requires ParseInt64(t) == Some(n)
    ensures t == sign + digits && (sign == "" || sign == "+" || sign == "-") && digits != "" && AllDigits(digits)
    ensures n == (if sign == "-" then -1 else 1) * DigitsValue(digits) && -TWO63 <= n <= MAX64
  {
    hide DigitsValue;
    var signed := t[0] == '+' || t[0] == '-';
    sign := if signed then [t[0]] else "";
    digits := if signed then t[1..] else t;
  }

  // A Retry-After in delta-seconds (section 10.2.3 of RFC 9110), in any spelling the code takes, is
  // honoured exactly if and only if it is at most 9223372036 seconds; beyond, the 64-bit product
  // wraps. Negative values and values beyond 64 bits are refused.
  lemma RetryAfterExact(v: string, n: int)
    requires Spells(v, n)
    ensures ParseRetryAfter(v).Some? <==> 0 <= n <= MAX64
    ensures ParseRetryAfter(v) == Some(n * SECOND) <==> 0 <= n <= 9223372036
  {
    hide TrimSpace, ParseInt64, SpelledAs;
    var lead, sign, digits, trail :| SpelledAs(v, n, lead, sign, digits, trail);
    SpellingParses(v, n, lead, sign, digits, trail);
    if 0 <= n <= 9223372036 { WrapUnique(n * SECOND, n * SECOND, 0); }
  }

  // So a Retry-After names a delay exactly when it spells a number from 0 up in 64 bits: one that is
  // absent, blank or anything else names none.
  ghost predicate NamesDelay(v: string) {
    exists n :: Spells(v, n) && 0 <= n <= MAX64
  }

  lemma RetryAfterTaken(v: string)
    ensures ParseRetryAfter(v).Some? <==> NamesDelay(v)
  {
    hide TrimSpace, ParseInt64, Spells;
    if ParseRetryAfter(v).Some? { ParsedIsSpelled(v, ParseInt64(TrimSpace(v)).value); }
    if n :| Spells(v, n) && 0 <= n <= MAX64 { RetryAfterExact(v, n); }
  }

  // And a reset names an instant exactly when it spells a 64-bit number.
  ghost predicate NamesInstant(v: string) {
    exists n :: Spells(v, n) && -TWO63 <= n <= MAX64
  }

  lemma ResetTaken(v: string, now: int)
    ensures UntilReset(v, now).Some? <==> NamesInstant(v)
  {
    hide TrimSpace, ParseInt64, Spells;
    if UntilReset(v, now).Some? { ParsedIsSpelled(v, ParseInt64(TrimSpace(v)).value); }
    if n :| Spells(v, n) && -TWO63 <= n <= MAX64 { ResetParses(v, n); }
  }

  lemma ResetParses(v: string, n: int)
    requires Spells(v, n) && -TWO63 <= n <= MAX64
    ensures v != "" && ParseInt64(TrimSpace(v)) == Some(n)
  {
    hide TrimSpace, ParseInt64, SpelledAs;
    var lead, sign, digits, trail :| SpelledAs(v, n, lead, sign, digits, trail);
    SpellingParses(v, n, lead, sign, digits, trail);
  }

  // An absent header names nothing.
  lemma AbsentNamesNothing()
    ensures !NamesDelay("") && !NamesInstant("")
  {
    RetryAfterTaken("");
    ResetTaken("", 0);
  }

  // The wait for a reset is until one second past max(reset, now), if and only if that fits a
  // duration; resets beyond 64 bits are refused.
  lemma UntilResetExact(v: string, epoch: int, now: int)
    requires Spells(v, epoch) && 0 <= now <= MAX64
    ensures UntilReset(v, now).Some? <==> -TWO63 <= epoch <= MAX64
    ensures var later := if epoch * SECOND < now then now else epoch * SECOND;
            -TWO63 <= epoch <= MAX64 ==>
              (UntilReset(v, now) == Some(later + SECOND - now) <==> later - now <= MAX64 - SECOND)
  {
    hide TrimSpace, ParseInt64, SpelledAs;
    var lead, sign, digits, trail :| SpelledAs(v, epoch, lead, sign, digits, trail);
    SpellingParses(v, epoch, lead, sign, digits, trail);
    if -TWO63 <= epoch <= MAX64 {
      var sum := epoch + 62135596800;
      WrapUnique(sum, if sum <= MAX64 then sum else sum - TWO64, if sum <= MAX64 then 0 else 1);
      var d := Clamp64(UnixInstant(epoch) - now);
      var wait := (if d < 0 then 0 else d) + SECOND;
      WrapUnique(wait, if wait <= MAX64 then wait else wait - TWO64, if wait <= MAX64 then 0 else 1);
    }
  }
}
