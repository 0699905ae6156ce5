// Decoding of byte strings into runes as Go's unicode/utf8 does it (section 3 of RFC 3629, with
// each invalid byte counting as one rune), and truncation to a number of runes
// (internal/publish/format.go, truncateRunes).
module Utf8 {

  predicate Continuation(c: char) {
    0x80 <= c as int < 0xC0
  }

  // The number of bytes a leading byte announces; 1 for ASCII and for bytes that lead nothing.
  function Announced(c: char): int {
    var b := c as int;
    if 0xC2 <= b < 0xE0 then 2 else if 0xE0 <= b < 0xF0 then 3 else if 0xF0 <= b < 0xF5 then 4 else 1
  }

  // The second byte is restricted after E0 and F0 (overlong forms), ED (surrogates) and F4
  // (beyond U+10FFFF).
  predicate SecondOk(c: char, d: char) {
    && Continuation(d)
    && (c as int == 0xE0 ==> d as int >= 0xA0)
    && (c as int == 0xED ==> (d as int) < 0xA0)
    && (c as int == 0xF0 ==> d as int >= 0x90)
    && (c as int == 0xF4 ==> (d as int) < 0x90)
  }

  predicate Complete(s: string)
    requires s != []
  {
    var n := Announced(s[0]);
    && |s| >= n
    && (n >= 2 ==> SecondOk(s[0], s[1]))
    && (n >= 3 ==> Continuation(s[2]))
    && (n >= 4 ==> Continuation(s[3]))
  }

  // Bytes taken by the first rune.
  function Width(s: string): (w: nat)
    requires s != []
    ensures 1 <= w <= |s|
  {
    if Complete(s) then Announced(s[0]) else 1
  }

  function RuneCount(s: string): nat
    decreases |s|
  {
    if s == [] then 0 else 1 + RuneCount(s[Width(s)..])
  }

  // k bytes into s is where some rune starts, or the end.
  predicate Boundary(s: string, k: int)
    decreases |s|
  {
    k == 0 || (s != [] && Width(s) <= k <= |s| && Boundary(s[Width(s)..], k - Width(s)))
  }

  function Truncate(s: string, n: int): string
    decreases |s|
  {
    if n <= 0 || s == [] then "" else s[..Width(s)] + Truncate(s[Width(s)..], n - 1)
  }

  function Min(a: int, b: int): int { if a < b then a else b }

  // truncateRunes: counts runes up to the limit and cuts there.
  method TruncateRunes(s: string, n: int) returns (r: string)
    ensures r == Truncate(s, n)
  {
    hide Complete;
    if n <= 0 { return ""; }
    if RuneCount(s) <= n {
      TruncateAll(s, n);
      return s;
    }
    var i, count := 0, 0;
    while i < |s|
      invariant 0 <= i <= |s| && count <= n
      invariant Truncate(s, n) == s[..i] + Truncate(s[i..], n - count)
    {
      if count == n { return s[..i]; }
      TruncateStep(s, i, n - count);
      i := i + Width(s[i..]);
      count := count + 1;
    }
    assert s[..i] == s && s[i..] == "";
    return s;
  }

  lemma TruncateStep(s: string, i: int, n: int)
    requires 0 <= i < |s| && n > 0
    ensures var j := i + Width(s[i..]);
            s[..i] + Truncate(s[i..], n) == s[..j] + Truncate(s[j..], n - 1)
  {
    hide Complete;
    var t := s[i..];
    var w := Width(t);
    assert t[w..] == s[i + w..];
    assert s[..i + w] == s[..i] + t[..w];
    assert s[..i] + (t[..w] + Truncate(t[w..], n - 1)) == (s[..i] + t[..w]) + Truncate(t[w..], n - 1);
  }

  lemma {:induction false} TruncateAll(s: string, n: int)
    requires RuneCount(s) <= n
    ensures Truncate(s, n) == s
    decreases |s|
  {
    if s != [] { TruncateAll(s[Width(s)..], n - 1); }
  }

  // Cutting or extending a string after its first rune does not change that rune.
  lemma PrefixWidth(s: string, k: int)
    requires s != [] && Width(s) <= k <= |s|
    ensures Width(s[..k]) == Width(s)
  {
  }

  // Truncation cuts on a boundary.
  lemma {:induction false} TruncateIsPrefix(s: string, n: int)
    ensures var k := |Truncate(s, n)|;
            k <= |s| && Truncate(s, n) == s[..k] && Boundary(s, k)
    decreases |s|
  {
    if n > 0 && s != [] {
      var w := Width(s);
      TruncateIsPrefix(s[w..], n - 1);
      var k := |Truncate(s[w..], n - 1)|;
      assert s[..w + k] == s[..w] + s[w..][..k];
    }
  }

  // A prefix that ends on a boundary decodes to the same runes, so decoding what was cut off
  // afresh gives exactly min(n, all) runes.
  lemma {:induction false} TruncateCount(s: string, n: int)
    ensures RuneCount(Truncate(s, n)) == if n <= 0 then 0 else Min(n, RuneCount(s))
    decreases |s|
  {
    if n > 0 && s != [] {
      var w := Width(s);
      var r := Truncate(s, n);
      TruncateIsPrefix(s, n);
      PrefixWidth(s, |r|);
      assert r[w..] == Truncate(s[w..], n - 1);
      TruncateCount(s[w..], n - 1);
    }
  }

  lemma {:induction false} BoundaryCount(s: string, k: int)
    requires s != [] && 0 < k <= |s| && Boundary(s, k)
    ensures RuneCount(s[..k]) == 1 + RuneCount(s[Width(s)..][..k - Width(s)])
  {
    var w := Width(s);
    PrefixWidth(s, k);
    assert s[..k][w..] == s[w..][..k - w];
  }

  // No longer prefix would do: of all prefixes that end on a boundary and hold at most n runes,
  // the result is the longest.
  lemma {:induction false} TruncateIsLongest(s: string, n: int, k: int)
    requires 0 <= k <= |s| && Boundary(s, k) && RuneCount(s[..k]) <= n
    ensures k <= |Truncate(s, n)|
    decreases |s|
  {
    if k > 0 {
      BoundaryCount(s, k);
      TruncateIsLongest(s[Width(s)..], n - 1, k - Width(s));
    }
  }

  // Truncating twice is truncating to the smaller limit.
  lemma {:induction false} TruncateTwice(s: string, m: int, n: int)
    ensures Truncate(Truncate(s, m), n) == Truncate(s, Min(m, n))
    decreases |s|
  {
    if m > 0 && n > 0 && s != [] {
      var w := Width(s);
      var r := Truncate(s, m);
      TruncateIsPrefix(s, m);
      PrefixWidth(s, |r|);
      assert r[w..] == Truncate(s[w..], m - 1) && r[..w] == s[..w];
      TruncateTwice(s[w..], m - 1, n - 1);
    }
  }

  // Two strings meet between runes: nothing at the end of a can take in the start of b.
  predicate Clean(a: string, b: string) {
    a == [] || b == [] || a[|a| - 1] as int < 0x80 || !Continuation(b[0])
  }

  lemma AppendWidth(a: string, b: string)
    requires a != [] && Clean(a, b)
    ensures Width(a + b) == Width(a)
  {
    if b != [] && |a| < Announced(a[0]) { assert (a + b)[|a|] == b[0]; }
  }

  lemma {:induction false} AppendCount(a: string, b: string)
    requires Clean(a, b)
    ensures RuneCount(a + b) == RuneCount(a) + RuneCount(b)
    decreases |a|
  {
    if a == [] {
      assert a + b == b;
    } else {
      AppendWidth(a, b);
      var w := Width(a);
      assert (a + b)[w..] == a[w..] + b;
      assert a[w..] != [] ==> a[w..][|a[w..]| - 1] == a[|a| - 1];
      AppendCount(a[w..], b);
    }
  }
}
