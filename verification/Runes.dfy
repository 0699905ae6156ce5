// What the byte-level decoder and the trimmer recognise, said in code points: the encoding of
// section 3 of RFC 3629 and the White_Space property.
module Runes {
  import opened Utf8
  import opened Format

  predicate Scalar(cp: int) {
    0 <= cp < 0x11_0000 && !(0xD800 <= cp < 0xE000)
  }

  function Encoding(cp: int): (r: string)
    requires Scalar(cp)
  {
    if cp < 0x80 then [cp as char]
    else if cp < 0x800 then [(0xC0 + cp / 0x40) as char, (0x80 + cp % 0x40) as char]
    else if cp < 0x1_0000 then
      [(0xE0 + cp / 0x1000) as char, (0x80 + cp / 0x40 % 0x40) as char, (0x80 + cp % 0x40) as char]
    else
      [(0xF0 + cp / 0x4_0000) as char, (0x80 + cp / 0x1000 % 0x40) as char,
       (0x80 + cp / 0x40 % 0x40) as char, (0x80 + cp % 0x40) as char]
  }

  ghost predicate Starts(s: string, cp: int) {
    Scalar(cp) && Encoding(cp) <= s
  }

  // The code point of a complete sequence.
  function Decoded(s: string): (cp: int)
    requires s != [] && Complete(s) && (Announced(s[0]) > 1 || (s[0] as int) < 0x80)
  {
    var n := Announced(s[0]);
    if n == 1 then s[0] as int
    else if n == 2 then (s[0] as int - 0xC0) * 0x40 + (s[1] as int - 0x80)
    else if n == 3 then (s[0] as int - 0xE0) * 0x1000 + (s[1] as int - 0x80) * 0x40 + (s[2] as int - 0x80)
    else
      (s[0] as int - 0xF0) * 0x4_0000 + (s[1] as int - 0x80) * 0x1000
      + (s[2] as int - 0x80) * 0x40 + (s[3] as int - 0x80)
  }

  lemma Digits64(a: int, b: int)
    requires 0 <= b < 0x40
    ensures (a * 0x40 + b) / 0x40 == a && (a * 0x40 + b) % 0x40 == b
  {
  }

  lemma DecodedTwo(s: string)
    requires |s| >= 2 && Complete(s) && Announced(s[0]) == 2
    ensures Starts(s, Decoded(s)) && |Encoding(Decoded(s))| == 2
  {
    Digits64(s[0] as int - 0xC0, s[1] as int - 0x80);
    assert Encoding(Decoded(s)) == [s[0], s[1]] == s[..2];
  }

  lemma DecodedThree(s: string)
    requires |s| >= 3 && Complete(s) && Announced(s[0]) == 3
    ensures Starts(s, Decoded(s)) && |Encoding(Decoded(s))| == 3
  {
    var a, b, c := s[0] as int - 0xE0, s[1] as int - 0x80, s[2] as int - 0x80;
    var cp := Decoded(s);
    Digits64(a * 0x40 + b, c);
    Digits64(a, b);
    assert cp == (a * 0x40 + b) * 0x40 + c;
    assert cp / 0x1000 == cp / 0x40 / 0x40 == a;
    assert Encoding(cp) == [s[0], s[1], s[2]] == s[..3];
  }

  lemma DecodedFour(s: string)
    requires |s| >= 4 && Complete(s) && Announced(s[0]) == 4
    ensures Starts(s, Decoded(s)) && |Encoding(Decoded(s))| == 4
  {
    var a, b, c, d := s[0] as int - 0xF0, s[1] as int - 0x80, s[2] as int - 0x80, s[3] as int - 0x80;
    var cp := Decoded(s);
    Digits64((a * 0x40 + b) * 0x40 + c, d);
    Digits64(a * 0x40 + b, c);
    Digits64(a, b);
    assert cp == ((a * 0x40 + b) * 0x40 + c) * 0x40 + d;
    assert cp / 0x1000 == cp / 0x40 / 0x40 == a * 0x40 + b;
    assert cp / 0x4_0000 == cp / 0x1000 / 0x40 == a;
    assert Encoding(cp) == [s[0], s[1], s[2], s[3]] == s[..4];
  }

  lemma DecodedStarts(s: string)
    requires s != [] && Complete(s) && (Announced(s[0]) > 1 || (s[0] as int) < 0x80)
    ensures Starts(s, Decoded(s)) && |Encoding(Decoded(s))| == Announced(s[0])
  {
    hide Encoding, Decoded;
    match Announced(s[0])
    case 2 => DecodedTwo(s);
    case 3 => DecodedThree(s);
    case 4 => DecodedFour(s);
    case _ => DecodedOne(s);
  }

  lemma DecodedOne(s: string)
    requires s != [] && (s[0] as int) < 0x80
    ensures Complete(s) && Starts(s, Decoded(s)) && |Encoding(Decoded(s))| == 1
  {
  }

  lemma EncodingComplete(s: string, cp: int)
    requires Starts(s, cp)
    ensures s != [] && Complete(s) && Announced(s[0]) == |Encoding(cp)|
    ensures Announced(s[0]) > 1 || (s[0] as int) < 0x80
  {
    var e := Encoding(cp);
    assert forall i :: 0 <= i < |e| ==> s[i] == e[i];
  }

  // The decoder takes a sequence of bytes for a rune exactly when it encodes a code point, and then
  // takes all of it; any other byte counts as one.
  lemma WidthExact(s: string)
    requires s != []
    ensures (exists cp :: Starts(s, cp)) <==> Width(s) > 1 || (s[0] as int) < 0x80
    ensures forall cp :: Starts(s, cp) ==> Width(s) == |Encoding(cp)|
  {
    hide Encoding;
    if Width(s) > 1 || (s[0] as int) < 0x80 { DecodedStarts(s); }
    forall cp | Starts(s, cp)
      ensures Width(s) == |Encoding(cp)| && (Width(s) > 1 || (s[0] as int) < 0x80)
    {
      EncodingComplete(s, cp);
    }
  }

  // ----- White space -----

  // The code points with the White_Space property.
  predicate WhiteSpace(cp: int) {
    || 9 <= cp <= 13 || cp == 0x20 || cp == 0x85 || cp == 0xA0 || cp == 0x1680
    || 0x2000 <= cp <= 0x200A || cp == 0x2028 || cp == 0x2029 || cp == 0x202F || cp == 0x205F || cp == 0x3000
  }

  lemma SpaceAtExact(s: string)
    ensures SpaceAt(s) > 0 <==> exists cp :: WhiteSpace(cp) && Starts(s, cp)
    ensures forall cp :: WhiteSpace(cp) && Starts(s, cp) ==> SpaceAt(s) == |Encoding(cp)|
  {
    if SpaceAt(s) > 0 { SpaceStarts(s); }
    forall cp | WhiteSpace(cp) && Starts(s, cp)
      ensures SpaceAt(s) == |Encoding(cp)|
    {
      StartsSpace(s, cp);
    }
  }

  lemma SpaceStarts(s: string)
    requires SpaceAt(s) > 0
    ensures exists cp :: WhiteSpace(cp) && Starts(s, cp)
  {
    assert Complete(s) && (Announced(s[0]) > 1 || (s[0] as int) < 0x80);
    DecodedStarts(s);
    assert WhiteSpace(Decoded(s));
  }

  lemma StartsSpace(s: string, cp: int)
    requires WhiteSpace(cp) && Starts(s, cp)
    ensures SpaceAt(s) == |Encoding(cp)|
  {
    var e := Encoding(cp);
    assert forall i :: 0 <= i < |e| ==> s[i] == e[i];
  }

  // White space from one end to the other.
  predicate White(s: string)
    decreases |s|
  {
    s == "" || (SpaceAt(s) > 0 && White(s[SpaceAt(s)..]))
  }

  predicate EndsWithSpace(s: string, n: nat) {
    0 < n <= |s| && SpaceAt(s[|s| - n..]) == n
  }

  // No white space at the end.
  predicate EndsSolid(s: string) {
    !EndsWithSpace(s, 1) && !EndsWithSpace(s, 2) && !EndsWithSpace(s, 3)
  }

  lemma SpaceAtPrefix(a: string, b: string)
    ensures SpaceAt(a) > 0 ==> SpaceAt(a + b) == SpaceAt(a)
  {
  }

  lemma {:induction false} WhiteAppend(a: string, b: string)
    requires White(a) && White(b)
    ensures White(a + b)
    decreases |a|
  {
    if a == "" {
      assert a + b == b;
    } else {
      SpaceAtPrefix(a, b);
      assert (a + b)[SpaceAt(a)..] == a[SpaceAt(a)..] + b;
      WhiteAppend(a[SpaceAt(a)..], b);
    }
  }

  lemma {:induction false} LeftTrimmed(s: string)
    ensures var k := |s| - |TrimLeft(s)|;
            0 <= k && TrimLeft(s) == s[k..] && White(s[..k]) && SpaceAt(TrimLeft(s)) == 0
    decreases |s|
  {
    hide SpaceAt;
    var w := SpaceAt(s);
    if w > 0 {
      LeftTrimmed(s[w..]);
      var k := |s| - |TrimLeft(s)|;
      assert s[..k] == s[..w] + s[w..][..k - w] && s[..k][w..] == s[w..][..k - w];
      WholeSpace(s, w);
      SpaceAtPrefix(s[..w], s[w..][..k - w]);
    }
  }

  lemma WholeSpace(s: string, w: nat)
    requires SpaceAt(s) == w > 0
    ensures SpaceAt(s[..w]) == w
  {
  }

  lemma WhiteEnd(s: string, n: nat)
    requires EndsWithSpace(s, n)
    ensures White(s[|s| - n..])
  {
  }

  // The three cases of the trimmer.
  lemma TrimRightStep(s: string) returns (n: nat)
    ensures if n == 0 then EndsSolid(s) && TrimRight(s) == s
            else EndsWithSpace(s, n) && TrimRight(s) == TrimRight(s[..|s| - n])
  {
    hide SpaceAt;
    n := if EndsWithSpace(s, 1) then 1 else if EndsWithSpace(s, 2) then 2 else if EndsWithSpace(s, 3) then 3 else 0;
  }

  lemma {:induction false} RightTrimmed(s: string)
    ensures var k := |TrimRight(s)|;
            k <= |s| && TrimRight(s) == s[..k] && White(s[k..]) && EndsSolid(TrimRight(s))
    decreases |s|
  {
    hide SpaceAt, White, TrimRight, EndsSolid;
    var n := TrimRightStep(s);
    if n == 0 {
      assert s[|s|..] == "" && s[..|s|] == s;
      NothingIsWhite();
    } else {
      var front := s[..|s| - n];
      RightTrimmed(front);
      var k := |TrimRight(s)|;
      WhiteEnd(s, n);
      assert s[k..] == front[k..] + s[|s| - n..];
      WhiteAppend(front[k..], s[|s| - n..]);
    }
  }

  lemma NothingIsWhite()
    ensures White("")
  {
  }

  // s is t with white space around it.
  ghost predicate Padded(s: string, lead: string, t: string, trail: string) {
    White(lead) && White(trail) && s == lead + (t + trail)
  }

  // Trimming takes the white space at both ends, all of it and nothing else.
  lemma TrimSpaceExact(s: string)
    ensures var t := TrimSpace(s);
            && (exists lead, trail :: Padded(s, lead, t, trail))
            && SpaceAt(t) == 0 && EndsSolid(t)
  {
    hide White, EndsSolid, SpaceAt, TrimLeft, TrimRight;
    var x := TrimLeft(s);
    var t := TrimSpace(s);
    LeftTrimmed(s);
    RightTrimmed(x);
    assert Padded(s, s[..|s| - |x|], t, x[|t|..]) by { assert s == s[..|s| - |x|] + (t + x[|t|..]); }
    StartKept(x, |t|);
  }

  lemma StartKept(x: string, k: nat)
    requires SpaceAt(x) == 0 && k <= |x|
    ensures SpaceAt(x[..k]) == 0
  {
    SpaceAtPrefix(x[..k], x[k..]);
    assert x == x[..k] + x[k..];
  }

  // ----- What is trimmed in the end -----

  // Printable ASCII throughout.
  predicate Solid(s: string) {
    forall i :: 0 <= i < |s| ==> 33 <= s[i] as int < 0x80
  }

  lemma {:induction false} LeadTrimmed(lead: string, x: string)
    requires White(lead) && SpaceAt(x) == 0
    ensures TrimLeft(lead + x) == x
    decreases |lead|
  {
    if lead == "" {
      assert lead + x == x;
    } else {
      var w := SpaceAt(lead);
      SpaceAtPrefix(lead, x);
      assert (lead + x)[w..] == lead[w..] + x;
      LeadTrimmed(lead[w..], x);
    }
  }

  lemma {:induction false} WhiteHasEnd(s: string) returns (n: nat)
    requires White(s) && s != ""
    ensures EndsWithSpace(s, n) && White(s[..|s| - n])
    decreases |s|
  {
    var w := SpaceAt(s);
    var rest := s[w..];
    WholeSpace(s, w);
    if rest == "" {
      assert s[..w] == s && s[..0] == "";
      n := w;
    } else {
      n := WhiteHasEnd(rest);
      assert s[|s| - n..] == rest[|rest| - n..];
      assert s[..|s| - n] == s[..w] + rest[..|rest| - n];
      assert White(s[..w]);
      WhiteAppend(s[..w], rest[..|rest| - n]);
    }
  }

  // The cases of the trimmer exclude each other.
  lemma OneEnd(s: string, m: nat, n: nat)
    requires EndsWithSpace(s, m) && EndsWithSpace(s, n)
    ensures m == n
  {
    assert s[|s| - m..][m - 1] == s[|s| - n..][n - 1] == s[|s| - 1];
    assert m >= 2 && n >= 2 ==> s[|s| - m..][m - 2] == s[|s| - n..][n - 2] == s[|s| - 2];
  }

  lemma {:induction false} TrailTrimmed(x: string, trail: string)
    requires White(trail) && EndsSolid(x)
    ensures TrimRight(x + trail) == x
    decreases |trail|
  {
    hide White, SpaceAt, TrimRight, EndsSolid, EndsWithSpace;
    var s := x + trail;
    var m := TrimRightStep(s);
    if trail == "" {
      assert s == x;
      SolidEnd(s, m);
    } else {
      var n := WhiteHasEnd(trail);
      EndOfBoth(x, trail, n);
      SolidEnd(s, n);
      OneEnd(s, m, n);
      assert s[..|s| - n] == x + trail[..|trail| - n];
      TrailTrimmed(x, trail[..|trail| - n]);
    }
  }

  lemma EndOfBoth(x: string, trail: string, n: nat)
    requires EndsWithSpace(trail, n)
    ensures n <= |trail| && EndsWithSpace(x + trail, n)
  {
    assert (x + trail)[|x + trail| - n..] == trail[|trail| - n..];
  }

  lemma SolidEnd(s: string, n: nat)
    ensures EndsWithSpace(s, n) ==> !EndsSolid(s)
  {
  }

  lemma SolidIsUntrimmed(x: string, y: string)
    requires Solid(x) && x != ""
    ensures SpaceAt(x + y) == 0 && EndsSolid(x)
  {
  }

  // White space around a solid text is what goes.
  lemma TrimPadded(s: string, lead: string, x: string, trail: string)
    requires Padded(s, lead, x, trail) && Solid(x) && x != ""
    ensures TrimSpace(s) == x
  {
    hide White, Solid, TrimLeft, TrimRight, EndsSolid, SpaceAt;
    SolidIsUntrimmed(x, trail);
    LeadTrimmed(lead, x + trail);
    TrailTrimmed(x, trail);
  }
}
