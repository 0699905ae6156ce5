// The bytewise order of Go strings, and the sorted, duplicate-free listing of a set of keys.
// Both object stores list keys in this order, and the publisher relies on it being oldest first.
module Order {
  predicate Less(a: string, b: string) {
    b != [] && (a == [] || a[0] < b[0] || (a[0] == b[0] && Less(a[1..], b[1..])))
  }

  // Strictly ascending, hence without duplicates.
  ghost predicate Ascending(s: seq<string>) {
    forall i, j :: 0 <= i < j < |s| ==> Less(s[i], s[j])
  }

  lemma {:induction false} Irreflexive(a: string)
    ensures !Less(a, a)
  {
    if a != [] { Irreflexive(a[1..]); }
  }

  lemma {:induction false} Transitive(a: string, b: string, c: string)
    requires Less(a, b) && Less(b, c)
    ensures Less(a, c)
  {
    if a != [] && a[0] == b[0] && b[0] == c[0] { Transitive(a[1..], b[1..], c[1..]); }
  }

  lemma {:induction false} Asymmetric(a: string, b: string)
    ensures !(Less(a, b) && Less(b, a))
  {
    if a != [] && b != [] { Asymmetric(a[1..], b[1..]); }
  }

  lemma {:induction false} Total(a: string, b: string)
    ensures a == b || Less(a, b) || Less(b, a)
  {
    if a != [] && b != [] && a[0] == b[0] {
      Total(a[1..], b[1..]);
      assert a == [a[0]] + a[1..] && b == [b[0]] + b[1..];
    }
  }

  // Equal-length prefixes decide the order unless they are equal.
  lemma {:induction false} LessByParts(p: string, s: string, q: string, t: string)
    requires |p| == |q|
    ensures Less(p + s, q + t) <==> Less(p, q) || (p == q && Less(s, t))
  {
    if p == [] {
      assert p + s == s && q + t == t;
    } else {
      assert (p + s)[1..] == p[1..] + s && (q + t)[1..] == q[1..] + t;
      LessByParts(p[1..], s, q[1..], t);
      assert p == [p[0]] + p[1..] && q == [q[0]] + q[1..];
    }
  }

  // A common prefix does not change the order.
  lemma LessUnderPrefix(p: string, a: string, b: string)
    ensures Less(p + a, p + b) <==> Less(a, b)
  {
    LessByParts(p, a, p, b);
    Irreflexive(p);
  }

  ghost function Least(s: set<string>): (m: string)
    requires s != {}
    ensures m in s
    ensures forall x :: x in s && x != m ==> Less(m, x)
  {
    var x :| x in s;
    if s == {x} then x
    else
      var m := Least(s - {x});
      Total(x, m);
      if Less(x, m) then
        assert forall y :: y in s && y != x && y != m ==> Less(x, y) by {
          forall y | y in s && y != x && y != m ensures Less(x, y) { Transitive(x, m, y); }
        }
        x
      else m
  }

  // The keys of s in ascending order: what List promises (store.go).
  ghost function Sorted(s: set<string>): (r: seq<string>)
    ensures Ascending(r)
    ensures forall x :: x in r <==> x in s
  {
    if s == {} then []
    else
      var m := Least(s);
      [m] + Sorted(s - {m})
  }

  // An ascending sequence is determined by its elements.
  lemma {:induction false} AscendingUnique(a: seq<string>, b: seq<string>)
    requires Ascending(a) && Ascending(b)
    requires forall x :: x in a <==> x in b
    ensures a == b
  {
    HasMember(a);
    HasMember(b);
    if a != [] && b != [] {
      assert a[0] in b;
      assert b[0] in a;
      var i :| 0 <= i < |b| && b[i] == a[0];
      var j :| 0 <= j < |a| && a[j] == b[0];
      assert i > 0 ==> Less(b[0], b[i]);
      assert j > 0 ==> Less(a[0], a[j]);
      Asymmetric(a[0], b[0]);
      AscendingTail(a);
      AscendingTail(b);
      AscendingUnique(a[1..], b[1..]);
    }
  }

  lemma HasMember(a: seq<string>)
    ensures a != [] ==> exists x :: x in a
  {
    if a != [] { assert a[0] in a; }
  }

  lemma AscendingTail(a: seq<string>)
    requires Ascending(a) && a != []
    ensures Ascending(a[1..])
    ensures forall x :: x in a[1..] <==> x in a && x != a[0]
  {
    forall x | x in a[1..]
      ensures x != a[0]
    {
      var i :| 0 <= i < |a| - 1 && a[1..][i] == x;
      assert Less(a[0], a[i + 1]);
      Irreflexive(x);
    }
  }

  // An ascending sequence lists each element once, so its length is the size of its element set.
  lemma {:induction false} AscendingSize(a: seq<string>, s: set<string>)
    requires Ascending(a)
    requires forall x :: x in a <==> x in s
    ensures |a| == |s|
  {
    if a == [] {
      assert s == {};
    } else {
      AscendingTail(a);
      assert a[0] in s;
      AscendingSize(a[1..], s - {a[0]});
    }
  }

  // sort.Strings on distinct keys.
  method SortStrings(keys: seq<string>) returns (r: seq<string>)
    requires forall i, j :: 0 <= i < j < |keys| ==> keys[i] != keys[j]
    ensures Ascending(r)
    ensures forall x :: x in r <==> x in keys
    ensures |r| == |keys|
  {
    r := [];
    for n := 0 to |keys|
      invariant Ascending(r) && |r| == n
      invariant forall x :: x in r <==> x in keys[..n]
    {
      var k := keys[n];
      assert k !in keys[..n];
      var i := 0;
      while i < |r| && Less(r[i], k)
        invariant 0 <= i <= |r|
        invariant forall j :: 0 <= j < i ==> Less(r[j], k)
      {
        i := i + 1;
      }
      forall j | i <= j < |r|
        ensures Less(k, r[j])
      {
        Total(k, r[i]);
        assert r[i] in r;
        if j > i { Transitive(k, r[i], r[j]); }
      }
      var next := r[..i] + [k] + r[i..];
      assert forall x :: x in next <==> x in r || x == k by {
        assert r == r[..i] + r[i..];
      }
      assert keys[..n + 1] == keys[..n] + [k];
      r := next;
    }
    assert keys[..|keys|] == keys;
  }
}
