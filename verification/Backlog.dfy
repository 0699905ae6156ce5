// How the pending reports drain over weekly runs: the oldest-first cap of
// internal/publish/publish.go against reports that fail every time.
module Backlog {
  import opened Order

  // The oldest maxPerRun ids; 0 or less is no cap.
  function Batch(ids: seq<string>, cap: int): seq<string> {
    if cap > 0 && |ids| > cap then ids[..cap] else ids
  }

  ghost function Attempted(pending: set<string>, cap: int): set<string> {
    set id | id in Batch(Sorted(pending), cap)
  }

  // What a run leaves pending when exactly the good reports can be published.
  ghost function NextPending(pending: set<string>, good: set<string>, cap: int): set<string> {
    pending - Attempted(pending, cap) * good
  }

  ghost function Weeks(pending: set<string>, good: set<string>, cap: int, n: nat): set<string>
    decreases n
  {
    if n == 0 then pending else Weeks(NextPending(pending, good, cap), good, cap, n - 1)
  }

  ghost function Older(ids: set<string>, id: string): set<string> {
    set x | x in ids && Less(x, id)
  }

  lemma AttemptedSize(pending: set<string>, cap: int)
    ensures Attempted(pending, cap) <= pending
    ensures |Attempted(pending, cap)| == if 0 < cap < |pending| then cap else |pending|
  {
    var ids := Sorted(pending);
    AscendingSize(ids, pending);
    AscendingSize(Batch(ids, cap), Attempted(pending, cap));
  }

  // A report is attempted exactly when fewer than cap are older.
  lemma AttemptedByAge(pending: set<string>, cap: int, id: string)
    requires id in pending && cap > 0
    ensures id in Attempted(pending, cap) <==> |Older(pending, id)| < cap
  {
    var ids := Sorted(pending);
    var batch := Batch(ids, cap);
    var i :| 0 <= i < |ids| && ids[i] == id;
    forall x
      ensures x in ids[..i] <==> x in Older(pending, id)
    {
      if x in Older(pending, id) {
        var j :| 0 <= j < |ids| && ids[j] == x;
        Asymmetric(x, id);
        Irreflexive(id);
      }
    }
    AscendingSize(ids[..i], Older(pending, id));
    if id in batch {
      var j :| 0 <= j < |batch| && batch[j] == id;
      Irreflexive(id);
    }
    if i < cap { assert batch[i] == id; }
  }

  // Removing part of a set takes that many elements away.
  lemma SizeSplit(s: set<string>, part: set<string>)
    ensures |s| == |s * part| + |s - part|
  {
    assert s == s * part + (s - part);
  }

  lemma Subset(s: set<string>, t: set<string>)
    requires s <= t
    ensures |s| <= |t|
  {
    assert t == s + (t - s);
  }

  // One run: the failing reports stay, and at least min(g, cap - b) good ones go.
  lemma OneRun(pending: set<string>, good: set<string>, cap: int)
    ensures var next := NextPending(pending, good, cap);
            && next - good == pending - good
            && next * good <= pending * good
            && (cap <= 0 ==> next == pending - good && next * good == {})
            && (cap > |pending - good| ==>
                  |pending * good| - |next * good| >= if |pending * good| <= cap - |pending - good|
                      then |pending * good| else cap - |pending - good|)
  {
    hide Attempted;
    var a, next := Attempted(pending, cap), NextPending(pending, good, cap);
    AttemptedSize(pending, cap);
    SizeSplit(pending, good);
    SizeSplit(a, good);
    Subset(a - good, pending - good);
    SizeSplit(pending * good, a);
    assert pending * good * a == a * good;
    assert pending * good - a == next * good;
  }

  // How many good reports n runs have room for, when each has room for this many.
  function Room(n: nat, each: nat): nat { n * each }

  // n is at least ceil(g / (cap - b)), with room in every batch; any n > 0 does without a cap.
  ghost predicate Drainable(pending: set<string>, good: set<string>, cap: int, n: nat) {
    if cap <= 0 then n > 0
    else |pending - good| < cap && |pending * good| <= Room(n, cap - |pending - good|)
  }

  // With fewer failing reports than the cap, ceil(g / (cap - b)) runs leave exactly the failing
  // ones pending, however old they are; without a cap one run does.
  lemma {:induction false} Drains(pending: set<string>, good: set<string>, cap: int, n: nat)
    requires Drainable(pending, good, cap, n)
    ensures Weeks(pending, good, cap, n) == pending - good
    decreases n
  {
    hide NextPending, Attempted, Room;
    var next := NextPending(pending, good, cap);
    if n == 0 {
      NoRoom(if cap > 0 then cap - |pending - good| else 0);
      NoneLeft(pending, good);
    } else {
      OneRun(pending, good, cap);
      if cap <= 0 {
        Settled(next, good, cap, n - 1);
      } else {
        RoomForOneMore(n, cap - |pending - good|);
        Drains(next, good, cap, n - 1);
      }
    }
  }

  lemma NoRoom(each: nat)
    ensures Room(0, each) == 0
  {
  }

  lemma NoneLeft(pending: set<string>, good: set<string>)
    requires |pending * good| == 0
    ensures pending - good == pending
  {
    SizeSplit(pending, good);
    assert forall x :: x in pending && x in good ==> x in pending * good;
  }

  lemma RoomForOneMore(n: nat, each: nat)
    requires n > 0
    ensures Room(n, each) == Room(n - 1, each) + each
  {
  }

  lemma {:induction false} WeeksMore(pending: set<string>, good: set<string>, cap: int, n: nat)
    ensures Weeks(pending, good, cap, n + 1) == NextPending(Weeks(pending, good, cap, n), good, cap)
    decreases n
  {
    hide NextPending;
    var next := NextPending(pending, good, cap);
    if n == 0 {
      assert Weeks(next, good, cap, 0) == next;
    } else {
      WeeksMore(next, good, cap, n - 1);
    }
  }

  // With nothing good left, nothing changes.
  lemma {:induction false} Settled(pending: set<string>, good: set<string>, cap: int, n: nat)
    requires pending * good == {}
    ensures Weeks(pending, good, cap, n) == pending
    decreases n
  {
    hide Attempted;
    if n > 0 {
      AttemptedSize(pending, cap);
      assert Attempted(pending, cap) * good <= pending * good;
      assert NextPending(pending, good, cap) == pending;
      Settled(pending, good, cap, n - 1);
    }
  }

  // Which reports the cap can starve: a good one is published in the end exactly when fewer than
  // cap failing reports are older.
  lemma PublishedInTheEnd(pending: set<string>, good: set<string>, cap: int, id: string)
    requires cap > 0 && id in pending * good
    ensures (exists n: nat :: id !in Weeks(pending, good, cap, n)) <==> |Older(pending - good, id)| < cap
  {
    if |Older(pending - good, id)| < cap {
      var n := Reached(pending, good, cap, id);
    } else {
      forall n: nat
        ensures id in Weeks(pending, good, cap, n)
      {
        Starved(pending, good, cap, id, n);
      }
    }
  }

  lemma OlderGrows(s: set<string>, t: set<string>, id: string)
    requires s <= t
    ensures Older(s, id) <= Older(t, id)
  {
    hide Less;
  }

  lemma {:induction false} Starved(pending: set<string>, good: set<string>, cap: int, id: string, n: nat)
    requires cap > 0 && id in pending && |Older(pending - good, id)| >= cap
    ensures id in Weeks(pending, good, cap, n)
    decreases n
  {
    hide Attempted, Older, Less;
    if n > 0 {
      var next := NextPending(pending, good, cap);
      OlderGrows(pending - good, pending, id);
      Subset(Older(pending - good, id), Older(pending, id));
      AttemptedByAge(pending, cap, id);
      assert next - good == pending - good;
      Starved(next, good, cap, id, n - 1);
    }
  }

  lemma {:induction false} Reached(pending: set<string>, good: set<string>, cap: int, id: string) returns (n: nat)
    requires cap > 0 && id in pending * good && |Older(pending - good, id)| < cap
    ensures id !in Weeks(pending, good, cap, n)
    decreases |Older(pending * good, id)|
  {
    var next := NextPending(pending, good, cap);
    AttemptedByAge(pending, cap, id);
    if id in Attempted(pending, cap) {
      assert Weeks(next, good, cap, 0) == next;
      return 1;
    }
    OneRun(pending, good, cap);
    OlderGoodGoes(pending, good, cap, id);
    n := Reached(next, good, cap, id);
    n := n + 1;
  }

  // A batch too full for this report holds an older good one.
  lemma OlderGoodGoes(pending: set<string>, good: set<string>, cap: int, id: string)
    requires cap > 0 && id in pending && id !in Attempted(pending, cap)
    requires |Older(pending - good, id)| < cap
    ensures |Older(NextPending(pending, good, cap) * good, id)| < |Older(pending * good, id)|
  {
    hide Attempted, Less;
    var a, next := Attempted(pending, cap), NextPending(pending, good, cap);
    AttemptedSize(pending, cap);
    AllOlder(pending, cap, id);
    Subset(a, pending - {id});
    if a * good == {} {
      assert forall x :: x in a ==> x !in a * good && x in Older(a, id);
      Subset(a, Older(pending - good, id));
      assert false;
    }
    var x :| x in a * good;
    assert x in Older(pending * good, id) && x !in next;
    Subset(Older(next * good, id), Older(pending * good, id) - {x});
  }

  // What is attempted is older than what is not.
  lemma AllOlder(pending: set<string>, cap: int, id: string)
    requires id in pending && id !in Attempted(pending, cap)
    ensures Attempted(pending, cap) == Older(Attempted(pending, cap), id)
  {
    var ids := Sorted(pending);
    var i :| 0 <= i < |ids| && ids[i] == id;
    assert forall j :: 0 <= j < |Batch(ids, cap)| ==> Batch(ids, cap)[j] == ids[j] && ids[j] in Attempted(pending, cap);
    forall x | x in Attempted(pending, cap)
      ensures Less(x, id)
    {
      var j :| 0 <= j < |Batch(ids, cap)| && Batch(ids, cap)[j] == x;
    }
  }
}
