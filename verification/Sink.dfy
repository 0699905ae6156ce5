// The ingest sink (internal/storage/sink.go): scrub, seal, and put under a fresh pending key.
module Sink {
  import opened Wrappers
  import opened MemoryStore
  import opened StatusKeys
  import opened Lifecycle
  import opened Calendar
  import opened Fences
  import opened Frame
  import opened ReportId
  import opened Pipeline
  import P = Protocol

  datatype StoreResult = Stored | SealError | PutError

  // A sealed report whose Put has been made, as steps of the machine.
  lemma IngestSteps(c: Setup, s: State, pid: nat, id: string, raw: Bytes, nonce: Bytes, ring: Keyring, o: Outcome,
                    before: map<string, Bytes>)
    returns (events: seq<Event>, t: State)
    requires pid !in s.base.procs && id !in s.base.minted
    requires ValidKeyring(ring) && SealFrame(c.aead, ring, c.scrub(raw), nonce).Ok?
    requires Represents(before, s.base.store) && !(s.phase.Marking? && s.phase.pid == pid)
    ensures events == [Ingest(pid, id, raw, nonce, ring)] + [Other(P.PutReport(pid, o))] && Leads(c, s, events, t)
    ensures var frame := SealFrame(c.aead, ring, c.scrub(raw), nonce).value;
            Represents(if o.Lost? then before else before[ReportKey(Pending, id) := frame], t.base.store)
    ensures id in t.origin && t.origin[id] == Origin(raw, ring.active, ring.keys[ring.active])
    ensures t.phase == s.phase && t.server == s.server
    ensures !o.Lost? ==> id in t.base.ingested
  {
    hide Leads, SealFrame, Open, ReportKey;
    var ingest, put := Ingest(pid, id, raw, nonce, ring), Other(P.PutReport(pid, o));
    LeadsOne(c, s, ingest);
    var u := Apply(c, s, ingest);
    t := Apply(c, u, put);
    LeadsThen(c, s, [ingest], u, put, t);
    events := [ingest] + [put];
    PutAgrees(before, s.base.store, id, SealFrame(c.aead, ring, c.scrub(raw), nonce).value);
  }

  lemma PutAgrees(objects: map<string, Bytes>, reports: map<Key, Bytes>, id: string, frame: Bytes)
    requires Represents(objects, reports)
    ensures Represents(objects[ReportKey(Pending, id) := frame], reports[Key(Pending, id) := frame])
  {
    hide ReportKey;
    var key := Key(Pending, id);
    assert Encode(key) == ReportKey(Pending, id);
    forall k: Key
      ensures Encode(k) == Encode(key) ==> k == key
    {
      if Encode(k) == Encode(key) { KeyInjective(k, key); }
    }
  }

  // A minted id has no line break, so the issue body of its report reads back.
  lemma MintedIdPlain(u: int, random: Bytes)
    ensures Plain(NewId(u, random))
  {
    hide DateOf, Plain, PadNat, Hex;
    var date, s := DateOf(u / DAY), u % DAY;
    var day := PadInt(date.year, 4) + PadNat(date.month, 2) + PadNat(date.day, 2) + "T";
    var clock := PadNat(s / HOUR, 2) + PadNat(s % HOUR / MINUTE, 2) + PadNat(s % MINUTE, 2);
    DatePlain(date);
    PadPlain(s / HOUR, 2);
    PadPlain(s % HOUR / MINUTE, 2);
    PadPlain(s % MINUTE, 2);
    PlainAppend(PadNat(s / HOUR, 2), PadNat(s % HOUR / MINUTE, 2));
    PlainAppend(PadNat(s / HOUR, 2) + PadNat(s % HOUR / MINUTE, 2), PadNat(s % MINUTE, 2));
    PlainAppend(day, clock);
    assert Timestamp(u) == day + clock;
    HexPlain(random);
    SignPlain();
    PlainAppend(Timestamp(u), "-");
    PlainAppend(Timestamp(u) + "-", Hex(random));
  }

  lemma SignPlain()
    ensures Plain("-") && Plain("T")
  {
  }

  lemma DatePlain(date: Date)
    requires date.month >= 0 && date.day >= 0
    ensures Plain(PadInt(date.year, 4) + PadNat(date.month, 2) + PadNat(date.day, 2) + "T")
  {
    hide Plain, PadNat;
    var n := if date.year < 0 then -date.year else date.year;
    PadPlain(n, 4);
    SignPlain();
    PlainAppend("-", PadNat(n, 4));
    PadPlain(date.month, 2);
    PadPlain(date.day, 2);
    PlainAppend(PadInt(date.year, 4), PadNat(date.month, 2));
    PlainAppend(PadInt(date.year, 4) + PadNat(date.month, 2), PadNat(date.day, 2));
    PlainAppend(PadInt(date.year, 4) + PadNat(date.month, 2) + PadNat(date.day, 2), "T");
  }

  lemma {:induction false} PadPlain(n: nat, w: nat)
    ensures Plain(PadNat(n, w))
    decreases n, w
  {
    if !(n < 10 && w <= 1) { PadPlain(n / 10, if w == 0 then 0 else w - 1); }
  }

  lemma {:induction false} HexPlain(b: Bytes)
    ensures Plain(Hex(b))
  {
    if b != [] { HexPlain(b[1..]); }
  }

  // The id of a report stored now, with this source of random bytes.
  function MintedId(now: int, source: nat -> Byte): string {
    NewId(now, seq(RANDOM_SIZE, (i: nat) => source(i)))
  }

  // Two reports go under one key only when they are minted in the same second with the same ten
  // random bytes; so no other Put of the sink overwrites a stored report.
  lemma MintedApart(now: int, source: nat -> Byte, later: int, other: nat -> Byte)
    requires InRange(now) && InRange(later)
    requires ReportKey(Pending, MintedId(now, source)) == ReportKey(Pending, MintedId(later, other))
    ensures now == later && forall i: nat :: i < 10 ==> source(i) == other(i)
  {
    hide NewId, ReportKey;
    var a, b := seq(RANDOM_SIZE, (i: nat) => source(i)), seq(RANDOM_SIZE, (i: nat) => other(i));
    assert ReportKey(Pending, MintedId(now, source)) == Encode(Key(Pending, MintedId(now, source)));
    assert ReportKey(Pending, MintedId(later, other)) == Encode(Key(Pending, MintedId(later, other)));
    KeyInjective(Key(Pending, MintedId(now, source)), Key(Pending, MintedId(later, other)));
    IdsDiffer(now, later, a, b);
    forall i: nat | i < 10
      ensures source(i) == other(i)
    {
      assert a[i] == source(i) && b[i] == other(i);
    }
  }

  class Sink {
    const store: RemoteStore
    const keyring: Keyring
    const setup: Setup

    constructor (store: RemoteStore, keyring: Keyring, setup: Setup)
      ensures this.store == store && this.keyring == keyring && this.setup == setup
    {
      this.store, this.keyring, this.setup := store, keyring, setup;
    }

    // Store: nothing but the sealed, scrubbed report ever reaches the store, under a fresh id.
    // The keyring may be older than the secret in force: the Worker keeps one for its lifetime. s is
    // the state of the pipeline that its Put meets, t the one after.
    method Store(raw: Bytes, nonce: Bytes, now: int, source: nat -> Byte, ghost s: State)
      returns (r: StoreResult, ghost events: seq<Event>, ghost t: State)
      requires ValidKeyring(keyring)
      modifies store, store.backing
      ensures var id := MintedId(now, source);
              var sealed := SealFrame(setup.aead, keyring, setup.scrub(raw), nonce);
              var o := store.fault(old(store.calls));
              && r == (if sealed.Err? then SealError else if o.Done? then Stored else PutError)
              && store.backing.objects == (if sealed.Err? then old(store.backing.objects)
                                           else if o.Lost? then old(store.Met())
                                           else old(store.Met())[ReportKey(Pending, id) := sealed.value])
              && store.calls == old(store.calls) + (if sealed.Err? then 0 else 1)
      ensures Lawful(setup.aead) && r.Stored? ==>
                var key := ReportKey(Pending, MintedId(now, source));
                && key in store.backing.objects
                && Open(setup.aead, keyring, store.backing.objects[key]) == Ok(setup.scrub(raw))
      ensures var id := MintedId(now, source);
              && !r.SealError? && id !in s.base.minted
              && Represents(old(store.Met()), s.base.store) ==>
                && Leads(setup, s, events, t) && Represents(store.backing.objects, t.base.store)
                && id in t.origin && t.origin[id] == Origin(raw, keyring.active, keyring.keys[keyring.active])
                && (r.Stored? ==> id in t.base.ingested)
    {
      hide Leads, Open, Lawful, Represents, NewId, ReportKey, Enabled, Apply;
      events, t := [], s;
      var scrubbed := setup.scrub(raw);
      var sealed := SealWithNonce(setup.aead, keyring, scrubbed, nonce);
      if sealed.Err? { return SealError, events, t; }
      if Lawful(setup.aead) { OpenInvertsSeal(setup.aead, keyring, scrubbed, nonce, keyring); }
      ghost var met, o := store.Met(), store.fault(store.calls);
      var id := NewReportID(now, source);
      var ok := store.Put(ReportKey(Pending, id), sealed.value);
      if id !in s.base.minted && Represents(met, s.base.store) {
        ghost var pid := FreshPid(s);
        events, t := IngestSteps(setup, s, pid, id, raw, nonce, keyring, o, met);
      }
      return if ok then Stored else PutError, events, t;
    }
  }
}
