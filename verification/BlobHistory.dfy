/** The store against a plain reference: a list of live blobs, oldest first. */
module BlobHistory {
  import opened Common
  import opened BlobStore

  datatype Blob = Blob(id: BlobId, entry: Entry)

  ghost function Bytes(blobs: seq<Blob>): nat {
    if blobs == [] then 0 else |blobs[0].entry.bytes| + Bytes(blobs[1..])
  }

  ghost function Unexpired(blobs: seq<Blob>, now: int): seq<Blob> {
    if blobs == [] then []
    else (if blobs[0].entry.expiresAt > now then [blobs[0]] else []) + Unexpired(blobs[1..], now)
  }

  ghost function Fitting(blobs: seq<Blob>, incoming: nat): seq<Blob> {
    if blobs == [] || Bytes(blobs) + incoming <= MAX_STORE_BYTES then blobs else Fitting(blobs[1..], incoming)
  }

  ghost function Removed(blobs: seq<Blob>, id: BlobId): seq<Blob> {
    if blobs == [] then []
    else if blobs[0].id == id then Removed(blobs[1..], id)
    else [blobs[0]] + Removed(blobs[1..], id)
  }

  /** Eviction drops the shortest oldest prefix that makes room. */
  lemma {:induction false} EvictsShortestPrefix(blobs: seq<Blob>, incoming: nat)
    requires incoming <= MAX_STORE_BYTES
    ensures exists n :: IsShortestPrefix(blobs, incoming, n) && Fitting(blobs, incoming) == blobs[n..]
  {
    if blobs == [] || Bytes(blobs) + incoming <= MAX_STORE_BYTES {
      assert blobs[0..] == blobs;
      assert IsShortestPrefix(blobs, incoming, 0);
    } else {
      EvictsShortestPrefix(blobs[1..], incoming);
      var n :| IsShortestPrefix(blobs[1..], incoming, n) && Fitting(blobs[1..], incoming) == blobs[1..][n..];
      assert blobs[1..][n..] == blobs[n + 1..];
      forall k | 0 <= k < n + 1 ensures Bytes(blobs[k..]) + incoming > MAX_STORE_BYTES {
        if k == 0 {
          assert blobs[0..] == blobs;
        } else {
          assert blobs[k..] == blobs[1..][k - 1..];
        }
      }
      assert IsShortestPrefix(blobs, incoming, n + 1);
    }
  }

  ghost predicate IsShortestPrefix(blobs: seq<Blob>, incoming: nat, n: int) {
    && 0 <= n <= |blobs| && Bytes(blobs[n..]) + incoming <= MAX_STORE_BYTES
    && forall k :: 0 <= k < n ==> Bytes(blobs[k..]) + incoming > MAX_STORE_BYTES
  }

  // ---------------------------------------------------------------- what the store amounts to

  /** The resident blobs in FIFO order. */
  ghost function Resident(fifo: seq<BlobId>, entries: map<BlobId, Entry>): seq<Blob> {
    if fifo == [] then []
    else (if fifo[0] in entries then [Blob(fifo[0], entries[fifo[0]])] else []) + Resident(fifo[1..], entries)
  }

  ghost function View(s: Store): seq<Blob> {
    Resident(s.fifo, s.entries)
  }

  ghost predicate Distinct(fifo: seq<BlobId>) {
    forall i, j :: 0 <= i < j < |fifo| ==> fifo[i] != fifo[j]
  }

  ghost predicate ByExpiry(blobs: seq<Blob>) {
    forall i, j :: 0 <= i < j < |blobs| ==> blobs[i].entry.expiresAt <= blobs[j].entry.expiresAt
  }

  /** What times in lock order and fresh ids keep: distinct ids, oldest expiry first. */
  ghost predicate Orderly(s: Store, clock: int) {
    && Distinct(s.fifo) && ByExpiry(View(s)) && s.total == Bytes(View(s))
    && (forall id :: id in s.entries ==> id in s.fifo)
    && (forall i :: 0 <= i < |View(s)| ==> View(s)[i].entry.expiresAt <= clock + TTL)
  }

  lemma {:induction false} ResidentIgnores(fifo: seq<BlobId>, entries: map<BlobId, Entry>, id: BlobId)
    requires id !in fifo
    ensures Resident(fifo, entries - {id}) == Resident(fifo, entries)
  {
    if fifo == [] {
    } else {
      ResidentIgnores(fifo[1..], entries, id);
    }
  }

  lemma {:induction false} ResidentIgnoresNew(fifo: seq<BlobId>, entries: map<BlobId, Entry>, id: BlobId, e: Entry)
    requires id !in fifo
    ensures Resident(fifo, entries[id := e]) == Resident(fifo, entries)
  {
    if fifo == [] {
    } else {
      ResidentIgnoresNew(fifo[1..], entries, id, e);
    }
  }

  lemma {:induction false} ResidentConcat(a: seq<BlobId>, b: seq<BlobId>, entries: map<BlobId, Entry>)
    ensures Resident(a + b, entries) == Resident(a, entries) + Resident(b, entries)
  {
    if a == [] {
      assert a + b == b;
    } else {
      assert (a + b)[1..] == a[1..] + b;
      ResidentConcat(a[1..], b, entries);
    }
  }

  lemma {:induction false} ResidentMembers(fifo: seq<BlobId>, entries: map<BlobId, Entry>)
    ensures forall b :: b in Resident(fifo, entries) <==> b.id in fifo && b.id in entries && entries[b.id] == b.entry
  {
    if fifo == [] {
    } else {
      ResidentMembers(fifo[1..], entries);
    }
  }

  lemma {:induction false} BytesConcat(a: seq<Blob>, b: seq<Blob>)
    ensures Bytes(a + b) == Bytes(a) + Bytes(b)
  {
    if a == [] {
      assert a + b == b;
    } else {
      assert (a + b)[1..] == a[1..] + b;
      BytesConcat(a[1..], b);
    }
  }

  // ---------------------------------------------------------------- the operations on the view

  /** Popping the front id removes the front blob, if the id is live. */
  lemma PopFront(s: Store, clock: int)
    requires Orderly(s, clock) && s.fifo != []
    ensures var s' := Without(s, s.fifo[0]).(fifo := s.fifo[1..]);
      && Orderly(s', clock)
      && View(s) == (if s.fifo[0] in s.entries then [Blob(s.fifo[0], s.entries[s.fifo[0]])] else []) + View(s')
  {
    ResidentIgnores(s.fifo[1..], s.entries, s.fifo[0]);
    var s' := Without(s, s.fifo[0]).(fifo := s.fifo[1..]);
    assert View(s') == Resident(s.fifo[1..], s.entries);
    if s.fifo[0] in s.entries {
      assert View(s)[1..] == View(s');
    } else {
      assert View(s) == View(s');
    }
  }

  lemma {:induction false} NoneExpired(blobs: seq<Blob>, now: int)
    requires forall i :: 0 <= i < |blobs| ==> blobs[i].entry.expiresAt > now
    ensures Unexpired(blobs, now) == blobs
  {
    if blobs == [] {
    } else {
      NoneExpired(blobs[1..], now);
    }
  }

  /** The front-only sweep is the full expiry filter. */
  lemma {:induction false} SweepFilters(s: Store, clock: int, now: int)
    requires Orderly(s, clock)
    ensures View(Sweep(s, now)) == Unexpired(View(s), now) && Orderly(Sweep(s, now), clock)
    decreases |s.fifo|
  {
    if s.fifo == [] {
    } else {
      PopFront(s, clock);
      if s.fifo[0] in s.entries && s.entries[s.fifo[0]].expiresAt > now {
        assert View(s)[0].entry.expiresAt > now;
        NoneExpired(View(s), now);
      } else {
        var s' := Without(s, s.fifo[0]).(fifo := s.fifo[1..]);
        SweepFilters(s', clock, now);
        assert View(s) != View(s') ==> View(s)[1..] == View(s');
      }
    }
  }

  lemma {:induction false} EvictFits(s: Store, clock: int, incoming: nat)
    requires Orderly(s, clock)
    ensures View(Evict(s, incoming)) == Fitting(View(s), incoming) && Orderly(Evict(s, incoming), clock)
    decreases |s.fifo|
  {
    if s.fifo == [] || s.total + incoming <= MAX_STORE_BYTES {
    } else {
      var s' := Without(s, s.fifo[0]).(fifo := s.fifo[1..]);
      PopFront(s, clock);
      EvictFits(s', clock, incoming);
      if s.fifo[0] in s.entries {
        assert View(s)[1..] == View(s');
      } else {
        assert View(s) == View(s');
      }
    }
  }

  lemma InsertAppends(s: Store, clock: int, id: BlobId, bytes: seq<bv8>, mime: string, now: int)
    requires Orderly(s, clock) && id !in s.fifo && clock <= now
    ensures var s' := Insert(s, id, bytes, mime, now);
      View(s') == View(s) + [Blob(id, Entry(bytes, mime, now + TTL))] && Orderly(s', now)
  {
    var e := Entry(bytes, mime, now + TTL);
    ResidentConcat(s.fifo, [id], s.entries[id := e]);
    ResidentIgnoresNew(s.fifo, s.entries, id, e);
    assert Resident([id], s.entries[id := e]) == [Blob(id, e)] + [];
    BytesConcat(View(s), [Blob(id, e)]);
  }

  lemma ResidentStep(fifo: seq<BlobId>, entries: map<BlobId, Entry>)
    requires fifo != []
    ensures var rest := Resident(fifo[1..], entries);
      Resident(fifo, entries) == if fifo[0] in entries then [Blob(fifo[0], entries[fifo[0]])] + rest else rest
  {
  }

  lemma {:induction false} ResidentWithout(fifo: seq<BlobId>, entries: map<BlobId, Entry>, id: BlobId)
    ensures Resident(fifo, entries - {id}) == Removed(Resident(fifo, entries), id)
  {
    if fifo == [] {
    } else {
      ResidentWithout(fifo[1..], entries, id);
      ResidentStep(fifo, entries);
      ResidentStep(fifo, entries - {id});
      if fifo[0] in entries {
        assert Resident(fifo, entries)[1..] == Resident(fifo[1..], entries);
      }
    }
  }

  lemma {:induction false} BytesWithout(fifo: seq<BlobId>, entries: map<BlobId, Entry>, id: BlobId)
    requires Distinct(fifo) && id in entries && id in fifo
    ensures Bytes(Resident(fifo, entries)) == Bytes(Resident(fifo, entries - {id})) + |entries[id].bytes|
  {
    ResidentStep(fifo, entries);
    ResidentStep(fifo, entries - {id});
    if fifo[0] in entries {
      assert Resident(fifo, entries)[1..] == Resident(fifo[1..], entries);
    }
    if fifo[0] == id {
      ResidentIgnores(fifo[1..], entries, id);
    } else {
      BytesWithout(fifo[1..], entries, id);
      if fifo[0] in entries {
        assert Resident(fifo, entries - {id})[1..] == Resident(fifo[1..], entries - {id});
      }
    }
  }

  lemma {:induction false} RemovedMembers(blobs: seq<Blob>, id: BlobId)
    ensures forall b :: b in Removed(blobs, id) <==> b in blobs && b.id != id
  {
    if blobs == [] {
    } else {
      RemovedMembers(blobs[1..], id);
    }
  }

  lemma {:induction false} RemovedIsByExpiry(blobs: seq<Blob>, id: BlobId)
    requires ByExpiry(blobs)
    ensures ByExpiry(Removed(blobs, id))
  {
    if blobs == [] {
    } else {
      var rest := Removed(blobs[1..], id);
      RemovedIsByExpiry(blobs[1..], id);
      RemovedMembers(blobs[1..], id);
      forall i | 0 <= i < |rest| ensures blobs[0].entry.expiresAt <= rest[i].entry.expiresAt {
        assert rest[i] in rest;
        var k :| 0 <= k < |blobs[1..]| && blobs[1..][k] == rest[i];
        assert blobs[k + 1] == rest[i];
      }
    }
  }

  lemma ConsumeRemoves(s: Store, clock: int, id: BlobId)
    requires Orderly(s, clock)
    ensures View(Without(s, id)) == Removed(View(s), id) && Orderly(Without(s, id), clock)
  {
    ResidentWithout(s.fifo, s.entries, id);
    if id in s.entries {
      BytesWithout(s.fifo, s.entries, id);
    }
    RemovedMembers(View(s), id);
    RemovedIsByExpiry(View(s), id);
    var v := Removed(View(s), id);
    forall i | 0 <= i < |v| ensures v[i].entry.expiresAt <= clock + TTL {
      assert v[i] in v;
    }
    if id !in s.entries {
      assert s.entries - {id} == s.entries;
    }
  }

  // ---------------------------------------------------------------- runs

  ghost function Clock(events: seq<Event>): int {
    if events == [] then 0 else events[|events| - 1].now
  }

  /** Times do not run backwards in lock order, starting from 0, and no id is drawn that the FIFO still
      holds, dead or alive. */
  ghost predicate OrderlyRun(events: seq<Event>) {
    events != [] ==>
      var earlier, e := events[..|events| - 1], events[|events| - 1];
      && OrderlyRun(earlier) && Clock(earlier) <= e.now
      && (e.Put? ==> Fresh(Run(earlier), e))
  }

  ghost predicate Fresh(s: Store, e: Event)
    requires e.Put?
  {
    var outcome := PutOutcome(s, e.bytes, e.now, e.draws);
    outcome.Stored? ==> outcome.id !in s.fifo
  }

  /** The reference: what an operation does to the list of blobs, given the id a put ends up with. */
  ghost function ListStep(blobs: seq<Blob>, e: Event, outcome: PutResult): seq<Blob> {
    match e
    case Put(bytes, mime, now, _) =>
      if outcome.TooLarge? then blobs
      else
        var room := Fitting(Unexpired(blobs, now), |bytes|);
        if outcome.Stored? then room + [Blob(outcome.id, Entry(bytes, mime, now + TTL))] else room
    case Get(id, consume, now) => if consume then Removed(Unexpired(blobs, now), id) else Unexpired(blobs, now)
    case SweepExpired(now) => Unexpired(blobs, now)
  }

  ghost function OutcomeOf(s: Store, e: Event): PutResult {
    if e.Put? then PutOutcome(s, e.bytes, e.now, e.draws) else TooLarge
  }

  lemma OrderlyLater(s: Store, clock: int, later: int)
    requires Orderly(s, clock) && clock <= later
    ensures Orderly(s, later)
  {
  }

  lemma {:induction false} SweepShortensFifo(s: Store, now: int)
    ensures forall id :: id in Sweep(s, now).fifo ==> id in s.fifo
    decreases |s.fifo|
  {
    if s.fifo == [] {
    } else {
      SweepShortensFifo(Without(s, s.fifo[0]).(fifo := s.fifo[1..]), now);
    }
  }

  lemma {:induction false} EvictShortensFifo(s: Store, incoming: nat)
    ensures forall id :: id in Evict(s, incoming).fifo ==> id in s.fifo
    decreases |s.fifo|
  {
    if s.fifo == [] {
    } else {
      EvictShortensFifo(Without(s, s.fifo[0]).(fifo := s.fifo[1..]), incoming);
    }
  }

  lemma RoomIsMade(s: Store, bytes: seq<bv8>, now: int)
    requires Orderly(s, now)
    ensures View(MakeRoom(s, bytes, now)) == Fitting(Unexpired(View(s), now), |bytes|)
    ensures Orderly(MakeRoom(s, bytes, now), now)
    ensures forall id :: id in MakeRoom(s, bytes, now).fifo ==> id in s.fifo
  {
    SweepFilters(s, now, now);
    EvictFits(Sweep(s, now), now, |bytes|);
    SweepShortensFifo(s, now);
    EvictShortensFifo(Sweep(s, now), |bytes|);
  }

  lemma PutRefinesList(s: Store, e: Event)
    requires e.Put? && Orderly(s, e.now) && Fresh(s, e)
    ensures View(Step(s, e)) == ListStep(View(s), e, OutcomeOf(s, e)) && Orderly(Step(s, e), e.now)
  {
    RoomIsMade(s, e.bytes, e.now);
    var outcome := OutcomeOf(s, e);
    if outcome.Stored? {
      var room := MakeRoom(s, e.bytes, e.now);
      InsertAppends(room, e.now, outcome.id, e.bytes, e.mime, e.now);
      assert Step(s, e) == Insert(room, outcome.id, e.bytes, e.mime, e.now);
    }
  }

  /** The map, the lazy FIFO and the counter do exactly what the plain list does. */
  lemma StepRefinesList(s: Store, clock: int, e: Event)
    requires Orderly(s, clock) && clock <= e.now && (e.Put? ==> Fresh(s, e))
    ensures View(Step(s, e)) == ListStep(View(s), e, OutcomeOf(s, e))
    ensures Orderly(Step(s, e), e.now)
  {
    OrderlyLater(s, clock, e.now);
    match e
    case Put(_, _, _, _) => PutRefinesList(s, e);
    case Get(id, consume, now) =>
      SweepFilters(s, now, now);
      ConsumeRemoves(Sweep(s, now), now, id);
    case SweepExpired(now) => SweepFilters(s, now, now);
  }

  /** The last event of an orderly run, on the list. */
  lemma RunStepRefinesList(earlier: seq<Event>, e: Event)
    requires OrderlyRun(earlier + [e])
    ensures OrderlyRun(earlier) && Clock(earlier) <= e.now == Clock(earlier + [e])
    ensures View(Run(earlier + [e])) == ListStep(View(Run(earlier)), e, OutcomeOf(Run(earlier), e))
  {
    assert (earlier + [e])[..|earlier|] == earlier;
    RunIsOrderly(earlier);
    StepRefinesList(Run(earlier), Clock(earlier), e);
  }

  lemma {:induction false} RunIsOrderly(events: seq<Event>)
    requires OrderlyRun(events)
    ensures Orderly(Run(events), Clock(events))
  {
    if events == [] {
    } else {
      var earlier := events[..|events| - 1];
      RunIsOrderly(earlier);
      StepRefinesList(Run(earlier), Clock(earlier), events[|events| - 1]);
    }
  }

  // ---------------------------------------------------------------- how long a blob is kept

  /** The blob is there, and it and everything after it take at most this many bytes. */
  ghost predicate KeptWithin(blobs: seq<Blob>, b: Blob, budget: int) {
    exists i :: 0 <= i < |blobs| && blobs[i] == b && Bytes(blobs[i..]) <= budget
  }

  lemma {:induction false} UnexpiredShrinks(blobs: seq<Blob>, now: int)
    ensures Bytes(Unexpired(blobs, now)) <= Bytes(blobs)
  {
    if blobs == [] {
    } else {
      UnexpiredShrinks(blobs[1..], now);
      if blobs[0].entry.expiresAt > now {
        assert Unexpired(blobs, now)[1..] == Unexpired(blobs[1..], now);
      } else {
        assert Unexpired(blobs, now) == Unexpired(blobs[1..], now);
      }
    }
  }

  lemma {:induction false} UnexpiredKeeps(blobs: seq<Blob>, now: int, b: Blob, budget: int)
    requires KeptWithin(blobs, b, budget) && b.entry.expiresAt > now
    ensures KeptWithin(Unexpired(blobs, now), b, budget)
  {
    var i :| 0 <= i < |blobs| && blobs[i] == b && Bytes(blobs[i..]) <= budget;
    if i == 0 {
      assert blobs[0..] == blobs;
      UnexpiredShrinks(blobs, now);
      var kept := Unexpired(blobs, now);
      assert kept[0] == b && kept[0..] == kept;
    } else {
      assert blobs[1..][i - 1] == b && blobs[1..][i - 1..] == blobs[i..];
      UnexpiredKeeps(blobs[1..], now, b, budget);
      if blobs[0].entry.expiresAt > now {
        PrependKeeps(blobs[0], Unexpired(blobs[1..], now), b, budget);
      } else {
        assert Unexpired(blobs, now) == Unexpired(blobs[1..], now);
      }
    }
  }

  lemma {:induction false} FittingKeeps(blobs: seq<Blob>, incoming: nat, b: Blob, budget: int)
    requires KeptWithin(blobs, b, budget) && budget + incoming <= MAX_STORE_BYTES
    ensures KeptWithin(Fitting(blobs, incoming), b, budget)
  {
    if Bytes(blobs) + incoming <= MAX_STORE_BYTES {
    } else {
      var i :| 0 <= i < |blobs| && blobs[i] == b && Bytes(blobs[i..]) <= budget;
      assert blobs[0..] == blobs;
      assert blobs[1..][i - 1] == b && blobs[1..][i - 1..] == blobs[i..];
      FittingKeeps(blobs[1..], incoming, b, budget);
    }
  }

  lemma PrependKeeps(first: Blob, rest: seq<Blob>, b: Blob, budget: int)
    requires KeptWithin(rest, b, budget)
    ensures KeptWithin([first] + rest, b, budget)
  {
    var j :| 0 <= j < |rest| && rest[j] == b && Bytes(rest[j..]) <= budget;
    assert ([first] + rest)[j + 1] == b && ([first] + rest)[j + 1..] == rest[j..];
  }

  lemma {:induction false} RemovedKeeps(blobs: seq<Blob>, id: BlobId, b: Blob, budget: int)
    requires KeptWithin(blobs, b, budget) && b.id != id
    ensures KeptWithin(Removed(blobs, id), b, budget)
  {
    var i :| 0 <= i < |blobs| && blobs[i] == b && Bytes(blobs[i..]) <= budget;
    if i == 0 {
      assert blobs[0..] == blobs;
      RemovedShrinks(blobs, id);
      var kept := Removed(blobs, id);
      assert kept[0] == b && kept[0..] == kept;
    } else {
      assert blobs[1..][i - 1] == b && blobs[1..][i - 1..] == blobs[i..];
      RemovedKeeps(blobs[1..], id, b, budget);
      if blobs[0].id != id {
        PrependKeeps(blobs[0], Removed(blobs[1..], id), b, budget);
      }
    }
  }

  lemma {:induction false} RemovedShrinks(blobs: seq<Blob>, id: BlobId)
    ensures Bytes(Removed(blobs, id)) <= Bytes(blobs)
  {
    if blobs == [] {
    } else {
      RemovedShrinks(blobs[1..], id);
      assert blobs[0].id != id ==> Removed(blobs, id)[1..] == Removed(blobs[1..], id);
    }
  }

  lemma AppendKeeps(blobs: seq<Blob>, last: Blob, b: Blob, budget: int)
    requires KeptWithin(blobs, b, budget)
    ensures KeptWithin(blobs + [last], b, budget + |last.entry.bytes|)
  {
    var i :| 0 <= i < |blobs| && blobs[i] == b && Bytes(blobs[i..]) <= budget;
    assert (blobs + [last])[i..] == blobs[i..] + [last];
    BytesConcat(blobs[i..], [last]);
    assert (blobs + [last])[i] == b;
  }

  /** Bytes of a put that can make others give way. */
  ghost function PutBytes(e: Event): nat {
    if e.Put? && |e.bytes| <= MAX_BLOB_BYTES then |e.bytes| else 0
  }

  ghost function AllPutBytes(events: seq<Event>): nat {
    if events == [] then 0 else AllPutBytes(events[..|events| - 1]) + PutBytes(events[|events| - 1])
  }

  lemma ListStepKeeps(blobs: seq<Blob>, e: Event, outcome: PutResult, b: Blob, budget: int)
    requires KeptWithin(blobs, b, budget) && b.entry.expiresAt > e.now
    requires e.Get? && e.consume ==> e.id != b.id
    requires e.Put? ==> (outcome.TooLarge? <==> |e.bytes| > MAX_BLOB_BYTES)
    requires budget + PutBytes(e) <= MAX_STORE_BYTES
    ensures KeptWithin(ListStep(blobs, e, outcome), b, budget + PutBytes(e))
  {
    UnexpiredKeeps(blobs, e.now, b, budget);
    match e
    case Put(bytes, mime, now, _) =>
      if !outcome.TooLarge? {
        var room := Fitting(Unexpired(blobs, now), |bytes|);
        FittingKeeps(Unexpired(blobs, now), |bytes|, b, budget);
        if outcome.Stored? {
          AppendKeeps(room, Blob(outcome.id, Entry(bytes, mime, now + TTL)), b, budget);
        }
      }
    case Get(id, consume, now) =>
      if consume {
        RemovedKeeps(Unexpired(blobs, now), id, b, budget);
      }
    case SweepExpired(now) =>
  }

  ghost predicate NeverConsumed(events: seq<Event>, id: BlobId) {
    forall i :: 0 <= i < |events| ==> !(events[i].Get? && events[i].consume && events[i].id == id)
  }

  /** The blob the last of these events stored. */
  ghost function JustStored(events: seq<Event>): Blob
    requires events != [] && events[|events| - 1].Put?
    requires OutcomeOf(Run(events[..|events| - 1]), events[|events| - 1]).Stored?
  {
    var put := events[|events| - 1];
    Blob(OutcomeOf(Run(events[..|events| - 1]), put).id, Entry(put.bytes, put.mime, put.now + TTL))
  }

  ghost predicate Stores(events: seq<Event>) {
    events != [] && events[|events| - 1].Put? &&
    OutcomeOf(Run(events[..|events| - 1]), events[|events| - 1]).Stored?
  }

  lemma KeptWhenAppended(room: seq<Blob>, b: Blob)
    ensures KeptWithin(room + [b], b, |b.entry.bytes|)
  {
    var i := |room|;
    assert (room + [b])[i] == b && (room + [b])[i..] == [b];
    assert [b][1..] == [] && Bytes([b]) == |b.entry.bytes|;
  }

  lemma KeptAtFirst(first: seq<Event>)
    requires Stores(first) && OrderlyRun(first)
    ensures KeptWithin(View(Run(first)), JustStored(first), |JustStored(first).entry.bytes|)
  {
    var earlier, e := first[..|first| - 1], first[|first| - 1];
    assert first == earlier + [e];
    RunStepRefinesList(earlier, e);
    KeptWhenAppended(Fitting(Unexpired(View(Run(earlier)), e.now), |e.bytes|), JustStored(first));
  }

  lemma {:induction false} KeptOverRun(first: seq<Event>, later: seq<Event>)
    requires Stores(first) && OrderlyRun(first + later) && NeverConsumed(later, JustStored(first).id)
    requires Clock(first + later) < JustStored(first).entry.expiresAt
    requires |JustStored(first).entry.bytes| + AllPutBytes(later) <= MAX_STORE_BYTES
    ensures KeptWithin(View(Run(first + later)), JustStored(first), |JustStored(first).entry.bytes| + AllPutBytes(later))
  {
    if later == [] {
      assert first + later == first;
      KeptAtFirst(first);
    } else {
      var before, e := later[..|later| - 1], later[|later| - 1];
      assert first + later == (first + before) + [e];
      RunStepRefinesList(first + before, e);
      KeptOverRun(first, before);
      var b := JustStored(first);
      ListStepKeeps(View(Run(first + before)), e, OutcomeOf(Run(first + before), e), b,
                    |b.entry.bytes| + AllPutBytes(before));
    }
  }

  lemma GetFindsResident(s: Store, clock: int, b: Blob, now: int)
    requires Orderly(s, clock) && b in View(s) && b.entry.expiresAt > now
    ensures GetOutcome(s, b.id, now) == Some(b.entry)
  {
    SweepFilters(s, clock, now);
    var i :| 0 <= i < |View(s)| && View(s)[i] == b;
    UnexpiredMembers(View(s), now);
    assert b in Unexpired(View(s), now);
    ResidentMembers(Sweep(s, now).fifo, Sweep(s, now).entries);
  }

  lemma {:induction false} UnexpiredMembers(blobs: seq<Blob>, now: int)
    ensures forall b :: b in Unexpired(blobs, now) <==> b in blobs && b.entry.expiresAt > now
  {
    if blobs == [] {
    } else {
      UnexpiredMembers(blobs[1..], now);
    }
  }

  /** With times in lock order and fresh ids, a stored blob is handed out byte for byte until its time
      ends, unless consumed, as long as the bytes put from it onward fit the store. */
  lemma BlobIsKept(first: seq<Event>, later: seq<Event>, now: int)
    requires Stores(first) && OrderlyRun(first + later) && NeverConsumed(later, JustStored(first).id)
    requires |JustStored(first).entry.bytes| + AllPutBytes(later) <= MAX_STORE_BYTES
    requires Clock(first + later) <= now < JustStored(first).entry.expiresAt
    ensures GetOutcome(Run(first + later), JustStored(first).id, now) == Some(JustStored(first).entry)
  {
    KeptOverRun(first, later);
    RunIsOrderly(first + later);
    GetFindsResident(Run(first + later), Clock(first + later), JustStored(first), now);
  }

  /** And nothing is handed out once its time has ended. */
  lemma NothingOutlivesItsTime(events: seq<Event>, id: BlobId, now: int)
    requires OrderlyRun(events)
    ensures GetOutcome(Run(events), id, now).Some? ==> GetOutcome(Run(events), id, now).value.expiresAt > now
  {
    var s := Run(events);
    RunIsOrderly(events);
    SweepFilters(s, Clock(events), now);
    if id in Sweep(s, now).entries {
      ResidentMembers(Sweep(s, now).fifo, Sweep(s, now).entries);
      UnexpiredMembers(View(s), now);
      assert Blob(id, Sweep(s, now).entries[id]) in View(Sweep(s, now));
    }
  }
}
