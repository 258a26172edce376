/** The clipboard blob store: a map, a lazily cleaned FIFO of ids and a running byte counter. */
module BlobStore {
  import opened Common

  const MAX_BLOB_BYTES := 50 * 1024 * 1024
  const MAX_STORE_BYTES := 200 * 1024 * 1024
  const TTL := 60_000_000_000  // 60 s on a nanosecond clock

  type BlobId = int

  datatype Entry = Entry(bytes: seq<bv8>, mime: string, expiresAt: int)

  datatype Store = Store(entries: map<BlobId, Entry>, fifo: seq<BlobId>, total: int)

  // ---------------------------------------------------------------- one operation on the store

  function Without(s: Store, id: BlobId): Store {
    if id in s.entries then s.(entries := s.entries - {id}, total := s.total - |s.entries[id].bytes|) else s
  }

  /** Drops dead ids and expired entries from the front, up to the first live entry. */
  function Sweep(s: Store, now: int): Store
    decreases |s.fifo|
  {
    if s.fifo == [] then s
    else if s.fifo[0] in s.entries && s.entries[s.fifo[0]].expiresAt > now then s
    else Sweep(Without(s, s.fifo[0]).(fifo := s.fifo[1..]), now)
  }

  /** Drops ids from the front, with their entries, until `incoming` bytes fit. */
  function Evict(s: Store, incoming: nat): Store
    decreases |s.fifo|
  {
    if s.fifo == [] || s.total + incoming <= MAX_STORE_BYTES then s
    else Evict(Without(s, s.fifo[0]).(fifo := s.fifo[1..]), incoming)
  }

  function FirstUnused(draws: seq<BlobId>, entries: map<BlobId, Entry>): Option<BlobId> {
    if draws == [] then None
    else if draws[0] in entries then FirstUnused(draws[1..], entries)
    else Some(draws[0])
  }

  function Insert(s: Store, id: BlobId, bytes: seq<bv8>, mime: string, now: int): Store {
    Store(s.entries[id := Entry(bytes, mime, now + TTL)], s.fifo + [id], s.total + |bytes|)
  }

  datatype Event =
    | Put(bytes: seq<bv8>, mime: string, now: int, draws: seq<BlobId>)
    | Get(id: BlobId, consume: bool, now: int)
    | SweepExpired(now: int)

  datatype PutResult = Stored(id: BlobId) | TooLarge | GeneratorFailed

  function MakeRoom(s: Store, bytes: seq<bv8>, now: int): Store {
    Evict(Sweep(s, now), |bytes|)
  }

  function PutOutcome(s: Store, bytes: seq<bv8>, now: int, draws: seq<BlobId>): PutResult {
    if |bytes| > MAX_BLOB_BYTES || |bytes| > MAX_STORE_BYTES then TooLarge
    else
      match FirstUnused(draws, MakeRoom(s, bytes, now).entries)
      case None => GeneratorFailed
      case Some(id) => Stored(id)
  }

  function GetOutcome(s: Store, id: BlobId, now: int): Option<Entry> {
    var swept := Sweep(s, now);
    if id in swept.entries then Some(swept.entries[id]) else None
  }

  function Step(s: Store, e: Event): Store {
    match e
    case Put(bytes, mime, now, draws) =>
      (match PutOutcome(s, bytes, now, draws)
       case TooLarge => s
       case GeneratorFailed => MakeRoom(s, bytes, now)
       case Stored(id) => Insert(MakeRoom(s, bytes, now), id, bytes, mime, now))
    case Get(id, consume, now) => if consume then Without(Sweep(s, now), id) else Sweep(s, now)
    case SweepExpired(now) => Sweep(s, now)
  }

  const EMPTY := Store(map[], [], 0)

  function Run(events: seq<Event>): Store {
    if events == [] then EMPTY else Step(Run(events[..|events| - 1]), events[|events| - 1])
  }

  // ---------------------------------------------------------------- the byte counter, unconditionally

  ghost function SizeSum(entries: map<BlobId, Entry>): nat
    decreases |entries|
  {
    if entries == map[] then 0
    else
      assert exists id :: id in entries by { var id := SomeMember(entries.Keys); }
      var id :| id in entries;
      assert |entries - {id}| < |entries| by { OneFewer(entries, id); }
      |entries[id].bytes| + SizeSum(entries - {id})
  }

  lemma OneFewer(entries: map<BlobId, Entry>, id: BlobId)
    requires id in entries
    ensures |entries - {id}| == |entries| - 1
  {
    assert entries.Keys == (entries - {id}).Keys + {id};
  }

  lemma {:induction false} SizeSumWithout(entries: map<BlobId, Entry>, id: BlobId)
    requires id in entries
    ensures SizeSum(entries) == |entries[id].bytes| + SizeSum(entries - {id})
    decreases |entries|
  {
    assert exists k :: k in entries;
    var k :| k in entries && SizeSum(entries) == |entries[k].bytes| + SizeSum(entries - {k});
    if k == id {
    } else {
      OneFewer(entries, k);
      OneFewer(entries, id);
      SizeSumWithout(entries - {k}, id);
      SizeSumWithout(entries - {id}, k);
      assert entries - {k} - {id} == entries - {id} - {k};
    }
  }

  /** Every resident id is in the FIFO and the counter is the sum of the resident sizes, within the cap. */
  ghost predicate Consistent(s: Store) {
    && (forall id :: id in s.entries ==> id in s.fifo)
    && s.total == SizeSum(s.entries) <= MAX_STORE_BYTES
  }

  lemma PopKeepsConsistent(s: Store)
    requires Consistent(s) && s.fifo != []
    ensures Consistent(Without(s, s.fifo[0]).(fifo := s.fifo[1..]))
  {
    if s.fifo[0] in s.entries {
      SizeSumWithout(s.entries, s.fifo[0]);
    }
  }

  lemma {:induction false} SweepKeepsConsistent(s: Store, now: int)
    requires Consistent(s)
    ensures Consistent(Sweep(s, now))
    decreases |s.fifo|
  {
    if s.fifo == [] {
    } else {
      PopKeepsConsistent(s);
      SweepKeepsConsistent(Without(s, s.fifo[0]).(fifo := s.fifo[1..]), now);
    }
  }

  lemma {:induction false} EvictMakesRoom(s: Store, incoming: nat)
    requires Consistent(s) && incoming <= MAX_STORE_BYTES
    ensures Consistent(Evict(s, incoming)) && Evict(s, incoming).total + incoming <= MAX_STORE_BYTES
    decreases |s.fifo|
  {
    if s.fifo == [] {
      assert s.entries == map[];
    } else {
      PopKeepsConsistent(s);
      EvictMakesRoom(Without(s, s.fifo[0]).(fifo := s.fifo[1..]), incoming);
    }
  }

  lemma {:induction false} FirstUnusedIsUnused(draws: seq<BlobId>, entries: map<BlobId, Entry>)
    ensures FirstUnused(draws, entries).Some? ==>
              FirstUnused(draws, entries).value !in entries && FirstUnused(draws, entries).value in draws
  {
    if draws == [] {
    } else {
      FirstUnusedIsUnused(draws[1..], entries);
    }
  }

  lemma StepKeepsConsistent(s: Store, e: Event)
    requires Consistent(s)
    ensures Consistent(Step(s, e))
  {
    SweepKeepsConsistent(s, e.now);
    match e
    case Put(bytes, mime, now, draws) =>
      if |bytes| <= MAX_BLOB_BYTES {
        EvictMakesRoom(Sweep(s, now), |bytes|);
        var room := MakeRoom(s, bytes, now);
        FirstUnusedIsUnused(draws, room.entries);
        if PutOutcome(s, bytes, now, draws).Stored? {
          var id := PutOutcome(s, bytes, now, draws).id;
          var grown := Insert(room, id, bytes, mime, now);
          SizeSumWithout(grown.entries, id);
          assert grown.entries - {id} == room.entries;
        }
      }
    case Get(id, consume, now) =>
      if consume && id in Sweep(s, now).entries {
        SizeSumWithout(Sweep(s, now).entries, id);
      }
    case SweepExpired(now) =>
  }

  /** In every reachable state, whatever the clock and the id generator do. */
  lemma {:induction false} ReachableStoresAreConsistent(events: seq<Event>)
    ensures Consistent(Run(events))
  {
    if events == [] {
    } else {
      ReachableStoresAreConsistent(events[..|events| - 1]);
      StepKeepsConsistent(Run(events[..|events| - 1]), events[|events| - 1]);
    }
  }

  // ---------------------------------------------------------------- when the front-only sweep is a full filter

  function Live(entries: map<BlobId, Entry>, now: int): set<BlobId> {
    set id | id in entries && entries[id].expiresAt > now
  }

  function Filter(entries: map<BlobId, Entry>, now: int): map<BlobId, Entry> {
    map id | id in entries && entries[id].expiresAt > now :: entries[id]
  }

  /** The id stands in the FIFO before every live one. */
  predicate AheadOf(fifo: seq<BlobId>, id: BlobId, live: set<BlobId>) {
    fifo != [] && fifo[0] !in live && (fifo[0] == id || AheadOf(fifo[1..], id, live))
  }

  lemma DroppingExpiredKeepsLive(s: Store, id: BlobId, now: int)
    requires id !in Live(s.entries, now)
    ensures Live(Without(s, id).entries, now) == Live(s.entries, now)
  {
  }

  lemma {:induction false} SweepRemoves(s: Store, now: int, id: BlobId)
    requires id in s.entries
    ensures id in Sweep(s, now).entries <==> !AheadOf(s.fifo, id, Live(s.entries, now))
    decreases |s.fifo|
  {
    if s.fifo == [] || s.fifo[0] in Live(s.entries, now) {
    } else {
      var s' := Without(s, s.fifo[0]).(fifo := s.fifo[1..]);
      DroppingExpiredKeepsLive(s, s.fifo[0], now);
      if s.fifo[0] == id {
        SweepOnlyRemoves(s', now);
      } else {
        SweepRemoves(s', now, id);
      }
    }
  }

  lemma {:induction false} SweepOnlyRemoves(s: Store, now: int)
    ensures forall id :: id in Sweep(s, now).entries ==> id in s.entries && Sweep(s, now).entries[id] == s.entries[id]
    decreases |s.fifo|
  {
    if s.fifo == [] {
    } else {
      SweepOnlyRemoves(Without(s, s.fifo[0]).(fifo := s.fifo[1..]), now);
    }
  }

  lemma {:induction false} LiveIsNeverAhead(fifo: seq<BlobId>, id: BlobId, live: set<BlobId>)
    requires id in live
    ensures !AheadOf(fifo, id, live)
  {
    if fifo == [] {
    } else {
      LiveIsNeverAhead(fifo[1..], id, live);
    }
  }

  /** The front-only sweep equals the full expiry filter if and only if no expired entry waits in the
      FIFO behind a live one. */
  lemma SweepIsFilterIff(s: Store, now: int)
    ensures Sweep(s, now).entries == Filter(s.entries, now)
       <==> forall id :: id in s.entries && id !in Live(s.entries, now) ==> AheadOf(s.fifo, id, Live(s.entries, now))
  {
    var swept, filtered, live := Sweep(s, now).entries, Filter(s.entries, now), Live(s.entries, now);
    SweepOnlyRemoves(s, now);
    forall id | id in s.entries ensures id in swept <==> !AheadOf(s.fifo, id, live) {
      SweepRemoves(s, now, id);
    }
    forall id | id in live ensures id in swept {
      LiveIsNeverAhead(s.fifo, id, live);
    }
    assert forall id :: id in filtered <==> id in live;
    if forall id :: id in s.entries && id !in live ==> AheadOf(s.fifo, id, live) {
      assert forall id :: id in swept <==> id in filtered;
      forall id | id in swept ensures swept[id] == filtered[id] {
      }
      assert swept == filtered;
    } else {
      var id :| id in s.entries && id !in live && !AheadOf(s.fifo, id, live);
      assert id in swept && id !in filtered;
    }
  }

  /** put and get read the clock before they take the lock. When two puts take it in the other order,
      the older expiry is second in the FIFO, and a blob past its time is still handed out. */
  lemma ClockOrderMatters()
    ensures var events := [Put([1], "", 10, [1]), Put([2], "", 5, [2])];
      GetOutcome(Run(events), 2, 5 + TTL).Some?
  {
    var first, second := Put([1], "", 10, [1]), Put([2], "", 5, [2]);
    var events := [first, second];
    assert events[..1] == [first] && [first][..0] == [];
    assert Run([first]) == Step(EMPTY, first) == Insert(EMPTY, 1, [1], "", 10);
    var one := Run([first]);
    assert Sweep(one, 5) == one && Evict(one, 1) == one;
    assert Run(events) == Step(one, second) == Insert(one, 2, [2], "", 5);
  }
}
