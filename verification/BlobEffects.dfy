/** What goes in comes out: when a put stores, that a get hands out what a put stored, and that a consumed
    blob is gone; whatever the clock and the id generator do. */
module BlobEffects {
  import opened Common
  import opened BlobStore
  import opened BlobHistory

  lemma {:induction false} EvictOnlyRemoves(s: Store, incoming: nat)
    ensures forall id :: id in Evict(s, incoming).entries ==>
              id in s.entries && Evict(s, incoming).entries[id] == s.entries[id]
    decreases |s.fifo|
  {
    if s.fifo == [] {
    } else {
      EvictOnlyRemoves(Without(s, s.fifo[0]).(fifo := s.fifo[1..]), incoming);
    }
  }

  lemma RoomOnlyRemoves(s: Store, bytes: seq<bv8>, now: int)
    ensures forall id :: id in MakeRoom(s, bytes, now).entries ==>
              id in s.entries && MakeRoom(s, bytes, now).entries[id] == s.entries[id]
  {
    SweepOnlyRemoves(s, now);
    EvictOnlyRemoves(Sweep(s, now), |bytes|);
  }

  lemma {:induction false} SomeUnused(draws: seq<BlobId>, entries: map<BlobId, Entry>, id: BlobId)
    requires id in draws && id !in entries
    ensures FirstUnused(draws, entries).Some?
  {
    if draws[0] !in entries {
    } else {
      SomeUnused(draws[1..], entries, id);
    }
  }

  /** A blob above 50 MiB is refused and nothing happens; any other is stored, for sixty seconds, under the
      id it is given, as soon as one drawn is not in use. */
  lemma PutHasEffect(s: Store, e: Event)
    requires e.Put?
    ensures |e.bytes| > 52428800 <==> OutcomeOf(s, e).TooLarge?
    ensures |e.bytes| > 52428800 ==> Step(s, e) == s
    ensures |e.bytes| <= 52428800 && (exists id :: id in e.draws && id !in s.entries) ==> OutcomeOf(s, e).Stored?
    ensures OutcomeOf(s, e).Stored? ==>
              var id, entries := OutcomeOf(s, e).id, Step(s, e).entries;
              && id in e.draws && id in entries && entries[id] == Entry(e.bytes, e.mime, e.now + 60_000_000_000)
              && forall other :: other in entries && other != id ==> other in s.entries && entries[other] == s.entries[other]
  {
    RoomOnlyRemoves(s, e.bytes, e.now);
    FirstUnusedIsUnused(e.draws, MakeRoom(s, e.bytes, e.now).entries);
    if id :| id in e.draws && id !in s.entries {
      SomeUnused(e.draws, MakeRoom(s, e.bytes, e.now).entries, id);
    }
  }

  /** The event stores this entry under this id. */
  ghost predicate StoresAs(s: Store, e: Event, id: BlobId, entry: Entry) {
    && e.Put? && OutcomeOf(s, e).Stored? && OutcomeOf(s, e).id == id
    && entry == Entry(e.bytes, e.mime, e.now + 60_000_000_000)
  }

  lemma StepStores(s: Store, e: Event, id: BlobId)
    requires id in Step(s, e).entries
    ensures (id in s.entries && Step(s, e).entries[id] == s.entries[id]) || StoresAs(s, e, id, Step(s, e).entries[id])
  {
    match e
    case Put(bytes, _, now, _) =>
      RoomOnlyRemoves(s, bytes, now);
      PutHasEffect(s, e);
    case Get(_, _, now) => SweepOnlyRemoves(s, now);
    case SweepExpired(now) => SweepOnlyRemoves(s, now);
  }

  lemma {:induction false} ResidentWasStored(events: seq<Event>, id: BlobId) returns (i: nat)
    requires id in Run(events).entries
    ensures i < |events| && StoresAs(Run(events[..i]), events[i], id, Run(events).entries[id])
  {
    var last := |events| - 1;
    var before, e := Run(events[..last]), events[last];
    StepStores(before, e, id);
    if id in before.entries && Run(events).entries[id] == before.entries[id] {
      i := ResidentWasStored(events[..last], id);
      assert events[..last][..i] == events[..i];
    } else {
      i := last;
    }
  }

  /** Whatever a get hands out was stored under that id, byte for byte, with that type. */
  lemma GotWasStored(events: seq<Event>, id: BlobId, now: int)
    requires GetOutcome(Run(events), id, now).Some?
    ensures exists i :: 0 <= i < |events| && StoresAs(Run(events[..i]), events[i], id, GetOutcome(Run(events), id, now).value)
  {
    SweepOnlyRemoves(Run(events), now);
    var i := ResidentWasStored(events, id);
  }

  ghost predicate NeverStoredAgain(s: Store, later: seq<Event>, id: BlobId) {
    later != [] ==>
      var earlier, e := later[..|later| - 1], later[|later| - 1];
      NeverStoredAgain(s, earlier, id) && !(OutcomeOf(RunOn(s, earlier), e).Stored? && OutcomeOf(RunOn(s, earlier), e).id == id)
  }

  ghost function RunOn(s: Store, events: seq<Event>): Store {
    if events == [] then s else Step(RunOn(s, events[..|events| - 1]), events[|events| - 1])
  }

  lemma {:induction false} AbsentStays(s: Store, later: seq<Event>, id: BlobId)
    requires id !in s.entries && NeverStoredAgain(s, later, id)
    ensures id !in RunOn(s, later).entries
  {
    if later == [] {
    } else {
      var earlier, e := later[..|later| - 1], later[|later| - 1];
      AbsentStays(s, earlier, id);
      if id in Step(RunOn(s, earlier), e).entries {
        StepStores(RunOn(s, earlier), e, id);
      }
    }
  }

  /** A consumed blob is handed out no more, unless its id is given out again. */
  lemma ConsumedIsGone(s: Store, id: BlobId, now: int, later: seq<Event>, at: int)
    requires NeverStoredAgain(Step(s, Get(id, true, now)), later, id)
    ensures GetOutcome(RunOn(Step(s, Get(id, true, now)), later), id, at).None?
  {
    AbsentStays(Step(s, Get(id, true, now)), later, id);
    SweepOnlyRemoves(RunOn(Step(s, Get(id, true, now)), later), at);
  }
}
