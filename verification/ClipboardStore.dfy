/** The store as it runs: three globals, changed in place by loops under one lock. */
module ClipboardStore {
  import opened Common
  import opened BlobStore

  class ClipboardStore {
    var entries: map<BlobId, Entry>
    var fifo: seq<BlobId>
    var totalBytes: int

    ghost function State(): Store
      reads this
    {
      Store(entries, fifo, totalBytes)
    }

    constructor ()
      ensures State() == EMPTY
    {
      entries, fifo, totalBytes := map[], [], 0;
    }

    method SweepLocked(now: int)
      modifies this
      ensures State() == Sweep(old(State()), now)
    {
      while fifo != []
        invariant Sweep(State(), now) == Sweep(old(State()), now)
        decreases |fifo|
      {
        var front := fifo[0];
        if front !in entries {
          fifo := fifo[1..];
          continue;
        }
        if entries[front].expiresAt > now {
          break;
        }
        totalBytes := totalBytes - |entries[front].bytes|;
        entries := entries - {front};
        fifo := fifo[1..];
      }
    }

    method EvictForLocked(incoming: nat)
      modifies this
      ensures State() == Evict(old(State()), incoming)
    {
      while fifo != [] && totalBytes + incoming > MAX_STORE_BYTES
        invariant Evict(State(), incoming) == Evict(old(State()), incoming)
        decreases |fifo|
      {
        var front := fifo[0];
        fifo := fifo[1..];
        if front in entries {
          totalBytes := totalBytes - |entries[front].bytes|;
          entries := entries - {front};
        }
      }
    }

    /** The id generator, drawing until the id is not in use; `draws` are the ids it yields in turn. */
    method MakeId(draws: seq<BlobId>) returns (id: Option<BlobId>)
      ensures id == FirstUnused(draws, entries)
    {
      var i := 0;
      assert draws[0..] == draws;
      while i < |draws|
        invariant 0 <= i <= |draws| && FirstUnused(draws[i..], entries) == FirstUnused(draws, entries)
      {
        if draws[i] !in entries {
          return Some(draws[i]);
        }
        i := i + 1;
      }
      return None;
    }

    /** The counter never passes the cap nor misses a byte, whatever the times and ids. */
    method PutBlob(bytes: seq<bv8>, mime: string, now: int, draws: seq<BlobId>) returns (result: PutResult)
      requires Consistent(State())
      modifies this
      ensures Consistent(State())
      ensures State() == Step(old(State()), Put(bytes, mime, now, draws))
      ensures result == PutOutcome(old(State()), bytes, now, draws)
    {
      StepKeepsConsistent(State(), Put(bytes, mime, now, draws));
      if |bytes| > MAX_BLOB_BYTES {
        return TooLarge;
      }
      if |bytes| > MAX_STORE_BYTES {
        return TooLarge;
      }
      var incoming := |bytes|;
      SweepLocked(now);
      EvictForLocked(incoming);
      var id := MakeId(draws);
      if id.None? {
        return GeneratorFailed;
      }
      var e := Entry(bytes, mime, now + TTL);
      totalBytes := totalBytes + incoming;
      fifo := fifo + [id.value];
      entries := entries[id.value := e];
      return Stored(id.value);
    }

    method GetBlob(id: BlobId, consume: bool, now: int) returns (found: Option<Entry>)
      requires Consistent(State())
      modifies this
      ensures Consistent(State())
      ensures State() == Step(old(State()), Get(id, consume, now))
      ensures found == GetOutcome(old(State()), id, now)
    {
      StepKeepsConsistent(State(), Get(id, consume, now));
      SweepLocked(now);
      if id !in entries {
        return None;
      }
      found := Some(entries[id]);
      if consume {
        totalBytes := totalBytes - |entries[id].bytes|;
        entries := entries - {id};
      }
    }

    method Stats() returns (count: nat, bytes: nat)
      requires Consistent(State())
      ensures count == |entries| && bytes == SizeSum(entries) <= MAX_STORE_BYTES
    {
      count, bytes := |entries|, totalBytes;
    }
  }
}
