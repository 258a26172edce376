/** The mixer as it runs. As in the C++ code, a source is a struct held by value in the mixer's map:
    the procedures below take it as an in-out parameter and update it field by field, and the methods
    of Mixer write it back. Each is proved to do what MicTimeline and MicMixing say. */
module MicMixer {
  import opened Common
  import opened MicTimeline
  import opened MicMixing
  import opened MicEffects

  method ResetDecoder<P>(source: SourceState<P>) returns (source': SourceState<P>)
    ensures source' == source.(fed := [])
  {
    source' := source.(fed := []);
  }

  method ResetTimeline<P>(source: SourceState<P>, sequence: uint16, timestamp: Option<uint32>, slot: int)
    returns (source': SourceState<P>)
    ensures source' == Restarted<P>(sequence, timestamp, slot)
  {
    source' := ResetDecoder(source);
    source' := source'.(maxSequence := Some(sequence));
    source' := source'.(maxExtended := 0);
    source' := source'.(maxTimestamp := timestamp);
    source' := source'.(anchorSlot := slot);
    source' := source'.(expectedRestart := None);
    source' := source'.(packets := map[]);
    source' := source'.(playoutStarted := false);
    source' := source'.(concealedRun := 0);
  }

  /** The last key of the ordered packet map. */
  method FurthestSlot<P>(packets: map<int, P>) returns (furthest: int)
    requires packets != map[]
    ensures furthest == Furthest(packets.Keys)
  {
    var rest := packets.Keys;
    ghost var some := SomeMember(rest);
    furthest :| furthest in rest;
    rest := rest - {furthest};
    while rest != {}
      invariant rest <= packets.Keys && furthest in packets
      invariant forall k :: k in packets && k !in rest ==> k <= furthest
    {
      some := SomeMember(rest);
      var k :| k in rest;
      if k > furthest {
        furthest := k;
      }
      rest := rest - {k};
    }
  }

  method QueuePacket<P>(source: SourceState<P>, stats: Stats, slot: int, p: P)
    returns (kept: bool, source': SourceState<P>, stats': Stats)
    requires |source.packets| <= MAX_BUFFERED_PACKETS
    ensures source' == source.(packets := Enqueue(source.packets, slot, p))
    ensures kept == Kept(source.packets, slot, p)
    ensures stats' == CountOffer(stats, source.packets, slot)
  {
    if slot in source.packets {
      return false, source, stats.(duplicates := stats.duplicates + 1);
    }
    source' := source.(packets := source.packets[slot := p]);
    assert source'.packets.Keys == source.packets.Keys + {slot};
    if |source'.packets| <= MAX_BUFFERED_PACKETS {
      return true, source', stats;
    }
    stats' := stats.(overflows := stats.overflows + 1);
    var furthest := FurthestSlot(source'.packets);
    kept := furthest != slot;
    source' := source'.(packets := source'.packets - {furthest});
  }

  /** Re-buffer: the packet becomes the anchor of a new timeline two frames ahead of the clock. */
  method OpenTimeline<P>(source: SourceState<P>, stats: Stats, clock: int, p: P,
                         sequence: uint16, timestamp: Option<uint32>)
    returns (accepted: bool, source': SourceState<P>, stats': Stats)
    ensures source' == Opened(clock, p, sequence, timestamp)
    ensures accepted && stats' == stats
  {
    source' := ResetTimeline(source, sequence, timestamp, clock + JITTER_BUFFER_FRAMES);
    accepted, source', stats' := QueuePacket(source', stats, source'.anchorSlot, p);
  }

  /** A packet behind the playout clock: the second consecutive one restarts the source. */
  method ReceiveStale<P>(source: SourceState<P>, stats: Stats, clock: int, p: P,
      sequence: uint16, timestamp: Option<uint32>)
    returns (accepted: bool, source': SourceState<P>, stats': Stats)
    requires source.maxSequence.Some?
    requires SequenceDistance(sequence, source.maxSequence.value) < 0 && TargetSlot(source, sequence) < clock
    ensures source' == Receive(source, clock, p, sequence, timestamp)
    ensures accepted == Accepted(source, clock, p, sequence, timestamp)
    ensures stats' == CountReceive(stats, source, clock, sequence, timestamp)
  {
    if source.expectedRestart.None? || sequence != source.expectedRestart.value {
      return false, source.(expectedRestart := Some((sequence + 1) % 0x1_0000)), stats.(late := stats.late + 1);
    }
    accepted, source', stats' := OpenTimeline(source, stats.(reanchors := stats.reanchors + 1), clock, p, sequence, timestamp);
  }

  /** A packet newer than any before it: it extends the timeline or starts another. */
  method ReceiveAhead<P>(source: SourceState<P>, stats: Stats, clock: int, p: P,
      sequence: uint16, timestamp: Option<uint32>)
    returns (accepted: bool, source': SourceState<P>, stats': Stats)
    requires |source.packets| <= MAX_BUFFERED_PACKETS && source.maxSequence.Some?
    requires SequenceDistance(sequence, source.maxSequence.value) > 0
    ensures source' == Receive(source, clock, p, sequence, timestamp)
    ensures accepted == Accepted(source, clock, p, sequence, timestamp)
    ensures stats' == CountReceive(stats, source, clock, sequence, timestamp)
  {
    var distance := SequenceDistance(sequence, source.maxSequence.value);
    var extended := source.maxExtended + distance;
    var target := source.anchorSlot + extended;
    var discontinuous := false;
    if timestamp.Some? && source.maxTimestamp.Some? {
      var packetDelta := TimestampDistance(timestamp.value, source.maxTimestamp.value);
      var error := packetDelta - distance * FRAME_MS;
      discontinuous := packetDelta < 0 || error > TIMESTAMP_DISCONTINUITY_MS || error < -TIMESTAMP_DISCONTINUITY_MS;
    }
    assert discontinuous == TimestampJump(source, distance, timestamp);
    var tooFarAhead := target > clock + MAX_FUTURE_FRAMES;
    var inactiveExpired := !source.playoutStarted && target < clock;
    if discontinuous || tooFarAhead || inactiveExpired {
      accepted, source', stats' := OpenTimeline(source, stats.(reanchors := stats.reanchors + 1), clock, p, sequence, timestamp);
      return;
    }
    source' := source.(maxSequence := Some(sequence));
    source' := source'.(maxExtended := extended);
    source' := source'.(maxTimestamp := timestamp);
    source' := source'.(expectedRestart := None);
    assert source' == Noted(source, sequence, timestamp);
    if target < clock {
      return false, source', stats.(late := stats.late + 1);
    }
    accepted, source', stats' := QueuePacket(source', stats, target, p);
  }

  /** push_packet, once the source has been found and the payload validated. */
  method ReceivePacket<P>(source: SourceState<P>, stats: Stats, clock: int, p: P,
      sequence: uint16, timestamp: Option<uint32>)
    returns (accepted: bool, source': SourceState<P>, stats': Stats)
    requires |source.packets| <= MAX_BUFFERED_PACKETS
    ensures source' == Receive(source, clock, p, sequence, timestamp)
    ensures accepted == Accepted(source, clock, p, sequence, timestamp)
    ensures stats' == CountReceive(stats, source, clock, sequence, timestamp)
  {
    if source.maxSequence.None? {
      accepted, source', stats' := OpenTimeline(source, stats, clock, p, sequence, timestamp);
      return;
    }
    var distance := SequenceDistance(sequence, source.maxSequence.value);
    if distance == 0 {
      return false, source, stats.(duplicates := stats.duplicates + 1);
    }
    var target := source.anchorSlot + source.maxExtended + distance;
    if distance < 0 && target < clock {
      accepted, source', stats' := ReceiveStale(source, stats, clock, p, sequence, timestamp);
    } else if distance > 0 {
      accepted, source', stats' := ReceiveAhead(source, stats, clock, p, sequence, timestamp);
    } else {
      accepted, source', stats' := QueuePacket(source.(expectedRestart := None), stats, target, p);
    }
  }

  /** The loop that erases from the front of the ordered packet map while the key is too old. */
  method DropBefore<P>(packets: map<int, P>, slot: int) returns (rest: map<int, P>)
    ensures rest == Upcoming(packets, slot)
  {
    rest := packets;
    while exists k :: k in rest && k < slot
      invariant rest.Keys <= packets.Keys
      invariant forall k :: k in rest ==> rest[k] == packets[k]
      invariant forall k :: k in packets && slot <= k ==> k in rest
      decreases |rest|
    {
      var k :| k in rest && k < slot;
      assert rest.Keys == (rest - {k}).Keys + {k};
      rest := rest - {k};
    }
  }

  /** What mix_next_frame does with one source. */
  method Tick<P>(source: SourceState<P>, slot: int, codec: Codec<P>)
    returns (source': SourceState<P>, playback: Playback<P>)
    ensures Ticked(source', playback) == TickSource(source, slot, codec)
  {
    var upcoming := DropBefore(source.packets, slot);
    source' := source.(packets := upcoming);
    var input: Option<P> := None;
    if slot in source'.packets {
      input := Some(source'.packets[slot]);
    } else if !source'.playoutStarted {
      return source', Idle;
    } else if source'.concealedRun >= JITTER_BUFFER_FRAMES {
      source' := ResetDecoder(source');
      return source'.(playoutStarted := false, concealedRun := 0), Exhausted;
    }
    var decoded := codec.decode(source'.fed, input);
    if decoded.None? {
      if input.Some? {
        source' := source'.(packets := source'.packets - {slot});
      }
      source' := ResetDecoder(source');
      return source'.(playoutStarted := false), Failed(input);
    }
    source' := source'.(fed := source'.fed + [input]);
    if input.Some? {
      source' := source'.(packets := source'.packets - {slot}, playoutStarted := true, concealedRun := 0);
    } else {
      source' := source'.(concealedRun := source'.concealedRun + 1);
    }
    return source', Sounded(input, decoded.value);
  }

  /** What skip_playout_frames does with one source. */
  method SkipOne<P>(source: SourceState<P>, clock: int) returns (source': SourceState<P>)
    ensures source' == SkipSource(source, clock)
  {
    var packets := DropBefore(source.packets, clock);
    source' := ResetDecoder(source.(packets := packets));
    source' := source'.(playoutStarted := false);
    source' := source'.(concealedRun := 0);
  }

  ghost predicate Splits(all: set<SourceId>, todo: set<SourceId>, done: set<SourceId>) {
    todo + done == all && todo !! done
  }

  lemma SplitMoves(all: set<SourceId>, todo: set<SourceId>, done: set<SourceId>, id: SourceId)
    requires Splits(all, todo, done) && id in todo
    ensures id in all && id !in done
    ensures Splits(all, todo - {id}, done + {id}) && |todo - {id}| < |todo|
  {
  }

  class Mixer<P> {
    var sources: map<SourceId, SourceState<P>>
    var nextPlayoutSlot: int
    var stats: Stats
    const mixSums: array<int>

    ghost predicate Valid()
      reads this
    {
      && mixSums.Length == FRAME_SAMPLES
      && Inv(View())
    }

    ghost function View(): MixerState<P>
      reads this
    {
      MixerState(sources, nextPlayoutSlot, stats)
    }

    constructor ()
      ensures Valid() && fresh(mixSums)
      ensures View() == EmptyMixer<P>()
    {
      sources, nextPlayoutSlot, stats := map[], 0, NO_STATS;
      mixSums := new int[FRAME_SAMPLES];
    }

    /** `created` says whether the Opus decoder could be created. */
    method AddSource(id: SourceId, created: bool) returns (ok: bool)
      requires Valid()
      modifies this
      ensures Valid()
      ensures View() == Added(old(View()), id, created)
      ensures if id in old(sources) || !created then View() == old(View())
              else View() == old(View()).(sources := old(sources)[id := SourceState(None, 0, None, 0, None, map[], false, 0, [])])
      ensures ok <==> id in sources
    {
      if id in sources {
        return true;
      }
      if !created {
        return false;
      }
      sources := sources[id := FreshSource<P>()];
      return true;
    }

    method RemoveSource(id: SourceId)
      requires Valid()
      modifies this
      ensures Valid()
      ensures View() == Removed(old(View()), id) == old(View()).(sources := old(sources) - {id})
    {
      sources := sources - {id};
    }

    method Clear()
      requires Valid()
      modifies this
      ensures Valid()
      ensures View() == Cleared(old(View())) == MixerState(map[], 0, old(stats))
    {
      sources := map[];
      nextPlayoutSlot := 0;
    }

    method PushPacket(id: SourceId, p: P, sequence: uint16, timestamp: Option<uint32>, codec: Codec<P>)
      returns (accepted: bool)
      requires Valid()
      modifies this
      ensures Valid()
      ensures View() == Pushed(old(View()), id, p, sequence, timestamp, codec.valid(p))
      ensures accepted <==> id in old(sources) && codec.valid(p) &&
                            Accepted(old(sources)[id], nextPlayoutSlot, p, sequence, timestamp)
      ensures PushEffect(old(View()), id, p, sequence, timestamp, codec.valid(p), View(), accepted)
    {
      PushHasEffect(View(), id, p, sequence, timestamp, codec.valid(p));
      if id !in sources || !codec.valid(p) {
        return false;
      }
      var source: SourceState<P>;
      PushKeepsInv(View(), id, p, sequence, timestamp, true);
      accepted, source, stats := ReceivePacket(sources[id], stats, nextPlayoutSlot, p, sequence, timestamp);
      sources := sources[id := source];
    }

    /** The sources in `done` have had their turn in this frame, the others have not. */
    ghost predicate Ticking(before: MixerState<P>, codec: Codec<P>, done: set<SourceId>)
      reads `sources, `nextPlayoutSlot, `stats
    {
      && nextPlayoutSlot == before.nextPlayoutSlot + 1
      && sources.Keys == before.sources.Keys
      && (forall id :: id in sources && id !in done ==> sources[id] == before.sources[id])
      && (forall id :: id in sources && id in done ==>
            sources[id] == TickSource(before.sources[id], before.nextPlayoutSlot, codec).source)
      && stats == CountTicks(before.stats, Playbacks(before, codec), done)
    }

    /** And what they contributed has been added up. */
    ghost predicate Partway(before: MixerState<P>, codec: Codec<P>, done: set<SourceId>, sourceCount: nat)
      reads this, mixSums
    {
      && Ticking(before, codec, done)
      && sourceCount == |Contributions(Playbacks(before, codec), done)|
      && SumsAre(Contributions(Playbacks(before, codec), done))
    }

    method TickAndCount(id: SourceId, slot: int, codec: Codec<P>, ghost before: MixerState<P>, ghost done: set<SourceId>)
      returns (playback: Playback<P>)
      requires Ticking(before, codec, done)
      requires id in sources && id !in done && slot == before.nextPlayoutSlot
      modifies `sources, `stats
      ensures Ticking(before, codec, done + {id})
      ensures playback == Playbacks(before, codec)[id]
    {
      OneMoreTick(before.stats, Playbacks(before, codec), done, id);
      var source;
      source, playback := Tick(sources[id], slot, codec);
      sources := sources[id := source];
      Count(playback);
    }

    method Count(playback: Playback<P>)
      modifies `stats
      ensures stats == CountPlayback(old(stats), playback)
    {
      if playback.Sounded? && playback.input.None? {
        stats := stats.(concealed := stats.concealed + 1);
      } else if playback.Failed? {
        stats := stats.(decodeFailures := stats.decodeFailures + 1);
      }
    }

    method MixSource(id: SourceId, slot: int, codec: Codec<P>, sourceCount: nat,
                     ghost before: MixerState<P>, ghost done: set<SourceId>)
      returns (sourceCount': nat)
      requires Partway(before, codec, done, sourceCount)
      requires id in sources && id !in done && slot == before.nextPlayoutSlot
      modifies this, mixSums
      ensures Partway(before, codec, done + {id}, sourceCount')
    {
      ghost var frames := Contributions(Playbacks(before, codec), done);
      OneMoreContribution(Playbacks(before, codec), done, id);
      var playback := TickAndCount(id, slot, codec, before, done);
      sourceCount' := sourceCount;
      if playback.Sounded? {
        sourceCount' := sourceCount + 1;
        AddFrame(playback.frame, frames, id);
      }
    }

    method MixSources(slot: int, codec: Codec<P>, ghost before: MixerState<P>) returns (sourceCount: nat)
      requires Partway(before, codec, {}, 0) && slot == before.nextPlayoutSlot
      modifies this, mixSums
      ensures Partway(before, codec, before.sources.Keys, sourceCount)
    {
      sourceCount := 0;
      var todo := sources.Keys;
      ghost var done: set<SourceId> := {};
      ghost var all := todo;
      while todo != {}
        invariant Splits(all, todo, done)
        invariant Partway(before, codec, done, sourceCount)
        decreases |todo|
      {
        ghost var some := SomeMember(todo);
        var id :| id in todo;
        SplitMoves(all, todo, done, id);
        sourceCount := MixSource(id, slot, codec, sourceCount, before, done);
        todo, done := todo - {id}, done + {id};
      }
      assert done == all;
    }

    /** Decodes and averages the sources, in whatever order the map yields them. */
    method MixNextFrame(codec: Codec<P>) returns (mixed: Option<seq<int>>)
      requires Valid()
      modifies this, mixSums
      ensures Valid()
      ensures View() == Mixed(old(View()), codec)
      ensures mixed == MixedFrame(old(View()), codec)
      ensures MixEffect(old(View()), codec, View(), mixed)
    {
      MixHasEffect(View(), codec);
      ghost var before := View();
      var slot := nextPlayoutSlot;
      nextPlayoutSlot := nextPlayoutSlot + 1;
      forall k | 0 <= k < mixSums.Length {
        mixSums[k] := 0;
      }
      var sourceCount := MixSources(slot, codec, before);
      MixedPointwise(before, codec, sources);
      MixKeepsInv(before, codec);
      if sourceCount == 0 {
        return None;
      }
      ghost var frames := Contributions(Playbacks(before, codec), before.sources.Keys);
      var averaged := Average(sourceCount, frames);
      MeanPointwise(before, codec, frames, averaged);
      return Some(averaged);
    }

    ghost predicate SumsAre(frames: map<SourceId, Frame>)
      reads mixSums
    {
      mixSums.Length == FRAME_SAMPLES &&
      forall k :: 0 <= k < FRAME_SAMPLES ==> mixSums[k] == SampleSum(frames, frames.Keys, k)
    }

    method AddFrame(frame: Frame, ghost frames: map<SourceId, Frame>, ghost id: SourceId)
      requires SumsAre(frames) && id !in frames
      modifies mixSums
      ensures SumsAre(frames[id := frame])
    {
      ghost var all := frames[id := frame];
      forall k | 0 <= k < FRAME_SAMPLES
        ensures SampleSum(all, all.Keys, k) == frame[k] + SampleSum(frames, frames.Keys, k)
      {
        SampleSumSplit(all, all.Keys, id, k);
        assert all.Keys - {id} == frames.Keys;
        SampleSumAgrees(all, frames, frames.Keys, k);
      }
      for i := 0 to FRAME_SAMPLES
        invariant forall k :: i <= k < FRAME_SAMPLES ==> mixSums[k] == SampleSum(frames, frames.Keys, k)
        invariant forall k :: 0 <= k < i ==> mixSums[k] == SampleSum(all, all.Keys, k)
      {
        mixSums[i] := mixSums[i] + frame[i];
      }
    }

    method Average(sourceCount: nat, ghost frames: map<SourceId, Frame>) returns (mixed: seq<int>)
      requires SumsAre(frames) && sourceCount == |frames| > 0
      ensures |mixed| == FRAME_SAMPLES
      ensures forall k :: 0 <= k < FRAME_SAMPLES ==> mixed[k] == MeanSample(frames, k)
    {
      mixed := [];
      for i := 0 to FRAME_SAMPLES
        invariant |mixed| == i
        invariant forall k :: 0 <= k < i ==> mixed[k] == MeanSample(frames, k)
      {
        MeanWithinContributions(frames, i, -0x8000, 0x7fff);
        mixed := mixed + [Clamp(TruncDiv(mixSums[i], sourceCount), -0x8000, 0x7fff)];
      }
    }

    method SkipPlayoutFrames(count: nat)
      requires Valid()
      modifies this
      ensures Valid()
      ensures View() == Skipped(old(View()), count)
      ensures SkipEffect(old(View()), count, View())
    {
      SkipHasEffect(View(), count);
      if count == 0 {
        return;
      }
      ghost var before := View();
      nextPlayoutSlot := nextPlayoutSlot + count;
      stats := stats.(skipped := stats.skipped + count);
      SkipSources();
      SkippedPointwise(before, count, sources);
      SkipKeepsInv(before, count);
    }

    method SkipSources()
      modifies `sources
      ensures sources.Keys == old(sources).Keys
      ensures forall id :: id in sources ==> sources[id] == SkipSource(old(sources)[id], nextPlayoutSlot)
    {
      var todo := sources.Keys;
      while todo != {}
        invariant sources.Keys == old(sources).Keys && todo <= sources.Keys
        invariant forall id :: id in todo ==> sources[id] == old(sources)[id]
        invariant forall id :: id in sources && id !in todo ==>
                    sources[id] == SkipSource(old(sources)[id], nextPlayoutSlot)
      {
        ghost var some := SomeMember(todo);
        var id :| id in todo;
        todo := todo - {id};
        var source := SkipOne(sources[id], nextPlayoutSlot);
        sources := sources[id := source];
      }
    }

    method TakeStats() returns (taken: Stats)
      requires Valid()
      modifies this
      ensures Valid() && taken == old(stats)
      ensures View() == old(View()).(stats := NO_STATS)
    {
      taken := stats;
      stats := NO_STATS;
    }
  }
}
