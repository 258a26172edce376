/** What a packet and a mixed frame come to, told from the source's fields alone, and what becomes of a
    packet between its arrival and its slot. The other Mic modules say what is kept; this one says what is
    done. */
module MicEffects {
  import opened Common
  import opened MicTimeline
  import opened MicMixing
  import opened MicRuns

  // ---------------------------------------------------------------- a packet arrives

  /** Where the sender's numbering puts the packet. */
  function SlotOf(s: SourceState, sequence: uint16): int
    requires s.maxSequence.Some?
  {
    s.anchorSlot + s.maxExtended + SequenceDistance(sequence, s.maxSequence.value)
  }

  predicate Newer(s: SourceState, sequence: uint16)
    requires s.maxSequence.Some?
  {
    SequenceDistance(sequence, s.maxSequence.value) > 0
  }

  /** The timestamps agree with the numbers: 20 ms a packet, give or take 200, and not backwards. */
  predicate SteadyClock(s: SourceState, sequence: uint16, timestamp: Option<uint32>)
    requires s.maxSequence.Some?
  {
    timestamp.Some? && s.maxTimestamp.Some? ==>
      var elapsed := TimestampDistance(timestamp.value, s.maxTimestamp.value);
      0 <= elapsed && -200 <= elapsed - 20 * SequenceDistance(sequence, s.maxSequence.value) <= 200
  }

  /** The packet opens a new timeline: the source's first, the second of two consecutive late ones, or a
      newer one after a clock jump, more than eight frames ahead, or late while nothing plays. */
  predicate Reopens(s: SourceState, clock: int, sequence: uint16, timestamp: Option<uint32>) {
    s.maxSequence.None? || (
      sequence != s.maxSequence.value &&
      if Newer(s, sequence) then
        !SteadyClock(s, sequence, timestamp) || SlotOf(s, sequence) > clock + 8 ||
        (SlotOf(s, sequence) < clock && !s.playoutStarted)
      else SlotOf(s, sequence) < clock && s.expectedRestart == Some(sequence))
  }

  /** The packet belongs to the timeline and its slot has still to play. */
  predicate InTime(s: SourceState, clock: int, sequence: uint16, timestamp: Option<uint32>) {
    && s.maxSequence.Some? && sequence != s.maxSequence.value && clock <= SlotOf(s, sequence)
    && (Newer(s, sequence) ==> SteadyClock(s, sequence, timestamp) && SlotOf(s, sequence) <= clock + 8)
  }

  /** Two frames from now, with everything of the old timeline gone. */
  ghost predicate OpensTimeline<P>(s': SourceState<P>, clock: int, p: P, sequence: uint16, timestamp: Option<uint32>) {
    s' == SourceState(Some(sequence), 0, timestamp, clock + 2, None, map[clock + 2 := p], false, 0, [])
  }

  /** What a buffer of four makes of an offer. */
  ghost predicate Offered<P>(packets: map<int, P>, slot: int, p: P, packets': map<int, P>, accepted: bool) {
    if slot in packets then packets' == packets && !accepted
    else if |packets| < 4 then packets' == packets[slot := p] && accepted
    else if forall k :: k in packets ==> k < slot then packets' == packets && !accepted
    else
      accepted && exists far :: far in packets && (forall k :: k in packets ==> k <= far) &&
                                packets' == packets[slot := p] - {far}
  }

  /** The newest packet of the timeline so far is this one. */
  function Advanced(s: SourceState, sequence: uint16, timestamp: Option<uint32>): SourceState
    requires s.maxSequence.Some?
  {
    if Newer(s, sequence) then
      s.(maxSequence := Some(sequence), maxTimestamp := timestamp, expectedRestart := None,
         maxExtended := SlotOf(s, sequence) - s.anchorSlot)
    else s.(expectedRestart := None)
  }

  /** What becomes of a source when a valid packet arrives, and what push_packet answers. */
  ghost predicate Arrives<P>(s: SourceState<P>, clock: int, p: P, sequence: uint16, timestamp: Option<uint32>,
                             s': SourceState<P>, accepted: bool)
  {
    if Reopens(s, clock, sequence, timestamp) then OpensTimeline(s', clock, p, sequence, timestamp) && accepted
    else if sequence == s.maxSequence.value then s' == s && !accepted
    else if InTime(s, clock, sequence, timestamp) then
      && s' == Advanced(s, sequence, timestamp).(packets := s'.packets)
      && Offered(s.packets, SlotOf(s, sequence), p, s'.packets, accepted)
    else if Newer(s, sequence) then s' == Advanced(s, sequence, timestamp) && !accepted
    else s' == s.(expectedRestart := Some((sequence + 1) % 0x1_0000)) && !accepted
  }

  lemma SameNumberIffNoDistance(a: uint16, b: uint16)
    ensures SequenceDistance(a, b) == 0 <==> a == b
  {
  }

  lemma FullBufferDropsFurthest<P>(packets: map<int, P>, slot: int, p: P)
    requires |packets| == MAX_BUFFERED_PACKETS && slot !in packets
    ensures var far := Furthest(packets.Keys + {slot});
      && Enqueue(packets, slot, p) == packets[slot := p] - {far}
      && (far == slot <==> forall k :: k in packets ==> k < slot)
      && (far != slot ==> far in packets && slot < far && forall k :: k in packets ==> k <= far)
  {
    var grown := packets[slot := p];
    assert grown.Keys == packets.Keys + {slot};
  }

  lemma OfferIsEnqueue<P>(packets: map<int, P>, slot: int, p: P)
    requires |packets| <= MAX_BUFFERED_PACKETS
    ensures Offered(packets, slot, p, Enqueue(packets, slot, p), Kept(packets, slot, p))
  {
    if slot in packets {
    } else if |packets| < MAX_BUFFERED_PACKETS {
      assert packets[slot := p].Keys == packets.Keys + {slot};
    } else {
      FullBufferDropsFurthest(packets, slot, p);
      var far := Furthest(packets.Keys + {slot});
      if far == slot {
        assert packets[slot := p] - {slot} == packets;
      }
    }
  }

  /** The classification in these terms. */
  lemma ClassifiedBy(s: SourceState, clock: int, sequence: uint16, timestamp: Option<uint32>)
    ensures var v := Classify(s, clock, sequence, timestamp);
      && (StartsTimeline(v) <==> Reopens(s, clock, sequence, timestamp))
      && (v.Repeat? <==> s.maxSequence == Some(sequence))
      && (v.InWindow? <==> InTime(s, clock, sequence, timestamp))
      && (v.Overdue? ==> Newer(s, sequence))
      && (v.StaleHint? ==> !Newer(s, sequence))
  {
    if s.maxSequence.Some? {
      SameNumberIffNoDistance(sequence, s.maxSequence.value);
    }
  }

  lemma ReceiveArrives<P>(s: SourceState<P>, clock: int, p: P, sequence: uint16, timestamp: Option<uint32>)
    requires |s.packets| <= MAX_BUFFERED_PACKETS
    ensures Arrives(s, clock, p, sequence, timestamp,
                    Receive(s, clock, p, sequence, timestamp), Accepted(s, clock, p, sequence, timestamp))
  {
    ClassifiedBy(s, clock, sequence, timestamp);
    if s.maxSequence.Some? {
      OfferIsEnqueue(s.packets, SlotOf(s, sequence), p);
    }
  }

  /** How the counters move: repeats and taken slots, packets too late, full buffers, and timelines
      opened again. */
  ghost predicate CountsArrival(s: SourceState, clock: int, sequence: uint16, timestamp: Option<uint32>,
                                stats: Stats, stats': Stats)
  {
    var reopens, inTime := Reopens(s, clock, sequence, timestamp), InTime(s, clock, sequence, timestamp);
    var repeat := s.maxSequence == Some(sequence);
    var taken := inTime && SlotOf(s, sequence) in s.packets;
    stats' == stats.(
      duplicates := stats.duplicates + if repeat || taken then 1 else 0,
      overflows := stats.overflows + if inTime && !taken && |s.packets| == 4 then 1 else 0,
      late := stats.late + if reopens || inTime || repeat then 0 else 1,
      reanchors := stats.reanchors + if reopens && s.maxSequence.Some? then 1 else 0)
  }

  lemma ReceiveCounts<P>(s: SourceState<P>, clock: int, sequence: uint16, timestamp: Option<uint32>, stats: Stats)
    requires |s.packets| <= MAX_BUFFERED_PACKETS
    ensures CountsArrival(s, clock, sequence, timestamp, stats, CountReceive(stats, s, clock, sequence, timestamp))
  {
    ClassifiedBy(s, clock, sequence, timestamp);
  }

  /** The whole mixer after a packet. */
  ghost predicate PushEffect<P>(m: MixerState<P>, id: SourceId, p: P, sequence: uint16, timestamp: Option<uint32>,
                                valid: bool, m': MixerState<P>, accepted: bool)
  {
    if id !in m.sources || !valid then m' == m && !accepted
    else
      && id in m'.sources && m'.sources == m.sources[id := m'.sources[id]] && m'.nextPlayoutSlot == m.nextPlayoutSlot
      && Arrives(m.sources[id], m.nextPlayoutSlot, p, sequence, timestamp, m'.sources[id], accepted)
      && CountsArrival(m.sources[id], m.nextPlayoutSlot, sequence, timestamp, m.stats, m'.stats)
  }

  lemma PushHasEffect<P>(m: MixerState<P>, id: SourceId, p: P, sequence: uint16, timestamp: Option<uint32>, valid: bool)
    requires Inv(m)
    ensures PushEffect(m, id, p, sequence, timestamp, valid, Pushed(m, id, p, sequence, timestamp, valid),
                       id in m.sources && valid && Accepted(m.sources[id], m.nextPlayoutSlot, p, sequence, timestamp))
  {
    if id in m.sources && valid {
      ReceiveArrives(m.sources[id], m.nextPlayoutSlot, p, sequence, timestamp);
      ReceiveCounts(m.sources[id], m.nextPlayoutSlot, sequence, timestamp, m.stats);
    }
  }

  /** A packet of the timeline whose slot has still to play goes to that slot, if there is room: it is not
      a repeat, the slot is free, and the buffer is not full of nearer ones. */
  lemma InTimeIsQueued<P>(m: MixerState<P>, id: SourceId, p: P, sequence: uint16, timestamp: Option<uint32>, codec: Codec<P>)
    requires Inv(m) && id in m.sources && codec.valid(p)
    requires InTime(m.sources[id], m.nextPlayoutSlot, sequence, timestamp)
    requires HasRoom(m.sources[id], SlotOf(m.sources[id], sequence))
    ensures var slot := SlotOf(m.sources[id], sequence);
      Holds(Step(m, Push(id, p, sequence, timestamp), codec), id, slot, p)
  {
    ClassifiedBy(m.sources[id], m.nextPlayoutSlot, sequence, timestamp);
    OfferIsEnqueue(m.sources[id].packets, SlotOf(m.sources[id], sequence), p);
  }

  // ---------------------------------------------------------------- it waits for its slot

  ghost predicate Holds<P>(m: MixerState<P>, id: SourceId, slot: int, p: P) {
    id in m.sources && slot in m.sources[id].packets && m.sources[id].packets[slot] == p
  }

  /** The slot is the furthest of four, and the packet goes to a nearer one. */
  ghost predicate Crowds<P>(s: SourceState<P>, clock: int, sequence: uint16, timestamp: Option<uint32>, slot: int) {
    && InTime(s, clock, sequence, timestamp) && SlotOf(s, sequence) !in s.packets && SlotOf(s, sequence) < slot
    && |s.packets| == 4 && forall k :: k in s.packets ==> k <= slot
  }

  /** The events that can take a queued packet away: its source goes, its slot is played or skipped, its
      timeline ends, or it is the furthest of four and a nearer one comes. */
  ghost predicate Displaces<P>(m: MixerState<P>, e: Event<P>, id: SourceId, slot: int, codec: Codec<P>)
    requires id in m.sources
  {
    var s := m.sources[id];
    match e
    case Clear => true
    case RemoveSource(other) => other == id
    case MixFrame => m.nextPlayoutSlot == slot
    case SkipFrames(count) => m.nextPlayoutSlot + count > slot
    case Push(other, p, sequence, timestamp) =>
      && other == id && codec.valid(p)
      && (Reopens(s, m.nextPlayoutSlot, sequence, timestamp) || Crowds(s, m.nextPlayoutSlot, sequence, timestamp, slot))
    case _ => false
  }

  lemma StaysQueuedOnPush<P>(s: SourceState<P>, clock: int, p: P, sequence: uint16, timestamp: Option<uint32>, slot: int)
    requires |s.packets| <= MAX_BUFFERED_PACKETS && slot in s.packets && !Reopens(s, clock, sequence, timestamp)
    requires !Crowds(s, clock, sequence, timestamp, slot)
    ensures var packets := Receive(s, clock, p, sequence, timestamp).packets;
      slot in packets && packets[slot] == s.packets[slot]
  {
    ReceiveArrives(s, clock, p, sequence, timestamp);
  }

  lemma StaysQueuedOnMix<P>(m: MixerState<P>, id: SourceId, slot: int, p: P, codec: Codec<P>)
    requires Inv(m) && Holds(m, id, slot, p) && m.nextPlayoutSlot != slot
    ensures Holds(Step(m, MixFrame, codec), id, slot, p)
  {
    MixPlays(m, codec, id);
  }

  lemma StaysQueued<P>(m: MixerState<P>, e: Event<P>, id: SourceId, slot: int, p: P, codec: Codec<P>)
    requires Inv(m) && Holds(m, id, slot, p) && !Displaces(m, e, id, slot, codec)
    ensures Holds(Step(m, e, codec), id, slot, p)
  {
    match e
    case Push(other, q, sequence, timestamp) =>
      if other == id && codec.valid(q) {
        StaysQueuedOnPush(m.sources[id], m.nextPlayoutSlot, q, sequence, timestamp, slot);
      }
    case MixFrame => StaysQueuedOnMix(m, id, slot, p, codec);
    case SkipFrames(_) =>
    case AddSource(_, _) =>
    case RemoveSource(_) =>
    case TakeStats =>
    case Clear =>
  }

  ghost predicate Undisturbed<P>(m: MixerState<P>, later: seq<Event<P>>, id: SourceId, slot: int, codec: Codec<P>) {
    forall n :: 0 <= n < |later| ==>
      var before := RunFrom(m, later[..n], codec);
      id in before.sources ==> !Displaces(before, later[n], id, slot, codec)
  }

  lemma {:induction false} WaitsUndisturbed<P>(m: MixerState<P>, later: seq<Event<P>>, id: SourceId, slot: int, p: P,
                                               codec: Codec<P>)
    requires Inv(m) && Holds(m, id, slot, p) && Undisturbed(m, later, id, slot, codec)
    ensures Holds(RunFrom(m, later, codec), id, slot, p)
  {
    if later == [] {
    } else {
      var last := |later| - 1;
      var earlier := later[..last];
      forall n | 0 <= n < |earlier| ensures earlier[..n] == later[..n] {
      }
      assert Undisturbed(m, earlier, id, slot, codec);
      WaitsUndisturbed(m, earlier, id, slot, p, codec);
      RunKeepsInv(m, earlier, codec);
      StaysQueued(RunFrom(m, earlier, codec), later[last], id, slot, p, codec);
    }
  }

  // ---------------------------------------------------------------- a frame is mixed

  /** The source has something to ask of the decoder: the packet that is due, or concealment for the
      first two frames of a gap. */
  predicate Asks<P>(s: SourceState<P>, clock: int) {
    clock in s.packets || (s.playoutStarted && s.concealedRun < 2)
  }

  function Due<P>(s: SourceState<P>, clock: int): Option<P> {
    if clock in s.packets then Some(s.packets[clock]) else None
  }

  /** What the source adds to the frame. */
  function Contribution<P>(s: SourceState<P>, clock: int, codec: Codec<P>): Option<Frame> {
    if Asks(s, clock) then codec.decode(s.fed, Due(s, clock)) else None
  }

  /** What becomes of a source when a frame is mixed. */
  ghost predicate Plays<P>(s: SourceState<P>, clock: int, codec: Codec<P>, s': SourceState<P>) {
    var rest := s.(packets := s.packets - {clock});
    if !Asks(s, clock) then
      s' == if s.playoutStarted then rest.(fed := [], playoutStarted := false, concealedRun := 0) else rest
    else if Contribution(s, clock, codec).None? then s' == rest.(fed := [], playoutStarted := false)
    else
      s' == rest.(fed := s.fed + [Due(s, clock)], playoutStarted := true,
                  concealedRun := if clock in s.packets then 0 else s.concealedRun + 1)
  }

  lemma TickPlays<P>(s: SourceState<P>, clock: int, codec: Codec<P>)
    requires Bounded(s, clock)
    ensures var t := TickSource(s, clock, codec);
      && Plays(s, clock, codec, t.source)
      && (match Contribution(s, clock, codec)
          case Some(frame) => t.playback == Sounded(Due(s, clock), frame)
          case None => if Asks(s, clock) then t.playback == Failed(Due(s, clock)) else t.playback.Idle? || t.playback.Exhausted?)
  {
    UpcomingShrinks(s.packets, clock);
    if clock !in s.packets {
      assert s.packets - {clock} == s.packets;
    }
  }

  ghost function Heard<P>(m: MixerState<P>, codec: Codec<P>): map<SourceId, Frame> {
    map id | id in m.sources && Contribution(m.sources[id], m.nextPlayoutSlot, codec).Some? ::
      Contribution(m.sources[id], m.nextPlayoutSlot, codec).value
  }

  lemma HeardIsContributions<P>(m: MixerState<P>, codec: Codec<P>)
    requires Inv(m)
    ensures Contributions(Playbacks(m, codec), m.sources.Keys) == Heard(m, codec)
  {
    forall id | id in m.sources
      ensures Playbacks(m, codec)[id].Sounded? <==> Contribution(m.sources[id], m.nextPlayoutSlot, codec).Some?
      ensures Playbacks(m, codec)[id].Sounded? ==>
                Playbacks(m, codec)[id].frame == Contribution(m.sources[id], m.nextPlayoutSlot, codec).value
    {
      TickPlays(m.sources[id], m.nextPlayoutSlot, codec);
    }
    assert Contributions(Playbacks(m, codec), m.sources.Keys) == Heard(m, codec);
  }

  /** The frame that is sent on: nothing when no source contributes, else at every sample the truncated
      mean, summed up in whatever order the sources are visited. */
  ghost predicate IsMix(heard: map<SourceId, Frame>, mixed: Option<seq<int>>) {
    if heard == map[] then mixed.None?
    else
      && mixed.Some? && |mixed.value| == 960
      && forall order, k :: Enumerates(order, heard.Keys) && 0 <= k < 960 ==>
           mixed.value[k] == TruncDiv(SumInOrder(heard, order, k), |heard|)
  }

  lemma MixedFrameIsMix<P>(m: MixerState<P>, codec: Codec<P>)
    requires Inv(m)
    ensures IsMix(Heard(m, codec), MixedFrame(m, codec))
  {
    var heard := Heard(m, codec);
    HeardIsContributions(m, codec);
    forall order, k | Enumerates(order, heard.Keys) && 0 <= k < FRAME_SAMPLES
      ensures SumInOrder(heard, order, k) == SampleSum(heard, heard.Keys, k)
    {
      MixIgnoresOrder(heard, order, heard.Keys, k);
    }
  }

  /** The sources that conceal, and those whose decoder fails. */
  ghost function Concealing<P>(m: MixerState<P>, codec: Codec<P>): set<SourceId> {
    set id | id in m.sources && m.nextPlayoutSlot !in m.sources[id].packets && id in Heard(m, codec)
  }

  ghost function Failing<P>(m: MixerState<P>, codec: Codec<P>): set<SourceId> {
    set id | id in m.sources && Asks(m.sources[id], m.nextPlayoutSlot) && id !in Heard(m, codec)
  }

  /** The whole mixer after a frame, and the frame. */
  ghost predicate MixEffect<P>(m: MixerState<P>, codec: Codec<P>, m': MixerState<P>, mixed: Option<seq<int>>) {
    && m'.nextPlayoutSlot == m.nextPlayoutSlot + 1
    && m'.sources.Keys == m.sources.Keys
    && (forall id :: id in m.sources ==> Plays(m.sources[id], m.nextPlayoutSlot, codec, m'.sources[id]))
    && m'.stats == m.stats.(concealed := m.stats.concealed + |Concealing(m, codec)|,
                            decodeFailures := m.stats.decodeFailures + |Failing(m, codec)|)
    && IsMix(Heard(m, codec), mixed)
  }

  lemma MixCounts<P>(m: MixerState<P>, codec: Codec<P>)
    requires Inv(m)
    ensures CountTicks(m.stats, Playbacks(m, codec), m.sources.Keys) ==
            m.stats.(concealed := m.stats.concealed + |Concealing(m, codec)|,
                     decodeFailures := m.stats.decodeFailures + |Failing(m, codec)|)
  {
    var playbacks, ids := Playbacks(m, codec), m.sources.Keys;
    forall id | id in m.sources
      ensures (playbacks[id].Sounded? && playbacks[id].input.None?) <==> id in Concealing(m, codec)
      ensures playbacks[id].Failed? <==> id in Failing(m, codec)
    {
      TickPlays(m.sources[id], m.nextPlayoutSlot, codec);
    }
    assert (set id | id in ids && id in playbacks && playbacks[id].Sounded? && playbacks[id].input.None?) == Concealing(m, codec);
    assert (set id | id in ids && id in playbacks && playbacks[id].Failed?) == Failing(m, codec);
  }

  lemma MixHasEffect<P>(m: MixerState<P>, codec: Codec<P>)
    requires Inv(m)
    ensures MixEffect(m, codec, Mixed(m, codec), MixedFrame(m, codec))
  {
    forall id | id in m.sources
      ensures Plays(m.sources[id], m.nextPlayoutSlot, codec, Mixed(m, codec).sources[id])
    {
      TickPlays(m.sources[id], m.nextPlayoutSlot, codec);
    }
    MixCounts(m, codec);
    MixedFrameIsMix(m, codec);
  }

  /** Skipped frames are not heard: what is behind the clock goes, what is ahead stays queued, and every
      source falls silent. */
  ghost predicate SkipEffect<P>(m: MixerState<P>, count: nat, m': MixerState<P>) {
    if count == 0 then m' == m
    else
      && m'.nextPlayoutSlot == m.nextPlayoutSlot + count && m'.sources.Keys == m.sources.Keys
      && m'.stats == m.stats.(skipped := m.stats.skipped + count)
      && forall id :: id in m.sources ==>
           var s, s' := m.sources[id], m'.sources[id];
           && s' == s.(packets := s'.packets, fed := [], playoutStarted := false, concealedRun := 0)
           && forall slot :: (slot in s'.packets <==> slot in s.packets && slot >= m'.nextPlayoutSlot) &&
                             (slot in s'.packets ==> s'.packets[slot] == s.packets[slot])
  }

  lemma SkipHasEffect<P>(m: MixerState<P>, count: nat)
    ensures SkipEffect(m, count, Skipped(m, count))
  {
  }

  lemma MixPlays<P>(m: MixerState<P>, codec: Codec<P>, id: SourceId)
    requires Inv(m) && id in m.sources
    ensures var m' := Step(m, MixFrame, codec);
      id in m'.sources && Plays(m.sources[id], m.nextPlayoutSlot, codec, m'.sources[id])
  {
    TickPlays(m.sources[id], m.nextPlayoutSlot, codec);
  }

  /** A queued packet that is not displaced until its slot is due is what the decoder is then asked to
      decode, and what it makes of it is heard. */
  lemma QueuedIsHeard<P>(m: MixerState<P>, later: seq<Event<P>>, id: SourceId, slot: int, p: P, codec: Codec<P>)
    requires Inv(m) && Holds(m, id, slot, p) && Undisturbed(m, later, id, slot, codec)
    requires RunFrom(m, later, codec).nextPlayoutSlot == slot
    ensures HearsDue(RunFrom(m, later, codec), id, p, codec)
  {
    WaitsUndisturbed(m, later, id, slot, p, codec);
  }

  ghost predicate HearsDue<P>(m: MixerState<P>, id: SourceId, p: P, codec: Codec<P>) {
    && id in m.sources
    && var decoded := codec.decode(m.sources[id].fed, Some(p));
       if decoded.Some? then id in Heard(m, codec) && Heard(m, codec)[id] == decoded.value else id !in Heard(m, codec)
  }

  /** There is a free place for the packet: its slot is not taken, nor are four nearer ones. */
  ghost predicate HasRoom<P>(s: SourceState<P>, slot: int) {
    slot !in s.packets && (|s.packets| < 4 || exists k :: k in s.packets && slot < k)
  }

  lemma HonestLast<P>(events: seq<Event<P>>, e: Event<P>, codec: Codec<P>, number: P -> int)
    requires HonestSenders(events + [e], codec, number)
    ensures HonestSenders(events, codec, number)
    ensures HonestStep(Run(events, codec), Tracks(events, codec, number), e, codec, number)
  {
    assert (events + [e])[..|events|] == events;
  }

  lemma HonestSlotHere<P>(s: SourceState<P>, track: Track<P>, clock: int, p: P, sequence: uint16, number: P -> int)
    requires InSenderOrder(s, track, clock, number) && HonestPush(s, track, p, sequence, number) && s.maxSequence.Some?
    ensures SlotOf(s, sequence) - s.anchorSlot == number(p) - track.base
  {
    UnwrapsTrueDistance(number(p), track.base + s.maxExtended);
  }

  lemma HonestSlot<P>(events: seq<Event<P>>, e: Event<P>, codec: Codec<P>, number: P -> int)
    requires HonestSenders(events + [e], codec, number) && e.Push? && codec.valid(e.packet)
    requires e.id in Run(events, codec).sources && Run(events, codec).sources[e.id].maxSequence.Some?
    ensures var s, tracks := Run(events, codec).sources[e.id], Tracks(events, codec, number);
      e.id in tracks && SlotOf(s, e.sequence) - s.anchorSlot == number(e.packet) - tracks[e.id].base
  {
    HonestLast(events, e, codec, number);
    DecodesInSenderOrder(events, codec, number);
    var m, tracks := Run(events, codec), Tracks(events, codec, number);
    HonestSlotHere(m.sources[e.id], tracks[e.id], m.nextPlayoutSlot, e.packet, e.sequence, number);
  }

  /** Over any run: an honest packet, in time and with room, goes to the slot its true number gives it, and
      unless it is displaced is decoded and heard when that slot is due. */
  lemma HonestPacketIsHeard<P>(events: seq<Event<P>>, e: Event<P>, later: seq<Event<P>>, codec: Codec<P>, number: P -> int)
    requires HonestSenders(events + [e], codec, number) && e.Push? && codec.valid(e.packet)
    requires var m := Run(events, codec);
      && e.id in m.sources && InTime(m.sources[e.id], m.nextPlayoutSlot, e.sequence, e.timestamp)
      && HasRoom(m.sources[e.id], SlotOf(m.sources[e.id], e.sequence))
    requires e.id in Tracks(events, codec, number)
    requires var m, base := Run(events, codec), Tracks(events, codec, number)[e.id].base;
      var slot := m.sources[e.id].anchorSlot + number(e.packet) - base;
      Undisturbed(Step(m, e, codec), later, e.id, slot, codec) &&
      RunFrom(Step(m, e, codec), later, codec).nextPlayoutSlot == slot
    ensures HearsDue(RunFrom(Step(Run(events, codec), e, codec), later, codec), e.id, e.packet, codec)
  {
    var m := Run(events, codec);
    HonestSlot(events, e, codec, number);
    RunKeepsInv(EmptyMixer<P>(), events, codec);
    InTimeIsQueued(m, e.id, e.packet, e.sequence, e.timestamp, codec);
    StepKeepsInv(m, e, codec);
    QueuedIsHeard(Step(m, e, codec), later, e.id, SlotOf(m.sources[e.id], e.sequence), e.packet, codec);
  }

  // ---------------------------------------------------------------- what the decoder has been given

  predicate TwoConcealed<P>(fed: seq<Option<P>>) {
    |fed| >= 2 && fed[|fed| - 1].None? && fed[|fed| - 2].None?
  }

  /** One more frame, by what is due and what has been decoded: a due packet is decoded, the first two
      frames of a gap after it are concealed, and a failure or a longer gap starts over. */
  function NextFed<P>(fed: seq<Option<P>>, due: Option<P>, codec: Codec<P>): seq<Option<P>> {
    if due.None? && (fed == [] || TwoConcealed(fed)) then []
    else if codec.decode(fed, due).None? then []
    else fed + [due]
  }

  /** The decoder's inputs since its last reset, told from the packets that were due. */
  ghost function SinceReset<P>(events: seq<Event<P>>, id: SourceId, codec: Codec<P>): seq<Option<P>> {
    if events == [] then []
    else
      var last := |events| - 1;
      var m, fed := Run(events[..last], codec), SinceReset(events[..last], id, codec);
      if id !in m.sources then []
      else
        match events[last]
        case Clear => []
        case RemoveSource(other) => if other == id then [] else fed
        case SkipFrames(count) => if count > 0 then [] else fed
        case Push(other, p, sequence, timestamp) =>
          if other == id && codec.valid(p) && Reopens(m.sources[id], m.nextPlayoutSlot, sequence, timestamp) then []
          else fed
        case MixFrame => NextFed(fed, Due(m.sources[id], m.nextPlayoutSlot), codec)
        case _ => fed
  }

  /** The source's other playback fields follow from what has been fed. */
  ghost predicate FollowsFed<P>(s: SourceState<P>) {
    && (s.playoutStarted <==> s.fed != [])
    && (s.playoutStarted ==> (s.concealedRun >= 2 <==> TwoConcealed(s.fed)) && s.concealedRun == TrailingConcealed(s.fed))
  }

  function TrailingConcealed<P>(fed: seq<Option<P>>): nat {
    if fed == [] || fed[|fed| - 1].Some? then 0 else 1 + TrailingConcealed(fed[..|fed| - 1])
  }

  lemma OneMoreFed<P>(fed: seq<Option<P>>, due: Option<P>)
    ensures TrailingConcealed(fed + [due]) == if due.Some? then 0 else TrailingConcealed(fed) + 1
    ensures TrailingConcealed(fed) >= 2 <==> TwoConcealed(fed)
  {
    assert (fed + [due])[..|fed|] == fed;
  }

  lemma PlaysNextFed<P>(s: SourceState<P>, clock: int, codec: Codec<P>, s': SourceState<P>)
    requires FollowsFed(s) && Plays(s, clock, codec, s')
    ensures FollowsFed(s') && s'.fed == NextFed(s.fed, Due(s, clock), codec)
  {
    OneMoreFed(s.fed, Due(s, clock));
    OneMoreFed(s'.fed, None);
  }

  lemma StepFeeds<P>(m: MixerState<P>, e: Event<P>, id: SourceId, codec: Codec<P>)
    requires Inv(m) && id in m.sources && FollowsFed(m.sources[id]) && id in Step(m, e, codec).sources
    ensures var s, s' := m.sources[id], Step(m, e, codec).sources[id];
      && FollowsFed(s')
      && s'.fed == (match e
         case SkipFrames(count) => if count > 0 then [] else s.fed
         case Push(other, p, sequence, timestamp) =>
           if other == id && codec.valid(p) && Reopens(s, m.nextPlayoutSlot, sequence, timestamp) then [] else s.fed
         case MixFrame => NextFed(s.fed, Due(s, m.nextPlayoutSlot), codec)
         case _ => s.fed)
  {
    match e
    case Push(other, p, sequence, timestamp) =>
      if other == id && codec.valid(p) {
        ReceiveArrives(m.sources[id], m.nextPlayoutSlot, p, sequence, timestamp);
      }
    case MixFrame =>
      MixPlays(m, codec, id);
      PlaysNextFed(m.sources[id], m.nextPlayoutSlot, codec, Step(m, e, codec).sources[id]);
    case _ =>
  }

  /** Over any run the decoder has been given exactly the packets that were due since its last reset, and
      at most two concealments in a row between them. */
  lemma {:induction false} FedIsWhatWasDue<P>(events: seq<Event<P>>, id: SourceId, codec: Codec<P>)
    requires id in Run(events, codec).sources
    ensures Run(events, codec).sources[id].fed == SinceReset(events, id, codec)
    ensures FollowsFed(Run(events, codec).sources[id])
  {
    if events == [] {
    } else {
      var last := |events| - 1;
      var m := Run(events[..last], codec);
      RunKeepsInv(EmptyMixer<P>(), events[..last], codec);
      if id in m.sources {
        FedIsWhatWasDue(events[..last], id, codec);
        StepFeeds(m, events[last], id, codec);
      }
    }
  }

  function Payloads<P>(fed: seq<Option<P>>): seq<P> {
    if fed == [] then []
    else
      var last := fed[|fed| - 1];
      Payloads(fed[..|fed| - 1]) + if last.Some? then [last.value] else []
  }

  predicate EndsWith<T(==)>(whole: seq<T>, end: seq<T>) {
    |end| <= |whole| && whole[|whole| - |end|..] == end
  }

  lemma NextFedPayloads<P>(fed: seq<Option<P>>, due: Option<P>, codec: Codec<P>, played: seq<P>)
    requires EndsWith(played, Payloads(fed))
    ensures EndsWith(if due.Some? then played + [due.value] else played, Payloads(NextFed(fed, due, codec)))
  {
    var next := NextFed(fed, due, codec);
    if next != [] {
      assert next[..|next| - 1] == fed;
    }
  }

  /** And the packets among them are the last of those the track has handed over. */
  lemma {:induction false} FedEndsTrack<P>(events: seq<Event<P>>, id: SourceId, codec: Codec<P>, number: P -> int)
    requires HonestSenders(events, codec, number) && id in Run(events, codec).sources
    ensures id in Tracks(events, codec, number)
    ensures EndsWith(Tracks(events, codec, number)[id].played, Payloads(SinceReset(events, id, codec)))
  {
    DecodesInSenderOrder(events, codec, number);
    if events == [] {
    } else {
      var last := |events| - 1;
      var m := Run(events[..last], codec);
      if id in m.sources {
        FedEndsTrack(events[..last], id, codec, number);
        StepEndsTrack(m, Tracks(events[..last], codec, number), events[last], id, codec, number,
                      SinceReset(events[..last], id, codec));
      }
    }
  }

  lemma StepEndsTrack<P>(m: MixerState<P>, tracks: map<SourceId, Track<P>>, e: Event<P>, id: SourceId, codec: Codec<P>,
                         number: P -> int, fed: seq<Option<P>>)
    requires id in m.sources && id in tracks && id in Step(m, e, codec).sources
    requires EndsWith(tracks[id].played, Payloads(fed))
    ensures var tracks' := TrackStep(tracks, m, e, codec, number);
      var fed' := match e
        case SkipFrames(count) => if count > 0 then [] else fed
        case Push(other, p, sequence, timestamp) =>
          if other == id && codec.valid(p) && Reopens(m.sources[id], m.nextPlayoutSlot, sequence, timestamp) then [] else fed
        case MixFrame => NextFed(fed, Due(m.sources[id], m.nextPlayoutSlot), codec)
        case _ => fed;
      id in tracks' ==> EndsWith(tracks'[id].played, Payloads(fed'))
  {
    match e
    case Push(other, p, sequence, timestamp) =>
      if other == id && codec.valid(p) {
        ClassifiedBy(m.sources[id], m.nextPlayoutSlot, sequence, timestamp);
      }
    case MixFrame => NextFedPayloads(fed, Due(m.sources[id], m.nextPlayoutSlot), codec, tracks[id].played);
    case _ =>
  }
}
