/** What holds of the mixer over whole runs: any interleaving of sources coming and going, packets
    arriving in any order, mixed frames and skipped frames. */
module MicRuns {
  import opened Common
  import opened MicTimeline
  import opened MicMixing

  ghost function RunFrom<P>(m: MixerState<P>, events: seq<Event<P>>, codec: Codec<P>): MixerState<P> {
    if events == [] then m
    else
      var last := |events| - 1;
      Step(RunFrom(m, events[..last], codec), events[last], codec)
  }

  ghost function Run<P>(events: seq<Event<P>>, codec: Codec<P>): MixerState<P> {
    RunFrom(EmptyMixer<P>(), events, codec)
  }

  // ---------------------------------------------------------------- bounds

  lemma {:induction false} RunKeepsInv<P>(m: MixerState<P>, events: seq<Event<P>>, codec: Codec<P>)
    requires Inv(m)
    ensures Inv(RunFrom(m, events, codec))
  {
    if events == [] {
    } else {
      var last := |events| - 1;
      RunKeepsInv(m, events[..last], codec);
      StepKeepsInv(RunFrom(m, events[..last], codec), events[last], codec);
    }
  }

  /** In every reachable state a source has at most four queued packets, all in the nine slots that
      start at the playout clock, so the clean-up loop of mix_next_frame never removes anything. */
  lemma ReachableBuffers<P>(events: seq<Event<P>>, codec: Codec<P>, id: SourceId)
    requires id in Run(events, codec).sources
    ensures var m := Run(events, codec);
      var packets := m.sources[id].packets;
      && |packets| <= MAX_BUFFERED_PACKETS
      && (forall slot :: slot in packets ==> m.nextPlayoutSlot <= slot <= m.nextPlayoutSlot + MAX_FUTURE_FRAMES)
      && Upcoming(packets, m.nextPlayoutSlot) == packets
  {
    RunKeepsInv(EmptyMixer<P>(), events, codec);
    UpcomingShrinks(Run(events, codec).sources[id].packets, Run(events, codec).nextPlayoutSlot);
  }

  ghost function MixedFrames<P>(events: seq<Event<P>>): nat {
    if events == [] then 0
    else MixedFrames(events[..|events| - 1]) + if events[|events| - 1].MixFrame? then 1 else 0
  }

  lemma {:induction false} ClockAdvances<P>(m: MixerState<P>, later: seq<Event<P>>, codec: Codec<P>)
    requires Clear !in later
    ensures RunFrom(m, later, codec).nextPlayoutSlot >= m.nextPlayoutSlot + MixedFrames(later)
  {
    if later == [] {
    } else {
      var last := |later| - 1;
      assert later[last] in later;
      ClockAdvances(m, later[..last], codec);
    }
  }

  /** Whatever else happens meanwhile, nine mixed frames later a slot queued now is no longer queued. */
  lemma LeavesWithinNineFrames<P>(events: seq<Event<P>>, later: seq<Event<P>>, codec: Codec<P>, id: SourceId, slot: int)
    requires var m := Run(events, codec); id in m.sources && slot in m.sources[id].packets
    requires Clear !in later && MixedFrames(later) >= 9
    ensures var m' := RunFrom(Run(events, codec), later, codec);
      forall other :: other in m'.sources ==> slot !in m'.sources[other].packets
  {
    var m := Run(events, codec);
    RunKeepsInv(EmptyMixer<P>(), events, codec);
    RunKeepsInv(m, later, codec);
    ClockAdvances(m, later, codec);
    assert Bounded(m.sources[id], m.nextPlayoutSlot);
  }

  // ---------------------------------------------------------------- the sender's order

  /** `base` is the sender's true number of the packet that opened the current timeline; `played` is
      what has been handed to the decoder since. */
  datatype Track<P> = Track(base: int, played: seq<P>)

  ghost function TrackStep<P>(tracks: map<SourceId, Track<P>>, m: MixerState<P>, e: Event<P>,
                              codec: Codec<P>, number: P -> int): map<SourceId, Track<P>>
  {
    match e
    case AddSource(id, created) =>
      if id in m.sources || !created then tracks else tracks[id := Track(0, [])]
    case RemoveSource(id) => tracks - {id}
    case Clear => map[]
    case Push(id, p, sequence, timestamp) =>
      if id in m.sources && codec.valid(p) &&
         StartsTimeline(Classify(m.sources[id], m.nextPlayoutSlot, sequence, timestamp))
      then tracks[id := Track(number(p), [])]
      else tracks
    case MixFrame =>
      map id | id in tracks ::
        if id in m.sources && m.nextPlayoutSlot in m.sources[id].packets
        then Track(tracks[id].base, tracks[id].played + [m.sources[id].packets[m.nextPlayoutSlot]])
        else tracks[id]
    case _ => tracks
  }

  ghost function Tracks<P>(events: seq<Event<P>>, codec: Codec<P>, number: P -> int): map<SourceId, Track<P>> {
    if events == [] then map[]
    else
      var last := |events| - 1;
      TrackStep(Tracks(events[..last], codec, number), Run(events[..last], codec), events[last], codec, number)
  }

  /** The packet shows the low 16 bits of its true number, which lies within half a cycle of the newest
      number of the timeline it arrives in. */
  ghost predicate HonestPush<P>(s: SourceState<P>, track: Track<P>, p: P, sequence: uint16, number: P -> int) {
    && sequence == number(p) % 0x1_0000
    && (s.maxSequence.Some? ==> -0x8000 <= number(p) - (track.base + s.maxExtended) < 0x8000)
  }

  ghost predicate HonestStep<P>(m: MixerState<P>, tracks: map<SourceId, Track<P>>, e: Event<P>,
                                codec: Codec<P>, number: P -> int)
  {
    e.Push? && e.id in m.sources && e.id in tracks && codec.valid(e.packet) ==>
      HonestPush(m.sources[e.id], tracks[e.id], e.packet, e.sequence, number)
  }

  ghost predicate HonestSenders<P>(events: seq<Event<P>>, codec: Codec<P>, number: P -> int) {
    events != [] ==>
      var last := |events| - 1;
      && HonestSenders(events[..last], codec, number)
      && HonestStep(Run(events[..last], codec), Tracks(events[..last], codec, number), events[last], codec, number)
  }

  /** Slots mirror true numbers, and what has been played is in strictly increasing sender order. */
  ghost predicate InSenderOrder<P>(s: SourceState<P>, track: Track<P>, clock: int, number: P -> int) {
    && (s.maxSequence.None? ==> track.played == [])
    && (s.maxSequence.Some? ==> s.maxSequence.value == (track.base + s.maxExtended) % 0x1_0000)
    && (forall slot :: slot in s.packets ==> slot - s.anchorSlot == number(s.packets[slot]) - track.base)
    && (forall i, j :: 0 <= i < j < |track.played| ==> number(track.played[i]) < number(track.played[j]))
    && (forall i :: 0 <= i < |track.played| ==> number(track.played[i]) - track.base < clock - s.anchorSlot)
  }

  ghost predicate AllInSenderOrder<P>(m: MixerState<P>, tracks: map<SourceId, Track<P>>, number: P -> int) {
    tracks.Keys == m.sources.Keys &&
    forall id :: id in tracks ==> InSenderOrder(m.sources[id], tracks[id], m.nextPlayoutSlot, number)
  }

  lemma NotedInOrder<P>(s: SourceState<P>, track: Track<P>, clock: int, p: P, sequence: uint16,
                        timestamp: Option<uint32>, number: P -> int)
    requires InSenderOrder(s, track, clock, number) && HonestPush(s, track, p, sequence, number)
    requires s.maxSequence.Some?
    ensures InSenderOrder(Noted(s, sequence, timestamp), track, clock, number)
    ensures TargetSlot(s, sequence) - s.anchorSlot == number(p) - track.base
  {
    UnwrapsTrueDistance(number(p), track.base + s.maxExtended);
  }

  lemma QueuedInOrder<P>(s: SourceState<P>, track: Track<P>, clock: int, slot: int, p: P, number: P -> int)
    requires InSenderOrder(s, track, clock, number) && |s.packets| <= MAX_BUFFERED_PACKETS
    requires slot - s.anchorSlot == number(p) - track.base
    ensures InSenderOrder(s.(packets := Enqueue(s.packets, slot, p)), track, clock, number)
  {
    EnqueueStep(s.packets, slot, p);
  }

  lemma PushInOrder<P>(s: SourceState<P>, track: Track<P>, clock: int, p: P, sequence: uint16,
                       timestamp: Option<uint32>, number: P -> int)
    requires InSenderOrder(s, track, clock, number) && HonestPush(s, track, p, sequence, number)
    requires Bounded(s, clock)
    ensures var track' := if StartsTimeline(Classify(s, clock, sequence, timestamp)) then Track(number(p), []) else track;
      InSenderOrder(Receive(s, clock, p, sequence, timestamp), track', clock, number)
  {
    var verdict := Classify(s, clock, sequence, timestamp);
    if verdict.Overdue? || verdict.InWindow? {
      NotedInOrder(s, track, clock, p, sequence, timestamp, number);
      if verdict.InWindow? {
        QueuedInOrder(Noted(s, sequence, timestamp), track, clock, TargetSlot(s, sequence), p, number);
      }
    }
  }

  lemma TickInOrder<P>(s: SourceState<P>, track: Track<P>, clock: int, codec: Codec<P>, number: P -> int)
    requires InSenderOrder(s, track, clock, number) && Bounded(s, clock)
    ensures var track' := if clock in s.packets then Track(track.base, track.played + [s.packets[clock]]) else track;
      InSenderOrder(TickSource(s, clock, codec).source, track', clock + 1, number)
  {
    var s' := TickSource(s, clock, codec).source;
    assert forall slot :: slot in s'.packets ==> slot in s.packets && s'.packets[slot] == s.packets[slot];
  }

  lemma MixTracksPointwise<P>(m: MixerState<P>, tracks: map<SourceId, Track<P>>, codec: Codec<P>, number: P -> int, id: SourceId)
    requires id in m.sources && tracks.Keys == m.sources.Keys
    ensures var tracks' := TrackStep(tracks, m, MixFrame, codec, number);
      && id in tracks' && id in Mixed(m, codec).sources
      && Mixed(m, codec).sources[id] == TickSource(m.sources[id], m.nextPlayoutSlot, codec).source
      && tracks'[id] == if m.nextPlayoutSlot in m.sources[id].packets
                        then Track(tracks[id].base, tracks[id].played + [m.sources[id].packets[m.nextPlayoutSlot]])
                        else tracks[id]
  {
  }

  lemma MixOneInOrder<P>(m: MixerState<P>, tracks: map<SourceId, Track<P>>, codec: Codec<P>, number: P -> int, id: SourceId)
    requires Inv(m) && AllInSenderOrder(m, tracks, number) && id in m.sources
    ensures var m', tracks' := Mixed(m, codec), TrackStep(tracks, m, MixFrame, codec, number);
      id in m'.sources && id in tracks' && InSenderOrder(m'.sources[id], tracks'[id], m'.nextPlayoutSlot, number)
  {
    var s, clock := m.sources[id], m.nextPlayoutSlot;
    var track' := if clock in s.packets then Track(tracks[id].base, tracks[id].played + [s.packets[clock]]) else tracks[id];
    TickInOrder(s, tracks[id], clock, codec, number);
    MixTracksPointwise(m, tracks, codec, number, id);
    SameInOrder(TickSource(s, clock, codec).source, Mixed(m, codec).sources[id],
                track', TrackStep(tracks, m, MixFrame, codec, number)[id], clock + 1, number);
  }

  lemma SameInOrder<P>(s: SourceState<P>, s': SourceState<P>, track: Track<P>, track': Track<P>, clock: int, number: P -> int)
    requires s == s' && track == track' && InSenderOrder(s, track, clock, number)
    ensures InSenderOrder(s', track', clock, number)
  {
  }

  lemma MixInOrder<P>(m: MixerState<P>, tracks: map<SourceId, Track<P>>, codec: Codec<P>, number: P -> int)
    requires Inv(m) && AllInSenderOrder(m, tracks, number)
    ensures AllInSenderOrder(Mixed(m, codec), TrackStep(tracks, m, MixFrame, codec, number), number)
  {
    var m', tracks' := Mixed(m, codec), TrackStep(tracks, m, MixFrame, codec, number);
    assert tracks'.Keys == tracks.Keys == m.sources.Keys == m'.sources.Keys;
    forall id | id in tracks' ensures InSenderOrder(m'.sources[id], tracks'[id], m'.nextPlayoutSlot, number) {
      MixOneInOrder(m, tracks, codec, number, id);
    }
  }

  lemma SkipInOrder<P>(m: MixerState<P>, tracks: map<SourceId, Track<P>>, count: nat, number: P -> int)
    requires AllInSenderOrder(m, tracks, number)
    ensures AllInSenderOrder(Skipped(m, count), tracks, number)
  {
  }

  lemma StepInOrder<P>(m: MixerState<P>, tracks: map<SourceId, Track<P>>, e: Event<P>, codec: Codec<P>, number: P -> int)
    requires Inv(m) && AllInSenderOrder(m, tracks, number) && HonestStep(m, tracks, e, codec, number)
    ensures AllInSenderOrder(Step(m, e, codec), TrackStep(tracks, m, e, codec, number), number)
  {
    match e
    case Push(id, p, sequence, timestamp) =>
      if id in m.sources && codec.valid(p) {
        PushInOrder(m.sources[id], tracks[id], m.nextPlayoutSlot, p, sequence, timestamp, number);
      }
    case MixFrame => MixInOrder(m, tracks, codec, number);
    case SkipFrames(count) => SkipInOrder(m, tracks, count, number);
    case _ =>
  }

  /** Whatever the arrival order, loss, duplication and number of 16-bit wraps: within one timeline a
      slot differs from the anchor slot as the true numbers do, and packets reach the decoder in
      strictly increasing sender order, hence each at most once. */
  lemma {:induction false} DecodesInSenderOrder<P>(events: seq<Event<P>>, codec: Codec<P>, number: P -> int)
    requires HonestSenders(events, codec, number)
    ensures AllInSenderOrder(Run(events, codec), Tracks(events, codec, number), number)
  {
    if events == [] {
    } else {
      var last := |events| - 1;
      DecodesInSenderOrder(events[..last], codec, number);
      RunKeepsInv(EmptyMixer<P>(), events[..last], codec);
      StepInOrder(Run(events[..last], codec), Tracks(events[..last], codec, number), events[last], codec, number);
    }
  }

  /** So a packet turned away because its slot is taken is a true duplicate of the one queued there. */
  lemma RefusedSlotIsTrueDuplicate<P>(s: SourceState<P>, track: Track<P>, clock: int, p: P, sequence: uint16,
                                      number: P -> int)
    requires InSenderOrder(s, track, clock, number) && HonestPush(s, track, p, sequence, number)
    requires s.maxSequence.Some? && TargetSlot(s, sequence) in s.packets
    ensures number(s.packets[TargetSlot(s, sequence)]) == number(p)
  {
    UnwrapsTrueDistance(number(p), track.base + s.maxExtended);
  }

  // ---------------------------------------------------------------- source restarts

  ghost predicate Reaches<P>(m: MixerState<P>, e: Event<P>, id: SourceId, codec: Codec<P>) {
    e.Push? && e.id == id && id in m.sources && codec.valid(e.packet)
  }

  ghost function VerdictOn<P>(m: MixerState<P>, e: Event<P>): Verdict
    requires e.Push? && e.id in m.sources
  {
    Classify(m.sources[e.id], m.nextPlayoutSlot, e.sequence, e.timestamp)
  }

  /** The event leaves the source alone, or is a repeat of its newest packet. */
  ghost predicate Quiet<P>(m: MixerState<P>, e: Event<P>, id: SourceId, codec: Codec<P>) {
    && e != RemoveSource(id) && e != Clear
    && (Reaches(m, e, id, codec) ==> VerdictOn(m, e).Repeat?)
  }

  /** Event `j` was a stale packet numbered just before `expected`, and nothing since has touched the
      source but repeats of its newest packet. */
  ghost predicate HintedAt<P>(events: seq<Event<P>>, j: int, id: SourceId, expected: uint16, codec: Codec<P>) {
    && 0 <= j < |events|
    && Reaches(Run(events[..j], codec), events[j], id, codec)
    && VerdictOn(Run(events[..j], codec), events[j]).StaleHint?
    && (events[j].sequence + 1) % 0x1_0000 == expected
    && (forall k :: j < k < |events| ==> Quiet(Run(events[..k], codec), events[k], id, codec))
  }

  lemma {:induction false} StaysPresent<P>(events: seq<Event<P>>, j: int, id: SourceId, codec: Codec<P>)
    requires 0 <= j <= |events| && id in Run(events[..j], codec).sources
    requires forall k :: j <= k < |events| ==> events[k] != RemoveSource(id) && events[k] != Clear
    ensures id in Run(events, codec).sources
  {
    if j == |events| {
      assert events[..j] == events;
    } else {
      var n := |events| - 1;
      assert events[..n][..j] == events[..j];
      StaysPresent(events[..n], j, id, codec);
    }
  }

  lemma HintCarriesOver<P>(earlier: seq<Event<P>>, e: Event<P>, id: SourceId, expected: uint16, codec: Codec<P>)
    requires Quiet(Run(earlier, codec), e, id, codec)
    ensures (exists j :: HintedAt(earlier + [e], j, id, expected, codec))
       <==> (exists j :: HintedAt(earlier, j, id, expected, codec))
  {
    var events, n := earlier + [e], |earlier|;
    assert forall k :: 0 <= k <= n ==> earlier[..k] == events[..k];
    assert events[..n] == earlier;
    forall j ensures HintedAt(events, j, id, expected, codec) <==> HintedAt(earlier, j, id, expected, codec) {
      assert !HintedAt(events, n, id, expected, codec);
      if 0 <= j < n {
        assert forall k :: j < k < n ==> events[k] == earlier[k];
      }
    }
  }

  lemma HintIsReplaced<P>(earlier: seq<Event<P>>, e: Event<P>, id: SourceId, expected: uint16, codec: Codec<P>)
    requires var m := Run(earlier, codec); Reaches(m, e, id, codec) && !VerdictOn(m, e).Repeat?
    ensures (exists j :: HintedAt(earlier + [e], j, id, expected, codec))
       <==> VerdictOn(Run(earlier, codec), e).StaleHint? && (e.sequence + 1) % 0x1_0000 == expected
  {
    var events, n := earlier + [e], |earlier|;
    assert events[..n] == earlier;
    forall j | j != n ensures !HintedAt(events, j, id, expected, codec) {
      if 0 <= j < n {
        assert !Quiet(Run(events[..n], codec), events[n], id, codec);
      }
    }
    if VerdictOn(Run(earlier, codec), e).StaleHint? && (e.sequence + 1) % 0x1_0000 == expected {
      assert HintedAt(events, n, id, expected, codec);
    }
  }

  lemma NoHintBeforeArrival<P>(earlier: seq<Event<P>>, e: Event<P>, id: SourceId, expected: uint16, codec: Codec<P>)
    requires id !in Run(earlier, codec).sources
    ensures !exists j :: HintedAt(earlier + [e], j, id, expected, codec)
  {
    var events, n := earlier + [e], |earlier|;
    assert events[..n] == earlier;
    forall j ensures !HintedAt(events, j, id, expected, codec) {
      if HintedAt(events, j, id, expected, codec) {
        if j < n {
          assert events[..j] == earlier[..j];
          forall k | j <= k < n ensures earlier[k] != RemoveSource(id) && earlier[k] != Clear {
            assert k > j ==> Quiet(Run(events[..k], codec), events[k], id, codec);
          }
          StaysPresent(earlier, j, id, codec);
        }
      }
    }
  }

  /** A restart hint is pending exactly when a stale packet numbered one less arrived and nothing but
      repeats of the newest packet has reached the source since. */
  lemma {:induction false} HintExplained<P>(events: seq<Event<P>>, id: SourceId, expected: uint16, codec: Codec<P>)
    requires id in Run(events, codec).sources
    ensures Run(events, codec).sources[id].expectedRestart == Some(expected)
       <==> exists j :: HintedAt(events, j, id, expected, codec)
  {
    if events == [] {
    } else {
      var last := |events| - 1;
      var earlier, e := events[..last], events[last];
      var m := Run(earlier, codec);
      assert events == earlier + [e];
      if id !in m.sources {
        NoHintBeforeArrival(earlier, e, id, expected, codec);
      } else {
        HintExplained(earlier, id, expected, codec);
        if Quiet(m, e, id, codec) {
          HintCarriesOver(earlier, e, id, expected, codec);
          QuietKeepsHint(m, e, id, codec);
        } else {
          LoudSetsHint(m, e, id, expected, codec);
          HintIsReplaced(earlier, e, id, expected, codec);
        }
      }
    }
  }

  lemma LoudSetsHint<P>(m: MixerState<P>, e: Event<P>, id: SourceId, expected: uint16, codec: Codec<P>)
    requires id in m.sources && id in Step(m, e, codec).sources && !Quiet(m, e, id, codec)
    ensures Reaches(m, e, id, codec) && !VerdictOn(m, e).Repeat?
    ensures Step(m, e, codec).sources[id].expectedRestart == Some(expected)
       <==> VerdictOn(m, e).StaleHint? && (e.sequence + 1) % 0x1_0000 == expected
  {
  }

  lemma QuietKeepsHint<P>(m: MixerState<P>, e: Event<P>, id: SourceId, codec: Codec<P>)
    requires id in m.sources && Quiet(m, e, id, codec)
    ensures id in Step(m, e, codec).sources
    ensures Step(m, e, codec).sources[id].expectedRestart == m.sources[id].expectedRestart
  {
  }

  /** A backward restart resets the timeline exactly when a stale packet follows a stale packet numbered
      one less, with no valid packet between them other than repeats of the newest one. A late packet
      on its own never resets anything. */
  lemma RestartNeedsTwoConsecutiveStale<P>(events: seq<Event<P>>, e: Event<P>, codec: Codec<P>)
    requires e.Push? && Reaches(Run(events, codec), e, e.id, codec)
    ensures var m := Run(events, codec);
      var s := m.sources[e.id];
      VerdictOn(m, e).SourceRestart? <==>
        && s.maxSequence.Some?
        && SequenceDistance(e.sequence, s.maxSequence.value) < 0
        && TargetSlot(s, e.sequence) < m.nextPlayoutSlot
        && exists j :: HintedAt(events, j, e.id, e.sequence, codec)
  {
    HintExplained(events, e.id, e.sequence, codec);
  }

  // ---------------------------------------------------------------- concealment

  /** How many concealment frames the source has contributed since its last decoded packet. */
  ghost function ConcealedSince<P>(events: seq<Event<P>>, id: SourceId, codec: Codec<P>): nat {
    if events == [] then 0
    else
      var last := |events| - 1;
      var m, before := Run(events[..last], codec), ConcealedSince(events[..last], id, codec);
      if id !in m.sources then 0
      else if !events[last].MixFrame? then before
      else
        CountAfter(before, TickSource(m.sources[id], m.nextPlayoutSlot, codec).playback)
  }

  ghost predicate CountsConcealment<P>(m: MixerState<P>, id: SourceId, count: nat) {
    count <= JITTER_BUFFER_FRAMES &&
    (id in m.sources && m.sources[id].playoutStarted ==> m.sources[id].concealedRun == count)
  }

  lemma ReceiveConceals<P>(s: SourceState<P>, clock: int, p: P, sequence: uint16, timestamp: Option<uint32>)
    ensures var s' := Receive(s, clock, p, sequence, timestamp);
      s'.playoutStarted ==> s.playoutStarted && s'.concealedRun == s.concealedRun
  {
  }

  ghost function CountAfter<P>(before: nat, playback: Playback<P>): nat {
    match playback
    case Sounded(Some(_), _) => 0
    case Sounded(None, _) => before + 1
    case _ => before
  }

  lemma TickConceals<P>(s: SourceState<P>, slot: int, codec: Codec<P>, before: nat)
    requires before <= JITTER_BUFFER_FRAMES && (s.playoutStarted ==> s.concealedRun == before)
    ensures var t := TickSource(s, slot, codec);
      var after := CountAfter(before, t.playback);
      after <= JITTER_BUFFER_FRAMES && (t.source.playoutStarted ==> t.source.concealedRun == after)
  {
  }

  lemma StepConceals<P>(m: MixerState<P>, e: Event<P>, id: SourceId, codec: Codec<P>, before: nat)
    requires CountsConcealment(m, id, before) && id in m.sources
    ensures var after := if e.MixFrame? then CountAfter(before, TickSource(m.sources[id], m.nextPlayoutSlot, codec).playback) else before;
      CountsConcealment(Step(m, e, codec), id, after)
  {
    match e
    case Push(other, p, sequence, timestamp) =>
      if other == id {
        ReceiveConceals(m.sources[id], m.nextPlayoutSlot, p, sequence, timestamp);
      }
    case MixFrame => TickConceals(m.sources[id], m.nextPlayoutSlot, codec, before);
    case _ =>
  }

  /** Between two decoded packets a source contributes at most two concealment frames. */
  lemma {:induction false} ConcealmentIsBounded<P>(events: seq<Event<P>>, id: SourceId, codec: Codec<P>)
    ensures CountsConcealment(Run(events, codec), id, ConcealedSince(events, id, codec))
    ensures ConcealedSince(events, id, codec) <= 2
  {
    if events == [] {
    } else {
      var last := |events| - 1;
      var m := Run(events[..last], codec);
      ConcealmentIsBounded(events[..last], id, codec);
      if id in m.sources {
        StepConceals(m, events[last], id, codec, ConcealedSince(events[..last], id, codec));
      }
    }
  }
}
