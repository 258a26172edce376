/** One microphone source: how a 16-bit sequence number becomes a playout slot, what the reorder
    buffer keeps, and what one tick of the playout clock does. These functions specify the methods
    of the classes in MicMixer. `P` is an Opus payload; the codec is a parameter. */
module MicTimeline {
  import opened Common

  const MAX_BUFFERED_PACKETS := 4
  const MAX_FUTURE_FRAMES := 8
  const TIMESTAMP_DISCONTINUITY_MS := 200
  const JITTER_BUFFER_FRAMES := 2
  const FRAME_MS := 20
  const FRAME_SAMPLES := 960

  ghost predicate IsFrame(f: seq<int>) {
    |f| == FRAME_SAMPLES && forall i :: 0 <= i < |f| ==> -0x8000 <= f[i] < 0x8000
  }

  type Frame = f: seq<int> | IsFrame(f) ghost witness seq(FRAME_SAMPLES, _ => 0)

  /** The decoder as the mixer sees it: whether a payload is a single 20 ms packet, and what decoding
      gives after the inputs fed since the last reset (None asks for concealment). */
  datatype Codec<!P> = Codec(valid: P -> bool, decode: (seq<Option<P>>, Option<P>) -> Option<Frame>)

  datatype Stats = Stats(
    duplicates: nat, late: nat, overflows: nat, reanchors: nat,
    concealed: nat, decodeFailures: nat, skipped: nat)

  const NO_STATS := Stats(0, 0, 0, 0, 0, 0, 0)

  /** `fed` stands for the Opus decoder's state: its inputs since it was last reset. */
  datatype SourceState<P> = SourceState(
    maxSequence: Option<uint16>,
    maxExtended: int,
    maxTimestamp: Option<uint32>,
    anchorSlot: int,
    expectedRestart: Option<uint16>,
    packets: map<int, P>,
    playoutStarted: bool,
    concealedRun: nat,
    fed: seq<Option<P>>)

  function FreshSource<P>(): SourceState<P> {
    SourceState(None, 0, None, 0, None, map[], false, 0, [])
  }

  // ---------------------------------------------------------------- modular distances

  /** The representative of `newer - older` that a signed 16-bit counter would show. */
  function SequenceDistance(newer: uint16, older: uint16): (d: int)
    ensures -0x8000 <= d < 0x8000
    ensures (older + d) % 0x1_0000 == newer
  {
    var distance := (newer - older) % 0x1_0000;
    if distance < 0x8000 then distance else distance - 0x1_0000
  }

  function TimestampDistance(newer: uint32, older: uint32): (d: int)
    ensures -0x8000_0000 <= d < 0x8000_0000
    ensures (older + d) % 0x1_0000_0000 == newer
  {
    var distance := (newer - older) % 0x1_0000_0000;
    if distance < 0x8000_0000 then distance else distance - 0x1_0000_0000
  }

  /** However often the counter has wrapped, the distance is the true one while the two numbers are
      less than half a cycle apart. */
  lemma UnwrapsTrueDistance(newer: int, older: int)
    ensures SequenceDistance(newer % 0x1_0000, older % 0x1_0000) == newer - older
       <==> -0x8000 <= newer - older < 0x8000
  {
    var d := SequenceDistance(newer % 0x1_0000, older % 0x1_0000);
    var e := newer - older;
    assert (newer % 0x1_0000 - older % 0x1_0000) % 0x1_0000 == e % 0x1_0000;
    if -0x8000 <= e < 0 {
      assert (e + 0x1_0000) % 0x1_0000 == e + 0x1_0000;
    }
  }

  // ---------------------------------------------------------------- the reorder buffer

  lemma HasFurthest(slots: set<int>) returns (k: int)
    requires slots != {}
    ensures k in slots && forall s :: s in slots ==> s <= k
  {
    k := SomeMember(slots);
    if slots != {k} {
      var rest := HasFurthest(slots - {k});
      assert slots == {k} + (slots - {k});
      k := Max(k, rest);
    }
  }

  ghost function Furthest(slots: set<int>): (k: int)
    requires slots != {}
    ensures k in slots && forall s :: s in slots ==> s <= k
  {
    assert exists k :: k in slots && forall s :: s in slots ==> s <= k by { var k := HasFurthest(slots); }
    var k :| k in slots && forall s :: s in slots ==> s <= k;
    k
  }

  ghost function Enqueue<P>(packets: map<int, P>, slot: int, p: P): map<int, P> {
    if slot in packets then packets
    else
      var grown := packets[slot := p];
      if |grown| <= MAX_BUFFERED_PACKETS then grown else grown - {Furthest(grown.Keys)}
  }

  /** What queue_packet reports: the offered packet itself is now in the buffer. */
  ghost predicate Kept<P>(packets: map<int, P>, slot: int, p: P) {
    slot !in packets && slot in Enqueue(packets, slot, p)
  }

  ghost function CountOffer<P>(stats: Stats, packets: map<int, P>, slot: int): Stats {
    if slot in packets then stats.(duplicates := stats.duplicates + 1)
    else if |packets| < MAX_BUFFERED_PACKETS then stats
    else stats.(overflows := stats.overflows + 1)
  }

  ghost function EnqueueAll<P>(offers: seq<(int, P)>): map<int, P> {
    if |offers| == 0 then map[]
    else
      var last := offers[|offers| - 1];
      Enqueue(EnqueueAll(offers[..|offers| - 1]), last.0, last.1)
  }

  ghost predicate FirstOffer<P>(offers: seq<(int, P)>, i: int, slot: int) {
    0 <= i < |offers| && offers[i].0 == slot && forall j :: 0 <= j < i ==> offers[j].0 != slot
  }

  /** Four packets are there, and the slot lies beyond them all. */
  ghost predicate Beyond<P>(kept: map<int, P>, slot: int) {
    |kept| == MAX_BUFFERED_PACKETS && forall s :: s in kept ==> s < slot
  }

  ghost predicate PayloadsAreFirst<P>(offers: seq<(int, P)>, kept: map<int, P>) {
    forall s :: s in kept ==> exists i :: FirstOffer(offers, i, s) && kept[s] == offers[i].1
  }

  ghost predicate MissingAreBeyond<P>(offers: seq<(int, P)>, kept: map<int, P>) {
    forall i :: 0 <= i < |offers| && offers[i].0 !in kept ==> Beyond(kept, offers[i].0)
  }

  /** At most four slots, each with the payload first offered for it; every slot offered but absent
      lies beyond four kept ones. */
  ghost predicate NearestOffers<P>(offers: seq<(int, P)>, kept: map<int, P>) {
    |kept| <= MAX_BUFFERED_PACKETS && PayloadsAreFirst(offers, kept) && MissingAreBeyond(offers, kept)
  }

  /** One offer: nothing but the offered packet enters, and whatever is missing afterwards lies beyond
      four packets that are there. */
  lemma EnqueueStep<P>(packets: map<int, P>, slot: int, p: P)
    requires |packets| <= MAX_BUFFERED_PACKETS
    ensures var kept := Enqueue(packets, slot, p);
      && |packets| <= |kept| <= MAX_BUFFERED_PACKETS
      && (forall s :: s in kept ==> if s in packets then kept[s] == packets[s] else s == slot && kept[s] == p)
      && (forall s :: s in packets.Keys + {slot} && s !in kept ==> Beyond(kept, s))
      && (|packets| == MAX_BUFFERED_PACKETS && slot in kept && slot !in packets ==>
            exists k :: k in packets && slot < k)
  {
    if slot !in packets {
      var grown := packets[slot := p];
      assert grown.Keys == packets.Keys + {slot};
      if |grown| > MAX_BUFFERED_PACKETS {
        var last := Furthest(grown.Keys);
        var kept := grown - {last};
        assert kept.Keys == grown.Keys - {last};
        assert slot in kept ==> last in packets && slot < last;
      }
    }
  }

  lemma PayloadsStayFirst<P>(offers: seq<(int, P)>, before: map<int, P>, slot: int, p: P)
    requires |before| <= MAX_BUFFERED_PACKETS && PayloadsAreFirst(offers, before)
    requires slot !in before && slot in Enqueue(before, slot, p) ==> forall i :: 0 <= i < |offers| ==> offers[i].0 != slot
    ensures PayloadsAreFirst(offers + [(slot, p)], Enqueue(before, slot, p))
  {
    var all, kept := offers + [(slot, p)], Enqueue(before, slot, p);
    EnqueueStep(before, slot, p);
    forall s | s in kept ensures exists i :: FirstOffer(all, i, s) && kept[s] == all[i].1 {
      if s in before {
        var i :| FirstOffer(offers, i, s) && before[s] == offers[i].1;
        assert FirstOffer(all, i, s);
      } else {
        assert FirstOffer(all, |offers|, s);
      }
    }
  }

  lemma MissingStaysBeyond<P>(before: map<int, P>, slot: int, p: P, s: int)
    requires |before| <= MAX_BUFFERED_PACKETS
    requires s == slot || s in before || Beyond(before, s)
    ensures s !in Enqueue(before, slot, p) ==> Beyond(Enqueue(before, slot, p), s)
  {
    EnqueueStep(before, slot, p);
  }

  lemma OneMoreOffer<P>(offers: seq<(int, P)>, slot: int, p: P)
    requires NearestOffers(offers, EnqueueAll(offers))
    ensures NearestOffers(offers + [(slot, p)], Enqueue(EnqueueAll(offers), slot, p))
  {
    var before, all := EnqueueAll(offers), offers + [(slot, p)];
    var kept := Enqueue(before, slot, p);
    EnqueueStep(before, slot, p);
    forall i | 0 <= i < |all| && all[i].0 !in kept ensures Beyond(kept, all[i].0) {
      assert i < |offers| ==> all[i] == offers[i];
      MissingStaysBeyond(before, slot, p, all[i].0);
    }
    forall i | 0 <= i < |offers| && slot !in before && slot in kept ensures offers[i].0 != slot {
      assert offers[i].0 == slot ==> Beyond(before, slot);
    }
    PayloadsStayFirst(offers, before, slot, p);
  }

  /** Whatever is offered in whatever order, the buffer ends with the four nearest distinct slots. */
  lemma {:induction false} BufferKeepsNearest<P>(offers: seq<(int, P)>)
    ensures NearestOffers(offers, EnqueueAll(offers))
  {
    if offers == [] {
    } else {
      var n := |offers| - 1;
      BufferKeepsNearest(offers[..n]);
      OneMoreOffer(offers[..n], offers[n].0, offers[n].1);
      assert offers == offers[..n] + [(offers[n].0, offers[n].1)];
    }
  }

  // ---------------------------------------------------------------- receiving a packet

  /** The ways push_packet can treat a valid packet. */
  datatype Verdict =
    | Opening        // first packet of the source
    | Repeat         // same number as the newest
    | StaleHint      // behind the clock: remembered as a possible restart
    | SourceRestart  // second consecutive stale number: the sender restarted
    | Reanchor       // clock jump, too far ahead, or an idle timeline that ran out
    | Overdue        // newest so far, yet its slot has already played
    | InWindow       // goes to its slot

  predicate TimestampJump(s: SourceState, distance: int, timestamp: Option<uint32>) {
    timestamp.Some? && s.maxTimestamp.Some? &&
    var delta := TimestampDistance(timestamp.value, s.maxTimestamp.value);
    var error := delta - distance * FRAME_MS;
    delta < 0 || error > TIMESTAMP_DISCONTINUITY_MS || error < -TIMESTAMP_DISCONTINUITY_MS
  }

  function TargetSlot(s: SourceState, sequence: uint16): int
    requires s.maxSequence.Some?
  {
    s.anchorSlot + s.maxExtended + SequenceDistance(sequence, s.maxSequence.value)
  }

  function Classify(s: SourceState, clock: int, sequence: uint16, timestamp: Option<uint32>): Verdict {
    if s.maxSequence.None? then Opening
    else
      var distance := SequenceDistance(sequence, s.maxSequence.value);
      var slot := TargetSlot(s, sequence);
      if distance == 0 then Repeat
      else if distance < 0 then
        if slot >= clock then InWindow
        else if s.expectedRestart == Some(sequence) then SourceRestart
        else StaleHint
      else if TimestampJump(s, distance, timestamp) || slot > clock + MAX_FUTURE_FRAMES then Reanchor
      else if slot >= clock then InWindow
      else if s.playoutStarted then Overdue
      else Reanchor
  }

  predicate StartsTimeline(v: Verdict) {
    v.Opening? || v.SourceRestart? || v.Reanchor?
  }

  function Restarted<P>(sequence: uint16, timestamp: Option<uint32>, slot: int): SourceState<P> {
    FreshSource<P>().(maxSequence := Some(sequence), maxTimestamp := timestamp, anchorSlot := slot)
  }

  function Opened<P>(clock: int, p: P, sequence: uint16, timestamp: Option<uint32>): SourceState<P> {
    var slot := clock + JITTER_BUFFER_FRAMES;
    Restarted(sequence, timestamp, slot).(packets := map[slot := p])
  }

  /** A packet ahead of the newest moves the newest forward; any packet of the timeline withdraws a
      restart hint. */
  function Noted<P>(s: SourceState<P>, sequence: uint16, timestamp: Option<uint32>): SourceState<P>
    requires s.maxSequence.Some?
  {
    var distance := SequenceDistance(sequence, s.maxSequence.value);
    if distance > 0 then
      s.(maxSequence := Some(sequence), maxExtended := s.maxExtended + distance,
         maxTimestamp := timestamp, expectedRestart := None)
    else s.(expectedRestart := None)
  }

  ghost function Receive<P>(s: SourceState<P>, clock: int, p: P, sequence: uint16,
                            timestamp: Option<uint32>): SourceState<P>
  {
    match Classify(s, clock, sequence, timestamp)
    case Repeat => s
    case StaleHint => s.(expectedRestart := Some((sequence + 1) % 0x1_0000))
    case Overdue => Noted(s, sequence, timestamp)
    case InWindow => Noted(s, sequence, timestamp).(packets := Enqueue(s.packets, TargetSlot(s, sequence), p))
    case _ => Opened(clock, p, sequence, timestamp)
  }

  ghost predicate Accepted<P>(s: SourceState<P>, clock: int, p: P, sequence: uint16, timestamp: Option<uint32>) {
    var v := Classify(s, clock, sequence, timestamp);
    StartsTimeline(v) || (v.InWindow? && Kept(s.packets, TargetSlot(s, sequence), p))
  }

  ghost function CountReceive<P>(stats: Stats, s: SourceState<P>, clock: int, sequence: uint16,
                                 timestamp: Option<uint32>): Stats
  {
    match Classify(s, clock, sequence, timestamp)
    case Opening => stats
    case Repeat => stats.(duplicates := stats.duplicates + 1)
    case StaleHint => stats.(late := stats.late + 1)
    case Overdue => stats.(late := stats.late + 1)
    case InWindow => CountOffer(stats, s.packets, TargetSlot(s, sequence))
    case _ => stats.(reanchors := stats.reanchors + 1)
  }

  // ---------------------------------------------------------------- one tick of the playout clock

  datatype Playback<P> =
    | Idle
    | Exhausted
    | Failed(input: Option<P>)
    | Sounded(input: Option<P>, frame: Frame)

  datatype Ticked<P> = Ticked(source: SourceState<P>, playback: Playback<P>)

  ghost function Upcoming<P>(packets: map<int, P>, slot: int): map<int, P> {
    map k | k in packets && slot <= k :: packets[k]
  }

  function Silenced<P>(s: SourceState<P>): SourceState<P> {
    s.(fed := [], playoutStarted := false)
  }

  ghost function TickSource<P>(s: SourceState<P>, slot: int, codec: Codec<P>): Ticked<P> {
    var upcoming := s.(packets := Upcoming(s.packets, slot));
    if slot in s.packets then
      var input := Some(s.packets[slot]);
      var rest := upcoming.(packets := upcoming.packets - {slot});
      match codec.decode(s.fed, input)
      case None => Ticked(Silenced(rest), Failed(input))
      case Some(frame) =>
        Ticked(rest.(fed := s.fed + [input], playoutStarted := true, concealedRun := 0), Sounded(input, frame))
    else if !s.playoutStarted then Ticked(upcoming, Idle)
    else if s.concealedRun >= JITTER_BUFFER_FRAMES then
      Ticked(Silenced(upcoming).(concealedRun := 0), Exhausted)
    else
      match codec.decode(s.fed, None)
      case None => Ticked(Silenced(upcoming), Failed(None))
      case Some(frame) =>
        Ticked(upcoming.(fed := s.fed + [None], concealedRun := s.concealedRun + 1), Sounded(None, frame))
  }

  ghost function SkipSource<P>(s: SourceState<P>, clock: int): SourceState<P> {
    Silenced(s).(packets := Upcoming(s.packets, clock), concealedRun := 0)
  }

  // ---------------------------------------------------------------- what every operation keeps

  /** At most four packets wait, none behind the clock and none more than eight frames ahead of it. */
  ghost predicate Bounded<P>(s: SourceState<P>, clock: int) {
    && |s.packets| <= MAX_BUFFERED_PACKETS
    && s.concealedRun <= JITTER_BUFFER_FRAMES
    && (s.maxSequence.None? ==> s == FreshSource<P>())
    && (s.maxSequence.Some? ==> s.anchorSlot + s.maxExtended <= clock + MAX_FUTURE_FRAMES)
    && (forall slot :: slot in s.packets ==> clock <= slot <= s.anchorSlot + s.maxExtended)
  }

  lemma NotedKeepsBounds<P>(s: SourceState<P>, clock: int, sequence: uint16, timestamp: Option<uint32>)
    requires Bounded(s, clock) && s.maxSequence.Some? && TargetSlot(s, sequence) <= clock + MAX_FUTURE_FRAMES
    ensures var noted := Noted(s, sequence, timestamp);
      Bounded(noted, clock) && TargetSlot(s, sequence) <= noted.anchorSlot + noted.maxExtended
  {
  }

  lemma QueuedKeepsBounds<P>(s: SourceState<P>, clock: int, slot: int, p: P)
    requires Bounded(s, clock) && s.maxSequence.Some? && clock <= slot <= s.anchorSlot + s.maxExtended
    ensures Bounded(s.(packets := Enqueue(s.packets, slot, p)), clock)
  {
    EnqueueStep(s.packets, slot, p);
  }

  lemma ReceiveKeepsBounds<P>(s: SourceState<P>, clock: int, p: P, sequence: uint16, timestamp: Option<uint32>)
    requires Bounded(s, clock)
    ensures Bounded(Receive(s, clock, p, sequence, timestamp), clock)
  {
    var verdict := Classify(s, clock, sequence, timestamp);
    if verdict.InWindow? || verdict.Overdue? {
      NotedKeepsBounds(s, clock, sequence, timestamp);
      if verdict.InWindow? {
        QueuedKeepsBounds(Noted(s, sequence, timestamp), clock, TargetSlot(s, sequence), p);
      }
    }
  }

  lemma UpcomingShrinks<P>(packets: map<int, P>, slot: int)
    ensures |Upcoming(packets, slot)| <= |packets|
    ensures (forall k :: k in packets ==> slot <= k) ==> Upcoming(packets, slot) == packets
  {
    SubsetSize(Upcoming(packets, slot).Keys, packets.Keys);
  }

  lemma SubsetSize<T>(a: set<T>, b: set<T>)
    requires a <= b
    ensures |a| <= |b|
  {
    assert b == a + (b - a);
  }

  /** A tick consumes the packet due now, so the next slot has nothing stale: the clean-up at the start
      of the tick finds nothing to remove. */
  lemma TickKeepsBounds<P>(s: SourceState<P>, clock: int, codec: Codec<P>)
    requires Bounded(s, clock)
    ensures Upcoming(s.packets, clock) == s.packets
    ensures Bounded(TickSource(s, clock, codec).source, clock + 1)
  {
    UpcomingShrinks(s.packets, clock);
    SubsetSize((s.packets - {clock}).Keys, s.packets.Keys);
  }

  lemma SkipKeepsBounds<P>(s: SourceState<P>, clock: int, count: nat)
    requires Bounded(s, clock)
    ensures Bounded(SkipSource(s, clock + count), clock + count)
  {
    UpcomingShrinks(s.packets, clock + count);
  }
}
