/** The whole mixer as a value: its sources, its clock, its counters, and what each operation does to
    them. These functions specify the methods of MicMixer.Mixer. */
module MicMixing {
  import opened Common
  import opened MicTimeline

  type SourceId = int

  datatype MixerState<P> = MixerState(
    sources: map<SourceId, SourceState<P>>, nextPlayoutSlot: int, stats: Stats)

  ghost function EmptyMixer<P>(): MixerState<P> {
    MixerState(map[], 0, NO_STATS)
  }

  // ---------------------------------------------------------------- the mean of the contributions

  ghost function SampleSum(frames: map<SourceId, Frame>, ids: set<SourceId>, k: int): int
    requires ids <= frames.Keys && 0 <= k < FRAME_SAMPLES
  {
    if ids == {} then 0
    else
      var id := Furthest(ids);
      frames[id][k] + SampleSum(frames, ids - {id}, k)
  }

  ghost function MeanSample(frames: map<SourceId, Frame>, k: int): int
    requires |frames| > 0 && 0 <= k < FRAME_SAMPLES
  {
    TruncDiv(SampleSum(frames, frames.Keys, k), |frames|)
  }

  lemma {:induction false} SampleSumSplit(frames: map<SourceId, Frame>, ids: set<SourceId>, id: SourceId, k: int)
    requires id in ids && ids <= frames.Keys && 0 <= k < FRAME_SAMPLES
    ensures SampleSum(frames, ids, k) == frames[id][k] + SampleSum(frames, ids - {id}, k)
  {
    var top := Furthest(ids);
    if top == id {
    } else {
      SampleSumSplit(frames, ids - {top}, id, k);
      SampleSumSplit(frames, ids - {id}, top, k);
      assert ids - {top} - {id} == ids - {id} - {top};
    }
  }

  lemma {:induction false} SampleSumAgrees(f: map<SourceId, Frame>, g: map<SourceId, Frame>, ids: set<SourceId>, k: int)
    requires ids <= f.Keys && ids <= g.Keys && 0 <= k < FRAME_SAMPLES
    requires forall id :: id in ids ==> f[id] == g[id]
    ensures SampleSum(f, ids, k) == SampleSum(g, ids, k)
  {
    if ids == {} {
    } else {
      SampleSumAgrees(f, g, ids - {Furthest(ids)}, k);
    }
  }

  ghost predicate Enumerates(order: seq<SourceId>, ids: set<SourceId>) {
    (forall i, j :: 0 <= i < j < |order| ==> order[i] != order[j]) &&
    (forall i :: 0 <= i < |order| ==> order[i] in ids) &&
    (forall id :: id in ids ==> id in order)
  }

  /** The running sum a loop over the sources in this order ends with. */
  ghost function SumInOrder(frames: map<SourceId, Frame>, order: seq<SourceId>, k: int): int
    requires (forall i :: 0 <= i < |order| ==> order[i] in frames) && 0 <= k < FRAME_SAMPLES
  {
    if order == [] then 0 else frames[order[0]][k] + SumInOrder(frames, order[1..], k)
  }

  /** The order in which the hash map yields the sources cannot be heard. */
  lemma {:induction false} MixIgnoresOrder(frames: map<SourceId, Frame>, order: seq<SourceId>, ids: set<SourceId>, k: int)
    requires Enumerates(order, ids) && ids <= frames.Keys && 0 <= k < FRAME_SAMPLES
    ensures SumInOrder(frames, order, k) == SampleSum(frames, ids, k)
  {
    if order == [] {
      assert forall id :: id !in ids;
    } else {
      var rest, id := order[1..], order[0];
      assert Enumerates(rest, ids - {id}) by {
        forall x ensures x in rest <==> x in ids - {id} {
          assert x in order <==> x == id || x in rest;
        }
      }
      MixIgnoresOrder(frames, rest, ids - {id}, k);
      SampleSumSplit(frames, ids, id, k);
    }
  }

  lemma {:induction false} SampleSumBounds(frames: map<SourceId, Frame>, ids: set<SourceId>, k: int, lo: int, hi: int)
    requires ids <= frames.Keys && 0 <= k < FRAME_SAMPLES
    requires forall id :: id in ids ==> lo <= frames[id][k] <= hi
    ensures lo * |ids| <= SampleSum(frames, ids, k) <= hi * |ids|
  {
    if ids == {} {
    } else {
      var id := Furthest(ids);
      SampleSumBounds(frames, ids - {id}, k, lo, hi);
      assert lo * |ids| == lo * (|ids| - 1) + lo && hi * |ids| == hi * (|ids| - 1) + hi;
    }
  }

  lemma ScaleOrder(x: int, y: int, n: int)
    requires n > 0 && x >= y
    ensures x * n >= y * n
  {
    assert (x - y) * n >= 0;
  }

  lemma CancelFactor(x: int, y: int, n: int)
    requires n > 0 && x * n < y * n
    ensures x < y
  {
    if x >= y {
      ScaleOrder(x, y, n);
    }
  }

  lemma QuotientWithin(a: int, n: int, lo: int, hi: int)
    requires n > 0 && lo * n <= a <= hi * n
    ensures lo <= TruncDiv(a, n) <= hi
  {
    var q := TruncDiv(a, n);
    assert (q + 1) * n == q * n + n && (q - 1) * n == q * n - n;
    CancelFactor(lo, q + 1, n);
    CancelFactor(q - 1, hi, n);
  }

  /** The mixed sample lies between the softest and the loudest contribution; as every contribution is
      a 16-bit sample, the clamp after the division never changes anything. */
  lemma MeanWithinContributions(frames: map<SourceId, Frame>, k: int, lo: int, hi: int)
    requires |frames| > 0 && 0 <= k < FRAME_SAMPLES
    requires forall id :: id in frames ==> lo <= frames[id][k] <= hi
    ensures lo <= MeanSample(frames, k) <= hi
    ensures -0x8000 <= MeanSample(frames, k) < 0x8000
    ensures Clamp(MeanSample(frames, k), -0x8000, 0x7fff) == MeanSample(frames, k)
  {
    var sum := SampleSum(frames, frames.Keys, k);
    SampleSumBounds(frames, frames.Keys, k, lo, hi);
    QuotientWithin(sum, |frames|, lo, hi);
    SampleSumBounds(frames, frames.Keys, k, -0x8000, 0x7fff);
    QuotientWithin(sum, |frames|, -0x8000, 0x7fff);
  }

  // ---------------------------------------------------------------- one mixed frame

  ghost function Playbacks<P>(m: MixerState<P>, codec: Codec<P>): map<SourceId, Playback<P>> {
    map id | id in m.sources :: TickSource(m.sources[id], m.nextPlayoutSlot, codec).playback
  }

  ghost function Contributions<P>(playbacks: map<SourceId, Playback<P>>, ids: set<SourceId>): map<SourceId, Frame> {
    map id | id in ids && id in playbacks && playbacks[id].Sounded? :: playbacks[id].frame
  }

  ghost function CountTicks<P>(stats: Stats, playbacks: map<SourceId, Playback<P>>, ids: set<SourceId>): Stats {
    stats.(
      concealed := stats.concealed +
        |set id | id in ids && id in playbacks && playbacks[id].Sounded? && playbacks[id].input.None?|,
      decodeFailures := stats.decodeFailures + |set id | id in ids && id in playbacks && playbacks[id].Failed?|)
  }

  ghost function MixedFrame<P>(m: MixerState<P>, codec: Codec<P>): Option<seq<int>> {
    var frames := Contributions(Playbacks(m, codec), m.sources.Keys);
    if |frames| == 0 then None
    else Some(seq(FRAME_SAMPLES, k requires 0 <= k < FRAME_SAMPLES => MeanSample(frames, k)))
  }

  lemma MeanPointwise<P>(m: MixerState<P>, codec: Codec<P>, frames: map<SourceId, Frame>, samples: seq<int>)
    requires frames == Contributions(Playbacks(m, codec), m.sources.Keys) && |frames| > 0
    requires |samples| == FRAME_SAMPLES
    requires forall k :: 0 <= k < FRAME_SAMPLES ==> samples[k] == MeanSample(frames, k)
    ensures MixedFrame(m, codec) == Some(samples)
  {
    assert samples == MixedFrame(m, codec).value;
  }

  // ---------------------------------------------------------------- operations

  datatype Event<P> =
    | AddSource(id: SourceId, created: bool)
    | RemoveSource(id: SourceId)
    | Clear
    | Push(id: SourceId, packet: P, sequence: uint16, timestamp: Option<uint32>)
    | MixFrame
    | SkipFrames(count: nat)
    | TakeStats

  ghost function Added<P>(m: MixerState<P>, id: SourceId, created: bool): MixerState<P> {
    if id in m.sources || !created then m else m.(sources := m.sources[id := FreshSource<P>()])
  }

  ghost function Removed<P>(m: MixerState<P>, id: SourceId): MixerState<P> {
    m.(sources := m.sources - {id})
  }

  ghost function Cleared<P>(m: MixerState<P>): MixerState<P> {
    m.(sources := map[], nextPlayoutSlot := 0)
  }

  ghost function Pushed<P>(m: MixerState<P>, id: SourceId, p: P, sequence: uint16, timestamp: Option<uint32>,
                           valid: bool): MixerState<P>
  {
    if id !in m.sources || !valid then m
    else
      var s := m.sources[id];
      m.(sources := m.sources[id := Receive(s, m.nextPlayoutSlot, p, sequence, timestamp)],
         stats := CountReceive(m.stats, s, m.nextPlayoutSlot, sequence, timestamp))
  }

  ghost function Mixed<P>(m: MixerState<P>, codec: Codec<P>): MixerState<P> {
    MixerState(
      map id | id in m.sources :: TickSource(m.sources[id], m.nextPlayoutSlot, codec).source,
      m.nextPlayoutSlot + 1,
      CountTicks(m.stats, Playbacks(m, codec), m.sources.Keys))
  }

  ghost function Skipped<P>(m: MixerState<P>, count: nat): MixerState<P> {
    if count == 0 then m
    else
      MixerState(
        map id | id in m.sources :: SkipSource(m.sources[id], m.nextPlayoutSlot + count),
        m.nextPlayoutSlot + count,
        m.stats.(skipped := m.stats.skipped + count))
  }

  /** A source map that agrees point by point is the specified one. */
  lemma SkippedPointwise<P>(m: MixerState<P>, count: nat, after: map<SourceId, SourceState<P>>)
    requires count > 0 && after.Keys == m.sources.Keys
    requires forall id :: id in after ==> after[id] == SkipSource(m.sources[id], m.nextPlayoutSlot + count)
    ensures after == Skipped(m, count).sources
  {
    var skipped := map id | id in m.sources :: SkipSource(m.sources[id], m.nextPlayoutSlot + count);
    forall id | id in after ensures after[id] == skipped[id] {
    }
    assert after == skipped;
  }

  lemma MixedPointwise<P>(m: MixerState<P>, codec: Codec<P>, after: map<SourceId, SourceState<P>>)
    requires after.Keys == m.sources.Keys
    requires forall id :: id in after ==> after[id] == TickSource(m.sources[id], m.nextPlayoutSlot, codec).source
    ensures after == Mixed(m, codec).sources
  {
    var mixed := map id | id in m.sources :: TickSource(m.sources[id], m.nextPlayoutSlot, codec).source;
    forall id | id in after ensures after[id] == mixed[id] {
    }
    assert after == mixed;
  }

  ghost function Step<P>(m: MixerState<P>, e: Event<P>, codec: Codec<P>): MixerState<P> {
    match e
    case AddSource(id, created) => Added(m, id, created)
    case RemoveSource(id) => Removed(m, id)
    case Clear => Cleared(m)
    case Push(id, p, sequence, timestamp) => Pushed(m, id, p, sequence, timestamp, codec.valid(p))
    case MixFrame => Mixed(m, codec)
    case SkipFrames(count) => Skipped(m, count)
    case TakeStats => m.(stats := NO_STATS)
  }

  ghost predicate Inv<P>(m: MixerState<P>) {
    forall id :: id in m.sources ==> Bounded(m.sources[id], m.nextPlayoutSlot)
  }

  lemma PushKeepsInv<P>(m: MixerState<P>, id: SourceId, p: P, sequence: uint16, timestamp: Option<uint32>, valid: bool)
    requires Inv(m)
    ensures Inv(Pushed(m, id, p, sequence, timestamp, valid))
  {
    if id in m.sources {
      ReceiveKeepsBounds(m.sources[id], m.nextPlayoutSlot, p, sequence, timestamp);
    }
  }

  lemma MixKeepsInv<P>(m: MixerState<P>, codec: Codec<P>)
    requires Inv(m)
    ensures Inv(Mixed(m, codec))
  {
    forall id | id in m.sources ensures Bounded(Mixed(m, codec).sources[id], m.nextPlayoutSlot + 1) {
      TickKeepsBounds(m.sources[id], m.nextPlayoutSlot, codec);
    }
  }

  lemma SkipKeepsInv<P>(m: MixerState<P>, count: nat)
    requires Inv(m)
    ensures Inv(Skipped(m, count))
  {
    if count > 0 {
      forall id | id in m.sources ensures Bounded(Skipped(m, count).sources[id], m.nextPlayoutSlot + count) {
        SkipKeepsBounds(m.sources[id], m.nextPlayoutSlot, count);
      }
    }
  }

  lemma StepKeepsInv<P>(m: MixerState<P>, e: Event<P>, codec: Codec<P>)
    requires Inv(m)
    ensures Inv(Step(m, e, codec))
  {
    match e
    case Push(id, p, sequence, timestamp) => PushKeepsInv(m, id, p, sequence, timestamp, codec.valid(p));
    case MixFrame => MixKeepsInv(m, codec);
    case SkipFrames(count) => SkipKeepsInv(m, count);
    case _ =>
  }

  /** The counters after one more playback. */
  ghost function CountPlayback<P>(stats: Stats, playback: Playback<P>): Stats {
    match playback
    case Sounded(None, _) => stats.(concealed := stats.concealed + 1)
    case Failed(_) => stats.(decodeFailures := stats.decodeFailures + 1)
    case _ => stats
  }

  lemma OneMoreContribution<P>(playbacks: map<SourceId, Playback<P>>, done: set<SourceId>, id: SourceId)
    requires id in playbacks && id !in done
    ensures Contributions(playbacks, done + {id}) ==
            if playbacks[id].Sounded? then Contributions(playbacks, done)[id := playbacks[id].frame]
            else Contributions(playbacks, done)
  {
  }

  lemma OneMoreTick<P>(stats: Stats, playbacks: map<SourceId, Playback<P>>, done: set<SourceId>, id: SourceId)
    requires id in playbacks && id !in done
    ensures CountTicks(stats, playbacks, done + {id}) == CountPlayback(CountTicks(stats, playbacks, done), playbacks[id])
  {
    var concealed := set i | i in done && i in playbacks && playbacks[i].Sounded? && playbacks[i].input.None?;
    var concealed' := set i | i in done + {id} && i in playbacks && playbacks[i].Sounded? && playbacks[i].input.None?;
    var failed := set i | i in done && i in playbacks && playbacks[i].Failed?;
    var failed' := set i | i in done + {id} && i in playbacks && playbacks[i].Failed?;
    assert concealed' == if playbacks[id].Sounded? && playbacks[id].input.None? then concealed + {id} else concealed;
    assert failed' == if playbacks[id].Failed? then failed + {id} else failed;
  }
}
