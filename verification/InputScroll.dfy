/** Low-resolution scrolling: only whole notches are sent, the rest is carried over. */
module InputScroll {
  import opened Common
  import opened InputBatching
  import opened InputTrace

  const WHEEL_DELTA := 120

  /** One scroll axis of the input context. */
  class Wheel {
    var accumulated: int

    constructor ()
      ensures accumulated == 0
    {
      accumulated := 0;
    }

    /** What the OS is sent for one scroll packet, if anything. */
    method Passthrough(amount: int16, mouseEnabled: bool, highResolution: bool) returns (sent: Option<int>)
      requires IsRemainder(accumulated)
      modifies this
      ensures IsRemainder(accumulated)
      ensures !mouseEnabled ==> sent.None? && accumulated == old(accumulated)
      ensures mouseEnabled && highResolution ==> sent == Some(amount) && accumulated == old(accumulated)
      ensures mouseEnabled && !highResolution ==>
                && accumulated == Carry(old(accumulated), amount)
                && sent == if Notches(old(accumulated), amount) == 0 then None
                           else Some(Notches(old(accumulated), amount))
    {
      if !mouseEnabled {
        return None;
      }
      if highResolution {
        return Some(amount);
      }
      accumulated := accumulated + amount;
      var fullTicks := TruncDiv(accumulated, WHEEL_DELTA);
      sent := None;
      if fullTicks != 0 {
        sent := Some(fullTicks * WHEEL_DELTA);
        accumulated := accumulated - fullTicks * WHEEL_DELTA;
      }
    }
  }

  predicate IsRemainder(r: int) {
    -WHEEL_DELTA < r < WHEEL_DELTA
  }

  /** What is sent for one packet: the whole notches in what has accumulated. */
  function Notches(accumulated: int, amount: int): int {
    TruncDiv(accumulated + amount, WHEEL_DELTA) * WHEEL_DELTA
  }

  function Carry(accumulated: int, amount: int): int {
    accumulated + amount - Notches(accumulated, amount)
  }

  datatype Axis = Vertical | Horizontal

  predicate Scrolls(p: Packet, axis: Axis) {
    if axis.Vertical? then p.Scroll? else p.HScroll?
  }

  function AmountOf(p: Packet, axis: Axis): int
    requires Scrolls(p, axis)
  {
    if axis.Vertical? then p.amount1 else p.amount
  }

  /** What the packets scroll on one axis. */
  ghost function Amounts(packets: seq<Packet>, axis: Axis): seq<int> {
    if packets == [] then []
    else if Scrolls(packets[0], axis) then [AmountOf(packets[0], axis)] + Amounts(packets[1..], axis)
    else Amounts(packets[1..], axis)
  }

  ghost function Sum(amounts: seq<int>): int {
    if amounts == [] then 0 else amounts[0] + Sum(amounts[1..])
  }

  /** How many notches are sent for a series of packets. */
  ghost function SentTicks(accumulated: int, amounts: seq<int>): int
    decreases amounts
  {
    if amounts == [] then 0
    else TruncDiv(accumulated + amounts[0], WHEEL_DELTA) + SentTicks(Carry(accumulated, amounts[0]), amounts[1..])
  }

  ghost function SentTotal(accumulated: int, amounts: seq<int>): int {
    SentTicks(accumulated, amounts) * WHEEL_DELTA
  }

  ghost function Left(accumulated: int, amounts: seq<int>): int
    decreases amounts
  {
    if amounts == [] then accumulated else Left(Carry(accumulated, amounts[0]), amounts[1..])
  }

  /** Truncation leaves less than a notch, on the side the sum was on. */
  lemma CarryKeepsSide(accumulated: int, amount: int)
    ensures IsRemainder(Carry(accumulated, amount))
    ensures accumulated + amount >= 0 ==> Carry(accumulated, amount) >= 0
    ensures accumulated + amount <= 0 ==> Carry(accumulated, amount) <= 0
  {
  }

  /** Nothing is lost: notches sent plus the remainder are all the scroll received, and the remainder
      stays below one notch, so a 32-bit accumulator never overflows. */
  lemma {:induction false} ScrollIsConserved(accumulated: int, amounts: seq<int>)
    requires IsRemainder(accumulated)
    ensures SentTotal(accumulated, amounts) + Left(accumulated, amounts) == accumulated + Sum(amounts)
    ensures IsRemainder(Left(accumulated, amounts))
    decreases amounts
  {
    if amounts == [] {
    } else {
      CarryKeepsSide(accumulated, amounts[0]);
      ScrollIsConserved(Carry(accumulated, amounts[0]), amounts[1..]);
    }
  }

  ghost function AddScroll(axis: Axis): (int, Packet) -> int {
    (total: int, p: Packet) => if Scrolls(p, axis) then total + AmountOf(p, axis) else total
  }

  lemma {:induction false} ReplayAddsScroll(axis: Axis, total: int, packets: seq<Packet>)
    ensures Replay(AddScroll(axis), total, packets) == total + Sum(Amounts(packets, axis))
    decreases packets
  {
    if packets == [] {
    } else {
      ReplayAddsScroll(axis, AddScroll(axis)(total, packets[0]), packets[1..]);
      assert Scrolls(packets[0], axis) ==> Amounts(packets, axis)[1..] == Amounts(packets[1..], axis);
    }
  }

  lemma AddScrollIsLawful(axis: Axis)
    ensures Lawful(AddScroll(axis))
  {
    var add := AddScroll(axis);
    forall d, a, b | Batch(a, b).Batched? ensures add(add(d, a), b) == add(d, Batch(a, b).merged) {
      BatchedFacts(a, b);
    }
  }

  lemma BatchingKeepsTotal(queue: seq<Packet>, axis: Axis)
    ensures Sum(Amounts(Drain(queue), axis)) == Sum(Amounts(queue, axis))
  {
    AddScrollIsLawful(axis);
    DrainUnseen(AddScroll(axis), 0, queue);
    ReplayAddsScroll(axis, 0, queue);
    ReplayAddsScroll(axis, 0, Drain(queue));
  }

  /** With batching, too, notches sent plus the remainder equal the scroll that was queued, and never
      differ from the unbatched notches by more than one. */
  lemma BatchedScrollIsConserved(accumulated: int, queue: seq<Packet>, axis: Axis)
    requires IsRemainder(accumulated)
    ensures var batched, single := Amounts(Drain(queue), axis), Amounts(queue, axis);
      && SentTotal(accumulated, batched) + Left(accumulated, batched) == accumulated + Sum(single)
      && IsRemainder(Left(accumulated, batched))
      && -1 <= SentTicks(accumulated, batched) - SentTicks(accumulated, single) <= 1
  {
    BatchingKeepsTotal(queue, axis);
    ScrollIsConserved(accumulated, Amounts(queue, axis));
    ScrollIsConserved(accumulated, Amounts(Drain(queue), axis));
  }

  // ---------------------------------------------------------------- when batching sends the same notches

  /** Where the running total of the scroll received, which starts at 0, was when it last was not strictly
      between this notch and the next: at or below this notch, or at or above the next. */
  ghost predicate EntersFromBelow(notch: int, total: int, below: bool, amounts: seq<int>)
    decreases amounts
  {
    var side := if total <= notch then true else if total >= notch + WHEEL_DELTA then false else below;
    if amounts == [] then side else EntersFromBelow(notch, total + amounts[0], side, amounts[1..])
  }

  ghost predicate Between(notch: int, total: int) {
    notch < total < notch + WHEEL_DELTA
  }

  /** Past `ticks` notches, the remainder of a total on the way to notch `k` is known but for its side. */
  ghost predicate Tracks(k: int, total: int, below: bool, accumulated: int, ticks: int) {
    && IsRemainder(accumulated) && total == ticks * WHEEL_DELTA + accumulated
    && (Between(k * WHEEL_DELTA, total) ==> ticks == if below then k else k + 1)
  }

  lemma TrackOne(k: int, total: int, below: bool, accumulated: int, ticks: int, amount: int)
    requires Tracks(k, total, below, accumulated, ticks)
    ensures var notch := k * WHEEL_DELTA;
      var side := if total <= notch then true else if total >= notch + WHEEL_DELTA then false else below;
      Tracks(k, total + amount, side, Carry(accumulated, amount), ticks + TruncDiv(accumulated + amount, WHEEL_DELTA))
  {
    CarryKeepsSide(accumulated, amount);
  }

  /** The remainder shows from which side the total came to where it stands. */
  lemma {:induction false} LeftShowsSide(k: int, total: int, below: bool, accumulated: int, ticks: int, amounts: seq<int>)
    requires Tracks(k, total, below, accumulated, ticks)
    ensures Between(k * WHEEL_DELTA, total + Sum(amounts)) ==>
              ticks + SentTicks(accumulated, amounts) ==
                if EntersFromBelow(k * WHEEL_DELTA, total, below, amounts) then k else k + 1
    decreases amounts
  {
    if amounts == [] {
    } else {
      var notch := k * WHEEL_DELTA;
      var side := if total <= notch then true else if total >= notch + WHEEL_DELTA then false else below;
      TrackOne(k, total, below, accumulated, ticks, amounts[0]);
      LeftShowsSide(k, total + amounts[0], side, Carry(accumulated, amounts[0]),
                    ticks + TruncDiv(accumulated + amounts[0], WHEEL_DELTA), amounts[1..]);
    }
  }

  /** The notch at or below a total. */
  function NotchBelow(total: int): int {
    total / WHEEL_DELTA * WHEEL_DELTA
  }

  /** Whether the total of the scroll received entered the stretch in which it ends from below. */
  ghost predicate EndsFromBelow(accumulated: int, amounts: seq<int>) {
    var notch := NotchBelow(accumulated + Sum(amounts));
    EntersFromBelow(notch, accumulated, 0 <= notch, amounts)
  }

  function Rounded(total: int, down: bool): int {
    if total == NotchBelow(total) || down then NotchBelow(total) else NotchBelow(total) + WHEEL_DELTA
  }

  lemma RoundedAgreeIff(total: int, down: bool, down': bool)
    ensures Rounded(total, down) == Rounded(total, down') <==> total == NotchBelow(total) || (down <==> down')
  {
  }

  /** So what is sent is the total rounded down or up to a notch, by the side it came from. */
  lemma SentIsTotalRounded(accumulated: int, amounts: seq<int>)
    requires IsRemainder(accumulated)
    ensures SentTotal(accumulated, amounts) == Rounded(accumulated + Sum(amounts), EndsFromBelow(accumulated, amounts))
  {
    var total := accumulated + Sum(amounts);
    var k := total / WHEEL_DELTA;
    ScrollIsConserved(accumulated, amounts);
    if total != NotchBelow(total) {
      assert Tracks(k, accumulated, 0 <= k * WHEEL_DELTA, accumulated, 0);
      LeftShowsSide(k, accumulated, 0 <= k * WHEEL_DELTA, accumulated, 0, amounts);
    }
  }

  lemma SameTotalSameNotchesIff(accumulated: int, a: seq<int>, b: seq<int>)
    requires IsRemainder(accumulated) && Sum(a) == Sum(b)
    ensures var total := accumulated + Sum(b);
      SentTotal(accumulated, a) == SentTotal(accumulated, b) <==>
        total == NotchBelow(total) || (EndsFromBelow(accumulated, a) <==> EndsFromBelow(accumulated, b))
  {
    SentIsTotalRounded(accumulated, a);
    SentIsTotalRounded(accumulated, b);
    RoundedAgreeIff(accumulated + Sum(b), EndsFromBelow(accumulated, a), EndsFromBelow(accumulated, b));
  }

  /** The amounts of one axis as batching merges them: neighbours in the queue are added up, as long as
      the sum fits 16 bits and no packet of another type comes between. `sum` is what is open. */
  function MergedAmounts(sum: Option<int>, packets: seq<Packet>, axis: Axis): seq<int>
    decreases packets
  {
    if packets == [] then Pending(sum)
    else
      var p, rest := packets[0], packets[1..];
      if p.Malformed? then MergedAmounts(sum, rest, axis)
      else if !Scrolls(p, axis) then Pending(sum) + MergedAmounts(None, rest, axis)
      else if sum.Some? && Fits16(sum.value + AmountOf(p, axis)) then
        MergedAmounts(Some(sum.value + AmountOf(p, axis)), rest, axis)
      else Pending(sum) + MergedAmounts(Some(AmountOf(p, axis)), rest, axis)
  }

  function Pending(sum: Option<int>): seq<int> {
    if sum.Some? then [sum.value] else []
  }

  lemma BatchOfScroll(dest: Packet, p: Packet, axis: Axis)
    requires Scrolls(dest, axis) && !p.Malformed?
    ensures var r := Batch(dest, p);
      if Scrolls(p, axis) && Fits16(AmountOf(dest, axis) + AmountOf(p, axis))
      then r.Batched? && Scrolls(r.merged, axis) && AmountOf(r.merged, axis) == AmountOf(dest, axis) + AmountOf(p, axis)
      else r.TerminateBatch?
  {
  }

  lemma {:induction false} ScanMergesAmounts(dest: Packet, rest: seq<Packet>, axis: Axis)
    requires Scrolls(dest, axis)
    ensures var scanned := Scan(dest, rest);
      Scrolls(scanned.0, axis) &&
      [AmountOf(scanned.0, axis)] + MergedAmounts(None, scanned.1, axis) ==
        MergedAmounts(Some(AmountOf(dest, axis)), rest, axis)
    decreases rest
  {
    if rest == [] {
    } else if rest[0].Malformed? {
      ScanMergesAmounts(dest, rest[1..], axis);
    } else {
      BatchOfScroll(dest, rest[0], axis);
      match Batch(dest, rest[0])
      case Batched(merged) => ScanMergesAmounts(merged, rest[1..], axis);
      case _ =>
    }
  }

  lemma {:induction false} ScanKeepsAmounts(dest: Packet, rest: seq<Packet>, axis: Axis)
    requires !Scrolls(dest, axis)
    ensures !Scrolls(Scan(dest, rest).0, axis)
    ensures MergedAmounts(None, Scan(dest, rest).1, axis) == MergedAmounts(None, rest, axis)
    decreases rest
  {
    if rest == [] {
    } else if rest[0].Malformed? {
      ScanKeepsAmounts(dest, rest[1..], axis);
    } else {
      match Batch(dest, rest[0])
      case Batched(merged) =>
        BatchedFacts(dest, rest[0]);
        ScanKeepsAmounts(merged, rest[1..], axis);
      case TerminateBatch =>
      case NotBatchable =>
        ScanKeepsAmounts(dest, rest[1..], axis);
        assert MagicOf(dest) == MagicOf(rest[0]) && !Scrolls(rest[0], axis) by {
          OvertakenFacts(dest, rest[0]);
        }
        assert ([rest[0]] + Scan(dest, rest[1..]).1)[1..] == Scan(dest, rest[1..]).1;
    }
  }

  /** What draining sends on an axis, found in one pass over the queue. */
  lemma {:induction false} DrainedAmounts(queue: seq<Packet>, axis: Axis)
    ensures Amounts(Drain(queue), axis) == MergedAmounts(None, queue, axis)
    decreases |queue|
  {
    if queue == [] {
    } else if queue[0].Malformed? {
      DrainedAmounts(queue[1..], axis);
      assert Drain(queue) == Drain(queue[1..]);
    } else {
      var (dest, left) := Scan(queue[0], queue[1..]);
      ScanShrinks(queue[0], queue[1..]);
      DrainedAmounts(left, axis);
      assert ([dest] + Drain(left))[1..] == Drain(left);
      if Scrolls(queue[0], axis) {
        ScanMergesAmounts(queue[0], queue[1..], axis);
      } else {
        ScanKeepsAmounts(queue[0], queue[1..], axis);
      }
    }
  }

  lemma MergingKeepsTotal(queue: seq<Packet>, axis: Axis)
    ensures Amounts(Drain(queue), axis) == MergedAmounts(None, queue, axis)
    ensures Sum(MergedAmounts(None, queue, axis)) == Sum(Amounts(queue, axis))
  {
    DrainedAmounts(queue, axis);
    BatchingKeepsTotal(queue, axis);
  }

  /** Batching sends the same notches exactly when the queued scroll adds up to whole notches, or the
      merged and the single running totals enter the stretch they end in from the same side. */
  lemma BatchedNotchesAgreeIff(accumulated: int, queue: seq<Packet>, axis: Axis)
    requires IsRemainder(accumulated)
    ensures var merged, single := MergedAmounts(None, queue, axis), Amounts(queue, axis);
      var total := accumulated + Sum(single);
      SentTotal(accumulated, Amounts(Drain(queue), axis)) == SentTotal(accumulated, single) <==>
        total == NotchBelow(total) || (EndsFromBelow(accumulated, merged) <==> EndsFromBelow(accumulated, single))
  {
    MergingKeepsTotal(queue, axis);
    SameTotalSameNotchesIff(accumulated, MergedAmounts(None, queue, axis), Amounts(queue, axis));
  }

  /** One notch can indeed be swallowed: 130 then -20 sends a notch, their batched sum 110 does not. */
  lemma BatchingCanSwallowANotch()
    ensures var queue := [Scroll(130, 130), Scroll(-20, -20)];
      SentTotal(0, Amounts(queue, Vertical)) == 120 && SentTotal(0, Amounts(Drain(queue), Vertical)) == 0
  {
    var queue := [Scroll(130, 130), Scroll(-20, -20)];
    assert queue[1..] == [Scroll(-20, -20)] && queue[1..][1..] == [];
    assert Scan(queue[0], queue[1..]) == Scan(Scroll(110, 110), []);
    assert Drain(queue) == [Scroll(110, 110)];
    assert Amounts(queue[1..], Vertical) == [-20] && Amounts(queue, Vertical) == [130, -20] && [130, -20][1..] == [-20];
    assert Amounts([Scroll(110, 110)], Vertical) == [110];
    assert Carry(0, 130) == 10 && SentTicks(10, [-20]) == 0 && SentTicks(0, [110]) == 0;
  }

  predicate Towards(up: bool, amount: int) {
    if up then amount >= 0 else amount <= 0
  }

  ghost predicate OneDirection(up: bool, accumulated: int, amounts: seq<int>) {
    Towards(up, accumulated) && forall i :: 0 <= i < |amounts| ==> Towards(up, amounts[i])
  }

  lemma TicksAddUp(up: bool, accumulated: int, a: int, b: int)
    requires Towards(up, accumulated) && Towards(up, a) && Towards(up, b)
    ensures TruncDiv(accumulated + a, WHEEL_DELTA) + TruncDiv(Carry(accumulated, a) + b, WHEEL_DELTA) ==
            TruncDiv(accumulated + a + b, WHEEL_DELTA)
  {
  }

  lemma OneDirectionGoesOn(up: bool, accumulated: int, amounts: seq<int>)
    requires amounts != [] && OneDirection(up, accumulated, amounts)
    ensures Towards(up, amounts[0])
    ensures IsRemainder(Carry(accumulated, amounts[0])) && OneDirection(up, Carry(accumulated, amounts[0]), amounts[1..])
  {
    assert Towards(up, amounts[0]);
    CarryKeepsSide(accumulated, amounts[0]);
  }

  /** Scrolling in one direction sends exactly the notches of the total, however it is cut up. */
  lemma {:induction false} OneDirectionSendsTheTotal(up: bool, accumulated: int, amounts: seq<int>)
    requires IsRemainder(accumulated) && OneDirection(up, accumulated, amounts)
    ensures Towards(up, Sum(amounts))
    ensures SentTicks(accumulated, amounts) == TruncDiv(accumulated + Sum(amounts), WHEEL_DELTA)
    decreases amounts
  {
    if amounts == [] {
      assert TruncDiv(accumulated, WHEEL_DELTA) == 0;
    } else {
      var rest := amounts[1..];
      OneDirectionGoesOn(up, accumulated, amounts);
      OneDirectionSendsTheTotal(up, Carry(accumulated, amounts[0]), rest);
      TicksAddUp(up, accumulated, amounts[0], Sum(rest));
      assert accumulated + amounts[0] + Sum(rest) == accumulated + Sum(amounts);
    }
  }
}
