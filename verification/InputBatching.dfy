/** Input packets and their batching: what merges with what, and what one task takes off the queue. */
module InputBatching {
  import opened Common

  // ---------------------------------------------------------------- packets

  datatype TouchEvent = Move | Hover | OtherEvent(code: int)

  datatype Contact = Contact(event: TouchEvent, pointer: int, data: seq<int>)

  /** A queued message, by type. Malformed stands for one too short for its header or type, Fixed for
      every type that is never batched: buttons, keys, text, arrival, battery. `data` is the part of a
      packet that batching copies but does not read. */
  datatype Packet =
    | Malformed
    | RelMouse(deltaX: int16, deltaY: int16)
    | AbsMouse(width: int16, height: int16, data: seq<int>)
    | Scroll(amount1: int16, amount2: int16)
    | HScroll(amount: int16)
    | Controller(number: int, mask: int, buttons: int, buttons2: int, data: seq<int>)
    | Touch(event: TouchEvent, pointer: int, data: seq<int>)
    | Touchpad(event: TouchEvent, pointer: int, button: int, data: seq<int>)
    | TouchpadFrame(button: int, rotation: int, widthMm: int, heightMm: int, contacts: seq<Contact>)
    | Pen(event: TouchEvent, penButtons: int, tool: int, data: seq<int>)
    | ControllerTouch(number: int, event: TouchEvent, pointer: int, data: seq<int>)
    | Motion(number: int, sensor: int, data: seq<int>)
    | Fixed(kind: int, data: seq<int>)

  /** The type tag in a packet's header. */
  datatype Magic =
    | NoMagic | RelMouseMagic | AbsMouseMagic | ScrollMagic | HScrollMagic | ControllerMagic | TouchMagic
    | TouchpadMagic | TouchpadFrameMagic | PenMagic | ControllerTouchMagic | MotionMagic | FixedMagic(kind: int)

  function MagicOf(p: Packet): Magic {
    match p
    case Malformed => NoMagic
    case RelMouse(_, _) => RelMouseMagic
    case AbsMouse(_, _, _) => AbsMouseMagic
    case Scroll(_, _) => ScrollMagic
    case HScroll(_) => HScrollMagic
    case Controller(_, _, _, _, _) => ControllerMagic
    case Touch(_, _, _) => TouchMagic
    case Touchpad(_, _, _, _) => TouchpadMagic
    case TouchpadFrame(_, _, _, _, _) => TouchpadFrameMagic
    case Pen(_, _, _, _) => PenMagic
    case ControllerTouch(_, _, _, _) => ControllerTouchMagic
    case Motion(_, _, _) => MotionMagic
    case Fixed(kind, _) => FixedMagic(kind)
  }

  // ---------------------------------------------------------------- batch()

  /** Batched carries what `dest` becomes. */
  datatype BatchResult = Batched(merged: Packet) | NotBatchable | TerminateBatch

  predicate Fits16(x: int) {
    -0x8000 <= x < 0x8000
  }

  predicate Tracking(e: TouchEvent) {
    e.Move? || e.Hover?
  }

  /** The most contacts a touchpad frame may carry; its value belongs to the wire protocol. */
  const FRAME_MAX_CONTACTS: nat

  predicate FrameIsMoveOnly(frame: Packet)
    requires frame.TouchpadFrame?
  {
    0 < |frame.contacts| <= FRAME_MAX_CONTACTS && forall c :: c in frame.contacts ==> c.event.Move?
  }

  function PointerIds(contacts: seq<Contact>): (ids: seq<int>)
    ensures |ids| == |contacts| && forall i :: 0 <= i < |ids| ==> ids[i] == contacts[i].pointer
  {
    seq(|contacts|, i requires 0 <= i < |contacts| => contacts[i].pointer)
  }

  function BatchRelMouse(dest: Packet, src: Packet): BatchResult
    requires dest.RelMouse? && src.RelMouse?
  {
    if !Fits16(dest.deltaX + src.deltaX) || !Fits16(dest.deltaY + src.deltaY) then TerminateBatch
    else Batched(RelMouse(dest.deltaX + src.deltaX, dest.deltaY + src.deltaY))
  }

  function BatchAbsMouse(dest: Packet, src: Packet): BatchResult
    requires dest.AbsMouse? && src.AbsMouse?
  {
    if dest.width != src.width || dest.height != src.height then TerminateBatch else Batched(src)
  }

  function BatchScroll(dest: Packet, src: Packet): BatchResult
    requires dest.Scroll? && src.Scroll?
  {
    var sum := dest.amount1 + src.amount1;
    if !Fits16(sum) then TerminateBatch else Batched(Scroll(sum, sum))
  }

  function BatchHScroll(dest: Packet, src: Packet): BatchResult
    requires dest.HScroll? && src.HScroll?
  {
    var sum := dest.amount + src.amount;
    if !Fits16(sum) then TerminateBatch else Batched(HScroll(sum))
  }

  function BatchController(dest: Packet, src: Packet): BatchResult
    requires dest.Controller? && src.Controller?
  {
    if dest.mask != src.mask then TerminateBatch
    else if dest.number != src.number then NotBatchable
    else if dest.buttons != src.buttons || dest.buttons2 != src.buttons2 then TerminateBatch
    else Batched(src)
  }

  function BatchTouch(dest: Packet, src: Packet): BatchResult
    requires dest.Touch? && src.Touch?
  {
    if !Tracking(dest.event) || !Tracking(src.event) then TerminateBatch
    else if dest.pointer != src.pointer then NotBatchable
    else if dest.event != src.event then TerminateBatch
    else Batched(src)
  }

  function BatchTouchpad(dest: Packet, src: Packet): BatchResult
    requires dest.Touchpad? && src.Touchpad?
  {
    if !Tracking(dest.event) || !Tracking(src.event) then TerminateBatch
    else if dest.pointer != src.pointer then NotBatchable
    else if dest.event != src.event || dest.button != src.button then TerminateBatch
    else Batched(src)
  }

  function BatchTouchpadFrame(dest: Packet, src: Packet): BatchResult
    requires dest.TouchpadFrame? && src.TouchpadFrame?
  {
    if !FrameIsMoveOnly(dest) || !FrameIsMoveOnly(src) then TerminateBatch
    else if |dest.contacts| != |src.contacts| || dest.button != src.button || dest.rotation != src.rotation ||
            dest.widthMm != src.widthMm || dest.heightMm != src.heightMm
    then TerminateBatch
    else if PointerIds(dest.contacts) != PointerIds(src.contacts) then NotBatchable
    else Batched(src)
  }

  function BatchPen(dest: Packet, src: Packet): BatchResult
    requires dest.Pen? && src.Pen?
  {
    if !dest.event.Hover? || dest.event != src.event || dest.penButtons != src.penButtons || dest.tool != src.tool
    then TerminateBatch
    else Batched(src)
  }

  function BatchControllerTouch(dest: Packet, src: Packet): BatchResult
    requires dest.ControllerTouch? && src.ControllerTouch?
  {
    if !Tracking(dest.event) then TerminateBatch
    else if dest.number != src.number then NotBatchable
    else if !Tracking(src.event) || dest.pointer != src.pointer || dest.event != src.event then TerminateBatch
    else Batched(src)
  }

  function BatchMotion(dest: Packet, src: Packet): BatchResult
    requires dest.Motion? && src.Motion?
  {
    if dest.number != src.number || dest.sensor != src.sensor then NotBatchable else Batched(src)
  }

  function Batch(dest: Packet, src: Packet): BatchResult {
    if MagicOf(dest) != MagicOf(src) then TerminateBatch
    else
      match dest
      case RelMouse(_, _) => BatchRelMouse(dest, src)
      case AbsMouse(_, _, _) => BatchAbsMouse(dest, src)
      case Scroll(_, _) => BatchScroll(dest, src)
      case HScroll(_) => BatchHScroll(dest, src)
      case Controller(_, _, _, _, _) => BatchController(dest, src)
      case Touch(_, _, _) => BatchTouch(dest, src)
      case Touchpad(_, _, _, _) => BatchTouchpad(dest, src)
      case TouchpadFrame(_, _, _, _, _) => BatchTouchpadFrame(dest, src)
      case Pen(_, _, _, _) => BatchPen(dest, src)
      case ControllerTouch(_, _, _, _) => BatchControllerTouch(dest, src)
      case Motion(_, _, _) => BatchMotion(dest, src)
      case Malformed => TerminateBatch
      case Fixed(_, _) => TerminateBatch
  }

  /** A merged packet overtakes exactly what the packet it grew from could overtake. */
  lemma MergeKeepsOvertaking(dest: Packet, src: Packet, other: Packet)
    requires Batch(dest, src).Batched?
    ensures Batch(dest, other).NotBatchable? <==> Batch(Batch(dest, src).merged, other).NotBatchable?
  {
  }

  // ---------------------------------------------------------------- one task

  /** The batching pass over the rest of the queue: what the popped packet becomes, what stays queued. */
  function Scan(dest: Packet, rest: seq<Packet>): (Packet, seq<Packet>)
    decreases |rest|
  {
    if rest == [] then (dest, [])
    else if rest[0].Malformed? then Scan(dest, rest[1..])
    else
      match Batch(dest, rest[0])
      case TerminateBatch => (dest, rest)
      case Batched(merged) => Scan(merged, rest[1..])
      case NotBatchable =>
        var later := Scan(dest, rest[1..]);
        (later.0, [rest[0]] + later.1)
  }

  /** What a task hands to the OS, if anything, and the queue it leaves. */
  function Task(queue: seq<Packet>): (Option<Packet>, seq<Packet>) {
    if queue == [] then (None, [])
    else if queue[0].Malformed? then (None, queue[1..])
    else
      var scanned := Scan(queue[0], queue[1..]);
      (Some(scanned.0), scanned.1)
  }

  lemma {:induction false} ScanShrinks(dest: Packet, rest: seq<Packet>)
    ensures |Scan(dest, rest).1| <= |rest|
    decreases |rest|
  {
    if rest == [] {
    } else {
      match Batch(dest, rest[0])
      case Batched(merged) => ScanShrinks(dest, rest[1..]); ScanShrinks(merged, rest[1..]);
      case _ => ScanShrinks(dest, rest[1..]);
    }
  }

  /** What the OS gets when tasks run until the queue is empty. */
  function Drain(queue: seq<Packet>): seq<Packet>
    decreases |queue|
  {
    if queue == [] then []
    else
      var (sent, rest) := Task(queue);
      assert |rest| < |queue| by { ScanShrinks(queue[0], queue[1..]); }
      (if sent.Some? then [sent.value] else []) + Drain(rest)
  }

  function Erased(queue: seq<Packet>, i: nat): seq<Packet>
    requires i < |queue|
  {
    queue[..i] + queue[i + 1..]
  }

  /** The pass has still to look at the entries from `i` on to reach its goal. */
  ghost predicate Heading(goal: (Packet, seq<Packet>), payload: Packet, queue: seq<Packet>, i: nat) {
    i <= |queue| && goal.0 == Scan(payload, queue[i..]).0 && goal.1 == queue[..i] + Scan(payload, queue[i..]).1
  }

  lemma EraseMoves(queue: seq<Packet>, i: nat)
    requires i < |queue|
    ensures Erased(queue, i)[..i] == queue[..i] && Erased(queue, i)[i..] == queue[i..][1..]
  {
  }

  /** A malformed or merged entry is erased, the iterator stays. */
  lemma HeadingPastErased(goal: (Packet, seq<Packet>), payload: Packet, queue: seq<Packet>, i: nat)
    requires i < |queue| && Heading(goal, payload, queue, i)
    ensures queue[i].Malformed? ==> Heading(goal, payload, Erased(queue, i), i)
    ensures !queue[i].Malformed? && Batch(payload, queue[i]).Batched? ==>
              Heading(goal, Batch(payload, queue[i]).merged, Erased(queue, i), i)
  {
    EraseMoves(queue, i);
  }

  lemma HeadingPastKept(goal: (Packet, seq<Packet>), payload: Packet, queue: seq<Packet>, i: nat)
    requires i < |queue| && Heading(goal, payload, queue, i)
    requires !queue[i].Malformed? && Batch(payload, queue[i]).NotBatchable?
    ensures Heading(goal, payload, queue, i + 1)
  {
    var later := Scan(payload, queue[i + 1..]);
    assert queue[i..][1..] == queue[i + 1..];
    assert queue[..i] + ([queue[i]] + later.1) == queue[..i + 1] + later.1;
  }

  lemma HeadingEnds(goal: (Packet, seq<Packet>), payload: Packet, queue: seq<Packet>, i: nat)
    requires Heading(goal, payload, queue, i)
    requires i == |queue| || (!queue[i].Malformed? && Batch(payload, queue[i]).TerminateBatch?)
    ensures goal == (payload, queue)
  {
    assert queue[..i] + queue[i..] == queue;
  }

  class InputQueue {
    var queue: seq<Packet>

    constructor ()
      ensures queue == []
    {
      queue := [];
    }

    /** Called for every message that arrives; each call also schedules one task. */
    method Enqueue(packet: Packet)
      modifies this
      ensures queue == old(queue) + [packet]
    {
      queue := queue + [packet];
    }

    method PassthroughNextMessage() returns (sent: Option<Packet>)
      modifies this
      ensures (sent, queue) == Task(old(queue))
    {
      if queue == [] {
        return None;
      }
      var payload := queue[0];
      queue := queue[1..];
      if payload.Malformed? {
        return None;
      }
      ghost var goal := Scan(payload, queue);
      var i := 0;
      assert queue[..i] == [] && queue[i..] == queue;
      while i < |queue|
        invariant Heading(goal, payload, queue, i)
        decreases |queue| - i
      {
        var entry := queue[i];
        HeadingPastErased(goal, payload, queue, i);
        if entry.Malformed? {
          queue := queue[..i] + queue[i + 1..];
          continue;
        }
        match Batch(payload, entry)
        case TerminateBatch =>
          break;
        case Batched(merged) =>
          payload := merged;
          queue := queue[..i] + queue[i + 1..];
        case NotBatchable =>
          HeadingPastKept(goal, payload, queue, i);
          i := i + 1;
      }
      HeadingEnds(goal, payload, queue, i);
      return Some(payload);
    }
  }
}
