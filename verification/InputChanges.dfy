/** What batching may merge and what it may not, told without reference to it: every packet belongs to a
    stream and a phase of that stream, and batching shortens phases without losing one. */
module InputChanges {
  import opened Common
  import opened InputBatching
  import opened InputTrace

  /** What a packet says of its stream besides data of which only the latest counts. Whole stands for a
      packet of which nothing may be lost. */
  datatype Phase =
    | Flowing
    | OnSurface(width: int, height: int)
    | OnController(mask: int, buttons: int, buttons2: int)
    | OnScreen(event: TouchEvent)
    | OnTouchpad(event: TouchEvent, button: int)
    | OnPad(button: int, rotation: int, widthMm: int, heightMm: int)
    | PenHover(penButtons: int, tool: int)
    | OnControllerPad(event: TouchEvent, pointer: int)
    | Whole(packet: Packet)

  predicate MovesOrHovers(e: TouchEvent) {
    e == Move || e == Hover
  }

  predicate AllMove(contacts: seq<Contact>) {
    0 < |contacts| <= FRAME_MAX_CONTACTS && forall i :: 0 <= i < |contacts| ==> contacts[i].event == Move
  }

  function PhaseOf(p: Packet): Phase {
    match p
    case RelMouse(_, _) => Flowing
    case Scroll(_, _) => Flowing
    case HScroll(_) => Flowing
    case Motion(_, _, _) => Flowing
    case AbsMouse(width, height, _) => OnSurface(width, height)
    case Controller(_, mask, buttons, buttons2, _) => OnController(mask, buttons, buttons2)
    case Touch(event, _, _) => if MovesOrHovers(event) then OnScreen(event) else Whole(p)
    case Touchpad(event, _, button, _) => if MovesOrHovers(event) then OnTouchpad(event, button) else Whole(p)
    case TouchpadFrame(button, rotation, widthMm, heightMm, contacts) =>
      if AllMove(contacts) then OnPad(button, rotation, widthMm, heightMm) else Whole(p)
    case Pen(event, penButtons, tool, _) => if event == Hover then PenHover(penButtons, tool) else Whole(p)
    case ControllerTouch(_, event, pointer, _) =>
      if MovesOrHovers(event) then OnControllerPad(event, pointer) else Whole(p)
    case Fixed(_, _) => Whole(p)
    case Malformed => Whole(p)
  }

  /** The packet that stands for two of one phase: motion and scroll add up, of all else the latest. */
  function Together(a: Packet, b: Packet): Packet
    requires SumFits(a, b)
  {
    match (a, b)
    case (RelMouse(x1, y1), RelMouse(x2, y2)) => RelMouse(x1 + x2, y1 + y2)
    case (Scroll(x, _), Scroll(y, _)) => Scroll(x + y, x + y)
    case (HScroll(x), HScroll(y)) => HScroll(x + y)
    case _ => b
  }

  predicate SumFits(a: Packet, b: Packet) {
    match (a, b)
    case (RelMouse(x1, y1), RelMouse(x2, y2)) => -32768 <= x1 + x2 <= 32767 && -32768 <= y1 + y2 <= 32767
    case (Scroll(x, _), Scroll(y, _)) => -32768 <= x + y <= 32767
    case (HScroll(x), HScroll(y)) => -32768 <= x + y <= 32767
    case _ => true
  }

  /** Two packets merge exactly when they are of one phase of one stream, and their sum fits. */
  lemma MergesIff(a: Packet, b: Packet)
    ensures Batch(a, b).Batched? <==>
              StreamOf(a) == StreamOf(b) && PhaseOf(a) == PhaseOf(b) && !PhaseOf(a).Whole? && SumFits(a, b)
    ensures Batch(a, b).Batched? ==> Batch(a, b).merged == Together(a, b)
  {
    if a.TouchpadFrame? && b.TouchpadFrame? {
      FramesMergeIff(a, b);
    }
  }

  lemma FramesMergeIff(a: Packet, b: Packet)
    requires a.TouchpadFrame? && b.TouchpadFrame?
    ensures Batch(a, b).Batched? <==> StreamOf(a) == StreamOf(b) && PhaseOf(a) == PhaseOf(b) && !PhaseOf(a).Whole?
    ensures Batch(a, b).Batched? ==> Batch(a, b).merged == b
  {
    FramesMoveIff(a);
    FramesMoveIff(b);
    assert PointerIds(a.contacts) == PointerIds(b.contacts) ==> |a.contacts| == |b.contacts|;
  }

  lemma FramesMoveIff(frame: Packet)
    requires frame.TouchpadFrame?
    ensures FrameIsMoveOnly(frame) <==> AllMove(frame.contacts)
  {
    forall c | AllMove(frame.contacts) && c in frame.contacts ensures c.event.Move? {
    }
  }

  /** The later packet may be sent with the earlier one's run still open, so that this one may yet pass
      it: they are of one type and different streams, neither starts or ends anything the other depends on,
      and controllers and frames agree in what they share. */
  predicate MayPass(a: Packet, b: Packet) {
    match (a, b)
    case (Controller(m, x, _, _, _), Controller(n, y, _, _, _)) => m != n && x == y
    case (Touch(e, p, _), Touch(f, q, _)) => p != q && MovesOrHovers(e) && MovesOrHovers(f)
    case (Touchpad(e, p, _, _), Touchpad(f, q, _, _)) => p != q && MovesOrHovers(e) && MovesOrHovers(f)
    case (TouchpadFrame(_, _, _, _, c), TouchpadFrame(_, _, _, _, d)) =>
      && AllMove(c) && AllMove(d) && PhaseOf(a) == PhaseOf(b) && |c| == |d|
      && exists i :: 0 <= i < |c| && c[i].pointer != d[i].pointer
    case (ControllerTouch(m, e, _, _), ControllerTouch(n, _, _, _)) => m != n && MovesOrHovers(e)
    case (Motion(m, x, _), Motion(n, y, _)) => m != n || x != y
    case _ => false
  }

  lemma PassesIff(a: Packet, b: Packet)
    ensures Batch(a, b).NotBatchable? <==> MayPass(a, b)
  {
    if a.TouchpadFrame? && b.TouchpadFrame? {
      FramesMoveIff(a);
      FramesMoveIff(b);
      if |a.contacts| == |b.contacts| {
        var c, d := a.contacts, b.contacts;
        if PointerIds(c) != PointerIds(d) {
          var i :| 0 <= i < |c| && PointerIds(c)[i] != PointerIds(d)[i];
          assert c[i].pointer != d[i].pointer;
        } else {
          forall i | 0 <= i < |c| ensures c[i].pointer == d[i].pointer {
            assert PointerIds(c)[i] == PointerIds(d)[i];
          }
        }
      }
    }
  }

  // ---------------------------------------------------------------- no phase is lost

  /** The phases a stream goes through; a whole packet is one of its own each time it comes. */
  ghost function NotePhase(stream: Stream): (seq<Phase>, Packet) -> seq<Phase> {
    (phases: seq<Phase>, p: Packet) =>
      if p.Malformed? || StreamOf(p) != stream then phases
      else if phases != [] && phases[|phases| - 1] == PhaseOf(p) && !PhaseOf(p).Whole? then phases
      else phases + [PhaseOf(p)]
  }

  ghost function Phases(packets: seq<Packet>, stream: Stream): seq<Phase> {
    Replay(NotePhase(stream), [], packets)
  }

  lemma NotePhaseIsLawful(stream: Stream)
    ensures Lawful(NotePhase(stream))
  {
    var apply := NotePhase(stream);
    forall d, a, b | Batch(a, b).Batched? ensures apply(apply(d, a), b) == apply(d, Batch(a, b).merged) {
      MergesIff(a, b);
      TogetherStays(a, b);
    }
    forall d, a, b | Batch(a, b).NotBatchable? ensures apply(apply(d, a), b) == apply(apply(d, b), a) {
      OvertakenFacts(a, b);
    }
  }

  lemma TogetherStays(a: Packet, b: Packet)
    requires StreamOf(a) == StreamOf(b) && PhaseOf(a) == PhaseOf(b) && !PhaseOf(a).Whole? && SumFits(a, b)
    ensures StreamOf(Together(a, b)) == StreamOf(b) && PhaseOf(Together(a, b)) == PhaseOf(b) && !Together(a, b).Malformed?
  {
  }

  /** Batching keeps the phases of every stream, in order: no press, release, contact, tool or mode is
      swallowed, and nothing that must arrive whole is merged. */
  lemma BatchingKeepsPhases(queue: seq<Packet>, stream: Stream)
    ensures Phases(Drain(queue), stream) == Phases(queue, stream)
  {
    NotePhaseIsLawful(stream);
    DrainUnseen(NotePhase(stream), [], queue);
  }

  // ---------------------------------------------------------------- spelled out

  /** The states, without repetitions, that the packets satisfying `of` go through. */
  ghost function NoteState<S>(of: Packet -> bool, state: Packet -> S): (seq<S>, Packet) -> seq<S> {
    (states: seq<S>, p: Packet) =>
      if !of(p) || (states != [] && states[|states| - 1] == state(p)) then states else states + [state(p)]
  }

  lemma NoteStateIsLawful<S(!new)>(of: Packet -> bool, state: Packet -> S)
    requires !of(Malformed)
    requires forall a, b :: Batch(a, b).Batched? ==> of(a) == of(b) == of(Batch(a, b).merged)
    requires forall a, b :: Batch(a, b).Batched? && of(a) ==> state(a) == state(b) == state(Batch(a, b).merged)
    requires forall a, b :: Batch(a, b).NotBatchable? ==> !of(a) || !of(b)
    ensures Lawful(NoteState(of, state))
  {
  }

  ghost function PenState(p: Packet): (TouchEvent, int, int) {
    if p.Pen? then (p.event, p.penButtons, p.tool) else (Move, 0, 0)
  }

  ghost function TouchState(p: Packet): TouchEvent {
    if p.Touch? || p.ControllerTouch? then p.event else Move
  }

  ghost function TouchedState(p: Packet): (TouchEvent, int) {
    if p.ControllerTouch? then (p.event, p.pointer) else (Move, 0)
  }

  /** The events, buttons and tools of the pen. */
  ghost function PenStates(packets: seq<Packet>): seq<(TouchEvent, int, int)> {
    Replay(NoteState((p: Packet) => p.Pen?, PenState), [], packets)
  }

  /** The events of a pointer on the screen. */
  ghost function TouchStates(packets: seq<Packet>, pointer: int): seq<TouchEvent> {
    Replay(NoteState((p: Packet) => p.Touch? && p.pointer == pointer, TouchState), [], packets)
  }

  /** The events and pointers on a controller's pad. */
  ghost function ControllerTouchStates(packets: seq<Packet>, number: int): seq<(TouchEvent, int)> {
    Replay(NoteState((p: Packet) => p.ControllerTouch? && p.number == number, TouchedState), [], packets)
  }

  lemma PhaseFacts(a: Packet, b: Packet)
    requires Batch(a, b).Batched?
    ensures var m := Batch(a, b).merged;
      && (a.Pen? <==> b.Pen?) && (m.Pen? <==> b.Pen?)
      && (a.Touch? <==> b.Touch?) && (m.Touch? <==> b.Touch?)
      && (a.ControllerTouch? <==> b.ControllerTouch?) && (m.ControllerTouch? <==> b.ControllerTouch?)
      && (a.Pen? ==> m == b && PenState(a) == PenState(b))
      && (a.Touch? ==> m == b && a.pointer == b.pointer && a.event == b.event)
      && (a.ControllerTouch? ==> m == b && a.number == b.number && TouchedState(a) == TouchedState(b))
  {
    MergesIff(a, b);
  }

  /** Batching keeps what the pen, each pointer on the screen and each controller's pad goes through. */
  lemma BatchingKeepsTouches(queue: seq<Packet>, pointer: int, number: int)
    ensures PenStates(Drain(queue)) == PenStates(queue)
    ensures TouchStates(Drain(queue), pointer) == TouchStates(queue, pointer)
    ensures ControllerTouchStates(Drain(queue), number) == ControllerTouchStates(queue, number)
  {
    PensAreKept(queue);
    PointersAreKept(queue, pointer);
    ControllerPadsAreKept(queue, number);
  }

  lemma PensAreKept(queue: seq<Packet>)
    ensures PenStates(Drain(queue)) == PenStates(queue)
  {
    var of := (p: Packet) => p.Pen?;
    forall a, b | Batch(a, b).Batched?
      ensures of(a) == of(b) == of(Batch(a, b).merged)
      ensures of(a) ==> PenState(a) == PenState(b) == PenState(Batch(a, b).merged)
    {
      PhaseFacts(a, b);
    }
    forall a, b | Batch(a, b).NotBatchable? ensures !of(a) || !of(b) {
      PassesIff(a, b);
    }
    NoteStateIsLawful(of, PenState);
    DrainUnseen(NoteState(of, PenState), [], queue);
  }

  lemma PointersAreKept(queue: seq<Packet>, pointer: int)
    ensures TouchStates(Drain(queue), pointer) == TouchStates(queue, pointer)
  {
    var of := (p: Packet) => p.Touch? && p.pointer == pointer;
    forall a, b | Batch(a, b).Batched?
      ensures of(a) == of(b) == of(Batch(a, b).merged)
      ensures of(a) ==> TouchState(a) == TouchState(b) == TouchState(Batch(a, b).merged)
    {
      PhaseFacts(a, b);
    }
    forall a, b | Batch(a, b).NotBatchable? ensures !of(a) || !of(b) {
      PassesIff(a, b);
    }
    NoteStateIsLawful(of, TouchState);
    DrainUnseen(NoteState(of, TouchState), [], queue);
  }

  lemma ControllerPadsAreKept(queue: seq<Packet>, number: int)
    ensures ControllerTouchStates(Drain(queue), number) == ControllerTouchStates(queue, number)
  {
    var of := (p: Packet) => p.ControllerTouch? && p.number == number;
    forall a, b | Batch(a, b).Batched?
      ensures of(a) == of(b) == of(Batch(a, b).merged)
      ensures of(a) ==> TouchedState(a) == TouchedState(b) == TouchedState(Batch(a, b).merged)
    {
      PhaseFacts(a, b);
    }
    forall a, b | Batch(a, b).NotBatchable? ensures !of(a) || !of(b) {
      PassesIff(a, b);
    }
    NoteStateIsLawful(of, TouchedState);
    DrainUnseen(NoteState(of, TouchedState), [], queue);
  }

  // ---------------------------------------------------------------- and phases are shortened

  /** All of one phase, to be merged into one. */
  ghost predicate OnePhase(packets: seq<Packet>, first: Packet) {
    !PhaseOf(first).Whole? && !Adds(first) &&
    forall i :: 0 <= i < |packets| ==> StreamOf(packets[i]) == StreamOf(first) && PhaseOf(packets[i]) == PhaseOf(first)
  }

  lemma {:induction false} PhaseIsScanned(dest: Packet, rest: seq<Packet>)
    requires OnePhase(rest, dest)
    ensures Scan(dest, rest) == (if rest == [] then dest else rest[|rest| - 1], [])
    decreases rest
  {
    if rest == [] {
    } else {
      var next := rest[0];
      SamePhaseSameType(dest, next);
      MergesIff(dest, next);
      assert Batch(dest, next) == Batched(next);
      forall i | 0 <= i < |rest[1..]| ensures rest[1..][i] == rest[i + 1] {
      }
      PhaseIsScanned(next, rest[1..]);
    }
  }

  lemma SamePhaseSameType(a: Packet, b: Packet)
    requires StreamOf(a) == StreamOf(b) && PhaseOf(a) == PhaseOf(b) && !PhaseOf(a).Whole? && !Adds(a)
    ensures !Adds(b) && !b.Malformed? && SumFits(a, b) && Together(a, b) == b
  {
  }

  /** However many packets of one phase are queued, one is sent, the latest. */
  lemma PhaseIsSentOnce(queue: seq<Packet>)
    requires queue != [] && OnePhase(queue, queue[0])
    ensures Drain(queue) == [queue[|queue| - 1]]
  {
    forall i | 0 <= i < |queue[1..]| ensures queue[1..][i] == queue[i + 1] {
    }
    PhaseIsScanned(queue[0], queue[1..]);
    assert Drain([]) == [];
  }
}
