/** Batching cannot be told apart from delivering every packet: for any observer that lets merged
    packets stand for their parts and does not mind overtaking, and in particular for a device model
    that remembers almost everything. */
module InputTrace {
  import opened Common
  import opened InputBatching

  // ---------------------------------------------------------------- lawful observers

  ghost function Replay<D>(apply: (D, Packet) -> D, d: D, packets: seq<Packet>): D {
    if packets == [] then d else Replay(apply, apply(d, packets[0]), packets[1..])
  }

  ghost predicate IgnoresMalformed<D(!new)>(apply: (D, Packet) -> D) {
    forall d :: apply(d, Malformed) == d
  }

  ghost predicate AbsorbsMerges<D(!new)>(apply: (D, Packet) -> D) {
    forall d, a, b :: Batch(a, b).Batched? ==> apply(apply(d, a), b) == apply(d, Batch(a, b).merged)
  }

  ghost predicate AllowsOvertaking<D(!new)>(apply: (D, Packet) -> D) {
    forall d, a, b :: Batch(a, b).NotBatchable? ==> apply(apply(d, a), b) == apply(apply(d, b), a)
  }

  ghost predicate Lawful<D(!new)>(apply: (D, Packet) -> D) {
    IgnoresMalformed(apply) && AbsorbsMerges(apply) && AllowsOvertaking(apply)
  }

  lemma {:induction false} ScanKeepsOvertaking(dest: Packet, rest: seq<Packet>, other: Packet)
    requires Batch(dest, other).NotBatchable?
    ensures Batch(Scan(dest, rest).0, other).NotBatchable?
    decreases |rest|
  {
    if rest == [] {
    } else if rest[0].Malformed? {
      ScanKeepsOvertaking(dest, rest[1..], other);
    } else {
      match Batch(dest, rest[0])
      case Batched(merged) =>
        MergeKeepsOvertaking(dest, rest[0], other);
        ScanKeepsOvertaking(merged, rest[1..], other);
      case NotBatchable => ScanKeepsOvertaking(dest, rest[1..], other);
      case TerminateBatch =>
    }
  }

  lemma {:induction false} ScanUnseen<D(!new)>(apply: (D, Packet) -> D, d: D, dest: Packet, rest: seq<Packet>)
    requires Lawful(apply)
    ensures Replay(apply, apply(d, dest), rest) ==
            Replay(apply, apply(d, Scan(dest, rest).0), Scan(dest, rest).1)
    decreases |rest|
  {
    if rest == [] {
    } else {
      var first, later := rest[0], rest[1..];
      if first.Malformed? {
        ScanUnseen(apply, d, dest, later);
      } else {
        match Batch(dest, first)
        case TerminateBatch =>
        case Batched(merged) =>
          assert apply(apply(d, dest), first) == apply(d, merged);
          ScanUnseen(apply, d, merged, later);
        case NotBatchable =>
          var (merged, left) := Scan(dest, later);
          assert apply(apply(d, dest), first) == apply(apply(d, first), dest);
          ScanUnseen(apply, apply(d, first), dest, later);
          ScanKeepsOvertaking(dest, later, first);
          assert apply(apply(d, merged), first) == apply(apply(d, first), merged);
          assert ([first] + left)[1..] == left;
      }
    }
  }

  ghost function Sent(sent: Option<Packet>): seq<Packet> {
    if sent.Some? then [sent.value] else []
  }

  /** One task: what it sends, followed by what it leaves queued, looks like what was queued. */
  lemma TaskUnseen<D(!new)>(apply: (D, Packet) -> D, d: D, queue: seq<Packet>)
    requires Lawful(apply)
    ensures Replay(apply, d, queue) == Replay(apply, d, Sent(Task(queue).0) + Task(queue).1)
  {
    if queue != [] {
      var (sent, left) := Task(queue);
      if sent.Some? {
        ScanUnseen(apply, d, queue[0], queue[1..]);
        assert (Sent(sent) + left)[1..] == left;
      } else {
        assert Sent(sent) + left == left;
      }
    }
  }

  lemma {:induction false} ReplayConcat<D>(apply: (D, Packet) -> D, d: D, a: seq<Packet>, b: seq<Packet>)
    ensures Replay(apply, d, a + b) == Replay(apply, Replay(apply, d, a), b)
  {
    if a == [] {
      assert a + b == b;
    } else {
      assert (a + b)[1..] == a[1..] + b;
      ReplayConcat(apply, apply(d, a[0]), a[1..], b);
    }
  }

  /** Draining any queue with batching is trace-equivalent to delivering it packet by packet. */
  lemma {:induction false} DrainUnseen<D(!new)>(apply: (D, Packet) -> D, d: D, queue: seq<Packet>)
    requires Lawful(apply)
    ensures Replay(apply, d, Drain(queue)) == Replay(apply, d, queue)
    decreases |queue|
  {
    if queue == [] {
    } else {
      var (sent, left) := Task(queue);
      ScanShrinks(queue[0], queue[1..]);
      TaskUnseen(apply, d, queue);
      ReplayConcat(apply, d, Sent(sent), left);
      ReplayConcat(apply, d, Sent(sent), Drain(left));
      DrainUnseen(apply, Replay(apply, d, Sent(sent)), left);
    }
  }

  // ---------------------------------------------------------------- arrivals and tasks interleaved

  datatype InputEvent = Arrive(packet: Packet) | RunTask

  /** The queue, the tasks scheduled and not yet run, and everything sent so far. */
  datatype Pump = Pump(queue: seq<Packet>, tasks: nat, sent: seq<Packet>)

  ghost function PumpStep(p: Pump, e: InputEvent): Pump {
    match e
    case Arrive(packet) => p.(queue := p.queue + [packet], tasks := p.tasks + 1)
    case RunTask =>
      if p.tasks == 0 then p
      else Pump(Task(p.queue).1, p.tasks - 1, p.sent + Sent(Task(p.queue).0))
  }

  ghost function PumpRun(events: seq<InputEvent>): Pump {
    if events == [] then Pump([], 0, [])
    else PumpStep(PumpRun(events[..|events| - 1]), events[|events| - 1])
  }

  ghost function Arrivals(events: seq<InputEvent>): seq<Packet> {
    if events == [] then []
    else
      var e := events[|events| - 1];
      Arrivals(events[..|events| - 1]) + if e.Arrive? then [e.packet] else []
  }

  lemma PumpedTask<D(!new)>(apply: (D, Packet) -> D, d: D, p: Pump)
    requires Lawful(apply) && p.tasks > 0
    ensures var p' := PumpStep(p, RunTask);
      Replay(apply, d, p'.sent + p'.queue) == Replay(apply, d, p.sent + p.queue)
  {
    var p' := PumpStep(p, RunTask);
    var task := Task(p.queue);
    ReplayConcat(apply, d, p.sent, p.queue);
    TaskUnseen(apply, Replay(apply, d, p.sent), p.queue);
    ReplayConcat(apply, d, p.sent, Sent(task.0) + task.1);
    assert p'.sent + p'.queue == p.sent + (Sent(task.0) + task.1);
  }

  lemma TaskShortensQueue(queue: seq<Packet>)
    ensures queue == [] ==> Task(queue).1 == []
    ensures queue != [] ==> |Task(queue).1| < |queue|
  {
    if queue != [] {
      ScanShrinks(queue[0], queue[1..]);
    }
  }

  /** However arrivals and tasks interleave: what has been sent, followed by the queue, looks like
      everything that arrived; and there is a task for every queued packet, so once all tasks have run
      nothing is stranded. */
  lemma {:induction false} PumpUnseen<D(!new)>(apply: (D, Packet) -> D, d: D, events: seq<InputEvent>)
    requires Lawful(apply)
    ensures var p := PumpRun(events);
      && |p.queue| <= p.tasks
      && Replay(apply, d, p.sent + p.queue) == Replay(apply, d, Arrivals(events))
      && (p.tasks == 0 ==> Replay(apply, d, p.sent) == Replay(apply, d, Arrivals(events)))
  {
    if events == [] {
    } else {
      var last := |events| - 1;
      var p, e := PumpRun(events[..last]), events[last];
      var p' := PumpStep(p, e);
      PumpUnseen(apply, d, events[..last]);
      if e.Arrive? {
        assert p'.sent + p'.queue == (p.sent + p.queue) + [e.packet];
        ReplayConcat(apply, d, p.sent + p.queue, [e.packet]);
        ReplayConcat(apply, d, Arrivals(events[..last]), [e.packet]);
      } else if p.tasks > 0 {
        TaskShortensQueue(p.queue);
        PumpedTask(apply, d, p);
        assert Arrivals(events) == Arrivals(events[..last]);
      } else {
        assert Arrivals(events) == Arrivals(events[..last]);
      }
      if p'.tasks == 0 {
        assert p'.sent + p'.queue == p'.sent;
      }
    }
  }

  // ---------------------------------------------------------------- a device that remembers

  /** Packets of different streams of one kind may overtake each other. */
  datatype Stream =
    | OfPacketType(magic: Magic)
    | OfController(number: int)
    | OfPointer(pointer: int)
    | OfTouchpad(pointer: int)
    | OfContacts(pointers: seq<int>)
    | OfControllerTouch(number: int)
    | OfSensor(number: int, sensor: int)

  function StreamOf(p: Packet): Stream {
    match p
    case Controller(number, _, _, _, _) => OfController(number)
    case Touch(_, pointer, _) => OfPointer(pointer)
    case Touchpad(_, pointer, _, _) => OfTouchpad(pointer)
    case TouchpadFrame(_, _, _, _, contacts) => OfContacts(PointerIds(contacts))
    case ControllerTouch(number, _, _, _) => OfControllerTouch(number)
    case Motion(number, sensor, _) => OfSensor(number, sensor)
    case _ => OfPacketType(MagicOf(p))
  }

  /** A stretch of a stream that batching may shorten is remembered by its last packet. */
  ghost function Extend(history: seq<Packet>, p: Packet): seq<Packet> {
    if history != [] && Batch(history[|history| - 1], p).Batched? then history[..|history| - 1] + [p]
    else history + [p]
  }

  ghost function ExtendMask(masks: seq<int>, mask: int): seq<int> {
    if masks != [] && masks[|masks| - 1] == mask then masks else masks + [mask]
  }

  /** Nothing merges with such a packet or passes it, so its place in the global order is kept. */
  ghost predicate Barrier(p: Packet) {
    match p
    case Fixed(_, _) => true
    case Touch(event, _, _) => !Tracking(event)
    case Touchpad(event, _, _, _) => !Tracking(event)
    case TouchpadFrame(_, _, _, _, _) => !FrameIsMoveOnly(p)
    case Pen(event, _, _, _) => !event.Hover?
    case _ => false
  }

  /** The total motion and scroll, the history of every stream and of the active-controller mask. */
  datatype Seen = Seen(
    deltaX: int, deltaY: int, scroll: int, hscroll: int,
    streams: map<Stream, seq<Packet>>, masks: seq<int>)

  /** `marks` keeps, for every barrier and every change of packet type, all that had been seen just
      before it. */
  datatype Device = Device(seen: Seen, last: Magic, marks: seq<Mark>)

  datatype Mark = AtBarrier(packet: Packet, before: Seen) | AtChange(magic: Magic, before: Seen)

  ghost function History(seen: Seen, stream: Stream): seq<Packet> {
    if stream in seen.streams then seen.streams[stream] else []
  }

  ghost function See(seen: Seen, p: Packet): Seen {
    match p
    case RelMouse(deltaX, deltaY) => seen.(deltaX := seen.deltaX + deltaX, deltaY := seen.deltaY + deltaY)
    case Scroll(amount, _) => seen.(scroll := seen.scroll + amount)
    case HScroll(amount) => seen.(hscroll := seen.hscroll + amount)
    case _ =>
      seen.(
        streams := seen.streams[StreamOf(p) := Extend(History(seen, StreamOf(p)), p)],
        masks := if p.Controller? then ExtendMask(seen.masks, p.mask) else seen.masks)
  }

  ghost function MarkBefore(d: Device, p: Packet): seq<Mark> {
    if Barrier(p) then [AtBarrier(p, d.seen)]
    else if MagicOf(p) != d.last then [AtChange(MagicOf(p), d.seen)]
    else []
  }

  ghost function Observe(d: Device, p: Packet): Device {
    if p.Malformed? then d else Device(See(d.seen, p), MagicOf(p), d.marks + MarkBefore(d, p))
  }

  /** Motion and scroll are added up, every other packet joins its stream. */
  predicate Adds(p: Packet) {
    p.RelMouse? || p.Scroll? || p.HScroll?
  }

  lemma BatchedFacts(a: Packet, b: Packet)
    requires Batch(a, b).Batched?
    ensures var m := Batch(a, b).merged;
      && MagicOf(a) == MagicOf(b) == MagicOf(m) && StreamOf(a) == StreamOf(b) == StreamOf(m)
      && !Barrier(a) && !Barrier(b) && !Barrier(m) && !b.Malformed?
      && (Adds(a) || m == b)
      && (a.Controller? ==> b.Controller? && a.mask == b.mask)
  {
  }

  lemma OvertakenFacts(a: Packet, b: Packet)
    requires Batch(a, b).NotBatchable?
    ensures MagicOf(a) == MagicOf(b) && StreamOf(a) != StreamOf(b) && !Barrier(a) && !Barrier(b)
    ensures !Adds(a) && !a.Malformed?
    ensures a.Controller? ==> b.Controller? && a.mask == b.mask
  {
  }

  lemma BatchingIsAnEquivalence(a: Packet, b: Packet, c: Packet)
    requires Batch(b, c).Batched? && !Adds(b)
    ensures Batch(a, b).Batched? <==> Batch(a, c).Batched?
  {
  }

  lemma ExtendAbsorbs(history: seq<Packet>, a: Packet, b: Packet)
    requires Batch(a, b).Batched? && !Adds(a)
    ensures Extend(Extend(history, a), b) == Extend(history, b)
  {
    if history != [] {
      BatchingIsAnEquivalence(history[|history| - 1], a, b);
    }
  }

  lemma SeeState(seen: Seen, p: Packet)
    requires !Adds(p)
    ensures var seen' := See(seen, p);
      && seen'.streams == seen.streams[StreamOf(p) := Extend(History(seen, StreamOf(p)), p)]
      && seen'.masks == (if p.Controller? then ExtendMask(seen.masks, p.mask) else seen.masks)
      && seen' == seen.(streams := seen'.streams, masks := seen'.masks)
  {
  }

  lemma SeeAddsUp(seen: Seen, a: Packet, b: Packet)
    requires Batch(a, b).Batched? && Adds(a)
    ensures See(See(seen, a), b) == See(seen, Batch(a, b).merged)
  {
  }

  lemma StreamOverwrites(seen: Seen, stream: Stream, after: Seen, a: Packet, b: Packet)
    requires Batch(a, b).Batched? && !Adds(a)
    requires after.streams == seen.streams[stream := Extend(History(seen, stream), a)]
    ensures after.streams[stream := Extend(History(after, stream), b)] == seen.streams[stream := Extend(History(seen, stream), b)]
  {
    ExtendAbsorbs(History(seen, stream), a, b);
    assert History(after, stream) == Extend(History(seen, stream), a);
  }

  lemma StreamAbsorbs(seen: Seen, a: Packet, b: Packet)
    requires Batch(a, b).Batched? && !Adds(a) && !Adds(b) && StreamOf(a) == StreamOf(b)
    requires (a.Controller? <==> b.Controller?) && (a.Controller? ==> a.mask == b.mask)
    ensures See(See(seen, a), b) == See(seen, b)
  {
    SeeState(seen, a);
    SeeState(See(seen, a), b);
    SeeState(seen, b);
    StreamOverwrites(seen, StreamOf(a), See(seen, a), a, b);
  }

  lemma SeeAbsorbs(seen: Seen, a: Packet, b: Packet)
    requires Batch(a, b).Batched?
    ensures See(See(seen, a), b) == See(seen, Batch(a, b).merged)
  {
    BatchedFacts(a, b);
    if Adds(a) {
      SeeAddsUp(seen, a, b);
    } else {
      StreamAbsorbs(seen, a, b);
    }
  }

  lemma ObserveAbsorbs(d: Device, a: Packet, b: Packet)
    requires Batch(a, b).Batched?
    ensures Observe(Observe(d, a), b) == Observe(d, Batch(a, b).merged)
  {
    BatchedFacts(a, b);
    SeeAbsorbs(d.seen, a, b);
    assert MarkBefore(Observe(d, a), b) == [];
  }

  lemma SeeCommutes(seen: Seen, a: Packet, b: Packet)
    requires Batch(a, b).NotBatchable?
    ensures See(See(seen, a), b) == See(See(seen, b), a)
  {
    OvertakenFacts(a, b);
    SeeState(seen, a);
    SeeState(seen, b);
    SeeState(See(seen, a), b);
    SeeState(See(seen, b), a);
    StreamsCommute(seen, StreamOf(a), StreamOf(b), See(seen, a), See(seen, b), a, b);
  }

  lemma StreamsCommute(seen: Seen, left: Stream, right: Stream, seenA: Seen, seenB: Seen, a: Packet, b: Packet)
    requires left != right
    requires seenA.streams == seen.streams[left := Extend(History(seen, left), a)]
    requires seenB.streams == seen.streams[right := Extend(History(seen, right), b)]
    ensures seenA.streams[right := Extend(History(seenA, right), b)] == seenB.streams[left := Extend(History(seenB, left), a)]
  {
    assert History(seenA, right) == History(seen, right) && History(seenB, left) == History(seen, left);
  }

  lemma ObserveCommutes(d: Device, a: Packet, b: Packet)
    requires Batch(a, b).NotBatchable?
    ensures Observe(Observe(d, a), b) == Observe(Observe(d, b), a)
  {
    OvertakenFacts(a, b);
    SeeCommutes(d.seen, a, b);
    assert MarkBefore(Observe(d, a), b) == [] == MarkBefore(Observe(d, b), a);
  }

  /** The device is a lawful observer, so draining with batching keeps, at every barrier and at every
      change of packet type, the exact motion and scroll totals, every stream's history (for a
      controller: each run of equal buttons with its last state) and the order of mask changes. */
  lemma DeviceIsLawful()
    ensures Lawful(Observe)
  {
    forall d, a, b | Batch(a, b).Batched? ensures Observe(Observe(d, a), b) == Observe(d, Batch(a, b).merged) {
      ObserveAbsorbs(d, a, b);
    }
    forall d, a, b | Batch(a, b).NotBatchable? ensures Observe(Observe(d, a), b) == Observe(Observe(d, b), a) {
      ObserveCommutes(d, a, b);
    }
  }

  /** Once every task has run, the device has seen the same as without batching. */
  lemma DeviceCannotTell(events: seq<InputEvent>, d: Device)
    requires PumpRun(events).tasks == 0
    ensures Replay(Observe, d, PumpRun(events).sent) == Replay(Observe, d, Arrivals(events))
  {
    DeviceIsLawful();
    PumpUnseen(Observe, d, events);
  }

  // ---------------------------------------------------------------- controllers and sensors, spelled out

  ghost function NoteLast(stream: Stream): (Option<Packet>, Packet) -> Option<Packet> {
    (last: Option<Packet>, p: Packet) => if !p.Malformed? && !Adds(p) && StreamOf(p) == stream then Some(p) else last
  }

  ghost function NoteButtons(number: int): (seq<(int, int)>, Packet) -> seq<(int, int)> {
    (changes: seq<(int, int)>, p: Packet) =>
      if !p.Controller? || p.number != number then changes
      else if changes != [] && changes[|changes| - 1] == (p.buttons, p.buttons2) then changes
      else changes + [(p.buttons, p.buttons2)]
  }

  ghost function NoteMask(masks: seq<int>, p: Packet): seq<int> {
    if p.Controller? then ExtendMask(masks, p.mask) else masks
  }

  /** The last packet of a stream other than motion and scroll: of a controller, one of its sensors, a pen,
      a pointer. */
  ghost function LastPacket(packets: seq<Packet>, stream: Stream): Option<Packet> {
    Replay(NoteLast(stream), None, packets)
  }

  /** The button states a controller goes through. */
  ghost function ButtonChanges(packets: seq<Packet>, number: int): seq<(int, int)> {
    Replay(NoteButtons(number), [], packets)
  }

  /** The active-controller masks, in order. */
  ghost function MaskChanges(packets: seq<Packet>): seq<int> {
    Replay(NoteMask, [], packets)
  }

  lemma NoteLastIsLawful(stream: Stream)
    ensures Lawful(NoteLast(stream))
  {
    var apply := NoteLast(stream);
    forall d, a, b | Batch(a, b).Batched? ensures apply(apply(d, a), b) == apply(d, Batch(a, b).merged) {
      BatchedFacts(a, b);
    }
    forall d, a, b | Batch(a, b).NotBatchable? ensures apply(apply(d, a), b) == apply(apply(d, b), a) {
      OvertakenFacts(a, b);
    }
  }

  lemma NoteButtonsIsLawful(number: int)
    ensures Lawful(NoteButtons(number))
  {
    var apply := NoteButtons(number);
    forall d, a, b | Batch(a, b).Batched? ensures apply(apply(d, a), b) == apply(d, Batch(a, b).merged) {
      BatchedFacts(a, b);
    }
    forall d, a, b | Batch(a, b).NotBatchable? ensures apply(apply(d, a), b) == apply(apply(d, b), a) {
      OvertakenFacts(a, b);
    }
  }

  lemma NoteMaskIsLawful()
    ensures Lawful(NoteMask)
  {
    forall d, a, b | Batch(a, b).Batched? ensures NoteMask(NoteMask(d, a), b) == NoteMask(d, Batch(a, b).merged) {
      BatchedFacts(a, b);
    }
    forall d, a, b | Batch(a, b).NotBatchable? ensures NoteMask(NoteMask(d, a), b) == NoteMask(NoteMask(d, b), a) {
      OvertakenFacts(a, b);
    }
  }

  /** Batching keeps every stream's last packet, every controller's button changes in order, and the order
      of mask changes, though packets of other controllers may be overtaken. */
  lemma BatchingKeepsControllers(queue: seq<Packet>, number: int, stream: Stream)
    ensures LastPacket(Drain(queue), stream) == LastPacket(queue, stream)
    ensures ButtonChanges(Drain(queue), number) == ButtonChanges(queue, number)
    ensures MaskChanges(Drain(queue)) == MaskChanges(queue)
  {
    NoteLastIsLawful(stream);
    NoteButtonsIsLawful(number);
    NoteMaskIsLawful();
    DrainUnseen(NoteLast(stream), None, queue);
    DrainUnseen(NoteButtons(number), [], queue);
    DrainUnseen(NoteMask, [], queue);
  }
}
