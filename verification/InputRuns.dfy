/** What draining sends, packet by packet: the runs of merged packets, in the order in which they begin.
    From that, exactly what an observer that does mind the order of streams can see of batching. */
module InputRuns {
  import opened Common
  import opened InputBatching
  import opened InputTrace

  // ---------------------------------------------------------------- runs

  /** What a merged packet has become; it is open as long as later packets may join it. */
  datatype Run = Run(packet: Packet, open: bool)

  /** A packet meets the runs in the order in which they began: it joins the first open one it batches
      with, closes those it terminates on the way, and begins a run if it joins none. */
  function Join(runs: seq<Run>, p: Packet): seq<Run>
    decreases runs
  {
    if runs == [] then [Run(p, true)]
    else if !runs[0].open then [runs[0]] + Join(runs[1..], p)
    else
      match Batch(runs[0].packet, p)
      case Batched(merged) => [Run(merged, true)] + runs[1..]
      case TerminateBatch => [Run(runs[0].packet, false)] + Join(runs[1..], p)
      case NotBatchable => [runs[0]] + Join(runs[1..], p)
  }

  /** One pass over the queue. */
  function Fold(runs: seq<Run>, queue: seq<Packet>): seq<Run>
    decreases queue
  {
    if queue == [] then runs
    else Fold(if queue[0].Malformed? then runs else Join(runs, queue[0]), queue[1..])
  }

  function Packets(runs: seq<Run>): (packets: seq<Packet>)
    ensures |packets| == |runs| && forall i :: 0 <= i < |runs| ==> packets[i] == runs[i].packet
  {
    if runs == [] then [] else [runs[0].packet] + Packets(runs[1..])
  }

  lemma {:induction false} ClosedRunStays(head: Run, later: seq<Run>, queue: seq<Packet>)
    requires !head.open
    ensures Fold([head] + later, queue) == [head] + Fold(later, queue)
    decreases queue
  {
    if queue == [] {
    } else if queue[0].Malformed? {
      ClosedRunStays(head, later, queue[1..]);
    } else {
      assert ([head] + later)[1..] == later;
      ClosedRunStays(head, Join(later, queue[0]), queue[1..]);
    }
  }

  /** The first run is what one batching pass makes of it, the others are those of what the pass leaves. */
  lemma {:induction false} FirstRunIsScan(dest: Packet, later: seq<Run>, queue: seq<Packet>)
    ensures var scanned, runs := Scan(dest, queue), Fold([Run(dest, true)] + later, queue);
      runs != [] && runs[0].packet == scanned.0 && runs[1..] == Fold(later, scanned.1)
    decreases queue
  {
    if queue == [] {
    } else {
      var p, rest := queue[0], queue[1..];
      var runs := [Run(dest, true)] + later;
      assert runs[1..] == later;
      if p.Malformed? {
        FirstRunIsScan(dest, later, rest);
      } else {
        match Batch(dest, p)
        case Batched(merged) =>
          FirstRunIsScan(merged, later, rest);
        case TerminateBatch =>
          ClosedRunStays(Run(dest, false), Join(later, p), rest);
        case NotBatchable =>
          FirstRunIsScan(dest, Join(later, p), rest);
          assert ([p] + Scan(dest, rest).1)[1..] == Scan(dest, rest).1;
      }
    }
  }

  /** Draining sends the runs in the order in which they begin, whatever the types of the packets. */
  lemma {:induction false} DrainIsRuns(queue: seq<Packet>)
    ensures Drain(queue) == Packets(Fold([], queue))
    decreases |queue|
  {
    if queue == [] {
    } else if queue[0].Malformed? {
      DrainIsRuns(queue[1..]);
    } else {
      var left := Scan(queue[0], queue[1..]).1;
      ScanShrinks(queue[0], queue[1..]);
      DrainIsRuns(left);
      FirstRunIsScan(queue[0], [], queue[1..]);
      assert [Run(queue[0], true)] + [] == [Run(queue[0], true)];
    }
  }

  // ---------------------------------------------------------------- open runs

  /** Open runs are of different streams that may pass each other, and a run of the same stream only
      begins once an open one is closed. */
  ghost predicate Apart(runs: seq<Run>) {
    forall i, j :: 0 <= i < j < |runs| && runs[i].open ==>
      && StreamOf(runs[i].packet) != StreamOf(runs[j].packet)
      && (runs[j].open ==> Batch(runs[i].packet, runs[j].packet).NotBatchable?)
  }

  ghost predicate JoinsAt(runs: seq<Run>, p: Packet, k: int) {
    0 <= k < |runs| && runs[k].open && Batch(runs[k].packet, p).Batched?
  }

  /** What passes a run passes its next packet. */
  lemma PassesOn(a: Packet, b: Packet, p: Packet)
    requires Batch(a, b).NotBatchable? && Batch(b, p).Batched?
    ensures Batch(a, p).NotBatchable? && Batch(a, Batch(b, p).merged).NotBatchable?
  {
  }

  function Closing(runs: seq<Run>, p: Packet): (closed: seq<Run>)
    ensures |closed| == |runs|
    ensures forall i :: 0 <= i < |runs| ==>
              closed[i] == Run(runs[i].packet, runs[i].open && Batch(runs[i].packet, p).NotBatchable?)
  {
    seq(|runs|, i requires 0 <= i < |runs| =>
      Run(runs[i].packet, runs[i].open && Batch(runs[i].packet, p).NotBatchable?))
  }

  lemma {:induction false} JoinsFirst(runs: seq<Run>, p: Packet, k: int)
    requires JoinsAt(runs, p, k)
    requires forall i :: 0 <= i < k && runs[i].open ==> Batch(runs[i].packet, p).NotBatchable?
    ensures Join(runs, p) == runs[k := Run(Batch(runs[k].packet, p).merged, true)]
    decreases runs
  {
    var joined := runs[k := Run(Batch(runs[k].packet, p).merged, true)];
    if k == 0 {
      assert joined == [joined[0]] + runs[1..];
    } else {
      JoinsFirst(runs[1..], p, k - 1);
      assert joined == [runs[0]] + runs[1..][k - 1 := joined[k]];
    }
  }

  lemma {:induction false} JoinsNone(runs: seq<Run>, p: Packet)
    requires forall i :: !JoinsAt(runs, p, i)
    ensures Join(runs, p) == Closing(runs, p) + [Run(p, true)]
    decreases runs
  {
    if runs == [] {
    } else {
      var rest := runs[1..];
      forall i ensures !JoinsAt(rest, p, i) {
        assert !JoinsAt(runs, p, i + 1);
      }
      JoinsNone(rest, p);
      assert !JoinsAt(runs, p, 0);
      assert Closing(runs, p) == [Closing(runs, p)[0]] + Closing(rest, p);
    }
  }

  /** So among runs apart, at most one changes when a packet joins it. */
  lemma JoinsOne(runs: seq<Run>, p: Packet, k: int)
    requires Apart(runs) && JoinsAt(runs, p, k)
    ensures var m := Batch(runs[k].packet, p).merged;
      Join(runs, p) == runs[k := Run(m, true)] && Apart(Join(runs, p)) && StreamOf(m) == StreamOf(p) == StreamOf(runs[k].packet)
  {
    var m := Batch(runs[k].packet, p).merged;
    forall i | 0 <= i < k && runs[i].open
      ensures Batch(runs[i].packet, p).NotBatchable? && Batch(runs[i].packet, m).NotBatchable?
    {
      PassesOn(runs[i].packet, runs[k].packet, p);
    }
    JoinsFirst(runs, p, k);
    BatchedFacts(runs[k].packet, p);
    forall j | k < j < |runs| && runs[j].open ensures Batch(m, runs[j].packet).NotBatchable? {
      MergeKeepsOvertaking(runs[k].packet, p, runs[j].packet);
    }
  }

  lemma BeginsRun(runs: seq<Run>, p: Packet)
    requires Apart(runs) && forall i :: !JoinsAt(runs, p, i)
    ensures Join(runs, p) == Closing(runs, p) + [Run(p, true)] && Apart(Join(runs, p))
  {
    JoinsNone(runs, p);
    var closed := Closing(runs, p);
    forall i | 0 <= i < |runs| && closed[i].open ensures StreamOf(runs[i].packet) != StreamOf(p) {
      OvertakenFacts(runs[i].packet, p);
    }
  }

  // ---------------------------------------------------------------- the last packet about something

  /** The last packet that satisfies the predicate. */
  function LatestAt(about: Packet -> bool, packets: seq<Packet>): (i: int)
    ensures -1 <= i < |packets| && (i >= 0 ==> about(packets[i]))
    ensures forall j :: i < j < |packets| ==> !about(packets[j])
  {
    if packets == [] then -1
    else if about(packets[|packets| - 1]) then |packets| - 1
    else
      var init := packets[..|packets| - 1];
      assert forall j :: 0 <= j < |init| ==> packets[j] == init[j];
      LatestAt(about, init)
  }

  function Latest(about: Packet -> bool, packets: seq<Packet>): Option<Packet> {
    var i := LatestAt(about, packets);
    if i < 0 then None else Some(packets[i])
  }

  lemma LatestIs(about: Packet -> bool, packets: seq<Packet>, i: int)
    requires -1 <= i < |packets| && (i >= 0 ==> about(packets[i]))
    requires forall j :: i < j < |packets| ==> !about(packets[j])
    ensures LatestAt(about, packets) == i
  {
  }

  /** A merge is about it exactly when both packets are. */
  ghost predicate KeptByMerges(about: Packet -> bool) {
    forall a, b :: Batch(a, b).Batched? ==> about(a) == about(b) == about(Batch(a, b).merged)
  }

  /** The open run of every stream, and what the last run to begin that is about it has become. */
  datatype Pass = Pass(open: map<Stream, Packet>, latest: Option<Packet>)

  /** The open runs that the packet does not close. */
  function Passed(open: map<Stream, Packet>, p: Packet): map<Stream, Packet> {
    map s | s in open && Batch(open[s], p).NotBatchable? :: open[s]
  }

  function PassStep(about: Packet -> bool, pass: Pass, p: Packet): Pass {
    var stream := StreamOf(p);
    if p.Malformed? then pass
    else if stream in pass.open && Batch(pass.open[stream], p).Batched? then
      var merged := Batch(pass.open[stream], p).merged;
      Pass(pass.open[stream := merged],
           if about(p) && pass.latest.Some? && StreamOf(pass.latest.value) == stream then Some(merged) else pass.latest)
    else
      Pass(Passed(pass.open, p)[stream := p], if about(p) then Some(p) else pass.latest)
  }

  function PassOver(about: Packet -> bool, pass: Pass, queue: seq<Packet>): Pass
    decreases queue
  {
    if queue == [] then pass else PassOver(about, PassStep(about, pass, queue[0]), queue[1..])
  }

  /** What the last run to begin that is about it becomes, found in one pass over the queue. */
  function LastRun(about: Packet -> bool, queue: seq<Packet>): Option<Packet> {
    PassOver(about, Pass(map[], None), queue).latest
  }

  ghost predicate OpenOf(runs: seq<Run>, i: int, stream: Stream) {
    0 <= i < |runs| && runs[i].open && StreamOf(runs[i].packet) == stream
  }

  /** The map holds the open runs. */
  ghost predicate Holds(open: map<Stream, Packet>, runs: seq<Run>) {
    && (forall i :: 0 <= i < |runs| && runs[i].open ==>
          StreamOf(runs[i].packet) in open && open[StreamOf(runs[i].packet)] == runs[i].packet)
    && (forall s :: s in open ==> exists i :: OpenOf(runs, i, s))
  }

  ghost predicate Follows(about: Packet -> bool, pass: Pass, runs: seq<Run>) {
    Apart(runs) && Holds(pass.open, runs) && pass.latest == Latest(about, Packets(runs))
  }

  lemma HoldsAfterJoin(open: map<Stream, Packet>, runs: seq<Run>, k: int, m: Packet)
    requires Apart(runs) && Holds(open, runs) && 0 <= k < |runs| && runs[k].open && StreamOf(m) == StreamOf(runs[k].packet)
    ensures Holds(open[StreamOf(m) := m], runs[k := Run(m, true)])
  {
    var runs', open' := runs[k := Run(m, true)], open[StreamOf(m) := m];
    forall i | 0 <= i < |runs'| && runs'[i].open && i != k ensures StreamOf(runs'[i].packet) != StreamOf(m) {
      assert i < k || k < i;
    }
    forall s | s in open' ensures exists i :: OpenOf(runs', i, s) {
      if s == StreamOf(m) {
        assert OpenOf(runs', k, s);
      } else {
        var i :| OpenOf(runs, i, s);
        assert OpenOf(runs', i, s);
      }
    }
  }

  lemma HoldsAfterBegin(open: map<Stream, Packet>, runs: seq<Run>, p: Packet)
    requires Holds(open, runs)
    ensures Holds(Passed(open, p)[StreamOf(p) := p], Closing(runs, p) + [Run(p, true)])
  {
    var closed := Closing(runs, p);
    var runs', open' := closed + [Run(p, true)], Passed(open, p)[StreamOf(p) := p];
    forall i | 0 <= i < |runs| && closed[i].open
      ensures StreamOf(runs[i].packet) != StreamOf(p) && StreamOf(runs[i].packet) in Passed(open, p)
    {
      OvertakenFacts(runs[i].packet, p);
    }
    forall s | s in open' ensures exists i :: OpenOf(runs', i, s) {
      if s == StreamOf(p) {
        assert OpenOf(runs', |runs|, s);
      } else {
        var i :| OpenOf(runs, i, s);
        assert OpenOf(runs', i, s);
      }
    }
  }

  lemma LatestKeepsPlace(about: Packet -> bool, packets: seq<Packet>, k: int, m: Packet)
    requires 0 <= k < |packets| && about(m) == about(packets[k])
    ensures LatestAt(about, packets[k := m]) == LatestAt(about, packets)
  {
    LatestIs(about, packets[k := m], LatestAt(about, packets));
  }

  /** Later runs are of other streams. */
  lemma SameStreamLatest(about: Packet -> bool, runs: seq<Run>, k: int)
    requires Apart(runs) && 0 <= k < |runs| && runs[k].open
    ensures var at := LatestAt(about, Packets(runs));
      about(runs[k].packet) && at >= 0 && StreamOf(runs[at].packet) == StreamOf(runs[k].packet) ==> at == k
  {
    assert about(Packets(runs)[k]) == about(runs[k].packet);
  }

  lemma LatestAfterJoin(about: Packet -> bool, runs: seq<Run>, k: int, m: Packet)
    requires Apart(runs) && 0 <= k < |runs| && runs[k].open
    requires StreamOf(m) == StreamOf(runs[k].packet) && about(m) == about(runs[k].packet)
    ensures var latest := Latest(about, Packets(runs));
      Latest(about, Packets(runs[k := Run(m, true)])) ==
        if about(m) && latest.Some? && StreamOf(latest.value) == StreamOf(m) then Some(m) else latest
  {
    assert Packets(runs[k := Run(m, true)]) == Packets(runs)[k := m];
    LatestKeepsPlace(about, Packets(runs), k, m);
    SameStreamLatest(about, runs, k);
  }

  lemma LatestAfterBegin(about: Packet -> bool, runs: seq<Run>, p: Packet)
    ensures Latest(about, Packets(Closing(runs, p) + [Run(p, true)])) ==
            if about(p) then Some(p) else Latest(about, Packets(runs))
  {
    var runs' := Closing(runs, p) + [Run(p, true)];
    LatestIs(about, Packets(runs'), if about(p) then |runs| else LatestAt(about, Packets(runs)));
  }

  lemma PassJoins(about: Packet -> bool, pass: Pass, runs: seq<Run>, p: Packet, k: int)
    requires KeptByMerges(about) && Follows(about, pass, runs) && !p.Malformed? && JoinsAt(runs, p, k)
    ensures Follows(about, PassStep(about, pass, p), Join(runs, p))
  {
    var m := Batch(runs[k].packet, p).merged;
    JoinsOne(runs, p, k);
    HoldsAfterJoin(pass.open, runs, k, m);
    LatestAfterJoin(about, runs, k, m);
  }

  lemma PassBegins(about: Packet -> bool, pass: Pass, runs: seq<Run>, p: Packet)
    requires Follows(about, pass, runs) && !p.Malformed? && forall i :: !JoinsAt(runs, p, i)
    ensures Follows(about, PassStep(about, pass, p), Join(runs, p))
  {
    if StreamOf(p) in pass.open {
      var i :| OpenOf(runs, i, StreamOf(p));
      assert !JoinsAt(runs, p, i);
    }
    BeginsRun(runs, p);
    HoldsAfterBegin(pass.open, runs, p);
    LatestAfterBegin(about, runs, p);
  }

  lemma {:induction false} PassFollows(about: Packet -> bool, pass: Pass, runs: seq<Run>, queue: seq<Packet>)
    requires KeptByMerges(about) && Follows(about, pass, runs)
    ensures Follows(about, PassOver(about, pass, queue), Fold(runs, queue))
    decreases queue
  {
    if queue == [] {
    } else {
      var p := queue[0];
      if p.Malformed? {
        PassFollows(about, pass, runs, queue[1..]);
      } else {
        if exists k :: JoinsAt(runs, p, k) {
          var k :| JoinsAt(runs, p, k);
          PassJoins(about, pass, runs, p, k);
        } else {
          PassBegins(about, pass, runs, p);
        }
        PassFollows(about, PassStep(about, pass, p), Join(runs, p), queue[1..]);
      }
    }
  }

  /** The last packet sent about something is what the last run about it to begin becomes. */
  lemma LatestSentIsLastRun(about: Packet -> bool, queue: seq<Packet>)
    requires KeptByMerges(about)
    ensures Latest(about, Drain(queue)) == LastRun(about, queue)
  {
    DrainIsRuns(queue);
    PassFollows(about, Pass(map[], None), [], queue);
  }

  // ---------------------------------------------------------------- the touchpad

  function ButtonOf(p: Option<Packet>): Option<int> {
    if p.Some? && p.value.Touchpad? then Some(p.value.button) else None
  }

  predicate IsTouchpad(p: Packet) {
    p.Touchpad?
  }

  /** The button state of the pad after these packets. */
  function LastButton(packets: seq<Packet>): Option<int> {
    ButtonOf(Latest(IsTouchpad, packets))
  }

  /** Batching keeps the pad's last button exactly when the run that begins last has it. */
  lemma LastButtonKeptIff(queue: seq<Packet>)
    ensures LastButton(Drain(queue)) == LastButton(queue) <==> ButtonOf(LastRun(IsTouchpad, queue)) == LastButton(queue)
  {
    forall a, b | Batch(a, b).Batched? ensures IsTouchpad(a) == IsTouchpad(b) == IsTouchpad(Batch(a, b).merged) {
      BatchedFacts(a, b);
    }
    LatestSentIsLastRun(IsTouchpad, queue);
  }

  /** Packets of different pointers may pass each other, so it can change. */
  lemma BatchingCanChangeTheLastButton()
    ensures var first, second := Touchpad(Move, 1, 0, []), Touchpad(Move, 2, 1, []);
      LastButton([first, second, first]) == Some(0) && LastButton(Drain([first, second, first])) == Some(1)
  {
    var first, second := Touchpad(Move, 1, 0, []), Touchpad(Move, 2, 1, []);
    TwoRunsSwap(first, second, first);
    LatestIs(IsTouchpad, [first, second, first], 2);
    LatestIs(IsTouchpad, [first, second], 1);
  }

  /** The last packet merges with the first and passes the second. */
  lemma TwoRunsSwap(first: Packet, second: Packet, last: Packet)
    requires Batch(first, second).NotBatchable? && Batch(first, last) == Batched(last)
    requires !first.Malformed? && !second.Malformed? && !last.Malformed?
    ensures Drain([first, second, last]) == [last, second]
  {
    var queue := [first, second, last];
    DrainIsRuns(queue);
    assert queue[1..] == [second, last] && [second, last][1..] == [last] && [last][1..] == [];
    var one := [Run(first, true)];
    assert Join([], first) == one && one[1..] == [];
    var two := [Run(first, true), Run(second, true)];
    assert Join(one, second) == two && two[1..] == [Run(second, true)];
    assert Join(two, last) == [Run(last, true), Run(second, true)];
    assert Fold([], queue) == Fold(one, [second, last]) == Fold(two, [last]) == [Run(last, true), Run(second, true)];
  }

  predicate HasPointer(p: Packet, pointer: int) {
    p.TouchpadFrame? && pointer in PointerIds(p.contacts)
  }

  function Holding(pointer: int): Packet -> bool {
    (p: Packet) => HasPointer(p, pointer)
  }

  /** The contacts of the pointer in a frame. */
  function ContactsOf(p: Option<Packet>, pointer: int): seq<Contact> {
    if p.Some? && p.value.TouchpadFrame? then OfPointer(p.value.contacts, pointer) else []
  }

  function OfPointer(contacts: seq<Contact>, pointer: int): seq<Contact> {
    if contacts == [] then []
    else (if contacts[0].pointer == pointer then [contacts[0]] else []) + OfPointer(contacts[1..], pointer)
  }

  /** The pointer's state after these packets. */
  function LastContacts(packets: seq<Packet>, pointer: int): seq<Contact> {
    ContactsOf(Latest(Holding(pointer), packets), pointer)
  }

  lemma HoldingIsKept(pointer: int)
    ensures KeptByMerges(Holding(pointer))
  {
    var about := Holding(pointer);
    forall a, b | Batch(a, b).Batched? ensures about(a) == about(b) == about(Batch(a, b).merged) {
      BatchedFacts(a, b);
    }
  }

  /** Batching keeps a pointer's last state over frames exactly when the run of frames with the pointer
      that begins last comes to it. */
  lemma LastContactsKeptIff(queue: seq<Packet>, pointer: int)
    ensures LastContacts(Drain(queue), pointer) == LastContacts(queue, pointer)
       <==> ContactsOf(LastRun(Holding(pointer), queue), pointer) == LastContacts(queue, pointer)
  {
    HoldingIsKept(pointer);
    LatestSentIsLastRun(Holding(pointer), queue);
  }

  ghost function TwoFingers(first: Contact, second: Contact): Packet {
    TouchpadFrame(0, 0, 0, 0, [first, second])
  }

  lemma OneOfTwo(first: Contact, second: Contact)
    requires first.pointer != second.pointer
    ensures ContactsOf(Some(TwoFingers(first, second)), first.pointer) == [first]
    ensures HasPointer(TwoFingers(first, second), first.pointer)
  {
    var contacts := [first, second];
    assert contacts[1..] == [second] && [second][1..] == [];
    assert PointerIds(contacts)[0] == first.pointer;
    assert OfPointer([second], first.pointer) == [];
  }

  /** Frames with different pointers may pass each other too: pointer 1 ends at 2 as the frames come, and
      at 1 once they are batched. */
  lemma BatchingCanReorderFrames()
    requires FRAME_MAX_CONTACTS >= 2
    ensures var queue := [
        TwoFingers(Contact(Move, 1, [0]), Contact(Move, 2, [0])),
        TwoFingers(Contact(Move, 1, [1]), Contact(Move, 3, [0])),
        TwoFingers(Contact(Move, 1, [2]), Contact(Move, 2, [0]))];
      LastContacts(queue, 1) == [Contact(Move, 1, [2])] && LastContacts(Drain(queue), 1) == [Contact(Move, 1, [1])]
  {
    var start := TwoFingers(Contact(Move, 1, [0]), Contact(Move, 2, [0]));
    var other := TwoFingers(Contact(Move, 1, [1]), Contact(Move, 3, [0]));
    var end := TwoFingers(Contact(Move, 1, [2]), Contact(Move, 2, [0]));
    assert PointerIds(start.contacts) == [1, 2] == PointerIds(end.contacts);
    assert PointerIds(other.contacts)[1] == 3;
    TwoRunsSwap(start, other, end);
    OneOfTwo(other.contacts[0], other.contacts[1]);
    OneOfTwo(end.contacts[0], end.contacts[1]);
    LatestIs(Holding(1), [start, other, end], 2);
    LatestIs(Holding(1), [end, other], 1);
  }
}
