/** The live log viewer: a snapshot cache published by compare-and-swap, serving clients that keep an
    offset into an append-only file. Requests run concurrently; each step below is atomic. */
module LogCache {
  import opened Common

  type Text = seq<bv8>

  const MAX_LOG_CACHE_SIZE := 4 * 1024 * 1024
  const MAX_RESPONSE_SIZE := 4 * 1024 * 1024

  /** `serial` tells snapshots apart as their addresses do. */
  datatype Snapshot = Snapshot(serial: nat, content: Option<Text>, fileSize: nat, mtime: int, startOffset: nat)

  // ---------------------------------------------------------------- reading the file

  /** read_file_range; `ok` says whether the disk obliges. */
  function ReadRange(log: Text, offset: nat, length: nat, ok: bool): Option<Text> {
    if ok && offset + length <= |log| then Some(log[offset..offset + length]) else None
  }

  function TryIncremental(log: Text, prevSize: nat, currentSize: nat, oldContent: Option<Text>, ok: bool): Option<Text> {
    if currentSize <= prevSize || prevSize == 0 || oldContent.None? then None
    else
      match ReadRange(log, prevSize, currentSize - prevSize, ok)
      case None => None
      case Some(tail) => Some(oldContent.value + tail)
  }

  // ---------------------------------------------------------------- the steps of one request

  predicate Stale(seen: Option<Snapshot>, size: nat, mtime: int) {
    seen.None? || size != seen.value.fileSize || mtime != seen.value.mtime
  }

  function CachedContent(log: Text, seen: Option<Snapshot>, size: nat, tailOk: bool, fullOk: bool): Option<Text> {
    var grown :=
      if seen.Some? && seen.value.fileSize > 0 && size > seen.value.fileSize
      then TryIncremental(log, seen.value.fileSize, size, seen.value.content, tailOk) else None;
    if grown.Some? then grown
    else
      var length := Min(size, MAX_LOG_CACHE_SIZE);
      var full := ReadRange(log, size - length, length, fullOk);
      if full.None? && size == 0 then Some([]) else full
  }

  /** The snapshot a stale request builds for the size it sampled, or nothing when reading fails. */
  function Build(log: Text, seen: Option<Snapshot>, size: nat, mtime: int, serial: nat, tailOk: bool, fullOk: bool):
    Option<Snapshot>
  {
    if size > MAX_LOG_CACHE_SIZE then Some(Snapshot(serial, None, size, mtime, 0))
    else
      match CachedContent(log, seen, size, tailOk, fullOk)
      case None => None
      case Some(content) => Some(Snapshot(serial, Some(content), size, mtime, if |content| <= size then size - |content| else 0))
  }

  /** The last test of the cached branch, that the delta starts within the content, never fails for a
      snapshot that SnapshotOk describes; it makes cutting the content total. */
  datatype Response = Unchanged(size: nat) | Incremental(size: nat, data: Text) | Full(size: nat, data: Text) | Failed

  function Respond(log: Text, snap: Snapshot, offset: nat, deltaOk: bool, tailOk: bool): Response {
    var size := snap.fileSize;
    if offset > 0 && offset == size then Unchanged(size)
    else if snap.content.Some? then
      var content := snap.content.value;
      if offset > 0 && snap.startOffset <= offset < size && offset - snap.startOffset <= |content|
      then Incremental(size, content[offset - snap.startOffset..])
      else Full(size, content)
    else
      var delta :=
        if 0 < offset < size && size - offset <= MAX_RESPONSE_SIZE then ReadRange(log, offset, size - offset, deltaOk)
        else None;
      if delta.Some? then Incremental(size, delta.value)
      else
        var length := Min(size, MAX_RESPONSE_SIZE);
        match ReadRange(log, size - length, length, tailOk)
        case Some(tail) => Full(size, tail)
        case None => Failed
  }

  // ---------------------------------------------------------------- the whole system

  type Client = int

  /** What the viewer shows and the X-Log-Size it last got. */
  datatype Viewer = Viewer(text: Text, offset: nat)

  datatype Request =
    | Sampled(size: nat, mtime: int)
    | Loaded(size: nat, mtime: int, seen: Option<Snapshot>)
    | Built(size: nat, seen: Option<Snapshot>, fresh_: Snapshot)
    | Ready(snap: Snapshot)

  datatype System = System(
    log: Text, cache: Option<Snapshot>, serials: nat,
    viewers: map<Client, Viewer>, requests: map<Client, Request>)

  datatype Event =
    | Append(data: Text)
    | Open(c: Client)
    | Sample(c: Client, mtime: int)
    | Load(c: Client)
    | Refresh(c: Client, tailOk: bool, fullOk: bool)
    | Publish(c: Client)
    | Answer(c: Client, deltaOk: bool, tailOk: bool)

  function Receive(v: Viewer, r: Response): Viewer {
    match r
    case Unchanged(size) => v.(offset := size)
    case Incremental(size, data) => Viewer(v.text + data, size)
    case Full(size, data) => Viewer(data, size)
    case Failed => v
  }

  function Step(s: System, e: Event): System {
    match e
    case Append(data) => s.(log := s.log + data)
    case Open(c) => if c in s.viewers then s else s.(viewers := s.viewers[c := Viewer([], 0)])
    case Sample(c, mtime) =>
      if c !in s.viewers || c in s.requests then s
      else s.(requests := s.requests[c := Sampled(|s.log|, mtime)])
    case Load(c) =>
      if c !in s.requests || !s.requests[c].Sampled? then s
      else s.(requests := s.requests[c := Loaded(s.requests[c].size, s.requests[c].mtime, s.cache)])
    case Refresh(c, tailOk, fullOk) =>
      if c !in s.requests || !s.requests[c].Loaded? then s
      else
        var r := s.requests[c];
        if !Stale(r.seen, r.size, r.mtime) then s.(requests := s.requests[c := Ready(r.seen.value)])
        else
          (match Build(s.log, r.seen, r.size, r.mtime, s.serials, tailOk, fullOk)
           case None => s.(requests := s.requests - {c})
           case Some(snap) => s.(serials := s.serials + 1, requests := s.requests[c := Built(r.size, r.seen, snap)]))
    case Publish(c) =>
      if c !in s.requests || !s.requests[c].Built? then s
      else
        var r := s.requests[c];
        if s.cache == r.seen then s.(cache := Some(r.fresh_), requests := s.requests[c := Ready(r.fresh_)])
        else if s.cache.Some? then s.(requests := s.requests[c := Ready(s.cache.value)])
        else s
    case Answer(c, deltaOk, tailOk) =>
      if c !in s.requests || !s.requests[c].Ready? || c !in s.viewers then s
      else
        var response := Respond(s.log, s.requests[c].snap, s.viewers[c].offset, deltaOk, tailOk);
        s.(viewers := s.viewers[c := Receive(s.viewers[c], response)], requests := s.requests - {c})
  }

  const START := System([], None, 0, map[], map[])

  function Run(events: seq<Event>): System {
    if events == [] then START else Step(Run(events[..|events| - 1]), events[|events| - 1])
  }

  // ---------------------------------------------------------------- what is true throughout

  /** A snapshot of up to 4 MiB has content, the log's prefix of its recorded size; a larger one has none. */
  ghost predicate SnapshotOk(log: Text, snap: Snapshot) {
    && snap.fileSize <= |log|
    && (snap.content.Some? <==> snap.fileSize <= 4194304)
    && (snap.content.Some? ==> snap.content.value == log[..snap.fileSize] && snap.startOffset == 0)
  }

  ghost predicate SeenOk(log: Text, seen: Option<Snapshot>) {
    seen.Some? ==> SnapshotOk(log, seen.value)
  }

  /** The viewer holds one contiguous block of the log that ends at its offset. */
  ghost predicate ViewerOk(log: Text, v: Viewer) {
    |v.text| <= v.offset <= |log| && v.text == log[v.offset - |v.text|..v.offset]
  }

  ghost predicate RequestOk(log: Text, r: Request) {
    match r
    case Sampled(size, _) => size <= |log|
    case Loaded(size, _, seen) => size <= |log| && SeenOk(log, seen)
    case Built(size, seen, fresh_) => SeenOk(log, seen) && SnapshotOk(log, fresh_) && fresh_.fileSize == size
    case Ready(snap) => SnapshotOk(log, snap)
  }

  ghost predicate Inv(s: System) {
    && SeenOk(s.log, s.cache)
    && (forall c :: c in s.viewers ==> ViewerOk(s.log, s.viewers[c]))
    && (forall c :: c in s.requests ==> RequestOk(s.log, s.requests[c]))
  }

  lemma PrefixGrows(log: Text, data: Text, lo: nat, hi: nat)
    requires lo <= hi <= |log|
    ensures (log + data)[lo..hi] == log[lo..hi]
  {
  }

  lemma AppendKeepsSnapshot(log: Text, data: Text, snap: Snapshot)
    requires SnapshotOk(log, snap)
    ensures SnapshotOk(log + data, snap)
  {
    PrefixGrows(log, data, 0, snap.fileSize);
  }

  lemma AppendKeepsRequest(log: Text, data: Text, r: Request)
    requires RequestOk(log, r)
    ensures RequestOk(log + data, r)
  {
    match r
    case Sampled(_, _) =>
    case Loaded(_, _, seen) => if seen.Some? { AppendKeepsSnapshot(log, data, seen.value); }
    case Built(_, seen, fresh_) =>
      AppendKeepsSnapshot(log, data, fresh_);
      if seen.Some? {
        AppendKeepsSnapshot(log, data, seen.value);
      }
    case Ready(snap) => AppendKeepsSnapshot(log, data, snap);
  }

  /** Reading the tail onto an older prefix, or the whole prefix, gives the same snapshot. */
  lemma BuildIsOk(log: Text, seen: Option<Snapshot>, size: nat, mtime: int, serial: nat, tailOk: bool, fullOk: bool)
    requires size <= |log| && SeenOk(log, seen)
    ensures var built := Build(log, seen, size, mtime, serial, tailOk, fullOk);
      built.Some? ==> SnapshotOk(log, built.value) && built.value.fileSize == size
  {
    if size <= MAX_LOG_CACHE_SIZE {
      if seen.Some? && seen.value.content.Some? && 0 < seen.value.fileSize < size {
        var prev := seen.value.fileSize;
        assert log[..prev] + log[prev..size] == log[..size];
      }
    }
  }

  /** Every answer leaves the viewer with a contiguous block that ends at the size it was told. */
  lemma ResponseIsOk(log: Text, snap: Snapshot, v: Viewer, deltaOk: bool, tailOk: bool)
    requires SnapshotOk(log, snap) && ViewerOk(log, v)
    ensures var r := Respond(log, snap, v.offset, deltaOk, tailOk);
      && ViewerOk(log, Receive(v, r))
      && (r.Failed? || Receive(v, r).offset == snap.fileSize == r.size)
  {
    var size, offset, start := snap.fileSize, v.offset, v.offset - |v.text|;
    var r := Respond(log, snap, offset, deltaOk, tailOk);
    match r
    case Incremental(_, data) =>
      assert data == log[offset..size] by {
        if snap.content.Some? {
          assert log[..size][offset..] == log[offset..size];
        }
      }
      assert log[start..offset] + log[offset..size] == log[start..size];
    case _ =>
  }

  /** What a viewer with this offset is to be told of a log of this size: nothing when it has all of it,
      what is missing when it has a part, else everything, or the last 4 MiB of a larger log. Reading from
      the disk may fail for a log above 4 MiB. */
  ghost predicate Answers(log: Text, size: nat, offset: nat, deltaOk: bool, tailOk: bool, response: Response)
    requires size <= |log|
  {
    if 0 < offset == size then response == Unchanged(size)
    else if 0 < offset < size && (size <= 4194304 || (size - offset <= 4194304 && deltaOk)) then
      response == Incremental(size, log[offset..size])
    else if size <= 4194304 then response == Full(size, log[..size])
    else if tailOk then response == Full(size, log[size - 4194304..size])
    else response == Failed
  }

  lemma RespondAnswers(log: Text, snap: Snapshot, offset: nat, deltaOk: bool, tailOk: bool)
    requires SnapshotOk(log, snap)
    ensures Answers(log, snap.fileSize, offset, deltaOk, tailOk, Respond(log, snap, offset, deltaOk, tailOk))
  {
    if snap.content.Some? && 0 < offset < snap.fileSize {
      assert log[..snap.fileSize][offset..] == log[offset..snap.fileSize];
    }
  }

  lemma ResponseServes(log: Text, snap: Snapshot, offset: nat, deltaOk: bool, tailOk: bool)
    requires SnapshotOk(log, snap)
    ensures var r := Respond(log, snap, offset, deltaOk, tailOk);
      && (r.Failed? || r.size == snap.fileSize)
      && Answers(log, snap.fileSize, offset, deltaOk, tailOk, r)
      && forall v: Viewer :: ViewerOk(log, v) && v.offset == offset ==> ViewerOk(log, Receive(v, r))
  {
    RespondAnswers(log, snap, offset, deltaOk, tailOk);
    forall v: Viewer | ViewerOk(log, v) && v.offset == offset
      ensures ViewerOk(log, Receive(v, Respond(log, snap, offset, deltaOk, tailOk)))
    {
      ResponseIsOk(log, snap, v, deltaOk, tailOk);
    }
  }

  lemma AppendKeepsInv(s: System, data: Text)
    requires Inv(s)
    ensures Inv(s.(log := s.log + data))
  {
    if s.cache.Some? {
      AppendKeepsSnapshot(s.log, data, s.cache.value);
    }
    forall c | c in s.viewers ensures ViewerOk(s.log + data, s.viewers[c]) {
      PrefixGrows(s.log, data, s.viewers[c].offset - |s.viewers[c].text|, s.viewers[c].offset);
    }
    forall c | c in s.requests ensures RequestOk(s.log + data, s.requests[c]) {
      AppendKeepsRequest(s.log, data, s.requests[c]);
    }
  }

  lemma StepKeepsInv(s: System, e: Event)
    requires Inv(s)
    ensures Inv(Step(s, e))
  {
    match e
    case Append(data) => AppendKeepsInv(s, data);
    case Refresh(c, tailOk, fullOk) =>
      if c in s.requests && s.requests[c].Loaded? {
        var r := s.requests[c];
        BuildIsOk(s.log, r.seen, r.size, r.mtime, s.serials, tailOk, fullOk);
      }
    case Answer(c, deltaOk, tailOk) =>
      if c in s.requests && s.requests[c].Ready? && c in s.viewers {
        ResponseIsOk(s.log, s.requests[c].snap, s.viewers[c], deltaOk, tailOk);
      }
    case _ =>
  }

  /** For an append-only log and any interleaving of requests, failed reads and lost or won swaps: the
      cached snapshot is a prefix of the log, and every viewer that appends on incremental, replaces on
      full and keeps on unchanged shows one contiguous block ending at the offset it will send next. */
  lemma {:induction false} ViewersStayContiguous(events: seq<Event>)
    ensures Inv(Run(events))
  {
    if events == [] {
    } else {
      ViewersStayContiguous(events[..|events| - 1]);
      StepKeepsInv(Run(events[..|events| - 1]), events[|events| - 1]);
    }
  }

  // ---------------------------------------------------------------- what the swap does not prevent

  /** The size of the cached snapshot, 0 while there is none. */
  function SizeOf(cache: Option<Snapshot>): nat {
    if cache.Some? then cache.value.fileSize else 0
  }

  predicate TakesLoad(s: System, e: Event) {
    e.Load? && e.c in s.requests && s.requests[e.c].Sampled?
  }

  /** The test a request could make when it loads the cache: it sampled the file before the snapshot in
      the cache did. */
  predicate LoadsTooLate(s: System, c: Client) {
    c in s.requests && s.requests[c].Sampled? && s.requests[c].size < SizeOf(s.cache)
  }

  /** When the client's current request loaded the cache. */
  ghost function LoadTime(events: seq<Event>, c: Client): (i: nat)
    ensures i <= |events|
  {
    if events == [] then 0
    else
      var last := |events| - 1;
      if TakesLoad(Run(events[..last]), events[last]) && events[last].c == c then last
      else LoadTime(events[..last], c)
  }

  /** The request at hand goes on with the size it sampled and the snapshot it loaded then. */
  ghost predicate Remembers(r: Request, c: Client, atLoad: System) {
    && c in atLoad.requests && atLoad.requests[c].Sampled?
    && match r
       case Loaded(size, _, seen) => size == atLoad.requests[c].size && seen == atLoad.cache
       case Built(size, seen, _) => size == atLoad.requests[c].size && seen == atLoad.cache
       case _ => true
  }

  /** Nothing but its own steps changes a request between its load and its swap. */
  lemma RequestAdvances(s: System, e: Event, c: Client)
    requires c in Step(s, e).requests
    ensures var r := Step(s, e).requests[c];
      && (r.Loaded? ==> (c in s.requests && s.requests[c] == r) || (TakesLoad(s, e) && e.c == c))
      && (r.Built? ==> c in s.requests && (s.requests[c] == r || s.requests[c] == Loaded(r.size, r.fresh_.mtime, r.seen)))
  {
    if e.Refresh? && e.c in s.requests && s.requests[e.c].Loaded? {
      var r := s.requests[e.c];
      BuiltAsSampled(s.log, r.seen, r.size, r.mtime, s.serials, e.tailOk, e.fullOk);
    }
  }

  lemma BuiltAsSampled(log: Text, seen: Option<Snapshot>, size: nat, mtime: int, serial: nat, tailOk: bool, fullOk: bool)
    ensures var built := Build(log, seen, size, mtime, serial, tailOk, fullOk);
      built.Some? ==> built.value.mtime == mtime && built.value.fileSize == size
  {
  }

  lemma {:induction false} RequestRemembersLoad(events: seq<Event>, c: Client)
    requires c in Run(events).requests && (Run(events).requests[c].Loaded? || Run(events).requests[c].Built?)
    ensures var i := LoadTime(events, c);
      i < |events| && events[i] == Load(c) && Remembers(Run(events).requests[c], c, Run(events[..i]))
  {
    if events == [] {
    } else {
      var last := |events| - 1;
      var before, e := Run(events[..last]), events[last];
      RequestAdvances(before, e, c);
      if TakesLoad(before, e) && e.c == c {
      } else {
        RequestRemembersLoad(events[..last], c);
        assert events[..last][..LoadTime(events, c)] == events[..LoadTime(events, c)];
      }
    }
  }

  /** The n-th event is a swap by a request that had loaded too late, and the cell still holds what it
      held at that load. */
  ghost predicate OverwritesNewer(events: seq<Event>, n: nat)
    requires n < |events|
  {
    var s, e := Run(events[..n]), events[n];
    && e.Publish? && e.c in s.requests && s.requests[e.c].Built?
    && var atLoad := Run(events[..n][..LoadTime(events[..n], e.c)]);
       LoadsTooLate(atLoad, e.c) && s.cache == atLoad.cache
  }

  lemma BuiltRemembersLoad(events: seq<Event>, c: Client)
    requires c in Run(events).requests && Run(events).requests[c].Built?
    ensures var r, i := Run(events).requests[c], LoadTime(events, c);
      && i < |events| && events[i] == Load(c)
      && r.fresh_.fileSize == r.size && r.seen == Run(events[..i]).cache
      && (r.size < SizeOf(r.seen) <==> LoadsTooLate(Run(events[..i]), c))
  {
    RequestRemembersLoad(events, c);
    ViewersStayContiguous(events);
  }

  /** Over any run the cached snapshot is replaced by an older one exactly when a request swaps that had
      loaded too late, and the cell still holds what it held at that moment. */
  lemma PublishGoesBackIff(events: seq<Event>, n: nat)
    requires n < |events|
    ensures SizeOf(Run(events[..n + 1]).cache) < SizeOf(Run(events[..n]).cache) <==> OverwritesNewer(events, n)
  {
    var s, e := Run(events[..n]), events[n];
    assert events[..n + 1][..n] == events[..n];
    assert Run(events[..n + 1]) == Step(s, e);
    if e.Publish? && e.c in s.requests && s.requests[e.c].Built? {
      BuiltRemembersLoad(events[..n], e.c);
    }
  }

  /** Every load in the run is by a request that sampled at least the size of the cached snapshot. */
  ghost predicate LoadsInTime(events: seq<Event>) {
    forall i :: 0 <= i < |events| ==> (events[i].Load? ==> !LoadsTooLate(Run(events[..i]), events[i].c))
  }

  lemma NoLateLoadNoOverwrite(events: seq<Event>, n: nat)
    requires LoadsInTime(events) && n < |events|
    ensures !OverwritesNewer(events, n)
  {
    var s, e := Run(events[..n]), events[n];
    if e.Publish? && e.c in s.requests && s.requests[e.c].Built? {
      BuiltRemembersLoad(events[..n], e.c);
      var i := LoadTime(events[..n], e.c);
      assert events[..n][..i] == events[..i];
    }
  }

  /** Over a run in which no request loads too late the cached snapshot never gets older; whether a load
      is too late can be seen at the load. */
  lemma {:induction false} CacheNeverGoesBack(events: seq<Event>, n: nat)
    requires LoadsInTime(events) && n <= |events|
    ensures SizeOf(Run(events[..n]).cache) <= SizeOf(Run(events).cache)
    decreases |events| - n
  {
    if n == |events| {
      assert events[..n] == events;
    } else {
      PublishGoesBackIff(events, n);
      NoLateLoadNoOverwrite(events, n);
      CacheNeverGoesBack(events, n + 1);
    }
  }

  /** Over any run, whatever the interleaving, a viewer is told just that, of the size of the snapshot its
      request ended up with. */
  lemma ViewerIsAnswered(events: seq<Event>, c: Client, deltaOk: bool, tailOk: bool)
    requires c in Run(events).requests && Run(events).requests[c].Ready? && c in Run(events).viewers
    ensures var s := Run(events);
      var size, v := s.requests[c].snap.fileSize, s.viewers[c];
      size <= |s.log| && exists r :: Answers(s.log, size, v.offset, deltaOk, tailOk, r) &&
                                     Step(s, Answer(c, deltaOk, tailOk)).viewers == s.viewers[c := Receive(v, r)]
  {
    var s := Run(events);
    ViewersStayContiguous(events);
    RespondAnswers(s.log, s.requests[c].snap, s.viewers[c].offset, deltaOk, tailOk);
  }

  /** A request looks at the log anew exactly when the size or the time of change is not that of the cached
      snapshot, and then fails only if reading it does. */
  lemma RefreshHasEffect(s: System, c: Client, tailOk: bool, fullOk: bool)
    requires Inv(s) && c in s.requests && s.requests[c].Loaded?
    ensures var r, s' := s.requests[c], Step(s, Refresh(c, tailOk, fullOk));
      if r.seen.Some? && r.seen.value.fileSize == r.size && r.seen.value.mtime == r.mtime
      then s' == s.(requests := s.requests[c := Ready(r.seen.value)])
      else
        && (c !in s'.requests ==> !fullOk && 0 < r.size <= 4194304)
        && (c in s'.requests ==>
              && s'.requests[c].Built? && s'.requests[c].size == r.size && s'.requests[c].seen == r.seen
              && s'.requests[c].fresh_.fileSize == r.size && s'.requests[c].fresh_.mtime == r.mtime)
  {
    var r := s.requests[c];
    BuildIsOk(s.log, r.seen, r.size, r.mtime, s.serials, tailOk, fullOk);
    BuiltAsSampled(s.log, r.seen, r.size, r.mtime, s.serials, tailOk, fullOk);
  }

  lemma RunOneMore(events: seq<Event>, e: Event)
    ensures Run(events + [e]) == Step(Run(events), e)
  {
    assert (events + [e])[..|events|] == events;
  }

  const IDLE_VIEWERS := map[1 := Viewer([], 0), 2 := Viewer([], 0)]
  const OPENED := [Open(1), Open(2), Append([1])]
  const SAMPLED := OPENED + [Sample(1, 6)] + [Append([2])] + [Sample(2, 7)]
  const PUBLISHED := SAMPLED + [Load(2)] + [Refresh(2, true, true)] + [Publish(2)]
  const OUTDATED := PUBLISHED + [Load(1)] + [Refresh(1, true, true)]
  const NEWER := Snapshot(0, Some([1, 2]), 2, 7, 0)

  lemma AfterOpening()
    ensures Run(OPENED) == System([1], None, 0, IDLE_VIEWERS, map[])
  {
    RunOneMore([], Open(1));
    RunOneMore([Open(1)], Open(2));
    RunOneMore([Open(1), Open(2)], Append([1]));
    assert [Open(1)] + [Open(2)] == [Open(1), Open(2)] && [] + [Open(1)] == [Open(1)];
    assert [Open(1), Open(2)] + [Append([1])] == OPENED;
    assert Run([Open(1)]) == Step(START, Open(1));
    assert Run([Open(1), Open(2)]).viewers == IDLE_VIEWERS;
  }

  lemma AfterSampling()
    ensures Run(SAMPLED) == System([1, 2], None, 0, IDLE_VIEWERS, map[1 := Sampled(1, 6), 2 := Sampled(2, 7)])
  {
    AfterOpening();
    RunOneMore(OPENED, Sample(1, 6));
    RunOneMore(OPENED + [Sample(1, 6)], Append([2]));
    RunOneMore(OPENED + [Sample(1, 6)] + [Append([2])], Sample(2, 7));
    assert Run(OPENED + [Sample(1, 6)] + [Append([2])]).log == [1, 2];
  }

  lemma AfterPublishing()
    ensures Run(PUBLISHED) == System([1, 2], Some(NEWER), 1, IDLE_VIEWERS, map[1 := Sampled(1, 6), 2 := Ready(NEWER)])
  {
    AfterSampling();
    RunOneMore(SAMPLED, Load(2));
    var loaded := SAMPLED + [Load(2)];
    RunOneMore(loaded, Refresh(2, true, true));
    RunOneMore(loaded + [Refresh(2, true, true)], Publish(2));
    assert Run(loaded).requests == map[1 := Sampled(1, 6), 2 := Loaded(2, 7, None)];
    var text: Text := [1, 2];
    assert text[0..0 + 2] == text;
    assert Run(loaded + [Refresh(2, true, true)]).requests == map[1 := Sampled(1, 6), 2 := Built(2, None, NEWER)];
  }

  /** And it happens: one request samples, the log grows, another request publishes, the first loads that
      snapshot and overwrites it with its shorter one. */
  lemma CacheCanGoBack()
    ensures Run(OUTDATED).cache == Some(NEWER)
    ensures Run(OUTDATED + [Publish(1)]).cache.Some?
    ensures Run(OUTDATED + [Publish(1)]).cache.value.fileSize < NEWER.fileSize
  {
    AfterPublishing();
    RunOneMore(PUBLISHED, Load(1));
    var loaded := PUBLISHED + [Load(1)];
    RunOneMore(loaded, Refresh(1, true, true));
    RunOneMore(OUTDATED, Publish(1));
    assert Run(loaded).requests == map[1 := Loaded(1, 6, Some(NEWER)), 2 := Ready(NEWER)];
  }

  // ---------------------------------------------------------------- the steps as getLogs takes them

  method BuildSnapshot(log: Text, seen: Option<Snapshot>, size: nat, mtime: int, serial: nat, tailOk: bool, fullOk: bool)
    returns (built: Option<Snapshot>)
    requires size <= |log| && SeenOk(log, seen)
    ensures built == Build(log, seen, size, mtime, serial, tailOk, fullOk)
    ensures built.Some? ==> SnapshotOk(log, built.value) && built.value.fileSize == size
  {
    BuildIsOk(log, seen, size, mtime, serial, tailOk, fullOk);
    var snap := Snapshot(serial, None, 0, 0, 0);
    snap := snap.(fileSize := size);
    snap := snap.(mtime := mtime);
    if size <= MAX_LOG_CACHE_SIZE {
      var content: Option<Text> := None;
      if seen.Some? && seen.value.content.Some? && seen.value.fileSize > 0 && size > seen.value.fileSize {
        content := TryIncremental(log, seen.value.fileSize, size, seen.value.content, tailOk);
      }
      if content.None? {
        var length := Min(size, MAX_LOG_CACHE_SIZE);
        content := ReadRange(log, size - length, length, fullOk);
      }
      if content.None? {
        if size > 0 {
          return None;
        }
        content := Some([]);
      }
      snap := snap.(content := content);
      snap := snap.(startOffset := if |content.value| <= size then size - |content.value| else 0);
    }
    return Some(snap);
  }

  /** The cache as getLogs uses it; `serials` hands out the identities of new snapshots. */
  class LogCacheCell {
    var snapshot: Option<Snapshot>
    var serials: nat

    constructor ()
      ensures snapshot == None
    {
      snapshot, serials := None, 0;
    }

    /** compare_exchange_strong: the request goes on with what is in the cell afterwards. */
    method CompareExchange(seen: Option<Snapshot>, desired: Snapshot) returns (current: Option<Snapshot>)
      modifies `snapshot
      ensures current == snapshot
      ensures snapshot == if old(snapshot) == seen then Some(desired) else old(snapshot)
    {
      if snapshot == seen {
        snapshot := Some(desired);
      }
      current := snapshot;
    }

    /** The snapshot to answer from, or nothing when reading fails. */
    method Refreshed(log: Text, mtime: int, tailOk: bool, fullOk: bool) returns (current: Option<Snapshot>)
      requires SeenOk(log, snapshot)
      modifies this
      ensures SeenOk(log, snapshot) && SizeOf(old(snapshot)) <= SizeOf(snapshot)
      ensures current.Some? ==> current == snapshot && current.value.fileSize == |log|
      ensures current.None? ==> !fullOk
    {
      var size := |log|;
      current := snapshot;
      if current.None? || size != current.value.fileSize || mtime != current.value.mtime {
        var built := BuildSnapshot(log, current, size, mtime, serials, tailOk, fullOk);
        if built.None? {
          return None;
        }
        serials := serials + 1;
        current := CompareExchange(current, built.value);
      }
    }

    /** A request that runs without any other in between, on the file as it is. */
    method GetLogs(log: Text, mtime: int, offset: nat, tailOk: bool, fullOk: bool, deltaOk: bool, answerOk: bool)
      returns (response: Response)
      requires SeenOk(log, snapshot)
      modifies this
      ensures SeenOk(log, snapshot) && SizeOf(old(snapshot)) <= SizeOf(snapshot)
      ensures !response.Failed? ==> response.size == |log| == SizeOf(snapshot)
      ensures Answers(log, |log|, offset, deltaOk, answerOk, response) || (response.Failed? && !fullOk)
      ensures forall v: Viewer :: ViewerOk(log, v) && v.offset == offset ==> ViewerOk(log, Receive(v, response))
    {
      var current := Refreshed(log, mtime, tailOk, fullOk);
      if current.None? {
        return Failed;
      }
      response := Respond(log, current.value, offset, deltaOk, answerOk);
      ResponseServes(log, current.value, offset, deltaOk, answerOk);
    }
  }
}
