/** The adaptive bitrate engine: per-client sessions, feedback, and language-model workers that finish
    whenever they like. */
module Abr {
  import opened Common

  const MAX_FEEDBACK_HISTORY := 10
  const LLM_MIN_INTERVAL_SECONDS := 10
  const FG_DETECT_INTERVAL_SECONDS := 10
  const FALLBACK_INTERVAL_SECONDS := 3
  const SECOND := 1_000_000_000  // of a nanosecond clock

  type Client = int

  datatype Mode = Quality | Balanced | LowLatency

  datatype Config = Config(enabled: bool, minBitrate: int, maxBitrate: int, mode: Mode)

  datatype Feedback = Feedback(packetLoss: real, rttMs: real, decodeFps: real, droppedFrames: int, currentBitrate: int)

  datatype Foreground = Foreground(title: string, exe: string, pid: int)

  datatype Session = Session(
    config: Config, currentBitrate: int, initialBitrate: int, foreground: Foreground,
    history: seq<(Feedback, int)>, consecutiveHighLoss: int, stableTicks: int, llmTarget: int,
    appChanged: bool, networkRecovered: bool,
    lastLlmCall: int, lastFallback: int, lastFgDetect: int,
    llmInFlight: bool, generation: nat)

  // ---------------------------------------------------------------- enabling

  function PresetBounds(mode: Mode, initial: int): (int, int) {
    match mode
    case Quality => (Max(5000, TruncDiv(initial, 2)), Min(150000, TruncDiv(initial * 3, 2)))
    case LowLatency => (2000, TruncDiv(initial * 6, 5))
    case Balanced => (Max(3000, TruncDiv(initial * 3, 10)), Min(150000, initial * 2))
  }

  /** The range a session works in: explicit bounds, or presets for those not given. */
  function SessionBounds(cfg: Config, initial: int): (int, int) {
    if cfg.minBitrate > 0 && cfg.maxBitrate > 0 then (cfg.minBitrate, cfg.maxBitrate)
    else
      var preset := PresetBounds(cfg.mode, initial);
      var lo := if cfg.minBitrate <= 0 then preset.0 else cfg.minBitrate;
      var hi := if cfg.maxBitrate <= 0 then preset.1 else cfg.maxBitrate;
      (Min(lo, hi), hi)
  }

  /** What std::clamp needs of the caller. */
  predicate ExplicitBoundsInverted(cfg: Config) {
    cfg.minBitrate > 0 && cfg.maxBitrate > 0 && cfg.minBitrate > cfg.maxBitrate
  }

  /** The range is ordered exactly when the caller did not invert two explicit bounds; a cap given alone
      is never exceeded, and with a positive start the range is positive. */
  lemma BoundsAreOrdered(cfg: Config, initial: int)
    ensures SessionBounds(cfg, initial).0 <= SessionBounds(cfg, initial).1 <==> !ExplicitBoundsInverted(cfg)
    ensures cfg.maxBitrate > 0 ==> SessionBounds(cfg, initial).1 == cfg.maxBitrate
    ensures initial > 0 ==> SessionBounds(cfg, initial).0 > 0 && SessionBounds(cfg, initial).1 > 0
  {
  }

  function Enabled(cfg: Config, initial: int, foreground: Foreground, previous: Option<Foreground>, now: int, generation: nat): Session
    requires !ExplicitBoundsInverted(cfg)
  {
    var bounds := SessionBounds(cfg, initial);
    BoundsAreOrdered(cfg, initial);
    var detected := foreground.title != "";
    Session(
      Config(true, bounds.0, bounds.1, cfg.mode), Clamp(initial, bounds.0, bounds.1), initial,
      if detected then foreground
      else if previous.Some? then previous.value.(pid := 0) else Foreground("", "", 0),
      [], 0, 0, 0, true, false, 0, 0, if detected then now else 0, false, generation)
  }

  // ---------------------------------------------------------------- feedback

  predicate Ordered(s: Session) {
    s.config.minBitrate <= s.config.maxBitrate
  }

  function InRange(s: Session, bitrate: int): int
    requires Ordered(s)
  {
    Clamp(bitrate, s.config.minBitrate, s.config.maxBitrate)
  }

  function Sanitized(f: Feedback): Feedback {
    Feedback(
      if f.packetLoss < 0.0 then 0.0 else if f.packetLoss > 100.0 then 100.0 else f.packetLoss,
      if f.rttMs < 0.0 then 0.0 else f.rttMs,
      if f.decodeFps < 0.0 then 0.0 else f.decodeFps,
      Max(f.droppedFrames, 0), Max(f.currentBitrate, 0))
  }

  /** A share of the current bitrate, rounded towards zero, within the session's range. */
  function Scaled(s: Session, percent: nat): (bitrate: int)
    requires Ordered(s)
    ensures s.config.minBitrate <= bitrate <= s.config.maxBitrate
  {
    InRange(s, TruncDiv(s.currentBitrate * percent, 100))
  }

  /** `bitrate` 0 means no change. */
  datatype Decision = Decision(session: Session, bitrate: int, probe: bool)

  function FallbackDecision(s: Session, loss: real): Decision
    requires Ordered(s)
  {
    if loss > 5.0 then
      Decision(s.(consecutiveHighLoss := s.consecutiveHighLoss + 1, stableTicks := 0),
               Scaled(s, 70), false)
    else if loss > 2.0 then
      Decision(s.(consecutiveHighLoss := 0, stableTicks := 0), Scaled(s, 90), false)
    else if loss < 0.5 then
      var calm := s.(consecutiveHighLoss := 0, stableTicks := s.stableTicks + 1);
      var raised := Scaled(s, 105);
      if calm.stableTicks >= 5 && raised != s.currentBitrate then Decision(calm, raised, true)
      else Decision(calm, 0, false)
    else Decision(s, 0, false)
  }

  /** The last ten reports. */
  function Remembered(history: seq<(Feedback, int)>, f: Feedback, now: int): (r: seq<(Feedback, int)>)
    ensures |r| <= MAX_FEEDBACK_HISTORY
  {
    var grown := history + [(f, now)];
    if |grown| > MAX_FEEDBACK_HISTORY then grown[|grown| - MAX_FEEDBACK_HISTORY..] else grown
  }

  predicate Elapsed(since: int, now: int, seconds: nat) {
    TruncDiv(now - since, SECOND) >= seconds
  }

  function Reported(s: Session, f: Feedback, now: int): Session
    requires Ordered(s)
  {
    s.(currentBitrate := if f.currentBitrate > 0 then InRange(s, f.currentBitrate) else s.currentBitrate,
       history := Remembered(s.history, f, now))
  }

  /** The foreground window is looked up at most every ten seconds. */
  function Detected(s: Session, foreground: Foreground, now: int): Session {
    if !Elapsed(s.lastFgDetect, now, FG_DETECT_INTERVAL_SECONDS) then s
    else if foreground.pid > 0 && foreground.pid != s.foreground.pid then
      s.(lastFgDetect := now, foreground := foreground, appChanged := true)
    else if foreground.pid == s.foreground.pid && foreground.title != "" then
      s.(lastFgDetect := now, foreground := s.foreground.(title := foreground.title))
    else s.(lastFgDetect := now)
  }

  function Informed(s: Session, f: Feedback, foreground: Foreground, now: int): Session
    requires Ordered(s)
  {
    Detected(Reported(s, f, now), foreground, now)
  }

  /** A probe upwards stops at the model's target. */
  function Restrained(d: Decision): int {
    if !d.probe || d.session.llmTarget <= 0 then d.bitrate
    else
      var capped := Min(d.bitrate, d.session.llmTarget);
      if capped <= d.session.currentBitrate then 0 else capped
  }

  datatype Outcome = Outcome(session: Session, bitrate: int, launch: bool)

  function Adjusted(s: Session, bitrate: int): Session {
    if bitrate > 0 then s.(currentBitrate := bitrate) else s
  }

  /** Loss above five percent: an immediate drop, whatever the rate limit. */
  function Emergency(informed: Session, loss: real, now: int): Outcome
    requires Ordered(informed)
  {
    var d := FallbackDecision(informed, loss);
    var after := Adjusted(d.session, d.bitrate);
    Outcome(if d.bitrate > 0 then after.(lastFallback := now) else after, Max(d.bitrate, 0), false)
  }

  /** Otherwise a decision is due every three seconds. */
  function Regular(informed: Session, loss: real, now: int): Outcome
    requires Ordered(informed)
  {
    if !Elapsed(informed.lastFallback, now, FALLBACK_INTERVAL_SECONDS) then Outcome(informed, 0, false)
    else
      var d := FallbackDecision(informed, loss);
      var bitrate := Max(Restrained(d), 0);
      Outcome(Adjusted(d.session, bitrate).(lastFallback := now), bitrate, false)
  }

  /** A worker is started on an app change or a recovery, one at a time and not too often. */
  function Triggered(o: Outcome, aiReady: bool, now: int): Outcome {
    var s := o.session;
    var flagged := if s.stableTicks == 5 && s.consecutiveHighLoss == 0 then s.(networkRecovered := true) else s;
    var launch := (flagged.appChanged || flagged.networkRecovered) && !flagged.llmInFlight && aiReady &&
                  Elapsed(flagged.lastLlmCall, now, LLM_MIN_INTERVAL_SECONDS);
    Outcome(
      if launch then flagged.(appChanged := false, networkRecovered := false, lastLlmCall := now, llmInFlight := true)
      else flagged,
      o.bitrate, launch)
  }

  function Process(s: Session, raw: Feedback, foreground: Foreground, aiReady: bool, now: int): Outcome
    requires Ordered(s)
  {
    var f := Sanitized(raw);
    var informed := Informed(s, f, foreground, now);
    if f.packetLoss > 5.0 then Emergency(informed, f.packetLoss, now)
    else Triggered(Regular(informed, f.packetLoss, now), aiReady, now)
  }

  /** The model's recommendation, clamped; 0 when the reply held none. */
  function ReplyTarget(s: Session, bitrate: int): int
    requires Ordered(s)
  {
    if bitrate > 0 then InRange(s, bitrate) else 0
  }

  // ---------------------------------------------------------------- the whole engine

  datatype Worker = Worker(client: Client, generation: nat)

  datatype Engine = Engine(sessions: map<Client, Session>, counter: nat, workers: multiset<Worker>)

  /** `reply` is the bitrate in the model's answer: None when the call failed, 0 when no answer could be
      parsed. */
  datatype Event =
    | Enable(client: Client, config: Config, initial: int, foreground: Foreground, now: int)
    | Disable(client: Client)
    | Report(client: Client, feedback: Feedback, foreground: Foreground, aiReady: bool, now: int)
    | Finish(worker: Worker, reply: Option<int>)

  /** What every step keeps of a session. */
  predicate Sound(s: Session) {
    && s.config.minBitrate <= s.currentBitrate <= s.config.maxBitrate
    && (s.llmTarget == 0 || s.config.minBitrate <= s.llmTarget <= s.config.maxBitrate)
    && |s.history| <= MAX_FEEDBACK_HISTORY
  }

  ghost predicate Inv(e: Engine) {
    && (forall c :: c in e.sessions ==> Sound(e.sessions[c]) && e.sessions[c].generation <= e.counter)
    && (forall c :: c in e.sessions ==>
          e.workers[Worker(c, e.sessions[c].generation)] == if e.sessions[c].llmInFlight then 1 else 0)
    && (forall w :: w in e.workers ==> w.generation <= e.counter)
  }

  ghost function Step(e: Engine, event: Event): Engine
    requires Inv(e)
    requires event.Enable? ==> !ExplicitBoundsInverted(event.config)
  {
    match event
    case Enable(c, config, initial, foreground, now) =>
      var previous := if c in e.sessions then Some(e.sessions[c].foreground) else None;
      e.(sessions := e.sessions[c := Enabled(config, initial, foreground, previous, now, e.counter + 1)],
         counter := e.counter + 1)
    case Disable(c) => e.(sessions := e.sessions - {c})
    case Report(c, feedback, foreground, aiReady, now) =>
      if c !in e.sessions || !e.sessions[c].config.enabled then e
      else
        var outcome := Process(e.sessions[c], feedback, foreground, aiReady, now);
        e.(sessions := e.sessions[c := outcome.session],
           workers := if outcome.launch then e.workers + multiset{Worker(c, outcome.session.generation)} else e.workers)
    case Finish(w, reply) =>
      if w !in e.workers then e
      else
        var left := e.(workers := e.workers - multiset{w});
        if w.client !in e.sessions || e.sessions[w.client].generation != w.generation then left
        else
          var s := e.sessions[w.client].(llmInFlight := false);
          var target := if reply.Some? then ReplyTarget(s, reply.value) else 0;
          left.(sessions := e.sessions[w.client := if target > 0 then s.(llmTarget := target) else s])
  }

  predicate SameFlight(a: Session, b: Session) {
    a.generation == b.generation && a.llmInFlight == b.llmInFlight && a.config == b.config && a.llmTarget == b.llmTarget
  }

  lemma ReportedIsSound(s: Session, f: Feedback, now: int)
    requires Sound(s)
    ensures Sound(Reported(s, f, now)) && SameFlight(s, Reported(s, f, now))
  {
  }

  lemma DetectedIsSound(s: Session, foreground: Foreground, now: int)
    requires Sound(s)
    ensures Sound(Detected(s, foreground, now)) && SameFlight(s, Detected(s, foreground, now))
    ensures Detected(s, foreground, now).currentBitrate == s.currentBitrate
  {
  }

  lemma InformedIsSound(s: Session, f: Feedback, foreground: Foreground, now: int)
    requires Sound(s)
    ensures Sound(Informed(s, f, foreground, now)) && SameFlight(s, Informed(s, f, foreground, now))
  {
    ReportedIsSound(s, f, now);
    DetectedIsSound(Reported(s, f, now), foreground, now);
  }

  lemma DecisionIsSound(s: Session, loss: real)
    requires Sound(s)
    ensures var d := FallbackDecision(s, loss);
      && Sound(d.session) && SameFlight(s, d.session) && d.session.currentBitrate == s.currentBitrate
      && (d.bitrate != 0 ==> s.config.minBitrate <= d.bitrate <= s.config.maxBitrate)
  {
  }

  lemma RestraintStaysInRange(d: Decision)
    requires Sound(d.session)
    requires d.bitrate != 0 ==> d.session.config.minBitrate <= d.bitrate <= d.session.config.maxBitrate
    ensures Restrained(d) != 0 ==> d.session.config.minBitrate <= Restrained(d) <= d.session.config.maxBitrate
  {
  }

  lemma OutcomesAreSound(s: Session, loss: real, now: int)
    requires Sound(s)
    ensures Sound(Emergency(s, loss, now).session) && SameFlight(s, Emergency(s, loss, now).session)
    ensures Sound(Regular(s, loss, now).session) && SameFlight(s, Regular(s, loss, now).session)
    ensures !Emergency(s, loss, now).launch
  {
    DecisionIsSound(s, loss);
    RestraintStaysInRange(FallbackDecision(s, loss));
  }

  lemma ProcessKeepsSound(s: Session, raw: Feedback, foreground: Foreground, aiReady: bool, now: int)
    requires Sound(s)
    ensures var o := Process(s, raw, foreground, aiReady, now);
      && Sound(o.session) && o.session.generation == s.generation
      && o.session.llmInFlight == (s.llmInFlight || o.launch) && !(s.llmInFlight && o.launch)
  {
    var f := Sanitized(raw);
    InformedIsSound(s, f, foreground, now);
    OutcomesAreSound(Informed(s, f, foreground, now), f.packetLoss, now);
  }

  lemma EnableKeepsInv(e: Engine, event: Event)
    requires Inv(e) && event.Enable? && !ExplicitBoundsInverted(event.config)
    ensures Inv(Step(e, event))
  {
    BoundsAreOrdered(event.config, event.initial);
    assert Worker(event.client, e.counter + 1) !in e.workers;
  }

  lemma ReportKeepsInv(e: Engine, event: Event)
    requires Inv(e) && event.Report?
    ensures Inv(Step(e, event))
  {
    if event.client in e.sessions {
      ProcessKeepsSound(e.sessions[event.client], event.feedback, event.foreground, event.aiReady, event.now);
    }
  }

  lemma FinishKeepsInv(e: Engine, event: Event)
    requires Inv(e) && event.Finish?
    ensures Inv(Step(e, event))
  {
    assert forall w :: w in e.workers - multiset{event.worker} ==> w in e.workers;
  }

  lemma StepKeepsInv(e: Engine, event: Event)
    requires Inv(e)
    requires event.Enable? ==> !ExplicitBoundsInverted(event.config)
    ensures Inv(Step(e, event))
  {
    match event
    case Enable(_, _, _, _, _) => EnableKeepsInv(e, event);
    case Disable(_) =>
    case Report(_, _, _, _, _) => ReportKeepsInv(e, event);
    case Finish(_, _) => FinishKeepsInv(e, event);
  }

  ghost predicate Callable(events: seq<Event>) {
    forall i :: 0 <= i < |events| ==> (events[i].Enable? ==> !ExplicitBoundsInverted(events[i].config))
  }

  const IDLE := Engine(map[], 0, multiset{})

  /** Under any interleaving of enabling, disabling, reports and workers finishing in any order, a
      session's in-flight flag is set exactly while one worker of its current generation is outstanding,
      its target is 0 or within its bounds, and its bitrate stays within them. */
  ghost function Run(events: seq<Event>): (e: Engine)
    requires Callable(events)
    ensures Inv(e)
  {
    if events == [] then IDLE
    else
      var before := Run(events[..|events| - 1]);
      StepKeepsInv(before, events[|events| - 1]);
      Step(before, events[|events| - 1])
  }

  // ---------------------------------------------------------------- which way the bitrate moves

  /** The bitrate the session has once the client's report is in. */
  function ReportedBitrate(s: Session, raw: Feedback): int
    requires Ordered(s)
  {
    if raw.currentBitrate > 0 then InRange(s, raw.currentBitrate) else s.currentBitrate
  }

  /** A share below one is less, down to the smallest bitrate. */
  lemma ScaledDown(s: Session, percent: nat)
    requires Sound(s) && s.config.minBitrate > 0 && percent < 100
    ensures 0 < Scaled(s, percent) <= s.currentBitrate
    ensures s.currentBitrate > s.config.minBitrate ==> Scaled(s, percent) < s.currentBitrate
  {
    assert s.currentBitrate * percent < s.currentBitrate * 100;
  }

  lemma ExactShares(s: Session)
    requires Sound(s) && s.config.minBitrate > 0
    ensures Scaled(s, 70) == InRange(s, s.currentBitrate * 7 / 10)
    ensures Scaled(s, 90) == InRange(s, s.currentBitrate * 9 / 10)
    ensures Scaled(s, 105) == InRange(s, s.currentBitrate * 21 / 20) >= s.currentBitrate
  {
    assert s.currentBitrate * 105 / 100 == s.currentBitrate * 21 / 20;
    assert s.currentBitrate * 70 / 100 == s.currentBitrate * 7 / 10;
    assert s.currentBitrate * 90 / 100 == s.currentBitrate * 9 / 10;
  }

  /** Loss above two percent lowers the bitrate, unless it is the smallest already: to nine tenths, above
      five percent to seven. The fifth calm decision and every later one raise it by a twentieth, unless it
      is the largest already; nothing else does. */
  lemma DecisionMovesWithLoss(s: Session, loss: real)
    requires Sound(s) && s.config.minBitrate > 0
    ensures var d := FallbackDecision(s, loss);
      && d.bitrate >= 0 && (d.probe ==> d.bitrate > 0 && loss < 0.5 && d.session.stableTicks >= 5)
      && (loss > 2.0 ==> 0 < d.bitrate <= s.currentBitrate)
      && (loss > 2.0 && s.currentBitrate > s.config.minBitrate ==> d.bitrate < s.currentBitrate)
      && (loss > 2.0 ==> d.bitrate == InRange(s, s.currentBitrate * (if loss > 5.0 then 7 else 9) / 10))
      && (d.bitrate > 0 && !d.probe ==> loss > 2.0)
      && (loss < 0.5 && s.stableTicks >= 4 && InRange(s, s.currentBitrate * 21 / 20) != s.currentBitrate ==>
            d.probe && d.bitrate == InRange(s, s.currentBitrate * 21 / 20))
      && (d.probe ==> s.stableTicks >= 4 && d.bitrate == InRange(s, s.currentBitrate * 21 / 20))
  {
    ScaledDown(s, 70);
    ScaledDown(s, 90);
    ExactShares(s);
  }

  lemma RestraintStopsAtTarget(d: Decision)
    requires d.bitrate >= 0
    ensures Restrained(d) > d.session.currentBitrate ==> d.probe || Restrained(d) == d.bitrate
    ensures d.probe && d.session.llmTarget > 0 && Restrained(d) > 0 ==> Restrained(d) <= d.session.llmTarget
    ensures d.probe && d.session.llmTarget > 0 && d.session.currentBitrate > 0 ==>
              (if Restrained(d) > 0 then Restrained(d) else d.session.currentBitrate) ==
                Max(d.session.currentBitrate, Min(d.bitrate, d.session.llmTarget))
    ensures d.probe && d.session.llmTarget <= 0 ==> Restrained(d) == d.bitrate
    ensures !d.probe ==> Restrained(d) == d.bitrate
    ensures Restrained(d) >= 0 || d.session.llmTarget < 0
  {
  }

  /** A decision is due: at once when loss is above five percent, else three seconds after the last. */
  predicate Due(s: Session, loss: real, now: int) {
    loss > 5.0 || Elapsed(s.lastFallback, now, FALLBACK_INTERVAL_SECONDS)
  }

  /** Where a raise from here ends: a twentieth up, within the range and the model's target if there is one,
      but never down. */
  function Raised(s: Session, start: int): int
    requires Ordered(s)
  {
    var up := InRange(s, start * 21 / 20);
    if s.llmTarget > 0 then Max(start, Min(up, s.llmTarget)) else up
  }

  /** How an outcome moves the bitrate from where the report left it. */
  ghost predicate MovesWithLoss(s: Session, start: int, loss: real, due: bool, o: Outcome)
    requires Ordered(s)
  {
    var bitrate := o.session.currentBitrate;
    && (!due ==> bitrate == start)
    && (due && loss > 2.0 ==> bitrate == InRange(s, start * (if loss > 5.0 then 7 else 9) / 10) <= start)
    && (due && loss > 2.0 && start > s.config.minBitrate ==> bitrate < start)
    && (due && loss < 0.5 && s.stableTicks >= 4 ==> bitrate == Raised(s, start))
    && (loss <= 2.0 && !(due && loss < 0.5 && s.stableTicks >= 4) ==> bitrate == start)
    && (loss <= 2.0 ==> bitrate >= start)
    && (bitrate > start ==> loss < 0.5 && o.session.stableTicks >= 5)
    && (bitrate > start && s.llmTarget > 0 ==> bitrate <= s.llmTarget)
    && (if o.bitrate > 0 then bitrate == o.bitrate else bitrate == start)
  }

  lemma EmergencyMoves(s: Session, loss: real, now: int)
    requires Sound(s) && s.config.minBitrate > 0 && loss > 5.0
    ensures MovesWithLoss(s, s.currentBitrate, loss, true, Emergency(s, loss, now))
  {
    DecisionIsSound(s, loss);
    DecisionMovesWithLoss(s, loss);
  }

  lemma RegularMoves(s: Session, loss: real, now: int)
    requires Sound(s) && s.config.minBitrate > 0 && loss <= 5.0
    ensures MovesWithLoss(s, s.currentBitrate, loss, Due(s, loss, now), Regular(s, loss, now))
  {
    DecisionIsSound(s, loss);
    DecisionMovesWithLoss(s, loss);
    ExactShares(s);
    RestraintStopsAtTarget(FallbackDecision(s, loss));
  }

  lemma TriggerMovesNothing(o: Outcome, aiReady: bool, now: int)
    ensures var t := Triggered(o, aiReady, now);
      t.bitrate == o.bitrate && t.session.currentBitrate == o.session.currentBitrate && t.session.stableTicks == o.session.stableTicks
  {
  }

  /** The same for a whole report: a raise never passes the model's target, and what is answered is what
      was set. */
  lemma BitrateMovesWithLoss(s: Session, raw: Feedback, foreground: Foreground, aiReady: bool, now: int)
    requires Sound(s) && s.config.minBitrate > 0
    ensures var loss := Sanitized(raw).packetLoss;
      MovesWithLoss(s, ReportedBitrate(s, raw), loss, Due(s, loss, now), Process(s, raw, foreground, aiReady, now))
  {
    var f := Sanitized(raw);
    var informed := Informed(s, f, foreground, now);
    InformedIsSound(s, f, foreground, now);
    ReportSetsStart(s, raw, foreground, now);
    if f.packetLoss > 5.0 {
      EmergencyMoves(informed, f.packetLoss, now);
    } else {
      RegularMoves(informed, f.packetLoss, now);
      TriggerMovesNothing(Regular(informed, f.packetLoss, now), aiReady, now);
    }
  }

  lemma ReportSetsStart(s: Session, raw: Feedback, foreground: Foreground, now: int)
    requires Sound(s)
    ensures var informed := Informed(s, Sanitized(raw), foreground, now);
      && informed.currentBitrate == ReportedBitrate(s, raw) && informed.config == s.config
      && informed.llmTarget == s.llmTarget && informed.lastFallback == s.lastFallback
      && informed.stableTicks == s.stableTicks
  {
    ReportedIsSound(s, Sanitized(raw), now);
    DetectedIsSound(Reported(s, Sanitized(raw), now), foreground, now);
  }
}
