/** When a model worker is started and what it brings, and where a session starts. */
module AbrEffects {
  import opened Common
  import opened Abr

  /** The window in front when a session starts: the one found, else the one known before, to be looked up
      again. */
  lemma StartsWithWindow(cfg: Config, initial: int, foreground: Foreground, previous: Option<Foreground>, now: int, generation: nat)
    requires !ExplicitBoundsInverted(cfg)
    ensures var s := Enabled(cfg, initial, foreground, previous, now, generation);
      if foreground.title != "" then s.foreground == foreground && s.lastFgDetect == now
      else s.lastFgDetect == 0 && s.foreground.pid == 0 &&
           (previous.Some? ==> s.foreground.title == previous.value.title && s.foreground.exe == previous.value.exe)
  {
  }

  /** An interval has passed when the clock has moved on by that many whole seconds. */
  lemma ElapsedIff(since: int, now: int, seconds: nat)
    requires seconds > 0
    ensures Elapsed(since, now, seconds) <==> now - since >= seconds * 1_000_000_000
  {
  }

  /** A decision is due at once on loss above five percent, else three seconds after the last. */
  lemma DueIff(s: Session, loss: real, now: int)
    ensures Due(s, loss, now) <==> loss > 5.0 || now - s.lastFallback >= 3_000_000_000
  {
    ElapsedIff(s.lastFallback, now, FALLBACK_INTERVAL_SECONDS);
  }

  /** Reported loss is taken as it is between 0 and 100, a reported bitrate as it is when positive. */
  lemma ReportIsTakenUp(raw: Feedback)
    ensures var f := Sanitized(raw);
      && 0.0 <= f.packetLoss <= 100.0 && (0.0 <= raw.packetLoss <= 100.0 ==> f.packetLoss == raw.packetLoss)
      && (raw.packetLoss > 100.0 ==> f.packetLoss == 100.0) && (raw.packetLoss < 0.0 ==> f.packetLoss == 0.0)
      && (raw.currentBitrate > 0 ==> f.currentBitrate == raw.currentBitrate) && (raw.currentBitrate <= 0 ==> f.currentBitrate == 0)
  {
  }

  /** The history is the last ten reports, in order. */
  lemma LastTenRemembered(history: seq<(Feedback, int)>, f: Feedback, now: int)
    ensures var all, kept := history + [(f, now)], Remembered(history, f, now);
      |kept| == Min(10, |all|) && kept == all[|all| - |kept|..]
  {
  }

  // ---------------------------------------------------------------- where a session starts

  /** Without explicit bounds a session starts at the bitrate it was given if and only if that lies in the
      range for its mode; the tiny values are those at which the rounded range is that bitrate alone. */
  lemma StartsAtInitialIff(cfg: Config, initial: int, foreground: Foreground, previous: Option<Foreground>, now: int, generation: nat)
    requires cfg.minBitrate <= 0 && cfg.maxBitrate <= 0 && initial > 0
    ensures Enabled(cfg, initial, foreground, previous, now, generation).currentBitrate == initial <==>
              match cfg.mode
              case Quality => initial == 1 || 5000 <= initial <= 150000
              case Balanced => 3000 <= initial <= 150000
              case LowLatency => initial < 5 || 2000 <= initial
  {
  }

  /** With both bounds explicit it starts at the nearest bitrate between them, and asks the model first. */
  lemma StartsWithinBounds(cfg: Config, initial: int, foreground: Foreground, previous: Option<Foreground>, now: int, generation: nat)
    requires 0 < cfg.minBitrate <= cfg.maxBitrate
    ensures var s := Enabled(cfg, initial, foreground, previous, now, generation);
      && s.config == Config(true, cfg.minBitrate, cfg.maxBitrate, cfg.mode)
      && cfg.minBitrate <= s.currentBitrate <= cfg.maxBitrate
      && (cfg.minBitrate <= initial <= cfg.maxBitrate ==> s.currentBitrate == initial)
      && (initial < cfg.minBitrate ==> s.currentBitrate == cfg.minBitrate)
      && (initial > cfg.maxBitrate ==> s.currentBitrate == cfg.maxBitrate)
      && s.appChanged && !s.llmInFlight && s.llmTarget == 0 && s.stableTicks == 0 && s.generation == generation
  {
  }

  // ---------------------------------------------------------------- when a worker is started

  /** Another window is in front, and it has been ten seconds since the last look. */
  predicate WindowChanged(s: Session, foreground: Foreground, now: int) {
    now - s.lastFgDetect >= 10_000_000_000 && foreground.pid > 0 && foreground.pid != s.foreground.pid
  }

  /** The report makes the fifth calm decision in a row, or leaves the count at five. */
  predicate Recovered(after: Session) {
    after.stableTicks == 5 && after.consecutiveHighLoss == 0
  }

  lemma TriggersIff(o: Outcome, aiReady: bool, now: int)
    requires !o.launch
    ensures var s, t := o.session, Triggered(o, aiReady, now);
      t.launch <==>
        && aiReady && !s.llmInFlight && now - s.lastLlmCall >= 10_000_000_000
        && (s.appChanged || s.networkRecovered || Recovered(s))
    ensures var t := Triggered(o, aiReady, now).session;
      t.stableTicks == o.session.stableTicks && t.consecutiveHighLoss == o.session.consecutiveHighLoss
  {
    ElapsedIff(o.session.lastLlmCall, now, LLM_MIN_INTERVAL_SECONDS);
  }

  lemma InformedFlags(s: Session, f: Feedback, foreground: Foreground, now: int)
    requires Ordered(s)
    ensures var informed := Informed(s, f, foreground, now);
      && informed.appChanged == (s.appChanged || WindowChanged(s, foreground, now))
      && informed.networkRecovered == s.networkRecovered && informed.llmInFlight == s.llmInFlight
      && informed.lastLlmCall == s.lastLlmCall
  {
    ElapsedIff(s.lastFgDetect, now, FG_DETECT_INTERVAL_SECONDS);
  }

  lemma RegularFlags(s: Session, loss: real, now: int)
    requires Ordered(s)
    ensures var after := Regular(s, loss, now).session;
      && after.appChanged == s.appChanged && after.networkRecovered == s.networkRecovered
      && after.llmInFlight == s.llmInFlight && after.lastLlmCall == s.lastLlmCall && !Regular(s, loss, now).launch
  {
  }

  /** A report starts a worker exactly when there is something new to tell the model, no worker is out, the
      model can be asked, ten seconds have passed since it last was, and loss is no emergency. */
  lemma LaunchesIff(s: Session, raw: Feedback, foreground: Foreground, aiReady: bool, now: int)
    requires Sound(s)
    ensures var o := Process(s, raw, foreground, aiReady, now);
      o.launch <==>
        && Sanitized(raw).packetLoss <= 5.0 && aiReady && !s.llmInFlight && now - s.lastLlmCall >= 10_000_000_000
        && (s.appChanged || s.networkRecovered || WindowChanged(s, foreground, now) || Recovered(o.session))
  {
    var f := Sanitized(raw);
    var informed := Informed(s, f, foreground, now);
    InformedIsSound(s, f, foreground, now);
    InformedFlags(s, f, foreground, now);
    if f.packetLoss <= 5.0 {
      RegularFlags(informed, f.packetLoss, now);
      TriggersIff(Regular(informed, f.packetLoss, now), aiReady, now);
    }
  }

  /** So the first ordinary report on a session, ten seconds into the clock, starts one if the model can be
      asked, for the generation of the session. */
  lemma FirstReportStartsWorker(e: Engine, c: Client, report: Event)
    requires Inv(e) && c in e.sessions && report.Report? && report.client == c && report.aiReady
    requires var s := e.sessions[c];
      s.config.enabled && s.appChanged && !s.llmInFlight && s.lastLlmCall == 0 && report.now >= 10_000_000_000
    requires report.feedback.packetLoss <= 5.0
    ensures var e' := Step(e, report);
      e'.sessions[c].llmInFlight && e'.workers == e.workers + multiset{Worker(c, e.sessions[c].generation)}
  {
    var s := e.sessions[c];
    LaunchesIff(s, report.feedback, report.foreground, report.aiReady, report.now);
    ProcessKeepsSound(s, report.feedback, report.foreground, report.aiReady, report.now);
  }

  // ---------------------------------------------------------------- all that a report changes

  /** The session after the decision, but for its bitrate. */
  ghost predicate Decided(s: Session, loss: real, now: int, s': Session) {
    var due := loss > 5.0 || now - s.lastFallback >= 3_000_000_000;
    s' == s.(
      currentBitrate := s'.currentBitrate,
      consecutiveHighLoss := if loss > 5.0 then s.consecutiveHighLoss + 1
                             else if due && (loss > 2.0 || loss < 0.5) then 0 else s.consecutiveHighLoss,
      stableTicks := if due && loss > 2.0 then 0 else if due && loss < 0.5 then s.stableTicks + 1 else s.stableTicks,
      lastFallback := if due then now else s.lastFallback)
  }

  lemma DecisionHasEffect(s: Session, loss: real, now: int)
    requires Sound(s) && s.config.minBitrate > 0
    ensures loss > 5.0 ==> Decided(s, loss, now, Emergency(s, loss, now).session)
    ensures loss <= 5.0 ==> Decided(s, loss, now, Regular(s, loss, now).session)
  {
    DueIff(s, loss, now);
    DecisionMovesWithLoss(s, loss);
  }

  /** What is known of the window in front, looked up at most every ten seconds. */
  function WindowAfter(s: Session, foreground: Foreground, now: int): Foreground {
    if now - s.lastFgDetect < 10_000_000_000 then s.foreground
    else if foreground.pid > 0 && foreground.pid != s.foreground.pid then foreground
    else if foreground.pid == s.foreground.pid && foreground.title != "" then s.foreground.(title := foreground.title)
    else s.foreground
  }

  lemma InformedHasEffect(s: Session, f: Feedback, foreground: Foreground, now: int)
    requires Ordered(s)
    ensures var informed := Informed(s, f, foreground, now);
      informed == s.(
        currentBitrate := informed.currentBitrate, history := Remembered(s.history, f, now),
        foreground := WindowAfter(s, foreground, now),
        lastFgDetect := if now - s.lastFgDetect >= 10_000_000_000 then now else s.lastFgDetect,
        appChanged := s.appChanged || WindowChanged(s, foreground, now))
  {
    ElapsedIff(s.lastFgDetect, now, FG_DETECT_INTERVAL_SECONDS);
  }

  lemma TriggerHasEffect(o: Outcome, aiReady: bool, now: int)
    requires !o.launch
    ensures var s, t := o.session, Triggered(o, aiReady, now);
      t.session == s.(
        appChanged := s.appChanged && !t.launch,
        networkRecovered := (s.networkRecovered || Recovered(s)) && !t.launch,
        lastLlmCall := if t.launch then now else s.lastLlmCall,
        llmInFlight := s.llmInFlight || t.launch)
  {
  }

  /** The whole session after a report; MovesWithLoss says the bitrate. */
  lemma ReportHasEffect(s: Session, raw: Feedback, foreground: Foreground, aiReady: bool, now: int)
    requires Sound(s) && s.config.minBitrate > 0
    ensures var o, f := Process(s, raw, foreground, aiReady, now), Sanitized(raw);
      var informed := s.(
        currentBitrate := ReportedBitrate(s, raw), history := Remembered(s.history, f, now),
        foreground := WindowAfter(s, foreground, now),
        lastFgDetect := if now - s.lastFgDetect >= 10_000_000_000 then now else s.lastFgDetect,
        appChanged := s.appChanged || WindowChanged(s, foreground, now));
      exists decided :: Decided(informed, f.packetLoss, now, decided) &&
        o.session == decided.(
          appChanged := decided.appChanged && !o.launch,
          networkRecovered := (decided.networkRecovered || (f.packetLoss <= 5.0 && Recovered(decided))) && !o.launch,
          lastLlmCall := if o.launch then now else decided.lastLlmCall,
          llmInFlight := decided.llmInFlight || o.launch)
  {
    var f := Sanitized(raw);
    var informed := Informed(s, f, foreground, now);
    InformedIsSound(s, f, foreground, now);
    InformedHasEffect(s, f, foreground, now);
    ReportSetsStart(s, raw, foreground, now);
    DecisionHasEffect(informed, f.packetLoss, now);
    if f.packetLoss > 5.0 {
      assert Decided(informed, f.packetLoss, now, Emergency(informed, f.packetLoss, now).session);
    } else {
      RegularFlags(informed, f.packetLoss, now);
      TriggerHasEffect(Regular(informed, f.packetLoss, now), aiReady, now);
      assert Decided(informed, f.packetLoss, now, Regular(informed, f.packetLoss, now).session);
    }
  }

  /** The signal of recovery is set by every ordinary report that finds the count at five, not only by the
      one that takes it there: so it is set again, after a worker has cleared it, by a report on which no
      decision is due. */
  lemma RecoveryIsSignalledAgain(s: Session, raw: Feedback, foreground: Foreground, aiReady: bool, now: int)
    requires Sound(s) && s.config.minBitrate > 0 && !s.networkRecovered && s.llmInFlight
    requires Sanitized(raw).packetLoss <= 5.0
    ensures var s' := Process(s, raw, foreground, aiReady, now).session;
      && (s'.networkRecovered <==> s'.stableTicks == 5 && s'.consecutiveHighLoss == 0)
      && (now - s.lastFallback < 3_000_000_000 && s.stableTicks == 5 && s.consecutiveHighLoss == 0 ==> s'.networkRecovered)
  {
    ReportHasEffect(s, raw, foreground, aiReady, now);
    LaunchesIff(s, raw, foreground, aiReady, now);
  }

  // ---------------------------------------------------------------- what a worker brings

  /** A worker of the current generation that comes back with a bitrate sets the target to it, moved into the
      range; without one the target stays. Either way the session may be asked about again, and nothing else
      changes. */
  lemma FinishHasEffect(e: Engine, w: Worker, reply: Option<int>)
    requires Inv(e) && w in e.workers
    requires w.client in e.sessions && e.sessions[w.client].generation == w.generation
    requires e.sessions[w.client].config.minBitrate > 0
    ensures var s, e' := e.sessions[w.client], Step(e, Finish(w, reply));
      var target :=
        if reply.None? || reply.value <= 0 then s.llmTarget
        else if reply.value < s.config.minBitrate then s.config.minBitrate
        else if reply.value > s.config.maxBitrate then s.config.maxBitrate
        else reply.value;
      e' == e.(workers := e.workers - multiset{w}, sessions := e.sessions[w.client := s.(llmInFlight := false, llmTarget := target)])
  {
  }
}
