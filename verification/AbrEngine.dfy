/** The engine as it runs: a map of sessions updated under one lock, a generation counter and detached
    workers, proved against Abr. */
module AbrEngine {
  import opened Common
  import opened Abr

  class AbrEngine {
    var sessions: map<Client, Session>
    var generationCounter: nat
    var workers: multiset<Worker>  // started and not yet finished

    ghost function State(): Engine
      reads this
    {
      Engine(sessions, generationCounter, workers)
    }

    constructor ()
      ensures State() == IDLE
    {
      sessions, generationCounter, workers := map[], 0, multiset{};
    }

    /** `foreground` is the window found in front, with an empty title when there is none. */
    method EnableClient(client: Client, cfg: Config, initial: int, foreground: Foreground, now: int)
      requires Inv(State()) && !ExplicitBoundsInverted(cfg)
      modifies this
      ensures Inv(State())
      ensures State() == Step(old(State()), Enable(client, cfg, initial, foreground, now))
    {
      EnableKeepsInv(State(), Enable(client, cfg, initial, foreground, now));
      var previous := if client in sessions then Some(sessions[client].foreground) else None;
      generationCounter := generationCounter + 1;
      var state := ResetSession(cfg, initial, foreground, previous, now, generationCounter);
      sessions := sessions[client := state];
    }

    method DisableClient(client: Client)
      requires Inv(State())
      modifies this
      ensures Inv(State())
      ensures State() == Step(old(State()), Disable(client))
    {
      sessions := sessions - {client};
    }

    /** What llm_worker does under the lock once its call has returned. */
    method FinishWorker(worker: Worker, reply: Option<int>)
      requires Inv(State()) && worker in workers
      modifies this
      ensures Inv(State())
      ensures State() == Step(old(State()), Finish(worker, reply))
    {
      FinishKeepsInv(State(), Finish(worker, reply));
      workers := workers - multiset{worker};
      if worker.client !in sessions || sessions[worker.client].generation != worker.generation {
        return;
      }
      var state := sessions[worker.client].(llmInFlight := false);
      if reply.Some? && reply.value > 0 {
        var target := Clamp(reply.value, state.config.minBitrate, state.config.maxBitrate);
        if target > 0 {
          state := state.(llmTarget := target);
        }
      }
      sessions := sessions[worker.client := state];
    }

    /** Returns the bitrate to switch to, 0 for no change. */
    method ProcessFeedback(client: Client, raw: Feedback, foreground: Foreground, aiReady: bool, now: int)
      returns (newBitrate: int)
      requires Inv(State())
      modifies this
      ensures Inv(State())
      ensures State() == Step(old(State()), Report(client, raw, foreground, aiReady, now))
      ensures newBitrate == if client in old(sessions) && old(sessions)[client].config.enabled
                            then Process(old(sessions)[client], raw, foreground, aiReady, now).bitrate else 0
    {
      ReportKeepsInv(State(), Report(client, raw, foreground, aiReady, now));
      var feedback := Sanitized(raw);
      if client !in sessions || !sessions[client].config.enabled {
        return 0;
      }
      var reported := TakeReport(sessions[client], feedback, now);
      var informed := DetectForeground(reported, foreground, now);
      if feedback.packetLoss > 5.0 {
        var state, bitrate, _ := Fallback(informed, feedback.packetLoss);
        newBitrate := 0;
        if bitrate > 0 {
          state := state.(currentBitrate := bitrate);
          state := state.(lastFallback := now);
          newBitrate := bitrate;
        }
        sessions := sessions[client := state];
        return;
      }
      var state, bitrate := DecideIfDue(informed, feedback.packetLoss, now);
      newBitrate := bitrate;
      var launch;
      state, launch := TriggerWorker(state, bitrate, aiReady, now);
      if launch {
        workers := workers + multiset{Worker(client, state.generation)};
      }
      sessions := sessions[client := state];
    }
  }

  method ResetSession(cfg: Config, initial: int, foreground: Foreground, previous: Option<Foreground>, now: int,
                      generation: nat)
    returns (state: Session)
    requires !ExplicitBoundsInverted(cfg)
    ensures state == Enabled(cfg, initial, foreground, previous, now, generation)
  {
    BoundsAreOrdered(cfg, initial);
    var shown := if previous.Some? then previous.value else Foreground("", "", 0);
    state := Session(cfg.(enabled := true), initial, initial, shown.(pid := 0), [], 0, 0, 0, true, false,
                     0, 0, 0, false, generation);
    if foreground.title != "" {
      state := state.(foreground := foreground);
      state := state.(lastFgDetect := now);
    }
    var lo, hi := FindRange(state.config, initial);
    state := state.(config := state.config.(minBitrate := lo, maxBitrate := hi));
    state := state.(currentBitrate := Clamp(state.currentBitrate, lo, hi));
  }

  /** Presets only for the bounds not explicitly configured. */
  method FindRange(cfg: Config, initial: int) returns (lo: int, hi: int)
    ensures (lo, hi) == SessionBounds(cfg, initial)
  {
    lo, hi := cfg.minBitrate, cfg.maxBitrate;
    if lo <= 0 || hi <= 0 {
      var presetMin, presetMax;
      match cfg.mode {
        case Quality => presetMin, presetMax := Max(5000, TruncDiv(initial, 2)), Min(150000, TruncDiv(initial * 3, 2));
        case LowLatency => presetMin, presetMax := 2000, TruncDiv(initial * 6, 5);
        case Balanced => presetMin, presetMax := Max(3000, TruncDiv(initial * 3, 10)), Min(150000, initial * 2);
      }
      if lo <= 0 {
        lo := presetMin;
      }
      if hi <= 0 {
        hi := presetMax;
      }
      if lo > hi {
        lo := hi;
      }
    }
  }

  /** `launch` says whether a worker is to be started. */
  method TriggerWorker(session: Session, ghost bitrate: int, aiReady: bool, now: int) returns (state: Session, launch: bool)
    ensures Outcome(state, bitrate, launch) == Triggered(Outcome(session, bitrate, false), aiReady, now)
  {
    state, launch := session, false;
    if state.stableTicks == 5 && state.consecutiveHighLoss == 0 {
      state := state.(networkRecovered := true);
    }
    if (state.appChanged || state.networkRecovered) && !state.llmInFlight && aiReady {
      if TruncDiv(now - state.lastLlmCall, SECOND) >= LLM_MIN_INTERVAL_SECONDS {
        state := state.(appChanged := false, networkRecovered := false);
        state := state.(lastLlmCall := now, llmInFlight := true);
        launch := true;
      }
    }
  }

  method Remember(history: seq<(Feedback, int)>, feedback: Feedback, now: int) returns (kept: seq<(Feedback, int)>)
    requires |history| <= MAX_FEEDBACK_HISTORY
    ensures kept == Remembered(history, feedback, now)
  {
    kept := history + [(feedback, now)];
    ghost var grown := kept;
    while |kept| > MAX_FEEDBACK_HISTORY
      invariant |kept| <= |grown| && kept == grown[|grown| - |kept|..]
      invariant |grown| > MAX_FEEDBACK_HISTORY ==> |kept| >= MAX_FEEDBACK_HISTORY
      invariant |grown| <= MAX_FEEDBACK_HISTORY ==> kept == grown
    {
      kept := kept[1..];
    }
  }

  /** The client's report and the rolling history. */
  method TakeReport(session: Session, feedback: Feedback, now: int) returns (state: Session)
    requires Ordered(session) && |session.history| <= MAX_FEEDBACK_HISTORY
    ensures state == Reported(session, feedback, now)
  {
    state := session;
    if feedback.currentBitrate > 0 {
      state := state.(currentBitrate := Clamp(feedback.currentBitrate, state.config.minBitrate, state.config.maxBitrate));
    }
    var history := Remember(state.history, feedback, now);
    state := state.(history := history);
  }

  method DetectForeground(session: Session, foreground: Foreground, now: int) returns (state: Session)
    ensures state == Detected(session, foreground, now)
  {
    state := session;
    if TruncDiv(now - state.lastFgDetect, SECOND) >= FG_DETECT_INTERVAL_SECONDS {
      state := state.(lastFgDetect := now);
      if foreground.pid > 0 && foreground.pid != state.foreground.pid {
        state := state.(foreground := foreground);
        state := state.(appChanged := true);
      } else if foreground.pid == state.foreground.pid && foreground.title != "" {
        state := state.(foreground := state.foreground.(title := foreground.title));
      }
    }
  }

  method Fallback(session: Session, loss: real) returns (state: Session, bitrate: int, probe: bool)
    requires Ordered(session)
    ensures Decision(state, bitrate, probe) == FallbackDecision(session, loss)
  {
    state, bitrate, probe := session, 0, false;
    var lo, hi := state.config.minBitrate, state.config.maxBitrate;
    if loss > 5.0 {
      state := state.(consecutiveHighLoss := state.consecutiveHighLoss + 1);
      state := state.(stableTicks := 0);
      bitrate := Clamp(TruncDiv(state.currentBitrate * 70, 100), lo, hi);
    } else if loss > 2.0 {
      state := state.(consecutiveHighLoss := 0, stableTicks := 0);
      bitrate := Clamp(TruncDiv(state.currentBitrate * 90, 100), lo, hi);
    } else if loss < 0.5 {
      state := state.(consecutiveHighLoss := 0, stableTicks := state.stableTicks + 1);
      if state.stableTicks >= 5 {
        var raised := Clamp(TruncDiv(state.currentBitrate * 105, 100), lo, hi);
        if raised != state.currentBitrate {
          bitrate, probe := raised, true;
        }
      }
    }
  }

  method DecideIfDue(informed: Session, loss: real, now: int) returns (state: Session, newBitrate: int)
    requires Ordered(informed)
    ensures Outcome(state, newBitrate, false) == Regular(informed, loss, now)
  {
    state, newBitrate := informed, 0;
    if TruncDiv(now - informed.lastFallback, SECOND) >= FALLBACK_INTERVAL_SECONDS {
      var bitrate, probe;
      state, bitrate, probe := Fallback(informed, loss);
      state := state.(lastFallback := now);
      if bitrate > 0 {
        if state.llmTarget > 0 && probe {
          bitrate := Min(bitrate, state.llmTarget);
          if bitrate <= state.currentBitrate {
            bitrate := 0;
          }
        }
        if bitrate > 0 {
          state := state.(currentBitrate := bitrate);
          newBitrate := bitrate;
        }
      }
    }
  }
}
