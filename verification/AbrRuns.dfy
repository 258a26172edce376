/** Runs of the adaptive bitrate engine: what stale workers do, and what a raise takes. */
module AbrRuns {
  import opened Common
  import opened Abr

  // ---------------------------------------------------------------- stale workers

  /** The worker's session is gone, or has been enabled again since the worker was started. */
  ghost predicate Stale(e: Engine, event: Event) {
    event.Finish? &&
    (event.worker.client !in e.sessions || e.sessions[event.worker.client].generation != event.worker.generation)
  }

  /** The run with every ending of a stale worker left out. */
  ghost function Timely(events: seq<Event>): (timely: seq<Event>)
    requires Callable(events)
    ensures Callable(timely)
  {
    if events == [] then []
    else
      var last := |events| - 1;
      var before := Timely(events[..last]);
      if Stale(Run(events[..last]), events[last]) then before else before + [events[last]]
  }

  /** All but stale workers are the same. */
  ghost predicate Agree(a: Engine, b: Engine) {
    && a.sessions == b.sessions && a.counter == b.counter
    && forall c :: c in a.sessions ==>
         a.workers[Worker(c, a.sessions[c].generation)] == b.workers[Worker(c, a.sessions[c].generation)]
  }

  lemma EnableAgrees(a: Engine, b: Engine, event: Event)
    requires Inv(a) && Inv(b) && Agree(a, b) && event.Enable? && !ExplicitBoundsInverted(event.config)
    ensures Agree(Step(a, event), Step(b, event))
  {
    assert Worker(event.client, a.counter + 1) !in a.workers && Worker(event.client, a.counter + 1) !in b.workers;
  }

  lemma ReportAgrees(a: Engine, b: Engine, event: Event)
    requires Inv(a) && Inv(b) && Agree(a, b) && event.Report?
    ensures Agree(Step(a, event), Step(b, event))
  {
    var c := event.client;
    if c in a.sessions {
      ProcessKeepsSound(a.sessions[c], event.feedback, event.foreground, event.aiReady, event.now);
    }
  }

  lemma FinishAgrees(a: Engine, b: Engine, event: Event)
    requires Inv(a) && Inv(b) && Agree(a, b) && event.Finish? && !Stale(a, event)
    ensures Agree(Step(a, event), Step(b, event))
  {
    assert a.workers[event.worker] == b.workers[event.worker];
  }

  lemma StepAgrees(a: Engine, b: Engine, event: Event)
    requires Inv(a) && Inv(b) && Agree(a, b)
    requires event.Enable? ==> !ExplicitBoundsInverted(event.config)
    requires !Stale(a, event)
    ensures Agree(Step(a, event), Step(b, event))
  {
    match event
    case Enable(_, _, _, _, _) => EnableAgrees(a, b, event);
    case Disable(_) =>
    case Report(_, _, _, _, _) => ReportAgrees(a, b, event);
    case Finish(_, _) => FinishAgrees(a, b, event);
  }

  lemma StaleStepAgrees(a: Engine, b: Engine, event: Event)
    requires Inv(a) && Agree(a, b) && Stale(a, event)
    ensures Agree(Step(a, event), b)
  {
  }

  lemma RunOneMore(events: seq<Event>, event: Event)
    requires Callable(events + [event]) && Callable(events)
    ensures Run(events + [event]) == Step(Run(events), event)
  {
    assert (events + [event])[..|events|] == events;
  }

  lemma {:induction false} TimelyAgrees(events: seq<Event>)
    requires Callable(events)
    ensures Agree(Run(events), Run(Timely(events)))
  {
    if events == [] {
    } else {
      var last := |events| - 1;
      var before, event := events[..last], events[last];
      TimelyAgrees(before);
      if Stale(Run(before), event) {
        StaleStepAgrees(Run(before), Run(Timely(before)), event);
      } else {
        StepAgrees(Run(before), Run(Timely(before)), event);
        RunOneMore(Timely(before), event);
      }
    }
  }

  /** Workers of older generations are without effect: over any run the sessions are what they would be
      had none of them ever finished. */
  lemma StaleWorkersAreWithoutEffect(events: seq<Event>)
    requires Callable(events)
    ensures Run(events).sessions == Run(Timely(events)).sessions
  {
    TimelyAgrees(events);
  }

  // ---------------------------------------------------------------- what a raise takes

  /** Every session was enabled at a positive bitrate. */
  ghost predicate StartsPositive(events: seq<Event>) {
    forall i :: 0 <= i < |events| ==> (events[i].Enable? ==> events[i].initial > 0)
  }

  ghost predicate RangesPositive(e: Engine) {
    forall c :: c in e.sessions ==> e.sessions[c].config.minBitrate > 0
  }

  lemma ProcessKeepsConfig(s: Session, raw: Feedback, foreground: Foreground, aiReady: bool, now: int)
    requires Sound(s)
    ensures Process(s, raw, foreground, aiReady, now).session.config == s.config
  {
    var f := Sanitized(raw);
    InformedIsSound(s, f, foreground, now);
    OutcomesAreSound(Informed(s, f, foreground, now), f.packetLoss, now);
  }

  lemma StepKeepsRanges(e: Engine, event: Event)
    requires Inv(e) && RangesPositive(e)
    requires event.Enable? ==> !ExplicitBoundsInverted(event.config) && event.initial > 0
    ensures RangesPositive(Step(e, event))
  {
    match event
    case Enable(_, config, initial, _, _) => BoundsAreOrdered(config, initial);
    case Report(c, feedback, foreground, aiReady, now) =>
      if c in e.sessions {
        ProcessKeepsConfig(e.sessions[c], feedback, foreground, aiReady, now);
      }
    case _ =>
  }

  lemma {:induction false} RangesStayPositive(events: seq<Event>)
    requires Callable(events) && StartsPositive(events)
    ensures RangesPositive(Run(events))
  {
    if events == [] {
    } else {
      var last := |events| - 1;
      RangesStayPositive(events[..last]);
      StepKeepsRanges(Run(events[..last]), events[last]);
    }
  }

  /** The event is a report of this client that the engine takes up. */
  ghost predicate Heard(e: Engine, event: Event, c: Client) {
    event.Report? && event.client == c && c in e.sessions && e.sessions[c].config.enabled
  }

  function LossOf(event: Event): real
    requires event.Report?
  {
    Sanitized(event.feedback).packetLoss
  }

  /** On this report the engine decides about the client's bitrate. */
  ghost predicate Decides(e: Engine, event: Event, c: Client) {
    Heard(e, event, c) && Due(e.sessions[c], LossOf(event), event.now)
  }

  /** How many decisions on loss below half a percent there have been since the client was enabled and
      since the last decision on loss above two percent. */
  ghost function CalmDecisions(events: seq<Event>, c: Client): nat
    requires Callable(events)
  {
    if events == [] then 0
    else
      var last := |events| - 1;
      var e, event, before := Run(events[..last]), events[last], CalmDecisions(events[..last], c);
      if (event.Enable? || event.Disable?) && event.client == c then 0
      else if !Decides(e, event, c) then before
      else if LossOf(event) > 2.0 then 0
      else if LossOf(event) < 0.5 then before + 1
      else before
  }

  lemma ProcessCountsCalm(s: Session, raw: Feedback, foreground: Foreground, aiReady: bool, now: int)
    requires Sound(s)
    ensures var loss := Sanitized(raw).packetLoss;
      Process(s, raw, foreground, aiReady, now).session.stableTicks ==
        if !Due(s, loss, now) then s.stableTicks
        else if loss > 2.0 then 0
        else if loss < 0.5 then s.stableTicks + 1
        else s.stableTicks
  {
    var f := Sanitized(raw);
    var informed := Informed(s, f, foreground, now);
    InformedIsSound(s, f, foreground, now);
    ReportSetsStart(s, raw, foreground, now);
    if f.packetLoss <= 5.0 {
      TriggerMovesNothing(Regular(informed, f.packetLoss, now), aiReady, now);
    }
  }

  lemma StepCountsCalm(e: Engine, event: Event, c: Client)
    requires Inv(e) && c in e.sessions
    requires event.Enable? ==> !ExplicitBoundsInverted(event.config) && event.client != c
    requires event.Disable? ==> event.client != c
    ensures c in Step(e, event).sessions
    ensures Step(e, event).sessions[c].stableTicks ==
              if !Decides(e, event, c) then e.sessions[c].stableTicks
              else if LossOf(event) > 2.0 then 0
              else if LossOf(event) < 0.5 then e.sessions[c].stableTicks + 1
              else e.sessions[c].stableTicks
  {
    if Heard(e, event, c) {
      ProcessCountsCalm(e.sessions[c], event.feedback, event.foreground, event.aiReady, event.now);
    }
  }

  /** The session's counter is that number. */
  lemma {:induction false} TicksAreCalmDecisions(events: seq<Event>, c: Client)
    requires Callable(events) && c in Run(events).sessions
    ensures Run(events).sessions[c].stableTicks == CalmDecisions(events, c)
  {
    if events == [] {
    } else {
      var last := |events| - 1;
      var e, event := Run(events[..last]), events[last];
      if event.Enable? && event.client == c {
      } else {
        assert c in e.sessions && !(event.Disable? && event.client == c);
        TicksAreCalmDecisions(events[..last], c);
        StepCountsCalm(e, event, c);
      }
    }
  }

  /** Over any run from positive bitrates: a due decision on loss below half a percent, the fifth or a later
      of its kind, raises the bitrate by a twentieth within the range and the model's target; every other
      report with loss up to two percent leaves it, and above that a due decision lowers it. */
  lemma RaiseTakesFiveCalmDecisions(events: seq<Event>, report: Event, c: Client)
    requires Callable(events) && StartsPositive(events) && Heard(Run(events), report, c)
    ensures var e := Run(events);
      var s, s' := e.sessions[c], Step(e, report).sessions[c];
      var start, loss := ReportedBitrate(s, report.feedback), LossOf(report);
      var raises := Decides(e, report, c) && loss < 0.5 && CalmDecisions(events, c) >= 4;
      && (raises ==> s'.currentBitrate == Raised(s, start))
      && (loss <= 2.0 && !raises ==> s'.currentBitrate == start)
      && (loss <= 2.0 ==> s'.currentBitrate >= start)
      && (s'.currentBitrate > start ==> raises)
      && (s'.currentBitrate > start && s.llmTarget > 0 ==> s'.currentBitrate <= s.llmTarget)
      && (Decides(e, report, c) && loss > 2.0 && start > s.config.minBitrate ==> s'.currentBitrate < start)
  {
    var s := Run(events).sessions[c];
    RangesStayPositive(events);
    TicksAreCalmDecisions(events, c);
    BitrateMovesWithLoss(s, report.feedback, report.foreground, report.aiReady, report.now);
    ProcessCountsCalm(s, report.feedback, report.foreground, report.aiReady, report.now);
  }
}
