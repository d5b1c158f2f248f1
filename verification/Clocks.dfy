/** The tick gates of the program against the true, unbounded clock. */
module Clocks {
  import opened Words
  import opened AtEngine
  import opened Lifecycle
  import opened BringUp
  import opened Coherence
  import opened Traces
  import opened Runs

  /** The poll gate's tick is the tick of the last run. */
  predicate GateFits(g: Gsm) {
    g.engine.lastPoll == Tick(g.history.ranAt) && g.history.ranAt <= g.history.clock
  }

  predicate SameGate(g: Gsm, r: Gsm) {
    r.engine.lastPoll == g.engine.lastPoll && r.history.ranAt == g.history.ranAt
  }

  lemma PppEventsGate(g: Gsm, codes: seq<int>, now: nat)
    requires WellFormedGsm(g)
    ensures SameGate(g, PppEvents(g, codes, now)) && PppEvents(g, codes, now).history.clock == g.history.clock
  {
    hide PppEvents;
    PppEventsExact(g, codes, now);
  }

  lemma NextGate(g: Gsm, step: Step)
    requires WellFormedGsm(g) && GateFits(g) && Enabled(g, step)
    ensures GateFits(Next(g, step)) && Next(g, step).history.clock >= g.history.clock
  {
    hide MatchPhase, TimeoutPhase, PppEvents, Store;
    match step
    case PppStep(codes, now) => PppEventsGate(g, codes, now);
    case RunStep(env) =>
      if !GateOpen(g.engine, env.entered) {
        assert HwRun(g, env).engine == g.engine;
      }
    case PollStep(_) =>
    case UartStep(_) =>
    case PhaseStep(_) =>
  }

  lemma {:induction false} GateInRun(steps: seq<Step>, n: nat)
    requires Run(steps) && n <= |steps|
    ensures GateFits(At(steps, n))
    decreases n
  {
    hide Next, Enabled, After, Rests;
    if n == 0 {
      StartsInitial(steps);
    } else {
      hide Initial;
      GateInRun(steps, n - 1);
      AtRests(steps, n - 1);
      NextGate(At(steps, n - 1), steps[n - 1]);
    }
  }

  /** At every moment of every run the hardware poll gate, the timeout of the waiting command
      and the one-second state gate open exactly when the true time since the last run, the
      last transmission and the last poll has reached the interval, however often the 32-bit
      tick wrapped, as long as that time is below 2^32 ms. */
  lemma GatesAreExact(steps: seq<Step>, n: nat, now: nat)
    requires Run(steps) && n <= |steps| && At(steps, n).history.clock <= now
    ensures var g := At(steps, n);
            now - g.history.ranAt < TICKS ==>
              (GateOpen(g.engine, now) <==> now - g.history.ranAt >= g.engine.pollInterval)
    ensures At(steps, n).engine.timeout > 0 ==> LifeOf(At(steps, n).engine.log).Live?
    ensures var e := At(steps, n).engine;
            e.timeout > 0 && now - LifeOf(e.log).lastSent < TICKS ==>
              (Expired(e, now) <==> now - LifeOf(e.log).lastSent >= e.timeout)
    ensures var g := At(steps, n);
            now - g.history.polledAt < TICKS ==>
              (Sub32(Tick(now), g.manager.lastTick) >= 1000 <==> now - g.history.polledAt >= 1000)
  {
    hide Initial, Next, After, Coherent;
    GateInRun(steps, n);
    AtRests(steps, n);
    var g := At(steps, n);
    GateExact(g.history.ranAt, now, g.engine.pollInterval);
    GateExact(g.history.polledAt, now, 1000);
    if g.engine.timeout > 0 {
      GateExact(LifeOf(g.engine.log).lastSent, now, g.engine.timeout);
    }
  }
}
