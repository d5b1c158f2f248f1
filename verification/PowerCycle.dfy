/** The power cycle: which polls run which power step, when, and with what on the pins. */
module PowerCycle {
  import opened Words
  import opened CStrings
  import opened AtEngine
  import opened BringUp
  import opened Coherence

  /** The history of power polls and the step counter agree, and polls are a second apart. */
  predicate PowerLog(g: Gsm) {
    var p, m, h := g.history.power, g.manager, g.history;
    && m.powerStep == |p| % 8
    && (forall i | 0 <= i < |p| :: p[i].step == i % 8)
    && (forall i | 0 < i < |p| :: p[i].at >= p[i - 1].at + 1000)
    && (|p| > 0 ==> p[|p| - 1].at <= h.polledAt)
    && m.lastTick == Tick(h.polledAt) && h.polledAt <= h.clock
  }

  /** What one power step does to the three pins. */
  function PowerPins(step: nat, pins: Pins): Pins {
    match step
    case 0 => Pins(false, true, false)
    case 1 => pins.(reset := false, enable := true)
    case 3 => pins.(key := true)
    case 4 => pins.(key := false, reset := false)
    case _ => pins
  }

  /** Powered, out of reset, key released. */
  const POWERED := Pins(true, false, false)

  /** The pins in RESET before power step `step`: off and in reset for two steps, then powered,
      with a pulse on the key between steps 3 and 4. */
  function PinsBefore(step: nat): Pins {
    if step <= 1 then Pins(false, true, false) else if step == 4 then POWERED.(key := true) else POWERED
  }

  /** The pins in every state: a power cycle in RESET, and power everywhere else. */
  predicate PinsFollow(g: Gsm) {
    var m := g.manager;
    if m.state.GsmReset? then g.pins == PinsBefore(m.powerStep) else m.powerStep == 0 && g.pins == POWERED
  }

  predicate PowerRests(g: Gsm) {
    PowerLog(g) && PinsFollow(g) && g.manager.powerStep <= 7
  }

  /** Nothing but a poll touches the power history. */
  predicate SamePower(g: Gsm, r: Gsm) {
    && r.history.power == g.history.power && r.history.polledAt == g.history.polledAt
    && r.manager.powerStep == g.manager.powerStep && r.manager.lastTick == g.manager.lastTick
  }

  lemma PppEventsPins(g: Gsm, codes: seq<int>, now: nat)
    requires WellFormedGsm(g) && PinsFollow(g) && !g.manager.state.GsmReset?
    ensures PinsFollow(PppEvents(g, codes, now)) && SamePower(g, PppEvents(g, codes, now))
    ensures PppEvents(g, codes, now).manager.state == g.manager.state
            || PppEvents(g, codes, now).manager.state.GsmReopenPpp?
  {
    hide PppEvents;
    PppEventsExact(g, codes, now);
  }

  lemma ConfigurePins(g: Gsm, event: Event, reply: string, now: nat)
    requires WellFormedGsm(g) && PinsFollow(g) && !g.manager.state.GsmReset?
    ensures PinsFollow(Configure(g, event, reply, now))
    ensures SamePower(g, Configure(g, event, reply, now))
    ensures Configure(g, event, reply, now).manager.state.GsmPowerOn? ==> g.manager.state.GsmPowerOn?
  {
    hide Decide;
  }

  lemma OpenPppPins(g: Gsm, event: Event, reply: string, codes: seq<int>, now: nat)
    requires WellFormedGsm(g) && PinsFollow(g) && MayCall(g) && g.engine.callback.OpenPppStack?
    ensures PinsFollow(OpenPpp(g, event, reply, codes, now))
    ensures SamePower(g, OpenPpp(g, event, reply, codes, now))
    ensures OpenPpp(g, event, reply, codes, now).manager.state.GsmPowerOn? ==> g.manager.state.GsmPowerOn?
  {
    hide PppEvents, DialCommand, Contains;
    if g.manager.step == 4 {
      var up := ChangeState(InPppMode(g), GsmOk, now);
      PppEventsPins(up.(manager := up.manager.(block := InUse)), codes, now);
    }
  }

  lemma CallBackPins(g: Gsm, event: Event, reply: string, codes: seq<int>, now: nat)
    requires WellFormedGsm(g) && PinsFollow(g) && MayCall(g)
    ensures PinsFollow(CallBack(g, event, reply, codes, now))
    ensures SamePower(g, CallBack(g, event, reply, codes, now))
    ensures CallBack(g, event, reply, codes, now).manager.state.GsmPowerOn? ==> g.manager.state.GsmPowerOn?
  {
    hide Configure, OpenPpp;
    var counted := Counted(g);
    match g.engine.callback
    case NoCallback =>
    case ConfigModule => ConfigurePins(counted, event, reply, now);
    case OpenPppStack => OpenPppPins(counted, event, reply, codes, now);
  }

  lemma MatchPhasePins(g: Gsm, env: RunEnv)
    requires WellFormedGsm(g) && PinsFollow(g) && Coherent(g)
    ensures PinsFollow(MatchPhase(g, env)) && SamePower(g, MatchPhase(g, env))
    ensures MatchPhase(g, env).manager.state.GsmPowerOn? ==> g.manager.state.GsmPowerOn?
  {
    hide CallBack, Matches;
    if g.engine.retry > 0 && g.engine.newData {
      var e := g.engine.(newData := false);
      if Matches(e) {
        var done := Completed(e, env.replied);
        CallBackPins(g.(engine := done), EventOk, CStr(done.buffer), env.okCodes, env.replied);
      }
    }
  }

  lemma TimeoutPhasePins(g: Gsm, env: RunEnv)
    requires WellFormedGsm(g) && PinsFollow(g) && Coherent(g)
    ensures PinsFollow(TimeoutPhase(g, env)) && SamePower(g, TimeoutPhase(g, env))
    ensures TimeoutPhase(g, env).manager.state.GsmPowerOn? ==> g.manager.state.GsmPowerOn?
  {
    hide CallBack;
    if Expired(g.engine, env.checked) {
      var e := Decremented(g.engine);
      if e.retry == 0 {
        CallBackPins(g.(engine := GivenUp(e, env.acted)), EventTimeout, env.nullText, env.timeoutCodes, env.acted);
      }
    }
  }

  lemma RunPower(g: Gsm, env: RunEnv)
    requires WellFormedGsm(g) && PowerRests(g) && Resting(g) && InOrder(env, g.history.clock)
    ensures PowerRests(HwRun(g, env)) && HwRun(g, env).history.power == g.history.power
    ensures HwRun(g, env).manager.state.GsmPowerOn? ==> g.manager.state.GsmPowerOn?
  {
    hide MatchPhase, TimeoutPhase;
    var polled := Polled(g, env.entered);
    MatchPhasePins(polled, env);
    MatchPhaseCoherent(polled, env);
    TimeoutPhasePins(MatchPhase(polled, env), env);
  }

  /** One poll runs at most one power step, and only in RESET. */
  lemma PollShape(g: Gsm, now: nat)
    requires WellFormedGsm(g) && g.manager.powerStep <= 7
    ensures var r, ran := Poll(g, now), Sub32(Tick(now), g.manager.lastTick) >= 1000 && g.manager.state.GsmReset?;
            && r.history.power == (if ran then g.history.power + [PowerPoll(g.manager.powerStep, now)]
                                   else g.history.power)
            && r.manager.powerStep == (if ran then (g.manager.powerStep + 1) % 8 else g.manager.powerStep)
            && (if ran && g.manager.powerStep == 7 then r.manager.state.GsmPowerOn?
                else r.manager.state == g.manager.state)
            && r.pins == (if ran then PowerPins(g.manager.powerStep, g.pins) else g.pins)
  {
    hide Arm, Reset;
  }

  lemma PollClock(g: Gsm, now: nat)
    requires WellFormedGsm(g) && PowerLog(g) && g.history.clock <= now
    ensures Poll(g, now).history.clock == now
    ensures Poll(g, now).manager.lastTick == Tick(Poll(g, now).history.polledAt)
    ensures Poll(g, now).history.polledAt <= now
    ensures Poll(g, now).history.polledAt
            == (if Sub32(Tick(now), g.manager.lastTick) >= 1000 then now else g.history.polledAt)
    ensures Sub32(Tick(now), g.manager.lastTick) >= 1000 ==> now >= g.history.polledAt + 1000
  {
    hide Arm, Reset;
    ElapsedModulo(g.history.polledAt, now);
  }

  lemma PollPower(g: Gsm, now: nat)
    requires WellFormedGsm(g) && PowerRests(g) && g.history.clock <= now
    ensures PowerRests(Poll(g, now))
    ensures Poll(g, now).history.power == g.history.power
            || Poll(g, now).history.power == g.history.power + [PowerPoll(g.manager.powerStep, now)]
    ensures Poll(g, now).manager.state.GsmPowerOn? && !g.manager.state.GsmPowerOn?
            <==> Poll(g, now).history.power != g.history.power && g.manager.powerStep == 7
  {
    hide Poll;
    PollShape(g, now);
    PollClock(g, now);
  }

  /** Whatever step is taken, the power history only grows by one poll of the next step, and
      POWER_ON is entered exactly by a poll of step 7. */
  lemma NextPower(g: Gsm, step: Step)
    requires WellFormedGsm(g) && PowerRests(g) && Resting(g) && Enabled(g, step)
    ensures PowerRests(Next(g, step))
    ensures var p, r := g.history.power, Next(g, step).history.power;
            r == p || (step.PollStep? && r == p + [PowerPoll(|p| % 8, step.now)])
    ensures Next(g, step).manager.state.GsmPowerOn? && !g.manager.state.GsmPowerOn?
            <==> Next(g, step).history.power != g.history.power && |g.history.power| % 8 == 7
  {
    hide HwRun, Poll, PppEvents, Store;
    match step
    case RunStep(env) => RunPower(g, env);
    case PollStep(now) => PollPower(g, now);
    case PppStep(codes, now) => PppEventsPins(g, codes, now);
    case UartStep(_) =>
    case PhaseStep(_) =>
  }

  /** The eight polls of one power cycle: steps 0 to 7 in order, over at least 7000 ms. */
  lemma {:induction false} CycleSpansSevenSeconds(p: seq<PowerPoll>, first: nat, n: nat)
    requires first + n < |p|
    requires forall i | 0 < i < |p| :: p[i].at >= p[i - 1].at + 1000
    ensures p[first + n].at >= p[first].at + 1000 * n
  {
    if n > 0 {
      CycleSpansSevenSeconds(p, first, n - 1);
    }
  }
}
