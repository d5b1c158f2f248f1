/** How many callbacks bring-up takes, exactly. */
module BringUpCost {
  import opened Words
  import opened CStrings
  import opened Replies
  import opened AtEngine
  import opened BringUp
  import opened Coherence
  import opened EngineSafety

  /** Callbacks already behind a machine that waits at `step` for `callback`, had every reply
      been usable. */
  function Position(callback: Callback, step: nat): int {
    if callback.OpenPppStack? then 24 + step - 1 else step - 1
  }

  function Detours(t: Tally): nat {
    t.b11 + t.b12 + t.b19 + t.b20 + 2 * t.b23 + 2 * t.dials
  }

  /** While the chain runs in POWER_ON, the callbacks so far are the position plus the detours. */
  predicate TallyFits(g: Gsm) {
    g.manager.state.GsmPowerOn? && g.manager.step >= 1 ==>
      g.history.tally.callbacks == Position(g.engine.callback, g.manager.step) + Detours(g.history.tally)
  }

  /** Repeated CCID queries are bounded over the whole life of the program, and a failed dial
      leaves the machine in PPP mode for good. */
  predicate CostRests(g: Gsm) {
    && TallyFits(g)
    && g.history.ccidMisses == g.manager.ccidRetries <= 2
    && (g.history.tally.dials > 0 ==> g.manager.mode.PppStack?)
  }

  /** What a finished chain has cost. */
  predicate PaidInFull(t: Tally) {
    t.callbacks == 28 + t.b11 + t.b12 + t.b19 + t.b20 + 2 * t.b23
  }

  /** A decision moves the position and the detours together by one callback. */
  predicate MovesByOne(g: Gsm, d: Decision) {
    var t := g.history.tally;
    d.Proceed? ==>
      && Position(d.command.callback, d.step) + Detours(d.tally)
         == Position(ConfigModule, g.manager.step) + Detours(t) + 1
      && d.tally.callbacks == t.callbacks && d.tally.dials == t.dials
      && 0 <= d.ccidRetries - g.manager.ccidRetries == d.tally.b12 - t.b12 <= 1
      && (g.manager.ccidRetries <= 2 ==> d.ccidRetries <= 2)
  }

  lemma EarlyDecisions(g: Gsm, event: Event, reply: string)
    requires WellFormedGsm(g) && 1 <= g.manager.step <= 12
    ensures MovesByOne(g, Decide(g, event, reply))
  {
    hide ForwardCommand, ImeiText, CcidText, OperatorBuffer, SignalStrength, HasAccessTechnology, CStr;
  }

  lemma LateDecisions(g: Gsm, event: Event, reply: string)
    requires WellFormedGsm(g) && 13 <= g.manager.step <= 24
    ensures MovesByOne(g, Decide(g, event, reply))
  {
    hide ForwardCommand, ImeiText, CcidText, OperatorBuffer, SignalStrength, HasAccessTechnology, CStr;
  }

  /** Every decision of the configuration chain does. */
  lemma DecideCosts(g: Gsm, event: Event, reply: string)
    requires WellFormedGsm(g) && 1 <= g.manager.step <= 24
    ensures MovesByOne(g, Decide(g, event, reply))
  {
    hide Decide, MovesByOne;
    if g.manager.step <= 12 {
      EarlyDecisions(g, event, reply);
    } else {
      LateDecisions(g, event, reply);
    }
  }

  lemma CountedDetours(g: Gsm)
    requires WellFormedGsm(g) && g.manager.step >= 1
    ensures Detours(Counted(g).history.tally) == Detours(g.history.tally)
    ensures Counted(g) == g.(history := g.history.(tally := Counted(g).history.tally))
    ensures Counted(g).history.tally.callbacks == g.history.tally.callbacks + 1
    ensures Counted(g).history.tally.dials == g.history.tally.dials
  {
  }

  lemma ConfigureCosts(g: Gsm, event: Event, reply: string, now: nat)
    requires WellFormedGsm(g) && MayCall(g) && g.engine.callback.ConfigModule?
    requires CostRests(g) && g.manager.step >= 1
    ensures CostRests(Configure(Counted(g), event, reply, now))
  {
    hide Decide, Counted, Detours, Zeros;
    CountedDetours(g);
    DecideCosts(Counted(g), event, reply);
  }

  lemma PppEventsCosts(g: Gsm, codes: seq<int>, now: nat)
    requires WellFormedGsm(g)
    ensures var r := PppEvents(g, codes, now);
            && r.history.tally == g.history.tally && r.history.ccidMisses == g.history.ccidMisses
            && r.manager.ccidRetries == g.manager.ccidRetries && r.manager.mode == g.manager.mode
            && (r.manager.state.GsmReopenPpp? || r == g)
  {
    hide PppEvents;
    PppEventsExact(g, codes, now);
  }

  lemma DialFailedCosts(g: Gsm, codes: seq<int>, now: nat)
    requires WellFormedGsm(g) && MayCall(g) && g.engine.callback.OpenPppStack? && g.manager.step == 4
    requires CostRests(g)
    ensures CostRests(DialFailed(InPppMode(Counted(g)), codes, now))
    ensures !DialFailed(InPppMode(Counted(g)), codes, now).manager.state.GsmOk?
  {
    hide PppEvents;
  }

  lemma OpenPppCosts(g: Gsm, event: Event, reply: string, codes: seq<int>, now: nat)
    requires WellFormedGsm(g) && MayCall(g) && g.engine.callback.OpenPppStack?
    requires CostRests(g) && g.manager.step >= 1
    ensures var r := OpenPpp(Counted(g), event, reply, codes, now);
            && CostRests(r)
            && (r.manager.state.GsmOk? ==>
                  event.EventOk? && g.manager.step == 4 && r.history.tally == Counted(g).history.tally)
  {
    hide PppEvents, Contains, DialFailed;
    if g.manager.step == 4 {
      DialFailedCosts(g, codes, now);
      var up := ChangeState(InPppMode(Counted(g)), GsmOk, now);
      PppEventsCosts(up.(manager := up.manager.(block := InUse)), codes, now);
    }
  }

  lemma CallBackCosts(g: Gsm, event: Event, reply: string, codes: seq<int>, now: nat)
    requires WellFormedGsm(g) && MayCall(g) && CostRests(g)
    requires event.EventOk? ==> g.manager.mode.AtStack?
    ensures CostRests(CallBack(g, event, reply, codes, now))
    ensures CallBack(g, event, reply, codes, now).manager.state.GsmOk? ==> event.EventOk?
    ensures CallBack(g, event, reply, codes, now).manager.state.GsmOk? && g.manager.state.GsmPowerOn? ==>
              PaidInFull(CallBack(g, event, reply, codes, now).history.tally)
  {
    hide Configure, OpenPpp;
    if g.manager.step > 0 {
      if g.engine.callback.ConfigModule? {
        ConfigureCosts(g, event, reply, now);
        ConfigureNotOk(Counted(g), event, reply, now);
      } else {
        OpenPppCosts(g, event, reply, codes, now);
      }
    } else {
      OpenPppIdle(g, event, reply, codes, now);
    }
  }

  lemma ConfigureNotOk(g: Gsm, event: Event, reply: string, now: nat)
    requires WellFormedGsm(g) && !g.manager.state.GsmOk?
    ensures !Configure(g, event, reply, now).manager.state.GsmOk?
  {
    hide Decide;
  }

  lemma OpenPppIdle(g: Gsm, event: Event, reply: string, codes: seq<int>, now: nat)
    requires WellFormedGsm(g) && g.manager.step == 0
    ensures OpenPpp(g, event, reply, codes, now) == g
  {
  }

  lemma MatchPhaseCosts(g: Gsm, env: RunEnv)
    requires WellFormedGsm(g) && Coherent(g) && CostRests(g) && EngineRests(g)
    ensures CostRests(MatchPhase(g, env))
    ensures MatchPhase(g, env).manager.state.GsmOk? && g.manager.state.GsmPowerOn? ==>
              PaidInFull(MatchPhase(g, env).history.tally)
  {
    hide CallBack, Matches, EngineOk;
    if g.engine.retry > 0 && g.engine.newData {
      var e := g.engine.(newData := false);
      if Matches(e) {
        RestsMeans(g);
        OkOnlyInAtMode(g.(engine := e));
        var done := Completed(e, env.replied);
        CallBackCosts(g.(engine := done), EventOk, CStr(done.buffer), env.okCodes, env.replied);
      }
    }
  }

  lemma TimeoutPhaseCosts(g: Gsm, env: RunEnv)
    requires WellFormedGsm(g) && Coherent(g) && CostRests(g)
    ensures CostRests(TimeoutPhase(g, env))
    ensures TimeoutPhase(g, env).manager.state.GsmOk? ==> TimeoutPhase(g, env) == g
  {
    hide CallBack;
    if Expired(g.engine, env.checked) {
      var e := Decremented(g.engine);
      if e.retry == 0 {
        CallBackCosts(g.(engine := GivenUp(e, env.acted)), EventTimeout, env.nullText, env.timeoutCodes, env.acted);
      }
    }
  }

  lemma RunCosts(g: Gsm, env: RunEnv)
    requires WellFormedGsm(g) && Coherent(g) && CostRests(g) && EngineRests(g)
    ensures CostRests(HwRun(g, env))
    ensures HwRun(g, env).manager.state.GsmOk? && g.manager.state.GsmPowerOn? ==>
              PaidInFull(HwRun(g, env).history.tally)
  {
    hide MatchPhase, TimeoutPhase, EngineOk;
    var polled := Polled(g, env.entered);
    PolledRests(g, env.entered);
    RestsMeans(polled);
    MatchPhaseCosts(polled, env);
    MatchPhaseCoherent(polled, env);
    TimeoutPhaseCosts(MatchPhase(polled, env), env);
  }

  lemma PowerStepCosts(g: Gsm, now: nat)
    requires WellFormedGsm(g) && g.manager.state.GsmReset?
    ensures var r := PowerSequence(g, now);
            && (r.manager.state.GsmReset? || (r.manager.state.GsmPowerOn? && r.manager.step == 0))
            && r.manager.mode == g.manager.mode && r.manager.ccidRetries == g.manager.ccidRetries
            && r.history.tally == g.history.tally && r.history.ccidMisses == g.history.ccidMisses
  {
    hide Reset;
  }

  lemma FirstArmed(e: Engine, now: nat)
    ensures Arm(e, FIRST_COMMAND, now).callback == ConfigModule
  {
  }

  lemma PollCosts(g: Gsm, now: nat)
    requires WellFormedGsm(g) && CostRests(g)
    ensures CostRests(Poll(g, now))
    ensures Poll(g, now).manager.state.GsmOk? ==> g.manager.state.GsmOk?
  {
    hide Arm, PowerSequence, Tick, Sub32;
    FirstArmed(g.engine, now);
    var polled := g.(manager := g.manager.(lastTick := Tick(now)),
                     history := g.history.(clock := now, polledAt := now));
    if g.manager.state.GsmReset? {
      PowerStepCosts(polled.(manager := polled.manager.(ready := 0)), now);
    }
  }

  /** Bring-up cost: the step that takes the chain from POWER_ON to OK finds that exactly
      28 + b11 + b12 + b19 + b20 + 2 * b23 callbacks were delivered since the first command. */
  lemma NextCosts(g: Gsm, step: Step)
    requires WellFormedGsm(g) && Coherent(g) && CostRests(g) && EngineRests(g)
    ensures CostRests(Next(g, step))
    ensures Next(g, step).manager.state.GsmOk? && g.manager.state.GsmPowerOn? ==>
              PaidInFull(Next(g, step).history.tally)
  {
    hide HwRun, PppEvents, Poll, Store, EngineRests, Coherent, PaidInFull;
    match step
    case RunStep(env) => RunCosts(g, env);
    case PppStep(codes, now) => PppEventsCosts(g, codes, now);
    case PollStep(now) => PollCosts(g, now);
    case UartStep(_) =>
    case PhaseStep(_) =>
  }
}
