/** Where each callback leads, from the reply alone, and when the link comes up. */
module Outcomes {
  import opened CStrings
  import opened Replies
  import opened ReplyReaders
  import opened AtEngine
  import opened Lifecycle
  import opened ReplyMatch
  import opened BringUp
  import opened Coherence
  import opened EngineSafety
  import opened PowerCycle
  import opened BringUpCost
  import opened Deliveries
  import opened Traces
  import opened Runs
  import opened Chain

  /** The configuration chain gives up: no answer to the first command, an unreadable IMEI, or no
      answer about the signal. */
  predicate GivesUp(g: Gsm, event: Event, reply: string) {
    match g.manager.step
    case 1 => event.EventTimeout?
    case 10 => |g.ids.moduleImei| < 14 && |Digits(reply)| < 15
    case 23 => event.EventTimeout?
    case _ => false
  }

  /** The CCID known after step 12. */
  function CcidAfter(g: Gsm, reply: string): string {
    if |g.ids.ccid| < 10 then CcidText(reply, 20) else g.ids.ccid
  }

  /** The reply is not usable and its command is sent again. */
  ghost predicate AsksAgain(g: Gsm, event: Event, reply: string)
    requires WellFormedGsm(g)
  {
    match g.manager.step
    case 11 => |Digits(reply)| < 15
    case 12 => |CcidAfter(g, reply)| < 10 && g.manager.ccidRetries < 2
    case 19 => event.EventOk? && !Registered(reply)
    case 20 => event.EventOk? && |CStr(OperatorBuffer(reply, g.ids.operatorBuffer))| < 5
    case 23 => event.EventOk? && SignalStrength(reply) == 99
    case _ => false
  }

  /** The interval that a callback leaves behind. */
  function IntervalAfter(step: nat, again: bool, event: Event, before: nat): nat {
    match step
    case 12 => 5
    case 13 => 5
    case 19 => if again then 1000 else before
    case 20 => if again then 1000 else 5
    case 23 => if again then 500 else before
    case 24 => 5
    case _ => before
  }

  /** What becomes of each callback of the configuration chain: a reset, the same question again
      (the signal is asked for from step 22 on), the next step, or the dial chain. */
  lemma ConfigOutcome(g: Gsm, event: Event, reply: string, codes: seq<int>, now: nat)
    requires WellFormedGsm(g) && MayCall(g) && g.engine.callback.ConfigModule?
    ensures var m, r, again := g.manager, CallBack(g, event, reply, codes, now), AsksAgain(g, event, reply);
            && (GivesUp(g, event, reply) <==> r.manager.state.GsmReset?)
            && (GivesUp(g, event, reply) ==> r.manager.step == if m.step == 1 then 1 else 0)
            && (!GivesUp(g, event, reply) ==>
                  && r.manager.state.GsmPowerOn? && Waiting(r.engine)
                  && r.manager.step == (if again then if m.step == 23 then 22 else m.step
                                        else if m.step == 24 then 1 else m.step + 1)
                  && r.engine.callback == (if m.step == 24 then OpenPppStack else ConfigModule)
                  && r.manager.ccidRetries == m.ccidRetries + (if m.step == 12 && again then 1 else 0)
                  && r.engine.pollInterval == IntervalAfter(m.step, again, event, g.engine.pollInterval))
  {
    hide Decide;
    var counted := Counted(g);
    RegisteredIff(reply);
    ReadDigits(reply);
    DecideFits(counted, event, reply);
    DecideValid(counted, event, reply);
    if g.manager.step <= 12 {
      EarlyOutcome(counted, event, reply);
    } else {
      LateOutcome(counted, event, reply);
    }
  }

  ghost predicate OutcomeIs(g: Gsm, event: Event, reply: string, d: Decision)
    requires WellFormedGsm(g)
  {
    var m, again := g.manager, AsksAgain(g, event, reply);
    && (GivesUp(g, event, reply) <==> d.GiveUp?)
    && (GivesUp(g, event, reply) ==> d.lastStep == if m.step == 1 then 1 else 0)
    && (!GivesUp(g, event, reply) ==>
          && d.Proceed?
          && d.step == (if again then if m.step == 23 then 22 else m.step else if m.step == 24 then 1 else m.step + 1)
          && d.command.callback == (if m.step == 24 then OpenPppStack else ConfigModule)
          && d.ccidRetries == m.ccidRetries + (if m.step == 12 && again then 1 else 0)
          && d.interval == IntervalAfter(m.step, again, event, g.engine.pollInterval))
  }

  lemma EarlyOutcome(g: Gsm, event: Event, reply: string)
    requires WellFormedGsm(g) && 1 <= g.manager.step <= 12
    ensures OutcomeIs(g, event, reply, Decide(g, event, reply))
  {
    hide ImeiText, CcidText, OperatorBuffer, SignalStrength, HasAccessTechnology, CStr, ForwardCommand, Digits;
    hide Registered;
    ReadDigits(reply);
  }

  lemma LateOutcome(g: Gsm, event: Event, reply: string)
    requires WellFormedGsm(g) && 13 <= g.manager.step <= 24
    ensures OutcomeIs(g, event, reply, Decide(g, event, reply))
  {
    hide ImeiText, CcidText, OperatorBuffer, SignalStrength, HasAccessTechnology, CStr, ForwardCommand, Digits;
    hide Registered;
    RegisteredIff(reply);
  }

  /** The identity texts after a callback: read at steps 10, 11, 12 and 20, untouched elsewhere. */
  lemma ConfigReads(g: Gsm, event: Event, reply: string, codes: seq<int>, now: nat)
    requires WellFormedGsm(g) && MayCall(g) && g.engine.callback.ConfigModule?
    ensures var s, i, r := g.manager.step, g.ids, CallBack(g, event, reply, codes, now).ids;
            && r.moduleImei == (if s == 10 && |i.moduleImei| < 14 then ImeiText(reply, 16) else i.moduleImei)
            && r.simImei == (if s == 11 then ImeiText(reply, 16) else i.simImei)
            && r.ccid == (if s == 12 then CcidAfter(g, reply) else i.ccid)
            && r.operatorBuffer == (if s == 20 && event.EventOk? then OperatorBuffer(reply, i.operatorBuffer)
                                    else i.operatorBuffer)
  {
    hide Decide;
    var counted := Counted(g);
    DecideFits(counted, event, reply);
    if g.manager.step <= 12 {
      EarlyReads(counted, event, reply);
    } else {
      LateReads(counted, event, reply);
    }
  }

  /** Fourteen digits are too few to go on and enough to be kept: they reset the module, and the
      next time step 10 goes on with them whatever is answered. */
  lemma FourteenDigits(g: Gsm, event: Event, reply: string, codes: seq<int>, now: nat, later: Gsm, next: string)
    requires WellFormedGsm(g) && MayCall(g) && g.engine.callback.ConfigModule?
    requires g.manager.step == 10 && |g.ids.moduleImei| < 14 && |Digits(reply)| == 14
    ensures var r := CallBack(g, event, reply, codes, now);
            && r.manager.state.GsmReset? && |r.ids.moduleImei| == 14
            && (later.ids == r.ids && later.manager.step == 10 ==> !GivesUp(later, event, next))
  {
    ConfigOutcome(g, event, reply, codes, now);
    ConfigReads(g, event, reply, codes, now);
    ReadDigits(reply);
  }

  function IdsAfter(d: Decision, before: Ids): Ids {
    match d
    case Proceed(_, _, _, _, ids, _, _) => ids
    case GiveUp(_, seenIds) => seenIds
    case Unhandled => before
  }

  predicate ReadsAre(g: Gsm, event: Event, reply: string, r: Ids)
    requires WellFormedGsm(g)
  {
    var s, i := g.manager.step, g.ids;
    && r.moduleImei == (if s == 10 && |i.moduleImei| < 14 then ImeiText(reply, 16) else i.moduleImei)
    && r.simImei == (if s == 11 then ImeiText(reply, 16) else i.simImei)
    && r.ccid == (if s == 12 then CcidAfter(g, reply) else i.ccid)
    && r.operatorBuffer == (if s == 20 && event.EventOk? then OperatorBuffer(reply, i.operatorBuffer)
                            else i.operatorBuffer)
  }

  lemma EarlyReads(g: Gsm, event: Event, reply: string)
    requires WellFormedGsm(g) && 1 <= g.manager.step <= 12
    ensures ReadsAre(g, event, reply, IdsAfter(Decide(g, event, reply), g.ids))
  {
    hide ImeiText, CcidText, OperatorBuffer, SignalStrength, HasAccessTechnology, CStr, ForwardCommand;
  }

  lemma LateReads(g: Gsm, event: Event, reply: string)
    requires WellFormedGsm(g) && 13 <= g.manager.step <= 24
    ensures ReadsAre(g, event, reply, IdsAfter(Decide(g, event, reply), g.ids))
  {
    hide ImeiText, CcidText, OperatorBuffer, SignalStrength, HasAccessTechnology, CStr, ForwardCommand;
  }

  /** The dial chain: two commands whatever is answered, then the SIM check, which must be answered
      and must not miss the SIM, and then the dial, which decides about the link. */
  lemma DialOutcome(g: Gsm, event: Event, reply: string, codes: seq<int>, now: nat)
    requires WellFormedGsm(g) && MayCall(g) && g.engine.callback.OpenPppStack?
    requires event.EventOk? ==> g.manager.mode.AtStack?
    ensures var m, r := g.manager, CallBack(g, event, reply, codes, now);
            match m.step
            case 1 => r.manager.state == m.state && r.manager.step == 2 && Waiting(r.engine)
            case 2 => r.manager.state == m.state && r.manager.step == 3 && Waiting(r.engine)
            case 3 =>
              if event.EventOk? && !Contains(reply, "+CPIN: NOT INSERTED")
              then r.manager.state == m.state && r.manager.step == 4 && Waiting(r.engine)
              else r.manager.state.GsmReset?
            case _ =>
              && r.manager.mode.PppStack?
              && (event.EventTimeout? ==>
                    && r.manager.state == m.state && r.manager.step == 3 && Waiting(r.engine)
                    && r.manager.block.NeverMade?)
              && (event.EventOk? ==>
                    if 5 in codes || 6 in codes then r.manager.state.GsmReopenPpp? && r.manager.block.Released?
                    else r.manager.state.GsmOk? && r.manager.block.InUse?)
  {
    hide PppEvents, Contains, Zeros;
    if g.manager.step == 4 {
      var up := ChangeState(InPppMode(Counted(g)), GsmOk, now);
      PppEventsExact(up.(manager := up.manager.(block := InUse)), codes, now);
    }
  }

  // ----- when the link comes up -----

  /** The dial is waiting for the modem. */
  predicate DialPending(g: Gsm) {
    g.engine.timeout > 0 && g.engine.callback.OpenPppStack? && g.manager.step == 4
  }

  lemma MatchMakesBlock(g: Gsm, env: RunEnv)
    requires WellFormedGsm(g) && Resting(g) && g.manager.block.NeverMade?
    ensures var r := MatchPhase(g, env);
            && (!r.manager.block.NeverMade? <==> Delivers(g) && DialPending(g))
            && (!r.manager.block.NeverMade? ==>
                  if 5 in env.okCodes || 6 in env.okCodes then r.manager.state.GsmReopenPpp? && r.engine.retry == 5
                  else r.manager.state.GsmOk?)
  {
    hide CallBack, Matches;
    if g.engine.retry > 0 && g.engine.newData {
      var e := g.engine.(newData := false);
      assert Matches(e) <==> Matches(g.engine) by { SameTests(g.engine, e); }
      if Matches(e) {
        OkOnlyInAtMode(g.(engine := e));
        var done := g.(engine := Completed(e, env.replied));
        OkMakesBlock(done, CStr(done.engine.buffer), env.okCodes, env.replied);
      }
    }
  }

  lemma SameTests(a: Engine, b: Engine)
    requires WellFormed(a) && b == a.(newData := b.newData)
    ensures Matches(a) <==> Matches(b)
  {
  }

  lemma OkMakesBlock(g: Gsm, reply: string, codes: seq<int>, now: nat)
    requires WellFormedGsm(g) && MayCall(g) && g.manager.mode.AtStack?
    ensures var r := CallBack(g, EventOk, reply, codes, now);
            && (!r.manager.block.NeverMade? <==> g.engine.callback.OpenPppStack? && g.manager.step == 4)
            && (!r.manager.block.NeverMade? ==>
                  if 5 in codes || 6 in codes then r.manager.state.GsmReopenPpp? && r.engine.retry == 5
                  else r.manager.state.GsmOk?)
  {
    hide Decide, PppEvents, Contains, Zeros, DialCommand;
    if g.engine.callback.OpenPppStack? && g.manager.step == 4 {
      var up := ChangeState(InPppMode(Counted(g)), GsmOk, now);
      PppEventsExact(up.(manager := up.manager.(block := InUse)), codes, now);
    }
  }

  lemma TimeoutMakesNone(g: Gsm, env: RunEnv)
    requires WellFormedGsm(g) && Coherent(g)
    ensures TimeoutPhase(g, env).manager.block == g.manager.block
    ensures !g.manager.block.NeverMade? && (g.manager.state.GsmOk? || g.engine.retry >= 2) ==>
              TimeoutPhase(g, env).manager == g.manager
  {
    hide Decide, PppEvents, Zeros, DialCommand, Contains;
  }

  /** In every run: with fewer than 256 bytes received since the dial was sent, the link comes up
      exactly when the engine looks, has new data, and the bytes contain "CONNECT"; it is up then
      unless PPP takes it down at once. */
  lemma LinkComesUpIff(steps: seq<Step>, n: nat)
    requires Run(steps) && n < |steps| && steps[n].RunStep? && At(steps, n).manager.block.NeverMade?
    requires |At(steps, n).engine.received| < 256
    ensures var g, r, env := At(steps, n), At(steps, n + 1), steps[n].env;
            && (!r.manager.block.NeverMade?
                <==> DialPending(g) && GateOpen(g.engine, env.entered) && g.engine.newData
                     && Contains(CStr(g.engine.received), "CONNECT"))
            && (!r.manager.block.NeverMade? ==>
                  if 5 in env.okCodes || 6 in env.okCodes
                  then r.manager.state.GsmReopenPpp?
                  else r.manager.state.GsmOk?)
  {
    hide Initial, After, PowerRests, CostRests, MatchPhase, TimeoutPhase, Matches, EngineOk, Enabled;
    AtRests(steps, n);
    ChainInRun(steps, n);
    var g, env := At(steps, n), steps[n].env;
    if GateOpen(g.engine, env.entered) {
      var polled := Polled(g, env.entered);
      PolledRests(g, env.entered);
      RestsMeans(polled);
      MatchMakesBlock(polled, env);
      MatchPhaseCoherent(polled, env);
      TimeoutMakesNone(MatchPhase(polled, env), env);
      SameDelivery(g, env.entered);
    }
    DialWaits(g);
    if DialPending(g) && g.engine.retry > 0 {
      DialMatches(g);
    }
  }

  lemma SameDelivery(g: Gsm, now: nat)
    requires WellFormedGsm(g)
    ensures Delivers(Polled(g, now)) <==> Delivers(g)
  {
  }

  /** By the table, the dial waits for "CONNECT" and for no ending. */
  lemma DialWaits(g: Gsm)
    requires Rests(g) && ChainRests(g)
    ensures DialPending(g) ==> g.engine.wanted == "CONNECT" && g.engine.ending == [] && g.engine.retry > 0
  {
    hide PowerRests, CostRests, Knows, CleanWhileArmed, NoOkAfterPpp, LifeOf, Judge;
  }

  lemma DialMatches(g: Gsm)
    requires WellFormedGsm(g) && EngineRests(g) && g.engine.retry > 0 && |g.engine.received| < 256
    requires g.engine.wanted == "CONNECT" && g.engine.ending == []
    ensures Matches(g.engine) <==> Contains(CStr(g.engine.received), "CONNECT")
  {
    hide Tracks, NoOkAfterPpp, Matches, CStr, Contains;
    MatchIsReply(g.engine);
  }

  // ----- the engine's smaller promises -----

  lemma CallBackKeepsFlag(g: Gsm, event: Event, reply: string, codes: seq<int>, now: nat)
    requires WellFormedGsm(g)
    ensures CallBack(g, event, reply, codes, now).engine.newData == g.engine.newData
  {
    hide Decide, PppEvents, DialCommand, Contains, Zeros;
    if g.engine.callback.OpenPppStack? && g.manager.step == 4 {
      var p := InPppMode(Counted(g));
      var up, m, counted := ChangeState(p, GsmOk, now), p.manager, DialCounted(p);
      PppEventsExact(up.(manager := up.manager.(block := InUse)), codes, now);
      PppEventsExact(counted.(manager := m.(dialRetries := 0)), codes, now);
      PppEventsExact(counted.(manager := m.(dialRetries := m.dialRetries + 1, step := 3)), codes, now);
    }
  }

  /** New data is taken note of once, and only while a command waits. */
  lemma DataIsTakenOnce(g: Gsm, env: RunEnv)
    requires WellFormedGsm(g)
    ensures HwRun(g, env).engine.newData
         == (g.engine.newData && !(GateOpen(g.engine, env.entered) && g.engine.retry > 0))
  {
    hide CallBack, Matches;
    if GateOpen(g.engine, env.entered) {
      var polled := Polled(g, env.entered);
      var done := polled.(engine := Completed(polled.engine.(newData := false), env.replied));
      CallBackKeepsFlag(done, EventOk, CStr(done.engine.buffer), env.okCodes, env.replied);
      var m := MatchPhase(polled, env);
      var over := m.(engine := GivenUp(Decremented(m.engine), env.acted));
      CallBackKeepsFlag(over, EventTimeout, env.nullText, env.timeoutCodes, env.acted);
    }
  }

  /** A buffer reset forgets the reply and the retries but not the timeout: had it hit a waiting
      command, the next overdue run would report one TIMEOUT without sending anything again. */
  lemma ResetLeavesTimeout(g: Gsm, env: RunEnv)
    requires WellFormedGsm(g) && g.engine.timeout > 0
    requires GateOpen(g.engine, env.entered) && Expired(g.engine, env.checked)
    ensures var e := Reset(g.engine);
            var r := HwRun(g.(engine := e), env).engine.log;
            && e.retry == 0 && e.timeout == g.engine.timeout && e.buffer == Zeros(256) && e.index == 0
            && |e.log| < |r| && r[|e.log|] == Called(g.engine.callback, EventTimeout, env.acted)
  {
    hide CallBack, Matches;
    var reset := g.(engine := Reset(g.engine));
    var polled := Polled(reset, env.entered);
    var over := polled.(engine := GivenUp(Decremented(polled.engine), env.acted));
    CallBackSilent(over, EventTimeout, env.nullText, env.timeoutCodes, env.acted);
    assert MatchPhase(polled, env) == polled;
    assert over.engine.log[|reset.engine.log|] == Called(g.engine.callback, EventTimeout, env.acted);
  }

  /** PPP counts as connected from the first running phase of a link until the link goes down. */
  lemma ConnectedIff(steps: seq<Step>, n: nat)
    requires Run(steps) && n < |steps|
    ensures At(steps, n + 1).manager.pppConnected
        <==> At(steps, n + 1).manager.state.GsmOk?
             && (At(steps, n).manager.pppConnected || steps[n] == PhaseStep(true))
  {
    hide Initial, After, PowerRests, CostRests, EngineRests, HwRun, PppEvents, Store;
    AtRests(steps, n);
    AtRests(steps, n + 1);
    var g := At(steps, n);
    match steps[n]
    case RunStep(env) => RunKeepsConnected(g, env);
    case PppStep(codes, now) => PppEventsExact(g, codes, now);
    case PollStep(_) =>
    case UartStep(_) =>
    case PhaseStep(_) =>
  }

  lemma RunKeepsConnected(g: Gsm, env: RunEnv)
    requires Rests(g) && Enabled(g, RunStep(env))
    ensures HwRun(g, env).manager.pppConnected == g.manager.pppConnected
  {
    hide PowerRests, CostRests, EngineOk, MatchPhase, TimeoutPhase;
    if GateOpen(g.engine, env.entered) {
      var polled := Polled(g, env.entered);
      PolledRests(g, env.entered);
      RestsMeans(polled);
      MatchPhaseCoherent(polled, env);
      PhasesKeepConnected(polled, env);
      PhasesKeepConnected(MatchPhase(polled, env), env);
    }
  }

  lemma PhasesKeepConnected(g: Gsm, env: RunEnv)
    requires WellFormedGsm(g) && Coherent(g)
    ensures MatchPhase(g, env).manager.pppConnected == g.manager.pppConnected
    ensures TimeoutPhase(g, env).manager.pppConnected == g.manager.pppConnected
  {
    hide CallBack, Matches;
    if g.engine.timeout > 0 {
      var done := g.(engine := Completed(g.engine.(newData := false), env.replied));
      CallBackConnected(done, EventOk, CStr(done.engine.buffer), env.okCodes, env.replied);
      var over := g.(engine := GivenUp(Decremented(g.engine), env.acted));
      CallBackConnected(over, EventTimeout, env.nullText, env.timeoutCodes, env.acted);
    }
  }

  lemma CallBackConnected(g: Gsm, event: Event, reply: string, codes: seq<int>, now: nat)
    requires WellFormedGsm(g) && !g.manager.pppConnected
    ensures !CallBack(g, event, reply, codes, now).manager.pppConnected
  {
    hide Decide, PppEvents, DialCommand, Contains, Zeros;
    if g.engine.callback.OpenPppStack? && g.manager.step == 4 {
      var p := InPppMode(Counted(g));
      var up, m, counted := ChangeState(p, GsmOk, now), p.manager, DialCounted(p);
      PppEventsExact(up.(manager := up.manager.(block := InUse)), codes, now);
      PppEventsExact(counted.(manager := m.(dialRetries := 0)), codes, now);
      PppEventsExact(counted.(manager := m.(dialRetries := m.dialRetries + 1, step := 3)), codes, now);
    }
  }

  /** Power-up: in RESET at the first power step, off, with nothing sent and nothing known. */
  lemma PowerUp()
    ensures var g := Initial();
            && g.manager.state.GsmReset? && g.manager.step == g.manager.powerStep == g.manager.ready == 0
            && g.manager.mode.AtStack? && g.manager.block.NeverMade? && !g.manager.pppConnected
            && g.manager.dialRetries == g.manager.ccidRetries == 0
            && g.pins == Pins(false, true, false) && g.engine.pollInterval == 5 && !g.engine.newData
            && g.engine.timeout == g.engine.retry == 0 && g.engine.buffer == Zeros(256)
            && g.ids.moduleImei == g.ids.simImei == g.ids.ccid == CStr(g.ids.operatorBuffer) == ""
  {
    hide Tracks;
    assert CStr(Zeros(32)) == [];
  }
}
