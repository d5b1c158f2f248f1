/** Every step of the machine keeps the engine's log lawful, its buffer clean while armed, and
    PPP traffic away from the matcher. */
module EngineSafety {
  import opened Words
  import opened CStrings
  import opened AtEngine
  import opened Lifecycle
  import opened ReplyMatch
  import opened BringUp
  import opened Coherence

  predicate OkCall(entry: Entry) {
    entry.Called? && entry.event.EventOk?
  }

  predicate PppMarked(log: seq<Entry>) {
    PppModeSet in log
  }

  /** No OK callback follows the callback that set PPP mode. */
  predicate NoOkAfterPpp(log: seq<Entry>) {
    forall i, j | 0 <= i < j < |log| && log[i].PppModeSet? :: !OkCall(log[j])
  }

  predicate EngineOk(e: Engine, clock: nat) {
    WellFormed(e) && Tracks(e, clock) && CleanWhileArmed(e) && Purposeful(e) && NoOkAfterPpp(e.log)
  }

  /** The engine between two calls. */
  predicate EngineRests(g: Gsm) {
    && EngineOk(g.engine, g.history.clock)
    && PppQuiet(g.engine, g.manager.mode)
    && (g.manager.mode.PppStack? <==> PppMarked(g.engine.log))
  }

  lemma RestsMeans(g: Gsm)
    requires WellFormedGsm(g) && EngineRests(g)
    ensures PppQuiet(g.engine, g.manager.mode) && Purposeful(g.engine)
    ensures Coherent(g) ==> Resting(g)
  {
    hide Tracks, CleanWhileArmed, NoOkAfterPpp;
  }

  /** The engine inside a callback: the buffer may still hold the reply. */
  predicate EngineCalls(e: Engine, mode: Mode, clock: nat) {
    EngineOk(e, clock) && (mode.PppStack? <==> PppMarked(e.log))
  }

  lemma ArmOk(e: Engine, c: Command, clock: nat, now: nat)
    requires EngineOk(e, clock) && e.timeout == 0 && ValidCommand(c) && clock <= now
    ensures EngineOk(Arm(e, c, now), now) && (PppMarked(Arm(e, c, now).log) <==> PppMarked(e.log))
  {
    ArmTracks(e, c, clock, now);
    assert Zeros(BUFFER_SIZE) == "" + Zeros(BUFFER_SIZE);
  }

  lemma ResetOk(e: Engine, clock: nat)
    requires EngineOk(e, clock) && e.timeout == 0
    ensures EngineOk(Reset(e), clock) && (PppMarked(Reset(e).log) <==> PppMarked(e.log))
  {
    ResetTracks(e, clock);
  }

  /** The poll gate and the data flag are no concern of the invariant. */
  lemma GateOk(e: Engine, newData: bool, interval: Word, lastPoll: Word, clock: nat)
    requires EngineOk(e, clock)
    ensures EngineOk(e.(newData := newData, pollInterval := interval, lastPoll := lastPoll), clock)
  {
  }

  lemma LaterOk(e: Engine, clock: nat, now: nat)
    requires EngineOk(e, clock) && clock <= now
    ensures EngineOk(e, now)
  {
  }

  lemma ChangeStateCalls(g: Gsm, state: State, clock: nat, now: nat)
    requires WellFormedGsm(g) && EngineCalls(g.engine, g.manager.mode, clock) && clock <= now
    requires g.engine.timeout == 0
    ensures EngineCalls(ChangeState(g, state, now).engine, ChangeState(g, state, now).manager.mode, now)
    ensures ChangeState(g, state, now).manager.mode == g.manager.mode
  {
    hide EngineOk, PppMarked;
    LaterOk(g.engine, clock, now);
    ArmOk(g.engine, REOPEN_COMMAND, clock, now);
    ResetOk(g.engine, now);
  }

  lemma PppEventsCalls(g: Gsm, codes: seq<int>, clock: nat, now: nat)
    requires WellFormedGsm(g) && EngineCalls(g.engine, g.manager.mode, clock) && clock <= now
    requires g.engine.timeout == 0
    ensures EngineCalls(PppEvents(g, codes, now).engine, PppEvents(g, codes, now).manager.mode, now)
    ensures PppEvents(g, codes, now).manager.mode == g.manager.mode
    ensures PppQuiet(g.engine, g.manager.mode) ==>
              PppQuiet(PppEvents(g, codes, now).engine, g.manager.mode)
  {
    hide EngineOk, PppMarked, PppEvents;
    PppEventsExact(g, codes, now);
    LaterOk(g.engine, clock, now);
    ChangeStateCalls(g.(manager := g.manager.(block := Released)), GsmReopenPpp, clock, now);
  }

  lemma ConfigureCalls(g: Gsm, event: Event, reply: string, clock: nat, now: nat)
    requires WellFormedGsm(g) && EngineCalls(g.engine, g.manager.mode, clock) && clock <= now
    requires g.engine.timeout == 0
    ensures EngineCalls(Configure(g, event, reply, now).engine, Configure(g, event, reply, now).manager.mode, now)
    ensures Configure(g, event, reply, now).manager.mode == g.manager.mode
  {
    hide Decide, EngineOk;
    LaterOk(g.engine, clock, now);
    match Decide(g, event, reply)
    case Proceed(command, _, interval, _, _, _, _) =>
      DecideValid(g, event, reply);
      GateOk(g.engine, g.engine.newData, interval, g.engine.lastPoll, clock);
      assert g.engine.(pollInterval := interval)
          == g.engine.(newData := g.engine.newData, pollInterval := interval, lastPoll := g.engine.lastPoll);
      ArmOk(g.engine.(pollInterval := interval), command, clock, now);
    case GiveUp(_, seenIds) => ChangeStateCalls(g.(ids := seenIds), GsmReset, clock, now);
    case Unhandled =>
  }

  lemma InPppModeCalls(g: Gsm, clock: nat)
    requires WellFormedGsm(g) && EngineCalls(g.engine, g.manager.mode, clock)
    ensures EngineCalls(InPppMode(g).engine, InPppMode(g).manager.mode, clock)
  {
    hide Tracks, CleanWhileArmed, NoOkAfterPpp;
    MarkTracks(g.engine, clock);
    MarkKeepsOrder(g.engine.log);
    assert InPppMode(g).engine.log[|g.engine.log|] == PppModeSet;
    assert CleanWhileArmed(Note(g.engine, PppModeSet)) by { MarkKeepsClean(g.engine); }
  }

  lemma MarkKeepsClean(e: Engine)
    requires WellFormed(e) && CleanWhileArmed(e)
    ensures CleanWhileArmed(Note(e, PppModeSet))
  {
  }

  lemma MarkKeepsOrder(log: seq<Entry>)
    requires NoOkAfterPpp(log)
    ensures NoOkAfterPpp(log + [PppModeSet])
  {
  }

  /** A dial that fails finds the retry counter at 0 and no block to close. */
  lemma DialFailedCalls(g: Gsm, codes: seq<int>, clock: nat, now: nat)
    requires WellFormedGsm(g) && EngineCalls(g.engine, g.manager.mode, clock) && clock <= now
    requires g.engine.timeout == 0 && g.manager.dialRetries == 0 && !g.manager.block.InUse?
    ensures EngineCalls(DialFailed(g, codes, now).engine, DialFailed(g, codes, now).manager.mode, now)
    ensures DialFailed(g, codes, now).manager.mode == g.manager.mode
  {
    hide EngineOk, PppMarked, PppEvents;
    ArmOk(g.engine, REOPEN_COMMAND, clock, now);
  }

  lemma OpenPppCalls(g: Gsm, event: Event, reply: string, codes: seq<int>, clock: nat, now: nat)
    requires WellFormedGsm(g) && EngineCalls(g.engine, g.manager.mode, clock) && clock <= now
    requires MayCall(g) && g.engine.callback.OpenPppStack?
    ensures EngineCalls(OpenPpp(g, event, reply, codes, now).engine,
                        OpenPpp(g, event, reply, codes, now).manager.mode, now)
    ensures g.manager.mode.PppStack? ==> OpenPpp(g, event, reply, codes, now).manager.mode.PppStack?
  {
    hide EngineOk, PppMarked, PppEvents, DialFailed;
    LaterOk(g.engine, clock, now);
    if g.manager.step == 4 {
      InPppModeCalls(g, clock);
      if event.EventTimeout? {
        DialFailedCalls(InPppMode(g), codes, clock, now);
      } else {
        var up := ChangeState(InPppMode(g), GsmOk, now);
        ChangeStateCalls(InPppMode(g), GsmOk, clock, now);
        PppEventsCalls(up.(manager := up.manager.(block := InUse)), codes, now, now);
      }
    } else {
      ChangeStateCalls(g, GsmReset, clock, now);
      ArmOk(g.engine, DialCommand(g.manager.step), clock, now);
    }
  }

  lemma CallBackCalls(g: Gsm, event: Event, reply: string, codes: seq<int>, clock: nat, now: nat)
    requires WellFormedGsm(g) && EngineCalls(g.engine, g.manager.mode, clock) && clock <= now
    requires MayCall(g)
    ensures EngineCalls(CallBack(g, event, reply, codes, now).engine,
                        CallBack(g, event, reply, codes, now).manager.mode, now)
    ensures g.manager.mode.PppStack? ==> CallBack(g, event, reply, codes, now).manager.mode.PppStack?
  {
    hide Configure, OpenPpp, EngineOk, PppMarked;
    LaterOk(g.engine, clock, now);
    var counted := Counted(g);
    match g.engine.callback
    case NoCallback =>
    case ConfigModule => ConfigureCalls(counted, event, reply, clock, now);
    case OpenPppStack => OpenPppCalls(counted, event, reply, codes, clock, now);
  }

  /** Delivering OK is sound: it happens in AT mode only, and below 256 received bytes it means
      a complete reply that ends in a NUL inside the buffer. */
  lemma OkIsSound(g: Gsm, clock: nat)
    requires WellFormedGsm(g) && EngineCalls(g.engine, g.manager.mode, clock) && PppQuiet(g.engine, g.manager.mode)
    requires g.engine.retry > 0 && Matches(g.engine)
    ensures g.manager.mode.AtStack?
    ensures |g.engine.received| < BUFFER_SIZE ==>
              && ReplyComplete(g.engine.received, g.engine.wanted, g.engine.ending)
              && Completed(g.engine, clock).buffer == g.engine.buffer
              && CStr(g.engine.buffer) == CStr(g.engine.received)
  {
    hide NoOkAfterPpp, CStr, Contains, Matches, ReplyComplete;
    OkOnlyInAtMode(g);
    if |g.engine.received| < BUFFER_SIZE {
      MatchIsReply(g.engine);
      CStrPadded(g.engine.received, BUFFER_SIZE - |g.engine.received|);
    }
  }

  lemma CompletedOk(g: Gsm, clock: nat, now: nat)
    requires WellFormedGsm(g) && EngineCalls(g.engine, g.manager.mode, clock)
             && PppQuiet(g.engine, g.manager.mode) && clock <= now
    requires g.engine.retry > 0 && Matches(g.engine)
    ensures EngineCalls(g.(engine := Completed(g.engine, now)).engine,
                        g.(engine := Completed(g.engine, now)).manager.mode, now)
  {
    OkIsSound(g, clock);
    CompletedTracks(g.engine, clock, now);
  }

  lemma AfterReplyOk(e: Engine, clock: nat)
    requires EngineOk(e, clock)
    requires e.retry > 0 ==> e.received == []
    ensures EngineOk(AfterReply(e), clock)
  {
  }

  /** After a callback the engine is either idle or freshly armed. */
  predicate FreshOrIdle(e: Engine) {
    e.retry > 0 ==> e.received == [] && e.index == 0 && e.buffer == Zeros(BUFFER_SIZE)
  }

  lemma CallBackFresh(g: Gsm, event: Event, reply: string, codes: seq<int>, now: nat)
    requires WellFormedGsm(g) && g.engine.retry == 0
    ensures FreshOrIdle(CallBack(g, event, reply, codes, now).engine)
  {
    hide Decide, PppEvents, DialCommand;
    if g.engine.callback.OpenPppStack? && g.manager.step == 4 {
      var up := ChangeState(InPppMode(Counted(g)), GsmOk, now);
      PppEventsExact(up.(manager := up.manager.(block := InUse)), codes, now);
    }
  }

  lemma MatchPhaseRests(g: Gsm, env: RunEnv)
    requires WellFormedGsm(g) && EngineRests(g) && Coherent(g) && InOrder(env, g.history.clock)
    ensures EngineCalls(MatchPhase(g, env).engine, MatchPhase(g, env).manager.mode, env.replied)
    ensures PppQuiet(MatchPhase(g, env).engine, MatchPhase(g, env).manager.mode)
    ensures g.manager.mode.PppStack? ==> MatchPhase(g, env).manager.mode.PppStack?
  {
    hide CallBack, Matches, Tracks, NoOkAfterPpp;
    LaterOk(g.engine, g.history.clock, env.replied);
    if g.engine.retry > 0 && g.engine.newData {
      var e := g.engine.(newData := false);
      GateOk(g.engine, false, g.engine.pollInterval, g.engine.lastPoll, env.replied);
      GateOk(g.engine, false, g.engine.pollInterval, g.engine.lastPoll, g.history.clock);
      assert e == g.engine.(newData := false, pollInterval := g.engine.pollInterval, lastPoll := g.engine.lastPoll);
      if Matches(e) {
        CompletedOk(g.(engine := e), g.history.clock, env.replied);
        var done := g.(engine := Completed(e, env.replied));
        CallBackCalls(done, EventOk, CStr(done.engine.buffer), env.okCodes, env.replied, env.replied);
        CallBackFresh(done, EventOk, CStr(done.engine.buffer), env.okCodes, env.replied);
        AfterReplyOk(CallBack(done, EventOk, CStr(done.engine.buffer), env.okCodes, env.replied).engine, env.replied);
      }
    }
  }

  lemma GivenUpOk(e: Engine, clock: nat, checked: nat, now: nat)
    requires EngineOk(e, clock) && clock <= checked <= now && Expired(e, checked) && e.retry <= 1
    ensures EngineOk(GivenUp(Decremented(e), now), now)
    ensures PppMarked(GivenUp(Decremented(e), now).log) <==> PppMarked(e.log)
  {
    GivenUpTracks(e, clock, checked, now);
  }

  lemma ResentOk(e: Engine, clock: nat, checked: nat, now: nat)
    requires EngineOk(e, clock) && clock <= checked <= now && Expired(e, checked) && e.retry >= 2
    ensures EngineOk(Resent(Decremented(e), now), now)
    ensures PppMarked(Resent(Decremented(e), now).log) <==> PppMarked(e.log)
  {
    ResentTracks(e, clock, checked, now);
  }

  lemma AfterTimeoutOk(e: Engine, clock: nat)
    requires EngineOk(e, clock) && FreshOrIdle(e)
    ensures EngineOk(AfterTimeout(e), clock)
  {
    hide NoOkAfterPpp;
    assert e.retry > 0 ==> AfterTimeout(e).buffer == Zeros(BUFFER_SIZE);
  }

  lemma TimeoutPhaseRests(g: Gsm, clock: nat, env: RunEnv)
    requires WellFormedGsm(g) && EngineCalls(g.engine, g.manager.mode, clock) && PppQuiet(g.engine, g.manager.mode)
    requires Coherent(g) && clock <= env.checked <= env.acted
    ensures EngineCalls(TimeoutPhase(g, env).engine, TimeoutPhase(g, env).manager.mode, env.acted)
    ensures PppQuiet(TimeoutPhase(g, env).engine, TimeoutPhase(g, env).manager.mode)
    ensures g.manager.mode.PppStack? ==> TimeoutPhase(g, env).manager.mode.PppStack?
  {
    hide Tracks, NoOkAfterPpp, CallBack;
    LaterOk(g.engine, clock, env.acted);
    if Expired(g.engine, env.checked) {
      var e := Decremented(g.engine);
      if e.retry > 0 {
        ResentOk(g.engine, clock, env.checked, env.acted);
      } else {
        GivenUpOk(g.engine, clock, env.checked, env.acted);
        var over := g.(engine := GivenUp(e, env.acted));
        CallBackCalls(over, EventTimeout, env.nullText, env.timeoutCodes, env.acted, env.acted);
        CallBackFresh(over, EventTimeout, env.nullText, env.timeoutCodes, env.acted);
        AfterTimeoutOk(CallBack(over, EventTimeout, env.nullText, env.timeoutCodes, env.acted).engine, env.acted);
      }
    }
  }

  lemma UartRests(g: Gsm, data: string)
    requires WellFormedGsm(g) && EngineRests(g)
    ensures EngineRests(Uart(g, data))
  {
    if data != [] && g.manager.mode.AtStack? {
      ReceiveKeepsClean(g.engine, data);
    }
  }

  lemma PolledRests(g: Gsm, now: nat)
    requires WellFormedGsm(g) && EngineRests(g)
    ensures EngineRests(Polled(g, now))
  {
    hide EngineOk;
    var e := g.engine;
    GateOk(e, e.newData, e.pollInterval, Tick(now), g.history.clock);
    assert Polled(g, now).engine == e.(newData := e.newData, pollInterval := e.pollInterval, lastPoll := Tick(now));
  }

  lemma RunRests(g: Gsm, env: RunEnv)
    requires WellFormedGsm(g) && EngineRests(g) && Coherent(g) && InOrder(env, g.history.clock)
    ensures EngineRests(HwRun(g, env))
    ensures g.manager.mode.PppStack? ==> HwRun(g, env).manager.mode.PppStack?
  {
    hide EngineOk, MatchPhase, TimeoutPhase;
    LaterOk(g.engine, g.history.clock, env.entered);
    if GateOpen(g.engine, env.entered) {
      var polled := Polled(g, env.entered);
      PolledRests(g, env.entered);
      RestsMeans(polled);
      MatchPhaseRests(polled, env);
      MatchPhaseCoherent(polled, env);
      TimeoutPhaseRests(MatchPhase(polled, env), env.replied, env);
      var e := TimeoutPhase(MatchPhase(polled, env), env).engine;
      LaterOk(e, env.acted, env.left);
      GateOk(e, e.newData, e.pollInterval, Tick(env.left), env.left);
      assert HwRun(g, env).engine
          == e.(newData := e.newData, pollInterval := e.pollInterval, lastPoll := Tick(env.left));
    }
  }

  lemma PollRests(g: Gsm, now: nat)
    requires WellFormedGsm(g) && EngineRests(g) && Coherent(g) && g.history.clock <= now
    ensures EngineRests(Poll(g, now))
    ensures Poll(g, now).manager.mode == g.manager.mode
  {
    hide EngineOk, PppMarked;
    LaterOk(g.engine, g.history.clock, now);
    if g.engine.timeout == 0 {
      ArmOk(g.engine, FIRST_COMMAND, now, now);
      ResetOk(g.engine, now);
    }
  }

  lemma PppRests(g: Gsm, codes: seq<int>, now: nat)
    requires WellFormedGsm(g) && EngineRests(g) && g.engine.timeout == 0 && g.history.clock <= now
    ensures EngineRests(Next(g, PppStep(codes, now)))
    ensures Next(g, PppStep(codes, now)).manager.mode == g.manager.mode
  {
    PppEventsCalls(g, codes, g.history.clock, now);
  }

  /** Every step keeps the log lawful, the armed buffer clean and PPP mode silent. */
  lemma NextRests(g: Gsm, step: Step)
    requires WellFormedGsm(g) && EngineRests(g) && Coherent(g) && Enabled(g, step)
    ensures EngineRests(Next(g, step))
    ensures g.manager.mode.PppStack? ==> Next(g, step).manager.mode.PppStack?
  {
    match step
    case RunStep(env) => RunRests(g, env);
    case PollStep(now) => PollRests(g, now);
    case UartStep(data) => UartRests(g, data);
    case PppStep(codes, now) => PppRests(g, codes, now);
    case PhaseStep(_) =>
  }
}
