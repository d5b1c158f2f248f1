/** The chain of commands in literals: what is sent and waited for at every pending step, what the
    machine has learned by then, and where each callback leads. */
module Chain {
  import opened Words
  import opened CStrings
  import opened Replies
  import opened AtEngine
  import opened Lifecycle
  import opened ReplyMatch
  import opened BringUp
  import opened Coherence
  import opened EngineSafety
  import opened PowerCycle
  import opened BringUpCost
  import opened Traces
  import opened Runs

  // ----- the table -----

  predicate Is(c: Command, text: string, wanted: string, ending: string, timeout: nat, retries: nat) {
    c.text == text && c.wanted == wanted && c.ending == ending && c.timeout == timeout && c.retries == retries
  }

  /** The command whose callback runs a step of the configuration chain. Steps 11, 20 and 22 may
      also follow a reply that had to be asked for again. */
  predicate ConfigRow(step: nat, c: Command) {
    match step
    case 1 => Is(c, "ATV1\r\n", "OK\r\n", "", 1000, 30)
    case 2 => Is(c, "ATE0\r\n", "OK\r\n", "", 1000, 10)
    case 3 => Is(c, "AT+CMEE=2\r\n", "OK\r\n", "", 1000, 10)
    case 4 => Is(c, "ATI\r\n", "OK\r\n", "", 1000, 10)
    case 5 => Is(c, "AT\r\n", "OK\r\n", "", 1000, 10)
    case 6 => Is(c, "AT+QCFG=\"urc/ri/smsincoming\",\"pulse\",2000\r\n", "OK\r\n", "", 1000, 10)
    case 7 => Is(c, "AT+CNMI=2,1,0,0,0\r\n", "", "OK\r\n", 1000, 10)
    case 8 => Is(c, "AT+CMGF=1\r\n", "", "OK\r\n", 1000, 10)
    case 9 => Is(c, "AT\r\n", "OK\r\n", "", 1000, 5)
    case 10 => Is(c, "AT+CGSN\r\n", "", "OK\r\n", 1000, 5)
    case 11 => Is(c, "AT+CIMI\r\n", "OK\r\n", "", 1000, 5) || Is(c, "AT+CGSN\r\n", "", "OK\r\n", 1000, 5)
    case 12 => Is(c, "AT+QCCID\r\n", "QCCID", "OK\r\n", 1000, 3)
    case 13 => Is(c, "AT+CPIN?\r\n", "READY\r\n", "", 3000, 3)
    case 14 => Is(c, "AT+QIDEACT=1\r\n", "OK\r\n", "", 3000, 1)
    case 15 => Is(c, "AT+QCFG=\"nwscanmode\",0\r\n", "OK\r\n", "", 5000, 2)
    case 16 => Is(c, "AT+CGDCONT=1,\"IP\",\"v-internet\"\r\n", "", "OK\r\n", 1000, 2)
    case 17 => Is(c, "AT+QIACT=1\r\n", "OK\r\n", "", 5000, 5)
    case 18 => Is(c, "AT+CGREG=2\r\n", "OK\r\n", "", 1000, 3)
    case 19 => Is(c, "AT+CGREG?\r\n", "OK\r\n", "", 1000, 2)
    case 20 => Is(c, "AT+COPS?\r\n", "OK\r\n", "", 2000, 2) || Is(c, "AT+COPS?\r\n", "OK\r\n", "", 1000, 3)
    case 21 => Is(c, "AT\r\n", "OK\r\n", "", 1000, 3)
    case 22 => Is(c, "AT+CCLK?\r\n", "+CCLK:", "OK\r\n", 1000, 5) || Is(c, "AT+CSQ\r\n", "OK\r\n", "", 1000, 3)
    case 23 => Is(c, "AT+CSQ\r\n", "", "OK\r\n", 1000, 2)
    case 24 => Is(c, "AT\r\n", "OK\r\n", "", 2000, 1)
    case _ => false
  }

  /** The same for the dial chain: it starts from the configuration chain or from a reopening, and
      a dial that failed waits at step 3 once more. */
  predicate DialRow(state: State, step: nat, c: Command) {
    match step
    case 1 =>
      if state.GsmReopenPpp? then Is(c, "ATV1\r\n", "OK\r\n", "", 1000, 5) else Is(c, "AT\r\n", "OK\r\n", "", 2000, 1)
    case 2 => Is(c, "AT+CSQ\r\n", "OK\r\n", "", 1000, 2)
    case 3 =>
      || Is(c, "AT+CPIN?\r\n", "OK\r\n", "", 1000, 5)
      || (state.GsmPowerOn? && Is(c, "ATV1\r\n", "OK\r\n", "", 1000, 5))
    case 4 => state.GsmPowerOn? && Is(c, "ATD*99***1#\r\n", "CONNECT", "", 1000, 10)
    case _ => false
  }

  predicate Row(m: Manager, c: Command) {
    match c.callback
    case NoCallback => false
    case ConfigModule => m.state.GsmPowerOn? && ConfigRow(m.step, c)
    case OpenPppStack => DialRow(m.state, m.step, c)
  }

  /** The waiting command is the one of the table. */
  predicate CommandFits(g: Gsm) {
    var life := LifeOf(g.engine.log);
    life.Live? ==> Row(g.manager, life.command)
  }

  // ----- what is known by then -----

  /** How far bring-up has come: the pending configuration step, 25 in the dial chain, 29 behind it. */
  function Reached(m: Manager, callback: Callback): nat {
    match m.state
    case GsmOk => 29
    case GsmReopenPpp => 29
    case GsmReset => 0
    case GsmPowerOn => if m.step == 0 then 0 else if callback.ConfigModule? then m.step else 25
  }

  predicate IdsFit(ids: Ids, ccidRetries: nat, reached: nat) {
    && AllDigits(ids.moduleImei) && |ids.moduleImei| <= 15
    && AllDigits(ids.simImei) && |ids.simImei| <= 15
    && AllDigits(ids.ccid) && |ids.ccid| <= 19
    && (reached > 10 ==> |ids.moduleImei| >= 14)
    && (reached > 11 ==> |ids.simImei| == 15)
    && (reached > 12 ==> |ids.ccid| >= 10 || ccidRetries == 2)
  }

  /** The engine looks every 5 ms, but every second while it waits for the network and every half
      second from an unknown signal strength on. */
  predicate IntervalFits(interval: nat, reached: nat) {
    if reached <= 12 then interval == 5 || interval == 500
    else if 19 <= reached <= 20 then interval == 5 || interval == 1000
    else if 22 <= reached <= 24 then interval == 5 || interval == 500
    else interval == 5
  }

  /** gsm_ready: 0 while powering on and configuring, 1 while dialling, 2 with a link. */
  predicate ReadyFits(m: Manager, reached: nat) {
    if m.state.GsmReset? then m.ready <= 2 && (m.powerStep > 0 ==> m.ready == 0)
    else m.powerStep == 0 && m.ready == (if reached == 29 then 2 else if reached == 25 then 1 else 0)
  }

  predicate Knows(g: Gsm) {
    var reached := Reached(g.manager, g.engine.callback);
    && IdsFit(g.ids, g.manager.ccidRetries, reached)
    && IntervalFits(g.engine.pollInterval, reached)
    && ReadyFits(g.manager, reached)
  }

  predicate ChainRests(g: Gsm) {
    CommandFits(g) && Knows(g)
  }

  // ----- every step keeps the table -----

  /** What the readers leave behind is digits. */
  lemma ReadDigits(reply: string)
    ensures AllDigits(ImeiText(reply, 16)) && |ImeiText(reply, 16)| <= 15
    ensures |ImeiText(reply, 16)| == if |Digits(reply)| < 15 then |Digits(reply)| else 15
    ensures AllDigits(CcidText(reply, 20)) && |CcidText(reply, 20)| <= 19
  {
    hide StrStr;
  }

  /** Every decision sends the command of the table and has learned what the next step relies on. */
  predicate DecisionFits(g: Gsm, d: Decision) {
    match d
    case Proceed(command, step, interval, ready, ids, ccidRetries, _) =>
      var dial := command.callback.OpenPppStack?;
      var reached := if dial then 25 else step;
      && (if dial then step == 1 && DialRow(GsmPowerOn, step, command)
          else command.callback.ConfigModule? && ConfigRow(step, command))
      && IdsFit(ids, ccidRetries, reached) && IntervalFits(interval, reached)
      && ready == (if dial then 1 else 0)
    case GiveUp(_, seenIds) =>
      IdsFit(seenIds, g.manager.ccidRetries, 0) && IntervalFits(g.engine.pollInterval, 0)
    case Unhandled => false
  }

  lemma EarlyFits(g: Gsm, event: Event, reply: string)
    requires WellFormedGsm(g) && 1 <= g.manager.step <= 6 && g.manager.ccidRetries <= 2
    requires IdsFit(g.ids, g.manager.ccidRetries, g.manager.step) && g.manager.ready == 0
    requires IntervalFits(g.engine.pollInterval, g.manager.step)
    ensures DecisionFits(g, Decide(g, event, reply))
  {
    hide ImeiText, CcidText, OperatorBuffer, SignalStrength, HasAccessTechnology, CStr, ShortText, AllDigits;
  }

  lemma MiddleFits(g: Gsm, event: Event, reply: string)
    requires WellFormedGsm(g) && 7 <= g.manager.step <= 17 && g.manager.ccidRetries <= 2
    requires IdsFit(g.ids, g.manager.ccidRetries, g.manager.step) && g.manager.ready == 0
    requires IntervalFits(g.engine.pollInterval, g.manager.step)
    ensures DecisionFits(g, Decide(g, event, reply))
  {
    hide ImeiText, CcidText, OperatorBuffer, SignalStrength, HasAccessTechnology, CStr, ShortText, AllDigits;
    ReadDigits(reply);
  }

  lemma LateFits(g: Gsm, event: Event, reply: string)
    requires WellFormedGsm(g) && 18 <= g.manager.step <= 24 && g.manager.ccidRetries <= 2
    requires IdsFit(g.ids, g.manager.ccidRetries, g.manager.step) && g.manager.ready == 0
    requires IntervalFits(g.engine.pollInterval, g.manager.step)
    ensures DecisionFits(g, Decide(g, event, reply))
  {
    hide ImeiText, CcidText, OperatorBuffer, SignalStrength, HasAccessTechnology, CStr, ShortText, AllDigits;
  }

  /** The engine and the machine at the moment of a call. */
  predicate CallFits(g: Gsm, clock: nat) {
    MayCall(g) && Tracks(g.engine, clock) && Knows(g)
  }

  lemma ArmedRow(e: Engine, c: Command, clock: nat, now: nat)
    requires Tracks(e, clock) && e.timeout == 0 && ValidCommand(c) && clock <= now
    ensures LifeOf(Arm(e, c, now).log) == Live(c, 1, now)
  {
    ArmTracks(e, c, clock, now);
  }

  lemma ResetIdle(e: Engine, clock: nat)
    requires Tracks(e, clock) && e.timeout == 0
    ensures LifeOf(Reset(e).log).Idle?
  {
    ResetTracks(e, clock);
  }

  lemma ConfigureChain(g: Gsm, event: Event, reply: string, clock: nat, now: nat)
    requires WellFormedGsm(g) && CallFits(g, clock) && clock <= now && g.engine.callback.ConfigModule?
    ensures ChainRests(Configure(g, event, reply, now))
  {
    hide Decide, LifeOf, Judge, ConfigRow, DialRow, IdsFit, IntervalFits, Zeros;
    if g.manager.step <= 6 {
      EarlyFits(g, event, reply);
    } else if g.manager.step <= 17 {
      MiddleFits(g, event, reply);
    } else {
      LateFits(g, event, reply);
    }
    DecideValid(g, event, reply);
    DecideFits(g, event, reply);
    match Decide(g, event, reply)
    case Proceed(command, _, interval, _, _, _, _) =>
      ArmedRow(g.engine.(pollInterval := interval), command, clock, now);
    case GiveUp(_, _) => ResetIdle(g.engine, clock);
    case Unhandled =>
  }

  lemma DialRows(state: State, step: nat)
    requires 1 <= step <= 3 && (step == 3 ==> state.GsmPowerOn?)
    ensures DialRow(state, step + 1, DialCommand(step)) && ValidCommand(DialCommand(step))
    ensures DialCommand(step).callback.OpenPppStack?
  {
    KnownTexts();
  }

  lemma ReopenRows()
    ensures DialRow(GsmReopenPpp, 1, REOPEN_COMMAND) && DialRow(GsmPowerOn, 3, REOPEN_COMMAND)
    ensures ValidCommand(REOPEN_COMMAND) && REOPEN_COMMAND.callback.OpenPppStack?
  {
    KnownTexts();
  }

  /** PPP mode is marked in the log without disturbing the countdown. */
  lemma MarkedTracks(g: Gsm, clock: nat)
    requires WellFormedGsm(g) && Tracks(g.engine, clock)
    ensures Tracks(InPppMode(g).engine, clock)
  {
    MarkTracks(g.engine, clock);
  }

  lemma IdsLater(ids: Ids, ccidRetries: nat)
    ensures IdsFit(ids, ccidRetries, 25) ==> IdsFit(ids, ccidRetries, 29) && IdsFit(ids, ccidRetries, 0)
    ensures IdsFit(ids, ccidRetries, 29) ==> IdsFit(ids, ccidRetries, 0)
    ensures IdsFit(ids, ccidRetries, 0) <==> IdsFit(ids, ccidRetries, 1)
  {
  }

  /** A reopening, from the link's own state. */
  lemma ReopenChain(g: Gsm, clock: nat, now: nat)
    requires WellFormedGsm(g) && g.manager.state.GsmOk? && Tracks(g.engine, clock) && g.engine.timeout == 0
    requires Knows(g) && clock <= now
    ensures ChainRests(ReopenLink(g, now))
  {
    hide LifeOf, Judge, DialRow, IdsFit, Zeros;
    ReopenRows();
    ArmedRow(g.engine, REOPEN_COMMAND, clock, now);
  }

  lemma ConnectedChain(g: Gsm, codes: seq<int>, clock: nat, now: nat)
    requires WellFormedGsm(g) && CallFits(g, clock) && clock <= now
    requires g.engine.callback.OpenPppStack? && g.manager.step == 4
    ensures ChainRests(Connected(InPppMode(g), codes, now))
  {
    hide LifeOf, Judge, DialRow, IdsFit, PppEvents, ReopenLink;
    MarkedTracks(g, clock);
    IdsLater(g.ids, g.manager.ccidRetries);
    var up := ChangeState(InPppMode(g), GsmOk, now);
    var used := up.(manager := up.manager.(block := InUse));
    PppEventsExact(used, codes, now);
    ReopenChain(used, clock, now);
  }

  lemma DialFailedChain(g: Gsm, codes: seq<int>, clock: nat, now: nat)
    requires WellFormedGsm(g) && CallFits(g, clock) && clock <= now
    requires g.engine.callback.OpenPppStack? && g.manager.step == 4
    ensures ChainRests(DialFailed(InPppMode(g), codes, now))
  {
    hide LifeOf, Judge, DialRow, IdsFit, PppEvents, Zeros;
    MarkedTracks(g, clock);
    ReopenRows();
    ArmedRow(InPppMode(g).engine, REOPEN_COMMAND, clock, now);
  }

  lemma OpenPppChain(g: Gsm, event: Event, reply: string, codes: seq<int>, clock: nat, now: nat)
    requires WellFormedGsm(g) && CallFits(g, clock) && clock <= now && g.engine.callback.OpenPppStack?
    requires event.EventOk? ==> g.manager.mode.AtStack?
    ensures ChainRests(OpenPpp(g, event, reply, codes, now))
  {
    hide LifeOf, Judge, DialRow, IdsFit, DialFailed, Connected, Contains, DialCommand, Zeros;
    if g.manager.step == 4 {
      DialFailedChain(g, codes, clock, now);
      ConnectedChain(g, codes, clock, now);
    } else {
      IdsLater(g.ids, g.manager.ccidRetries);
      ResetIdle(g.engine, clock);
      if g.manager.step < 3 || event.EventOk? {
        DialRows(g.manager.state, g.manager.step);
        ArmedRow(g.engine, DialCommand(g.manager.step), clock, now);
      }
    }
  }

  lemma CallBackChain(g: Gsm, event: Event, reply: string, codes: seq<int>, clock: nat, now: nat)
    requires WellFormedGsm(g) && CallFits(g, clock) && clock <= now
    requires event.EventOk? ==> g.manager.mode.AtStack?
    ensures ChainRests(CallBack(g, event, reply, codes, now))
  {
    hide Configure, OpenPpp, Tracks, IdsFit, CommandFits;
    var counted := Counted(g);
    if g.engine.callback.ConfigModule? {
      ConfigureChain(counted, event, reply, clock, now);
    } else {
      OpenPppChain(counted, event, reply, codes, clock, now);
    }
  }

  /** Between two calls, with the engine's own invariant at hand. */
  predicate ChainReady(g: Gsm, clock: nat) {
    && WellFormedGsm(g) && Coherent(g) && EngineCalls(g.engine, g.manager.mode, clock)
    && PppQuiet(g.engine, g.manager.mode) && ChainRests(g)
  }

  lemma MatchPhaseChain(g: Gsm, env: RunEnv, clock: nat)
    requires ChainReady(g, clock) && clock <= env.replied
    ensures ChainRests(MatchPhase(g, env))
  {
    hide CallBack, Matches, CommandFits, IdsFit, Tracks, NoOkAfterPpp, CleanWhileArmed, LifeOf;
    if g.engine.retry > 0 && g.engine.newData {
      var e := g.engine.(newData := false);
      if Matches(e) {
        ReplyCalls(g, env, clock);
        var done := g.(engine := Completed(e, env.replied));
        CallBackChain(done, EventOk, CStr(done.engine.buffer), env.okCodes, env.replied, env.replied);
        var r := CallBack(done, EventOk, CStr(done.engine.buffer), env.okCodes, env.replied);
        SameLog(r, AfterReply(r.engine));
      } else {
        SameLog(g, e);
      }
    }
  }

  /** An engine that differs only in its buffer, flag and gate. */
  lemma SameLog(g: Gsm, e: Engine)
    requires e.log == g.engine.log && e.callback == g.engine.callback && e.pollInterval == g.engine.pollInterval
    ensures ChainRests(g.(engine := e)) <==> ChainRests(g)
  {
  }

  lemma ReplyCalls(g: Gsm, env: RunEnv, clock: nat)
    requires ChainReady(g, clock) && clock <= env.replied && g.engine.retry > 0
    requires Matches(g.engine.(newData := false))
    ensures var done := g.(engine := Completed(g.engine.(newData := false), env.replied));
            CallFits(done, env.replied) && done.manager.mode.AtStack?
  {
    hide Matches, CommandFits, IdsFit, NoOkAfterPpp, CleanWhileArmed, LifeOf, Judge;
    var e := g.engine.(newData := false);
    GateOk(g.engine, false, g.engine.pollInterval, g.engine.lastPoll, clock);
    assert e == g.engine.(newData := false, pollInterval := g.engine.pollInterval, lastPoll := g.engine.lastPoll);
    OkOnlyInAtMode(g.(engine := e));
    CompletedTracks(e, clock, env.replied);
  }

  lemma TimeoutPhaseChain(g: Gsm, env: RunEnv, clock: nat)
    requires ChainReady(g, clock) && clock <= env.checked <= env.acted
    ensures ChainRests(TimeoutPhase(g, env))
  {
    hide CallBack, IdsFit, NoOkAfterPpp, CleanWhileArmed, LifeOf, Judge, Row;
    if Expired(g.engine, env.checked) {
      var e := Decremented(g.engine);
      if e.retry > 0 {
        ResentTracks(g.engine, clock, env.checked, env.acted);
      } else {
        GivenUpTracks(g.engine, clock, env.checked, env.acted);
        var over := g.(engine := GivenUp(e, env.acted));
        CallBackChain(over, EventTimeout, env.nullText, env.timeoutCodes, env.acted, env.acted);
        var r := CallBack(over, EventTimeout, env.nullText, env.timeoutCodes, env.acted);
        SameLog(r, AfterTimeout(r.engine));
      }
    }
  }

  lemma RunChain(g: Gsm, env: RunEnv)
    requires Rests(g) && ChainRests(g) && InOrder(env, g.history.clock)
    ensures ChainRests(HwRun(g, env))
  {
    hide EngineOk, MatchPhase, TimeoutPhase, ChainRests, PowerRests, CostRests;
    if GateOpen(g.engine, env.entered) {
      var polled := Polled(g, env.entered);
      SameLog(g, polled.engine);
      PolledRests(g, env.entered);
      RestsMeans(polled);
      MatchPhaseChain(polled, env, g.history.clock);
      MatchPhaseRests(polled, env);
      MatchPhaseCoherent(polled, env);
      var m := MatchPhase(polled, env);
      TimeoutPhaseChain(m, env, env.replied);
      var r := TimeoutPhase(m, env);
      SameLog(r, r.engine.(lastPoll := Tick(env.left)));
      SameMachine(HwRun(g, env), r.(engine := r.engine.(lastPoll := Tick(env.left))));
    } else {
      SameMachine(HwRun(g, env), g);
    }
  }

  lemma SameMachine(g: Gsm, r: Gsm)
    requires g.engine == r.engine && g.manager == r.manager && g.ids == r.ids
    ensures ChainRests(g) <==> ChainRests(r)
  {
  }

  lemma FirstRow()
    ensures ConfigRow(1, FIRST_COMMAND) && ValidCommand(FIRST_COMMAND) && FIRST_COMMAND.callback.ConfigModule?
  {
    KnownTexts();
  }

  lemma PollChain(g: Gsm, now: nat)
    requires Rests(g) && ChainRests(g) && g.history.clock <= now
    ensures ChainRests(Poll(g, now))
  {
    hide LifeOf, Judge, ConfigRow, DialRow, IdsFit, NoOkAfterPpp, CleanWhileArmed, CostRests, Zeros, Tick, Sub32;
    FirstRow();
    IdsLater(g.ids, g.manager.ccidRetries);
    if g.engine.timeout == 0 {
      ArmedRow(g.engine, FIRST_COMMAND, g.history.clock, now);
      ResetIdle(g.engine, g.history.clock);
    }
  }

  lemma PppChain(g: Gsm, codes: seq<int>, now: nat)
    requires Rests(g) && ChainRests(g) && Enabled(g, PppStep(codes, now))
    ensures ChainRests(Next(g, PppStep(codes, now)))
  {
    hide LifeOf, Judge, CommandFits, IdsFit, NoOkAfterPpp, CleanWhileArmed, PowerRests, CostRests;
    hide PppEvents, ReopenLink;
    PppEventsExact(g, codes, now);
    ReopenChain(g, g.history.clock, now);
    SameMachine(Next(g, PppStep(codes, now)), PppEvents(g, codes, now));
  }

  lemma NextChain(g: Gsm, step: Step)
    requires Rests(g) && ChainRests(g) && Enabled(g, step)
    ensures ChainRests(Next(g, step))
  {
    hide HwRun, Poll, PppEvents, Store, EngineRests, Coherent, PowerRests, CostRests, CommandFits, IdsFit;
    match step
    case RunStep(env) => RunChain(g, env);
    case PollStep(now) => PollChain(g, now);
    case PppStep(codes, now) => PppChain(g, codes, now);
    case UartStep(data) => SameLog(g, Uart(g, data).engine);
    case PhaseStep(_) => PhaseChain(g, Next(g, step));
  }

  lemma PhaseChain(g: Gsm, r: Gsm)
    requires r == g.(manager := g.manager.(pppConnected := r.manager.pppConnected))
    ensures ChainRests(g) <==> ChainRests(r)
  {
  }

  lemma InitialChain()
    ensures ChainRests(Initial())
  {
    hide Zeros;
    InitialTracks();
  }

  lemma {:induction false} ChainInRun(steps: seq<Step>, n: nat)
    requires Run(steps) && n <= |steps|
    ensures ChainRests(At(steps, n))
    decreases n
  {
    hide Next, Enabled, After, Rests, ChainRests;
    if n == 0 {
      StartsInitial(steps);
      InitialChain();
    } else {
      hide Initial;
      ChainInRun(steps, n - 1);
      AtRests(steps, n - 1);
      NextChain(At(steps, n - 1), steps[n - 1]);
    }
  }

  // ----- the results -----

  /** At every moment of every run the waiting command is the one of the table: its text, what it
      waits for, its timeout and the retries it started with. */
  lemma WaitsForTheTable(steps: seq<Step>, n: nat)
    requires Run(steps) && n <= |steps|
    ensures var g := At(steps, n);
            g.engine.timeout > 0 ==>
              && LifeOf(g.engine.log).Live?
              && LifeOf(g.engine.log).command == CommandOf(g.engine, LifeOf(g.engine.log).command.retries)
              && Row(g.manager, LifeOf(g.engine.log).command)
  {
    hide Initial, After, Coherent, PowerRests, CostRests, Row;
    ChainInRun(steps, n);
    AtRests(steps, n);
  }

  /** Nothing past step 10 happens without a module IMEI, nothing past step 11 without a SIM IMSI
      and nothing past step 12 without a CCID or two vain queries; all of them are digits. */
  lemma KnowsItsIdentity(steps: seq<Step>, n: nat)
    requires Run(steps) && n <= |steps|
    ensures var g := At(steps, n);
            var reached := Reached(g.manager, g.engine.callback);
            && AllDigits(g.ids.moduleImei) && AllDigits(g.ids.simImei) && AllDigits(g.ids.ccid)
            && (reached > 10 ==> 14 <= |g.ids.moduleImei| <= 15)
            && (reached > 11 ==> |g.ids.simImei| == 15)
            && (reached > 12 ==> 10 <= |g.ids.ccid| <= 19 || g.manager.ccidRetries == 2)
  {
    hide Initial, After, CommandFits;
    ChainInRun(steps, n);
  }

  /** The poll interval and gsm_ready at every moment of every run. */
  lemma IntervalAndReady(steps: seq<Step>, n: nat)
    requires Run(steps) && n <= |steps|
    ensures var g := At(steps, n);
            var reached := Reached(g.manager, g.engine.callback);
            IntervalFits(g.engine.pollInterval, reached) && ReadyFits(g.manager, reached)
  {
    hide Initial, After, CommandFits;
    ChainInRun(steps, n);
  }
}
