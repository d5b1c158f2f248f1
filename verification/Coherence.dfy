/** The bring-up machine and the engine agree: whoever is waiting for a callback is in a state
    that knows what to do with it, every state but OK has something under way, and the PPP
    control block is in use exactly in OK. */
module Coherence {
  import opened Words
  import opened CStrings
  import opened Replies
  import opened AtEngine
  import opened ReplyMatch
  import opened BringUp

  /** A command is waiting for its callback. */
  predicate Waiting(e: Engine) {
    e.retry >= 1 && e.timeout >= 1
  }

  predicate NothingPending(e: Engine) {
    e.retry == 0 && e.timeout == 0
  }

  /** A callback that knows the step it will be called at. */
  predicate Expects(step: nat, callback: Callback) {
    match callback
    case NoCallback => false
    case ConfigModule => 1 <= step <= 24
    case OpenPppStack => 1 <= step <= 4
  }

  /** ... and in PPP mode, where nothing is ever answered, neither chain gets past the step that
      insists on an answer: the first command and the SIM check in front of the dial. */
  predicate Awaits(m: Manager, callback: Callback) {
    Expects(m.step, callback) && (m.mode.PppStack? ==> m.step <= (if callback.OpenPppStack? then 3 else 1))
  }

  /** The retries a command of PPP mode starts with. */
  function PppRetries(m: Manager, callback: Callback): nat {
    if callback.ConfigModule? then 30 else if m.step == 2 then 2 else 5
  }

  /** A command is waiting, with no more retries than it started with in PPP mode. */
  predicate Pending(e: Engine, m: Manager) {
    Waiting(e) && Awaits(m, e.callback) && (m.mode.PppStack? ==> e.retry <= PppRetries(m, e.callback))
  }

  /** The dial, the mode and the block: one dial is ever answered or failed, and the one that
      fails closes a block that was never made. */
  predicate DialFits(m: Manager, h: History) {
    && m.dialRetries == h.strayCloses == (if m.mode.PppStack? && m.block.NeverMade? then 1 else 0)
    && (m.mode.AtStack? ==> m.block.NeverMade?)
  }

  /** Where each state stands between two calls. */
  predicate Coherent(g: Gsm) {
    var e, m := g.engine, g.manager;
    && m.powerStep <= 7 && m.ccidRetries <= 2 && DialFits(m, g.history)
    && (m.block.InUse? <==> m.state.GsmOk?) && (m.pppConnected ==> m.state.GsmOk?)
    && match m.state
       case GsmOk => m.step == 0 && NothingPending(e)
       case GsmReset => m.step <= 1 && NothingPending(e)
       case GsmPowerOn => if m.step == 0 then NothingPending(e) else Pending(e, m)
       case GsmReopenPpp => Pending(e, m) && e.callback.OpenPppStack? && m.block.Released?
  }

  /** The engine is about to call: the command is over and the machine stands where it stood. */
  predicate MayCall(g: Gsm) {
    var e, m := g.engine, g.manager;
    && NothingPending(e) && m.powerStep <= 7 && m.ccidRetries <= 2 && DialFits(m, g.history)
    && Awaits(m, e.callback) && !m.block.InUse? && !m.pppConnected
    && (m.state.GsmPowerOn? || (m.state.GsmReopenPpp? && e.callback.OpenPppStack? && m.block.Released?))
  }

  /** A waiting engine waits for some short text, for less than 2^32 ms. */
  predicate Purposeful(e: Engine) {
    e.timeout > 0 ==>
      e.timeout < TICKS && (e.wanted != [] || e.ending != []) && ShortText(e.wanted) && ShortText(e.ending)
  }

  /** In PPP mode the AT buffer is empty. */
  predicate PppQuiet(e: Engine, mode: Mode)
    requires WellFormed(e)
  {
    mode.PppStack? ==> e.index == 0 && e.buffer[0] == '\0'
  }

  /** A satisfied matcher means AT mode. */
  lemma OkOnlyInAtMode(g: Gsm)
    requires WellFormedGsm(g) && PppQuiet(g.engine, g.manager.mode) && Purposeful(g.engine)
    requires g.engine.timeout > 0 && Matches(g.engine)
    ensures g.manager.mode.AtStack?
  {
    hide Matches;
    if g.manager.mode.PppStack? {
      EmptyNeverMatches(g.engine);
    }
  }

  /** Every command the configuration chain sends can be completed and can run out. */
  lemma DecideValid(g: Gsm, event: Event, reply: string)
    requires WellFormedGsm(g)
    ensures Decide(g, event, reply).Proceed? ==> ValidCommand(Decide(g, event, reply).command)
  {
    hide ForwardCommand, ImeiText, CcidText, OperatorBuffer, SignalStrength, HasAccessTechnology;
  }

  /** The default branch of the configuration switch is never taken from step 1 to 24, and the
      step it moves to is one that the next callback expects. */
  lemma DecideFits(g: Gsm, event: Event, reply: string)
    requires WellFormedGsm(g) && 1 <= g.manager.step <= 24 && g.manager.ccidRetries <= 2
    ensures !Decide(g, event, reply).Unhandled?
    ensures var d := Decide(g, event, reply);
            d.Proceed? ==> Expects(d.step, d.command.callback) && d.ccidRetries <= 2
                           && (d.command.callback.OpenPppStack? ==> d.step == 1)
    ensures var d := Decide(g, event, reply); d.GiveUp? ==> d.lastStep <= 1
    ensures g.manager.step == 1 && event.EventTimeout? ==> Decide(g, event, reply).GiveUp?
  {
    hide ForwardCommand, ImeiText, CcidText, OperatorBuffer, SignalStrength, HasAccessTechnology;
  }

  lemma PppEventsCoherent(g: Gsm, codes: seq<int>, now: nat)
    requires WellFormedGsm(g) && Coherent(g)
    ensures Coherent(PppEvents(g, codes, now))
  {
    hide PppEvents;
    PppEventsExact(g, codes, now);
  }

  lemma ConfigureCoherent(g: Gsm, event: Event, reply: string, now: nat)
    requires WellFormedGsm(g) && MayCall(g) && g.engine.callback.ConfigModule?
    requires event.EventOk? ==> g.manager.mode.AtStack?
    ensures Coherent(Configure(g, event, reply, now))
  {
    hide Decide;
    DecideFits(g, event, reply);
    DecideValid(g, event, reply);
  }

  lemma DialFailedCoherent(g: Gsm, codes: seq<int>, now: nat)
    requires WellFormedGsm(g) && MayCall(g) && g.engine.callback.OpenPppStack? && g.manager.step == 4
    ensures Coherent(DialFailed(InPppMode(g), codes, now))
  {
    hide PppEvents;
  }

  lemma ConnectedCoherent(g: Gsm, codes: seq<int>, now: nat)
    requires WellFormedGsm(g) && MayCall(g) && g.engine.callback.OpenPppStack? && g.manager.step == 4
    ensures Coherent(Connected(InPppMode(g), codes, now))
  {
    hide PppEvents;
    var up := ChangeState(InPppMode(g), GsmOk, now);
    PppEventsCoherent(up.(manager := up.manager.(block := InUse)), codes, now);
  }

  lemma OpenPppCoherent(g: Gsm, event: Event, reply: string, codes: seq<int>, now: nat)
    requires WellFormedGsm(g) && MayCall(g) && g.engine.callback.OpenPppStack?
    requires event.EventOk? ==> g.manager.mode.AtStack?
    ensures Coherent(OpenPpp(g, event, reply, codes, now))
  {
    hide DialFailed, Connected, Contains;
    if g.manager.step == 4 {
      DialFailedCoherent(g, codes, now);
      ConnectedCoherent(g, codes, now);
    }
  }

  lemma CallBackCoherent(g: Gsm, event: Event, reply: string, codes: seq<int>, now: nat)
    requires WellFormedGsm(g) && MayCall(g)
    requires event.EventOk? ==> g.manager.mode.AtStack?
    ensures Coherent(CallBack(g, event, reply, codes, now))
  {
    hide Configure, OpenPpp, Coherent;
    var counted := Counted(g);
    if g.engine.callback.ConfigModule? {
      ConfigureCoherent(counted, event, reply, now);
    } else {
      OpenPppCoherent(counted, event, reply, codes, now);
    }
  }

  /** Between two calls the machine may be called back, and only in AT mode with OK. */
  predicate Resting(g: Gsm)
    requires WellFormedGsm(g)
  {
    Coherent(g) && PppQuiet(g.engine, g.manager.mode) && Purposeful(g.engine)
  }

  lemma MatchPhaseCoherent(g: Gsm, env: RunEnv)
    requires WellFormedGsm(g) && Resting(g)
    ensures Coherent(MatchPhase(g, env))
  {
    hide CallBack, Matches;
    if g.engine.retry > 0 && g.engine.newData {
      var e := g.engine.(newData := false);
      if Matches(e) {
        OkOnlyInAtMode(g.(engine := e));
        var done := Completed(e, env.replied);
        CallBackCoherent(g.(engine := done), EventOk, CStr(done.buffer), env.okCodes, env.replied);
      }
    }
  }

  lemma TimeoutPhaseCoherent(g: Gsm, env: RunEnv)
    requires WellFormedGsm(g) && Coherent(g)
    ensures Coherent(TimeoutPhase(g, env))
  {
    hide CallBack;
    if Expired(g.engine, env.checked) {
      var e := Decremented(g.engine);
      if e.retry == 0 {
        CallBackCoherent(g.(engine := GivenUp(e, env.acted)), EventTimeout, env.nullText, env.timeoutCodes, env.acted);
      }
    }
  }

  lemma RunCoherent(g: Gsm, env: RunEnv)
    requires WellFormedGsm(g) && Resting(g)
    ensures Coherent(HwRun(g, env))
  {
    hide MatchPhase, TimeoutPhase;
    var polled := Polled(g, env.entered);
    MatchPhaseCoherent(polled, env);
    TimeoutPhaseCoherent(MatchPhase(polled, env), env);
  }

  lemma PollCoherent(g: Gsm, now: nat)
    requires WellFormedGsm(g) && Coherent(g)
    ensures Coherent(Poll(g, now))
  {
    hide Tick, Sub32, Zeros;
  }

  lemma NextCoherent(g: Gsm, step: Step)
    requires WellFormedGsm(g) && Resting(g) && Enabled(g, step)
    ensures Coherent(Next(g, step))
  {
    hide HwRun, PppEvents, Poll, Store;
    match step
    case RunStep(env) => RunCoherent(g, env);
    case PppStep(codes, now) => PppEventsCoherent(g, codes, now);
    case PollStep(now) => PollCoherent(g, now);
    case UartStep(_) =>
    case PhaseStep(_) =>
  }

  /** Every poll that is due, whenever it comes, runs the next of the eight power steps in
      RESET and sends the first command at step 0 of POWER_ON. */
  ghost predicate PollActs(g: Gsm)
    requires WellFormedGsm(g)
  {
    forall now: nat | Sub32(Tick(now), g.manager.lastTick) >= 1000 ::
      var m, r := g.manager, Poll(g, now);
      && (m.state.GsmReset? && m.powerStep < 7 ==>
            r.manager.state.GsmReset? && r.manager.powerStep == m.powerStep + 1)
      && (m.state.GsmReset? && m.powerStep == 7 ==>
            r.manager.state.GsmPowerOn? && r.manager.powerStep == 0 && r.manager.step == 0)
      && (m.state.GsmPowerOn? && m.step == 0 ==>
            && r.manager.state.GsmPowerOn? && r.manager.step == 1
            && Waiting(r.engine) && r.engine.callback.ConfigModule?)
  }

  /** Bring-up never stalls: somebody owes every state but OK its next move. */
  ghost predicate UnderWay(g: Gsm)
    requires WellFormedGsm(g)
  {
    var e, m := g.engine, g.manager;
    match m.state
    case GsmPowerOn => if m.step == 0 then PollActs(g) else Waiting(e) && Awaits(m, e.callback)
    case GsmReopenPpp => Waiting(e) && Awaits(m, e.callback)
    case GsmReset => m.powerStep <= 7 && PollActs(g)
    case GsmOk => m.mode.PppStack? && m.block.InUse?
  }

  /** What a pending callback implies about the state. */
  predicate PendingFits(g: Gsm) {
    var e, m := g.engine, g.manager;
    e.timeout > 0 ==>
      && e.retry >= 1
      && match e.callback
         case NoCallback => false
         case ConfigModule => m.state.GsmPowerOn? && 1 <= m.step <= (if m.mode.AtStack? then 24 else 1)
         case OpenPppStack =>
           && 1 <= m.step <= (if m.mode.AtStack? then 4 else 3)
           && (m.state.GsmPowerOn? || m.state.GsmReopenPpp?)
  }

  lemma PollAdvances(g: Gsm)
    requires WellFormedGsm(g) && g.manager.powerStep <= 7
    ensures PollActs(g)
  {
    hide Reset;
  }

  lemma CoherentMeans(g: Gsm)
    requires WellFormedGsm(g) && Coherent(g)
    ensures UnderWay(g) && PendingFits(g)
  {
    hide PollActs;
    PollAdvances(g);
  }
}
