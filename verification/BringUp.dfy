/** The bring-up machine of gsm_data_layer.c on values, with the engine it drives. */
module BringUp {
  import opened Words
  import opened CStrings
  import opened Replies
  import opened AtEngine

  /** The states the machine ever takes; the other values of gsm_state_t are never assigned. */
  datatype State = GsmOk | GsmReset | GsmPowerOn | GsmReopenPpp

  datatype Mode = AtStack | PppStack

  /** What m_ppp_control_block points to: nothing yet, a block that lwIP uses, or one that was
      given back to its pool. */
  datatype Block = NeverMade | InUse | Released

  /** m_gsm_manager, m_ppp_connected, the control block and the function-local statics of the
      data layer. */
  datatype Manager = Manager(
    state: State, step: nat, ready: nat, mode: Mode, pppConnected: bool, block: Block,
    lastTick: Word, powerStep: nat, dialRetries: nat, ccidRetries: nat)

  datatype Pins = Pins(enable: bool, reset: bool, key: bool)

  datatype Ids = Ids(moduleImei: string, simImei: string, ccid: string, operatorBuffer: string)

  /** Callbacks of the configuration and dial chain since POWER_ON left step 0, and the
      unusable replies among them by step; `dials` counts failed dials. */
  datatype Tally = Tally(callbacks: nat, b11: nat, b12: nat, b19: nat, b20: nat, b23: nat, dials: nat)

  datatype PowerPoll = PowerPoll(step: nat, at: nat)

  /** What the machine did, with true times. `ranAt` and `polledAt` are when the two poll gates
      last let a call through; `strayCloses` counts calls of ppp_close without a block. */
  datatype History = History(clock: nat, ranAt: nat, polledAt: nat, power: seq<PowerPoll>,
                             tally: Tally, ccidMisses: nat, strayCloses: nat)

  datatype Gsm = Gsm(engine: Engine, manager: Manager, pins: Pins, ids: Ids, history: History)

  predicate WellFormedGsm(g: Gsm) {
    WellFormed(g.engine) && |g.ids.operatorBuffer| == 32
  }

  const NO_TALLY := Tally(0, 0, 0, 0, 0, 0, 0)

  const REOPEN_COMMAND := Command("ATV1\r\n", "OK\r\n", "", 1000, 5, OpenPppStack)
  const FIRST_COMMAND := Command("ATV1\r\n", "OK\r\n", "", 1000, 30, ConfigModule)

  /** gsm_change_state. */
  function ChangeState(g: Gsm, state: State, now: nat): (r: Gsm)
    requires WellFormedGsm(g)
    ensures WellFormedGsm(r)
  {
    var m := g.manager.(state := state, step := 0);
    match state
    case GsmOk => g.(manager := m.(ready := 2))
    case GsmReset =>
      g.(manager := m, engine := Reset(g.engine), pins := Pins(false, true, false))
    case GsmPowerOn => g.(manager := m, engine := Reset(g.engine))
    case GsmReopenPpp =>
      g.(manager := m.(step := 1, pppConnected := false), engine := Arm(g.engine, REOPEN_COMMAND, now))
  }

  const PPPERR_USER: int := 5
  const PPPERR_CONNECT: int := 6

  /** The PPPERR_USER branch: the block is freed and the link reopened. */
  function ReopenLink(g: Gsm, now: nat): (r: Gsm)
    requires WellFormedGsm(g)
    ensures WellFormedGsm(r)
  {
    ChangeState(g.(manager := g.manager.(block := Released)), GsmReopenPpp, now)
  }

  /** ppp_link_status_cb for one error code; the codes without an effect only print. A lost
      connection is reported by a block in the dead phase, and ppp_close of such a block does
      nothing but report PPPERR_USER. */
  function PppEvent(g: Gsm, code: int, now: nat): (r: Gsm)
    requires WellFormedGsm(g) && g.manager.block.InUse?
    ensures WellFormedGsm(r)
  {
    if code == PPPERR_USER then ReopenLink(g, now)
    else if code == PPPERR_CONNECT then ReopenLink(g.(manager := g.manager.(pppConnected := false)), now)
    else g
  }

  /** What lwIP reports from inside a call or a timer: any codes, as long as there is a block
      to report them through. */
  function PppEvents(g: Gsm, codes: seq<int>, now: nat): (r: Gsm)
    requires WellFormedGsm(g)
    ensures WellFormedGsm(r)
    decreases |codes|
  {
    if codes == [] || !g.manager.block.InUse? then g
    else PppEvents(PppEvent(g, codes[0], now), codes[1..], now)
  }

  predicate Closing(codes: seq<int>) {
    5 in codes || 6 in codes
  }

  /** Whatever PPP reports, it comes down to one of two things: nothing, or one reopening. */
  lemma {:induction false} PppEventsExact(g: Gsm, codes: seq<int>, now: nat)
    requires WellFormedGsm(g)
    ensures PppEvents(g, codes, now)
         == if g.manager.block.InUse? && Closing(codes) then ReopenLink(g, now) else g
    decreases |codes|
  {
    if codes != [] && g.manager.block.InUse? {
      PppEventsExact(PppEvent(g, codes[0], now), codes[1..], now);
    }
  }

  /** ppp_close. Without a block it writes through a pointer to nothing, and what follows is
      undefined; the model counts the call and lets it return. */
  function PppClose(g: Gsm, codes: seq<int>, now: nat): (r: Gsm)
    requires WellFormedGsm(g)
    ensures WellFormedGsm(r)
  {
    if g.manager.block.InUse? then PppEvents(g, codes, now)
    else g.(history := g.history.(strayCloses := g.history.strayCloses + 1))
  }

  function ConfigCommand(text: string, wanted: string, ending: string, timeout: nat, retries: nat): Command {
    Command(text, wanted, ending, timeout, retries, ConfigModule)
  }

  /** The texts that the commands wait for. */
  lemma KnownTexts()
    ensures ShortText("") && ShortText("OK\r\n") && ShortText("QCCID") && ShortText("READY\r\n")
    ensures ShortText("+CCLK:") && ShortText("CONNECT")
  {
  }

  /** The command that the callback at each step sends when the chain moves forward. */
  function ForwardCommand(step: nat): (c: Command)
    requires 1 <= step <= 24
    ensures ValidCommand(c)
    ensures c.callback == if step == 24 then OpenPppStack else ConfigModule
  {
    KnownTexts();
    hide ShortText;
    match step
    case 1 => ConfigCommand("ATE0\r\n", "OK\r\n", "", 1000, 10)
    case 2 => ConfigCommand("AT+CMEE=2\r\n", "OK\r\n", "", 1000, 10)
    case 3 => ConfigCommand("ATI\r\n", "OK\r\n", "", 1000, 10)
    case 4 => ConfigCommand("AT\r\n", "OK\r\n", "", 1000, 10)
    case 5 => ConfigCommand("AT+QCFG=\"urc/ri/smsincoming\",\"pulse\",2000\r\n", "OK\r\n", "", 1000, 10)
    case 6 => ConfigCommand("AT+CNMI=2,1,0,0,0\r\n", "", "OK\r\n", 1000, 10)
    case 7 => ConfigCommand("AT+CMGF=1\r\n", "", "OK\r\n", 1000, 10)
    case 8 => ConfigCommand("AT\r\n", "OK\r\n", "", 1000, 5)
    case 9 => ConfigCommand("AT+CGSN\r\n", "", "OK\r\n", 1000, 5)
    case 10 => ConfigCommand("AT+CIMI\r\n", "OK\r\n", "", 1000, 5)
    case 11 => ConfigCommand("AT+QCCID\r\n", "QCCID", "OK\r\n", 1000, 3)
    case 12 => ConfigCommand("AT+CPIN?\r\n", "READY\r\n", "", 3000, 3)
    case 13 => ConfigCommand("AT+QIDEACT=1\r\n", "OK\r\n", "", 3000, 1)
    case 14 => ConfigCommand("AT+QCFG=\"nwscanmode\",0\r\n", "OK\r\n", "", 5000, 2)
    case 15 => ConfigCommand("AT+CGDCONT=1,\"IP\",\"v-internet\"\r\n", "", "OK\r\n", 1000, 2)
    case 16 => ConfigCommand("AT+QIACT=1\r\n", "OK\r\n", "", 5000, 5)
    case 17 => ConfigCommand("AT+CGREG=2\r\n", "OK\r\n", "", 1000, 3)
    case 18 => ConfigCommand("AT+CGREG?\r\n", "OK\r\n", "", 1000, 2)
    case 19 => ConfigCommand("AT+COPS?\r\n", "OK\r\n", "", 2000, 2)
    case 20 => ConfigCommand("AT\r\n", "OK\r\n", "", 1000, 3)
    case 21 => ConfigCommand("AT+CCLK?\r\n", "+CCLK:", "OK\r\n", 1000, 5)
    case 22 => ConfigCommand("AT+CSQ\r\n", "", "OK\r\n", 1000, 2)
    case 23 => ConfigCommand("AT\r\n", "OK\r\n", "", 2000, 1)
    case 24 => Command("AT\r\n", "OK\r\n", "", 2000, 1, OpenPppStack)
  }

  /** What gsm_config_module decides to do about one event. */
  datatype Decision =
    | Proceed(command: Command, step: nat, interval: Word, ready: nat, ids: Ids, ccidRetries: nat, tally: Tally)
    | GiveUp(lastStep: nat, seenIds: Ids)
    | Unhandled

  function Decide(g: Gsm, event: Event, reply: string): (d: Decision)
    requires WellFormedGsm(g)
    ensures d.Proceed? ==> |d.ids.operatorBuffer| == 32
    ensures d.GiveUp? ==> |d.seenIds.operatorBuffer| == 32
  {
    var m, ids, t, interval := g.manager, g.ids, g.history.tally, g.engine.pollInterval;
    if m.step == 0 || m.step > 24 then Unhandled else
    var forward := Proceed(ForwardCommand(m.step), m.step + 1, interval, m.ready, ids, m.ccidRetries, t);
    match m.step
    case 1 => if event.EventTimeout? then GiveUp(1, ids) else forward
    case 10 =>
      var seen := if |ids.moduleImei| < 14 then ids.(moduleImei := ImeiText(reply, 16)) else ids;
      if |ids.moduleImei| < 14 && |seen.moduleImei| < 15 then GiveUp(0, seen) else forward.(ids := seen)
    case 11 =>
      var seen := ids.(simImei := ImeiText(reply, 16));
      if |seen.simImei| < 15 then
        forward.(command := ForwardCommand(9), step := 11, ids := seen, tally := t.(b11 := t.b11 + 1))
      else forward.(ids := seen)
    case 12 =>
      var seen := if |ids.ccid| < 10 then ids.(ccid := CcidText(reply, 20)) else ids;
      if |seen.ccid| < 10 && m.ccidRetries < 2 then
        forward.(command := ForwardCommand(11), step := 12, interval := 5, ids := seen,
                 ccidRetries := m.ccidRetries + 1, tally := t.(b12 := t.b12 + 1))
      else forward.(interval := 5, ids := seen)
    case 13 => forward.(interval := 5)
    case 19 =>
      if event.EventOk? && !HasAccessTechnology(reply) then
        forward.(command := ForwardCommand(18), step := 19, interval := 1000, tally := t.(b19 := t.b19 + 1))
      else forward
    case 20 =>
      if event.EventOk? then
        var seen := ids.(operatorBuffer := OperatorBuffer(reply, ids.operatorBuffer));
        if |CStr(seen.operatorBuffer)| < 5 then
          forward.(command := ConfigCommand("AT+COPS?\r\n", "OK\r\n", "", 1000, 3), step := 20,
                   interval := 1000, ids := seen, tally := t.(b20 := t.b20 + 1))
        else forward.(interval := 5, ids := seen)
      else forward.(interval := 5)
    case 23 =>
      if event.EventTimeout? then GiveUp(0, ids)
      else if SignalStrength(reply) == 99 then
        forward.(command := ConfigCommand("AT+CSQ\r\n", "OK\r\n", "", 1000, 3), step := 22,
                 interval := 500, tally := t.(b23 := t.b23 + 1))
      else forward
    case 24 => forward.(step := 1, interval := 5, ready := 1)
    case _ => forward
  }

  /** gsm_config_module. */
  function Configure(g: Gsm, event: Event, reply: string, now: nat): (r: Gsm)
    requires WellFormedGsm(g)
    ensures WellFormedGsm(r)
  {
    match Decide(g, event, reply)
    case Proceed(command, step, interval, ready, ids, ccidRetries, tally) =>
      var miss := if tally.b12 > g.history.tally.b12 then 1 else 0;
      g.(engine := Arm(g.engine.(pollInterval := interval), command, now),
         manager := g.manager.(step := step, ready := ready, ccidRetries := ccidRetries),
         ids := ids,
         history := g.history.(tally := tally, ccidMisses := g.history.ccidMisses + miss))
    case GiveUp(lastStep, seenIds) =>
      var r := ChangeState(g.(ids := seenIds), GsmReset, now);
      r.(manager := r.manager.(step := lastStep))
    case Unhandled =>
      g.(manager := g.manager.(step := (g.manager.step + 1) % 256))
  }

  function DialCommand(step: nat): Command {
    match step
    case 1 => Command("AT+CSQ\r\n", "OK\r\n", "", 1000, 2, OpenPppStack)
    case 2 => Command("AT+CPIN?\r\n", "OK\r\n", "", 1000, 5, OpenPppStack)
    case _ => Command("ATD*99***1#\r\n", "CONNECT", "", 1000, 10, OpenPppStack)
  }

  function DialOn(g: Gsm, now: nat): (r: Gsm)
    requires WellFormedGsm(g)
    ensures WellFormedGsm(r)
  {
    g.(engine := Arm(g.engine, DialCommand(g.manager.step), now),
       manager := g.manager.(step := g.manager.step + 1))
  }

  function DialCounted(g: Gsm): (r: Gsm)
    requires WellFormedGsm(g)
    ensures WellFormedGsm(r)
  {
    var t := g.history.tally;
    g.(history := g.history.(tally := t.(dials := t.dials + 1)))
  }

  /** A dial that timed out. `codes` are the status events ppp_close fires. */
  function DialFailed(g: Gsm, codes: seq<int>, now: nat): (r: Gsm)
    requires WellFormedGsm(g)
    ensures WellFormedGsm(r)
  {
    var counted := DialCounted(g);
    if g.manager.dialRetries + 1 > 4 then
      ChangeState(PppClose(counted.(manager := g.manager.(dialRetries := 0)), codes, now), GsmReset, now)
    else
      var retrying := g.manager.(dialRetries := g.manager.dialRetries + 1, step := 3);
      var closed := PppClose(counted.(manager := retrying), codes, now);
      closed.(engine := Arm(closed.engine, REOPEN_COMMAND, now))
  }

  /** The modem answered the dial: PPP takes the link with a new block. `codes` are what
      ppp_connect fires. */
  function Connected(g: Gsm, codes: seq<int>, now: nat): (r: Gsm)
    requires WellFormedGsm(g)
    ensures WellFormedGsm(r)
  {
    var up := ChangeState(g, GsmOk, now);
    PppEvents(up.(manager := up.manager.(block := InUse)), codes, now)
  }

  function InPppMode(g: Gsm): (r: Gsm)
    requires WellFormedGsm(g)
    ensures WellFormedGsm(r)
  {
    g.(manager := g.manager.(mode := PppStack), engine := Note(g.engine, PppModeSet))
  }

  /** open_ppp_stack. */
  function OpenPpp(g: Gsm, event: Event, reply: string, codes: seq<int>, now: nat): (r: Gsm)
    requires WellFormedGsm(g)
    ensures WellFormedGsm(r)
  {
    match g.manager.step
    case 1 => DialOn(g, now)
    case 2 => DialOn(g, now)
    case 3 =>
      if event.EventTimeout? || Contains(reply, "+CPIN: NOT INSERTED") then ChangeState(g, GsmReset, now)
      else DialOn(g, now)
    case 4 =>
      if event.EventTimeout? then DialFailed(InPppMode(g), codes, now)
      else Connected(InPppMode(g), codes, now)
    case _ => g
  }

  /** Callbacks of a chain under way are counted. */
  function Counted(g: Gsm): (r: Gsm)
    requires WellFormedGsm(g)
    ensures WellFormedGsm(r)
  {
    var t := g.history.tally;
    if g.manager.step == 0 then g
    else g.(history := g.history.(tally := t.(callbacks := t.callbacks + 1)))
  }

  /** The call through send_at_callback. */
  function CallBack(g: Gsm, event: Event, reply: string, codes: seq<int>, now: nat): (r: Gsm)
    requires WellFormedGsm(g)
    ensures WellFormedGsm(r)
  {
    match g.engine.callback
    case NoCallback => g
    case ConfigModule => Configure(Counted(g), event, reply, now)
    case OpenPppStack => OpenPpp(Counted(g), event, reply, codes, now)
  }

  /** What one call of gsm_hw_layer_run meets: the true times of its clock readings, the text
      a callback finds behind its NULL reply pointer, and the PPP status events fired inside. */
  datatype RunEnv = RunEnv(entered: nat, replied: nat, checked: nat, acted: nat, left: nat,
                           nullText: string, okCodes: seq<int>, timeoutCodes: seq<int>)

  predicate InOrder(env: RunEnv, clock: nat) {
    clock <= env.entered <= env.replied <= env.checked <= env.acted <= env.left
  }

  /** The reply half of gsm_hw_layer_run. */
  function MatchPhase(g: Gsm, env: RunEnv): (r: Gsm)
    requires WellFormedGsm(g)
    ensures WellFormedGsm(r)
  {
    if g.engine.retry == 0 || !g.engine.newData then g else
    var e := g.engine.(newData := false);
    if !Matches(e) then g.(engine := e) else
    var done := Completed(e, env.replied);
    var r := CallBack(g.(engine := done), EventOk, CStr(done.buffer), env.okCodes, env.replied);
    r.(engine := AfterReply(r.engine))
  }

  /** The timeout half of gsm_hw_layer_run. */
  function TimeoutPhase(g: Gsm, env: RunEnv): (r: Gsm)
    requires WellFormedGsm(g)
    ensures WellFormedGsm(r)
  {
    if !Expired(g.engine, env.checked) then g else
    var e := Decremented(g.engine);
    if e.retry > 0 then g.(engine := Resent(e, env.acted)) else
    var r := CallBack(g.(engine := GivenUp(e, env.acted)), EventTimeout, env.nullText, env.timeoutCodes, env.acted);
    r.(engine := AfterTimeout(r.engine))
  }

  /** Past the poll gate. */
  function Polled(g: Gsm, now: nat): (r: Gsm)
    requires WellFormedGsm(g)
    ensures WellFormedGsm(r)
  {
    g.(engine := g.engine.(lastPoll := Tick(now)))
  }

  predicate GateOpen(e: Engine, now: nat) {
    Sub32(Tick(now), e.lastPoll) >= e.pollInterval
  }

  /** gsm_hw_layer_run. */
  function HwRun(g: Gsm, env: RunEnv): (r: Gsm)
    requires WellFormedGsm(g)
    ensures WellFormedGsm(r)
  {
    if !GateOpen(g.engine, env.entered) then
      g.(history := g.history.(clock := env.entered))
    else
      var r := TimeoutPhase(MatchPhase(Polled(g, env.entered), env), env);
      r.(engine := r.engine.(lastPoll := Tick(env.left)), history := r.history.(clock := env.left, ranAt := env.left))
  }

  /** gsm_power_on_sequence. */
  function PowerSequence(g: Gsm, now: nat): (r: Gsm)
    requires WellFormedGsm(g)
    ensures WellFormedGsm(r)
  {
    var step := g.manager.powerStep;
    var logged := g.(history := g.history.(power := g.history.power + [PowerPoll(step, now)]));
    var next := logged.(manager := g.manager.(powerStep := step + 1));
    match step
    case 0 => next.(manager := next.manager.(ready := 0), pins := Pins(false, true, false))
    case 1 => next.(pins := g.pins.(reset := false, enable := true))
    case 2 => next
    case 3 => next.(pins := g.pins.(key := true))
    case 4 => next.(pins := g.pins.(key := false, reset := false))
    case 5 => next
    case 6 => next
    case 7 => ChangeState(logged.(manager := g.manager.(powerStep := 0)), GsmPowerOn, now)
    case _ => logged
  }

  /** gsm_state_machine_polling. */
  function Poll(g: Gsm, now: nat): (r: Gsm)
    requires WellFormedGsm(g)
    ensures WellFormedGsm(r)
  {
    var at := g.(history := g.history.(clock := now));
    if Sub32(Tick(now), g.manager.lastTick) < 1000 then at else
    var polled := at.(manager := g.manager.(lastTick := Tick(now)),
                      history := at.history.(polledAt := now));
    match g.manager.state
    case GsmPowerOn =>
      if g.manager.step != 0 then polled
      else polled.(manager := polled.manager.(step := 1),
                   engine := Arm(g.engine, FIRST_COMMAND, now),
                   history := polled.history.(tally := NO_TALLY))
    case GsmReset => PowerSequence(polled.(manager := polled.manager.(ready := 0)), now)
    case GsmOk => polled
    case GsmReopenPpp => polled
  }

  /** gsm_hw_layer_uart_fill_rx as far as the engine is concerned; in PPP mode the bytes
      themselves go to the modem ring. */
  function Uart(g: Gsm, data: string): (r: Gsm)
    requires WellFormedGsm(g)
    ensures WellFormedGsm(r)
  {
    if data == [] then g
    else if g.manager.mode.PppStack? then g.(engine := g.engine.(newData := true))
    else g.(engine := Receive(g.engine, data))
  }

  /** gsm_init_hw on zeroed statics. */
  function Initial(): (g: Gsm)
    ensures WellFormedGsm(g)
  {
    var engine := Engine("", "", "", 0, 0, 0, NoCallback, Zeros(BUFFER_SIZE), 0, false, 5, 0, [], "");
    var manager := Manager(GsmOk, 0, 0, AtStack, false, NeverMade, 0, 0, 0, 0);
    var history := History(0, 0, 0, [], NO_TALLY, 0, 0);
    ChangeState(Gsm(engine, manager, Pins(false, true, false), Ids("", "", "", Zeros(32)), history), GsmReset, 0)
  }

  /** One atomic step of the program or of its environment. */
  datatype Step =
    | RunStep(env: RunEnv)
    | PollStep(now: nat)
    | UartStep(data: string)
    | PppStep(codes: seq<int>, now: nat)
    | PhaseStep(running: bool)

  /** Time runs forward, and PPP calls back only through a block in use. */
  predicate Enabled(g: Gsm, step: Step) {
    match step
    case RunStep(env) => InOrder(env, g.history.clock)
    case PollStep(now) => g.history.clock <= now
    case PppStep(_, now) => g.manager.block.InUse? && g.history.clock <= now
    case UartStep(_) => true
    case PhaseStep(_) => g.manager.block.InUse?
  }

  function Next(g: Gsm, step: Step): (r: Gsm)
    requires WellFormedGsm(g)
    ensures WellFormedGsm(r)
  {
    match step
    case RunStep(env) => HwRun(g, env)
    case PollStep(now) => Poll(g, now)
    case UartStep(data) => Uart(g, data)
    case PppStep(codes, now) =>
      var r := PppEvents(g, codes, now);
      r.(history := r.history.(clock := now))
    case PhaseStep(running) =>
      g.(manager := g.manager.(pppConnected := g.manager.pppConnected || running))
  }
}
