/** gsm_hardware_layer.c and gsm_data_layer.c in their own form: one object whose fields are
    the two files' static variables, each method proved against the value-level machine. */
module GsmDevice {
  import opened Words
  import opened CStrings
  import opened Replies
  import opened AtEngine
  import opened BringUp

  /** The step increment behind the switch of gsm_config_module. */
  ghost function Bumped(g: Gsm): Gsm {
    g.(manager := g.manager.(step := (g.manager.step + 1) % 256))
  }

  lemma UnhandledStep(g: Gsm, event: Event, reply: string, now: nat)
    requires WellFormedGsm(g)
    ensures g.manager.step == 0 || g.manager.step > 24 ==> Configure(g, event, reply, now) == Bumped(g)
  {
  }

  /** What gsm_config_module does when it sends a command: `step` is the step before the final
      increment, `seen` and `tally` the texts and counts as they are then. */
  ghost function Sending(g: Gsm, command: Command, interval: Word, step: nat, seen: Ids, tally: Tally, now: nat): Gsm
    requires WellFormedGsm(g)
  {
    g.(engine := Arm(g.engine, command, now).(pollInterval := interval),
       manager := g.manager.(step := step), ids := seen, history := g.history.(tally := tally))
  }

  /** The steps that look at the reply, one by one. */
  lemma ImsiStep(g: Gsm, event: Event, reply: string, now: nat)
    requires WellFormedGsm(g) && g.manager.step == 11
    ensures var t, i := g.history.tally, g.engine.pollInterval;
            var seen := g.ids.(simImei := ImeiText(reply, 16));
            Configure(g, event, reply, now)
            == Bumped(if |seen.simImei| < 15
                      then Sending(g, ForwardCommand(9), i, 10, seen, t.(b11 := t.b11 + 1), now)
                      else Sending(g, ForwardCommand(11), i, 11, seen, t, now))
  {
    hide ForwardCommand, ImeiText;
  }

  lemma CcidStep(g: Gsm, event: Event, reply: string, now: nat)
    requires WellFormedGsm(g) && g.manager.step == 12
    ensures var m, h, t := g.manager, g.history, g.history.tally;
            var seen := if |g.ids.ccid| < 10 then g.ids.(ccid := CcidText(reply, 20)) else g.ids;
            Configure(g, event, reply, now)
            == Bumped(if |seen.ccid| < 10 && m.ccidRetries < 2
                      then Sending(g.(manager := m.(ccidRetries := m.ccidRetries + 1),
                                      history := h.(ccidMisses := h.ccidMisses + 1)),
                                   ForwardCommand(11), 5, 11, seen, t.(b12 := t.b12 + 1), now)
                      else Sending(g, ForwardCommand(12), 5, 12, seen, t, now))
  {
    hide ForwardCommand, CcidText;
  }

  lemma RegistrationStep(g: Gsm, event: Event, reply: string, now: nat)
    requires WellFormedGsm(g) && g.manager.step == 19
    ensures var t := g.history.tally;
            Configure(g, event, reply, now)
            == if event.EventOk? && !HasAccessTechnology(reply)
               then Sending(g, ForwardCommand(18), 1000, 19, g.ids, t.(b19 := t.b19 + 1), now)
               else Bumped(Sending(g, ForwardCommand(19), g.engine.pollInterval, 19, g.ids, t, now))
  {
    hide ForwardCommand, HasAccessTechnology;
  }

  const ASK_OPERATOR := ConfigCommand("AT+COPS?\r\n", "OK\r\n", "", 1000, 3)
  const ASK_SIGNAL := ConfigCommand("AT+CSQ\r\n", "OK\r\n", "", 1000, 3)

  lemma OperatorStep(g: Gsm, event: Event, reply: string, now: nat)
    requires WellFormedGsm(g) && g.manager.step == 20
    ensures var t := g.history.tally;
            var seen := if event.EventOk?
                        then g.ids.(operatorBuffer := OperatorBuffer(reply, g.ids.operatorBuffer)) else g.ids;
            Configure(g, event, reply, now)
            == if event.EventOk? && |CStr(seen.operatorBuffer)| < 5
               then Sending(g, ASK_OPERATOR, 1000, 20, seen, t.(b20 := t.b20 + 1), now)
               else Bumped(Sending(g, ForwardCommand(20), 5, 20, seen, t, now))
  {
    hide ForwardCommand, OperatorBuffer, CStr;
  }

  lemma SignalStep(g: Gsm, event: Event, reply: string, now: nat)
    requires WellFormedGsm(g) && g.manager.step == 23
    ensures var t := g.history.tally;
            Configure(g, event, reply, now)
            == if event.EventTimeout? then ChangeState(g, GsmReset, now)
               else Bumped(if SignalStrength(reply) == 99
                           then Sending(g, ASK_SIGNAL, 500, 21, g.ids, t.(b23 := t.b23 + 1), now)
                           else Sending(g, ForwardCommand(23), g.engine.pollInterval, 23, g.ids, t, now))
  {
    hide ForwardCommand, SignalStrength;
  }

  /** ... and those that do not. */
  lemma ForwardStep(g: Gsm, event: Event, reply: string, now: nat)
    requires WellFormedGsm(g) && 1 <= g.manager.step <= 24 && g.manager.step !in {10, 11, 12, 19, 20, 23}
    requires g.manager.step == 1 ==> event.EventOk?
    ensures var n, t := g.manager.step, g.history.tally;
            Configure(g, event, reply, now)
            == Bumped(Sending(g.(manager := g.manager.(ready := if n == 24 then 1 else g.manager.ready)),
                              ForwardCommand(n), if n == 13 || n == 24 then 5 else g.engine.pollInterval,
                              if n == 24 then 0 else n, g.ids, t, now))
  {
    hide ForwardCommand, ImeiText, CcidText, HasAccessTechnology, OperatorBuffer, SignalStrength;
  }

  lemma FirstStepFails(g: Gsm, reply: string, now: nat)
    requires WellFormedGsm(g) && g.manager.step == 1
    ensures Configure(g, EventTimeout, reply, now) == Bumped(ChangeState(g, GsmReset, now))
  {
    hide ForwardCommand, Reset;
  }

  /** A reset forgets the step. */
  lemma ResetFrom(g: Gsm, step: nat, now: nat)
    requires WellFormedGsm(g)
    ensures ChangeState(g.(manager := g.manager.(step := step)), GsmReset, now) == ChangeState(g, GsmReset, now)
  {
  }

  /** The poll interval is no concern of a newly armed command. */
  lemma ArmLater(e: Engine, interval: Word, c: Command, now: nat)
    ensures Arm(e.(pollInterval := interval), c, now) == Arm(e, c, now).(pollInterval := interval)
  {
  }

  /** m_gsm_atc of gsm_hardware_layer.c, with the data flag and the poll gate beside it. */
  class AtChannel {
    var text: string
    var wanted: string
    var ending: string
    var timeout: nat
    var sentTick: Word
    var retry: nat
    var callback: Callback
    const buffer: array<char>
    var index: nat
    var newData: bool
    var pollInterval: Word
    var lastPoll: Word

    ghost var log: seq<Entry>
    ghost var received: string

    ghost function View(): Engine
      reads this, buffer
    {
      Engine(text, wanted, ending, timeout, sentTick, retry, callback, buffer[..], index, newData,
             pollInterval, lastPoll, log, received)
    }

    ghost predicate Valid()
      reads this
    {
      buffer.Length == BUFFER_SIZE && index < BUFFER_SIZE
    }

    constructor ()
      ensures Valid() && fresh(buffer)
      ensures View() == Engine("", "", "", 0, 0, 0, NoCallback, Zeros(BUFFER_SIZE), 0, false, 5, 0, [], "")
    {
      text, wanted, ending, timeout, sentTick, retry, callback := "", "", "", 0, 0, 0, NoCallback;
      buffer := new char[BUFFER_SIZE](_ => '\0');
      index, newData, pollInterval, lastPoll := 0, false, 5, 0;
      log, received := [], "";
      new;
      assert buffer[..] == Zeros(BUFFER_SIZE);
    }

    /** memset of the reply buffer. */
    method ClearBuffer()
      requires Valid()
      modifies buffer
      ensures buffer[..] == Zeros(BUFFER_SIZE)
    {
      forall i | 0 <= i < buffer.Length {
        buffer[i] := '\0';
      }
    }

    /** gsm_hw_send_at_cmd. Without a timeout or a callback it only transmits. */
    method SendAtCmd(command: Command, now: nat)
      requires Valid()
      modifies this, buffer
      ensures Valid()
      ensures View() == if command.timeout == 0 || command.callback.NoCallback? then old(View())
                        else Arm(old(View()), command, now)
    {
      hide Zeros, Tick;
      if command.timeout == 0 || command.callback.NoCallback? {
        return;
      }
      text := command.text;
      wanted := command.wanted;
      ending := command.ending;
      retry := command.retries;
      callback := command.callback;
      timeout := command.timeout;
      sentTick := Tick(now);
      ClearBuffer();
      index := 0;
      received := [];
      log := log + [Armed(command, now), Sent(command.text, now)];
    }

    /** gsm_hw_layer_reset_rx_buffer. */
    method ResetRxBuffer()
      requires Valid()
      modifies this, buffer
      ensures Valid() && View() == Reset(old(View()))
    {
      ClearBuffer();
      index := 0;
      retry := 0;
      log := log + [Cut];
    }

    /** The AT branch of gsm_hw_layer_uart_fill_rx. */
    method FillRx(data: string)
      requires Valid()
      modifies this, buffer
      ensures Valid() && View() == Receive(old(View()), data)
    {
      newData := true;
      received := received + data;
      ghost var all := Store(buffer[..], index, data);
      for i := 0 to |data|
        invariant Valid() && all == Store(buffer[..], index, data[i..])
        invariant View() == old(View()).(buffer := buffer[..], index := index, newData := true,
                                         received := old(received) + data)
      {
        assert data[i..][0] == data[i] && data[i..][1..] == data[i + 1..];
        buffer[index] := data[i];
        index := index + 1;
        if index >= BUFFER_SIZE {
          index := 0;
          buffer[0] := '\0';
          return;
        }
      }
      assert data[|data|..] == [];
    }

    /** The two text tests of gsm_hw_layer_run, strstr and memcmp. */
    method HasReply() returns (complete: bool)
      requires Valid()
      ensures complete <==> Matches(View())
    {
      hide CStr, Contains;
      complete := false;
      if Contains(CStr(buffer[..]), wanted) {
        complete := true;
        if |ending| > 0 {
          if |ending| < index {
            complete := buffer[index - |ending|..index] == ending;
          } else {
            complete := false;
          }
        }
      }
    }

    /** What happens to the engine before a reply is handed to the callback. */
    method Complete(now: nat)
      requires Valid()
      modifies this, buffer
      ensures Valid() && View() == Completed(old(View()), now)
    {
      retry := 0;
      timeout := 0;
      buffer[index] := '\0';
      log := log + [Called(callback, EventOk, now)];
    }

    /** ... and after. */
    method FinishReply()
      requires Valid()
      modifies this, buffer
      ensures Valid() && View() == AfterReply(old(View()))
    {
      index := 0;
      ClearBuffer();
    }

    /** One expiry: the last one gives up, an earlier one transmits again. */
    method Expire(now: nat) returns (givenUp: bool)
      requires Valid()
      modifies this
      ensures Valid() && givenUp == (Decremented(old(View())).retry == 0)
      ensures View() == if givenUp then GivenUp(Decremented(old(View())), now)
                        else Resent(Decremented(old(View())), now)
    {
      if retry > 0 {
        retry := retry - 1;
      }
      givenUp := retry == 0;
      if givenUp {
        timeout := 0;
        log := log + [Called(callback, EventTimeout, now)];
      } else {
        sentTick := Tick(now);
        log := log + [Sent(text, now)];
      }
    }

    /** What happens to the engine after a timeout callback. */
    method FinishTimeout()
      requires Valid()
      modifies this, buffer
      ensures Valid() && View() == AfterTimeout(old(View()))
    {
      index := 0;
      buffer[index] := '\0';
    }
  }

  /** The three GPIO outputs behind GSM_PWR_EN, GSM_PWR_RESET and GSM_PWR_KEY. */
  class PowerPins {
    var enable: bool
    var reset: bool
    var key: bool

    ghost function View(): Pins
      reads this
    {
      Pins(enable, reset, key)
    }

    constructor ()
      ensures View() == Pins(false, true, false)
    {
      enable, reset, key := false, true, false;
    }

    method Set(enable: bool, reset: bool, key: bool)
      modifies this
      ensures View() == Pins(enable, reset, key)
    {
      this.enable := enable;
      this.reset := reset;
      this.key := key;
    }
  }

  /** m_gsm_imei, m_sim_imei, m_sim_ccid and m_nw_operator. */
  class Identity {
    var moduleImei: string
    var simImei: string
    var ccid: string
    var operatorBuffer: string

    ghost function View(): Ids
      reads this
    {
      Ids(moduleImei, simImei, ccid, operatorBuffer)
    }

    constructor ()
      ensures View() == Ids("", "", "", Zeros(32))
    {
      moduleImei, simImei, ccid, operatorBuffer := "", "", "", Zeros(32);
    }
  }

  /** The static variables of gsm_data_layer.c and the functions of both files that use them. */
  class DataLayer {
    const at: AtChannel
    const pins: PowerPins
    const ids: Identity
    // m_gsm_manager, m_ppp_connected and the function-local statics
    var state: State
    var step: nat
    var ready: nat
    var mode: Mode
    var pppConnected: bool
    var block: Block
    var lastTick: Word
    var powerStep: nat
    var dialRetries: nat
    var ccidRetries: nat

    ghost var history: History

    ghost function ManagerView(): Manager
      reads this
    {
      Manager(state, step, ready, mode, pppConnected, block, lastTick, powerStep, dialRetries, ccidRetries)
    }

    ghost function View(): Gsm
      reads this, at, at.buffer, pins, ids
    {
      Gsm(at.View(), ManagerView(), pins.View(), ids.View(), history)
    }

    ghost predicate Valid()
      reads this, at, ids
    {
      at.Valid() && |ids.operatorBuffer| == 32
    }

    /** gsm_init_hw on zeroed statics. */
    constructor ()
      ensures Valid() && fresh(at) && fresh(at.buffer) && fresh(pins) && fresh(ids)
      ensures View() == Initial()
    {
      at := new AtChannel();
      pins := new PowerPins();
      ids := new Identity();
      state, step, ready, mode, pppConnected, block := GsmOk, 0, 0, AtStack, false, NeverMade;
      lastTick, powerStep, dialRetries, ccidRetries := 0, 0, 0, 0;
      history := History(0, 0, 0, [], NO_TALLY, 0, 0);
      new;
      ChangeTo(GsmReset, 0);
    }

    /** gsm_change_state. */
    method ChangeTo(newState: State, now: nat)
      requires Valid()
      modifies this, at, at.buffer, pins
      ensures Valid() && View() == ChangeState(old(View()), newState, now)
    {
      hide Arm, Reset;
      if newState.GsmOk? {
        ready := 2;
      }
      state := newState;
      step := 0;
      match newState {
        case GsmOk =>
        case GsmReset =>
          at.ResetRxBuffer();
          pins.Set(false, true, false);
        case GsmPowerOn =>
          at.ResetRxBuffer();
        case GsmReopenPpp =>
          step := 1;
          pppConnected := false;
          at.SendAtCmd(Command("ATV1\r\n", "OK\r\n", "", 1000, 5, OpenPppStack), now);
      }
    }

    /** ppp_link_status_cb, which lwIP reaches through the control block. A lost connection
        comes from a block in the dead phase, where ppp_close calls back at once. */
    method PppLinkStatus(code: int, now: nat)
      requires Valid() && block.InUse?
      modifies this, at, at.buffer, pins
      ensures Valid() && View() == PppEvent(old(View()), code, now)
      decreases if code == PPPERR_CONNECT then 1 else 0
    {
      hide Arm, Reset;
      if code == PPPERR_USER {
        block := Released;
        ChangeTo(GsmReopenPpp, now);
      } else if code == PPPERR_CONNECT {
        pppConnected := false;
        PppLinkStatus(PPPERR_USER, now);
      }
    }

    /** A call into PPP during which it reports `codes`, one after another, for as long as
        there is a block to report them through. */
    method IntoPpp(codes: seq<int>, now: nat)
      requires Valid()
      modifies this, at, at.buffer, pins
      ensures Valid() && View() == PppEvents(old(View()), codes, now)
    {
      hide PppEvent;
      ghost var start := View();
      for i := 0 to |codes|
        invariant Valid() && PppEvents(start, codes, now) == PppEvents(View(), codes[i..], now)
      {
        if !block.InUse? {
          return;
        }
        PppLinkStatus(codes[i], now);
        assert codes[i..][1..] == codes[i + 1..];
      }
      assert codes[|codes|..] == [];
    }

    /** ppp_close. */
    method CloseLink(codes: seq<int>, now: nat)
      requires Valid()
      modifies this, at, at.buffer, pins
      ensures Valid() && View() == PppClose(old(View()), codes, now)
    {
      hide PppEvents;
      if block.InUse? {
        IntoPpp(codes, now);
      } else {
        history := history.(strayCloses := history.strayCloses + 1);
      }
    }

    /** gsm_power_on_sequence. */
    method PowerOnSequence(now: nat)
      requires Valid()
      modifies this, at, at.buffer, pins
      ensures Valid() && View() == PowerSequence(old(View()), now)
    {
      hide Arm, Reset;
      history := history.(power := history.power + [PowerPoll(powerStep, now)]);
      match powerStep {
        case 0 =>
          ready := 0;
          pins.Set(false, true, false);
          powerStep := powerStep + 1;
        case 1 =>
          pins.reset := false;
          pins.enable := true;
          powerStep := powerStep + 1;
        case 2 => powerStep := powerStep + 1;
        case 3 =>
          pins.key := true;
          powerStep := powerStep + 1;
        case 4 =>
          pins.key := false;
          pins.reset := false;
          powerStep := powerStep + 1;
        case 5 => powerStep := powerStep + 1;
        case 6 => powerStep := powerStep + 1;
        case 7 =>
          powerStep := 0;
          ChangeTo(GsmPowerOn, now);
        case _ =>
      }
    }

    /** gsm_state_machine_polling. */
    method StateMachinePolling(now: nat)
      requires Valid()
      modifies this, at, at.buffer, pins
      ensures Valid() && View() == Poll(old(View()), now)
    {
      hide Arm, Reset, PowerSequence, Tick, Sub32;
      history := history.(clock := now);
      if Sub32(Tick(now), lastTick) >= 1000 {
        lastTick := Tick(now);
        history := history.(polledAt := now);
        match state {
          case GsmPowerOn =>
            if step == 0 {
              step := 1;
              at.SendAtCmd(Command("ATV1\r\n", "OK\r\n", "", 1000, 30, ConfigModule), now);
              history := history.(tally := NO_TALLY);
            }
          case GsmReset =>
            ready := 0;
            PowerOnSequence(now);
          case GsmOk =>
          case GsmReopenPpp =>
        }
      }
    }

    /** Step 10 of gsm_config_module: the module IMEI, or a reset. */
    method ReadModuleImei(event: Event, reply: string, now: nat) returns (more: bool)
      requires Valid() && step == 10
      modifies this, at, at.buffer, pins, ids
      ensures Valid()
      ensures (if more then Bumped(View()) else View()) == Configure(old(View()), event, reply, now)
    {
      hide Arm, Reset, ForwardCommand, ImeiText;
      if |ids.moduleImei| < 14 {
        ids.moduleImei := ImeiText(reply, 16);
        if |ids.moduleImei| < 15 {
          ChangeTo(GsmReset, now);
          return false;
        }
      }
      at.SendAtCmd(ForwardCommand(10), now);
      more := true;
    }

    /** Step 11: the SIM's IMSI, asked for again until it is there. */
    method ReadSimImsi(event: Event, reply: string, now: nat)
      requires Valid() && step == 11
      modifies this, at, at.buffer, ids
      ensures Valid()
      ensures Bumped(View()) == Configure(old(View()), event, reply, now)
    {
      hide Arm, Configure, ForwardCommand, ImeiText;
      ImsiStep(View(), event, reply, now);
      ids.simImei := ImeiText(reply, 16);
      if |ids.simImei| < 15 {
        step := 10;
        Ask(ForwardCommand(9), history.tally.(b11 := history.tally.b11 + 1), now);
      } else {
        Ask(ForwardCommand(11), history.tally, now);
      }
    }

    /** One command of the chain goes out, with the callbacks' counts as they are now. */
    method Ask(command: Command, ghost tally: Tally, now: nat)
      requires Valid() && command.timeout > 0 && command.callback.ConfigModule?
      modifies at, at.buffer, `history
      ensures Valid()
      ensures View() == Sending(old(View()), command, old(at.pollInterval), step, ids.View(), tally, now)
    {
      hide Arm;
      ArmLater(at.View(), at.pollInterval, command, now);
      at.SendAtCmd(command, now);
      history := history.(tally := tally);
    }

    /** Step 12: the SIM's CCID, asked for again twice in the life of the program. */
    method ReadCcid(event: Event, reply: string, now: nat)
      requires Valid() && step == 12
      modifies this, at, at.buffer, ids
      ensures Valid()
      ensures Bumped(View()) == Configure(old(View()), event, reply, now)
    {
      hide Arm, Configure, ForwardCommand, CcidText;
      CcidStep(View(), event, reply, now);
      ArmLater(at.View(), 5, ForwardCommand(11), now);
      ArmLater(at.View(), 5, ForwardCommand(12), now);
      at.pollInterval := 5;
      if |ids.ccid| < 10 {
        ids.ccid := CcidText(reply, 20);
      }
      if |ids.ccid| < 10 && ccidRetries < 2 {
        AskCcidAgain(now);
      } else {
        Ask(ForwardCommand(12), history.tally, now);
      }
    }

    method AskCcidAgain(now: nat)
      requires Valid()
      modifies this, at, at.buffer
      ensures Valid()
      ensures var g := old(View());
              View() == Sending(g.(manager := g.manager.(ccidRetries := g.manager.ccidRetries + 1),
                                   history := g.history.(ccidMisses := g.history.ccidMisses + 1)),
                                ForwardCommand(11), g.engine.pollInterval, 11, g.ids,
                                g.history.tally.(b12 := g.history.tally.b12 + 1), now)
    {
      hide Arm, ForwardCommand;
      ccidRetries := ccidRetries + 1;
      history := history.(ccidMisses := history.ccidMisses + 1);
      Ask(ForwardCommand(11), history.tally.(b12 := history.tally.b12 + 1), now);
      step := 11;
    }

    /** Step 19: network registration, asked for again every second until it is there. */
    method ReadRegistration(event: Event, reply: string, now: nat) returns (more: bool)
      requires Valid() && step == 19
      modifies this, at, at.buffer
      ensures Valid()
      ensures (if more then Bumped(View()) else View()) == Configure(old(View()), event, reply, now)
    {
      hide Arm, Configure, ForwardCommand, HasAccessTechnology;
      RegistrationStep(View(), event, reply, now);
      if event.EventOk? && !HasAccessTechnology(reply) {
        Ask(ForwardCommand(18), history.tally.(b19 := history.tally.b19 + 1), now);
        at.pollInterval := 1000;
        return false;
      }
      Ask(ForwardCommand(19), history.tally, now);
      more := true;
    }

    /** Step 20: the network operator, asked for again every second until it is there. */
    method ReadOperator(event: Event, reply: string, now: nat) returns (more: bool)
      requires Valid() && step == 20
      modifies this, at, at.buffer, ids
      ensures Valid()
      ensures (if more then Bumped(View()) else View()) == Configure(old(View()), event, reply, now)
    {
      hide Arm, Configure, ForwardCommand, OperatorBuffer, CStr;
      OperatorStep(View(), event, reply, now);
      if event.EventOk? {
        ids.operatorBuffer := OperatorBuffer(reply, ids.operatorBuffer);
        if |CStr(ids.operatorBuffer)| < 5 {
          Ask(ASK_OPERATOR, history.tally.(b20 := history.tally.b20 + 1), now);
          at.pollInterval := 1000;
          return false;
        }
      }
      ArmLater(at.View(), 5, ForwardCommand(20), now);
      at.pollInterval := 5;
      Ask(ForwardCommand(20), history.tally, now);
      more := true;
    }

    /** Step 23: the signal strength; 99 means not known, and step 22 is taken again. */
    method ReadSignal(event: Event, reply: string, now: nat) returns (more: bool)
      requires Valid() && step == 23
      modifies this, at, at.buffer, pins
      ensures Valid()
      ensures (if more then Bumped(View()) else View()) == Configure(old(View()), event, reply, now)
    {
      hide Arm, Configure, ChangeState, ForwardCommand, SignalStrength;
      SignalStep(View(), event, reply, now);
      if event.EventTimeout? {
        ResetFrom(View(), 0, now);
        step := 0;
        ChangeTo(GsmReset, now);
        return false;
      }
      if SignalStrength(reply) == 99 {
        step := 21;
        Ask(ASK_SIGNAL, history.tally.(b23 := history.tally.b23 + 1), now);
        at.pollInterval := 500;
      } else {
        Ask(ForwardCommand(23), history.tally, now);
      }
      more := true;
    }

    /** The steps that look at nothing in the reply; step 1 insists on an answer and step 24
        hands over to the dial chain. */
    method SendNext(event: Event, reply: string, now: nat)
      requires Valid() && 1 <= step <= 24 && step !in {10, 11, 12, 19, 20, 23}
      modifies this, at, at.buffer, pins
      ensures Valid()
      ensures Bumped(View()) == Configure(old(View()), event, reply, now)
    {
      hide Arm, Configure, ChangeState, ForwardCommand;
      if step == 1 && event.EventTimeout? {
        FirstStepFails(View(), reply, now);
        ChangeTo(GsmReset, now);
        return;
      }
      ForwardStep(View(), event, reply, now);
      var command := ForwardCommand(step);
      ArmLater(at.View(), 5, command, now);
      ArmLater(at.View(), at.pollInterval, command, now);
      if step == 13 || step == 24 {
        at.pollInterval := 5;
      }
      if step == 24 {
        ready := 1;
        step := 0;
      }
      at.SendAtCmd(command, now);
    }

    /** gsm_config_module. */
    method GsmConfigModule(event: Event, reply: string, now: nat)
      requires Valid()
      modifies this, at, at.buffer, pins, ids
      ensures Valid() && View() == Configure(old(View()), event, reply, now)
    {
      hide Configure;
      UnhandledStep(View(), event, reply, now);
      var more := true;
      match step {
        case 10 => more := ReadModuleImei(event, reply, now);
        case 11 => ReadSimImsi(event, reply, now);
        case 12 => ReadCcid(event, reply, now);
        case 19 => more := ReadRegistration(event, reply, now);
        case 20 => more := ReadOperator(event, reply, now);
        case 23 => more := ReadSignal(event, reply, now);
        case _ =>
          if 1 <= step <= 24 {
            SendNext(event, reply, now);
          }
      }
      if more {
        step := (step + 1) % 256;
      }
    }

    /** open_ppp_stack. `codes` are the PPP status events fired inside ppp_close or ppp_connect. */
    method GsmOpenPppStack(event: Event, reply: string, codes: seq<int>, now: nat)
      requires Valid()
      modifies this, at, at.buffer, pins, ids
      ensures Valid() && View() == OpenPpp(old(View()), event, reply, codes, now)
    {
      hide Arm, Reset, Contains, PppEvents, ChangeState, DialFailed, Connected, InPppMode;
      match step {
        case 1 =>
          at.SendAtCmd(DialCommand(1), now);
          step := 2;
        case 2 =>
          at.SendAtCmd(DialCommand(2), now);
          step := 3;
        case 3 =>
          if event.EventOk? {
            if Contains(reply, "+CPIN: NOT INSERTED") {
              ChangeTo(GsmReset, now);
              return;
            }
            at.SendAtCmd(DialCommand(3), now);
            step := 4;
          } else {
            ChangeTo(GsmReset, now);
          }
        case 4 => DialAnswered(event, codes, now);
        case _ =>
      }
    }

    /** Step 4 of open_ppp_stack: PPP mode is set whatever the modem said to the dial. */
    method DialAnswered(event: Event, codes: seq<int>, now: nat)
      requires Valid() && step == 4
      modifies this, at, at.buffer, pins, ids
      ensures Valid()
      ensures View() == if event.EventTimeout? then DialFailed(InPppMode(old(View())), codes, now)
                        else Connected(InPppMode(old(View())), codes, now)
    {
      hide Arm, Reset, PppEvents, ChangeState, DialFailed;
      mode := PppStack;
      at.log := at.log + [PppModeSet];
      if event.EventTimeout? {
        DialTimedOut(codes, now);
      } else {
        ChangeTo(GsmOk, now);
        block := InUse;
        IntoPpp(codes, now);
      }
    }

    method DialTimedOut(codes: seq<int>, now: nat)
      requires Valid()
      modifies this, at, at.buffer, pins, ids
      ensures Valid() && View() == DialFailed(old(View()), codes, now)
    {
      hide Arm, Reset, PppClose, ChangeState;
      history := history.(tally := history.tally.(dials := history.tally.dials + 1));
      dialRetries := dialRetries + 1;
      if dialRetries > 4 {
        dialRetries := 0;
        CloseLink(codes, now);
        ChangeTo(GsmReset, now);
      } else {
        step := 3;
        CloseLink(codes, now);
        at.SendAtCmd(REOPEN_COMMAND, now);
      }
    }

    /** The call through send_at_callback. */
    method SendAtCallback(event: Event, reply: string, codes: seq<int>, now: nat)
      requires Valid()
      modifies this, at, at.buffer, pins, ids
      ensures Valid() && View() == CallBack(old(View()), event, reply, codes, now)
    {
      hide Configure, OpenPpp;
      if step != 0 && !at.callback.NoCallback? {
        history := history.(tally := history.tally.(callbacks := history.tally.callbacks + 1));
      }
      match at.callback {
        case NoCallback =>
        case ConfigModule => GsmConfigModule(event, reply, now);
        case OpenPppStack => GsmOpenPppStack(event, reply, codes, now);
      }
    }

    /** The reply half of gsm_hw_layer_run. */
    method LookForReply(env: RunEnv)
      requires Valid()
      modifies this, at, at.buffer, pins, ids
      ensures Valid() && View() == MatchPhase(old(View()), env)
    {
      hide CallBack, CStr, Matches, Completed, AfterReply;
      if at.retry != 0 && at.newData {
        at.newData := false;
        var complete := at.HasReply();
        if complete {
          at.Complete(env.replied);
          SendAtCallback(EventOk, CStr(at.buffer[..]), env.okCodes, env.replied);
          at.FinishReply();
        }
      }
    }

    /** The timeout half of gsm_hw_layer_run. */
    method LookAtClock(env: RunEnv)
      requires Valid()
      modifies this, at, at.buffer, pins, ids
      ensures Valid() && View() == TimeoutPhase(old(View()), env)
    {
      hide CallBack, GivenUp, Resent, AfterTimeout;
      var diff := Sub32(Tick(env.checked), at.sentTick);
      if at.timeout != 0 && diff >= at.timeout {
        var givenUp := at.Expire(env.acted);
        if givenUp {
          SendAtCallback(EventTimeout, env.nullText, env.timeoutCodes, env.acted);
          at.FinishTimeout();
        }
      }
    }

    /** gsm_hw_layer_run. */
    method HwLayerRun(env: RunEnv)
      requires Valid()
      modifies this, at, at.buffer, pins, ids
      ensures Valid() && View() == HwRun(old(View()), env)
    {
      hide MatchPhase, TimeoutPhase;
      if Sub32(Tick(env.entered), at.lastPoll) < at.pollInterval {
        history := history.(clock := env.entered);
        return;
      }
      at.lastPoll := Tick(env.entered);
      LookForReply(env);
      LookAtClock(env);
      at.lastPoll := Tick(env.left);
      history := history.(clock := env.left, ranAt := env.left);
    }

    /** gsm_hw_layer_uart_fill_rx as far as the data layer's own state goes: the flag in both
        modes and the reply buffer in AT mode. */
    method UartFillRx(data: string)
      requires Valid()
      modifies at, at.buffer
      ensures Valid() && View() == Uart(old(View()), data)
    {
      if |data| != 0 {
        if mode.PppStack? {
          at.newData := true;
        } else {
          at.FillRx(data);
        }
      }
    }
  }
}
