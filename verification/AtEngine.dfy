/** The AT command engine of gsm_hardware_layer.c on values: one command is armed at a time,
    its reply is matched in a 256-byte buffer, and it is resent or given up on time. */
module AtEngine {
  import opened Words
  import opened CStrings

  const BUFFER_SIZE: nat := 256

  datatype Event = EventOk | EventTimeout

  /** Which function the callback pointer holds. */
  datatype Callback = NoCallback | ConfigModule | OpenPppStack

  datatype Command = Command(text: string, wanted: string, ending: string,
                             timeout: nat, retries: nat, callback: Callback)

  /** What the engine did, with true times. */
  datatype Entry =
    | Armed(command: Command, at: nat)
    | Sent(text: string, at: nat)
    | Cut
    | Called(callback: Callback, event: Event, at: nat)
    | PppModeSet

  /** The fields of m_gsm_atc and of the poll gate, with the history `log` and the bytes
      `received` since the last command was armed. */
  datatype Engine = Engine(
    text: string, wanted: string, ending: string,
    timeout: nat, sentTick: Word, retry: nat, callback: Callback,
    buffer: string, index: nat, newData: bool,
    pollInterval: Word, lastPoll: Word,
    log: seq<Entry>, received: string)

  predicate WellFormed(e: Engine) {
    |e.buffer| == BUFFER_SIZE && e.index < BUFFER_SIZE
  }

  function Note(e: Engine, entry: Entry): Engine {
    e.(log := e.log + [entry])
  }

  /** gsm_hw_send_at_cmd once its early return is past. */
  function Arm(e: Engine, c: Command, now: nat): (r: Engine)
    ensures WellFormed(r)
  {
    e.(text := c.text, wanted := c.wanted, ending := c.ending,
       retry := c.retries, callback := c.callback, timeout := c.timeout, sentTick := Tick(now),
       buffer := Zeros(BUFFER_SIZE), index := 0, received := [],
       log := e.log + [Armed(c, now), Sent(c.text, now)])
  }

  /** gsm_hw_layer_reset_rx_buffer: the retry count goes, the timeout stays. */
  function Reset(e: Engine): (r: Engine)
    ensures WellFormed(r)
  {
    e.(buffer := Zeros(BUFFER_SIZE), index := 0, retry := 0, log := e.log + [Cut])
  }

  /** The byte loop of gsm_hw_layer_uart_fill_rx in AT mode. A full buffer restarts at
      index 0, clears only its first byte and drops the rest of the chunk. */
  function Store(buffer: string, index: nat, data: string): (r: (string, nat))
    requires |buffer| == BUFFER_SIZE && index < BUFFER_SIZE
    ensures |r.0| == BUFFER_SIZE && r.1 < BUFFER_SIZE
    decreases |data|
  {
    if data == [] then (buffer, index)
    else if index + 1 >= BUFFER_SIZE then (buffer[index := data[0]][0 := '\0'], 0)
    else Store(buffer[index := data[0]], index + 1, data[1..])
  }

  /** A non-empty chunk arriving in AT mode. */
  function Receive(e: Engine, data: string): (r: Engine)
    requires WellFormed(e)
    ensures WellFormed(r)
  {
    var (buffer, index) := Store(e.buffer, e.index, data);
    e.(newData := true, buffer := buffer, index := index, received := e.received + data)
  }

  /** The two text tests of gsm_hw_layer_run. */
  predicate Matches(e: Engine)
    requires WellFormed(e)
  {
    && Contains(CStr(e.buffer), e.wanted)
    && (e.ending == [] || (|e.ending| < e.index
                            && e.buffer[e.index - |e.ending|..e.index] == e.ending))
  }

  /** The engine as the callback of a complete reply sees it. */
  function Completed(e: Engine, now: nat): Engine
    requires WellFormed(e)
  {
    Note(e.(retry := 0, timeout := 0, buffer := e.buffer[e.index := '\0']),
         Called(e.callback, EventOk, now))
  }

  function AfterReply(e: Engine): Engine {
    e.(index := 0, buffer := Zeros(BUFFER_SIZE))
  }

  predicate Expired(e: Engine, now: nat) {
    e.timeout != 0 && Sub32(Tick(now), e.sentTick) >= e.timeout
  }

  function Decremented(e: Engine): Engine {
    e.(retry := if e.retry > 0 then e.retry - 1 else 0)
  }

  function Resent(e: Engine, now: nat): Engine {
    Note(e.(sentTick := Tick(now)), Sent(e.text, now))
  }

  /** The engine as the callback of a timeout sees it. */
  function GivenUp(e: Engine, now: nat): Engine {
    Note(e.(timeout := 0), Called(e.callback, EventTimeout, now))
  }

  function AfterTimeout(e: Engine): Engine
    requires WellFormed(e)
  {
    e.(index := 0, buffer := e.buffer[0 := '\0'])
  }

  /** A short C string. */
  predicate ShortText(text: string) {
    |text| <= 8 && '\0' !in text
  }

  predicate ValidCommand(c: Command) {
    && 1 <= c.timeout < TICKS && 1 <= c.retries <= 255
    && !c.callback.NoCallback?
    && (c.wanted != [] || c.ending != []) && ShortText(c.wanted) && ShortText(c.ending)
  }
}
