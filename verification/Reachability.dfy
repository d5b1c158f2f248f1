/** Which states of a run have a future in which the link is up: exactly those in OK or in AT
    mode. The futures are built here, out of polls, modem replies and engine runs. */
module Reachability {
  import opened Words
  import opened CStrings
  import opened Replies
  import opened AtEngine
  import opened ReplyMatch
  import opened BringUp
  import opened Coherence
  import opened EngineSafety
  import opened LostLink
  import opened Traces
  import opened Runs

  ghost predicate CanReachOk(g: Gsm)
    requires WellFormedGsm(g)
  {
    exists steps :: Legal(g, steps) && After(g, steps).manager.state.GsmOk?
  }

  // ----- replies that reach the callback -----

  /** A text that completes the waiting command and holds no NUL. */
  predicate Completes(e: Engine, reply: string) {
    && 0 < |reply| < BUFFER_SIZE && '\0' !in reply
    && Contains(reply, e.wanted) && |e.ending| < |reply| && EndsWith(reply, e.ending)
  }

  /** `special` followed by what the command waits for. */
  function ReplyTo(e: Engine, special: string): string {
    special + e.wanted + e.ending
  }

  lemma ReplyCompletes(e: Engine, special: string)
    requires ShortText(e.wanted) && ShortText(e.ending) && '\0' !in special && 0 < |special| <= 40
    ensures Completes(e, ReplyTo(e, special))
  {
    var reply := ReplyTo(e, special);
    assert OccursAt(reply, e.wanted, |special|);
    assert reply[|reply| - |e.ending|..] == e.ending;
  }

  lemma {:induction false} CStrKeepsFront(buffer: string, front: string)
    requires front <= buffer && '\0' !in front
    ensures front <= CStr(buffer)
    decreases |front|
  {
    if front != [] {
      assert buffer[0] == front[0] && front[0] in front;
      assert front[1..] <= buffer[1..] && '\0' !in front[1..];
      CStrKeepsFront(buffer[1..], front[1..]);
    }
  }

  lemma ContainsFurther(text: string, longer: string, pattern: string)
    requires text <= longer && Contains(text, pattern)
    ensures Contains(longer, pattern)
  {
    var i := StrStr(text, pattern).value;
    assert OccursAt(longer, pattern, i);
  }

  /** A reply at the front of the buffer is found whatever an older, longer text left behind it,
      and the callback is handed exactly that reply. */
  lemma FrontMatches(e: Engine, reply: string)
    requires WellFormed(e) && Completes(e, reply)
    requires e.index == |reply| && e.buffer[..|reply|] == reply
    ensures Matches(e) && CStr(e.buffer[e.index := '\0']) == reply
  {
    hide CStr, Contains;
    CStrKeepsFront(e.buffer, reply);
    ContainsFurther(reply, CStr(e.buffer), e.wanted);
    assert e.buffer[e.index - |e.ending|..e.index] == reply[|reply| - |e.ending|..];
    CStrOfNoise(e.buffer[e.index := '\0'], reply);
  }

  /** Enough bytes to make the buffer start over. */
  function Filler(e: Engine): (fill: string)
    requires WellFormed(e)
    ensures e.index + |fill| == BUFFER_SIZE
  {
    seq(BUFFER_SIZE - e.index, _ => 'x')
  }

  function Heard(g: Gsm, reply: string): Gsm
    requires WellFormedGsm(g)
  {
    Uart(Uart(g, Filler(g.engine)), reply)
  }

  lemma HeardHolds(g: Gsm, reply: string)
    requires WellFormedGsm(g) && g.manager.mode.AtStack? && 0 < |reply| < BUFFER_SIZE
    ensures var e := Heard(g, reply).engine;
            && WellFormedGsm(Heard(g, reply)) && e.index == |reply| && e.buffer[..|reply|] == reply
            && Heard(g, reply)
               == g.(engine := g.engine.(newData := true, buffer := e.buffer, index := e.index, received := e.received))
  {
    hide Store;
    StoreOverflows(g.engine.buffer, g.engine.index, Filler(g.engine));
    var filled := Uart(g, Filler(g.engine)).engine;
    StoreShort(filled.buffer, 0, reply);
  }

  function Moment(t: nat): RunEnv {
    RunEnv(t, t, t, t, t, "", [], [])
  }

  /** The machine right after the callback of `reply` at time `t`. */
  function Answered(g: Gsm, reply: string, t: nat): (r: Gsm)
    requires WellFormedGsm(g)
    ensures WellFormedGsm(r)
  {
    var h := Heard(g, reply);
    var polled := Polled(h, t);
    var done := polled.(engine := Completed(polled.engine.(newData := false), t));
    CallBack(done, EventOk, reply, [], t)
  }

  /** What a callback arms is not overdue at once. */
  predicate NotDue(e: Engine, now: nat) {
    e.timeout == 0 || (e.sentTick == Tick(now) && e.timeout >= 1)
  }

  lemma CallBackNotDue(g: Gsm, event: Event, reply: string, now: nat)
    requires WellFormedGsm(g) && g.engine.timeout == 0
    ensures NotDue(CallBack(g, event, reply, [], now).engine, now)
  {
    hide Decide, DialCommand, Contains, Zeros;
    DecideValid(Counted(g), event, reply);
    DialValid(g.manager.step);
  }

  lemma DialValid(step: nat)
    ensures DialCommand(step).timeout >= 1
  {
  }

  /** Run by run: the engine hears the reply and makes the callback, and nothing else happens. */
  lemma AnswerRuns(g: Gsm, reply: string, t: nat)
    requires WellFormedGsm(g) && g.manager.mode.AtStack? && g.engine.retry > 0 && Completes(g.engine, reply)
    requires GateOpen(Heard(g, reply).engine, t)
    ensures var r := HwRun(Heard(g, reply), Moment(t));
            r.manager == Answered(g, reply, t).manager
            && r.engine.callback == Answered(g, reply, t).engine.callback
  {
    hide Matches, CStr, Contains, Store, CallBack, Zeros, Uart;
    HeardHolds(g, reply);
    var h := Heard(g, reply);
    var polled := Polled(h, t);
    var e := polled.engine.(newData := false);
    FrontMatches(e, reply);
    var done := polled.(engine := Completed(e, t));
    var called := CallBack(done, EventOk, reply, [], t);
    CallBackNotDue(done, EventOk, reply, t);
    assert MatchPhase(polled, Moment(t)) == called.(engine := AfterReply(called.engine));
    assert TimeoutPhase(MatchPhase(polled, Moment(t)), Moment(t)) == MatchPhase(polled, Moment(t));
  }

  lemma ThreeSteps(g: Gsm, a: Step, b: Step, c: Step)
    requires WellFormedGsm(g) && Enabled(g, a) && Enabled(Next(g, a), b) && Enabled(Next(Next(g, a), b), c)
    ensures Legal(g, [a, b, c]) && After(g, [a, b, c]) == Next(Next(Next(g, a), b), c)
  {
    hide Next, Enabled;
    var x, y := Next(g, a), Next(Next(g, a), b);
    assert [a, b, c][1..] == [b, c] && [b, c][1..] == [c] && [c][1..] == [];
    assert Legal(Next(y, c), []) && After(Next(y, c), []) == Next(y, c);
    assert Legal(y, [c]) && After(y, [c]) == Next(y, c);
    assert Legal(x, [b, c]) && After(x, [b, c]) == Next(y, c);
  }

  lemma Answer(g: Gsm, reply: string) returns (steps: seq<Step>, t: nat)
    requires WellFormedGsm(g) && g.manager.mode.AtStack? && g.engine.retry > 0 && Completes(g.engine, reply)
    ensures Legal(g, steps)
    ensures After(g, steps).manager == Answered(g, reply, t).manager
    ensures After(g, steps).engine.callback == Answered(g, reply, t).engine.callback
  {
    hide HwRun, Uart, Legal, After, Answered, Completes;
    var h := Heard(g, reply);
    HeardClock(g, reply);
    t := DueAt(h.engine.lastPoll, h.engine.pollInterval, h.history.clock);
    DueAtOpens(h.engine.lastPoll, h.engine.pollInterval, h.history.clock);
    steps := [UartStep(Filler(g.engine)), UartStep(reply), RunStep(Moment(t))];
    ThreeSteps(g, steps[0], steps[1], steps[2]);
    AnswerRuns(g, reply, t);
  }

  lemma HeardClock(g: Gsm, reply: string)
    requires WellFormedGsm(g)
    ensures WellFormedGsm(Heard(g, reply))
  {
    hide Uart;
  }

  // ----- replies that the chain goes forward on -----

  /** What makes the reply usable at each step of the configuration chain. */
  function Special(step: nat): (special: string)
    ensures 0 < |special| <= 40 && '\0' !in special
  {
    match step
    case 10 => "123456789012345"
    case 11 => "123456789012345"
    case 19 => "+CGREG:,,,,"
    case 20 => "+COPS:\"VIETTEL\""
    case 23 => "+CSQ: 5,"
    case _ => " "
  }

  lemma TagFirst(tag: string, rest: string)
    ensures StrStr(tag + rest, tag) == Some(0)
  {
    assert OccursAt(tag + rest, tag, 0);
  }

  lemma ImeiIsRead(rest: string)
    ensures |ImeiText("123456789012345" + rest, 16)| == 15
  {
    var front, text := "123456789012345", "123456789012345" + rest;
    DigitsOfDigits(front);
    DigitsAppend(front, rest);
  }

  lemma {:induction false} DigitsOfDigits(text: string)
    requires AllDigits(text)
    ensures Digits(text) == text
    decreases |text|
  {
    if text != [] {
      assert IsDigit(text[|text| - 1]);
      DigitsOfDigits(text[..|text| - 1]);
    }
  }

  lemma {:induction false} DigitsAppend(a: string, b: string)
    ensures Digits(a) <= Digits(a + b)
    decreases |b|
  {
    if b == [] {
      assert a + b == a;
    } else {
      assert (a + b)[..|a + b| - 1] == a + b[..|b| - 1];
      DigitsAppend(a, b[..|b| - 1]);
    }
  }

  lemma {:induction false} CountAppend(a: string, b: string, c: char)
    ensures CountOf(a + b, c) == CountOf(a, c) + CountOf(b, c)
    decreases |a|
  {
    if a == [] {
      assert a + b == b;
    } else {
      assert (a + b)[1..] == a[1..] + b;
      CountAppend(a[1..], b, c);
    }
  }

  lemma RegistrationIsRead(rest: string)
    ensures HasAccessTechnology("+CGREG:,,,," + rest)
  {
    hide StrStr;
    var text, tag := "+CGREG:,,,," + rest, "+CGREG:";
    assert text == tag + (",,,," + rest);
    TagFirst(tag, ",,,," + rest);
    CountAppend(tag, ",,,," + rest, ',');
    CountAppend(",,,,", rest, ',');
    FourCommas();
    assert text[0..] == text;
  }

  lemma FourCommas()
    ensures CountOf(",,,,", ',') == 4
  {
    assert ",,,,"[1..] == ",,," && ",,,"[1..] == ",," && ",,"[1..] == "," && ","[1..] == "";
    assert CountOf(",,", ',') == 2;
  }

  lemma FirstQuote(text: string, from: nat, i: nat)
    requires from <= i < |text| && text[i] == '"' && '"' !in text[from..i]
    ensures IndexFrom(text, '"', from) == Some(i)
  {
    forall k | from <= k < i ensures text[k] != '"' {
      assert text[from..i][k - from] == text[k];
    }
  }

  /** A quoted name of up to 31 characters goes to the front of the operator buffer. */
  lemma NameIsCopied(reply: string, before: string, open: nat, close: nat)
    requires |before| == 32 && StrStr(reply, "+COPS:") == Some(0)
    requires IndexFrom(reply, '"', 0) == Some(open) && open < close <= open + 32
    requires IndexFrom(reply, '"', open + 1) == Some(close)
    ensures reply[open + 1..close] <= OperatorBuffer(reply, before)
  {
    hide StrStr, IndexFrom;
    assert reply[0..] == reply;
  }

  lemma OperatorIsRead(rest: string, before: string)
    requires |before| == 32
    ensures |CStr(OperatorBuffer("+COPS:\"VIETTEL\"" + rest, before))| >= 5
  {
    hide StrStr, CStr, IndexFrom, OperatorBuffer;
    var text, tag := "+COPS:\"VIETTEL\"" + rest, "+COPS:";
    assert text == tag + ("\"VIETTEL\"" + rest);
    TagFirst(tag, "\"VIETTEL\"" + rest);
    assert text[0..6] == tag && text[7..14] == "VIETTEL";
    FirstQuote(text, 0, 6);
    FirstQuote(text, 7, 14);
    NameIsCopied(text, before, 6, 14);
    CStrKeepsFront(OperatorBuffer(text, before), "VIETTEL");
  }

  lemma SignalIsRead(rest: string)
    ensures SignalStrength("+CSQ: 5," + rest) == 5
  {
    hide StrStr;
    var text, tag := "+CSQ: 5," + rest, "+CSQ:";
    assert text == tag + (" 5," + rest);
    TagFirst(tag, " 5," + rest);
    assert text[0..] == text && text[6] == '5' && text[7] == ',';
    assert DigitRun(text[6..]) == "5" by {
      assert text[6..][0] == '5' && text[6..][1..][0] == ',';
    }
    assert DecimalValue("5") == 5 by { assert "5"[..0] == ""; }
  }

  /** With such a reply every step of the configuration chain moves on, but for step 12, which
      may ask for the CCID again, twice in the life of the program. */
  lemma DecideForward(g: Gsm, rest: string)
    requires WellFormedGsm(g) && 1 <= g.manager.step <= 24
    ensures var s, d := g.manager.step, Decide(g, EventOk, Special(g.manager.step) + rest);
            && d.Proceed?
            && (s == 24 ==> d.step == 1 && d.command.callback.OpenPppStack?)
            && (s < 24 ==> d.command.callback.ConfigModule?)
            && (s < 24 && d.step != s + 1 ==>
                  s == d.step == 12 && g.manager.ccidRetries < 2 && d.ccidRetries == g.manager.ccidRetries + 1)
            && (d.step == s + 1 || s == 24 ==> d.ccidRetries == g.manager.ccidRetries)
  {
    hide ImeiText, CcidText, OperatorBuffer, SignalStrength, HasAccessTechnology, CStr, ForwardCommand;
    ImeiIsRead(rest);
    RegistrationIsRead(rest);
    OperatorIsRead(rest, g.ids.operatorBuffer);
    SignalIsRead(rest);
  }

  // ----- the way to OK -----

  /** How far a state in AT mode is from OK. */
  function Distance(g: Gsm): int {
    var m := g.manager;
    match m.state
    case GsmOk => 0
    case GsmReset => 100 - m.powerStep
    case GsmReopenPpp => 0
    case GsmPowerOn =>
      if m.step == 0 then 90 else if g.engine.callback.ConfigModule? then 60 - m.step else 10 - m.step
  }

  /** One stretch of the way: OK, or nearer to it, or one CCID query used up. */
  predicate Nearer(g: Gsm, r: Gsm) {
    || r.manager.state.GsmOk?
    || (r.manager.mode.AtStack? && Distance(r) < Distance(g))
    || (r.manager.mode.AtStack? && Distance(r) == Distance(g) && g.manager.ccidRetries < r.manager.ccidRetries)
  }

  /** In AT mode the machine is in RESET or in POWER_ON. */
  lemma AtModeStates(g: Gsm)
    requires Rests(g) && g.manager.mode.AtStack?
    ensures g.manager.state.GsmReset? || g.manager.state.GsmPowerOn?
  {
    hide EngineRests, PowerCycle.PowerRests, BringUpCost.CostRests;
  }

  lemma PollNearer(g: Gsm) returns (steps: seq<Step>)
    requires Rests(g) && g.manager.mode.AtStack?
    requires g.manager.state.GsmReset? || (g.manager.state.GsmPowerOn? && g.manager.step == 0)
    ensures Legal(g, steps) && Nearer(g, After(g, steps))
  {
    hide Poll, EngineRests, PowerCycle.PowerRests, BringUpCost.CostRests;
    var now := DueAt(g.manager.lastTick, 1000, g.history.clock);
    DueAtOpens(g.manager.lastTick, 1000, g.history.clock);
    var step := PollStep(now);
    steps := [step];
    assert steps[1..] == [] && After(Next(g, step), []) == Next(g, step);
    CoherentMeans(g);
    PollRests(g, now);
  }

  lemma ConfigNearer(g: Gsm) returns (steps: seq<Step>)
    requires Rests(g) && g.manager.mode.AtStack?
    requires g.manager.state.GsmPowerOn? && g.manager.step > 0 && g.engine.callback.ConfigModule?
    ensures Legal(g, steps) && Nearer(g, After(g, steps))
  {
    hide Answered, Completes, EngineRests, PowerCycle.PowerRests, BringUpCost.CostRests, Legal, After;
    RestsMeans(g);
    var s := g.manager.step;
    var reply := ReplyTo(g.engine, Special(s));
    ReplyCompletes(g.engine, Special(s));
    var t;
    steps, t := Answer(g, reply);
    ConfigAnswered(g, reply, t);
  }

  lemma ConfigAnswered(g: Gsm, reply: string, t: nat)
    requires WellFormedGsm(g) && g.manager.mode.AtStack? && Completes(g.engine, reply)
    requires g.manager.state.GsmPowerOn? && 1 <= g.manager.step <= 24 && g.engine.callback.ConfigModule?
    requires Special(g.manager.step) <= reply
    ensures var r, s := Answered(g, reply, t), g.manager.step;
            && r.manager.state.GsmPowerOn? && r.manager.mode.AtStack?
            && (s == 24 ==> r.manager.step == 1 && r.engine.callback.OpenPppStack?)
            && (s < 24 ==> r.engine.callback.ConfigModule?
                           && (r.manager.step == s + 1
                               || (r.manager.step == s && r.manager.ccidRetries == g.manager.ccidRetries + 1)))
  {
    hide Decide, Uart, Special;
    HeardHolds(g, reply);
    var polled := Polled(Heard(g, reply), t);
    var done := Counted(polled.(engine := Completed(polled.engine.(newData := false), t)));
    DecideForward(done, reply[|Special(g.manager.step)|..]);
    assert Special(g.manager.step) + reply[|Special(g.manager.step)|..] == reply;
  }

  lemma DialNearer(g: Gsm) returns (steps: seq<Step>)
    requires Rests(g) && g.manager.mode.AtStack?
    requires g.manager.state.GsmPowerOn? && g.manager.step > 0 && g.engine.callback.OpenPppStack?
    ensures Legal(g, steps) && Nearer(g, After(g, steps))
  {
    hide Answered, Completes, EngineRests, PowerCycle.PowerRests, BringUpCost.CostRests, Legal, After;
    RestsMeans(g);
    var reply := ReplyTo(g.engine, " ");
    ReplyCompletes(g.engine, " ");
    var t;
    steps, t := Answer(g, reply);
    DialAnswered(g, reply, t);
  }

  lemma ShortTextLacks(text: string, pattern: string)
    requires |text| < |pattern|
    ensures !Contains(text, pattern)
  {
  }

  lemma DialAnswered(g: Gsm, reply: string, t: nat)
    requires WellFormedGsm(g) && g.manager.mode.AtStack? && Completes(g.engine, reply)
    requires g.manager.state.GsmPowerOn? && 1 <= g.manager.step <= 4 && g.engine.callback.OpenPppStack?
    requires |reply| <= 17
    ensures var r, s := Answered(g, reply, t), g.manager.step;
            if s == 4 then r.manager.state.GsmOk?
            else r.manager.state.GsmPowerOn? && r.manager.mode.AtStack?
                 && r.manager.step == s + 1 && r.engine.callback.OpenPppStack?
  {
    hide Uart, Contains;
    HeardHolds(g, reply);
    ShortTextLacks(reply, "+CPIN: NOT INSERTED");
  }

  lemma StepNearer(g: Gsm) returns (steps: seq<Step>)
    requires Rests(g) && g.manager.mode.AtStack?
    ensures Legal(g, steps) && Nearer(g, After(g, steps))
  {
    hide EngineRests, PowerCycle.PowerRests, BringUpCost.CostRests, Legal, After, Nearer;
    AtModeStates(g);
    if g.manager.state.GsmReset? || g.manager.step == 0 {
      steps := PollNearer(g);
    } else if g.engine.callback.ConfigModule? {
      steps := ConfigNearer(g);
    } else {
      steps := DialNearer(g);
    }
  }

  lemma {:induction false} Chain(g: Gsm, a: seq<Step>, b: seq<Step>)
    requires WellFormedGsm(g) && Legal(g, a) && Legal(After(g, a), b)
    ensures Legal(g, a + b) && After(g, a + b) == After(After(g, a), b)
    decreases |a|
  {
    hide Next;
    if a == [] {
      assert a + b == b;
    } else {
      assert (a + b)[1..] == a[1..] + b;
      Chain(Next(g, a[0]), a[1..], b);
    }
  }

  lemma DistanceIsNat(g: Gsm)
    requires Rests(g)
    ensures Distance(g) >= 0 && g.manager.ccidRetries <= 2
  {
    hide EngineRests, PowerCycle.PowerRests, BringUpCost.CostRests;
  }

  /** From every resting state in AT mode there is a way to OK. */
  lemma {:induction false} WayToOk(g: Gsm) returns (steps: seq<Step>)
    requires Rests(g) && g.manager.mode.AtStack?
    ensures Legal(g, steps) && After(g, steps).manager.state.GsmOk?
    decreases Distance(g), 2 - g.manager.ccidRetries
  {
    hide EngineRests, Coherent, PowerCycle.PowerRests, BringUpCost.CostRests, Legal, After, Distance;
    steps := StepNearer(g);
    var r := After(g, steps);
    DistanceIsNat(g);
    AfterKeeps(g, steps);
    DistanceIsNat(r);
    if !r.manager.state.GsmOk? {
      var rest := WayToOk(r);
      Chain(g, steps, rest);
      steps := steps + rest;
    }
  }

  lemma {:induction false} LostForever(g: Gsm, steps: seq<Step>)
    requires Rests(g) && Lost(g) && Legal(g, steps)
    ensures Lost(After(g, steps))
    decreases |steps|
  {
    hide Next, EngineRests, Coherent, Lost, PowerCycle.PowerRests, BringUpCost.CostRests;
    if steps != [] {
      NextLost(g, steps[0]);
      NextKeeps(g, steps[0]);
      LostForever(Next(g, steps[0]), steps[1..]);
    }
  }

  /** At every moment of every run the link can still come up, in some future, if and only if it
      is up or PPP mode has never been entered. */
  lemma OkReachableIff(steps: seq<Step>, n: nat)
    requires Run(steps) && n <= |steps|
    ensures CanReachOk(At(steps, n))
            <==> At(steps, n).manager.state.GsmOk? || At(steps, n).manager.mode.AtStack?
  {
    hide At, EngineRests, Coherent, PowerCycle.PowerRests, BringUpCost.CostRests;
    AtRests(steps, n);
    var g := At(steps, n);
    if g.manager.state.GsmOk? {
      assert Legal(g, []) && After(g, []) == g;
    } else if g.manager.mode.AtStack? {
      var way := WayToOk(g);
    } else {
      forall future | Legal(g, future) ensures !After(g, future).manager.state.GsmOk? {
        LostForever(g, future);
        assert Lost(After(g, future));
      }
    }
  }
}
