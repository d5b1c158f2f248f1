/** The life of one AT command, as a reader of the log would judge it, and the proof that
    every engine operation keeps its log lawful. */
module Lifecycle {
  import opened Words
  import opened AtEngine

  /** A command is live from arming to its one callback. */
  datatype Life =
    | Idle
    | Live(command: Command, sends: nat, lastSent: nat)
    | Unlawful

  /** The law of the log, one entry at a time: a command is armed only when no other is live,
      a live command is neither superseded nor robbed of its buffer, and what is sent is its text. */
  function Judge(life: Life, entry: Entry): Life {
    if life.Unlawful? then Unlawful else
    match entry
    case Armed(command, at) =>
      if life.Idle? && command.retries >= 1 && command.timeout >= 1 then Live(command, 0, at) else Unlawful
    case Sent(text, at) =>
      if life.Live? && text == life.command.text
         && (life.sends == 0
             || (life.sends < life.command.retries && at >= life.lastSent + life.command.timeout))
      then life.(sends := life.sends + 1, lastSent := at) else Unlawful
    case Cut => if life.Live? then Unlawful else life
    case Called(callback, event, at) =>
      if life.Live? && callback == life.command.callback && life.sends >= 1
         && (match event
             case EventOk => true
             case EventTimeout =>
               life.sends == life.command.retries && at >= life.lastSent + life.command.timeout)
      then Idle else Unlawful
    case PppModeSet => life
  }

  function LifeOf(log: seq<Entry>): Life {
    if log == [] then Idle else Judge(LifeOf(log[..|log| - 1]), log[|log| - 1])
  }

  predicate Lawful(log: seq<Entry>) {
    !LifeOf(log).Unlawful?
  }

  lemma LifeOfSnoc(log: seq<Entry>, entry: Entry)
    ensures LifeOf(log + [entry]) == Judge(LifeOf(log), entry)
  {
    assert (log + [entry])[..|log|] == log;
  }

  /** A lawful log is lawful at every earlier moment. */
  lemma {:induction false} LawfulPrefix(log: seq<Entry>, n: nat)
    requires Lawful(log) && n <= |log|
    ensures Lawful(log[..n])
    decreases |log|
  {
    if n < |log| {
      LawfulPrefix(log[..|log| - 1], n);
      assert log[..|log| - 1][..n] == log[..n];
    } else {
      assert log[..n] == log;
    }
  }

  lemma JudgeAt(log: seq<Entry>, n: nat)
    requires n < |log|
    ensures LifeOf(log[..n + 1]) == Judge(LifeOf(log[..n]), log[n])
  {
    assert log[..n + 1] == log[..n] + [log[n]];
    LifeOfSnoc(log[..n], log[n]);
  }

  predicate NoArmIn(log: seq<Entry>, from: nat, until: nat)
    requires until <= |log|
  {
    forall i | from <= i < until :: !log[i].Armed?
  }

  /** With no arming in between, an idle engine stays idle and calls nobody. */
  lemma {:induction false} IdleStaysIdle(log: seq<Entry>, from: nat, until: nat)
    requires from <= until <= |log| && Lawful(log)
    requires LifeOf(log[..from]).Idle? && NoArmIn(log, from, until)
    ensures LifeOf(log[..until]).Idle?
    ensures forall i | from <= i < until :: !log[i].Called? && !log[i].Sent?
    decreases until - from
  {
    hide LifeOf;
    if from < until {
      IdleStaysIdle(log, from, until - 1);
      JudgeAt(log, until - 1);
      LawfulPrefix(log, until);
    }
  }

  /** Each armed command gets at most one callback: between two callbacks there is always
      a new arming, however often the callbacks re-arm the engine. */
  lemma AtMostOneCallback(log: seq<Entry>, i: nat, j: nat)
    requires Lawful(log) && i < j < |log|
    requires log[i].Called? && log[j].Called?
    ensures !NoArmIn(log, i + 1, j)
  {
    if NoArmIn(log, i + 1, j) {
      LawfulPrefix(log, i + 1);
      JudgeAt(log, i);
      IdleStaysIdle(log, i + 1, j);
      JudgeAt(log, j);
      LawfulPrefix(log, j + 1);
    }
  }

  function SendsIn(log: seq<Entry>, from: nat, until: nat): nat
    requires from <= until <= |log|
    decreases until - from
  {
    if from == until then 0 else SendsIn(log, from, until - 1) + (if log[until - 1].Sent? then 1 else 0)
  }

  predicate CutIn(log: seq<Entry>, from: nat, until: nat)
    requires until <= |log|
  {
    exists i :: from <= i < until && log[i].Cut?
  }

  /** Everything transmitted in a stretch is `text`. */
  predicate SendsOnly(log: seq<Entry>, from: nat, until: nat, text: string)
    requires until <= |log|
  {
    forall i | from <= i < until && log[i].Sent? :: log[i].text == text
  }

  predicate QuietIn(log: seq<Entry>, from: nat, until: nat)
    requires until <= |log|
  {
    forall i | from <= i < until :: !log[i].Armed? && !log[i].Called?
  }

  /** While a command is live the judge remembers exactly what the log says about it. */
  lemma {:induction false} LiveRemembers(log: seq<Entry>, a: nat, n: nat)
    requires Lawful(log) && a < n <= |log| && log[a].Armed? && QuietIn(log, a + 1, n)
    ensures LifeOf(log[..n]).Live?
    ensures LifeOf(log[..n]).command == log[a].command && log[a].command.retries >= 1
    ensures LifeOf(log[..n]).sends == SendsIn(log, a + 1, n) <= log[a].command.retries
    ensures !CutIn(log, a + 1, n) && SendsOnly(log, a + 1, n, log[a].command.text)
    decreases n
  {
    hide LifeOf;
    LawfulPrefix(log, n);
    JudgeAt(log, n - 1);
    if a + 1 < n {
      LiveRemembers(log, a, n - 1);
    }
  }

  /** The whole life of the command armed at `a` and called back at `b`: it was sent between
      once and `retries` times, all of them before a TIMEOUT; the callback is its own, and the
      buffer was never reset under it. */
  lemma CommandLife(log: seq<Entry>, a: nat, b: nat)
    requires Lawful(log) && a < b < |log| && log[a].Armed? && log[b].Called?
    requires QuietIn(log, a + 1, b)
    ensures log[b].callback == log[a].command.callback
    ensures 1 <= SendsIn(log, a + 1, b) <= log[a].command.retries
    ensures log[b].event.EventTimeout? ==> SendsIn(log, a + 1, b) == log[a].command.retries
    ensures !CutIn(log, a + 1, b) && SendsOnly(log, a + 1, b, log[a].command.text)
  {
    LiveRemembers(log, a, b);
    JudgeAt(log, b);
    LawfulPrefix(log, b + 1);
  }

  predicate CalledIn(log: seq<Entry>, from: nat, until: nat)
    requires until <= |log|
  {
    exists i :: from <= i < until && log[i].Called?
  }

  /** No command is superseded: the next one is armed only after the callback of this one. */
  lemma NeverSuperseded(log: seq<Entry>, a: nat, b: nat)
    requires Lawful(log) && a < b < |log| && log[a].Armed? && log[b].Armed? && NoArmIn(log, a + 1, b)
    ensures CalledIn(log, a + 1, b)
  {
    if !CalledIn(log, a + 1, b) {
      LiveRemembers(log, a, b);
      JudgeAt(log, b);
      LawfulPrefix(log, b + 1);
    }
  }

  lemma {:induction false} SendsWithout(log: seq<Entry>, from: nat, mid: nat, until: nat)
    requires from <= mid <= until <= |log|
    requires forall i | mid <= i < until :: !log[i].Sent?
    ensures SendsIn(log, from, until) == SendsIn(log, from, mid)
    decreases until - mid
  {
    if mid < until {
      SendsWithout(log, from, mid, until - 1);
    }
  }

  lemma CallbackEnds(log: seq<Entry>, c: nat)
    requires Lawful(log) && c < |log| && log[c].Called?
    ensures LifeOf(log[..c + 1]).Idle?
  {
    LawfulPrefix(log, c + 1);
    JudgeAt(log, c);
  }

  /** Every transmission of a called-back command came before its callback. */
  lemma SentBeforeCallback(log: seq<Entry>, a: nat, c: nat, b: nat)
    requires Lawful(log) && a < c < b <= |log| && log[a].Armed? && log[c].Called?
    requires QuietIn(log, a + 1, c) && NoArmIn(log, c + 1, b)
    ensures SendsIn(log, a + 1, b) == SendsIn(log, a + 1, c)
    ensures forall i | c < i < b :: !log[i].Sent?
    ensures !CalledIn(log, c + 1, b) && LifeOf(log[..b]).Idle?
  {
    hide Judge, LifeOf;
    CallbackEnds(log, c);
    IdleStaysIdle(log, c + 1, b);
    SendsWithout(log, a + 1, c, b);
  }

  /** The last transmission before position `n` of the command armed at `a`. */
  predicate LastSendBefore(log: seq<Entry>, n: nat, s: nat)
    requires n <= |log|
  {
    s < n && log[s].Sent? && forall i | s < i < n :: !log[i].Sent?
  }

  lemma {:induction false} LastSentIs(log: seq<Entry>, a: nat, n: nat, s: nat)
    requires Lawful(log) && a < s < n <= |log| && log[a].Armed? && QuietIn(log, a + 1, n)
    requires LastSendBefore(log, n, s)
    ensures LifeOf(log[..n]).Live? && LifeOf(log[..n]).lastSent == log[s].at
    ensures LifeOf(log[..n]).sends >= 1
    decreases n
  {
    LiveRemembers(log, a, n);
    JudgeAt(log, n - 1);
    if s + 1 < n {
      LastSentIs(log, a, n - 1, s);
    } else {
      LiveRemembers(log, a, n - 1);
    }
  }

  /** Every expiry is real: a retransmission or a TIMEOUT callback comes at least `timeout`
      true milliseconds after the transmission before it. */
  lemma ExpiryIsReal(log: seq<Entry>, a: nat, s: nat, n: nat)
    requires Lawful(log) && a < s < n < |log| && log[a].Armed? && QuietIn(log, a + 1, n)
    requires LastSendBefore(log, n, s)
    requires log[n].Sent? || (log[n].Called? && log[n].event.EventTimeout?)
    ensures log[n].at >= log[s].at + log[a].command.timeout
  {
    LastSentIs(log, a, n, s);
    LiveRemembers(log, a, n);
    JudgeAt(log, n);
    LawfulPrefix(log, n + 1);
  }

  /** The command an engine holds, had it started with so many retries. */
  function CommandOf(e: Engine, retries: nat): Command {
    Command(e.text, e.wanted, e.ending, e.timeout, retries, e.callback)
  }

  /** The engine's countdown and the judge agree. */
  predicate Tracks(e: Engine, clock: nat) {
    var life := LifeOf(e.log);
    && !life.Unlawful?
    && (e.timeout > 0 <==> life.Live?)
    && (life.Idle? ==> e.retry == 0)
    && (life.Live? ==>
          && life.command == CommandOf(e, life.command.retries)
          && e.sentTick == Tick(life.lastSent) && life.lastSent <= clock
          && 1 <= life.sends <= life.command.retries
          && e.retry == life.command.retries - life.sends + 1)
  }

  lemma {:induction false} FirstCall(log: seq<Entry>, from: nat, until: nat) returns (c: nat)
    requires from <= until <= |log| && CalledIn(log, from, until)
    ensures from <= c < until && log[c].Called? && !CalledIn(log, from, c)
    decreases until - from
  {
    if log[from].Called? {
      c := from;
    } else {
      c := FirstCall(log, from + 1, until);
    }
  }

  /** Between two calls, every command in the log has been sent between one and `retries`
      times, and has been called back unless it is the one still waiting. */
  lemma CommandSent(e: Engine, clock: nat, a: nat, b: nat)
    requires Tracks(e, clock)
    requires a < b <= |e.log| && e.log[a].Armed? && NoArmIn(e.log, a + 1, b)
    requires b == |e.log| || e.log[b].Armed?
    ensures 1 <= SendsIn(e.log, a + 1, b) <= e.log[a].command.retries
    ensures SendsOnly(e.log, a + 1, b, e.log[a].command.text)
    ensures CalledIn(e.log, a + 1, b) <==> b < |e.log| || e.timeout == 0
  {
    hide Judge, LifeOf;
    assert e.log[..|e.log|] == e.log;
    if b < |e.log| {
      NeverSuperseded(e.log, a, b);
    }
    if CalledIn(e.log, a + 1, b) {
      var c := FirstCall(e.log, a + 1, b);
      CommandLife(e.log, a, c);
      SentBeforeCallback(e.log, a, c, b);
    } else {
      LiveRemembers(e.log, a, b);
    }
  }

  lemma ArmTracks(e: Engine, c: Command, clock: nat, now: nat)
    requires Tracks(e, clock) && e.timeout == 0 && ValidCommand(c) && clock <= now
    ensures Tracks(Arm(e, c, now), now) && LifeOf(Arm(e, c, now).log) == Live(c, 1, now)
  {
    var armed := Armed(c, now);
    LifeOfSnoc(e.log, armed);
    LifeOfSnoc(e.log + [armed], Sent(c.text, now));
    assert Arm(e, c, now).log == e.log + [armed] + [Sent(c.text, now)];
  }

  lemma ResetTracks(e: Engine, clock: nat)
    requires Tracks(e, clock) && e.timeout == 0
    ensures Tracks(Reset(e), clock)
  {
    LifeOfSnoc(e.log, Cut);
  }

  lemma MarkTracks(e: Engine, clock: nat)
    requires Tracks(e, clock)
    ensures Tracks(Note(e, PppModeSet), clock)
  {
    LifeOfSnoc(e.log, PppModeSet);
  }

  lemma CompletedTracks(e: Engine, clock: nat, now: nat)
    requires WellFormed(e) && Tracks(e, clock) && e.retry > 0 && clock <= now
    ensures Tracks(Completed(e, now), now)
  {
    LifeOfSnoc(e.log, Called(e.callback, EventOk, now));
  }

  /** Running out: the last retry is used up. */
  lemma GivenUpTracks(e: Engine, clock: nat, checked: nat, now: nat)
    requires Tracks(e, clock) && clock <= checked <= now && Expired(e, checked) && e.retry <= 1
    ensures Tracks(GivenUp(Decremented(e), now), now)
  {
    ElapsedModulo(LifeOf(e.log).lastSent, checked);
    LifeOfSnoc(e.log, Called(e.callback, EventTimeout, now));
  }

  lemma ResentTracks(e: Engine, clock: nat, checked: nat, now: nat)
    requires Tracks(e, clock) && clock <= checked <= now && Expired(e, checked) && e.retry >= 2
    ensures Tracks(Resent(Decremented(e), now), now)
    ensures LifeOf(Resent(Decremented(e), now).log).command == LifeOf(e.log).command
  {
    ElapsedModulo(LifeOf(e.log).lastSent, checked);
    LifeOfSnoc(e.log, Sent(e.text, now));
  }
}
