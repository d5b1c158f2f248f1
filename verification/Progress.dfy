/** Progress in any run: what is owed to the machine by the clock alone. Between the steps that
    count, polls, early engine runs, bytes and PPP events may come in any number and order. */
module Progress {
  import opened Words
  import opened CStrings
  import opened AtEngine
  import opened BringUp
  import opened Coherence
  import opened EngineSafety
  import opened PowerCycle
  import opened BringUpCost
  import opened Deliveries
  import opened LostLink
  import opened Traces
  import opened Runs

  predicate CalledSince(before: seq<Entry>, after: seq<Entry>) {
    exists k :: |before| <= k < |after| && after[k].Called?
  }

  /** A run of the engine whose clock readings find the poll due and the command overdue. */
  predicate Late(g: Gsm, env: RunEnv) {
    GateOpen(g.engine, env.entered) && Expired(g.engine, env.checked)
  }

  /** A late run either calls somebody back or uses up one retry. */
  lemma LateRunProgress(g: Gsm, env: RunEnv)
    requires WellFormedGsm(g) && Late(g, env) && g.engine.retry >= 1
    ensures var r := HwRun(g, env);
            CalledSince(g.engine.log, r.engine.log)
            || (1 <= r.engine.retry == g.engine.retry - 1 && r.engine.timeout == g.engine.timeout)
  {
    hide CallBack, Matches, Contains, CStr;
    var polled := Polled(g, env.entered);
    var e := polled.engine.(newData := false);
    if polled.engine.newData && Matches(e) {
      var matched := MatchPhase(polled, env);
      var done := polled.(engine := Completed(e, env.replied));
      CallBackSilent(done, EventOk, CStr(done.engine.buffer), env.okCodes, env.replied);
      TimeoutPhaseDeliversNone(matched, env);
      assert matched.engine.log[|g.engine.log|].Called?;
      assert HwRun(g, env).engine.log[|g.engine.log|].Called?;
    } else {
      var matched := MatchPhase(polled, env);
      assert matched.engine == polled.engine.(newData := false) || matched.engine == polled.engine;
      if g.engine.retry == 1 {
        var over := matched.(engine := GivenUp(Decremented(matched.engine), env.acted));
        CallBackSilent(over, EventTimeout, env.nullText, env.timeoutCodes, env.acted);
        assert over.engine.log[|g.engine.log|].Called?;
        assert HwRun(g, env).engine.log[|g.engine.log|].Called?;
      }
    }
  }

  /** An engine run that is not late calls back or leaves the countdown alone. */
  lemma EarlyRunKeeps(g: Gsm, env: RunEnv)
    requires WellFormedGsm(g) && !Late(g, env) && g.engine.timeout >= 1
    ensures var r := HwRun(g, env);
            CalledSince(g.engine.log, r.engine.log)
            || (r.engine.retry == g.engine.retry && r.engine.timeout == g.engine.timeout)
  {
    hide CallBack, Matches, Contains, CStr;
    if GateOpen(g.engine, env.entered) {
      var polled := Polled(g, env.entered);
      var e := polled.engine.(newData := false);
      if polled.engine.retry > 0 && polled.engine.newData && Matches(e) {
        var matched := MatchPhase(polled, env);
        var done := polled.(engine := Completed(e, env.replied));
        CallBackSilent(done, EventOk, CStr(done.engine.buffer), env.okCodes, env.replied);
        TimeoutPhaseDeliversNone(matched, env);
        assert matched.engine.log[|g.engine.log|].Called?;
        assert HwRun(g, env).engine.log[|g.engine.log|].Called?;
      }
    }
  }

  function LateStep(g: Gsm, step: Step): nat {
    if step.RunStep? && Late(g, step.env) then 1 else 0
  }

  /** The engine runs among `steps` that are late in the state they find. */
  function LateRuns(g: Gsm, steps: seq<Step>): nat
    requires WellFormedGsm(g)
    decreases |steps|
  {
    if steps == [] then 0 else LateStep(g, steps[0]) + LateRuns(Next(g, steps[0]), steps[1..])
  }

  /** While a command waits nothing but a late run touches its countdown: a poll has nothing to
      do, and PPP has no block to call through. */
  lemma WaitingStep(g: Gsm, step: Step)
    requires Rests(g) && Enabled(g, step) && Waiting(g.engine)
    ensures var r := Next(g, step);
            CalledSince(g.engine.log, r.engine.log)
            || (Waiting(r.engine) && r.engine.retry + LateStep(g, step) == g.engine.retry)
  {
    hide HwRun, EngineRests, PowerRests, CostRests, Late, Store, Zeros;
    match step
    case RunStep(env) =>
      if Late(g, env) {
        LateRunProgress(g, env);
        LateTimeout(g, env);
      } else {
        EarlyRunKeeps(g, env);
      }
    case PollStep(_) =>
    case UartStep(_) =>
    case PppStep(_, _) =>
    case PhaseStep(_) =>
  }

  lemma LateTimeout(g: Gsm, env: RunEnv)
    requires Late(g, env)
    ensures g.engine.timeout >= 1
  {
  }

  /** An armed command never hangs: in any run whatever, as many late engine runs as it has
      retries left deliver its callback. */
  lemma {:induction false} CallbackInAnyRun(g: Gsm, steps: seq<Step>)
    requires Rests(g) && Legal(g, steps) && Waiting(g.engine)
    requires LateRuns(g, steps) >= g.engine.retry
    ensures CalledSince(g.engine.log, After(g, steps).engine.log)
    decreases |steps|
  {
    hide Next, Enabled, EngineRests, Coherent, PowerRests, CostRests;
    var next := Next(g, steps[0]);
    NextKeeps(g, steps[0]);
    WaitingStep(g, steps[0]);
    NextLogGrows(g, steps[0]);
    LogGrows(next, steps[1..]);
    if CalledSince(g.engine.log, next.engine.log) {
      var k :| |g.engine.log| <= k < |next.engine.log| && next.engine.log[k].Called?;
      assert After(g, steps).engine.log[k].Called?;
    } else {
      CallbackInAnyRun(next, steps[1..]);
      var k :| |next.engine.log| <= k < |After(g, steps).engine.log| && After(g, steps).engine.log[k].Called?;
    }
  }

  /** A lost link that is still being worked on: a reopening, or a power-on past its first poll. */
  predicate Trying(g: Gsm) {
    Lost(g) && (g.manager.state.GsmReopenPpp? || (g.manager.state.GsmPowerOn? && g.manager.step > 0))
  }

  /** The late runs that such a state can still use up: the retries left, and those of the
      commands that follow in the dial chain. */
  function Budget(g: Gsm): nat {
    g.engine.retry + if g.engine.callback.ConfigModule? || g.manager.step >= 3 then 0
                     else if g.manager.step == 2 then 5 else 2 + 5
  }

  lemma BudgetIsSmall(g: Gsm)
    requires Rests(g) && Trying(g)
    ensures 1 <= Budget(g) <= if g.engine.callback.ConfigModule? then 30 else 12
    ensures g.manager.state.GsmReopenPpp? ==> g.engine.callback.OpenPppStack?
  {
    hide EngineRests, PowerRests, CostRests;
  }

  /** What a timeout does to a lost link: the next command of the dial chain, or a reset. */
  lemma TimeoutSpends(g: Gsm, env: RunEnv)
    requires WellFormedGsm(g) && Coherent(g) && Trying(g) && Expired(g.engine, env.checked)
    ensures var r := TimeoutPhase(g, env);
            r.manager.state.GsmReset? || (Trying(r) && Budget(r) + 1 <= Budget(g))
  {
    hide Decide, Zeros, Contains, ForwardCommand;
    DecideFits(Counted(g.(engine := GivenUp(Decremented(g.engine), env.acted))), EventTimeout, env.nullText);
  }

  lemma RunSpends(g: Gsm, env: RunEnv)
    requires Rests(g) && Trying(g) && Enabled(g, RunStep(env))
    ensures var r := HwRun(g, env);
            r.manager.state.GsmReset? || (Trying(r) && Budget(r) + LateStep(g, RunStep(env)) <= Budget(g))
  {
    hide EngineOk, PowerRests, CostRests, MatchPhase, TimeoutPhase, Expired;
    if GateOpen(g.engine, env.entered) {
      var polled := Polled(g, env.entered);
      PolledRests(g, env.entered);
      RestsMeans(polled);
      MatchPhaseCoherent(polled, env);
      QuietMatch(polled, env);
      var m := MatchPhase(polled, env);
      if Expired(m.engine, env.checked) {
        TimeoutSpends(m, env);
      } else {
        NothingExpired(m, env);
      }
      SameExpiry(g.engine, m.engine, env.checked);
    }
  }

  lemma NothingExpired(g: Gsm, env: RunEnv)
    requires WellFormedGsm(g) && !Expired(g.engine, env.checked)
    ensures TimeoutPhase(g, env) == g
  {
  }

  lemma SameExpiry(a: Engine, b: Engine, now: nat)
    requires a.timeout == b.timeout && a.sentTick == b.sentTick
    ensures Expired(a, now) <==> Expired(b, now)
  {
  }

  /** In PPP mode the reply half only takes note of new data. */
  lemma QuietMatch(g: Gsm, env: RunEnv)
    requires WellFormedGsm(g) && EngineRests(g) && Coherent(g) && g.manager.mode.PppStack?
    ensures MatchPhase(g, env) == g.(engine := g.engine.(newData := MatchPhase(g, env).engine.newData))
  {
    hide EngineOk, CallBack, Matches;
    if g.engine.retry > 0 && g.engine.newData && Matches(g.engine.(newData := false)) {
      RestsMeans(g);
      OkOnlyInAtMode(g.(engine := g.engine.(newData := false)));
    }
  }

  lemma TryingStep(g: Gsm, step: Step)
    requires Rests(g) && Enabled(g, step) && Trying(g)
    ensures var r := Next(g, step);
            r.manager.state.GsmReset? || (Trying(r) && Budget(r) + LateStep(g, step) <= Budget(g))
  {
    hide HwRun, EngineRests, PowerRests, CostRests, Late, Store;
    match step
    case RunStep(env) => RunSpends(g, env);
    case PollStep(_) =>
    case UartStep(_) =>
    case PppStep(_, _) =>
    case PhaseStep(_) =>
  }

  /** How a lost link ends: a reopening of it, or a power-on after it, is back in RESET after as
      many late engine runs as its commands have retries, whatever else happens. */
  lemma {:induction false} BackToReset(g: Gsm, steps: seq<Step>) returns (k: nat)
    requires Rests(g) && Legal(g, steps) && Trying(g) && LateRuns(g, steps) >= Budget(g)
    ensures k <= |steps| && After(g, steps[..k]).manager.state.GsmReset?
    decreases |steps|
  {
    hide Next, Enabled, EngineRests, Coherent, PowerRests, CostRests, Trying, Budget;
    BudgetIsSmall(g);
    var next := Next(g, steps[0]);
    NextKeeps(g, steps[0]);
    TryingStep(g, steps[0]);
    if next.manager.state.GsmReset? {
      k := 1;
      assert steps[..1][1..] == [] && After(next, []) == next;
    } else {
      var j := BackToReset(next, steps[1..]);
      k := j + 1;
      assert steps[..k][1..] == steps[1..][..j];
    }
  }

  /** In numbers: 12 late runs end every attempt of the dial chain, 30 end a power-on. */
  lemma LostLinkResets(steps: seq<Step>, n: nat, rest: seq<Step>) returns (k: nat)
    requires Run(steps) && n <= |steps| && Trying(At(steps, n)) && Legal(At(steps, n), rest)
    requires LateRuns(At(steps, n), rest) >= if At(steps, n).engine.callback.ConfigModule? then 30 else 12
    ensures k <= |rest| && After(At(steps, n), rest[..k]).manager.state.GsmReset?
  {
    hide At, Legal, After, EngineRests, Coherent, PowerRests, CostRests, Trying, Budget, LateRuns;
    AtRests(steps, n);
    BudgetIsSmall(At(steps, n));
    k := BackToReset(At(steps, n), rest);
  }

  /** The state polls among `steps` that find the one-second gate open. */
  function DuePolls(g: Gsm, steps: seq<Step>): nat
    requires WellFormedGsm(g)
    decreases |steps|
  {
    if steps == [] then 0 else DuePoll(g, steps[0]) + DuePolls(Next(g, steps[0]), steps[1..])
  }

  function DuePoll(g: Gsm, step: Step): nat {
    if step.PollStep? && Sub32(Tick(step.now), g.manager.lastTick) >= 1000 then 1 else 0
  }

  /** In RESET only a due poll moves the machine, by one power step. */
  lemma ResetStep(g: Gsm, step: Step)
    requires Rests(g) && Enabled(g, step) && g.manager.state.GsmReset?
    ensures var r := Next(g, step);
            if DuePoll(g, step) == 1 && g.manager.powerStep == 7
            then r.manager.state.GsmPowerOn? && r.manager.step == 0
            else r.manager.state.GsmReset? && r.manager.powerStep == g.manager.powerStep + DuePoll(g, step)
  {
    hide Poll, CallBack, EngineRests, PowerRests, CostRests, Store, Tick, Sub32;
    if step.PollStep? {
      PollShape(g, step.now);
      PollAdvances(g);
    }
  }

  /** A power cycle always ends: in any run from RESET, as many due polls as power steps are
      left enter POWER_ON. */
  lemma {:induction false} ResetEnds(g: Gsm, steps: seq<Step>) returns (k: nat)
    requires Rests(g) && Legal(g, steps) && g.manager.state.GsmReset?
    requires DuePolls(g, steps) + g.manager.powerStep >= 8
    ensures k <= |steps| && After(g, steps[..k]).manager.state.GsmPowerOn?
    decreases |steps|
  {
    hide Next, Enabled, EngineRests, PowerRests, CostRests;
    var next := Next(g, steps[0]);
    NextKeeps(g, steps[0]);
    ResetStep(g, steps[0]);
    if next.manager.state.GsmPowerOn? {
      k := 1;
      assert steps[..1][1..] == [] && After(next, []) == next;
    } else {
      var j := ResetEnds(next, steps[1..]);
      k := j + 1;
      assert steps[..k][1..] == steps[1..][..j];
    }
  }
}
