/** The main results about whole runs of the program from power-up, with arbitrary polling,
    clock readings, UART bytes, replies and PPP status events. */
module Runs {
  import opened CStrings
  import opened AtEngine
  import opened Lifecycle
  import opened ReplyMatch
  import opened BringUp
  import opened Coherence
  import opened EngineSafety
  import opened PowerCycle
  import opened BringUpCost
  import opened Deliveries
  import opened LostLink
  import opened Traces

  /** Everything that holds between two steps. */
  predicate Rests(g: Gsm) {
    WellFormedGsm(g) && Coherent(g) && EngineRests(g) && PowerRests(g) && CostRests(g)
  }

  lemma InitialTracks()
    ensures Initial().engine.log == [Cut] && Tracks(Initial().engine, 0)
  {
    hide Zeros, CStr;
    LifeOfSnoc([], Cut);
    assert [] + [Cut] == [Cut];
  }

  lemma InitialEngine()
    ensures EngineRests(Initial())
  {
    hide Tracks, LifeOf, Judge;
    InitialTracks();
  }

  lemma InitialMachine()
    ensures PowerRests(Initial()) && Coherent(Initial()) && CostRests(Initial())
  {
    hide Zeros;
  }

  lemma InitialRests()
    ensures Rests(Initial())
  {
    hide Initial, EngineRests, PowerRests, Coherent, CostRests;
    InitialEngine();
    InitialMachine();
  }

  lemma NextKeeps(g: Gsm, step: Step)
    requires Rests(g) && Enabled(g, step)
    ensures Rests(Next(g, step))
  {
    hide Coherent, EngineRests, PowerRests, CostRests, Next, Enabled;
    RestsMeans(g);
    NextCoherent(g, step);
    NextRests(g, step);
    NextPower(g, step);
    NextCosts(g, step);
  }

  lemma {:induction false} AfterKeeps(g: Gsm, steps: seq<Step>)
    requires Rests(g) && Legal(g, steps)
    ensures Rests(After(g, steps))
    decreases |steps|
  {
    hide Coherent, EngineRests, PowerRests, CostRests, Next;
    if steps != [] {
      NextKeeps(g, steps[0]);
      AfterKeeps(Next(g, steps[0]), steps[1..]);
    }
  }

  /** A run of the program. */
  predicate Run(steps: seq<Step>) {
    Legal(Initial(), steps)
  }

  /** The state a run has reached after `n` of its steps. */
  function At(steps: seq<Step>, n: nat): (g: Gsm)
    requires n <= |steps|
    ensures WellFormedGsm(g)
  {
    After(Initial(), steps[..n])
  }

  lemma {:induction false} LegalUpTo(g: Gsm, steps: seq<Step>, n: nat)
    requires WellFormedGsm(g) && Legal(g, steps) && n <= |steps|
    ensures Legal(g, steps[..n])
    ensures n < |steps| ==> Enabled(After(g, steps[..n]), steps[n])
                            && After(g, steps[..n + 1]) == Next(After(g, steps[..n]), steps[n])
    decreases n
  {
    hide Next, Enabled;
    if n > 0 {
      LegalUpTo(Next(g, steps[0]), steps[1..], n - 1);
      assert steps[..n][1..] == steps[1..][..n - 1];
      if n < |steps| {
        assert steps[..n + 1][1..] == steps[1..][..n];
      }
    } else if |steps| > 0 {
      assert steps[..0] == [] && steps[..1][1..] == [];
    }
  }

  lemma AtRests(steps: seq<Step>, n: nat)
    requires Run(steps) && n <= |steps|
    ensures Rests(At(steps, n))
    ensures n < |steps| ==> Enabled(At(steps, n), steps[n]) && At(steps, n + 1) == Next(At(steps, n), steps[n])
  {
    hide Rests, Next, Enabled, Initial;
    InitialRests();
    LegalUpTo(Initial(), steps, n);
    AfterKeeps(Initial(), steps[..n]);
  }

  /** Bring-up never stalls, and whoever is waiting for a callback fits the state. */
  lemma NeverStalls(steps: seq<Step>, n: nat)
    requires Run(steps) && n <= |steps|
    ensures UnderWay(At(steps, n)) && PendingFits(At(steps, n))
    ensures At(steps, n).manager.step <= 24
  {
    AtRests(steps, n);
    CoherentMeans(At(steps, n));
  }

  /** The default branch of the configuration switch is unreachable: whenever a half of the
      engine is about to call gsm_config_module, the step is one the switch handles. */
  lemma DefaultBranchUnreachable(steps: seq<Step>, n: nat, event: Event, reply: string)
    requires Run(steps) && n < |steps| && steps[n].RunStep?
    ensures var g := At(steps, n);
            g.engine.timeout > 0 && g.engine.callback.ConfigModule? ==> !Decide(g, event, reply).Unhandled?
    ensures var m := MatchPhase(Polled(At(steps, n), steps[n].env.entered), steps[n].env);
            m.engine.timeout > 0 && m.engine.callback.ConfigModule? ==> !Decide(m, event, reply).Unhandled?
  {
    hide Decide, MatchPhase, Initial, After, EngineRests;
    AtRests(steps, n);
    var g, env := At(steps, n), steps[n].env;
    var polled := Polled(g, env.entered);
    var m := MatchPhase(polled, env);
    PolledRests(g, env.entered);
    RestsMeans(polled);
    MatchPhaseCoherent(polled, env);
    if g.engine.timeout > 0 && g.engine.callback.ConfigModule? {
      DecideFits(g, event, reply);
    }
    if m.engine.timeout > 0 && m.engine.callback.ConfigModule? {
      DecideFits(m, event, reply);
    }
  }

  /** The life of every command in every run: one callback at most, its own, after one to
      `retries` transmissions of its own text, all of them before a TIMEOUT, and no buffer reset
      before it. */
  lemma EveryCommandLife(steps: seq<Step>, n: nat, a: nat, b: nat)
    requires Run(steps) && n <= |steps|
    requires var log := At(steps, n).engine.log;
             a < b < |log| && log[a].Armed? && log[b].Called? && NoArmIn(log, a + 1, b)
    ensures var log := At(steps, n).engine.log;
            && QuietIn(log, a + 1, b) && !CutIn(log, a + 1, b)
            && log[b].callback == log[a].command.callback
            && 1 <= SendsIn(log, a + 1, b) <= log[a].command.retries
            && SendsOnly(log, a + 1, b, log[a].command.text)
            && (log[b].event.EventTimeout? ==> SendsIn(log, a + 1, b) == log[a].command.retries)
  {
    AtRests(steps, n);
    var log := At(steps, n).engine.log;
    assert Lawful(log);
    forall i | a < i < b ensures !log[i].Called? {
      if log[i].Called? {
        AtMostOneCallback(log, i, b);
      }
    }
    CommandLife(log, a, b);
  }

  /** Every command ever armed, called back or still waiting, was sent its text between one and
      `retries` times before the next one was armed; and the next one was armed only after its callback,
      so that no command is superseded. */
  lemma EveryCommandSent(steps: seq<Step>, n: nat, a: nat, b: nat)
    requires Run(steps) && n <= |steps|
    requires var log := At(steps, n).engine.log;
             && a < b <= |log| && log[a].Armed? && NoArmIn(log, a + 1, b)
             && (b == |log| || log[b].Armed?)
    ensures var log := At(steps, n).engine.log;
            && 1 <= SendsIn(log, a + 1, b) <= log[a].command.retries
            && SendsOnly(log, a + 1, b, log[a].command.text)
            && (CalledIn(log, a + 1, b) <==> b < |log| || At(steps, n).engine.timeout == 0)
  {
    AtRests(steps, n);
    CommandSent(At(steps, n).engine, At(steps, n).history.clock, a, b);
  }

  /** Every retransmission and every TIMEOUT in every run comes at least the command's timeout
      after the transmission before it, in true milliseconds. */
  lemma EveryExpiryIsReal(steps: seq<Step>, n: nat, a: nat, s: nat, b: nat)
    requires Run(steps) && n <= |steps|
    requires var log := At(steps, n).engine.log;
             && a < s < b < |log| && log[a].Armed? && QuietIn(log, a + 1, b) && LastSendBefore(log, b, s)
             && (log[b].Sent? || (log[b].Called? && log[b].event.EventTimeout?))
    ensures var log := At(steps, n).engine.log; log[b].at >= log[s].at + log[a].command.timeout
  {
    AtRests(steps, n);
    ExpiryIsReal(At(steps, n).engine.log, a, s, b);
  }

  /** Every OK callback of every run is a complete reply, and every complete reply that the
      engine looks at is an OK callback. */
  lemma EveryOkIsReply(steps: seq<Step>, n: nat)
    requires Run(steps) && n < |steps| && steps[n].RunStep?
    ensures var g, r := At(steps, n), At(steps, n + 1);
            && (OkSince(g.engine.log, r.engine.log) ==>
                  g.manager.mode.AtStack? && g.engine.retry > 0 && g.engine.newData)
            && (GateOpen(g.engine, steps[n].env.entered) && g.engine.retry > 0 && g.engine.newData
                && |g.engine.received| < BUFFER_SIZE ==>
                  (OkSince(g.engine.log, r.engine.log)
                   <==> ReplyComplete(g.engine.received, g.engine.wanted, g.engine.ending)))
  {
    hide HwRun, ReplyComplete, Matches;
    AtRests(steps, n);
    var g, env := At(steps, n), steps[n].env;
    RunDelivers(g, env);
    if GateOpen(g.engine, env.entered) && g.engine.retry > 0 && g.engine.newData {
      OkMeansReply(g, env);
    }
  }

  /** No OK callback follows the callback that set PPP mode. */
  lemma PppNeverCompletesACommand(steps: seq<Step>, n: nat)
    requires Run(steps) && n <= |steps|
    ensures NoOkAfterPpp(At(steps, n).engine.log)
    ensures At(steps, n).manager.mode.PppStack? <==> PppModeSet in At(steps, n).engine.log
  {
    AtRests(steps, n);
  }

  lemma {:induction false} LostUpTo(steps: seq<Step>, j: nat, k: nat)
    requires Run(steps) && j <= k <= |steps| && Lost(At(steps, j))
    ensures Lost(At(steps, k))
    decreases k
  {
    hide Next, Initial, After;
    if j < k {
      LostUpTo(steps, j, k - 1);
      AtRests(steps, k - 1);
      NextLost(At(steps, k - 1), steps[k - 1]);
    }
  }

  lemma {:induction false} PppModeStays(steps: seq<Step>, j: nat, k: nat)
    requires Run(steps) && j <= k <= |steps| && At(steps, j).manager.mode.PppStack?
    ensures At(steps, k).manager.mode.PppStack?
    decreases k
  {
    hide Next, Initial, After;
    if j < k {
      PppModeStays(steps, j, k - 1);
      AtRests(steps, k - 1);
      NextRests(At(steps, k - 1), steps[k - 1]);
    }
  }

  /** A program that leaves OK never comes back to it: neither the dial chain nor a full power
      cycle recovers a link that was once up. */
  lemma LinkComesUpOnce(steps: seq<Step>, i: nat, j: nat, k: nat)
    requires Run(steps) && i < j <= k <= |steps|
    requires At(steps, i).manager.state.GsmOk? && !At(steps, j).manager.state.GsmOk?
    ensures !At(steps, k).manager.state.GsmOk?
  {
    hide Next, Initial, After;
    AtRests(steps, i);
    PppModeStays(steps, i, j);
    LostUpTo(steps, j, k);
  }

  /** The first dial decides: once a dial callback has come and the machine is not in OK, OK is
      out of reach for the rest of the run. */
  lemma FirstDialDecides(steps: seq<Step>, j: nat, k: nat)
    requires Run(steps) && j <= k <= |steps|
    requires PppModeSet in At(steps, j).engine.log && !At(steps, j).manager.state.GsmOk?
    ensures !At(steps, k).manager.state.GsmOk?
  {
    hide Next, Initial, After;
    PppNeverCompletesACommand(steps, j);
    LostUpTo(steps, j, k);
  }

  /** At most one dial ever fails. It is the first, it calls ppp_close before a control block
      was ever made, and nothing after it calls ppp_close without one: the retry counter of the
      dial never exceeds 1, and its limit of 4 is never reached. */
  lemma OneDialEverFails(steps: seq<Step>, n: nat)
    requires Run(steps) && n <= |steps|
    ensures var m, h := At(steps, n).manager, At(steps, n).history;
            && m.dialRetries == h.strayCloses <= 1
            && (h.strayCloses == 1 <==> m.mode.PppStack? && m.block.NeverMade?)
  {
    AtRests(steps, n);
  }

  /** The control block is in use exactly in OK, and PPP counts as connected only there. */
  lemma BlockInUseIsOk(steps: seq<Step>, n: nat)
    requires Run(steps) && n <= |steps|
    ensures var m := At(steps, n).manager;
            && (m.block.InUse? <==> m.state.GsmOk?) && (m.pppConnected ==> m.state.GsmOk?)
  {
    AtRests(steps, n);
  }

  /** OK is left exactly by "closed by user" or "connection lost"; no other status code, no
      timer and no byte ends it. */
  lemma OkLeftIff(steps: seq<Step>, n: nat)
    requires Run(steps) && n < |steps| && At(steps, n).manager.state.GsmOk?
    ensures !At(steps, n + 1).manager.state.GsmOk? <==> steps[n].PppStep? && Closing(steps[n].codes)
  {
    hide Initial, After, EngineRests, PowerRests, CostRests, PppEvents, Store;
    AtRests(steps, n);
    var g := At(steps, n);
    if steps[n].PppStep? {
      PppEventsExact(g, steps[n].codes, steps[n].now);
    }
  }

  /** After either of them the link is never up again: the reopening that follows cannot
      succeed, because the modem's answers no longer reach the AT engine. */
  lemma NeverReopened(steps: seq<Step>, n: nat, k: nat)
    requires Run(steps) && n < k <= |steps|
    requires steps[n].PppStep? && Closing(steps[n].codes)
    ensures At(steps, n + 1).manager.state.GsmReopenPpp? && !At(steps, k).manager.state.GsmOk?
  {
    hide Initial, After, EngineRests, PowerRests, CostRests, PppEvents;
    AtRests(steps, n);
    var g := At(steps, n);
    PppEventsExact(g, steps[n].codes, steps[n].now);
    LinkComesUpOnce(steps, n, n + 1, k);
  }

  /** Reaching OK from POWER_ON costs exactly 28 callbacks and one for every unusable reply at
      steps 11, 12, 19 and 20 and two for every unusable one at step 23; and at most two
      replies at step 12 count as unusable in the whole life of the program. */
  lemma BringUpCostsExactly(steps: seq<Step>, n: nat)
    requires Run(steps) && n < |steps|
    ensures At(steps, n).manager.state.GsmPowerOn? && At(steps, n + 1).manager.state.GsmOk? ==>
              PaidInFull(At(steps, n + 1).history.tally)
    ensures At(steps, n).history.ccidMisses <= 2
  {
    hide Next, Initial, After;
    AtRests(steps, n);
    NextCosts(At(steps, n), steps[n]);
  }

  predicate EntersPowerOn(steps: seq<Step>, n: nat)
    requires n < |steps|
  {
    At(steps, n + 1).manager.state.GsmPowerOn? && !At(steps, n).manager.state.GsmPowerOn?
  }

  lemma {:induction false} CycleInProgress(steps: seq<Step>, from: nat, n: nat)
    requires Run(steps) && from <= n <= |steps| && |At(steps, from).history.power| % 8 == 0
    requires forall i | from <= i < n :: !EntersPowerOn(steps, i)
    ensures At(steps, from).history.power <= At(steps, n).history.power
    ensures |At(steps, n).history.power| < |At(steps, from).history.power| + 8
    decreases n
  {
    hide Next, Initial, After, Rests, Enabled;
    if from < n {
      CycleInProgress(steps, from, n - 1);
      StepInRun(steps, n - 1);
      assert !EntersPowerOn(steps, n - 1);
    }
  }

  lemma StepInRun(steps: seq<Step>, n: nat)
    requires Run(steps) && n < |steps|
    ensures var p, r := At(steps, n).history.power, At(steps, n + 1).history.power;
            && (r == p || (steps[n].PollStep? && r == p + [PowerPoll(|p| % 8, steps[n].now)]))
            && (EntersPowerOn(steps, n) <==> r != p && |p| % 8 == 7)
    ensures PowerLog(At(steps, n + 1))
  {
    hide Next, Initial, After, EngineRests, Coherent, CostRests;
    AtRests(steps, n);
    AtRests(steps, n + 1);
    RestsMeans(At(steps, n));
    NextPower(At(steps, n), steps[n]);
  }

  /** Between any two entries to POWER_ON, and before the first, exactly eight polls in RESET
      run power steps 0 to 7 in order, the last at least 7000 ms after the first. */
  lemma PowerCycleInFull(steps: seq<Step>, from: nat, n: nat)
    requires Run(steps) && from <= n < |steps|
    requires from == 0 || EntersPowerOn(steps, from - 1)
    requires EntersPowerOn(steps, n) && forall i | from <= i < n :: !EntersPowerOn(steps, i)
    ensures var before, after := At(steps, from).history.power, At(steps, n + 1).history.power;
            && before <= after && |after| == |before| + 8
            && (forall k | |before| <= k < |after| :: after[k].step == k - |before|)
            && after[|before| + 7].at >= after[|before|].at + 7000
  {
    hide Next, Initial, At, Rests, Enabled, EntersPowerOn, PowerLog;
    CycleStart(steps, from);
    CycleInProgress(steps, from, n);
    StepInRun(steps, n);
    CyclePolls(At(steps, n + 1), |At(steps, from).history.power|);
  }

  lemma CycleStart(steps: seq<Step>, from: nat)
    requires Run(steps) && from <= |steps| && (from == 0 || EntersPowerOn(steps, from - 1))
    ensures |At(steps, from).history.power| % 8 == 0
  {
    hide Next, After, Rests, Enabled;
    if from > 0 {
      StepInRun(steps, from - 1);
    } else {
      StartsInitial(steps);
    }
  }

  lemma CyclePolls(g: Gsm, first: nat)
    requires PowerLog(g) && |g.history.power| == first + 8 && first % 8 == 0
    ensures forall k | first <= k < first + 8 :: g.history.power[k].step == k - first
    ensures g.history.power[first + 7].at >= g.history.power[first].at + 7000
  {
    CycleSpansSevenSeconds(g.history.power, first, 7);
  }

  lemma StartsInitial(steps: seq<Step>)
    ensures At(steps, 0) == Initial()
  {
    assert steps[..0] == [];
  }

  /** Outside RESET the module is powered, out of reset and its key released, at every moment
      and in particular on every entry to POWER_ON; in RESET the pins are those of the power
      step reached. */
  lemma PoweredOutsideReset(steps: seq<Step>, n: nat)
    requires Run(steps) && n <= |steps|
    ensures var g := At(steps, n);
            g.pins == if g.manager.state.GsmReset? then PinsBefore(g.manager.powerStep) else POWERED
  {
    AtRests(steps, n);
  }
}
