/** Which run of the engine delivers an OK callback: exactly one that finds a complete reply. */
module Deliveries {
  import opened CStrings
  import opened AtEngine
  import opened ReplyMatch
  import opened BringUp
  import opened EngineSafety

  /** The log grew, and nothing was called meanwhile. */
  predicate GrewSilently(before: seq<Entry>, after: seq<Entry>) {
    before <= after && forall k | |before| <= k < |after| :: !after[k].Called?
  }

  /** An OK callback was delivered between two moments. */
  predicate OkSince(before: seq<Entry>, after: seq<Entry>) {
    exists k :: |before| <= k < |after| && OkCall(after[k])
  }

  lemma PppEventsSilent(g: Gsm, codes: seq<int>, now: nat)
    requires WellFormedGsm(g)
    ensures GrewSilently(g.engine.log, PppEvents(g, codes, now).engine.log)
  {
    hide PppEvents;
    PppEventsExact(g, codes, now);
  }

  lemma DialFailedSilent(g: Gsm, codes: seq<int>, now: nat)
    requires WellFormedGsm(g)
    ensures GrewSilently(g.engine.log, DialFailed(g, codes, now).engine.log)
  {
    hide PppEvents;
    var m, counted := g.manager, DialCounted(g);
    PppEventsSilent(counted.(manager := m.(dialRetries := 0)), codes, now);
    PppEventsSilent(counted.(manager := m.(dialRetries := m.dialRetries + 1, step := 3)), codes, now);
  }

  lemma OpenPppSilent(g: Gsm, event: Event, reply: string, codes: seq<int>, now: nat)
    requires WellFormedGsm(g)
    ensures GrewSilently(g.engine.log, OpenPpp(g, event, reply, codes, now).engine.log)
  {
    hide PppEvents, DialCommand, Contains, DialFailed;
    if g.manager.step == 4 {
      var p := InPppMode(g);
      var up := ChangeState(p, GsmOk, now);
      DialFailedSilent(p, codes, now);
      PppEventsSilent(up.(manager := up.manager.(block := InUse)), codes, now);
    }
  }

  lemma CallBackSilent(g: Gsm, event: Event, reply: string, codes: seq<int>, now: nat)
    requires WellFormedGsm(g)
    ensures GrewSilently(g.engine.log, CallBack(g, event, reply, codes, now).engine.log)
  {
    hide Decide, OpenPpp;
    OpenPppSilent(Counted(g), event, reply, codes, now);
  }

  predicate Delivers(g: Gsm) {
    WellFormedGsm(g) && g.engine.retry > 0 && g.engine.newData && Matches(g.engine)
  }

  lemma MatchPhaseDelivers(g: Gsm, env: RunEnv)
    requires WellFormedGsm(g)
    ensures g.engine.log <= MatchPhase(g, env).engine.log
    ensures OkSince(g.engine.log, MatchPhase(g, env).engine.log) <==> Delivers(g)
  {
    hide CallBack, Contains, CStr;
    if g.engine.retry > 0 && g.engine.newData {
      var e := g.engine.(newData := false);
      assert Matches(e) <==> Matches(g.engine);
      if Matches(e) {
        var done := g.(engine := Completed(e, env.replied));
        CallBackSilent(done, EventOk, CStr(done.engine.buffer), env.okCodes, env.replied);
        assert OkCall(done.engine.log[|g.engine.log|]);
        assert OkCall(MatchPhase(g, env).engine.log[|g.engine.log|]);
      }
    }
  }

  lemma TimeoutPhaseDeliversNone(g: Gsm, env: RunEnv)
    requires WellFormedGsm(g)
    ensures g.engine.log <= TimeoutPhase(g, env).engine.log
    ensures !OkSince(g.engine.log, TimeoutPhase(g, env).engine.log)
  {
    hide CallBack;
    if Expired(g.engine, env.checked) {
      var e := Decremented(g.engine);
      if e.retry == 0 {
        var over := g.(engine := GivenUp(e, env.acted));
        CallBackSilent(over, EventTimeout, env.nullText, env.timeoutCodes, env.acted);
      }
    }
  }

  lemma OkSinceSplit(a: seq<Entry>, b: seq<Entry>, c: seq<Entry>)
    requires a <= b <= c
    ensures OkSince(a, c) <==> OkSince(a, b) || OkSince(b, c)
  {
    if OkSince(a, c) {
      var k :| |a| <= k < |c| && OkCall(c[k]);
      if k < |b| {
        assert OkCall(b[k]);
      }
    }
    if OkSince(a, b) {
      var k :| |a| <= k < |b| && OkCall(b[k]);
      assert OkCall(c[k]);
    }
  }

  /** A run of the engine delivers OK if and only if the poll gate is open, a command is armed,
      bytes came in and the matcher is satisfied. */
  lemma RunDelivers(g: Gsm, env: RunEnv)
    requires WellFormedGsm(g)
    ensures g.engine.log <= HwRun(g, env).engine.log
    ensures OkSince(g.engine.log, HwRun(g, env).engine.log) <==> GateOpen(g.engine, env.entered) && Delivers(g)
  {
    hide MatchPhase, TimeoutPhase, Contains, CStr;
    if GateOpen(g.engine, env.entered) {
      var polled := Polled(g, env.entered);
      MatchPhaseDelivers(polled, env);
      TimeoutPhaseDeliversNone(MatchPhase(polled, env), env);
      OkSinceSplit(g.engine.log, MatchPhase(polled, env).engine.log, HwRun(g, env).engine.log);
      assert Matches(polled.engine) <==> Matches(g.engine);
    }
  }

  /** Reply soundness and completeness. An OK callback is delivered in AT mode only; with fewer
      than 256 bytes received since arming it is delivered exactly when those bytes contain the
      wanted text before any NUL and, if an ending is set, end with it and are longer. */
  lemma OkMeansReply(g: Gsm, env: RunEnv)
    requires WellFormedGsm(g) && EngineRests(g)
    requires GateOpen(g.engine, env.entered) && g.engine.retry > 0 && g.engine.newData
    ensures OkSince(g.engine.log, HwRun(g, env).engine.log) ==> g.manager.mode.AtStack?
    ensures |g.engine.received| < BUFFER_SIZE ==>
              (OkSince(g.engine.log, HwRun(g, env).engine.log)
               <==> ReplyComplete(g.engine.received, g.engine.wanted, g.engine.ending))
  {
    hide HwRun, Matches, ReplyComplete, NoOkAfterPpp;
    RunDelivers(g, env);
    if Matches(g.engine) {
      OkIsSound(g, g.history.clock);
    }
    if |g.engine.received| < BUFFER_SIZE {
      MatchIsReply(g.engine);
    }
  }

  /** The main loop never adds to what was received; arming a command forgets it. */
  predicate KeepsOrForgets(e: Engine, r: Engine) {
    r.received == e.received || r.received == []
  }

  lemma CallBackReceived(g: Gsm, event: Event, reply: string, codes: seq<int>, now: nat)
    requires WellFormedGsm(g)
    ensures KeepsOrForgets(g.engine, CallBack(g, event, reply, codes, now).engine)
  {
    hide Decide, PppEvents, DialCommand, Contains, Zeros;
    if g.engine.callback.OpenPppStack? && g.manager.step == 4 {
      var p := InPppMode(Counted(g));
      var up, m, counted := ChangeState(p, GsmOk, now), p.manager, DialCounted(p);
      PppEventsExact(up.(manager := up.manager.(block := InUse)), codes, now);
      PppEventsExact(counted.(manager := m.(dialRetries := 0)), codes, now);
      PppEventsExact(counted.(manager := m.(dialRetries := m.dialRetries + 1, step := 3)), codes, now);
    }
  }

  lemma NextReceived(g: Gsm, step: Step)
    requires WellFormedGsm(g) && !step.UartStep?
    ensures KeepsOrForgets(g.engine, Next(g, step).engine)
  {
    hide CallBack, Matches, PppEvents, Zeros;
    match step
    case RunStep(env) =>
      var polled := Polled(g, env.entered);
      MatchReceived(polled, env);
      TimeoutReceived(MatchPhase(polled, env), env);
    case PppStep(codes, now) => PppEventsExact(g, codes, now);
    case PollStep(_) =>
    case PhaseStep(_) =>
  }

  lemma MatchReceived(g: Gsm, env: RunEnv)
    requires WellFormedGsm(g)
    ensures KeepsOrForgets(g.engine, MatchPhase(g, env).engine)
  {
    hide CallBack, Matches;
    var done := g.(engine := Completed(g.engine.(newData := false), env.replied));
    CallBackReceived(done, EventOk, CStr(done.engine.buffer), env.okCodes, env.replied);
  }

  lemma TimeoutReceived(g: Gsm, env: RunEnv)
    requires WellFormedGsm(g)
    ensures KeepsOrForgets(g.engine, TimeoutPhase(g, env).engine)
  {
    hide CallBack;
    var over := g.(engine := GivenUp(Decremented(g.engine), env.acted));
    CallBackReceived(over, EventTimeout, env.nullText, env.timeoutCodes, env.acted);
  }
}
