/** What becomes of the link once PPP mode is set: the mode never returns to AT, so a link that
    is lost stays lost. */
module LostLink {
  import opened CStrings
  import opened AtEngine
  import opened BringUp
  import opened Coherence
  import opened EngineSafety
  import opened BringUpCost

  predicate Lost(g: Gsm) {
    g.manager.mode.PppStack? && !g.manager.state.GsmOk?
  }

  /** In PPP mode the reply half of the engine delivers nothing. */
  lemma SilentInPpp(g: Gsm, env: RunEnv)
    requires WellFormedGsm(g) && EngineRests(g) && Coherent(g) && g.manager.mode.PppStack?
    ensures MatchPhase(g, env).manager == g.manager
  {
    hide EngineOk, CallBack, Matches;
    if g.engine.retry > 0 && g.engine.newData && Matches(g.engine.(newData := false)) {
      RestsMeans(g);
      OkOnlyInAtMode(g.(engine := g.engine.(newData := false)));
    }
  }

  lemma TimeoutNeverOk(g: Gsm, env: RunEnv)
    requires WellFormedGsm(g) && Coherent(g) && !g.manager.state.GsmOk?
    ensures !TimeoutPhase(g, env).manager.state.GsmOk?
  {
    hide Decide, Arm, DialCommand, Contains, PppEvents;
  }

  /** A lost link stays lost, whatever the modem answers and whatever PPP reports. */
  lemma NextLost(g: Gsm, step: Step)
    requires WellFormedGsm(g) && EngineRests(g) && Coherent(g) && Enabled(g, step) && Lost(g)
    ensures Lost(Next(g, step))
  {
    hide EngineOk, MatchPhase, TimeoutPhase, PppEvents, Store;
    NextRests(g, step);
    match step
    case RunStep(env) =>
      var polled := Polled(g, env.entered);
      PolledRests(g, env.entered);
      RestsMeans(polled);
      SilentInPpp(polled, env);
      MatchPhaseCoherent(polled, env);
      TimeoutNeverOk(MatchPhase(polled, env), env);
    case PppStep(codes, now) => PppEventsCosts(g, codes, now);
    case PollStep(_) =>
    case UartStep(_) =>
    case PhaseStep(_) =>
  }
}
