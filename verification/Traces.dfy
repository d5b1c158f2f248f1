/** Legal sequences of steps, what they lead to, and clock readings at which a gate opens. */
module Traces {
  import opened Words
  import opened AtEngine
  import opened BringUp
  import opened Deliveries

  predicate Legal(g: Gsm, steps: seq<Step>)
    requires WellFormedGsm(g)
    decreases |steps|
  {
    steps == [] || (Enabled(g, steps[0]) && Legal(Next(g, steps[0]), steps[1..]))
  }

  function After(g: Gsm, steps: seq<Step>): (r: Gsm)
    requires WellFormedGsm(g)
    ensures WellFormedGsm(r)
    decreases |steps|
  {
    if steps == [] then g else After(Next(g, steps[0]), steps[1..])
  }

  /** The log only ever grows. */
  lemma NextLogGrows(g: Gsm, step: Step)
    requires WellFormedGsm(g)
    ensures g.engine.log <= Next(g, step).engine.log
  {
    hide HwRun, PppEvents, Store;
    match step
    case RunStep(env) => RunDelivers(g, env);
    case PppStep(codes, now) => PppEventsSilent(g, codes, now);
    case PollStep(_) =>
    case UartStep(_) =>
    case PhaseStep(_) =>
  }

  lemma {:induction false} LogGrows(g: Gsm, steps: seq<Step>)
    requires WellFormedGsm(g)
    ensures g.engine.log <= After(g, steps).engine.log
    decreases |steps|
  {
    hide Next;
    if steps != [] {
      NextLogGrows(g, steps[0]);
      LogGrows(Next(g, steps[0]), steps[1..]);
    }
  }

  /** A clock reading, not before `clock`, at which a gate of `wait` ms since tick `last` opens. */
  function DueAt(last: Word, wait: nat, clock: nat): (t: nat)
    ensures t >= clock
  {
    clock + (last + wait - clock) % TICKS
  }

  lemma DueAtOpens(last: Word, wait: nat, clock: nat)
    requires wait < TICKS
    ensures Sub32(Tick(DueAt(last, wait, clock)), last) == wait
  {
    var x, y := last + wait - clock, last + wait;
    assert DueAt(last, wait, clock) == y - TICKS * (x / TICKS);
    ModShift(y, -(x / TICKS));
    assert Tick(DueAt(last, wait, clock)) - last == wait - TICKS * (y / TICKS);
    ModShift(wait, -(y / TICKS));
  }
}
