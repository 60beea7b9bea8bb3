/** `gillespie_hybrid`: slow events are simulated stochastically, fast events by
    the reaction-rate equations. Each pass draws a waiting time at the slow
    aggregate rate; if it is shorter than the step h2, the chosen slow event fires
    and the equations are integrated over that waiting time, otherwise no event
    fires and the equations are integrated over h2. Every fast and slow rate is
    then refreshed. */
module Hybrid {
  import opened Network
  import opened Selection
  import opened Driver

  /** One pass of the loop body. `flow(x, t)` is the reaction-rate equations
      integrated from x over a span t; `expo(agg, k)` and `uniform(k)` are the
      draws of pass k. */
  function Step(s: Snapshot, flow: (State, real) -> State, expo: (real, nat) -> real,
                uniform: nat -> real, h2: real, k: nat): Outcome
  {
    var agg := Aggregate(s.slow);
    var delta := expo(agg, k);
    if delta < h2 then
      match Select(s.slow, agg, uniform(k))
      case ZeroAggregate => Faulted(s, DivisionByZero)
      case FellThrough => Faulted(s, NoEventSelected)
      case Chosen(m) => Moved(Settle(s, flow(Plus(s.state, s.slow[m].stoich), delta)), delta)
    else
      Moved(Settle(s, flow(s.state, h2)), h2)
  }

  function Stepper(flow: (State, real) -> State, expo: (real, nat) -> real, uniform: nat -> real, h2: real)
    : (Snapshot, nat) -> Outcome
  {
    (s: Snapshot, k: nat) => Step(s, flow, expo, uniform, h2, k)
  }

  /** `gillespie_hybrid(model, T, h1, h2, method)` with Nt = nt; the integrator's
      tolerance h1 and method are inside `flow`. */
  method GillespieHybrid(model: Model, T: real, h2: real, nt: nat, flow: (State, real) -> State,
                         expo: (real, nat) -> real, uniform: nat -> real)
    returns (res: Result<Trajectory>)
    requires nt >= 1
    modifies model
    ensures Reports(old(model.Contents()), Stepper(flow, expo, uniform, h2), T, nt, res)
    ensures model.Contents() == Final(old(model.Contents()), Stepper(flow, expo, uniform, h2), T, nt)
  {
    res := Simulate(model, Stepper(flow, expo, uniform, h2), T, nt);
  }

  /** A waiting time shorter than h2: the slow event whose share slice holds the
      uniform draw fires, the equations run from the jumped state for exactly that
      waiting time, and the clock advances by it. */
  lemma StepJumps(s: Snapshot, flow: (State, real) -> State, expo: (real, nat) -> real,
                  uniform: nat -> real, h2: real, k: nat)
    requires uniform(k) >= 0.0
    requires expo(Aggregate(s.slow), k) < h2 && Step(s, flow, expo, uniform, h2, k).Moved?
    ensures var o := Step(s, flow, expo, uniform, h2, k);
      var agg := Aggregate(s.slow);
      o.delta == expo(agg, k) && Settled(o.next) && o.next.events == s.events &&
      exists m :: 0 <= m < |s.slow| &&
        Mass(s.slow, m) / agg <= uniform(k) < Mass(s.slow, m + 1) / agg &&
        o.next.state == flow(Plus(s.state, s.slow[m].stoich), o.delta)
  {
    var agg := Aggregate(s.slow);
    var m := Select(s.slow, agg, uniform(k)).index;
    SelectInterval(s.slow, agg, uniform(k), m);
  }

  /** A waiting time of h2 or more: no stoichiometry is added; the equations run
      from the current state over h2 and the clock advances by h2. Such a pass never
      raises. */
  lemma StepIntegrates(s: Snapshot, flow: (State, real) -> State, expo: (real, nat) -> real,
                       uniform: nat -> real, h2: real, k: nat)
    requires expo(Aggregate(s.slow), k) >= h2
    ensures var o := Step(s, flow, expo, uniform, h2, k);
      o.Moved? && o.delta == h2 && o.next.state == flow(s.state, h2) && Settled(o.next) && o.next.events == s.events
  {
  }

  /** With a uniform draw in [0, 1), a pass raises exactly when the waiting time is
      shorter than h2 and no slow event is enabled. */
  lemma StepRaises(s: Snapshot, flow: (State, real) -> State, expo: (real, nat) -> real,
                   uniform: nat -> real, h2: real, k: nat)
    requires 0.0 <= uniform(k) < 1.0
    ensures Step(s, flow, expo, uniform, h2, k).Faulted? <==>
      expo(Aggregate(s.slow), k) < h2 && Aggregate(s.slow) == 0.0
    ensures !Step(s, flow, expo, uniform, h2, k).Halted?
  {
    var agg := Aggregate(s.slow);
    if agg != 0.0 {
      SelectTotal(s.slow, agg, uniform(k));
    }
  }

  /** The returned clock advances by at most h2 per entry: by the waiting time when
      an event fired, by h2 when none did. */
  lemma ClockIncrementsBounded(p0: Snapshot, flow: (State, real) -> State, expo: (real, nat) -> real,
                               uniform: nat -> real, h2: real, T: real, nt: nat, res: Result<Trajectory>, i: nat)
    requires nt >= 1 && Reports(p0, Stepper(flow, expo, uniform, h2), T, nt, res) && res.Ok?
    requires i + 1 < |res.value.clock|
    ensures var agg := Aggregate(Walk(p0, Stepper(flow, expo, uniform, h2), i).snap.slow);
      var d := res.value.clock[i + 1] - res.value.clock[i];
      d <= h2 && (d == expo(agg, i + 1) || d == h2)
  {
    RecordedSteps(p0, Stepper(flow, expo, uniform, h2), T, nt, res, i);
  }
}
