/** `gillespie`: the direct stochastic simulation method. After every rate is
    refreshed once, each pass draws the waiting time from an exponential law at
    the aggregate rate, picks the event by `find_reaction` with a uniform draw,
    adds its stoichiometry and refreshes every rate from the new state. */
module Direct {
  import opened Network
  import opened Selection
  import opened Driver

  /** One pass of the loop body. `expo(agg, k)` is `exponential0(agg_rate)` at pass k,
      `uniform(k)` is `np.random.rand()` at pass k. */
  function Step(s: Snapshot, expo: (real, nat) -> real, uniform: nat -> real, k: nat): Outcome
  {
    var agg := Aggregate(s.events);
    match Select(s.events, agg, uniform(k))
    case ZeroAggregate => Faulted(s, DivisionByZero)
    case FellThrough => Faulted(s, NoEventSelected)
    case Chosen(m) =>
      var state := Plus(s.state, s.events[m].stoich);
      Moved(s.(state := state, events := Refresh(s.events, state)), expo(agg, k))
  }

  function Stepper(expo: (real, nat) -> real, uniform: nat -> real): (Snapshot, nat) -> Outcome
  {
    (s: Snapshot, k: nat) => Step(s, expo, uniform, k)
  }

  /** The contents the loop starts from: the model with every rate refreshed. */
  function Start(s: Snapshot): (r: Snapshot)
    ensures r.state == s.state && r.fast == s.fast && r.slow == s.slow
    ensures |r.events| == |s.events| && Fresh(r.state, r.events)
    ensures forall i :: 0 <= i < |s.events| ==> r.events[i].stoich == s.events[i].stoich
  {
    s.(events := Refresh(s.events, s.state))
  }

  /** `gillespie(model, T)` with Nt = nt. */
  method Gillespie(model: Model, T: real, nt: nat, expo: (real, nat) -> real, uniform: nat -> real)
    returns (res: Result<Trajectory>)
    requires nt >= 1
    modifies model
    ensures Reports(Start(old(model.Contents())), Stepper(expo, uniform), T, nt, res)
    ensures model.Contents() == Final(Start(old(model.Contents())), Stepper(expo, uniform), T, nt)
  {
    model.events := Refresh(model.events, model.state);
    res := Simulate(model, Stepper(expo, uniform), T, nt);
  }

  /** A pass with a draw r in [0, 1) raises exactly when no event is enabled: a zero
      aggregate rate divides by zero, and an empty list returns None. */
  lemma StepRaises(s: Snapshot, expo: (real, nat) -> real, uniform: nat -> real, k: nat)
    requires 0.0 <= uniform(k) < 1.0
    ensures Step(s, expo, uniform, k).Faulted? <==> Aggregate(s.events) == 0.0
    ensures Step(s, expo, uniform, k).Faulted? ==>
      Step(s, expo, uniform, k).fault == (if s.events == [] then NoEventSelected else DivisionByZero)
  {
    var agg := Aggregate(s.events);
    if agg != 0.0 {
      SelectTotal(s.events, agg, uniform(k));
    }
  }

  /** A pass that moves fires the event whose share slice [s_m/agg, s_(m+1)/agg)
      holds the draw, adds that event's stoichiometry, advances the clock by the
      exponential draw at the aggregate rate, leaves the fast and slow lists alone,
      and leaves every rate fresh at the new state. */
  lemma StepFiresByShare(s: Snapshot, expo: (real, nat) -> real, uniform: nat -> real, k: nat)
    requires uniform(k) >= 0.0 && Step(s, expo, uniform, k).Moved?
    ensures var o := Step(s, expo, uniform, k);
      var agg := Aggregate(s.events);
      o.delta == expo(agg, k) &&
      o.next.fast == s.fast && o.next.slow == s.slow &&
      Fresh(o.next.state, o.next.events) && |o.next.events| == |s.events| &&
      (forall i :: 0 <= i < |s.events| ==> o.next.events[i].stoich == s.events[i].stoich)
    ensures var o := Step(s, expo, uniform, k);
      var agg := Aggregate(s.events);
      exists m :: 0 <= m < |s.events| &&
        Mass(s.events, m) / agg <= uniform(k) < Mass(s.events, m + 1) / agg &&
        o.next.state == Plus(s.state, s.events[m].stoich)
  {
    var agg := Aggregate(s.events);
    var m := Select(s.events, agg, uniform(k)).index;
    SelectInterval(s.events, agg, uniform(k), m);
    assert Step(s, expo, uniform, k).next.state == Plus(s.state, s.events[m].stoich);
  }

  /** A jump adds the chosen event's stoichiometry and nothing else, so a conservation
      law of the events holds along the whole returned path. */
  lemma RecordedConservation(w: State, p0: Snapshot, expo: (real, nat) -> real, uniform: nat -> real,
                             T: real, nt: nat, res: Result<Trajectory>)
    requires nt >= 1 && SameShape(w, p0.state) && Conserves(w, p0.events)
    requires Reports(p0, Stepper(expo, uniform), T, nt, res) && res.Ok?
    ensures forall i :: 0 <= i < |res.value.path| ==>
      SameShape(w, res.value.path[i]) && Weighted(w, res.value.path[i]) == Weighted(w, p0.state)
  {
    var step := Stepper(expo, uniform);
    var c := Weighted(w, p0.state);
    var inv := (s: Snapshot) => Balanced(w, c, s.state, s.events);
    forall s, k | inv(s) && step(s, k).Moved? ensures inv(step(s, k).next) {
      StepKeepsBalance(w, c, s, expo, uniform, k);
    }
    forall i | 0 <= i < |res.value.path|
      ensures SameShape(w, res.value.path[i]) && Weighted(w, res.value.path[i]) == c
    {
      WalkPreserves(p0, step, inv, i);
    }
  }

  lemma StepKeepsBalance(w: State, c: real, s: Snapshot, expo: (real, nat) -> real, uniform: nat -> real, k: nat)
    requires Balanced(w, c, s.state, s.events) && Step(s, expo, uniform, k).Moved?
    ensures Balanced(w, c, Step(s, expo, uniform, k).next.state, Step(s, expo, uniform, k).next.events)
  {
    var m := Select(s.events, Aggregate(s.events), uniform(k)).index;
    JumpKeepsBalance(w, c, s.state, s.events, m);
  }

  /** The returned clock advances at each entry by the exponential draw taken at the
      aggregate rate of the contents recorded in the previous entry. */
  lemma ClockAdvancesByDraw(p0: Snapshot, expo: (real, nat) -> real, uniform: nat -> real,
                            T: real, nt: nat, res: Result<Trajectory>, i: nat)
    requires nt >= 1 && Reports(p0, Stepper(expo, uniform), T, nt, res) && res.Ok?
    requires i + 1 < |res.value.clock|
    ensures res.value.clock[i + 1] ==
      res.value.clock[i] + expo(Aggregate(Walk(p0, Stepper(expo, uniform), i).snap.events), i + 1)
  {
    RecordedSteps(p0, Stepper(expo, uniform), T, nt, res, i);
  }

  /** Every pass refreshes every rate, so the rates stay fresh at every sample. */
  lemma {:induction false} SampleRatesFresh(p0: Snapshot, expo: (real, nat) -> real, uniform: nat -> real, n: nat)
    requires Fresh(p0.state, p0.events)
    ensures var p := Walk(p0, Stepper(expo, uniform), n).snap;
      Fresh(p.state, p.events)
  {
    if n > 0 {
      SampleRatesFresh(p0, expo, uniform, n - 1);
    }
  }
}
