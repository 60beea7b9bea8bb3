/** `chv`: the change-of-variables hybrid method. Each pass draws s1 from a unit
    exponential law and integrates the augmented system, whose right-hand side
    is the fast reaction-rate equations extended by a clock component and divided
    by agg_rate + sample_rate, from time 0 to s1; the last component is the
    elapsed physical time. The slow aggregate agg_rate it divides by is read from
    the slow rates as they stand when the pass starts: the integration refreshes
    only the fast rates. The rates are then refreshed and, with probability
    agg_rate / (agg_rate + sample_rate), a slow event fires. After the loop the
    last recorded entry is replaced by the reaction-rate equations run from the
    entry before it up to exactly T. */
module ChangeOfVariables {
  import opened Network
  import opened Selection
  import opened Driver

  /** The uniform draw r, known to lie in the jump range (p0, 1) with
      p0 = sample/(agg + sample), mapped affinely onto (0, 1). */
  function Rescaled(r: real, agg: real, sample: real): real
  {
    if agg == 0.0 then r else (r * (agg + sample) - sample) / agg
  }

  /** The slow event a jump fires: `find_reaction` on the rescaled draw. */
  function Jump(slow: seq<Event>, agg: real, sample: real, r: real): Choice
  {
    Select(slow, agg, Rescaled(r, agg, sample))
  }

  /** The slow event a jump fires as the loop is written: `find_reaction` on the
      draw r itself, which is already known to exceed p0. */
  function JumpAsWritten(slow: seq<Event>, agg: real, r: real): Choice
  {
    Select(slow, agg, r)
  }

  /** How a jump picks the slow event: `find_reaction` on the draw r itself, as the
      loop is written, or on r rescaled from the jump range onto (0, 1). */
  datatype Rule = AsWritten | Rescaling

  function Pick(rule: Rule, slow: seq<Event>, agg: real, sample: real, r: real): Choice
  {
    match rule
    case AsWritten => JumpAsWritten(slow, agg, r)
    case Rescaling => Jump(slow, agg, sample, r)
  }

  /** The slow update of a pass, on the integrated and refreshed contents u with
      elapsed time `elapsed`: when r clears p0 = sample/(agg + sample), one slow
      event, picked by `rule`, fires and its stoichiometry is added to the state. */
  function Decide(u: Snapshot, elapsed: real, sample: real, r: real, rule: Rule): Outcome
  {
    var agg := Aggregate(u.slow);
    if agg + sample == 0.0 then Faulted(u, DivisionByZero)
    else if r > sample / (agg + sample) then
      match Pick(rule, u.slow, agg, sample, r)
      case ZeroAggregate => Faulted(u, DivisionByZero)
      case FellThrough => Faulted(u, NoEventSelected)
      case Chosen(m) => Moved(u.(state := Plus(u.state, u.slow[m].stoich)), elapsed)
    else Moved(u, elapsed)
  }

  /** One pass of the loop body. `chvFlow(x, agg, s1)` is the augmented system
      integrated from (x, 0) over [0, s1] with the slow aggregate held at agg,
      returning the new state and the elapsed time `t_next`. The aggregate passed
      is that of the slow rates as the pass finds them: refreshed at the
      integrated state of the previous pass, before its jump, and the caller's
      rates on the first pass. `expo(1.0, k)` is `exponential0(1)` and
      `uniform(k)` is `np.random.rand()` at pass k. */
  function Step(s: Snapshot, chvFlow: (State, real, real) -> (State, real), expo: (real, nat) -> real,
                uniform: nat -> real, sample: real, rule: Rule, k: nat): Outcome
  {
    var flowed := chvFlow(s.state, Aggregate(s.slow), expo(1.0, k));
    Decide(Settle(s, flowed.0), flowed.1, sample, uniform(k), rule)
  }

  function Stepper(chvFlow: (State, real, real) -> (State, real), expo: (real, nat) -> real,
                   uniform: nat -> real, sample: real, rule: Rule): (Snapshot, nat) -> Outcome
  {
    (s: Snapshot, k: nat) => Step(s, chvFlow, expo, uniform, sample, rule, k)
  }

  /** The buffer row `path[-1]` that the final integration starts from when the
      loop never ran: the last row of buffers of Nt rows. With Nt = 1 that is row 0,
      holding the initial state; otherwise it is a row never written, all zeros.
      Either way `clock[-1]` is 0. */
  function LastRow(initial: State, nt: nat): (z: State)
    ensures SameShape(z, initial)
    ensures nt == 1 ==> z == initial
    ensures nt != 1 ==> forall i, j :: 0 <= i < |z| && 0 <= j < |z[i]| ==> z[i][j] == 0.0
  {
    if nt == 1 then initial else ZeroLike(initial)
  }

  /** What `chv` returns: the error a pass raised, or `path[0:k+1], clock[0:k+1]`
      where entries 0 .. k-1 are what the shared loop reports and entry k is `flow`
      run from entry k-1 for the time left to T, stamped T. When the loop never
      runs, k = 0 and entry k-1 is the last row of the buffers, `blank`, at time 0. */
  predicate Completes(p0: Snapshot, step: (Snapshot, nat) -> Outcome, blank: State, flow: (State, real) -> State,
                      T: real, nt: nat, res: Result<Trajectory>)
    requires nt >= 1
  {
    var K := Exit(p0, step, T, nt, 1);
    if res.Err? then Reports(p0, step, T, nt, res)
    else
      var path, clock := res.value.path, res.value.clock;
      |path| == |clock| == K &&
      Reports(p0, step, T, nt, Ok(Trajectory(path[..K - 1], clock[..K - 1]))) &&
      path[K - 1] == (if K == 1 then flow(blank, T) else flow(path[K - 2], T - clock[K - 2])) &&
      clock[K - 1] == T
  }

  /** The step after the loop: the last entry is `flow` run from entry k-1 over
      T - clock[k-1], stamped T; `blank` is the buffer row `path[-1]` (`LastRow`)
      that entry k-1 = -1 reads when the loop never ran. */
  function Complete(loop: Result<Trajectory>, blank: State, flow: (State, real) -> State, T: real): Result<Trajectory>
  {
    if loop.Err? then loop
    else if loop.value.path == [] || loop.value.clock == [] then Ok(Trajectory([flow(blank, T - 0.0)], [T]))
    else
      var path, clock := loop.value.path, loop.value.clock;
      Ok(Trajectory(path + [flow(path[|path| - 1], T - clock[|clock| - 1])], clock + [T]))
  }

  /** `chv(model, T, h, method, sample_rate)` with Nt = nt; `flow` is the reaction-rate
      equations integrated over a span, the tolerance h and method being inside
      `flow` and `chvFlow`. */
  method Chv(model: Model, T: real, nt: nat, sample: real, chvFlow: (State, real, real) -> (State, real),
             flow: (State, real) -> State, expo: (real, nat) -> real, uniform: nat -> real, rule: Rule)
    returns (res: Result<Trajectory>)
    requires nt >= 1
    modifies model
    ensures Completes(old(model.Contents()), Stepper(chvFlow, expo, uniform, sample, rule), LastRow(old(model.state), nt), flow, T, nt, res)
    ensures res.Ok? ==> (model.Contents() ==
      Final(old(model.Contents()), Stepper(chvFlow, expo, uniform, sample, rule), T, nt).(state := res.value.path[|res.value.path| - 1]))
    ensures res.Err? ==> model.Contents() == Final(old(model.Contents()), Stepper(chvFlow, expo, uniform, sample, rule), T, nt)
  {
    ghost var p0 := model.Contents();
    var blank := LastRow(model.state, nt);
    var step := Stepper(chvFlow, expo, uniform, sample, rule);
    var loop := Simulate(model, step, T, nt);
    res := Complete(loop, blank, flow, T);
    CompleteMeets(p0, step, blank, flow, T, nt, loop);
    if res.Ok? {
      model.state := res.value.path[|res.value.path| - 1];
    }
  }

  /** Completing the loop's report yields what `chv` returns. */
  lemma CompleteMeets(p0: Snapshot, step: (Snapshot, nat) -> Outcome, blank: State, flow: (State, real) -> State,
                      T: real, nt: nat, loop: Result<Trajectory>)
    requires nt >= 1 && Reports(p0, step, T, nt, loop)
    ensures Completes(p0, step, blank, flow, T, nt, Complete(loop, blank, flow, T))
    ensures Complete(loop, blank, flow, T).Ok? <==> loop.Ok?
  {
    if loop.Ok? {
      var K := Exit(p0, step, T, nt, 1);
      var path, clock := loop.value.path, loop.value.clock;
      var r := Complete(loop, blank, flow, T).value;
      assert r.path[..K - 1] == path && r.clock[..K - 1] == clock;
    }
  }

  /** With T > 0 the trajectory `chv` returns has between 2 and Nt entries, starts at
      the initial state at time 0, ends exactly at T, and every earlier entry is
      before T. */
  lemma CompletesAtHorizon(p0: Snapshot, chvFlow: (State, real, real) -> (State, real), expo: (real, nat) -> real,
                           uniform: nat -> real, sample: real, rule: Rule, blank: State, flow: (State, real) -> State,
                           T: real, nt: nat, res: Result<Trajectory>)
    requires nt >= 2 && T > 0.0
    requires Completes(p0, Stepper(chvFlow, expo, uniform, sample, rule), blank, flow, T, nt, res) && res.Ok?
    ensures 2 <= |res.value.clock| <= nt
    ensures res.value.path[0] == p0.state && res.value.clock[0] == 0.0
    ensures res.value.clock[|res.value.clock| - 1] == T
    ensures forall i :: 0 <= i < |res.value.clock| - 1 ==> res.value.clock[i] < T
  {
    var step := Stepper(chvFlow, expo, uniform, sample, rule);
    var loop := CompletesSplit(p0, step, blank, flow, T, nt, res);
    LoopRuns(p0, chvFlow, expo, uniform, sample, rule, T, nt, loop);
    RecordedBeforeHorizon(p0, step, T, nt, loop);
  }

  /** A completed trajectory is the loop's trajectory with one entry, at T, appended. */
  lemma CompletesSplit(p0: Snapshot, step: (Snapshot, nat) -> Outcome, blank: State, flow: (State, real) -> State,
                       T: real, nt: nat, res: Result<Trajectory>) returns (loop: Result<Trajectory>)
    requires nt >= 1 && Completes(p0, step, blank, flow, T, nt, res) && res.Ok?
    ensures loop.Ok? && Reports(p0, step, T, nt, loop)
    ensures |res.value.path| == |res.value.clock| == |loop.value.clock| + 1 == Exit(p0, step, T, nt, 1)
    ensures loop.value.clock == res.value.clock[..|loop.value.clock|]
    ensures loop.value.path == res.value.path[..|loop.value.clock|]
    ensures res.value.clock[|loop.value.clock|] == T
  {
    var K := Exit(p0, step, T, nt, 1);
    loop := Ok(Trajectory(res.value.path[..K - 1], res.value.clock[..K - 1]));
  }

  /** With T > 0 the first pass runs (1 < Nt and clock[0] = 0 < T) and no pass breaks
      out, so a loop that returns has recorded at least one pass. */
  lemma LoopRuns(p0: Snapshot, chvFlow: (State, real, real) -> (State, real), expo: (real, nat) -> real,
                 uniform: nat -> real, sample: real, rule: Rule, T: real, nt: nat, res: Result<Trajectory>)
    requires nt >= 2 && T > 0.0
    requires Reports(p0, Stepper(chvFlow, expo, uniform, sample, rule), T, nt, res) && res.Ok?
    ensures Exit(p0, Stepper(chvFlow, expo, uniform, sample, rule), T, nt, 1) >= 2
  {
    var o := Stepper(chvFlow, expo, uniform, sample, rule)(p0, 1);
    assert o == Step(p0, chvFlow, expo, uniform, sample, rule, 1);
    assert !o.Halted?;
  }

  /** With T <= 0 the loop never runs and `chv` returns the single entry the final
      integration makes of the buffer row `path[-1]` (`LastRow`), stamped T. */
  lemma CompletesEmptyHorizon(p0: Snapshot, step: (Snapshot, nat) -> Outcome, blank: State, flow: (State, real) -> State,
                              T: real, nt: nat, res: Result<Trajectory>)
    requires nt >= 1 && T <= 0.0
    requires Completes(p0, step, blank, flow, T, nt, res)
    ensures res == Ok(Trajectory([flow(blank, T)], [T]))
  {
    assert Exit(p0, step, T, nt, 1) == 1;
    if res.Ok? {
      assert res.value.path == [flow(blank, T)];
      assert res.value.clock == [T];
    }
  }

  /** With buffers of a single row the loop never runs and the final integration
      starts from row 0, the initial state, over the whole horizon T. */
  lemma CompletesOneRow(p0: Snapshot, step: (Snapshot, nat) -> Outcome, flow: (State, real) -> State,
                        T: real, res: Result<Trajectory>)
    requires Completes(p0, step, LastRow(p0.state, 1), flow, T, 1, res)
    ensures res == Ok(Trajectory([flow(p0.state, T)], [T]))
  {
    assert Exit(p0, step, T, 1, 1) == 1;
    assert !Cut(p0, step, T, 1);
    assert res.Ok?;
    assert res.value.path == [flow(p0.state, T)];
    assert res.value.clock == [T];
  }

  /** Where the rescaled draw falls against a running share s/agg: the same side as
      r falls against (sample + s)/(agg + sample). */
  lemma RescaledOrder(agg: real, sample: real, r: real, x: real)
    requires agg > 0.0 && sample >= 0.0
    ensures x / agg <= Rescaled(r, agg, sample) <==> (sample + x) / (agg + sample) <= r
    ensures Rescaled(r, agg, sample) < x / agg <==> r < (sample + x) / (agg + sample)
  {
    var d := agg + sample;
    var y := r * d - sample;
    assert Rescaled(r, agg, sample) == y / agg;
    DivideOrder(x, y, agg);
    DivideOrder(y, x, agg);
    ShareBound(sample + x, r, d);
  }

  /** The corrected jump gives each slow event a slice of the jump range (p0, 1) as
      wide as its rate over agg + sample: event m fires exactly when r falls in
      [(sample + s_m)/(agg + sample), (sample + s_(m+1))/(agg + sample)), s_m being
      the running rate sum before m. Over the whole loop this makes event m fire with
      probability rate_m/(agg + sample), as the change of variables requires. */
  lemma JumpShares(slow: seq<Event>, agg: real, sample: real, r: real, m: nat)
    requires agg == Aggregate(slow) > 0.0 && sample >= 0.0 && m < |slow|
    requires r > sample / (agg + sample)
    ensures Jump(slow, agg, sample, r) == Chosen(m) <==>
      (sample + Mass(slow, m)) / (agg + sample) <= r < (sample + Mass(slow, m + 1)) / (agg + sample)
  {
    RescaledOrder(agg, sample, r, 0.0);
    assert 0.0 / agg == 0.0;
    SelectInterval(slow, agg, Rescaled(r, agg, sample), m);
    RescaledOrder(agg, sample, r, Mass(slow, m));
    RescaledOrder(agg, sample, r, Mass(slow, m + 1));
  }

  /** Inside the jump range, the corrected jump always fires an event exactly when
      the draw is below 1. */
  lemma JumpTotal(slow: seq<Event>, agg: real, sample: real, r: real)
    requires agg == Aggregate(slow) > 0.0 && sample >= 0.0
    requires r > sample / (agg + sample)
    ensures Jump(slow, agg, sample, r).Chosen? <==> r < 1.0
  {
    RescaledOrder(agg, sample, r, 0.0);
    assert 0.0 / agg == 0.0;
    RescaledOrder(agg, sample, r, agg);
    assert agg / agg == 1.0;
    assert (sample + agg) / (agg + sample) == 1.0;
    SelectTotal(slow, agg, Rescaled(r, agg, sample));
  }

  /** A rate law that is 1 everywhere. */
  function UnitLaw(s: State): Propensity
  {
    1.0
  }

  /** As written, `find_reaction` is handed the draw r after the test r > p0 has
      already confined it to (p0, 1). With two slow events of rate 1 and a sample
      rate of 2, p0 = 1/2 and event 0's slice [0, 1/2) lies wholly below p0: it
      never fires, though the two events are alike. The corrected jump fires it
      for r = 0.6. */
  lemma JumpAsWrittenSkipsFirst()
    ensures var e := Event([], 1.0, 0.0, UnitLaw);
      var slow := [e, e];
      Aggregate(slow) == 2.0 &&
      (forall r :: 2.0 / (2.0 + 2.0) < r ==> JumpAsWritten(slow, 2.0, r) != Chosen(0)) &&
      Jump(slow, 2.0, 2.0, 0.6) == Chosen(0)
  {
    var e := Event([], 1.0, 0.0, UnitLaw);
    var slow := [e, e];
    assert Mass(slow, 1) == 1.0;
    assert Mass(slow, 2) == 2.0;
    forall r | 2.0 / (2.0 + 2.0) < r ensures JumpAsWritten(slow, 2.0, r) != Chosen(0) {
      assert !Hit(slow, 2.0, r, 0);
    }
    assert Rescaled(0.6, 2.0, 2.0) == 0.2;
    assert Hit(slow, 2.0, 0.2, 0);
  }

  /** A draw below 1 can only clear p0 when some slow event is enabled. */
  lemma JumpRangeNeedsRate(agg: real, sample: real, r: real)
    requires agg >= 0.0 && sample > 0.0 && r < 1.0 && r > sample / (agg + sample)
    ensures agg > 0.0
  {
    if agg == 0.0 {
      WholeShare(sample);
    }
  }

  /** With a positive sample rate and a draw in [0, 1), the slow update never
      raises, whichever rule picks the event: it keeps the elapsed time and the
      event lists, and adds no stoichiometry when r <= p0. */
  lemma DecideNeverRaises(u: Snapshot, elapsed: real, sample: real, r: real, rule: Rule)
    requires 0.0 <= r < 1.0 && sample > 0.0
    ensures var o := Decide(u, elapsed, sample, r, rule);
      o.Moved? && o.delta == elapsed && o.next.fast == u.fast && o.next.slow == u.slow && o.next.events == u.events
    ensures var agg := Aggregate(u.slow);
      r <= sample / (agg + sample) ==> Decide(u, elapsed, sample, r, rule).next.state == u.state
  {
    var agg := Aggregate(u.slow);
    if r > sample / (agg + sample) {
      JumpRangeNeedsRate(agg, sample, r);
      if rule.Rescaling? {
        JumpTotal(u.slow, agg, sample, r);
      } else {
        SelectTotal(u.slow, agg, r);
      }
    }
  }

  /** With the corrected rule, r above p0 adds exactly one slow event's
      stoichiometry: the one whose slice of the jump range holds r. */
  lemma DecideJumps(u: Snapshot, elapsed: real, sample: real, r: real) returns (m: nat)
    requires r < 1.0 && sample > 0.0
    requires r > sample / (Aggregate(u.slow) + sample)
    ensures var agg := Aggregate(u.slow);
      m < |u.slow| &&
      (sample + Mass(u.slow, m)) / (agg + sample) <= r < (sample + Mass(u.slow, m + 1)) / (agg + sample) &&
      Decide(u, elapsed, sample, r, Rescaling).next.state == Plus(u.state, u.slow[m].stoich)
  {
    var agg := Aggregate(u.slow);
    JumpRangeNeedsRate(agg, sample, r);
    JumpTotal(u.slow, agg, sample, r);
    m := Jump(u.slow, agg, sample, r).index;
    JumpShares(u.slow, agg, sample, r, m);
  }

  /** As the loop is written, r above p0 adds exactly one slow event's
      stoichiometry: the one whose plain share slice [s_m/agg, s_(m+1)/agg) holds r,
      so only events whose slice reaches above p0 can fire. */
  lemma DecideJumpsAsWritten(u: Snapshot, elapsed: real, sample: real, r: real) returns (m: nat)
    requires r < 1.0 && sample > 0.0
    requires r > sample / (Aggregate(u.slow) + sample)
    ensures var agg := Aggregate(u.slow);
      agg > 0.0 && m < |u.slow| &&
      Mass(u.slow, m) / agg <= r < Mass(u.slow, m + 1) / agg &&
      sample / (agg + sample) < Mass(u.slow, m + 1) / agg &&
      Decide(u, elapsed, sample, r, AsWritten).next.state == Plus(u.state, u.slow[m].stoich)
  {
    var agg := Aggregate(u.slow);
    JumpRangeNeedsRate(agg, sample, r);
    assert r >= 0.0 by {
      ShareBound(sample, 0.0, agg + sample);
    }
    SelectTotal(u.slow, agg, r);
    m := JumpAsWritten(u.slow, agg, r).index;
    SelectInterval(u.slow, agg, r, m);
  }

  /** A pass integrates the augmented system with the slow aggregate it starts with,
      refreshes every rate at the integrated state, and advances the clock by the
      elapsed time the integration reports. */
  lemma StepIntegrates(s: Snapshot, chvFlow: (State, real, real) -> (State, real), expo: (real, nat) -> real,
                       uniform: nat -> real, sample: real, rule: Rule, k: nat)
    requires 0.0 <= uniform(k) < 1.0 && sample > 0.0
    ensures var o := Step(s, chvFlow, expo, uniform, sample, rule, k);
      var flowed := chvFlow(s.state, Aggregate(s.slow), expo(1.0, k));
      o.Moved? && o.delta == flowed.1 && Settled(o.next.(state := flowed.0)) && o.next.events == s.events
  {
    var flowed := chvFlow(s.state, Aggregate(s.slow), expo(1.0, k));
    DecideNeverRaises(Settle(s, flowed.0), flowed.1, sample, uniform(k), rule);
  }
}
