/** `strang_split`: Strang splitting on the fixed grid `np.arange(0, T, h0)`. For each
    grid time t the slow events are simulated stochastically over [t, t + h0/2),
    the reaction-rate equations are integrated over h0, the slow events are
    simulated again over [t + h0/2, t + h0), and the state is stored at index k,
    under the time t the step started from. */
module Splitting {
  import opened Network
  import opened Selection
  import opened Driver

  /** The least integer at or above q. */
  function Ceil(q: real): (c: int)
    ensures q <= c as real < q + 1.0
  {
    var f := q.Floor;
    if f as real == q then f else f + 1
  }

  /** The length of `np.arange(0, T, h0)`: ceil(T/h0) entries, none when T/h0 <= 0. */
  function Ticks(T: real, h0: real): nat
    requires h0 != 0.0
  {
    var q := T / h0;
    if q <= 0.0 then 0 else Ceil(q)
  }

  /** `np.arange(0, T, h0)` with n entries: entry i is i * h0. */
  function Arange(n: nat, h0: real): (clock: seq<real>)
    ensures |clock| == n
    ensures forall i :: 0 <= i < n ==> clock[i] == i as real * h0
  {
    seq(n, i => i as real * h0)
  }

  /** What one draw of a half-step loop does: a slow event fires and the local time
      tY moves on by delta, the draw is too long and is discarded, or an error is
      raised. */
  datatype Draw = Fired(next: Snapshot, delta: real) | Redrawn | Raised(fault: Fault)

  /** One pass of a half-step loop; `expo(agg, j)` and `uniform(j)` are the j-th
      draws of the run. The fired event's stoichiometry is added and every fast
      and slow rate refreshed. */
  function HalfDraw(s: Snapshot, expo: (real, nat) -> real, uniform: nat -> real, h0: real, j: nat): Draw
  {
    var agg := Aggregate(s.slow);
    var delta := expo(agg, j);
    if delta < h0 / 2.0 then
      match Select(s.slow, agg, uniform(j))
      case ZeroAggregate => Raised(DivisionByZero)
      case FellThrough => Raised(NoEventSelected)
      case Chosen(m) => Fired(Settle(s, Plus(s.state, s.slow[m].stoich)), delta)
    else Redrawn
  }

  function Drawer(expo: (real, nat) -> real, uniform: nat -> real, h0: real): (Snapshot, nat) -> Draw
  {
    (s: Snapshot, j: nat) => HalfDraw(s, expo, uniform, h0, j)
  }

  /** How a half-step loop ends: at local time `time` >= its end, with `used` draws
      taken so far, or with an error and the contents at that point. */
  datatype HalfStep = Swept(snap: Snapshot, used: nat, time: real) | Stopped(snap: Snapshot, fault: Fault)

  /** `while tY < end`, from draw j on. The source's loop has no bound on its
      redraws; here at most `budget` draws are taken over the whole run. */
  function Sweeping(s: Snapshot, tY: real, end: real, draw: (Snapshot, nat) -> Draw, j: nat, budget: nat): HalfStep
    decreases budget - j
  {
    if tY >= end then Swept(s, j, tY)
    else if j >= budget then Stopped(s, DrawsExhausted)
    else match draw(s, j)
      case Raised(f) => Stopped(s, f)
      case Redrawn => Sweeping(s, tY, end, draw, j + 1, budget)
      case Fired(n, d) => Sweeping(n, tY + d, end, draw, j + 1, budget)
  }

  /** A half-step loop. */
  method HalfStepLoop(s: Snapshot, tY: real, end: real, draw: (Snapshot, nat) -> Draw, j: nat, budget: nat) returns (r: HalfStep)
    ensures r == Sweeping(s, tY, end, draw, j, budget)
  {
    var cur, t, i := s, tY, j;
    while t < end
      invariant Sweeping(cur, t, end, draw, i, budget) == Sweeping(s, tY, end, draw, j, budget)
      decreases budget - i
    {
      if i >= budget {
        return Stopped(cur, DrawsExhausted);
      }
      var d := draw(cur, i);
      if d.Raised? {
        return Stopped(cur, d.fault);
      }
      if d.Fired? {
        cur, t := d.next, t + d.delta;
      }
      i := i + 1;
    }
    return Swept(cur, i, t);
  }

  /** One grid step from time t: a half step of slow events, the equations over h0
      with every rate refreshed, and a second half step from t + h0/2. */
  function Block(s: Snapshot, t: real, h0: real, flow: (State, real) -> State,
                 draw: (Snapshot, nat) -> Draw, j: nat, budget: nat): HalfStep
  {
    match Sweeping(s, t, t + h0 / 2.0, draw, j, budget)
    case Stopped(n, f) => Stopped(n, f)
    case Swept(a, i, _) =>
      Sweeping(Settle(a, flow(a.state, h0)), t + h0 / 2.0, t + h0, draw, i, budget)
  }

  /** The run after the first n grid steps: the contents, the stored states and the
      draws used, or the error raised and the contents at that point. */
  datatype Progress = Going(snap: Snapshot, path: seq<State>, used: nat) | Aborted(snap: Snapshot, fault: Fault)

  function Blocks(s0: Snapshot, n: nat, h0: real, flow: (State, real) -> State,
                  draw: (Snapshot, nat) -> Draw, budget: nat): Progress
  {
    if n == 0 then Going(s0, [], 0)
    else match Blocks(s0, n - 1, h0, flow, draw, budget)
      case Aborted(s, f) => Aborted(s, f)
      case Going(s, path, j) =>
        match Block(s, (n - 1) as real * h0, h0, flow, draw, j, budget)
        case Stopped(b, f) => Aborted(b, f)
        case Swept(b, i, _) => Going(b, path + [b.state], i)
  }

  /** What `strang_split` returns and leaves in the model: a zero step divides by
      zero in `np.arange`; an empty grid fails at `path[0]`; otherwise the grid
      steps run in turn, storing one state per grid time. */
  ghost predicate SplitReports(p0: Snapshot, T: real, h0: real, flow: (State, real) -> State,
                         draw: (Snapshot, nat) -> Draw, budget: nat, res: Result<Trajectory>, final: Snapshot)
  {
    if h0 == 0.0 then res == Err(DivisionByZero) && final == p0
    else if Ticks(T, h0) == 0 then res == Err(EmptyBuffer) && final == p0
    else match Blocks(p0, Ticks(T, h0), h0, flow, draw, budget)
      case Aborted(s, f) => res == Err(f) && final == s
      case Going(s, path, _) => res == Ok(Trajectory(path, Arange(Ticks(T, h0), h0))) && final == s
  }

  /** One grid step: the two half-step loops around the integration. */
  method GridStep(s: Snapshot, t: real, h0: real, flow: (State, real) -> State,
                  draw: (Snapshot, nat) -> Draw, j: nat, budget: nat) returns (r: HalfStep)
    ensures r == Block(s, t, h0, flow, draw, j, budget)
  {
    var a := HalfStepLoop(s, t, t + h0 / 2.0, draw, j, budget);
    if a.Stopped? {
      return a;
    }
    r := HalfStepLoop(Settle(a.snap, flow(a.snap.state, h0)), t + h0 / 2.0, t + h0, draw, a.used, budget);
  }

  /** `for k in range(len(clock))`, on the model's contents held in a local variable. */
  method Grid(p0: Snapshot, clock: seq<real>, h0: real, flow: (State, real) -> State,
              draw: (Snapshot, nat) -> Draw, budget: nat) returns (p: Progress)
    requires forall i :: 0 <= i < |clock| ==> clock[i] == i as real * h0
    ensures p == Blocks(p0, |clock|, h0, flow, draw, budget)
  {
    var cur := p0;
    var path: seq<State> := [];
    var j := 0;
    var k := 0;
    while k < |clock|
      invariant 0 <= k <= |clock|
      invariant Blocks(p0, k, h0, flow, draw, budget) == Going(cur, path, j)
    {
      var b := GridStep(cur, clock[k], h0, flow, draw, j, budget);
      BlocksNext(p0, k, h0, flow, draw, budget, cur, path, j);
      if b.Stopped? {
        AbortedStays(p0, k + 1, |clock|, h0, flow, draw, budget);
        return Aborted(b.snap, b.fault);
      }
      cur, path, j := b.snap, path + [b.snap.state], b.used;
      k := k + 1;
    }
    return Going(cur, path, j);
  }

  /** One more grid step, from time n·h0, after n steps that raised nothing. */
  lemma BlocksNext(s0: Snapshot, n: nat, h0: real, flow: (State, real) -> State,
                   draw: (Snapshot, nat) -> Draw, budget: nat, cur: Snapshot, path: seq<State>, j: nat)
    requires Blocks(s0, n, h0, flow, draw, budget) == Going(cur, path, j)
    ensures Blocks(s0, n + 1, h0, flow, draw, budget) ==
      match Block(cur, n as real * h0, h0, flow, draw, j, budget)
      case Stopped(b, f) => Aborted(b, f)
      case Swept(b, i, _) => Going(b, path + [b.state], i)
  {
    assert ((n + 1) - 1) as real * h0 == n as real * h0;
  }

  /** Once a grid step raises, the run stays aborted. */
  lemma {:induction false} AbortedStays(s0: Snapshot, m: nat, n: nat, h0: real, flow: (State, real) -> State,
                                        draw: (Snapshot, nat) -> Draw, budget: nat)
    requires m <= n && Blocks(s0, m, h0, flow, draw, budget).Aborted?
    ensures Blocks(s0, n, h0, flow, draw, budget) == Blocks(s0, m, h0, flow, draw, budget)
    decreases n - m
  {
    if m < n {
      AbortedStays(s0, m, n - 1, h0, flow, draw, budget);
    }
  }

  /** `strang_split(model, T, h0, h, method)`; `flow` is the reaction-rate equations
      integrated over a span, the tolerance h and method being inside it. */
  method StrangSplit(model: Model, T: real, h0: real, flow: (State, real) -> State,
                     expo: (real, nat) -> real, uniform: nat -> real, budget: nat)
    returns (res: Result<Trajectory>)
    modifies model
    ensures SplitReports(old(model.Contents()), T, h0, flow, Drawer(expo, uniform, h0), budget, res, model.Contents())
  {
    if h0 == 0.0 {
      return Err(DivisionByZero);
    }
    var n := Ticks(T, h0);
    if n == 0 {
      return Err(EmptyBuffer);
    }
    var clock := Arange(n, h0);
    var p := Grid(model.Contents(), clock, h0, flow, Drawer(expo, uniform, h0), budget);
    Store(model, p.snap);
    if p.Aborted? {
      return Err(p.fault);
    }
    return Ok(Trajectory(p.path, clock));
  }

  /** Write contents back into the model object. */
  method Store(model: Model, s: Snapshot)
    modifies model
    ensures model.Contents() == s
  {
    model.state, model.events, model.fastEvents, model.slowEvents := s.state, s.events, s.fast, s.slow;
  }

  /** `np.arange(0, T, h0)` with h0 > 0 covers [0, T): it is empty exactly when
      T <= 0, every entry is below T, and the next entry would not be. */
  lemma TicksCoverHorizon(T: real, h0: real)
    requires h0 > 0.0
    ensures Ticks(T, h0) == 0 <==> T <= 0.0
    ensures forall i :: 0 <= i < Ticks(T, h0) ==> Arange(Ticks(T, h0), h0)[i] < T
    ensures T <= Ticks(T, h0) as real * h0
  {
    var n := Ticks(T, h0);
    var grid := Arange(n, h0);
    ShareBound(T, 0.0, h0);
    assert 0.0 / h0 == 0.0;
    forall i | 0 <= i < n ensures grid[i] < T {
      ShareBound(T, i as real, h0);
    }
    ShareBound(T, n as real, h0);
  }

  /** One state is stored per grid time. */
  lemma {:induction false} BlocksStoreOnePerTick(s0: Snapshot, n: nat, h0: real, flow: (State, real) -> State,
                                                  draw: (Snapshot, nat) -> Draw, budget: nat)
    requires Blocks(s0, n, h0, flow, draw, budget).Going?
    ensures |Blocks(s0, n, h0, flow, draw, budget).path| == n
  {
    if n > 0 {
      var prev := Blocks(s0, n - 1, h0, flow, draw, budget);
      if prev.Aborted? {
        AbortedStays(s0, n - 1, n, h0, flow, draw, budget);
      } else {
        BlocksStoreOnePerTick(s0, n - 1, h0, flow, draw, budget);
      }
    }
  }

  /** Entry i of the stored path is the state grid step i ends in, the step that
      starts at time i·h0 and covers [i·h0, (i + 1)·h0). `strang_split` stamps it
      with clock[i] = i·h0, the time that step started from, and the initial
      state itself is never stored. */
  lemma {:induction false} BlocksStoreStepEnd(s0: Snapshot, n: nat, i: nat, h0: real, flow: (State, real) -> State,
                                              draw: (Snapshot, nat) -> Draw, budget: nat)
    requires i < n && Blocks(s0, n, h0, flow, draw, budget).Going?
    ensures Blocks(s0, i + 1, h0, flow, draw, budget).Going?
    ensures i < |Blocks(s0, n, h0, flow, draw, budget).path|
    ensures Blocks(s0, n, h0, flow, draw, budget).path[i] == Blocks(s0, i + 1, h0, flow, draw, budget).snap.state
    decreases n
  {
    BlocksStoreAppends(s0, n, h0, flow, draw, budget);
    BlocksStoreOnePerTick(s0, n - 1, h0, flow, draw, budget);
    if i < n - 1 {
      BlocksStoreStepEnd(s0, n - 1, i, h0, flow, draw, budget);
    }
  }

  /** A grid step that does not raise keeps the states stored before it and
      appends the one it ends in. */
  lemma BlocksStoreAppends(s0: Snapshot, n: nat, h0: real, flow: (State, real) -> State,
                           draw: (Snapshot, nat) -> Draw, budget: nat)
    requires n > 0 && Blocks(s0, n, h0, flow, draw, budget).Going?
    ensures Blocks(s0, n - 1, h0, flow, draw, budget).Going?
    ensures Blocks(s0, n, h0, flow, draw, budget).path ==
      Blocks(s0, n - 1, h0, flow, draw, budget).path + [Blocks(s0, n, h0, flow, draw, budget).snap.state]
  {
  }

  /** A run of `strang_split` that returns stores exactly one state per grid time,
      and with h0 > 0 the grid times are 0, h0, 2 h0, ... all below T. */
  lemma SplitOnePerTick(p0: Snapshot, T: real, h0: real, flow: (State, real) -> State,
                        draw: (Snapshot, nat) -> Draw, budget: nat, res: Result<Trajectory>, final: Snapshot)
    requires SplitReports(p0, T, h0, flow, draw, budget, res, final) && res.Ok?
    ensures h0 != 0.0 && |res.value.path| == |res.value.clock| == Ticks(T, h0) > 0
    ensures forall i :: 0 <= i < |res.value.clock| ==> res.value.clock[i] == i as real * h0
    ensures h0 > 0.0 ==> forall i :: 0 <= i < |res.value.clock| ==> res.value.clock[i] < T
  {
    BlocksStoreOnePerTick(p0, Ticks(T, h0), h0, flow, draw, budget);
    if h0 > 0.0 {
      TicksCoverHorizon(T, h0);
      assert res.value.clock == Arange(Ticks(T, h0), h0);
    }
  }

  /** A draw at least h0/2 long changes nothing: the half-step loop simply draws
      again, with the contents and local time as they were. */
  lemma RedrawChangesNothing(s: Snapshot, expo: (real, nat) -> real, uniform: nat -> real, h0: real,
                             tY: real, end: real, j: nat, budget: nat)
    ensures HalfDraw(s, expo, uniform, h0, j).Redrawn? <==> expo(Aggregate(s.slow), j) >= h0 / 2.0
    ensures tY < end && j < budget && HalfDraw(s, expo, uniform, h0, j).Redrawn? ==>
      Sweeping(s, tY, end, Drawer(expo, uniform, h0), j, budget) ==
      Sweeping(s, tY, end, Drawer(expo, uniform, h0), j + 1, budget)
  {
    assert Drawer(expo, uniform, h0)(s, j) == HalfDraw(s, expo, uniform, h0, j);
  }

  /** With a uniform draw in [0, 1), a draw shorter than h0/2 raises exactly when no
      slow event is enabled; otherwise it fires the slow event whose share slice
      holds the uniform draw, adds that event's stoichiometry, refreshes every rate,
      and moves the local time on by less than h0/2. */
  lemma HalfDrawFires(s: Snapshot, expo: (real, nat) -> real, uniform: nat -> real, h0: real, j: nat)
      returns (m: nat)
    requires 0.0 <= uniform(j) < 1.0
    requires expo(Aggregate(s.slow), j) < h0 / 2.0 && Aggregate(s.slow) != 0.0
    ensures var d := HalfDraw(s, expo, uniform, h0, j);
      var agg := Aggregate(s.slow);
      d.Fired? && d.delta == expo(agg, j) && d.delta < h0 / 2.0 &&
      m < |s.slow| && Mass(s.slow, m) / agg <= uniform(j) < Mass(s.slow, m + 1) / agg &&
      d.next.state == Plus(s.state, s.slow[m].stoich) && Settled(d.next) && d.next.events == s.events
  {
    var agg := Aggregate(s.slow);
    SelectTotal(s.slow, agg, uniform(j));
    m := Select(s.slow, agg, uniform(j)).index;
    SelectInterval(s.slow, agg, uniform(j), m);
  }

  /** A draw shorter than h0/2 with no enabled slow event raises: a zero aggregate
      divides by zero, an empty slow list returns None. */
  lemma HalfDrawRaises(s: Snapshot, expo: (real, nat) -> real, uniform: nat -> real, h0: real, j: nat)
    requires expo(Aggregate(s.slow), j) < h0 / 2.0 && Aggregate(s.slow) == 0.0
    ensures HalfDraw(s, expo, uniform, h0, j) ==
      Raised(if s.slow == [] then NoEventSelected else DivisionByZero)
  {
  }

  /** Every event a half-step draw fires moves the local time on by less than h0/2. */
  lemma DrawerBounded(expo: (real, nat) -> real, uniform: nat -> real, h0: real)
    ensures forall s, j :: Drawer(expo, uniform, h0)(s, j).Fired? ==> Drawer(expo, uniform, h0)(s, j).delta < h0 / 2.0
  {
  }

  /** A half-step loop whose fired draws each move time on by less than `bound`
      ends at or after its end and, when it ran at all, less than `bound` after it. */
  lemma {:induction false} SweepOvershoot(s: Snapshot, tY: real, end: real, draw: (Snapshot, nat) -> Draw,
                                          j: nat, budget: nat, bound: real)
    requires forall s', j' :: draw(s', j').Fired? ==> draw(s', j').delta < bound
    requires Sweeping(s, tY, end, draw, j, budget).Swept?
    ensures end <= Sweeping(s, tY, end, draw, j, budget).time
    ensures tY < end ==> Sweeping(s, tY, end, draw, j, budget).time < end + bound
    ensures tY >= end ==> Sweeping(s, tY, end, draw, j, budget).time == tY
    decreases budget - j
  {
    if tY < end && j < budget {
      var d := draw(s, j);
      if d.Redrawn? {
        SweepOvershoot(s, tY, end, draw, j + 1, budget, bound);
      } else if d.Fired? {
        SweepOvershoot(d.next, tY + d.delta, end, draw, j + 1, budget, bound);
      }
    }
  }
}
