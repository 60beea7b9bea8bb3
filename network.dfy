/** The state and event abstractions that every simulation driver works on:
    a species x compartment array of copy numbers, the reaction and diffusion
    channels ("events") with their propensities and waiting times, and the
    model object that owns both. */
module Network {

  /** A species x compartment array: row i is species i, column j compartment j. */
  type State = seq<seq<real>>

  /** A propensity; a rate law never produces a negative one. */
  type Propensity = r: real | r >= 0.0

  /** Entry j of a row, 0 where the row is too short. */
  function At(row: seq<real>, j: nat): real
  {
    if j < |row| then row[j] else 0.0
  }

  /** Row i of a state, empty where the state is too short. */
  function RowAt(s: State, i: nat): seq<real>
  {
    if i < |s| then s[i] else []
  }

  /** The entry-wise sum a + b, taken over the shape of a. */
  function Plus(a: State, b: State): (r: State)
    ensures |r| == |a|
    ensures forall i :: 0 <= i < |a| ==> |r[i]| == |a[i]|
  {
    seq(|a|, i requires 0 <= i < |a| =>
      seq(|a[i]|, j requires 0 <= j < |a[i]| => a[i][j] + At(RowAt(b, i), j)))
  }

  predicate SameShape(a: State, b: State)
  {
    |a| == |b| && forall i :: 0 <= i < |a| ==> |a[i]| == |b[i]|
  }

  /** No copy number is negative. */
  predicate NonNegative(s: State)
  {
    forall i, j :: 0 <= i < |s| && 0 <= j < |s[i]| ==> s[i][j] >= 0.0
  }

  /** When the shapes agree, Plus adds entry by entry and keeps the shape. */
  lemma PlusAt(a: State, b: State)
    requires SameShape(a, b)
    ensures SameShape(Plus(a, b), a)
    ensures forall i, j :: 0 <= i < |a| && 0 <= j < |a[i]| ==> Plus(a, b)[i][j] == a[i][j] + b[i][j]
  {
  }

  /** The weighted sum sum_j w[j] * v[j] of one row. */
  function Dot(w: seq<real>, v: seq<real>): real
    requires |w| == |v|
  {
    if v == [] then 0.0 else w[0] * v[0] + Dot(w[1..], v[1..])
  }

  /** The weighted total sum_ij w[i][j] * s[i][j], a linear functional of the state. */
  function Weighted(w: State, s: State): real
    requires SameShape(w, s)
  {
    if s == [] then 0.0 else Dot(w[0], s[0]) + Weighted(w[1..], s[1..])
  }

  lemma {:induction false} DotPlus(w: seq<real>, a: seq<real>, b: seq<real>)
    requires |w| == |a| == |b|
    ensures |a| == |Plus([a], [b])[0]|
    ensures Dot(w, Plus([a], [b])[0]) == Dot(w, a) + Dot(w, b)
  {
    var r := Plus([a], [b])[0];
    if a != [] {
      DotPlus(w[1..], a[1..], b[1..]);
      assert Plus([a[1..]], [b[1..]])[0] == r[1..];
    }
  }

  /** A weighted total is additive over Plus: firing an event changes it by the
      weighted total of the event's stoichiometry. */
  lemma {:induction false} WeightedPlus(w: State, a: State, b: State)
    requires SameShape(w, a) && SameShape(a, b)
    ensures SameShape(w, Plus(a, b))
    ensures Weighted(w, Plus(a, b)) == Weighted(w, a) + Weighted(w, b)
  {
    var r := Plus(a, b);
    if a != [] {
      DotPlus(w[0], a[0], b[0]);
      assert r[0] == Plus([a[0]], [b[0]])[0];
      WeightedPlus(w[1..], a[1..], b[1..]);
      forall i | 0 <= i < |a| - 1 ensures r[1..][i] == Plus(a[1..], b[1..])[i] {
        assert RowAt(b[1..], i) == RowAt(b, i + 1);
      }
      assert r[1..] == Plus(a[1..], b[1..]);
    }
  }

  /** One reaction or diffusion channel. `stoich` is added to the state when the
      event fires, `rate` is its current propensity, `wait` its current waiting
      time estimate, and `law` the rate law that `update_rate` applies to the
      current state. */
  datatype Event = Event(stoich: State, rate: Propensity, wait: real, law: State -> Propensity)

  /** `update_rate`: recompute the propensity from the current state; nothing else changes. */
  function UpdateRate(e: Event, s: State): (r: Event)
    ensures r.rate == e.law(s)
    ensures r.stoich == e.stoich && r.wait == e.wait && r.law == e.law
  {
    e.(rate := e.law(s))
  }

  /** `fire`: the event that has just fired takes a freshly drawn waiting time. */
  function Fire(e: Event, draw: real): (r: Event)
    ensures r.wait == draw
    ensures r.stoich == e.stoich && r.rate == e.rate && r.law == e.law
  {
    e.(wait := draw)
  }

  /** `no_fire`: every other event's waiting time runs down by the elapsed time. */
  function NoFire(e: Event, delta: real): (r: Event)
    ensures r.wait == e.wait - delta
    ensures r.stoich == e.stoich && r.rate == e.rate && r.law == e.law
  {
    e.(wait := e.wait - delta)
  }

  /** `for e in events: e.update_rate()`: every propensity refreshed from s, order kept. */
  function Refresh(evs: seq<Event>, s: State): (r: seq<Event>)
    ensures |r| == |evs|
    ensures forall i :: 0 <= i < |evs| ==> r[i] == UpdateRate(evs[i], s)
  {
    seq(|evs|, i requires 0 <= i < |evs| => UpdateRate(evs[i], s))
  }

  /** The running rate sum over the first n events. */
  function Mass(evs: seq<Event>, n: nat): (r: real)
    requires n <= |evs|
    ensures r >= 0.0
  {
    if n == 0 then 0.0 else Mass(evs, n - 1) + evs[n - 1].rate
  }

  /** `sum(e.rate for e in events)`: the aggregate rate. */
  function Aggregate(evs: seq<Event>): (r: real)
    ensures r >= 0.0
  {
    Mass(evs, |evs|)
  }

  /** The running rate sum never decreases along the list. */
  lemma {:induction false} MassMonotone(evs: seq<Event>, i: nat, j: nat)
    requires i <= j <= |evs|
    ensures Mass(evs, i) <= Mass(evs, j)
  {
    if i < j {
      MassMonotone(evs, i, j - 1);
    }
  }

  /** `w` is a conservation law of the events: every stoichiometry has w's shape
      and weighted total 0. */
  predicate Conserves(w: State, evs: seq<Event>)
  {
    forall i :: 0 <= i < |evs| ==> SameShape(w, evs[i].stoich) && Weighted(w, evs[i].stoich) == 0.0
  }

  /** The state has w's shape and weighted total c, and w is conserved by the events. */
  predicate Balanced(w: State, c: real, s: State, evs: seq<Event>)
  {
    SameShape(w, s) && Weighted(w, s) == c && Conserves(w, evs)
  }

  /** Adding the stoichiometry of an event that conserves w keeps the weighted total. */
  lemma JumpKeepsBalance(w: State, c: real, s: State, evs: seq<Event>, m: nat)
    requires Balanced(w, c, s, evs) && m < |evs|
    ensures Balanced(w, c, Plus(s, evs[m].stoich), evs)
  {
    PlusAt(s, evs[m].stoich);
    WeightedPlus(w, s, evs[m].stoich);
  }

  /** Every propensity is its rate law at the state, as after `update_rate`. */
  predicate Fresh(s: State, evs: seq<Event>)
  {
    forall i :: 0 <= i < |evs| ==> evs[i].rate == evs[i].law(s)
  }

  /** Every fast and slow propensity is its rate law at the state. */
  predicate Settled(s: Snapshot)
  {
    Fresh(s.state, s.fast) && Fresh(s.state, s.slow)
  }

  /** The contents with the state replaced and every fast and slow rate refreshed
      (`for e in model.events_fast: e.update_rate()`, and the same for the slow list). */
  function Settle(s: Snapshot, state: State): (r: Snapshot)
    ensures r.state == state && r.events == s.events && Settled(r)
    ensures r.fast == Refresh(s.fast, state) && r.slow == Refresh(s.slow, state)
    ensures |r.fast| == |s.fast| && |r.slow| == |s.slow|
    ensures forall i :: 0 <= i < |s.slow| ==> r.slow[i].stoich == s.slow[i].stoich
  {
    Snapshot(state, s.events, Refresh(s.fast, state), Refresh(s.slow, state))
  }

  /** The all-zero state of s's shape, as in a row of `np.zeros` never written. */
  function ZeroLike(s: State): (z: State)
    ensures SameShape(z, s)
    ensures forall i, j :: 0 <= i < |z| && 0 <= j < |z[i]| ==> z[i][j] == 0.0
  {
    seq(|s|, i requires 0 <= i < |s| => seq(|s[i]|, j => 0.0))
  }

  /** Dividing by a positive number keeps order. */
  lemma DivideOrder(x: real, y: real, d: real)
    requires d > 0.0
    ensures x / d <= y / d <==> x <= y
    ensures x / d < y / d <==> x < y
  {
    assert y / d - x / d == (y - x) / d;
  }

  /** Comparing a quotient with r is comparing the dividend with r times the divisor. */
  lemma ShareBound(x: real, r: real, d: real)
    requires d > 0.0
    ensures x / d <= r <==> x <= r * d
    ensures r < x / d <==> r * d < x
  {
    assert (r * d) / d == r;
    DivideOrder(x, r * d, d);
    DivideOrder(r * d, x, d);
  }

  /** Why a driver call ends without returning a trajectory. */
  datatype Fault =
    | NoEvents          // min() over an empty event list raises
    | NoEventSelected   // find_reaction fell through and returned None
    | DivisionByZero    // a share was taken of a zero rate
    | DrawsExhausted    // the half-step's draw budget ran out (model only)
    | EmptyBuffer       // path[0] of a buffer with no rows

  /** The pair (path, clock) a driver returns. */
  datatype Trajectory = Trajectory(path: seq<State>, clock: seq<real>)

  datatype Result<T> = Ok(value: T) | Err(fault: Fault)

  /** What a driver reads and updates of the model object: its state, its full
      event list, and its fast (continuous) and slow (stochastic) event lists. */
  datatype Snapshot = Snapshot(state: State, events: seq<Event>, fast: seq<Event>, slow: seq<Event>)
}
