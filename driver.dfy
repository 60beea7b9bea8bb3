/** The loop the event-driven drivers share. `next_reaction`, `gillespie`,
    `gillespie_hybrid` and `chv` all fill preallocated buffers `path` and `clock`
    of length Nt: entry 0 holds the initial state at time 0, and pass k of the
    loop, run while `k < Nt and clock[k-1] < T` (for `chv`, with its counter
    shifted by one, the same test), either records the new state at
    clock[k-1] + delta or leaves the loop. The drivers differ only in what one
    pass does, which is a `step` here: a function from the model's contents
    and the pass number (which indexes the random draws) to an `Outcome`. */
module Driver {
  import opened Network

  /** The model object the drivers share, updated in place. */
  class Model {
    var state: State
    var events: seq<Event>
    var fastEvents: seq<Event>
    var slowEvents: seq<Event>

    constructor (s: State, evs: seq<Event>, fast: seq<Event>, slow: seq<Event>)
      ensures Contents() == Snapshot(s, evs, fast, slow)
    {
      state, events, fastEvents, slowEvents := s, evs, fast, slow;
    }

    function Contents(): Snapshot
      reads this
    {
      Snapshot(state, events, fastEvents, slowEvents)
    }
  }

  /** What one pass of a loop body does: record the new contents `delta` later,
      leave the loop (`break`) with the contents changed, or raise with the
      contents changed as far as they were before the error. */
  datatype Outcome =
    | Moved(next: Snapshot, delta: real)
    | Halted(next: Snapshot)
    | Faulted(next: Snapshot, fault: Fault)

  /** Contents and clock of the model after some passes. */
  datatype Sample = Sample(snap: Snapshot, time: real)

  /** The sample after n recorded passes: pass k moves from sample k-1 to sample k. */
  function Walk(p0: Snapshot, step: (Snapshot, nat) -> Outcome, n: nat): Sample
  {
    if n == 0 then Sample(p0, 0.0)
    else
      var p := Walk(p0, step, n - 1);
      var o := step(p.snap, n);
      if o.Moved? then Sample(o.next, p.time + o.delta) else p
  }

  /** The value of `k` when the loop ends, counting from pass k: the first pass
      that is not run (k = Nt or clock[k-1] >= T) or that does not record. */
  function Exit(p0: Snapshot, step: (Snapshot, nat) -> Outcome, T: real, nt: nat, k: nat): (r: nat)
    requires k >= 1
    ensures k <= r && (k <= nt ==> r <= nt)
    decreases nt - k
  {
    if k < nt && Walk(p0, step, k - 1).time < T && step(Walk(p0, step, k - 1).snap, k).Moved?
    then Exit(p0, step, T, nt, k + 1) else k
  }

  /** The pass at which the loop ends was run (it broke out or raised) rather than
      the loop test failing. */
  predicate Cut(p0: Snapshot, step: (Snapshot, nat) -> Outcome, T: real, nt: nat)
    requires nt >= 1
  {
    var K := Exit(p0, step, T, nt, 1);
    K < nt && Walk(p0, step, K - 1).time < T
  }

  /** The model's contents when the driver returns or raises. */
  function Final(p0: Snapshot, step: (Snapshot, nat) -> Outcome, T: real, nt: nat): Snapshot
    requires nt >= 1
  {
    var K := Exit(p0, step, T, nt, 1);
    var last := Walk(p0, step, K - 1);
    if Cut(p0, step, T, nt) then step(last.snap, K).next else last.snap
  }

  /** What the driver reports: the error raised by the pass that raised, or
      `path[0:k-1], clock[0:k-1]` for the final k, entry i being sample i. */
  predicate Reports(p0: Snapshot, step: (Snapshot, nat) -> Outcome, T: real, nt: nat, res: Result<Trajectory>)
    requires nt >= 1
  {
    var K := Exit(p0, step, T, nt, 1);
    var last := Walk(p0, step, K - 1);
    (res.Err? <==> Cut(p0, step, T, nt) && step(last.snap, K).Faulted?) &&
    (res.Err? ==> res.fault == step(last.snap, K).fault) &&
    (res.Ok? ==> |res.value.path| == |res.value.clock| == K - 1) &&
    (res.Ok? ==> forall i :: 0 <= i < K - 1 ==>
       res.value.path[i] == Walk(p0, step, i).snap.state && res.value.clock[i] == Walk(p0, step, i).time)
  }

  /** path[0:k] and clock[0:k] hold samples 0 .. k-1. */
  predicate Recorded(p0: Snapshot, step: (Snapshot, nat) -> Outcome, path: seq<State>, clock: seq<real>)
  {
    |path| == |clock| &&
    forall i :: 0 <= i < |path| ==> path[i] == Walk(p0, step, i).snap.state && clock[i] == Walk(p0, step, i).time
  }

  /** Recording the sample of a pass that moved extends the recorded prefix. */
  lemma RecordedExtend(p0: Snapshot, step: (Snapshot, nat) -> Outcome, path: seq<State>, clock: seq<real>)
    requires Recorded(p0, step, path, clock) && path != []
    requires step(Walk(p0, step, |path| - 1).snap, |path|).Moved?
    ensures var o := step(Walk(p0, step, |path| - 1).snap, |path|);
      Recorded(p0, step, path + [o.next.state], clock + [clock[|clock| - 1] + o.delta])
  {
  }

  /** The loop ended at pass k, with samples 0 .. k-1 recorded, without raising. */
  lemma ReportsReturn(p0: Snapshot, step: (Snapshot, nat) -> Outcome, T: real, nt: nat, path: seq<State>, clock: seq<real>)
    requires nt >= 1 && Recorded(p0, step, path, clock) && path != []
    requires Exit(p0, step, T, nt, 1) == |path|
    requires Cut(p0, step, T, nt) ==> step(Walk(p0, step, |path| - 1).snap, |path|).Halted?
    ensures Reports(p0, step, T, nt, Ok(Trajectory(path[..|path| - 1], clock[..|clock| - 1])))
  {
  }

  /** The shared loop, on the model's contents held in a local variable. */
  method Run(p0: Snapshot, step: (Snapshot, nat) -> Outcome, T: real, nt: nat) returns (res: Result<Trajectory>, final: Snapshot)
    requires nt >= 1
    ensures Reports(p0, step, T, nt, res)
    ensures final == Final(p0, step, T, nt)
  {
    var cur := p0;
    var path: seq<State> := [cur.state];
    var clock: seq<real> := [0.0];
    var k := 1;
    while k < nt && clock[k - 1] < T
      invariant 1 <= k <= nt
      invariant |path| == |clock| == k
      invariant Recorded(p0, step, path, clock)
      invariant Walk(p0, step, k - 1) == Sample(cur, clock[k - 1])
      invariant Exit(p0, step, T, nt, k) == Exit(p0, step, T, nt, 1)
    {
      var o := step(cur, k);
      if !o.Moved? {
        assert Exit(p0, step, T, nt, 1) == k && Cut(p0, step, T, nt);
        if o.Faulted? {
          return Err(o.fault), o.next;
        }
        ReportsReturn(p0, step, T, nt, path, clock);
        return Ok(Trajectory(path[..k - 1], clock[..k - 1])), o.next;
      }
      RecordedExtend(p0, step, path, clock);
      cur := o.next;
      path, clock := path + [o.next.state], clock + [clock[k - 1] + o.delta];
      k := k + 1;
    }
    assert Exit(p0, step, T, nt, 1) == k && !Cut(p0, step, T, nt);
    ReportsReturn(p0, step, T, nt, path, clock);
    return Ok(Trajectory(path[..k - 1], clock[..k - 1])), cur;
  }

  /** The driver on the model object: the loop, after which the model holds the
      contents it had when the loop ended or the error was raised. */
  method Simulate(model: Model, step: (Snapshot, nat) -> Outcome, T: real, nt: nat) returns (res: Result<Trajectory>)
    requires nt >= 1
    modifies model
    ensures Reports(old(model.Contents()), step, T, nt, res)
    ensures model.Contents() == Final(old(model.Contents()), step, T, nt)
  {
    var final;
    res, final := Run(model.Contents(), step, T, nt);
    model.state, model.events, model.fastEvents, model.slowEvents := final.state, final.events, final.fast, final.slow;
  }

  /** Every pass before the final one was run and recorded. */
  lemma {:induction false} ExitContinues(p0: Snapshot, step: (Snapshot, nat) -> Outcome, T: real, nt: nat, k: nat, j: nat)
    requires 1 <= k <= j < Exit(p0, step, T, nt, k)
    ensures j < nt && Walk(p0, step, j - 1).time < T && step(Walk(p0, step, j - 1).snap, j).Moved?
    decreases j - k
  {
    if k < j {
      ExitContinues(p0, step, T, nt, k + 1, j);
    }
  }

  /** A returned trajectory is shorter than the buffers, starts at the initial state
      at time 0, and every returned time is before the horizon T. */
  lemma RecordedBeforeHorizon(p0: Snapshot, step: (Snapshot, nat) -> Outcome, T: real, nt: nat, res: Result<Trajectory>)
    requires nt >= 1 && Reports(p0, step, T, nt, res) && res.Ok?
    ensures |res.value.clock| < nt
    ensures |res.value.clock| > 0 ==> res.value.path[0] == p0.state && res.value.clock[0] == 0.0
    ensures forall i :: 0 <= i < |res.value.clock| ==> res.value.clock[i] < T
  {
    var K := Exit(p0, step, T, nt, 1);
    forall i | 0 <= i < |res.value.clock| ensures res.value.clock[i] < T {
      ExitContinues(p0, step, T, nt, 1, i + 1);
    }
  }

  /** Between consecutive returned entries the model moved by one recorded pass:
      entry i+1 is what pass i+1 makes of entry i's contents, delta later. */
  lemma RecordedSteps(p0: Snapshot, step: (Snapshot, nat) -> Outcome, T: real, nt: nat, res: Result<Trajectory>, i: nat)
    requires nt >= 1 && Reports(p0, step, T, nt, res) && res.Ok?
    requires i + 1 < |res.value.clock|
    ensures var o := step(Walk(p0, step, i).snap, i + 1);
      o.Moved? &&
      res.value.path[i + 1] == o.next.state &&
      res.value.clock[i + 1] == res.value.clock[i] + o.delta
  {
    ExitContinues(p0, step, T, nt, 1, i + 1);
  }

  /** A property of the contents that every recording pass keeps holds at every sample. */
  lemma {:induction false} WalkPreserves(p0: Snapshot, step: (Snapshot, nat) -> Outcome, inv: Snapshot -> bool, n: nat)
    requires inv(p0)
    requires forall s, k :: inv(s) && step(s, k).Moved? ==> inv(step(s, k).next)
    ensures inv(Walk(p0, step, n).snap)
  {
    if n > 0 {
      WalkPreserves(p0, step, inv, n - 1);
    }
  }
}
