/** `next_reaction`: the exact event-driven method. Each pass fires the event with
    the least waiting time, advances the clock by that wait, adds the event's
    stoichiometry to the state, gives the fired event a fresh wait, runs down every
    other event's wait, and moves the fired event to the end of the list; a
    negative copy number ends the loop before the state is recorded. */
module NextReaction {
  import opened Network
  import opened Driver

  /** `min(model.events, key=lambda e: e.wait_absolute)` and its index: the first
      event in list order whose waiting time is least. */
  function FirstMinWait(evs: seq<Event>): (m: nat)
    requires evs != []
    ensures m < |evs|
    ensures forall j :: 0 <= j < |evs| ==> evs[m].wait <= evs[j].wait
    ensures forall j :: 0 <= j < m ==> evs[j].wait > evs[m].wait
  {
    if |evs| == 1 then 0
    else
      var m := FirstMinWait(evs[..|evs| - 1]);
      if evs[|evs| - 1].wait < evs[m].wait then |evs| - 1 else m
  }

  /** The event list after a pass: `fire` on the event at m, `pop(m)`, `no_fire`
      on each remaining event, and `append` of the fired event. The fired event,
      with its fresh wait, ends up last; the others keep their relative order,
      each having had its wait run down by delta exactly once. */
  function Rotate(evs: seq<Event>, m: nat, delta: real, draw: real): (r: seq<Event>)
    requires m < |evs|
    ensures |r| == |evs|
    ensures r[|evs| - 1] == Fire(evs[m], draw)
    ensures forall i :: 0 <= i < m ==> r[i] == NoFire(evs[i], delta)
    ensures forall i :: m <= i < |evs| - 1 ==> r[i] == NoFire(evs[i + 1], delta)
  {
    var rest := evs[..m] + evs[m + 1..];
    seq(|rest|, i requires 0 <= i < |rest| => NoFire(rest[i], delta)) + [Fire(evs[m], draw)]
  }

  /** One pass of the loop body; `draw` is the wait that `fire` gives the fired event. */
  function Step(s: Snapshot, draw: real): Outcome
  {
    if s.events == [] then Faulted(s, NoEvents)
    else
      var m := FirstMinWait(s.events);
      var next := s.(state := Plus(s.state, s.events[m].stoich),
                     events := Rotate(s.events, m, s.events[m].wait, draw));
      if NonNegative(next.state) then Moved(next, s.events[m].wait) else Halted(next)
  }

  /** The pass function of the driver; draws(k) is the wait drawn at pass k. */
  function Stepper(draws: nat -> real): (Snapshot, nat) -> Outcome
  {
    (s: Snapshot, k: nat) => Step(s, draws(k))
  }

  /** `next_reaction(model, T)` with Nt = nt. */
  method NextReactionMethod(model: Model, T: real, nt: nat, draws: nat -> real) returns (res: Result<Trajectory>)
    requires nt >= 1
    modifies model
    ensures Reports(old(model.Contents()), Stepper(draws), T, nt, res)
    ensures model.Contents() == Final(old(model.Contents()), Stepper(draws), T, nt)
  {
    res := Simulate(model, Stepper(draws), T, nt);
  }

  /** A pass fires the event with the least wait: the clock advances by that wait,
      the fired event is moved last with its fresh wait, and the state changes by
      exactly that event's stoichiometry and nothing else; fast and slow lists are
      untouched. An empty event list raises. */
  lemma StepFiresLeastWait(s: Snapshot, draw: real)
    ensures Step(s, draw).Faulted? <==> s.events == []
    ensures !Step(s, draw).Faulted? ==>
      var n := Step(s, draw).next;
      var fired := n.events[|n.events| - 1];
      |n.events| == |s.events| &&
      fired.wait == draw &&
      (exists m :: 0 <= m < |s.events| && s.events[m].stoich == fired.stoich && s.events[m].rate == fired.rate &&
        (Step(s, draw).Moved? ==> Step(s, draw).delta == s.events[m].wait)) &&
      (Step(s, draw).Moved? ==> forall j :: 0 <= j < |s.events| ==> Step(s, draw).delta <= s.events[j].wait) &&
      n.state == Plus(s.state, fired.stoich) &&
      n.fast == s.fast && n.slow == s.slow
    ensures Step(s, draw).Moved? <==> s.events != [] && NonNegative(Step(s, draw).next.state)
  {
    if s.events != [] {
      var m := FirstMinWait(s.events);
      var n := Step(s, draw).next;
      assert n.events[|n.events| - 1] == Fire(s.events[m], draw);
    }
  }

  /** Firing the event with the least wait keeps every waiting time non-negative,
      given that the fresh draw is non-negative. */
  lemma RotateKeepsWaitsNonNegative(evs: seq<Event>, draw: real)
    requires evs != [] && draw >= 0.0
    requires forall i :: 0 <= i < |evs| ==> evs[i].wait >= 0.0
    ensures var m := FirstMinWait(evs);
      var r := Rotate(evs, m, evs[m].wait, draw);
      forall i :: 0 <= i < |r| ==> r[i].wait >= 0.0
  {
    var m := FirstMinWait(evs);
    var r := Rotate(evs, m, evs[m].wait, draw);
    forall i | 0 <= i < |r| ensures r[i].wait >= 0.0 {
      if i < m {
        assert evs[m].wait <= evs[i].wait;
      } else if i < |evs| - 1 {
        assert evs[m].wait <= evs[i + 1].wait;
      }
    }
  }

  /** The rotated list holds the same events up to their waits: the same
      stoichiometries and rates, as a multiset. */
  lemma RotateKeepsEvents(evs: seq<Event>, m: nat, delta: real, draw: real)
    requires m < |evs|
    ensures multiset(Unwaited(Rotate(evs, m, delta, draw))) == multiset(Unwaited(evs))
  {
    var a, x, b := Unwaited(evs[..m]), Unwaited(evs[m..m + 1]), Unwaited(evs[m + 1..]);
    RotateMovesFired(evs, m, delta, draw);
    UnwaitedAppend(evs[..m], evs[m + 1..]);
    UnwaitedSplit(evs, m);
    assert multiset((a + b) + x) == multiset(a) + multiset(b) + multiset(x);
  }

  /** Apart from waiting times, the rotation is the list without the fired event,
      followed by the fired event. */
  lemma RotateMovesFired(evs: seq<Event>, m: nat, delta: real, draw: real)
    requires m < |evs|
    ensures Unwaited(Rotate(evs, m, delta, draw)) == Unwaited(evs[..m] + evs[m + 1..]) + Unwaited(evs[m..m + 1])
  {
    var r := Rotate(evs, m, delta, draw);
    var rest := evs[..m] + evs[m + 1..];
    forall i | 0 <= i < |r| - 1 ensures Unwaited(r)[i] == Unwaited(rest)[i] {
      if i < m {
        assert rest[i] == evs[i];
      } else {
        assert rest[i] == evs[i + 1];
      }
    }
  }

  lemma UnwaitedSplit(evs: seq<Event>, m: nat)
    requires m < |evs|
    ensures Unwaited(evs) == Unwaited(evs[..m]) + (Unwaited(evs[m..m + 1]) + Unwaited(evs[m + 1..]))
  {
    var a, x, b := Unwaited(evs[..m]), Unwaited(evs[m..m + 1]), Unwaited(evs[m + 1..]);
    forall i | 0 <= i < |evs| ensures Unwaited(evs)[i] == (a + (x + b))[i] {
      if i > m {
        assert evs[m + 1..][i - m - 1] == evs[i];
      }
    }
  }

  lemma UnwaitedAppend(a: seq<Event>, b: seq<Event>)
    ensures Unwaited(a + b) == Unwaited(a) + Unwaited(b)
  {
  }

  /** An event with its wait set aside: what `fire` and `no_fire` do not change. */
  function Unwaited(evs: seq<Event>): (r: seq<(State, Propensity)>)
    ensures |r| == |evs|
    ensures forall i :: 0 <= i < |evs| ==> r[i] == (evs[i].stoich, evs[i].rate)
  {
    seq(|evs|, i requires 0 <= i < |evs| => (evs[i].stoich, evs[i].rate))
  }

  /** Every state `next_reaction` returns is non-negative when the initial one is:
      a negative count ends the loop before it is recorded. */
  lemma RecordedNonNegative(p0: Snapshot, draws: nat -> real, T: real, nt: nat, res: Result<Trajectory>)
    requires nt >= 1 && NonNegative(p0.state)
    requires Reports(p0, Stepper(draws), T, nt, res) && res.Ok?
    ensures forall i :: 0 <= i < |res.value.path| ==> NonNegative(res.value.path[i])
  {
    RecordedBeforeHorizon(p0, Stepper(draws), T, nt, res);
    forall i | 0 <= i < |res.value.path| ensures NonNegative(res.value.path[i]) {
      if i > 0 {
        RecordedSteps(p0, Stepper(draws), T, nt, res, i - 1);
        StepFiresLeastWait(Walk(p0, Stepper(draws), i - 1).snap, draws(i));
      }
    }
  }

  /** No event is overdue: every waiting time is non-negative. */
  predicate WaitsNonNegative(s: Snapshot)
  {
    forall i :: 0 <= i < |s.events| ==> s.events[i].wait >= 0.0
  }

  /** A pass from non-negative waits, with a non-negative draw, advances the clock
      by a non-negative amount and leaves the waits non-negative. */
  lemma StepKeepsWaitsNonNegative(s: Snapshot, draw: real)
    requires WaitsNonNegative(s) && draw >= 0.0 && Step(s, draw).Moved?
    ensures Step(s, draw).delta >= 0.0 && WaitsNonNegative(Step(s, draw).next)
  {
    RotateKeepsWaitsNonNegative(s.events, draw);
  }

  /** With non-negative initial waits and draws, the returned clock never goes back:
      each entry is the previous one plus the least waiting time. */
  lemma ClockNondecreasing(p0: Snapshot, draws: nat -> real, T: real, nt: nat, res: Result<Trajectory>)
    requires nt >= 1 && WaitsNonNegative(p0) && forall k :: draws(k) >= 0.0
    requires Reports(p0, Stepper(draws), T, nt, res) && res.Ok?
    ensures forall i :: 0 < i < |res.value.clock| ==> res.value.clock[i - 1] <= res.value.clock[i]
  {
    forall i | 0 < i < |res.value.clock| ensures res.value.clock[i - 1] <= res.value.clock[i] {
      ClockStepNonNegative(p0, draws, T, nt, res, i - 1);
    }
  }

  lemma ClockStepNonNegative(p0: Snapshot, draws: nat -> real, T: real, nt: nat, res: Result<Trajectory>, i: nat)
    requires nt >= 1 && WaitsNonNegative(p0) && forall k :: draws(k) >= 0.0
    requires Reports(p0, Stepper(draws), T, nt, res) && res.Ok?
    requires i + 1 < |res.value.clock|
    ensures res.value.clock[i] <= res.value.clock[i + 1]
  {
    RecordedSteps(p0, Stepper(draws), T, nt, res, i);
    SampleWaitsNonNegative(p0, draws, i);
    var s := Walk(p0, Stepper(draws), i).snap;
    assert Stepper(draws)(s, i + 1) == Step(s, draws(i + 1));
    StepKeepsWaitsNonNegative(s, draws(i + 1));
  }

  lemma SampleWaitsNonNegative(p0: Snapshot, draws: nat -> real, n: nat)
    requires WaitsNonNegative(p0) && forall k :: draws(k) >= 0.0
    ensures WaitsNonNegative(Walk(p0, Stepper(draws), n).snap)
  {
    var step := Stepper(draws);
    forall s, k | WaitsNonNegative(s) && step(s, k).Moved? ensures WaitsNonNegative(step(s, k).next) {
      StepKeepsWaitsNonNegative(s, draws(k));
    }
    WalkPreserves(p0, step, WaitsNonNegative, n);
  }

  lemma RotateKeepsConservation(w: State, evs: seq<Event>, m: nat, delta: real, draw: real)
    requires m < |evs| && Conserves(w, evs)
    ensures Conserves(w, Rotate(evs, m, delta, draw))
  {
    var r := Rotate(evs, m, delta, draw);
    forall i | 0 <= i < |r| ensures SameShape(w, r[i].stoich) && Weighted(w, r[i].stoich) == 0.0 {
      if i < m {
        assert r[i].stoich == evs[i].stoich;
      } else if i < |evs| - 1 {
        assert r[i].stoich == evs[i + 1].stoich;
      }
    }
  }

  /** A pass adds one conserving stoichiometry, so it keeps the weighted total. */
  lemma StepKeepsBalance(w: State, c: real, s: Snapshot, draw: real)
    requires Balanced(w, c, s.state, s.events) && Step(s, draw).Moved?
    ensures Balanced(w, c, Step(s, draw).next.state, Step(s, draw).next.events)
  {
    var m := FirstMinWait(s.events);
    JumpKeepsBalance(w, c, s.state, s.events, m);
    RotateKeepsConservation(w, s.events, m, s.events[m].wait, draw);
  }

  /** A jump adds the fired event's stoichiometry and nothing else, so a conservation
      law of the events holds along the whole returned path. */
  lemma RecordedConservation(w: State, p0: Snapshot, draws: nat -> real, T: real, nt: nat, res: Result<Trajectory>)
    requires nt >= 1 && SameShape(w, p0.state) && Conserves(w, p0.events)
    requires Reports(p0, Stepper(draws), T, nt, res) && res.Ok?
    ensures forall i :: 0 <= i < |res.value.path| ==>
      SameShape(w, res.value.path[i]) && Weighted(w, res.value.path[i]) == Weighted(w, p0.state)
  {
    var step := Stepper(draws);
    var c := Weighted(w, p0.state);
    var inv := (s: Snapshot) => Balanced(w, c, s.state, s.events);
    forall s, k | inv(s) && step(s, k).Moved? ensures inv(step(s, k).next) {
      StepKeepsBalance(w, c, s, draws(k));
    }
    forall i | 0 <= i < |res.value.path|
      ensures SameShape(w, res.value.path[i]) && Weighted(w, res.value.path[i]) == c
    {
      WalkPreserves(p0, step, inv, i);
    }
  }
}
