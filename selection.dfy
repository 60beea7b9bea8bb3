/** `find_reaction`: inverse-CDF selection of the next event to fire. The events
    are walked in list order while their rates are summed; the first event whose
    running share of the aggregate rate exceeds the uniform draw is chosen. */
module Selection {
  import opened Network

  /** What `find_reaction` does: returns the event at `index`, falls off the end
      of the list (returns None), or divides by a zero aggregate rate. */
  datatype Choice = Chosen(index: nat) | FellThrough | ZeroAggregate

  /** Event j passes the test `r < s/agg_rate` with s its running rate sum. */
  predicate Hit(evs: seq<Event>, agg: real, r: real, j: nat)
    requires agg != 0.0 && j < |evs|
  {
    r < Mass(evs, j + 1) / agg
  }

  /** The first event at or after position i that passes the test. */
  function SelectFrom(evs: seq<Event>, agg: real, r: real, i: nat): (c: Choice)
    requires agg != 0.0 && i <= |evs|
    decreases |evs| - i
    ensures !c.ZeroAggregate?
    ensures c.Chosen? ==>
      i <= c.index < |evs| && Hit(evs, agg, r, c.index) &&
      forall j :: i <= j < c.index ==> !Hit(evs, agg, r, j)
    ensures c.FellThrough? <==> forall j :: i <= j < |evs| ==> !Hit(evs, agg, r, j)
  {
    if i == |evs| then FellThrough
    else if Hit(evs, agg, r, i) then Chosen(i)
    else SelectFrom(evs, agg, r, i + 1)
  }

  /** The event `find_reaction(events, agg_rate, r)` returns. */
  function Select(evs: seq<Event>, agg: real, r: real): (c: Choice)
    ensures c.ZeroAggregate? <==> evs != [] && agg == 0.0
    ensures c.Chosen? ==>
      agg != 0.0 && c.index < |evs| && Hit(evs, agg, r, c.index) &&
      forall j :: 0 <= j < c.index ==> !Hit(evs, agg, r, j)
    ensures c.FellThrough? <==>
      evs == [] || (agg != 0.0 && forall j :: 0 <= j < |evs| ==> !Hit(evs, agg, r, j))
  {
    if evs == [] then FellThrough
    else if agg == 0.0 then ZeroAggregate
    else SelectFrom(evs, agg, r, 0)
  }

  /** The loop of `find_reaction`: accumulate `s`, return at the first share above `r`. */
  method FindReaction(events: seq<Event>, agg: real, r: real) returns (c: Choice)
    ensures c == Select(events, agg, r)
  {
    var s := 0.0;
    var i := 0;
    while i < |events|
      invariant 0 <= i <= |events|
      invariant s == Mass(events, i)
      invariant i > 0 ==> agg != 0.0 && SelectFrom(events, agg, r, i) == SelectFrom(events, agg, r, 0)
    {
      s := s + events[i].rate;
      if agg == 0.0 {
        return ZeroAggregate;
      }
      if r < s / agg {
        return Chosen(i);
      }
      i := i + 1;
    }
    return FellThrough;
  }

  lemma WholeShare(a: real)
    requires a > 0.0
    ensures a / a == 1.0
  {
  }

  /** Inverse-CDF selection: with a positive aggregate rate and a draw r >= 0, event m
      is chosen exactly when r falls in its slice [s_m/agg, s_(m+1)/agg) of the running
      shares, a slice as wide as rate_m/agg. */
  lemma SelectInterval(evs: seq<Event>, agg: real, r: real, m: nat)
    requires agg > 0.0 && r >= 0.0 && m < |evs|
    ensures Select(evs, agg, r) == Chosen(m) <==> Mass(evs, m) / agg <= r < Mass(evs, m + 1) / agg
  {
    var c := Select(evs, agg, r);
    if c == Chosen(m) && m > 0 {
      assert !Hit(evs, agg, r, m - 1);
    }
    if Mass(evs, m) / agg <= r < Mass(evs, m + 1) / agg {
      forall j | 0 <= j < m ensures !Hit(evs, agg, r, j) {
        MassMonotone(evs, j + 1, m);
        DivideOrder(Mass(evs, j + 1), Mass(evs, m), agg);
      }
      assert Hit(evs, agg, r, m);
    }
  }

  /** With agg_rate the sum of the rates and positive, and a draw r >= 0, an event is
      returned exactly when r < 1 (the final share is 1); otherwise the search falls
      through. */
  lemma SelectTotal(evs: seq<Event>, agg: real, r: real)
    requires agg == Aggregate(evs) > 0.0 && r >= 0.0
    ensures Select(evs, agg, r).Chosen? <==> r < 1.0
    ensures !Select(evs, agg, r).ZeroAggregate?
  {
    assert evs != [];
    assert Mass(evs, |evs|) == agg;
    WholeShare(agg);
    if r < 1.0 {
      assert Hit(evs, agg, r, |evs| - 1);
    } else {
      forall j | 0 <= j < |evs| ensures !Hit(evs, agg, r, j) {
        MassMonotone(evs, j + 1, |evs|);
        DivideOrder(Mass(evs, j + 1), agg, agg);
      }
    }
  }

  /** An event with zero propensity is never selected by a draw r >= 0. */
  lemma SelectPositiveRate(evs: seq<Event>, agg: real, r: real)
    requires agg > 0.0 && r >= 0.0
    requires Select(evs, agg, r).Chosen?
    ensures evs[Select(evs, agg, r).index].rate > 0.0
  {
    var m := Select(evs, agg, r).index;
    SelectInterval(evs, agg, r, m);
    if Mass(evs, m + 1) <= Mass(evs, m) {
      DivideOrder(Mass(evs, m + 1), Mass(evs, m), agg);
    }
  }
}
