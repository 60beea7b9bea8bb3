# Stochastic simulation drivers of crn_mc, in Dafny

crn_mc simulates chemical reaction networks whose species live in the voxels of
a mesh. The state is a matrix of species counts (species × voxel). Each reaction
channel is an *event* with:

- a stoichiometry matrix;
- a propensity (`rate`), recomputed from the state by `update_rate`;
- for the next-reaction method, an absolute waiting time, set by `fire` and
  `no_fire`.

The drivers in `crn_mc/simulation/paths.py` each turn a model and a horizon `T`
into a trajectory: a `path` of states and a `clock` of times.

- `find_reaction` (`Selection`): inverse-CDF choice of the event whose share of
  the aggregate rate holds a uniform draw.
- `next_reaction` (`NextReaction`): the next-reaction method. The event with the
  least waiting time fires. The clock moves on by that wait. The event list is
  rotated so the fired event goes last. The run stops on a negative count.
- `gillespie` (`Direct`): the direct method. An exponential waiting time is drawn
  at the aggregate rate, an event is chosen by `find_reaction`, and every rate is
  refreshed.
- `gillespie_hybrid` (`Hybrid`): slow events are simulated stochastically and
  fast events by the reaction-rate equations, with a step bound `h2`.
- `chv` (`ChangeOfVariables`): the change-of-variables method. An augmented
  system is integrated over a unit exponential draw. A slow event fires with
  probability `agg/(agg + sample_rate)`. A final integration lands exactly on `T`.
- `strang_split` (`Splitting`): Strang splitting on the grid `arange(0, T, h0)`.
  Each grid step is a Gillespie half step, an integration over `h0`, and a second
  half step. The state after grid step i is stored at `path[i]` under
  `clock[i] = i·h0`, so each stored state is stamped `h0` before the time it
  holds, and the initial state is never stored (`path[0]` is overwritten).
- `tau_leaping` (`Leaping`): a placeholder that returns nothing.

`chv` takes the rule its jump picks the slow event by as a parameter `rule`:
`AsWritten` hands `find_reaction` the draw r itself, as the source does;
`Rescaling` first maps r from the jump range onto (0, 1), as the method intends
(see "## Findings").

## How the model is organised

- `Network` holds the data:
  - the state (`seq<seq<real>>`);
  - `Event` (stoichiometry, rate, waiting time and rate law);
  - the event operations `UpdateRate`, `Fire`, `NoFire` and `Refresh`;
  - the running rate sums;
  - conservation laws.
- `Driver.Model` is the model object. Its fields are the state, the event list,
  and the fast and slow event lists. Every driver updates it in place.
- `Driver.Run` is the `while (k<Nt) and (clock[k-1]<T)` loop shared by
  `next_reaction`, `gillespie` and `gillespie_hybrid` (and by the loop inside
  `chv`). It is written once and parameterised by the body of one pass:
  - a *step* is a function from the model's contents and the pass number to an
    `Outcome`;
  - the step either moves (new contents and clock increment), halts (the `break`
    of `next_reaction`) or raises an error.
- `Run` is proved against the specification functions `Walk`, `Exit`, `Cut`,
  `Reports` and `Final`. They describe, for every input, which slices the
  source returns and what it leaves in the model.
- Each algorithm's module gives its step as a pure function and proves the
  properties of that step. Lemmas lift those properties to the whole returned
  trajectory.
- Randomness is a parameter:
  - `expo(rate, k)` is the `exponential0(rate)` draw of pass `k`;
  - `uniform(k)` is the `np.random.rand()` draw of pass `k`;
  - in `Splitting` both are indexed instead by the draw count `j`, which runs
    across every half step of the run: `expo(agg, j)` and `uniform(j)` are the
    j-th draws of the whole run;
  - `draws(k)` is the waiting time `fire` draws.
- ODE integration is a parameter:
  - `flow(x, t)` is the reaction-rate equations (`rre_f`) integrated from `x`
    over a span `t`;
  - `chvFlow(x, agg, s)` is the augmented system (`chv_f`) integrated over
    `[0, s]` with the slow aggregate rate held at `agg`; it returns the new state
    and the elapsed physical time. `chv_f` refreshes only the fast rates, so the
    aggregate passed is that of the slow rates as the pass finds them: refreshed
    at the previous pass's integrated state, before its jump, and the caller's
    rates on the first pass.
- Errors the source raises become a `Fault`:
  - `NoEvents`: `min` of an empty list;
  - `NoEventSelected`: `find_reaction` returned `None` and its coefficients were
    read;
  - `DivisionByZero`;
  - `DrawsExhausted`: raised only by the model, when a `strang_split` run has
    used its draw budget (see "## Left out"); the source has no such error;
  - `EmptyBuffer`: `path[0]` of an empty grid.

## Model

| member | source | states |
|---|---|---|
| Network.Plus | crn_mc/simulation/paths.py:26 | the state after a jump has the shape of the state before it; with equal shapes it is the entrywise sum (Network.PlusAt) |
| Network.NonNegative | crn_mc/simulation/paths.py:34 | a state with no negative copy number, the negation of the test `len(state[state<0]) > 0` |
| Network.Aggregate | crn_mc/simulation/paths.py:50 | the aggregate rate, the sum of the rates of a list, as at lines 50, 123, 157, 184 and 214; it is non-negative |
| Network.PlusAt | crn_mc/simulation/paths.py:26 | adding a stoichiometry to a state of the same shape adds entrywise and keeps the shape |
| Network.UpdateRate | crn_mc/simulation/paths.py:46-47 | `update_rate` sets the rate to the event's rate law at the current state; stoichiometry, waiting time and law unchanged |
| Network.Fire | crn_mc/simulation/paths.py:29 | `fire` gives the fired event its new waiting time and changes nothing else |
| Network.NoFire | crn_mc/simulation/paths.py:31-32 | `no_fire` runs the waiting time down by the elapsed time and changes nothing else |
| Network.Refresh | crn_mc/simulation/paths.py:62-63 | refreshing every event keeps the list's length and order and updates each rate at the state |
| Network.Mass | crn_mc/simulation/paths.py:251-253 | running rate sums are non-negative |
| Network.MassMonotone | crn_mc/simulation/paths.py:251-253 | running rate sums never decrease along the list |
| Network.WeightedPlus | crn_mc/simulation/paths.py:26 | a linear functional of the state is additive over a jump |
| Network.JumpKeepsBalance | crn_mc/simulation/paths.py:26 | if every event's stoichiometry leaves a conservation law unchanged, a jump by any event keeps its value |
| Network.Settle | crn_mc/simulation/paths.py:241-245 | after a state change the fast and slow lists are each refreshed at the new state, so every fast and slow rate is fresh; the full event list is kept |
| Network.ZeroLike | crn_mc/simulation/paths.py:97 | the zero state of the buffer row has the state's shape and all entries 0 |
| Selection.SelectFrom | crn_mc/simulation/paths.py:252-255 | the scan from position i returns the first event at or after i whose running share exceeds r, and falls through exactly when none does |
| Selection.Select | crn_mc/simulation/paths.py:250-255 | `find_reaction` returns the first event in list order whose running share exceeds r, with every earlier one failing; it falls through exactly when none does; it divides by zero exactly when the list is non-empty and agg is 0 |
| Selection.FindReaction | crn_mc/simulation/paths.py:250-255 | the accumulation loop computes exactly that choice |
| Selection.SelectInterval | crn_mc/simulation/paths.py:250-255 | with agg > 0 and r >= 0, event m is chosen if and only if r lies in its slice [s_m/agg, s_(m+1)/agg) |
| Selection.SelectTotal | crn_mc/simulation/paths.py:250-255 | when agg equals the sum of the rates and is positive, the choice succeeds if and only if r < 1 |
| Selection.SelectPositiveRate | crn_mc/simulation/paths.py:250-255 | with agg > 0 and r >= 0, the chosen event has a positive rate |
| Driver.Exit | crn_mc/simulation/paths.py:17 | the pass at which the loop leaves is at or after the current one and never beyond Nt |
| Driver.Run | crn_mc/simulation/paths.py:15-39 | the buffered loop returns `path[0:k-1], clock[0:k-1]` or the error a pass raised, exactly as `Reports` describes, and ends with the contents `Final` describes |
| Driver.Simulate | crn_mc/simulation/paths.py:12-39 | the same, with the model object updated in place to its final contents |
| Driver.ExitContinues | crn_mc/simulation/paths.py:17 | every pass before the exit was inside the horizon and the pass budget and moved |
| Driver.RecordedBeforeHorizon | crn_mc/simulation/paths.py:15-17 | a returned trajectory has fewer than Nt entries, starts with the initial state at time 0, and has every time below T |
| Driver.RecordedSteps | crn_mc/simulation/paths.py:25-37 | consecutive returned entries are one moving pass apart: next state, and clock plus that pass's increment |
| Driver.WalkPreserves | crn_mc/simulation/paths.py:17-38 | an invariant that every moving pass keeps holds at every sample |
| NextReaction.Step | crn_mc/simulation/paths.py:18-36 | one pass: `min` over an empty list raises; otherwise the least-wait event jumps the state, the list is rotated, and the pass halts on a negative entry (properties in NextReaction.StepFiresLeastWait) |
| NextReaction.FirstMinWait | crn_mc/simulation/paths.py:18-20 | the index of the first event, in list order, with the least waiting time, as Python's `min` picks it |
| NextReaction.Rotate | crn_mc/simulation/paths.py:29-33 | the fired event moves to the end with `fire` applied; every other event keeps its relative order with `no_fire` applied once |
| NextReaction.NextReactionMethod | crn_mc/simulation/paths.py:12-39 | `next_reaction` returns and leaves in the model what the shared loop specifies for its step |
| NextReaction.StepFiresLeastWait | crn_mc/simulation/paths.py:18-36 | a pass raises exactly on an empty event list. Otherwise it fires the event with the least wait; the clock advances by that wait; the state gains that event's stoichiometry; the event is re-appended with the new draw. The pass moves if and only if the new state has no negative entry |
| NextReaction.RotateKeepsEvents | crn_mc/simulation/paths.py:30-33 | the rotation is a permutation of the events (stoichiometry and rate) |
| NextReaction.RotateKeepsWaitsNonNegative | crn_mc/simulation/paths.py:29-33 | rotating after the least wait keeps every waiting time non-negative when the new draw is |
| NextReaction.StepKeepsWaitsNonNegative | crn_mc/simulation/paths.py:21-33 | a moving pass with non-negative waits advances by a non-negative time and keeps the waits non-negative |
| NextReaction.SampleWaitsNonNegative | crn_mc/simulation/paths.py:17-38 | non-negative waits hold at every sample of the run |
| NextReaction.ClockNondecreasing | crn_mc/simulation/paths.py:25 | with non-negative waits and draws, the returned clock never decreases |
| NextReaction.RecordedNonNegative | crn_mc/simulation/paths.py:34-37 | starting from a non-negative state, no stored state has a negative entry |
| NextReaction.RotateKeepsConservation | crn_mc/simulation/paths.py:29-33 | a conservation law of the events is still one after the rotation |
| NextReaction.StepKeepsBalance | crn_mc/simulation/paths.py:26-33 | a moving pass keeps the value of a conservation law |
| NextReaction.RecordedConservation | crn_mc/simulation/paths.py:26-37 | a conservation law of the events holds along the whole returned path |
| Direct.Step | crn_mc/simulation/paths.py:50-63 | one pass: draw at the aggregate rate, `find_reaction`, jump, refresh every rate (properties in Direct.StepRaises and Direct.StepFiresByShare) |
| Direct.Start | crn_mc/simulation/paths.py:46-47 | the initial refresh leaves the state and lists alone and makes every rate fresh |
| Direct.Gillespie | crn_mc/simulation/paths.py:41-66 | `gillespie` refreshes the rates, then returns and leaves what the shared loop specifies for its step |
| Direct.StepRaises | crn_mc/simulation/paths.py:50-55 | with r in [0, 1), a pass raises exactly when the aggregate rate is 0: `None` for an empty list, a division by zero otherwise |
| Direct.StepFiresByShare | crn_mc/simulation/paths.py:50-63 | a moving pass fires the event whose share slice holds r and adds its stoichiometry; the clock advances by the exponential draw at the aggregate rate; the lists are kept and the rates are fresh |
| Direct.StepKeepsBalance | crn_mc/simulation/paths.py:58 | a pass keeps the value of a conservation law |
| Direct.RecordedConservation | crn_mc/simulation/paths.py:58-59 | a conservation law of the events holds along the whole returned path |
| Direct.ClockAdvancesByDraw | crn_mc/simulation/paths.py:50-57 | each returned time is the previous one plus the exponential draw at the previous aggregate rate |
| Direct.SampleRatesFresh | crn_mc/simulation/paths.py:62-63 | every rate is fresh at every sample |
| Hybrid.Step | crn_mc/simulation/paths.py:214-245 | one pass: jump then integrate over delta when delta < h2, integrate over h2 otherwise, then refresh the fast and slow rates (properties in Hybrid.StepJumps, Hybrid.StepIntegrates and Hybrid.StepRaises) |
| Hybrid.GillespieHybrid | crn_mc/simulation/paths.py:205-248 | `gillespie_hybrid` returns and leaves what the shared loop specifies for its step |
| Hybrid.StepJumps | crn_mc/simulation/paths.py:216-231 | when delta < h2, exactly one slow event, the one whose share slice holds r, fires. The equations then run from the jumped state for delta, and the clock advances by delta |
| Hybrid.StepIntegrates | crn_mc/simulation/paths.py:233-245 | when delta >= h2, no stoichiometry is added. The equations run over h2, the clock advances by exactly h2, and the pass never raises |
| Hybrid.StepRaises | crn_mc/simulation/paths.py:214-219 | with r in [0, 1), a pass raises exactly when delta < h2 and the slow aggregate is 0; it never halts |
| Hybrid.ClockIncrementsBounded | crn_mc/simulation/paths.py:223-237 | every returned clock increment is the waiting time or h2, and at most h2 |
| ChangeOfVariables.JumpAsWritten | crn_mc/simulation/paths.py:125 | the slow event `find_reaction` picks from the draw r itself, as the loop is written |
| ChangeOfVariables.Pick | crn_mc/simulation/paths.py:125 | the slow event a jump picks under either rule |
| ChangeOfVariables.Decide | crn_mc/simulation/paths.py:122-127 | the slow update: no jump when r <= p0, otherwise the picked slow event's stoichiometry is added (properties in ChangeOfVariables.DecideNeverRaises, ChangeOfVariables.DecideJumps and ChangeOfVariables.DecideJumpsAsWritten) |
| ChangeOfVariables.Step | crn_mc/simulation/paths.py:104-129 | one pass: integrate the augmented system with the slow aggregate the pass starts with, refresh every rate, then the slow update (properties in ChangeOfVariables.StepIntegrates) |
| ChangeOfVariables.LastRow | crn_mc/simulation/paths.py:134 | the row `path[-1]` read when the loop never ran: the initial state when Nt = 1, a row of zeros of the state's shape otherwise |
| ChangeOfVariables.Chv | crn_mc/simulation/paths.py:93-141 | `chv`, under either jump rule, returns the loop's entries followed by the final integration to T from the entry before, or from `path[-1]` when the loop never ran, or the error a pass raised; it leaves the final state in the model |
| ChangeOfVariables.CompleteMeets | crn_mc/simulation/paths.py:131-141 | appending the final integration to the loop's report yields that return |
| ChangeOfVariables.CompletesAtHorizon | crn_mc/simulation/paths.py:104-141 | with T > 0 and Nt >= 2 the trajectory has 2 to Nt entries. It starts at the initial state at time 0 and ends exactly at T; every earlier time is below T |
| ChangeOfVariables.CompletesOneRow | crn_mc/simulation/paths.py:104-141 | with Nt = 1 the loop never runs and the result is the initial state integrated over T, stamped T |
| ChangeOfVariables.CompletesEmptyHorizon | crn_mc/simulation/paths.py:131-141 | with T <= 0 the loop never runs and the result is the buffer row `path[-1]` (`LastRow`) integrated over T, stamped T |
| ChangeOfVariables.RescaledOrder | crn_mc/simulation/paths.py:122-125 | the rescaled draw falls on the same side of s/agg as r does of (sample + s)/(agg + sample) |
| ChangeOfVariables.JumpShares | crn_mc/simulation/paths.py:122-127 | the corrected jump fires event m if and only if r lies in a slice of the jump range as wide as rate_m/(agg + sample) |
| ChangeOfVariables.JumpTotal | crn_mc/simulation/paths.py:122-125 | inside the jump range the corrected jump fires an event if and only if r < 1 |
| ChangeOfVariables.JumpAsWrittenSkipsFirst | crn_mc/simulation/paths.py:122-125 | as written, with two slow events of rate 1 and sample rate 2, event 0 can never fire; the corrected jump fires it |
| ChangeOfVariables.JumpRangeNeedsRate | crn_mc/simulation/paths.py:122-124 | with a positive sample rate, a draw below 1 only clears p0 when the slow aggregate is positive |
| ChangeOfVariables.DecideNeverRaises | crn_mc/simulation/paths.py:122-128 | with a positive sample rate and r in [0, 1), the slow update never raises under either rule and keeps the elapsed time and lists; at or below p0 it leaves the state alone |
| ChangeOfVariables.DecideJumpsAsWritten | crn_mc/simulation/paths.py:122-127 | as written, above p0 exactly one slow event's stoichiometry is added: the one whose plain share slice [s_m/agg, s_(m+1)/agg) holds r, so only events whose slice reaches above p0 can fire |
| ChangeOfVariables.DecideJumps | crn_mc/simulation/paths.py:122-127 | with the corrected rule, above p0 exactly one slow event's stoichiometry is added: the one whose slice of the jump range holds r |
| ChangeOfVariables.StepIntegrates | crn_mc/simulation/paths.py:104-128 | a pass integrates the augmented system for the unit exponential draw with the slow aggregate it starts with, refreshes every rate, and advances the clock by the elapsed time it reports |
| Splitting.Ticks | crn_mc/simulation/paths.py:145 | the length of `np.arange(0, T, h0)`: the ceiling of T/h0 when that is positive, 0 otherwise (properties in Splitting.TicksCoverHorizon) |
| Splitting.Arange | crn_mc/simulation/paths.py:145 | the grid has Ticks entries, the i-th being i·h0 |
| Splitting.TicksCoverHorizon | crn_mc/simulation/paths.py:145 | with h0 > 0 the grid is empty if and only if T <= 0; every grid time is below T and the grid reaches T |
| Splitting.HalfDraw | crn_mc/simulation/paths.py:157-170 | one draw of a half step: fire the picked slow event and refresh every rate when delta < h0/2, discard the draw otherwise (properties in Splitting.HalfDrawFires, Splitting.HalfDrawRaises and Splitting.RedrawChangesNothing) |
| Splitting.Sweeping | crn_mc/simulation/paths.py:156-170 | the half-step loop `while tY < end`, with the draw budget described under "## Left out" (properties in Splitting.SweepOvershoot) |
| Splitting.HalfStepLoop | crn_mc/simulation/paths.py:156-170 | the half-step loop computes `Sweeping` |
| Splitting.RedrawChangesNothing | crn_mc/simulation/paths.py:156-159 | a draw is discarded if and only if delta >= h0/2, and then neither tY nor the contents change; the loop draws again |
| Splitting.HalfDrawFires | crn_mc/simulation/paths.py:157-170 | a draw below h0/2 with a positive aggregate fires the slow event whose share slice holds r; it adds that event's stoichiometry, refreshes every rate and moves tY on by delta < h0/2 |
| Splitting.HalfDrawRaises | crn_mc/simulation/paths.py:157-164 | a draw below h0/2 with a zero slow aggregate raises |
| Splitting.DrawerBounded | crn_mc/simulation/paths.py:159-160 | every fired draw moves tY on by less than h0/2 |
| Splitting.SweepOvershoot | crn_mc/simulation/paths.py:156-160 | a half step that ends stops at or after its end, and less than the largest advance past it |
| Splitting.Block | crn_mc/simulation/paths.py:154-199 | one grid step: half step, integration over h0 with every rate refreshed, half step from t + h0/2 |
| Splitting.Blocks | crn_mc/simulation/paths.py:153-202 | the first n grid steps, storing one state per step and stopping at the first error (properties in Splitting.BlocksStoreOnePerTick and Splitting.AbortedStays) |
| Splitting.SplitReports | crn_mc/simulation/paths.py:144-203 | what `strang_split` returns and leaves: h0 = 0 divides by zero, an empty grid fails at `path[0]`, otherwise the grid steps' states with the grid (properties in Splitting.SplitOnePerTick) |
| Splitting.GridStep | crn_mc/simulation/paths.py:154-199 | one grid step: half step, integration over h0 with refreshed rates, half step from t + h0/2 |
| Splitting.Grid | crn_mc/simulation/paths.py:153-202 | the loop over the grid computes `Blocks`, storing one state per grid step |
| Splitting.AbortedStays | crn_mc/simulation/paths.py:153-202 | once a grid step raises, later grid steps are never run |
| Splitting.BlocksStoreOnePerTick | crn_mc/simulation/paths.py:202 | one state is stored per completed grid step |
| Splitting.BlocksStoreAppends | crn_mc/simulation/paths.py:202 | a grid step that does not raise keeps the states stored before it and appends the state it ends in |
| Splitting.BlocksStoreStepEnd | crn_mc/simulation/paths.py:153-202 | path[i] is the state grid step i ends in, the step run from time i·h0 over h0; it is stamped i·h0, h0 before the time it holds, and the initial state is not stored |
| Splitting.StrangSplit | crn_mc/simulation/paths.py:144-203 | `strang_split` returns the grid and one state per grid time, or the error raised; h0 = 0 and an empty grid are errors |
| Splitting.SplitOnePerTick | crn_mc/simulation/paths.py:145-146 | a returned trajectory has exactly one state per entry of `arange(0, T, h0)`, the i-th time being i·h0, all below T when h0 > 0 |
| Leaping.TauLeaping | crn_mc/simulation/paths.py:259-260 | `tau_leaping` returns no trajectory and leaves the model alone |

## Left out

- Numerical integration is not modelled. This covers `scipy.integrate.ode`, the integrator method and its tolerances (`h`, `h1`), and the vector fields `rre_f` and `chv_f`. The drivers receive the integrated flow as the parameters `flow` and `chvFlow`, so the model has no link between `flow` and the reaction-rate equations.
- `rre_f` and `chv_f` also overwrite `m.system_state` and the fast rates while the integrator calls them. For the integrations inside a loop pass the model takes the integrated state and then refreshes every rate, as the drivers do right after each of them (paths.py's `update_rate` calls that follow `integrate`).
- Random variates are inputs, and their distributions are not modelled. `exponential0` becomes `expo`, `np.random.rand` becomes `uniform`, and the new waiting time `fire` draws becomes `draws`.
- The event and model classes of `crn_mc.model` and `crn_mc.mesh` are not part of this model. `update_rate` is a rate law stored in the event. `fire(delta)` sets the waiting time to a fresh draw. `no_fire(delta)` subtracts delta. The mesh appears only through the shape of the state.
- `Nt` is a parameter `nt >= 1`; the source has it as a module-level constant of 500000.
- The preallocated `path` and `clock` buffers are sequences that grow by one entry per pass, and the driver returns the same slices. `chv` reads the buffer row `-1` when its loop never runs; the model passes that row in as `LastRow`: row 0, the initial state, when Nt = 1, and a row of zeros otherwise.
- The model's contents are worked on in a local value and written back to the object once per driver. No other code observes the object during a run, so only the final contents are stated.
- `events_fast`, `events_slow` and `events` are independent lists in the model. In the source the fast and slow lists may share event objects with `events`; the model does not capture that aliasing.
- `print` diagnostics are not modelled. This includes the warning before `next_reaction` breaks and the commented-out ones.
- Network.Plus: a stoichiometry whose shape differs from the state's is padded with zeros or cut to the state's shape, where numpy would broadcast it or raise. The lemmas about jumps assume equal shapes (`SameShape`), as every network the drivers are given has.
- The fast events' rate laws and stoichiometries never change during a run, so `flow` and `chvFlow` hold them implicitly rather than reading them from the model.
- Floating point is not modelled. Rates, times and states are exact reals, so rounding at the share tests and at `arange`'s end point is not captured.
- When the rate sum is 0, `find_reaction`'s division is modelled as raising `DivisionByZero`. With numpy scalars it would produce `nan` instead and fall through to `None`; both end the run with an error.
- Splitting.Sweeping: the source redraws without bound while every waiting time is at least h0/2. The model caps the draws of a run at `budget` and raises `DrawsExhausted` past it, so a run that would never end in the source is not modelled.
- ChangeOfVariables.Chv: after the final integration to T the model's fast rates are those left by the last loop pass, refreshed at that pass's integrated state, while the source's are whatever `rre_f` last set at an integrator point; no `update_rate` follows that integration in the source.
- The model assumes `exponential0` returns a value at every rate, 0 included (paths.py:51, 158, 215): `expo` is a total function, so the faults the model raises when the rate sum is 0 are those of the code after the draw.
- ChangeOfVariables.Chv: a zero denominator `agg_rate + sample_rate` is modelled as raising `DivisionByZero`.
- ChangeOfVariables.Chv: the jump rule is a parameter, so `Chv` with `AsWritten` is the source as written and with `Rescaling` the corrected method described under Findings.
- `tau_leaping` is modelled only as the placeholder it is.

## Findings

| source | as written | input that shows it | evidently intended | confidence | as-written member | corrected member |
|---|---|---|---|---|---|---|
| crn_mc/simulation/paths.py:122-125 | once `r > sample_rate/(agg_rate+sample_rate)` holds, `find_reaction` is handed `r` itself, so every slow event whose share slice lies below p0 = sample_rate/(agg_rate+sample_rate) can never fire | two slow events of rate 1, sample_rate 2: p0 = 1/2 and event 0's slice is [0, 1/2), so event 0 never fires | `find_reaction` on r rescaled from (p0, 1) onto (0, 1), so slow event m fires with probability rate_m/(agg_rate+sample_rate) | not executed | ChangeOfVariables.JumpAsWrittenSkipsFirst | ChangeOfVariables.JumpShares |
