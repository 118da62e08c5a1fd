# W7-X adaptive turbulence control: a verified model of the simulation step

The W7-X simulator follows the radial profile of an impurity density
`n_Z(r)` in a stellarator plasma over a normalised radius `r ∈ [0, 1]`. The
electron density and temperature profiles stay fixed. An adaptive controller
watches the impurity density on the axis. When it accumulates, the plasma is
switched from `Normal` confinement into a `TurbulencePulse`, which raises the
turbulent diffusivity near the edge. The pulse ends once it has run for its
set duration. The final version also waits for a cooldown before it allows
another pulse.

This project models the `StellaratorState` simulation object of both the
final version (`code/v2-final/main.rs`) and the earlier stable version
(`code/v1-stalbe/main.rs`). It is one parametrised model. `Config.V2()` holds
the constants of the final version and has a cooldown. `Config.V1()` holds
the constants of the earlier one, which has no cooldown and a CFL warning.

The model is split into modules:

- `Grid`:
  - the uniform grid `r_i = i/(nr-1)`;
  - the three initial profiles `n_e = 8e19(1-r²)`, `T_e = 8(1-r²)` and `n_Z = 1e18(0.2+0.8r²)`.
- `Closure`, the pure coefficient functions:
  - the gradient scale lengths, floored at 1e-10, and `η = L_n/L_T` clamped to [0.1, 10];
  - the turbulent diffusivity `calculate_turbulence_level`;
  - the particle flux `calculate_flux`.
- `Transport`, one explicit step of the continuity equation:
  - the cylindrical or flat divergence, the edge source, and the clamp to [0, 1e20];
  - the boundary rules `n[0] = n[1]` and `n[nr-1] = 0.3·n[nr-2]`.

  The step is specified by the function `NextField` on sequences. It is implemented by the array method `Advance`, which builds a new array and fills it in a loop, as the source does.
- `Control`:
  - the accumulation detector `detect_impurity_accumulation`;
  - the `Normal`/`TurbulencePulse` state machine `Step`, together with the cooldown gate;
  - lemmas about single steps and about whole runs of steps.
- `Simulator`: the class `StellaratorState`. It has the fields of the source struct, the constructor `new` and `initialize_profiles`, and `Update`. `Update` runs the controller, then the transport step, then the four history appends, then the clock advance.

All numbers are `real`. The model uses exact arithmetic, not IEEE doubles.
A few IEEE corner cases that the code can reach are written out explicitly:

- A zero time difference in the growth-rate test gives +inf, -inf or NaN.
- `L_T = 0` in `η` gives +inf, which `min(10)` turns into 10. `0/0` gives NaN, which `max(0.1)` replaces by 0.1.

Two behaviours of the code are worth noting:

- **Grid size.** `new` accepts any `nr ≥ 2`. For `nr = 2` the transport loop is empty. The axis rule `n[0] == n[1]` then fails unless the old outer value was zero (`Transport.TwoNodesBreakAxisCondition`). For `nr ≥ 3` the rule always holds.
- **Node 1 on the driver's grid.** The driver uses `nr = 101`. There node 1 lies exactly on `r = 0.01`, which is the threshold between the cylindrical and the flat divergence. With exact arithmetic it takes the flat branch (`Transport.DriverAxisCellIsFlat`). With doubles the branch depends on rounding.

## Model

| member | source | states |
|---|---|---|
| Config.V2 | code/v2-final/main.rs:53-80 | the final version's constants: a 0.5 s cooldown, the 100-entry lookback, and no CFL check |
| Config.V1 | code/v1-stalbe/main.rs:31-56 | the earlier version's constants: no cooldown, the 100-entry lookback, and the CFL check on |
| Grid.Spacing | code/v2-final/main.rs:54 | `dr = 1/(nr-1)`: positive, and `nr-1` steps of `dr` span exactly [0, 1] |
| Grid.Radius | code/v2-final/main.rs:55 | node `i` is at `i·dr`; every node lies in [0, 1]; node 0 is at 0 and node nr-1 at 1 |
| Grid.Linspace | code/v2-final/main.rs:55 | the grid has `nr` points and point `i` is `Radius(nr, i)` |
| Grid.RadiusStep | code/v2-final/main.rs:54-55 | neighbouring grid points are exactly `dr` apart |
| Grid.RadiusMonotone | code/v2-final/main.rs:55 | grid radii increase with the node index |
| Grid.InitialElectronDensity | code/v2-final/main.rs:84 | `8e19(1-r²)`: 8e19 on the axis and 0 at the wall |
| Grid.InitialElectronTemp | code/v2-final/main.rs:85 | `8(1-r²)`: 8 on the axis and 0 at the wall |
| Grid.InitialImpurityDensity | code/v2-final/main.rs:86 | `1e18(0.2+0.8r²)`: 2e17 on the axis and 1e18 at the wall |
| Grid.Sample | code/v2-final/main.rs:83-87 | a profile sampled at every grid point: same length, and entry `i` is the formula at point `i` |
| Grid.InitialProfilesMonotone | code/v2-final/main.rs:84-86 | on [0, 1] the electron profiles fall and the impurity profile rises with r, each between its two end values |
| Grid.InitialImpurityField | code/v2-final/main.rs:82-88 | the initial impurity field is 2e17 at node 0 and 1e18 at node nr-1, and is nondecreasing in between |
| Grid.DriverGrid | code/v2-final/main.rs:246 | for the driver's 101 nodes, `dr = 0.01`, node 1 is at exactly 0.01, and the profile end values hold |
| Closure.GradientLength | code/v2-final/main.rs:101-102 | `L = abs(value / max(abs(gradient), 1e-10))` is non-negative, and `L·max(abs(gradient), 1e-10) = abs(value)` |
| Closure.Clamp | code/v2-final/main.rs:103 | `x.max(lo).min(hi)` lies in [lo, hi]: it is x inside the interval, lo below it and hi above it |
| Closure.EtaOf | code/v2-final/main.rs:103 | η lies in [0.1, 10]. For `L_T > 0` it is `L_n/L_T` or the clamp bound it crosses. For `L_T = 0` it is 10 exactly when `L_n > 0` (IEEE +inf), and 0.1 when `L_n = 0` too (NaN replaced by 0.1) |
| Closure.Eta | code/v2-final/main.rs:96-103 | η at an interior node, from the centred gradients of `n_e` and `T_e`, lies in [0.1, 10] |
| Closure.TurbulenceLevel | code/v2-final/main.rs:90-123 | floor 0.05 near the axis, near the wall and at both end nodes; otherwise the base times the mode factor (notes below the table) |
| Closure.PulseNeverWeakens | code/v2-final/main.rs:105-122 | for a non-negative base diffusivity and a pulse factor ≥ 1, the diffusivity during a pulse is at least the Normal one at every node |
| Closure.Flux | code/v2-final/main.rs:125-128 | the flux is exactly 0 at node 0 and at every index ≥ nr-1 |
| Closure.DiffusionDownGradient | code/v2-final/main.rs:130-136 | with non-negative diffusivities, diffusion carries particles down the density gradient: the flux is at least the convective `v_neo·n_Z` where the density falls outward, and at most that where it rises |
| Closure.TurbulenceNonNegative | code/v2-final/main.rs:90-123 | the turbulent diffusivity is non-negative whenever the base is and the pulse factor is at least 1 |
| Closure.CentralDifferenceSign | code/v2-final/main.rs:131-132 | the centred difference has the sign of `n[i+1] − n[i-1]` |
| Closure.DiffusionOpposesGradient | code/v2-final/main.rs:136 | subtracting a non-negative diffusivity times the gradient raises the flux for a falling profile and lowers it for a rising one |
| Closure.FluxLocal | code/v2-final/main.rs:130-136 | the flux at node `i` depends only on the densities at `i-1`, `i` and `i+1` |
| Closure.FlatProfileConvects | code/v2-final/main.rs:130-136 | where the two neighbours are equal, the flux is pure convection `v_neo·n_Z[i]` |
| Control.RateExceeds | code/v2-final/main.rs:149-151 | the rate test `Δn/Δt > threshold` equals `Δn > threshold·Δt` for Δt > 0, has the inequality reversed for Δt < 0, and for Δt = 0 fires exactly when Δn > 0 (IEEE +inf) |
| Control.RateScaling | code/v2-final/main.rs:149-151 | comparing a quotient with a threshold is the same as comparing the numerator with threshold × divisor, with the direction set by the divisor's sign |
| Control.Detect | code/v2-final/main.rs:139-156 | fires on the axis threshold; with a short history only then; otherwise also on the growth-rate test over the lookback (notes below the table) |
| Control.CanPulse | code/v2-final/main.rs:163-167 | a pulse is allowed when no pulse has ended or there is no cooldown. Otherwise it is allowed exactly when more than the cooldown has elapsed since the last end |
| Control.Step | code/v2-final/main.rs:160-186 | the guarded Normal→Pulse and Pulse→Normal transitions and the state invariant (notes below the table) |
| Control.NoticeOf | code/v2-final/main.rs:170-179 | a step announces a pulse start or a pulse end, at the step's time, exactly when the mode changes |
| Control.PulseDuration | code/v2-final/main.rs:176-183 | a pulse that has run longer than its duration ends in this step and records the end time. Otherwise the state is unchanged |
| Control.CooldownBlocks | code/v2-final/main.rs:162-169 | within the cooldown after a pulse, the Normal state is unchanged whatever the detector says |
| Control.NoCooldownIgnoresLastEnd | code/v1-stalbe/main.rs:150-167 | without a cooldown, the recorded end time never affects the mode or the pulse start. So the earlier version, which has no such field, behaves the same |
| Control.RunConsistent | code/v2-final/main.rs:160-186 | along every run of steps from a consistent state, a pulse start is recorded exactly while a pulse runs |
| Control.EndRemembered | code/v2-final/main.rs:181 | with nondecreasing times, after a pulse ends at step `j`, every later state remembers an end time no earlier than `times[j]` |
| Control.CooldownBetweenPulses | code/v2-final/main.rs:160-186 | over a whole run with nondecreasing times, a pulse that starts after the pulse ending at step `j` starts more than the cooldown after `times[j]` |
| Control.RunExtends | code/v2-final/main.rs:158-186 | a run of steps followed by one more `Step` at a later update is again a run |
| Control.TimesAppend | code/v2-final/main.rs:217-219 | pushing the current time and then advancing the clock by `dt ≥ 0` keeps the time history nondecreasing and no later than the clock |
| Control.FirstTrigger | code/v2-final/main.rs:139-144 | from the initial state, an axis density above the threshold starts a pulse at once, with that time as its start |
| Transport.SourceTerm | code/v2-final/main.rs:204 | the source is the configured rate for r > 0.85 and 0 otherwise |
| Transport.FaceBalance | code/v2-final/main.rs:195-202 | the divergence times `r·dr` is `(r+dr/2)Γ_out − (r−dr/2)Γ_in` in the cylindrical branch, and times `dr` is `Γ_out − Γ_in` in the flat branch |
| Transport.FaceFluxes | code/v2-final/main.rs:192-193 | one flux per node, each the value `calculate_flux` gives at that node |
| Transport.SharedFace | code/v2-final/main.rs:195-196 | the outer face of cell k-1 is the inner face of cell k |
| Transport.CellBalance | code/v2-final/main.rs:195-199 | a cylindrical cell's radius-weighted divergence is its outer face flow minus its inner face flow |
| Transport.DivergenceTelescopes | code/v2-final/main.rs:190-202 | summed over cells `lo..k`, the radius-weighted divergences telescope to the flow through the outermost face minus the flow through the innermost one |
| Transport.InteriorOutflow | code/v2-final/main.rs:190-208 | when every interior cell uses the cylindrical form, the interior loses or gains particles only through the face at `1 − dr/2`, because the axis face carries no flux |
| Transport.InteriorValue | code/v2-final/main.rs:206-207 | an interior value is the explicit Euler value `n + (−div + source)·dt`, clamped to [0, 1e20] |
| Transport.InteriorLocal | code/v2-final/main.rs:189-207 | an interior value reads only the old field at nodes i-2..i+1, never a value written earlier in the same step |
| Transport.NextField | code/v2-final/main.rs:189-211 | the clamped Euler step at interior nodes plus the two boundary rules (notes below the table) |
| Transport.SteppedField | code/v2-final/main.rs:189-208 | after the loop, the interior nodes hold their stepped values and nodes 0 and nr-1 still hold the old ones |
| Transport.NextFieldInBounds | code/v2-final/main.rs:206-211 | for nr ≥ 3 every node of the new field lies in [0, 1e20]; for nr = 2 this holds when the old field was within bounds |
| Transport.TwoNodesBreakAxisCondition | code/v2-final/main.rs:210-211 | for nr = 2, `new[0] == new[1]` holds exactly when the old node 1 was 0 |
| Transport.DriverAxisCellIsFlat | code/v2-final/main.rs:198-202 | on the 101-node grid, node 1's divergence is the flat `Γ_1/dr`, with no flux through the axis face |
| Transport.Advance | code/v2-final/main.rs:189-213 | returns a fresh array holding `NextField` of the old contents. The old array is not written |
| Transport.StepInterior | code/v2-final/main.rs:190-208 | the `1..nr-1` loop writes the stepped value of every interior node, each computed from the unchanged old field |
| Transport.SetBoundaries | code/v2-final/main.rs:210-211 | node 0 takes node 1's value and node nr-1 takes 0.3 × node nr-2; nothing else changes |
| Simulator.MaxDiffusivity | code/v1-stalbe/main.rs:138-141 | the diffusivity the CFL check assumes: the base in Normal, and exactly 3 × the base during a pulse |
| Simulator.CflWarning | code/v1-stalbe/main.rs:143-147 | a warning is possible only with the check on and before t = 0.001 |
| Simulator.StellaratorState.constructor | code/v2-final/main.rs:53-80 | the grid, the initial profiles and the Normal state at t = 0 (notes below the table) |
| Simulator.StellaratorState.InitializeProfiles | code/v2-final/main.rs:82-88 | the loop writes the three formulas at every grid point and keeps the state valid, with the impurity field within bounds |
| Simulator.StellaratorState.Update | code/v2-final/main.rs:158-221 | the whole new state: control step, transport step, history appends, clock (notes below the table) |
| Simulator.StellaratorState.RunController | code/v2-final/main.rs:160-186 | the mode and pulse fields become `Step` of the old ones; nothing else changes (notes below the table) |
| Simulator.StellaratorState.AdvanceField | code/v2-final/main.rs:188-220 | a fresh `NextField`, one entry on each history, the clock advanced (notes below the table) |
| Simulator.StellaratorState.ReplaceField | code/v2-final/main.rs:188-213 | the field becomes a fresh array holding `NextField` of the old one, still within bounds; the control state, the clock and the histories are unchanged |
| Simulator.StellaratorState.RecordStep | code/v2-final/main.rs:215-220 | each history gains the entry the source pushes, the clock advances by `dt`, and with `dt ≥ 0` the time history stays chronological |
| Simulator.CooldownInSimulation | code/v2-final/main.rs:158-186 | on the recorded trace of a simulation object, a pulse that starts after an earlier pulse ended starts more than the cooldown later |
| Simulator.TraceConsistent | code/v2-final/main.rs:160-186 | every recorded control state of a simulation object is consistent when the first one is |

These members have longer contracts:

- **Closure.TurbulenceLevel**
  - It is 0.05 at r < 0.02 and at r > 0.98, and always at nodes 0 and nr-1. So the gradient's neighbours exist whenever they are read.
  - In Normal mode it is 0.3·base when 0.8 < η < 1.2, and the base otherwise.
  - During a pulse it is factor·base exactly where r > 0.7, and the base elsewhere.
- **Control.Detect**
  - It fires whenever the axis density exceeds the threshold.
  - With at most `lookback` history entries, it fires exactly then.
  - With a longer history and the axis density at or below the threshold, it fires exactly when the rate between the newest entry and the one `lookback` before it exceeds the rate threshold.
- **Control.Step**
  - It preserves "pulse start recorded iff in a pulse", and either leaves the state unchanged or switches the mode.
  - Normal→Pulse happens exactly when the cooldown allows it and the detector fires. It records the start time and keeps the last end time.
  - Pulse→Normal happens exactly when the pulse has run longer than its duration. It clears the start and records the end time.
  - The last end time changes only on a pulse end.
- **Transport.NextField**
  - The new field has `nr` entries.
  - For nr ≥ 3: every interior node is its clamped Euler value, `new[0] == new[1]`, and `new[nr-1] == 0.3·new[nr-2]`.
  - For nr = 2 it is `[old[1], 0.3·old[1]]`.
- **Simulator.StellaratorState.constructor**
  - `dr·(nr-1) = 1` and the grid is `linspace(0, 1, nr)`.
  - The three arrays hold the initial profiles.
  - The state is Normal at t = 0, with no pulse times and empty histories.
- **Simulator.StellaratorState.Update**
  - The new mode and pulse times are `Step` of the old ones, at the old time and on the old field's detection.
  - The impurity field is `NextField` of the old field under the new mode. For nr ≥ 3 the boundary equalities hold.
  - When the trace was recorded, it gains exactly the new control state and the detection the step used; earlier entries are kept.
  - Each history grows by exactly one entry: the new `n[0]`, the new `n[nr-1]`, the turbulence level at nr-2 under the new mode, and the pre-step time.
  - `time' = time + dt`.
  - The announced event matches the mode change.
  - The CFL warning changes no state.
  - The ghost trace of control states and detections stays a run of `Step` ending in the current state (`Recorded`), and with `dt ≥ 0` the time history stays chronological (`Chronological`).
- **Simulator.StellaratorState.RunController**
  - The mode and pulse times become `Step` of the old ones, with the detector run on the current field and histories.
  - The field, the clock and the histories are unchanged.
- **Simulator.StellaratorState.AdvanceField**
  - The field is replaced by a fresh `NextField` of the old one.
  - The four histories each gain one entry, and the clock advances by `dt`.
  - The control state is unchanged.
  - For nr ≥ 3 the two boundary rules hold on the new field.

These members are helpers without rows of their own. Their behaviour is covered by the rows named:

- `Closure.ModeFactor`: `Closure.TurbulenceLevel`.
- `Closure.CentralDifference`, the centred differences: `Closure.Eta` and `Closure.CentralDifferenceSign`.
- `Transport.CellDivergence` and `Transport.Divergence`, the `div_flux` of one cell: `Transport.FaceBalance` and `Transport.InteriorValue`.
- `Transport.StepValue`: `Transport.InteriorValue`.
- `Transport.SteppedNode`, one node after the loop: `Transport.SteppedField`.
- `Transport.WithBoundaries` and `Transport.BoundaryRules`, the boundary part of the step: `Transport.NextField`.

## Left out

- `main` in both versions is not part of this model: it is a driver loop with console output. The same goes for `save_to_csv`, which does file I/O and number formatting, and for the plotting script.
- The console messages are not modelled as output. `Update` returns the transition as a `Notice` and the CFL condition as a boolean instead.
- `code/v0-initial/main.rs` is an earlier draft that is cut off in the middle of a function. It is not part of this model.
- IEEE-754 arithmetic is not modelled: rounding, the exact double values of `linspace`, and NaN/infinity propagation. The exceptions are the two cases above, the zero-Δt rate test and `L_T = 0` in η.
- Grid sizes `nr < 2` are excluded by the constructor's precondition. In the source, `nr = 0` underflows `nr - 1`, and `nr = 1` gives `dr = inf` and an out-of-bounds index in `update`.
- The stability and physical accuracy of the explicit scheme are not modelled: the sawtooth behaviour, and whether the CFL bound actually holds.
- Simulator.CflWarning: the contract does not restate the threshold `D·dt/dr² > 0.5` as a comparison of `D·dt` with `0.5·dr²`. The solver cannot combine that quotient with the positivity of `dr²`.
- The earlier version has no `last_pulse_end_time` field. The model always records the end time. `Control.NoCooldownIgnoresLastEnd` shows that without a cooldown the extra field never changes the behaviour.
