/**
 * `StellaratorState`: the simulation object. Its constructor lays out the
 * grid and the initial profiles; each `Update` runs the controller, advances
 * the impurity field by one explicit step and appends to the histories.
 */
module Simulator {
  import opened Options
  import opened Config
  import opened Grid
  import opened Closure
  import opened Transport
  import opened Control

  /**
   * The first version's stability warning: the CFL number D*dt/dr^2 of the
   * strongest diffusivity of the current mode exceeds 0.5 during the first
   * millisecond. The second version has no such check.
   */
  function CflWarning(p: Params, mode: ConfinementMode, dr: real, dt: real, time: real): (warn: bool)
    requires dr > 0.0
    ensures warn ==> p.checksCfl && time < CflWindow
  {
    PositiveProduct(dr, dr);
    p.checksCfl && (MaxDiffusivity(p, mode) * dt / (dr * dr) > CflLimit && time < CflWindow)
  }

  lemma PositiveProduct(x: real, y: real)
    requires x > 0.0 && y > 0.0
    ensures x * y > 0.0
  {
  }

  /** The turbulent diffusivity the CFL check assumes: tripled during a pulse. */
  function MaxDiffusivity(p: Params, mode: ConfinementMode): (d: real)
    ensures mode == Normal ==> d == p.dTurbBase
    ensures mode == TurbulencePulse ==> d == CflPulseFactor * p.dTurbBase
    ensures p.dTurbBase >= 0.0 ==> d >= p.dTurbBase
  {
    match mode
    case Normal => p.dTurbBase
    case TurbulencePulse => p.dTurbBase * CflPulseFactor
  }

  class StellaratorState {
    const params: Params
    const nr: nat
    const dr: real
    const radiusGrid: seq<real>
    const electronDensity: array<real>
    const electronTemp: array<real>
    var impurityDensity: array<real>
    var confinementMode: ConfinementMode
    var time: real
    var pulseStartTime: Option<real>
    var lastPulseEndTime: Option<real>
    var centerHistory: seq<real>
    var edgeHistory: seq<real>
    var turbulenceHistory: seq<real>
    var timeHistory: seq<real>
    // The control states reached so far, one per `update` after the initial
    // one, and the detector verdict each step used.
    ghost var controlTrace: seq<ControlState>
    ghost var detectTrace: seq<bool>

    /** The fixed background plasma the transport coefficients read. */
    function Plasma(): Background
      reads this, electronDensity, electronTemp
    {
      Background(nr, dr, radiusGrid, electronDensity[..], electronTemp[..])
    }

    /** Mode and pulse bookkeeping, as the controller sees them. */
    function ControlView(): ControlState
      reads this
    {
      ControlState(confinementMode, pulseStartTime, lastPulseEndTime)
    }

    /**
     * The recorded control states form a run of `Step`, taken at the times
     * of `timeHistory`, ending in the current control state.
     */
    ghost predicate Recorded()
      reads this
    {
      IsRun(params, controlTrace, timeHistory, detectTrace)
      && controlTrace[|controlTrace| - 1] == ControlView()
    }

    /** The recorded step times never decrease and none lies after the clock. */
    ghost predicate Chronological()
      reads this
    {
      TimesUpTo(timeHistory, time)
    }

    ghost predicate Valid()
      reads this, impurityDensity, electronDensity, electronTemp
    {
      WellFormed(Plasma())
      && impurityDensity.Length == nr && electronDensity.Length == nr && electronTemp.Length == nr
      && impurityDensity != electronDensity && impurityDensity != electronTemp
      && electronDensity != electronTemp
      && Consistent(ControlView())
      && |centerHistory| == |timeHistory| && |edgeHistory| == |timeHistory|
      && |turbulenceHistory| == |timeHistory|
      && InBounds(impurityDensity[..])
    }

    /** `new`: an evenly spaced grid on [0, 1], initial profiles, Normal mode at t = 0. */
    constructor (params: Params, nr: nat)
      requires nr >= 2
      ensures Valid()
      ensures this.params == params && this.nr == nr
      ensures IsGrid(nr, radiusGrid) && dr * ((nr - 1) as real) == 1.0
      ensures fresh(impurityDensity) && fresh(electronDensity) && fresh(electronTemp)
      ensures electronDensity[..] == Sample(radiusGrid, InitialElectronDensity)
      ensures electronTemp[..] == Sample(radiusGrid, InitialElectronTemp)
      ensures impurityDensity[..] == Sample(radiusGrid, InitialImpurityDensity)
      ensures ControlView() == Initial && time == 0.0
      ensures centerHistory == [] && edgeHistory == [] && turbulenceHistory == [] && timeHistory == []
      ensures Recorded() && Chronological() && controlTrace == [Initial]
    {
      this.params := params;
      this.nr := nr;
      dr := Spacing(nr);
      radiusGrid := Linspace(nr);
      electronDensity := new real[nr](_ => 0.0);
      electronTemp := new real[nr](_ => 0.0);
      impurityDensity := new real[nr](_ => 0.0);
      confinementMode := Normal;
      time := 0.0;
      pulseStartTime := None;
      lastPulseEndTime := None;
      centerHistory := [];
      edgeHistory := [];
      turbulenceHistory := [];
      timeHistory := [];
      controlTrace := [Initial];
      detectTrace := [];
      new;
      InitializeProfiles();
    }

    /**
     * `initialize_profiles`: writes the parabolic electron profiles and the
     * edge-peaked impurity profile at every grid point. The impurity field it
     * writes lies between 2e17 at the axis and 1e18 at the wall.
     */
    method InitializeProfiles()
      requires Valid()
      modifies electronDensity, electronTemp, impurityDensity
      ensures Valid()
      ensures electronDensity[..] == Sample(radiusGrid, InitialElectronDensity)
      ensures electronTemp[..] == Sample(radiusGrid, InitialElectronTemp)
      ensures impurityDensity[..] == Sample(radiusGrid, InitialImpurityDensity)
    {
      for i := 0 to nr
        invariant forall j :: 0 <= j < i ==>
          electronDensity[j] == InitialElectronDensity(radiusGrid[j])
          && electronTemp[j] == InitialElectronTemp(radiusGrid[j])
          && impurityDensity[j] == InitialImpurityDensity(radiusGrid[j])
      {
        var r := radiusGrid[i];
        electronDensity[i] := InitialElectronDensity(r);
        electronTemp[i] := InitialElectronTemp(r);
        impurityDensity[i] := InitialImpurityDensity(r);
      }
      assert radiusGrid == Linspace(nr);
      forall i | 0 <= i < nr
        ensures 0.0 <= impurityDensity[i] <= MaxDensity
      {
        InitialImpurityField(nr, i, i);
      }
    }

    /**
     * `update(dt)`: the controller step at the current time, one transport
     * step with the (possibly new) mode, the four history appends and the
     * clock advance. `event` is the transition the step announces and
     * `cflWarning` the first version's stability warning, which changes no state.
     */
    method Update(dt: real) returns (event: Notice, cflWarning: bool)
      requires Valid()
      modifies this
      ensures Valid()
      ensures fresh(impurityDensity)
      ensures ControlView() == Step(params, old(ControlView()), old(time),
                                    old(Detect(params, impurityDensity[0], centerHistory, timeHistory)))
      ensures impurityDensity[..] == NextField(params, Plasma(), old(impurityDensity[..]), confinementMode, dt)
      ensures centerHistory == old(centerHistory) + [impurityDensity[0]]
      ensures edgeHistory == old(edgeHistory) + [impurityDensity[nr - 1]]
      ensures turbulenceHistory == old(turbulenceHistory) + [TurbulenceLevel(params, Plasma(), confinementMode, nr - 2)]
      ensures timeHistory == old(timeHistory) + [old(time)]
      ensures time == old(time) + dt
      ensures event == NoticeOf(old(ControlView()), ControlView(), old(time))
      ensures cflWarning == CflWarning(params, old(confinementMode), dr, dt, old(time))
      ensures nr >= 3 ==> impurityDensity[0] == impurityDensity[1]
                          && impurityDensity[nr - 1] == EdgeFraction * impurityDensity[nr - 2]
      ensures old(Recorded()) ==> Recorded()
      ensures old(Recorded()) ==> controlTrace == old(controlTrace) + [ControlView()]
      ensures old(Recorded()) ==>
        detectTrace == old(detectTrace) + [old(Detect(params, impurityDensity[0], centerHistory, timeHistory))]
      ensures old(Chronological()) && dt >= 0.0 ==> Chronological()
    {
      cflWarning := CflWarning(params, confinementMode, dr, dt, time);
      ghost var accumulating := Detect(params, impurityDensity[0], centerHistory, timeHistory);
      ghost var before, times, t := ControlView(), timeHistory, time;
      ghost var wasRecorded := Recorded();
      event := RunController();
      AdvanceField(dt);
      if wasRecorded {
        ExtendTrace(before, times, t, accumulating);
      }
    }

    /** Appends the step just taken to the recorded run. */
    ghost method ExtendTrace(before: ControlState, times: seq<real>, t: real, accumulating: bool)
      requires IsRun(params, controlTrace, times, detectTrace)
      requires controlTrace[|controlTrace| - 1] == before
      requires timeHistory == times + [t]
      requires ControlView() == Step(params, before, t, accumulating)
      modifies this`controlTrace, this`detectTrace
      ensures Recorded()
      ensures controlTrace == old(controlTrace) + [ControlView()]
      ensures detectTrace == old(detectTrace) + [accumulating]
    {
      RunExtends(params, controlTrace, times, detectTrace, t, accumulating);
      controlTrace := controlTrace + [ControlView()];
      detectTrace := detectTrace + [accumulating];
    }

    /** The control part of `update`: the mode switch, before any transport. */
    method RunController() returns (event: Notice)
      requires Valid()
      modifies this
      ensures Valid()
      ensures ControlView() == Step(params, old(ControlView()), time,
                                    Detect(params, impurityDensity[0], centerHistory, timeHistory))
      ensures event == NoticeOf(old(ControlView()), ControlView(), time)
      ensures impurityDensity == old(impurityDensity) && time == old(time)
      ensures centerHistory == old(centerHistory) && edgeHistory == old(edgeHistory)
      ensures turbulenceHistory == old(turbulenceHistory) && timeHistory == old(timeHistory)
      ensures controlTrace == old(controlTrace) && detectTrace == old(detectTrace)
    {
      var before := ControlView();
      var accumulating := Detect(params, impurityDensity[0], centerHistory, timeHistory);
      match confinementMode {
        case Normal =>
          if CanPulse(params, before, time) && accumulating {
            confinementMode := TurbulencePulse;
            pulseStartTime := Some(time);
          }
        case TurbulencePulse =>
          if pulseStartTime.Some? && time - pulseStartTime.value > params.pulseDuration {
            confinementMode := Normal;
            lastPulseEndTime := Some(time);
            pulseStartTime := None;
          }
      }
      assert ControlView() == Step(params, before, time, accumulating);
      event := NoticeOf(before, ControlView(), time);
    }

    /** The transport part of `update`: the new field, the history appends, the clock. */
    method AdvanceField(dt: real)
      requires Valid()
      modifies this`impurityDensity, this`centerHistory, this`edgeHistory
      modifies this`turbulenceHistory, this`timeHistory, this`time
      ensures Valid()
      ensures fresh(impurityDensity)
      ensures ControlView() == old(ControlView())
      ensures impurityDensity[..] == NextField(params, Plasma(), old(impurityDensity[..]), confinementMode, dt)
      ensures nr >= 3 ==> impurityDensity[0] == impurityDensity[1]
                          && impurityDensity[nr - 1] == EdgeFraction * impurityDensity[nr - 2]
      ensures centerHistory == old(centerHistory) + [impurityDensity[0]]
      ensures edgeHistory == old(edgeHistory) + [impurityDensity[nr - 1]]
      ensures turbulenceHistory == old(turbulenceHistory) + [TurbulenceLevel(params, Plasma(), confinementMode, nr - 2)]
      ensures timeHistory == old(timeHistory) + [old(time)]
      ensures time == old(time) + dt
      ensures controlTrace == old(controlTrace) && detectTrace == old(detectTrace)
      ensures old(Chronological()) && dt >= 0.0 ==> Chronological()
    {
      ghost var current := impurityDensity[..];
      ReplaceField(dt);
      if nr >= 3 {
        BoundaryRules(params, Plasma(), current, confinementMode, dt);
      }
      RecordStep(dt);
    }

    /** The history pushes after the swap, then `self.time += dt`. */
    method RecordStep(dt: real)
      requires Valid()
      modifies this`centerHistory, this`edgeHistory, this`turbulenceHistory, this`timeHistory, this`time
      ensures Valid()
      ensures centerHistory == old(centerHistory) + [impurityDensity[0]]
      ensures edgeHistory == old(edgeHistory) + [impurityDensity[nr - 1]]
      ensures turbulenceHistory == old(turbulenceHistory) + [TurbulenceLevel(params, Plasma(), confinementMode, nr - 2)]
      ensures timeHistory == old(timeHistory) + [old(time)]
      ensures time == old(time) + dt
      ensures old(Chronological()) && dt >= 0.0 ==> Chronological()
    {
      centerHistory := centerHistory + [impurityDensity[0]];
      edgeHistory := edgeHistory + [impurityDensity[nr - 1]];
      turbulenceHistory := turbulenceHistory + [TurbulenceLevel(params, Plasma(), confinementMode, nr - 2)];
      ghost var times, t := timeHistory, time;
      timeHistory := timeHistory + [time];
      time := time + dt;
      if TimesUpTo(times, t) && dt >= 0.0 {
        TimesAppend(times, t, dt);
      }
    }

    /** The swap `self.impurity_density = new_nz`: only the field changes. */
    method ReplaceField(dt: real)
      requires Valid()
      modifies this`impurityDensity
      ensures Valid()
      ensures fresh(impurityDensity)
      ensures impurityDensity[..] == NextField(params, Plasma(), old(impurityDensity[..]), confinementMode, dt)
      ensures ControlView() == old(ControlView()) && time == old(time)
      ensures centerHistory == old(centerHistory) && edgeHistory == old(edgeHistory)
      ensures turbulenceHistory == old(turbulenceHistory) && timeHistory == old(timeHistory)
      ensures controlTrace == old(controlTrace) && detectTrace == old(detectTrace)
    {
      var plasma := Plasma();
      ghost var current := impurityDensity[..];
      ghost var field := NextField(params, plasma, current, confinementMode, dt);
      NextFieldInBounds(params, plasma, current, confinementMode, dt);
      var next := Advance(params, plasma, impurityDensity, confinementMode, dt);
      assert next[..] == field && InBounds(next[..]);
      assert next != electronDensity && next != electronTemp;
      impurityDensity := next;
      assert Plasma() == plasma;
    }
  }

  /**
   * The cooldown guarantee for the simulation object itself: when the pulse
   * that ended in update `j` is followed by a pulse starting in a later
   * update `k`, more than the cooldown separates the two step times.
   */
  lemma CooldownInSimulation(s: StellaratorState, j: nat, k: nat)
    requires s.Recorded() && s.Chronological() && s.params.cooldown.Some?
    requires j < k < |s.timeHistory|
    requires s.controlTrace[j].mode == TurbulencePulse && s.controlTrace[j + 1].mode == Normal
    requires s.controlTrace[k].mode == Normal && s.controlTrace[k + 1].mode == TurbulencePulse
    ensures s.timeHistory[k] - s.timeHistory[j] > s.params.cooldown.value
  {
    CooldownBetweenPulses(s.params, s.controlTrace, s.timeHistory, s.detectTrace, j, k);
  }

  /** Every recorded control state of a simulation satisfies the pulse invariant. */
  lemma TraceConsistent(s: StellaratorState, k: nat)
    requires s.Recorded() && Consistent(s.controlTrace[0]) && k < |s.controlTrace|
    ensures Consistent(s.controlTrace[k])
  {
    RunConsistent(s.params, s.controlTrace, s.timeHistory, s.detectTrace, k);
  }
}
