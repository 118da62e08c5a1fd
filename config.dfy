/**
 * Constants of the simulator. The tuned values that differ between the two
 * versions of the program are collected in `Params`; the values that both
 * versions share are named constants below.
 */
module Config {
  import opened Options

  /** The controller's regime: nominal transport or an edge turbulence pulse. */
  datatype ConfinementMode = Normal | TurbulencePulse

  /** Per-version configuration of one simulation run. */
  datatype Params = Params(
    dNeo: real,              // neoclassical diffusivity
    dTurbBase: real,         // base turbulent diffusivity
    vNeo: real,              // neoclassical convection velocity
    pulseFactor: real,       // turbulence multiplier outside r = 0.7 during a pulse
    pulseDuration: real,     // a pulse ends once it has run longer than this
    cooldown: Option<real>,  // minimum gap after a pulse; None: no gating at all
    centerThreshold: real,   // absolute accumulation threshold on the centre density
    rateThreshold: real,     // threshold on the centre density's growth rate
    lookback: nat,           // history entries spanned by the growth rate
    sourceRate: real,        // edge fuelling rate
    checksCfl: bool)         // whether `update` evaluates the CFL warning

  /** Version 2 (code/v2-final): cooldown gating, stronger pulse. */
  function V2(): (p: Params)
    ensures p.cooldown == Some(0.5) && p.lookback == 100 && !p.checksCfl
    ensures p.pulseDuration == 0.2 && p.pulseFactor == 5.0
    ensures p.centerThreshold == 8e17 && p.rateThreshold == 1.5e18 && p.sourceRate == 2.5e17
  {
    Params(dNeo := 0.02, dTurbBase := 1.5, vNeo := -0.5, pulseFactor := 5.0,
           pulseDuration := 0.2, cooldown := Some(0.5), centerThreshold := 8e17,
           rateThreshold := 1.5e18, lookback := 100, sourceRate := 2.5e17,
           checksCfl := false)
  }

  /** Version 1 (code/v1-stalbe): no cooldown, CFL warning in `update`. */
  function V1(): (p: Params)
    ensures p.cooldown.None? && p.lookback == 100 && p.checksCfl
    ensures p.pulseDuration == 0.1 && p.pulseFactor == 3.0
    ensures p.centerThreshold == 1.5e18 && p.rateThreshold == 8e17 && p.sourceRate == 2e17
  {
    Params(dNeo := 0.02, dTurbBase := 1.0, vNeo := -0.3, pulseFactor := 3.0,
           pulseDuration := 0.1, cooldown := None, centerThreshold := 1.5e18,
           rateThreshold := 8e17, lookback := 100, sourceRate := 2e17,
           checksCfl := true)
  }

  // Turbulence closure
  const FloorDiffusivity: real := 0.05   // returned near the axis and the wall
  const AxisCutoff: real := 0.02
  const WallCutoff: real := 0.98
  const GradientFloor: real := 1e-10     // floor of |gradient| in the scale lengths
  const EtaMin: real := 0.1
  const EtaMax: real := 10.0
  const SuppressionLow: real := 0.8      // Normal mode: factor 0.3 iff eta lies strictly
  const SuppressionHigh: real := 1.2     // between these two values
  const SuppressedFactor: real := 0.3
  const EdgeRadius: real := 0.7          // pulse enhancement applies outside this radius

  // Transport step
  const FlatRadius: real := 0.01         // at or inside: flat divergence form
  const SourceRadius: real := 0.85       // edge source applies outside this radius
  const MaxDensity: real := 1e20         // upper safety clamp of the impurity field
  const EdgeFraction: real := 0.3        // last node = EdgeFraction * its neighbour

  // CFL warning (version 1)
  const CflPulseFactor: real := 3.0
  const CflLimit: real := 0.5
  const CflWindow: real := 0.001
}
