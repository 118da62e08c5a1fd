/**
 * The turbulence closure and the face flux: the pure read-only parts of the
 * simulation state (`calculate_turbulence_level`, `calculate_flux`).
 */
module Closure {
  import opened Config
  import opened Grid

  /** The immutable part of the state: grid and background electron profiles. */
  datatype Background = Background(nr: nat, dr: real, grid: seq<real>, ne: seq<real>, te: seq<real>)

  ghost predicate WellFormed(b: Background) {
    b.nr >= 2 && b.dr == Spacing(b.nr) && IsGrid(b.nr, b.grid)
    && |b.ne| == b.nr && |b.te| == b.nr
  }

  function Abs(x: real): real { if x < 0.0 then -x else x }

  /** `f64::max` on ordinary numbers. */
  function Max(a: real, b: real): real { if a >= b then a else b }

  /** `f64::min` on ordinary numbers. */
  function Min(a: real, b: real): real { if a <= b then a else b }

  /** `x.max(lo).min(hi)`: x forced into [lo, hi]. */
  function Clamp(x: real, lo: real, hi: real): (c: real)
    requires lo <= hi
    ensures lo <= c <= hi
    ensures lo <= x <= hi ==> c == x
    ensures x < lo ==> c == lo
    ensures x > hi ==> c == hi
  {
    Min(Max(x, lo), hi)
  }

  /** Centred first difference of `s` at interior node `i`. */
  function CentralDifference(s: seq<real>, i: nat, dr: real): real
    requires 0 < i < |s| - 1 && dr > 0.0
  {
    (s[i + 1] - s[i - 1]) / (2.0 * dr)
  }

  /** Gradient scale length |value / max(|gradient|, 1e-10)|. */
  function GradientLength(value: real, gradient: real): (l: real)
    ensures l >= 0.0
    ensures Abs(gradient) >= GradientFloor ==> l * Abs(gradient) == Abs(value)
    ensures Abs(gradient) < GradientFloor ==> l * GradientFloor == Abs(value)
  {
    var denom := Max(Abs(gradient), GradientFloor);
    assert (value / denom) * denom == value;
    Abs(value / denom)
  }

  /**
   * eta = (ln / lt).max(0.1).min(10.0). For lt == 0 the division is IEEE:
   * a positive ln gives +inf, which the clamp turns into 10; ln == 0 gives
   * NaN, which `max(0.1)` replaces by 0.1.
   */
  function EtaOf(ln: real, lt: real): (eta: real)
    requires ln >= 0.0 && lt >= 0.0
    ensures EtaMin <= eta <= EtaMax
    ensures lt > 0.0 ==>
      (eta == ln / lt || (eta == EtaMin && ln / lt < EtaMin) || (eta == EtaMax && ln / lt > EtaMax))
    ensures lt == 0.0 ==> (eta == EtaMax <==> ln > 0.0)
    ensures lt == 0.0 && ln == 0.0 ==> eta == EtaMin
  {
    if lt == 0.0 then (if ln > 0.0 then EtaMax else EtaMin)
    else Clamp(ln / lt, EtaMin, EtaMax)
  }

  /** The ITG drive proxy at interior node `i`. */
  function Eta(b: Background, i: nat): (eta: real)
    requires WellFormed(b) && 0 < i < b.nr - 1
    ensures EtaMin <= eta <= EtaMax
  {
    var ln := GradientLength(b.ne[i], CentralDifference(b.ne, i, b.dr));
    var lt := GradientLength(b.te[i], CentralDifference(b.te, i, b.dr));
    EtaOf(ln, lt)
  }

  /** The mode-dependent multiplier of the base turbulent diffusivity. */
  function ModeFactor(p: Params, mode: ConfinementMode, eta: real, r: real): real {
    match mode
    case Normal => if SuppressionLow < eta < SuppressionHigh then SuppressedFactor else 1.0
    case TurbulencePulse => if r > EdgeRadius then p.pulseFactor else 1.0
  }

  /**
   * `calculate_turbulence_level`: the floor value near the axis and the wall,
   * otherwise d_turb_base times the mode factor. The two boundary nodes always
   * take the floor branch, so the neighbours read by the gradients exist.
   */
  function TurbulenceLevel(p: Params, b: Background, mode: ConfinementMode, i: nat): (d: real)
    requires WellFormed(b) && i < b.nr
    ensures b.grid[i] < AxisCutoff || b.grid[i] > WallCutoff ==> d == FloorDiffusivity
    ensures i == 0 || i == b.nr - 1 ==> d == FloorDiffusivity
    ensures AxisCutoff <= b.grid[i] <= WallCutoff ==> 0 < i < b.nr - 1
    ensures mode == Normal ==>
      d == FloorDiffusivity || d == SuppressedFactor * p.dTurbBase || d == p.dTurbBase
    ensures mode == TurbulencePulse ==>
      d == FloorDiffusivity || d == p.dTurbBase || (d == p.pulseFactor * p.dTurbBase && b.grid[i] > EdgeRadius)
    ensures AxisCutoff <= b.grid[i] <= WallCutoff && mode == Normal ==>
      (d == SuppressedFactor * p.dTurbBase <== SuppressionLow < Eta(b, i) < SuppressionHigh) &&
      (d == p.dTurbBase <== !(SuppressionLow < Eta(b, i) < SuppressionHigh))
    ensures AxisCutoff <= b.grid[i] <= WallCutoff && mode == TurbulencePulse ==>
      (d == p.pulseFactor * p.dTurbBase <== b.grid[i] > EdgeRadius) &&
      (d == p.dTurbBase <== b.grid[i] <= EdgeRadius)
  {
    var r := b.grid[i];
    if r < AxisCutoff || r > WallCutoff then FloorDiffusivity
    else
      assert i != 0 && i != b.nr - 1 by {
        assert Radius(b.nr, 0) == 0.0 && Radius(b.nr, b.nr - 1) == 1.0;
      }
      p.dTurbBase * ModeFactor(p, mode, Eta(b, i), r)
  }

  /**
   * A pulse never lowers the turbulent diffusivity anywhere, provided the
   * base diffusivity is non-negative and the pulse factor is at least 1.
   */
  lemma PulseNeverWeakens(p: Params, b: Background, i: nat)
    requires WellFormed(b) && i < b.nr
    requires p.dTurbBase >= 0.0 && p.pulseFactor >= 1.0
    ensures 0.0 <= TurbulenceLevel(p, b, Normal, i) <= TurbulenceLevel(p, b, TurbulencePulse, i)
  {
    var r := b.grid[i];
    if AxisCutoff <= r <= WallCutoff {
      var base := p.dTurbBase;
      assert p.pulseFactor * base - base == (p.pulseFactor - 1.0) * base;
      NonNegativeProduct(p.pulseFactor - 1.0, base);
      var normal := TurbulenceLevel(p, b, Normal, i);
      var pulse := TurbulenceLevel(p, b, TurbulencePulse, i);
      assert normal == SuppressedFactor * base || normal == base;
      assert pulse == p.pulseFactor * base || pulse == base;
    }
  }

  lemma NonNegativeProduct(x: real, y: real)
    requires x >= 0.0 && y >= 0.0
    ensures x * y >= 0.0
  {
  }

  /**
   * `calculate_flux`: zero at node 0 and at every index from nr-1 on;
   * otherwise neoclassical convection minus diffusion down the centred
   * gradient of the impurity density.
   */
  function Flux(p: Params, b: Background, nz: seq<real>, mode: ConfinementMode, i: nat): (f: real)
    requires WellFormed(b) && |nz| == b.nr
    ensures i == 0 || i >= b.nr - 1 ==> f == 0.0
  {
    if i == 0 || i >= b.nr - 1 then 0.0
    else
      var dnz := CentralDifference(nz, i, b.dr);
      var dTotal := p.dNeo + TurbulenceLevel(p, b, mode, i);
      p.vNeo * nz[i] - dTotal * dnz
  }

  /**
   * Diffusion acts down the gradient: with non-negative diffusivities, a
   * density falling outward adds an outward flux on top of the convection,
   * and a density rising outward adds an inward one.
   */
  lemma DiffusionDownGradient(p: Params, b: Background, nz: seq<real>, mode: ConfinementMode, i: nat)
    requires WellFormed(b) && |nz| == b.nr && 0 < i < b.nr - 1
    requires p.dNeo >= 0.0 && p.dTurbBase >= 0.0 && p.pulseFactor >= 1.0
    ensures nz[i + 1] <= nz[i - 1] ==> Flux(p, b, nz, mode, i) >= p.vNeo * nz[i]
    ensures nz[i + 1] >= nz[i - 1] ==> Flux(p, b, nz, mode, i) <= p.vNeo * nz[i]
  {
    TurbulenceNonNegative(p, b, mode, i);
    CentralDifferenceSign(nz, i, b.dr);
    var level, grad := TurbulenceLevel(p, b, mode, i), CentralDifference(nz, i, b.dr);
    assert Flux(p, b, nz, mode, i) == p.vNeo * nz[i] - (p.dNeo + level) * grad;
    DiffusionOpposesGradient(p.vNeo * nz[i], p.dNeo + level, grad);
  }

  /** With a non-negative base and a pulse factor of at least 1, no diffusivity is negative. */
  lemma TurbulenceNonNegative(p: Params, b: Background, mode: ConfinementMode, i: nat)
    requires WellFormed(b) && i < b.nr
    requires p.dTurbBase >= 0.0 && p.pulseFactor >= 1.0
    ensures TurbulenceLevel(p, b, mode, i) >= 0.0
  {
    PulseNeverWeakens(p, b, i);
  }

  /** The centred difference has the sign of the difference of the two neighbours. */
  lemma CentralDifferenceSign(s: seq<real>, i: nat, dr: real)
    requires 0 < i < |s| - 1 && dr > 0.0
    ensures s[i + 1] <= s[i - 1] ==> CentralDifference(s, i, dr) <= 0.0
    ensures s[i + 1] >= s[i - 1] ==> CentralDifference(s, i, dr) >= 0.0
  {
    GradientSign(s[i + 1] - s[i - 1], 2.0 * dr);
  }

  /** Subtracting a non-negative multiple of a gradient moves against its sign. */
  lemma DiffusionOpposesGradient(convection: real, diffusivity: real, gradient: real)
    requires diffusivity >= 0.0
    ensures gradient <= 0.0 ==> convection - diffusivity * gradient >= convection
    ensures gradient >= 0.0 ==> convection - diffusivity * gradient <= convection
  {
    if gradient <= 0.0 {
      NonNegativeProduct(diffusivity, -gradient);
    } else {
      NonNegativeProduct(diffusivity, gradient);
    }
  }

  /** A difference quotient over a positive step has the sign of the difference. */
  lemma GradientSign(diff: real, step: real)
    requires step > 0.0
    ensures diff <= 0.0 ==> diff / step <= 0.0
    ensures diff >= 0.0 ==> diff / step >= 0.0
  {
    var q := diff / step;
    assert q * step == diff;
    if q > 0.0 {
      assert q * step > 0.0;
    } else if q < 0.0 {
      assert (-q) * step > 0.0;
    }
  }

  /** The flux at a face reads only the density at that node and its two neighbours. */
  lemma FluxLocal(p: Params, b: Background, nz1: seq<real>, nz2: seq<real>, mode: ConfinementMode, i: nat)
    requires WellFormed(b) && |nz1| == b.nr && |nz2| == b.nr
    requires forall j: nat :: i <= j + 1 <= i + 2 && j < b.nr ==> nz1[j] == nz2[j]
    ensures Flux(p, b, nz1, mode, i) == Flux(p, b, nz2, mode, i)
  {
    if 0 < i < b.nr - 1 {
      assert nz1[i - 1] == nz2[i - 1] && nz1[i] == nz2[i] && nz1[i + 1] == nz2[i + 1];
    }
  }

  /** Where the density is locally flat, the flux is pure convection. */
  lemma FlatProfileConvects(p: Params, b: Background, nz: seq<real>, mode: ConfinementMode, i: nat)
    requires WellFormed(b) && |nz| == b.nr && 0 < i < b.nr - 1
    requires nz[i - 1] == nz[i + 1]
    ensures Flux(p, b, nz, mode, i) == p.vNeo * nz[i]
  {
  }
}
