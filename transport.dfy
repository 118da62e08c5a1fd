/**
 * One explicit Euler step of the impurity continuity equation, the transport
 * half of `update`: every interior node is advanced from the OLD field and
 * clamped, then the two boundary nodes are set from their neighbours.
 */
module Transport {
  import opened Config
  import opened Grid
  import opened Closure

  /** The safety bounds of the impurity field. */
  ghost predicate InBounds(field: seq<real>) {
    forall i :: 0 <= i < |field| ==> 0.0 <= field[i] <= MaxDensity
  }

  /** Edge fuelling: the source rate outside r = 0.85, nothing inside. */
  function SourceTerm(p: Params, r: real): (s: real)
    ensures r > SourceRadius ==> s == p.sourceRate
    ensures r <= SourceRadius ==> s == 0.0
  {
    if r > SourceRadius then p.sourceRate else 0.0
  }

  /**
   * Divergence of the flux in a cell of radius `r`: the cylindrical form
   * outside r = 0.01, the flat form at or inside it, where r·dr would be
   * close to zero.
   */
  function CellDivergence(r: real, dr: real, fluxOut: real, fluxIn: real): real
    requires dr > 0.0
  {
    if r > FlatRadius then ((r + 0.5 * dr) * fluxOut - (r - 0.5 * dr) * fluxIn) / (r * dr)
    else (fluxOut - fluxIn) / dr
  }

  /**
   * The two forms of the divergence: multiplied back by its denominator it is
   * the face balance (r+dr/2)·Γ_out − (r−dr/2)·Γ_in, resp. Γ_out − Γ_in.
   */
  lemma FaceBalance(r: real, dr: real, fluxOut: real, fluxIn: real)
    requires dr > 0.0
    ensures r > FlatRadius ==>
      CellDivergence(r, dr, fluxOut, fluxIn) * (r * dr) == (r + 0.5 * dr) * fluxOut - (r - 0.5 * dr) * fluxIn
    ensures r <= FlatRadius ==> CellDivergence(r, dr, fluxOut, fluxIn) * dr == fluxOut - fluxIn
  {
    if r > FlatRadius {
      QuotientTimesDivisor((r + 0.5 * dr) * fluxOut - (r - 0.5 * dr) * fluxIn, r * dr);
    } else {
      QuotientTimesDivisor(fluxOut - fluxIn, dr);
    }
  }

  lemma QuotientTimesDivisor(num: real, den: real)
    requires den != 0.0
    ensures (num / den) * den == num
  {
  }

  /** Divergence at interior node `i`, from the fluxes through its two faces. */
  function Divergence(p: Params, b: Background, nz: seq<real>, mode: ConfinementMode, i: nat): real
    requires WellFormed(b) && |nz| == b.nr && 0 < i < b.nr - 1
  {
    CellDivergence(b.grid[i], b.dr, Flux(p, b, nz, mode, i), Flux(p, b, nz, mode, i - 1))
  }

  /** The flux through every face, indexed like the nodes. */
  function FaceFluxes(p: Params, b: Background, nz: seq<real>, mode: ConfinementMode): (f: seq<real>)
    requires WellFormed(b) && |nz| == b.nr
    ensures |f| == b.nr
    ensures forall i :: 0 <= i < b.nr ==> f[i] == Flux(p, b, nz, mode, i)
  {
    seq(b.nr, i requires 0 <= i < b.nr => Flux(p, b, nz, mode, i))
  }

  /** Radius of the outer face of cell `k`. */
  function OuterFace(nr: nat, k: nat): real
    requires nr >= 2
  {
    Radius(nr, k) + 0.5 * Spacing(nr)
  }

  /** Radius of the inner face of cell `k`. */
  function InnerFace(nr: nat, k: nat): real
    requires nr >= 2
  {
    Radius(nr, k) - 0.5 * Spacing(nr)
  }

  /** The inner face of a cell is the outer face of the previous cell. */
  lemma SharedFace(nr: nat, k: nat)
    requires nr >= 2 && 0 < k < nr
    ensures InnerFace(nr, k) == OuterFace(nr, k - 1)
  {
    RadiusStep(nr, k);
  }

  /** Flow through a face: its radius times the flux through it. */
  function FaceFlow(face: real, flux: real): real {
    face * flux
  }

  /** r_k·dr·divergence_k: the divergence of cell `k` weighted by its volume. */
  function CellWeight(nr: nat, f: seq<real>, k: nat): real
    requires nr >= 2 && |f| == nr && 1 <= k < nr
  {
    Radius(nr, k) * Spacing(nr) * CellDivergence(Radius(nr, k), Spacing(nr), f[k], f[k - 1])
  }

  /** Sum of the cell weights over cells lo..k (zero when k < lo), for face fluxes `f`. */
  function WeightedDivergence(nr: nat, f: seq<real>, lo: nat, k: nat): real
    requires nr >= 2 && |f| == nr && 1 <= lo && k < nr
    decreases k
  {
    if k < lo then 0.0 else WeightedDivergence(nr, f, lo, k - 1) + CellWeight(nr, f, k)
  }

  /** In the cylindrical branch a cell's weight is its outer face term minus its inner one. */
  lemma CellBalance(nr: nat, f: seq<real>, k: nat)
    requires nr >= 2 && |f| == nr && 1 <= k < nr
    requires Radius(nr, k) > FlatRadius
    ensures CellWeight(nr, f, k) == FaceFlow(OuterFace(nr, k), f[k]) - FaceFlow(InnerFace(nr, k), f[k - 1])
  {
    var r, dr := Radius(nr, k), Spacing(nr);
    var div := CellDivergence(r, dr, f[k], f[k - 1]);
    FaceBalance(r, dr, f[k], f[k - 1]);
    assert div * (r * dr) == (r + 0.5 * dr) * f[k] - (r - 0.5 * dr) * f[k - 1];
    assert r * dr * div == div * (r * dr);
  }

  /**
   * Finite-volume conservation: over a run of cells in the cylindrical
   * branch, the weighted divergences telescope to the flux term at the outer
   * face of the last cell minus the one at the inner face of the first,
   * because the inner face of each cell is the outer face of the previous one.
   */
  lemma {:induction false} DivergenceTelescopes(nr: nat, f: seq<real>, lo: nat, k: nat)
    requires nr >= 2 && |f| == nr && 1 <= lo <= k < nr
    requires forall i :: lo <= i <= k ==> Radius(nr, i) > FlatRadius
    ensures WeightedDivergence(nr, f, lo, k)
         == FaceFlow(OuterFace(nr, k), f[k]) - FaceFlow(InnerFace(nr, lo), f[lo - 1])
  {
    CellBalance(nr, f, k);
    var outer, inner := FaceFlow(OuterFace(nr, k), f[k]), FaceFlow(InnerFace(nr, k), f[k - 1]);
    assert WeightedDivergence(nr, f, lo, k) == WeightedDivergence(nr, f, lo, k - 1) + (outer - inner);
    if k == lo {
      assert WeightedDivergence(nr, f, lo, k - 1) == 0.0;
    } else {
      DivergenceTelescopes(nr, f, lo, k - 1);
      SharedFace(nr, k);
      assert inner == FaceFlow(OuterFace(nr, k - 1), f[k - 1]);
    }
  }

  /**
   * When node 1 already lies in the cylindrical branch (fewer than 101
   * nodes), the weighted interior divergences of a step add up to the flux
   * leaving through the outer face of the last interior cell: the axis face
   * carries no flux and every inner face cancels against its neighbour.
   */
  lemma InteriorOutflow(p: Params, b: Background, nz: seq<real>, mode: ConfinementMode)
    requires WellFormed(b) && |nz| == b.nr && b.nr >= 3
    requires b.grid[1] > FlatRadius
    ensures WeightedDivergence(b.nr, FaceFluxes(p, b, nz, mode), 1, b.nr - 2)
         == FaceFlow(1.0 - 0.5 * b.dr, Flux(p, b, nz, mode, b.nr - 2))
  {
    var f := FaceFluxes(p, b, nz, mode);
    forall i | 1 <= i <= b.nr - 2 ensures Radius(b.nr, i) > FlatRadius {
      RadiusMonotone(b.nr, 1, i);
    }
    DivergenceTelescopes(b.nr, f, 1, b.nr - 2);
    assert FaceFlow(InnerFace(b.nr, 1), f[0]) == 0.0 by {
      assert f[0] == 0.0;
    }
    assert OuterFace(b.nr, b.nr - 2) == 1.0 - 0.5 * b.dr by {
      SharedFace(b.nr, b.nr - 1);
    }
    assert f[b.nr - 2] == Flux(p, b, nz, mode, b.nr - 2);
  }

  /** New value of interior node `i`: the explicit step, clamped to [0, 1e20]. */
  function InteriorValue(p: Params, b: Background, nz: seq<real>, mode: ConfinementMode, dt: real, i: nat): (v: real)
    requires WellFormed(b) && |nz| == b.nr && 0 < i < b.nr - 1
    ensures 0.0 <= v <= MaxDensity
    ensures var stepped := nz[i] + (-Divergence(p, b, nz, mode, i) + SourceTerm(p, b.grid[i])) * dt;
      (0.0 <= stepped <= MaxDensity ==> v == stepped)
      && (stepped < 0.0 ==> v == 0.0)
      && (stepped > MaxDensity ==> v == MaxDensity)
  {
    StepValue(nz[i], Divergence(p, b, nz, mode, i), SourceTerm(p, b.grid[i]), dt)
  }

  /**
   * Explicit Euler update n + (−div + S)·dt, raised to 0 with `max` and then
   * lowered to 1e20 with `min`.
   */
  function StepValue(n: real, div: real, source: real, dt: real): real {
    Min(Max(n + (-div + source) * dt, 0.0), MaxDensity)
  }

  /**
   * The stencil: the new value of node `i` depends on the old field only at
   * nodes i-2 .. i+1 (the two face fluxes around the node).
   */
  lemma InteriorLocal(p: Params, b: Background, nz1: seq<real>, nz2: seq<real>, mode: ConfinementMode, dt: real, i: nat)
    requires WellFormed(b) && |nz1| == b.nr && |nz2| == b.nr && 0 < i < b.nr - 1
    requires forall j: nat :: i <= j + 2 <= i + 3 && j < b.nr ==> nz1[j] == nz2[j]
    ensures InteriorValue(p, b, nz1, mode, dt, i) == InteriorValue(p, b, nz2, mode, dt, i)
  {
    FluxLocal(p, b, nz1, nz2, mode, i);
    FluxLocal(p, b, nz1, nz2, mode, i - 1);
    assert nz1[i] == nz2[i];
    assert Divergence(p, b, nz1, mode, i) == Divergence(p, b, nz2, mode, i);
  }

  /**
   * The field after one transport step, computed from the old field `nz`
   * alone: interior nodes stepped, then node 0 copies node 1 and the last
   * node takes 0.3 times its (already updated) inward neighbour.
   */
  function NextField(p: Params, b: Background, nz: seq<real>, mode: ConfinementMode, dt: real): (next: seq<real>)
    requires WellFormed(b) && |nz| == b.nr
    ensures |next| == b.nr
    ensures b.nr >= 3 ==> forall i :: 0 < i < b.nr - 1 ==> next[i] == InteriorValue(p, b, nz, mode, dt, i)
    ensures b.nr >= 3 ==> next[0] == next[1] && next[b.nr - 1] == EdgeFraction * next[b.nr - 2]
    ensures b.nr == 2 ==> next == [nz[1], EdgeFraction * nz[1]]
  {
    WithBoundaries(SteppedField(p, b, nz, mode, dt))
  }

  /** The field after the interior loop, before the boundary nodes are set. */
  function SteppedField(p: Params, b: Background, nz: seq<real>, mode: ConfinementMode, dt: real): (s: seq<real>)
    requires WellFormed(b) && |nz| == b.nr
    ensures |s| == b.nr
    ensures forall i :: 0 <= i < b.nr ==> s[i] == SteppedNode(p, b, nz, mode, dt, i)
  {
    seq(b.nr, i requires 0 <= i < b.nr => SteppedNode(p, b, nz, mode, dt, i))
  }

  /** Node `i` after the interior loop: stepped if interior, the cloned old value otherwise. */
  function SteppedNode(p: Params, b: Background, nz: seq<real>, mode: ConfinementMode, dt: real, i: nat): real
    requires WellFormed(b) && |nz| == b.nr && i < b.nr
  {
    if 0 < i < b.nr - 1 then InteriorValue(p, b, nz, mode, dt, i) else nz[i]
  }

  /** Node 0 copies node 1, then the last node takes 0.3 times its inward neighbour. */
  function WithBoundaries(s: seq<real>): seq<real>
    requires |s| >= 2
  {
    var axis := s[0 := s[1]];
    axis[|s| - 1 := EdgeFraction * axis[|s| - 2]]
  }

  /**
   * The safety bounds hold after every step on three or more nodes, whatever
   * the old field; on two nodes there is no interior and they carry over.
   */
  lemma NextFieldInBounds(p: Params, b: Background, nz: seq<real>, mode: ConfinementMode, dt: real)
    requires WellFormed(b) && |nz| == b.nr
    requires b.nr >= 3 || InBounds(nz)
    ensures InBounds(NextField(p, b, nz, mode, dt))
  {
    var next := NextField(p, b, nz, mode, dt);
    if b.nr >= 3 {
      forall i | 0 <= i < b.nr ensures 0.0 <= next[i] <= MaxDensity {
        if 0 < i < b.nr - 1 {
          assert next[i] == InteriorValue(p, b, nz, mode, dt, i);
        } else if i == 0 {
          assert next[0] == InteriorValue(p, b, nz, mode, dt, 1);
        } else {
          assert next[i] == EdgeFraction * InteriorValue(p, b, nz, mode, dt, b.nr - 2);
        }
      }
    } else {
      assert 0.0 <= nz[1] <= MaxDensity;
    }
  }

  /**
   * For three or more nodes the step ends with the two boundary rules in
   * force: the boundary part of `NextField`'s contract on its own, so that a
   * caller can use it without the interior part.
   */
  lemma BoundaryRules(p: Params, b: Background, nz: seq<real>, mode: ConfinementMode, dt: real)
    requires WellFormed(b) && |nz| == b.nr && b.nr >= 3
    ensures var next := NextField(p, b, nz, mode, dt);
      next[0] == next[1] && next[b.nr - 1] == EdgeFraction * next[b.nr - 2]
  {
  }

  /**
   * On two nodes the axis condition does not hold after a step unless the
   * old outer node was empty: node 0 receives the old node 1 and node 1 is
   * scaled down by 0.3.
   */
  lemma TwoNodesBreakAxisCondition(p: Params, b: Background, nz: seq<real>, mode: ConfinementMode, dt: real)
    requires WellFormed(b) && |nz| == b.nr && b.nr == 2
    ensures var next := NextField(p, b, nz, mode, dt); next[0] == next[1] <==> nz[1] == 0.0
  {
    var next := NextField(p, b, nz, mode, dt);
    assert next[0] == nz[1] && next[1] == EdgeFraction * nz[1];
  }

  /**
   * On the driver's 101-node grid node 1 sits exactly on the flat-branch
   * radius, so its divergence is the plain difference of its face fluxes,
   * and the axis face carries no flux.
   */
  lemma DriverAxisCellIsFlat(p: Params, b: Background, nz: seq<real>, mode: ConfinementMode)
    requires WellFormed(b) && |nz| == b.nr && b.nr == 101
    ensures Divergence(p, b, nz, mode, 1) * b.dr == Flux(p, b, nz, mode, 1)
  {
    DriverGrid();
    assert b.grid[1] == FlatRadius;
    FaceBalance(b.grid[1], b.dr, Flux(p, b, nz, mode, 1), Flux(p, b, nz, mode, 0));
  }

  /**
   * The transport half of `update`: clone the old field, run the interior
   * loop on the clone, then set the two boundary nodes.
   */
  method Advance(p: Params, b: Background, nz: array<real>, mode: ConfinementMode, dt: real) returns (next: array<real>)
    requires WellFormed(b) && nz.Length == b.nr
    ensures fresh(next)
    ensures next[..] == NextField(p, b, nz[..], mode, dt)
  {
    var current := nz[..];
    next := new real[nz.Length];
    forall i | 0 <= i < nz.Length {
      next[i] := nz[i];
    }
    StepInterior(p, b, current, mode, dt, next);
    SetBoundaries(next);
    assert nz[..] == current;
    assert NextField(p, b, current, mode, dt) == WithBoundaries(SteppedField(p, b, current, mode, dt));
  }

  /** `new_nz[0] = new_nz[1]; new_nz[nr - 1] = 0.3 * new_nz[nr - 2]`. */
  method SetBoundaries(next: array<real>)
    requires next.Length >= 2
    modifies next
    ensures next[..] == WithBoundaries(old(next[..]))
  {
    next[0] := next[1];
    ghost var axis := next[..];
    next[next.Length - 1] := EdgeFraction * next[next.Length - 2];
    assert next[..] == axis[next.Length - 1 := EdgeFraction * axis[next.Length - 2]];
  }

  /**
   * The loop `for i in 1..nr-1` of `update`: every interior node of `next`
   * (a clone of `current`) is overwritten with a value computed from
   * `current`, never from a node already written.
   */
  method StepInterior(p: Params, b: Background, current: seq<real>, mode: ConfinementMode, dt: real, next: array<real>)
    requires WellFormed(b) && |current| == b.nr && next[..] == current
    modifies next
    ensures next[..] == SteppedField(p, b, current, mode, dt)
  {
    for i := 1 to b.nr - 1
      invariant next.Length == b.nr
      invariant forall j :: 0 <= j < b.nr ==>
        next[j] == if j < i then SteppedNode(p, b, current, mode, dt, j) else current[j]
    {
      var div := Divergence(p, b, current, mode, i);
      var source := SourceTerm(p, b.grid[i]);
      next[i] := StepValue(current[i], div, source, dt);
    }
  }
}
