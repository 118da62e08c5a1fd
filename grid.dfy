/**
 * The radial grid `linspace(0, 1, nr)` and the parabolic initial profiles.
 */
module Grid {

  /** Uniform spacing of `nr` nodes over [0, 1]. */
  function Spacing(nr: nat): (dr: real)
    requires nr >= 2
    ensures dr > 0.0
    ensures dr * ((nr - 1) as real) == 1.0
  {
    1.0 / ((nr - 1) as real)
  }

  /** Normalised radius of node `i`. */
  function Radius(nr: nat, i: nat): (r: real)
    requires nr >= 2
    ensures r == (i as real) * Spacing(nr)
    ensures i < nr ==> 0.0 <= r <= 1.0
    ensures i == 0 ==> r == 0.0
    ensures i == nr - 1 ==> r == 1.0
  {
    (i as real) / ((nr - 1) as real)
  }

  ghost predicate IsGrid(nr: nat, grid: seq<real>)
    requires nr >= 2
  {
    |grid| == nr && forall i :: 0 <= i < nr ==> grid[i] == Radius(nr, i)
  }

  /** The grid coordinates, as `Array1::linspace(0.0, 1.0, nr)` produces them. */
  function Linspace(nr: nat): (grid: seq<real>)
    requires nr >= 2
    ensures IsGrid(nr, grid)
  {
    seq(nr, i requires 0 <= i < nr => Radius(nr, i))
  }

  /** Neighbouring nodes are one spacing apart. */
  lemma RadiusStep(nr: nat, i: nat)
    requires nr >= 2 && 0 < i < nr
    ensures Radius(nr, i) - Radius(nr, i - 1) == Spacing(nr)
  {
    var dr := Spacing(nr);
    calc {
      Radius(nr, i) - Radius(nr, i - 1);
      (i as real) * dr - ((i - 1) as real) * dr;
      ((i as real) - ((i - 1) as real)) * dr;
    }
  }

  /** Radii grow with the node index. */
  lemma RadiusMonotone(nr: nat, i: nat, j: nat)
    requires nr >= 2 && i <= j
    ensures Radius(nr, i) <= Radius(nr, j)
  {
    var dr := Spacing(nr);
    var gap := (j - i) as real;
    assert gap * dr >= 0.0;
    assert Radius(nr, j) - Radius(nr, i) == gap * dr;
  }

  function InitialElectronDensity(r: real): (ne: real)
    ensures r == 0.0 ==> ne == 8e19
    ensures r == 1.0 ==> ne == 0.0
  {
    8e19 * (1.0 - r * r)
  }

  function InitialElectronTemp(r: real): (te: real)
    ensures r == 0.0 ==> te == 8.0
    ensures r == 1.0 ==> te == 0.0
  {
    8.0 * (1.0 - r * r)
  }

  function InitialImpurityDensity(r: real): (nz: real)
    ensures r == 0.0 ==> nz == 2e17
    ensures r == 1.0 ==> nz == 1e18
  {
    1e18 * (0.2 + 0.8 * r * r)
  }

  /** A profile formula evaluated at every grid coordinate. */
  function Sample(grid: seq<real>, f: real -> real): (s: seq<real>)
    ensures |s| == |grid|
    ensures forall i :: 0 <= i < |grid| ==> s[i] == f(grid[i])
  {
    seq(|grid|, i requires 0 <= i < |grid| => f(grid[i]))
  }

  /**
   * On [0, 1] the initial impurity profile rises from 2e17 on the axis to
   * 1e18 at the wall, and the electron profiles fall from their peak to 0.
   */
  lemma InitialProfilesMonotone(r1: real, r2: real)
    requires 0.0 <= r1 <= r2 <= 1.0
    ensures 2e17 <= InitialImpurityDensity(r1) <= InitialImpurityDensity(r2) <= 1e18
    ensures 8e19 >= InitialElectronDensity(r1) >= InitialElectronDensity(r2) >= 0.0
    ensures 8.0 >= InitialElectronTemp(r1) >= InitialElectronTemp(r2) >= 0.0
  {
    SquareMonotone(r1, r2);
    SquareMonotone(r2, 1.0);
    var s1, s2 := r1 * r1, r2 * r2;
    assert 0.0 <= s1 <= s2 <= 1.0;
  }

  lemma SquareMonotone(a: real, b: real)
    requires 0.0 <= a <= b
    ensures 0.0 <= a * a <= b * b
  {
    assert a * a <= a * b by {
      assert a * (b - a) >= 0.0;
    }
    assert a * b <= b * b by {
      assert b * (b - a) >= 0.0;
    }
  }

  /** The initial impurity field, node by node. */
  lemma InitialImpurityField(nr: nat, i: nat, j: nat)
    requires nr >= 2 && i <= j < nr
    ensures var nz := Sample(Linspace(nr), InitialImpurityDensity);
      nz[0] == 2e17 && nz[nr - 1] == 1e18 && 2e17 <= nz[i] <= nz[j] <= 1e18
  {
    var grid := Linspace(nr);
    assert grid[i] == Radius(nr, i) && grid[j] == Radius(nr, j);
    RadiusMonotone(nr, i, j);
    InitialProfilesMonotone(grid[i], grid[j]);
  }

  /**
   * The driver's 101-node grid: spacing 0.01, so node 1 lies exactly on
   * r = 0.01, and the profile values at both ends.
   */
  lemma DriverGrid()
    ensures Spacing(101) == 0.01 && Radius(101, 1) == 0.01
    ensures Sample(Linspace(101), InitialElectronDensity)[0] == 8e19
    ensures Sample(Linspace(101), InitialElectronDensity)[100] == 0.0
    ensures Sample(Linspace(101), InitialImpurityDensity)[0] == 0.2e18
    ensures Sample(Linspace(101), InitialImpurityDensity)[100] == 1.0e18
  {
    var grid := Linspace(101);
    assert grid[0] == 0.0 && grid[100] == 1.0;
  }
}
