/**
 * Pure per-cell arithmetic of the `fluxes` advection schemes: the sign-based
 * selections (minmod, maxmod), the superbee slope, the MC and van Leer flux
 * limiters, the stencil formulas of the eight schemes, and the field a
 * scheme produces in one step. Numbers are modelled as `real`.
 */
module Stencils {

  /** The four fixed parameters of a `fluxes` object. */
  datatype Params = Params(M: int, deltaT: real, deltaX: real, sigma: real)

  /** The eight one-step schemes, one per step method of `fluxes`. */
  datatype Scheme =
    | Upwind | LaxWendroff | BeamWarming | Fromm
    | MinmodLimited | SuperbeeLimited
    | McLimited | VanLeerLimited

  /** The bias `1E-16` added to the denominator of the flux-limiter ratio. */
  const Eps: real := 0.0000000000000001

  function Abs(x: real): real { if x < 0.0 then -x else x }

  function Min(a: real, b: real): real { if a < b then a else b }

  function Max(a: real, b: real): real { if a < b then b else a }

  lemma ProductSign(a: real, b: real)
    ensures a * b > 0.0 <==> (a > 0.0 && b > 0.0) || (a < 0.0 && b < 0.0)
  {
    if a > 0.0 && b < 0.0 {
      assert a * b == -(a * -b);
    } else if a < 0.0 && b > 0.0 {
      assert a * b == -(-a * b);
    } else if a < 0.0 && b < 0.0 {
      assert a * b == -a * -b;
    }
  }

  // ---------------------------------------------------------------------
  // Sign-based selections
  // ---------------------------------------------------------------------

  /**
   * minmod: zero unless both arguments are strictly of one sign; otherwise
   * the one of smaller magnitude (the second one on a tie).
   */
  function Minmod(a: real, b: real): real
  {
    if a * b > 0.0 then (if Abs(a) < Abs(b) then a else b) else 0.0
  }

  /**
   * maxmod: zero unless both arguments are strictly of one sign; otherwise
   * the one of larger magnitude (the first one on a tie).
   */
  function Maxmod(a: real, b: real): real
  {
    if a * b > 0.0 then (if Abs(a) < Abs(b) then b else a) else 0.0
  }

  /**
   * minmod is zero when the product of its arguments is not positive, and
   * otherwise it is one of them, shares their common sign, and has the
   * smaller of their magnitudes.
   */
  lemma MinmodSelects(a: real, b: real)
    ensures a * b <= 0.0 ==> Minmod(a, b) == 0.0
    ensures a * b > 0.0 ==>
      var r := Minmod(a, b);
      (r == a || r == b) && Abs(r) == Min(Abs(a), Abs(b)) &&
      (r > 0.0 <==> a > 0.0) && (r < 0.0 <==> a < 0.0) &&
      Abs(r) <= Abs(a) && Abs(r) <= Abs(b)
  {
    ProductSign(a, b);
  }

  /**
   * maxmod is zero when the product of its arguments is not positive, and
   * otherwise it is one of them, shares their common sign, and has the
   * larger of their magnitudes.
   */
  lemma MaxmodSelects(a: real, b: real)
    ensures a * b <= 0.0 ==> Maxmod(a, b) == 0.0
    ensures a * b > 0.0 ==>
      var r := Maxmod(a, b);
      (r == a || r == b) && Abs(r) == Max(Abs(a), Abs(b)) &&
      (r > 0.0 <==> a > 0.0) && (r < 0.0 <==> a < 0.0)
  {
    ProductSign(a, b);
  }

  /**
   * The superbee slope of the forward difference `num1` and the backward
   * difference `num2`, as the superbee step computes it: two candidate
   * minmods, formed only when `num1 * num2 > 0` and zero otherwise, then
   * their maxmod.
   */
  function SuperbeeOf(num1: real, num2: real): real
  {
    var s1 := if num1 * num2 > 0.0 then (if Abs(num1) < Abs(2.0 * num2) then num1 else 2.0 * num2) else 0.0;
    var s2 := if num1 * num2 > 0.0 then (if Abs(2.0 * num1) < Abs(num2) then 2.0 * num1 else num2) else 0.0;
    if s1 * s2 > 0.0 then (if Abs(s1) < Abs(s2) then s2 else s1) else 0.0
  }

  /** The superbee slope is the maxmod of the two minmods `minmod(num1, 2 num2)` and `minmod(2 num1, num2)`. */
  lemma SuperbeeIsMaxmodOfMinmods(num1: real, num2: real)
    ensures SuperbeeOf(num1, num2) == Maxmod(Minmod(num1, 2.0 * num2), Minmod(2.0 * num1, num2))
  {
    ProductSign(num1, num2);
    ProductSign(num1, 2.0 * num2);
    ProductSign(2.0 * num1, num2);
  }

  /**
   * The superbee slope is zero unless `num1 * num2 > 0`; otherwise it has the
   * sign of `num1` and its magnitude is `min(max(|num1|, |num2|), 2 min(|num1|, |num2|))`,
   * so it lies between the smaller magnitude and both the larger magnitude
   * and twice the smaller one.
   */
  lemma SuperbeeBounds(num1: real, num2: real)
    ensures num1 * num2 <= 0.0 ==> SuperbeeOf(num1, num2) == 0.0
    ensures num1 * num2 > 0.0 ==>
      var r, a, b := SuperbeeOf(num1, num2), Abs(num1), Abs(num2);
      (r > 0.0 <==> num1 > 0.0) && (r < 0.0 <==> num1 < 0.0) &&
      Abs(r) == Min(Max(a, b), 2.0 * Min(a, b)) &&
      Min(a, b) <= Abs(r) <= Max(a, b) && Abs(r) <= 2.0 * Min(a, b)
  {
    SuperbeeIsMaxmodOfMinmods(num1, num2);
    ProductSign(num1, num2);
    var s1, s2 := Minmod(num1, 2.0 * num2), Minmod(2.0 * num1, num2);
    ProductSign(num1, 2.0 * num2);
    ProductSign(2.0 * num1, num2);
    MinmodSelects(num1, 2.0 * num2);
    MinmodSelects(2.0 * num1, num2);
    MaxmodSelects(s1, s2);
    if num1 * num2 > 0.0 {
      ProductSign(s1, s2);
    }
  }

  // ---------------------------------------------------------------------
  // Flux limiters
  // ---------------------------------------------------------------------

  /** The monotonized-central limiter `max(0, min((1 + r)/2, 2, 2r))`. */
  function McPhi(r: real): real
  {
    Max(0.0, Min(Min((1.0 + r) / 2.0, 2.0), 2.0 * r))
  }

  /** The van Leer limiter `(r + |r|) / (1 + |r|)`. */
  function VanLeerPhi(r: real): real
  {
    (r + Abs(r)) / (1.0 + Abs(r))
  }

  /** The MC limiter lies in `[0, 2]` and vanishes for `r <= 0`. */
  lemma McPhiRange(r: real)
    ensures 0.0 <= McPhi(r) <= 2.0
    ensures r <= 0.0 ==> McPhi(r) == 0.0
  {
  }

  /** The van Leer limiter lies in `[0, 2)` and vanishes for `r <= 0`. */
  lemma VanLeerPhiRange(r: real)
    ensures 0.0 <= VanLeerPhi(r) < 2.0
    ensures r <= 0.0 ==> VanLeerPhi(r) == 0.0
  {
  }

  /** For `r > 0` the MC limiter is `2r`, then `(1 + r)/2`, then `2`, with breaks at `1/3` and `3`. */
  lemma McPhiPieces(r: real)
    requires r > 0.0
    ensures r <= 1.0 / 3.0 ==> McPhi(r) == 2.0 * r
    ensures 1.0 / 3.0 <= r <= 3.0 ==> McPhi(r) == (1.0 + r) / 2.0
    ensures 3.0 <= r ==> McPhi(r) == 2.0
  {
  }

  lemma McPhiScaled(r: real, q: real)
    requires r > 0.0 && q > 0.0 && r * q == 1.0
    ensures r * McPhi(q) == McPhi(r)
  {
    McPhiPieces(r);
    McPhiPieces(q);
    // `3 r <= 1` exactly when `q >= 3`, and `r >= 3` exactly when `3 q <= 1`.
    assert q * (3.0 * r) == 3.0;
    assert r * (3.0 * q) == 3.0;
    if r <= 1.0 / 3.0 {
      assert q * (3.0 * r) <= q * 1.0;
    } else if r < 3.0 {
      assert q * (3.0 * r) > q * 1.0;
      assert r * (3.0 * q) > r * 1.0;
      assert r * (1.0 + q) == r + 1.0;
    } else {
      assert r * (3.0 * q) <= r * 1.0;
    }
  }

  /**
   * The MC limiter passes through `phi(1) = 1` and is symmetric:
   * `phi(r) = r * phi(1/r)` for `r > 0`, so it treats forward- and
   * backward-facing gradient ratios alike.
   */
  lemma McPhiSymmetric(r: real)
    requires r > 0.0
    ensures McPhi(1.0) == 1.0
    ensures McPhi(r) == r * McPhi(1.0 / r)
  {
    var q := 1.0 / r;
    assert r * q == 1.0;
    McPhiScaled(r, q);
  }

  /**
   * The van Leer limiter passes through `phi(1) = 1` and is symmetric:
   * `phi(r) = r * phi(1/r)` for `r > 0`.
   */
  lemma VanLeerPhiSymmetric(r: real)
    requires r > 0.0
    ensures VanLeerPhi(1.0) == 1.0
    ensures VanLeerPhi(r) == r * VanLeerPhi(1.0 / r)
  {
    var q := 1.0 / r;
    assert r * q == 1.0;
    assert q > 0.0;
    assert VanLeerPhi(r) == 2.0 * r / (1.0 + r);
    assert VanLeerPhi(q) == 2.0 * q / (1.0 + q);
    assert r * (1.0 + q) == r + 1.0;
    assert r * (2.0 * q / (1.0 + q)) == 2.0 / (1.0 + q);
    assert 2.0 / (1.0 + q) == 2.0 * r / (r * (1.0 + q));
  }

  // ---------------------------------------------------------------------
  // Stencil pieces
  // ---------------------------------------------------------------------

  /** The divided difference `(u[i] - u[i-1]) / delta_x` across the interface left of cell `i`. */
  function Diff(p: Params, u: seq<real>, i: int): real
    requires 1 <= i < |u| && p.deltaX != 0.0
  {
    (u[i] - u[i - 1]) / p.deltaX
  }

  /** The minmod step's slope at cell `i`: minmod of the backward and forward divided differences. */
  function MinmodSlope(p: Params, u: seq<real>, i: int): real
    requires 1 <= i && i + 1 < |u| && p.deltaX != 0.0
  {
    Minmod(Diff(p, u, i), Diff(p, u, i + 1))
  }

  /** The superbee step's slope at cell `i`; its `num1` is the forward and `num2` the backward difference. */
  function SuperbeeSlope(p: Params, u: seq<real>, i: int): real
    requires 1 <= i && i + 1 < |u| && p.deltaX != 0.0
  {
    SuperbeeOf(Diff(p, u, i + 1), Diff(p, u, i))
  }

  /** The denominator of the flux-limiter ratio at interface `i`, biased by `Eps`. */
  function Denominator(u: seq<real>, i: int): real
    requires 1 <= i < |u|
  {
    u[i] - u[i - 1] + Eps
  }

  /** The ratio of consecutive differences that the flux limiters read. */
  function Ratio(u: seq<real>, i: int): real
    requires 2 <= i < |u| && Denominator(u, i) != 0.0
  {
    (u[i - 1] - u[i - 2]) / Denominator(u, i)
  }

  /** The limited flux at interface `i` (between cells `i-1` and `i`) for limiter value `phi`. */
  function LimitedFlux(p: Params, u: seq<real>, i: int, phi: real): real
    requires 1 <= i < |u|
  {
    u[i - 1] + 0.5 * (1.0 - p.sigma) * (u[i] - u[i - 1]) * phi
  }

  function McFlux(p: Params, u: seq<real>, i: int): real
    requires 2 <= i < |u| && Denominator(u, i) != 0.0
  {
    LimitedFlux(p, u, i, McPhi(Ratio(u, i)))
  }

  function VanLeerFlux(p: Params, u: seq<real>, i: int): real
    requires 2 <= i < |u| && Denominator(u, i) != 0.0
  {
    LimitedFlux(p, u, i, VanLeerPhi(Ratio(u, i)))
  }

  /** Upwind: `u[i] - sigma (u[i] - u[i-1])`. */
  function UpwindCell(p: Params, u: seq<real>, i: int): real
    requires 1 <= i < |u|
  {
    u[i] - p.sigma * (u[i] - u[i - 1])
  }

  /** Lax-Wendroff: centred difference plus the `sigma^2 / 2` second-difference correction. */
  function LaxWendroffCell(p: Params, u: seq<real>, i: int): real
    requires 1 <= i && i + 1 < |u|
  {
    u[i] - p.sigma / 2.0 * (u[i + 1] - u[i - 1]) + p.sigma * p.sigma / 2.0 * (u[i + 1] - 2.0 * u[i] + u[i - 1])
  }

  /** Beam-Warming: upwind plus a backward second-difference term scaled by `(delta_x - delta_t)`. */
  function BeamWarmingCell(p: Params, u: seq<real>, i: int): real
    requires 2 <= i < |u| && p.deltaX != 0.0
  {
    u[i] - p.sigma * (u[i] - u[i - 1])
    - p.sigma / 2.0 * ((u[i] - 2.0 * u[i - 1] + u[i - 2]) / p.deltaX) * (p.deltaX - p.deltaT)
  }

  /** Fromm: upwind plus the difference of two centred slopes scaled by `(delta_x - delta_t)`. */
  function FrommCell(p: Params, u: seq<real>, i: int): real
    requires 2 <= i && i + 1 < |u| && p.deltaX != 0.0
  {
    u[i] - p.sigma * (u[i] - u[i - 1])
    - p.sigma / 2.0 * ((u[i + 1] - u[i - 1]) / (2.0 * p.deltaX) - (u[i] - u[i - 2]) / (2.0 * p.deltaX)) * (p.deltaX - p.deltaT)
  }

  /** The update shared by the two slope-limited schemes, given the slopes at `i` and `i-1`. */
  function SlopeUpdate(p: Params, u: seq<real>, i: int, slope: real, slopeLeft: real): real
    requires 1 <= i < |u|
  {
    u[i] - p.sigma * (u[i] - u[i - 1]) - p.sigma / 2.0 * (slope - slopeLeft) * (p.deltaX - p.deltaT)
  }

  /** The update shared by the two flux-limited schemes, given the fluxes at `i+1` and `i`. */
  function FluxUpdate(p: Params, u: seq<real>, i: int, fluxRight: real, fluxLeft: real): real
    requires 0 <= i < |u|
  {
    u[i] - p.sigma * (fluxRight - fluxLeft)
  }

  // ---------------------------------------------------------------------
  // One step of a scheme
  // ---------------------------------------------------------------------

  predicate DividesByDeltaX(s: Scheme)
  {
    s.BeamWarming? || s.Fromm? || s.MinmodLimited? || s.SuperbeeLimited?
  }

  predicate IsFluxLimited(s: Scheme)
  {
    s.McLimited? || s.VanLeerLimited?
  }

  /** The flux-limiter denominators at the interfaces `2..M-2` that the flux pass visits are nonzero. */
  predicate NonzeroDenominators(p: Params, u: seq<real>)
    requires |u| >= p.M
  {
    forall j :: 2 <= j < p.M - 1 ==> Denominator(u, j) != 0.0
  }

  /**
   * What a scheme needs of the current field and the parameters: a field of
   * at least `M` cells, a nonzero `delta_x` where the scheme divides by it,
   * and nonzero ratio denominators for the flux-limited schemes.
   */
  predicate Admissible(s: Scheme, p: Params, u: seq<real>)
  {
    |u| >= p.M &&
    (DividesByDeltaX(s) ==> p.deltaX != 0.0) &&
    (IsFluxLimited(s) ==> NonzeroDenominators(p, u))
  }

  /** The new value of interior cell `i` under scheme `s`, computed from the old field `u`. */
  function Cell(s: Scheme, p: Params, u: seq<real>, i: int): real
    requires Admissible(s, p, u) && 2 <= i < p.M - 2
  {
    match s
    case Upwind => UpwindCell(p, u, i)
    case LaxWendroff => LaxWendroffCell(p, u, i)
    case BeamWarming => BeamWarmingCell(p, u, i)
    case Fromm => FrommCell(p, u, i)
    case MinmodLimited =>
      SlopeUpdate(p, u, i, MinmodSlope(p, u, i), MinmodSlope(p, u, i - 1))
    case SuperbeeLimited =>
      SlopeUpdate(p, u, i, SuperbeeSlope(p, u, i), SuperbeeSlope(p, u, i - 1))
    case McLimited =>
      FluxUpdate(p, u, i, McFlux(p, u, i + 1), McFlux(p, u, i))
    case VanLeerLimited =>
      FluxUpdate(p, u, i, VanLeerFlux(p, u, i + 1), VanLeerFlux(p, u, i))
  }

  /**
   * The field a step of scheme `s` leaves behind: the buffer `uNew` passed in,
   * with its interior cells `2..M-3` replaced by the scheme's new values.
   */
  function Step(s: Scheme, p: Params, u: seq<real>, uNew: seq<real>): (r: seq<real>)
    requires Admissible(s, p, u) && |uNew| >= p.M
    ensures |r| == |uNew|
  {
    seq(|uNew|, i requires 0 <= i < |uNew| => if 2 <= i < p.M - 2 then Cell(s, p, u, i) else uNew[i])
  }

  // The second pass of a limited scheme: its cell value from the scratch values of the first pass.

  lemma MinmodCellFromSlopes(p: Params, u: seq<real>, i: int, slope: real, slopeLeft: real)
    requires Admissible(MinmodLimited, p, u) && 2 <= i < p.M - 2
    requires slope == MinmodSlope(p, u, i) && slopeLeft == MinmodSlope(p, u, i - 1)
    ensures Cell(MinmodLimited, p, u, i) == SlopeUpdate(p, u, i, slope, slopeLeft)
  {
  }

  lemma SuperbeeCellFromSlopes(p: Params, u: seq<real>, i: int, slope: real, slopeLeft: real)
    requires Admissible(SuperbeeLimited, p, u) && 2 <= i < p.M - 2
    requires slope == SuperbeeSlope(p, u, i) && slopeLeft == SuperbeeSlope(p, u, i - 1)
    ensures Cell(SuperbeeLimited, p, u, i) == SlopeUpdate(p, u, i, slope, slopeLeft)
  {
  }

  lemma McCellFromFluxes(p: Params, u: seq<real>, i: int, fluxRight: real, fluxLeft: real)
    requires Admissible(McLimited, p, u) && 2 <= i < p.M - 2
    requires fluxRight == McFlux(p, u, i + 1) && fluxLeft == McFlux(p, u, i)
    ensures Cell(McLimited, p, u, i) == FluxUpdate(p, u, i, fluxRight, fluxLeft)
  {
  }

  lemma VanLeerCellFromFluxes(p: Params, u: seq<real>, i: int, fluxRight: real, fluxLeft: real)
    requires Admissible(VanLeerLimited, p, u) && 2 <= i < p.M - 2
    requires fluxRight == VanLeerFlux(p, u, i + 1) && fluxLeft == VanLeerFlux(p, u, i)
    ensures Cell(VanLeerLimited, p, u, i) == FluxUpdate(p, u, i, fluxRight, fluxLeft)
  {
  }

  // ---------------------------------------------------------------------
  // Properties of one step
  // ---------------------------------------------------------------------

  /** Every cell outside the interior `2..M-3` of the result is the passed-in buffer's. */
  lemma StepKeepsBoundary(s: Scheme, p: Params, u: seq<real>, uNew: seq<real>, i: int)
    requires Admissible(s, p, u) && |uNew| >= p.M
    requires 0 <= i < |uNew| && !(2 <= i < p.M - 2)
    ensures Step(s, p, u, uNew)[i] == uNew[i]
  {
  }

  lemma DiffWindow(p: Params, u: seq<real>, v: seq<real>, j: int)
    requires 1 <= j < |u| && j < |v| && p.deltaX != 0.0 && u[j] == v[j] && u[j - 1] == v[j - 1]
    ensures Diff(p, u, j) == Diff(p, v, j)
  {
  }

  lemma SlopeUpdateWindow(p: Params, u: seq<real>, v: seq<real>, i: int, slope: real, slopeLeft: real)
    requires 1 <= i < |u| && i < |v| && u[i] == v[i] && u[i - 1] == v[i - 1]
    ensures SlopeUpdate(p, u, i, slope, slopeLeft) == SlopeUpdate(p, v, i, slope, slopeLeft)
  {
  }

  lemma FluxUpdateWindow(p: Params, u: seq<real>, v: seq<real>, i: int, fluxRight: real, fluxLeft: real)
    requires 0 <= i < |u| && i < |v| && u[i] == v[i]
    ensures FluxUpdate(p, u, i, fluxRight, fluxLeft) == FluxUpdate(p, v, i, fluxRight, fluxLeft)
  {
  }

  /** The flux-limiter ratio and the limited flux at interface `i` read only cells `i-2..i`. */
  lemma FluxWindow(p: Params, u: seq<real>, v: seq<real>, i: int)
    requires 2 <= i < |u| && i < |v| && Denominator(u, i) != 0.0
    requires u[i - 2] == v[i - 2] && u[i - 1] == v[i - 1] && u[i] == v[i]
    ensures Denominator(v, i) != 0.0 && Ratio(u, i) == Ratio(v, i)
    ensures forall phi :: LimitedFlux(p, u, i, phi) == LimitedFlux(p, v, i, phi)
  {
  }

  /** Both slope functions at cell `i` read only cells `i-1..i+1`. */
  lemma SlopeWindow(p: Params, u: seq<real>, v: seq<real>, i: int)
    requires 1 <= i && i + 1 < |u| && i + 1 < |v| && p.deltaX != 0.0
    requires u[i - 1] == v[i - 1] && u[i] == v[i] && u[i + 1] == v[i + 1]
    ensures MinmodSlope(p, u, i) == MinmodSlope(p, v, i)
    ensures SuperbeeSlope(p, u, i) == SuperbeeSlope(p, v, i)
  {
    DiffWindow(p, u, v, i);
    DiffWindow(p, u, v, i + 1);
  }

  /** The four unlimited stencils read only cells `i-2..i+1`. */
  lemma UnlimitedCellWindow(s: Scheme, p: Params, u: seq<real>, v: seq<real>, i: int)
    requires !IsFluxLimited(s) && !s.MinmodLimited? && !s.SuperbeeLimited?
    requires Admissible(s, p, u) && Admissible(s, p, v) && 2 <= i < p.M - 2
    requires u[i - 2] == v[i - 2] && u[i - 1] == v[i - 1] && u[i] == v[i] && u[i + 1] == v[i + 1]
    ensures Cell(s, p, u, i) == Cell(s, p, v, i)
  {
  }

  /** The two slope-limited updates read only cells `i-2..i+1`. */
  lemma SlopeLimitedCellWindow(s: Scheme, p: Params, u: seq<real>, v: seq<real>, i: int)
    requires s.MinmodLimited? || s.SuperbeeLimited?
    requires Admissible(s, p, u) && Admissible(s, p, v) && 2 <= i < p.M - 2
    requires u[i - 2] == v[i - 2] && u[i - 1] == v[i - 1] && u[i] == v[i] && u[i + 1] == v[i + 1]
    ensures Cell(s, p, u, i) == Cell(s, p, v, i)
  {
    SlopeWindow(p, u, v, i - 1);
    SlopeWindow(p, u, v, i);
    if s.MinmodLimited? {
      SlopeUpdateWindow(p, u, v, i, MinmodSlope(p, u, i), MinmodSlope(p, u, i - 1));
    } else {
      SlopeUpdateWindow(p, u, v, i, SuperbeeSlope(p, u, i), SuperbeeSlope(p, u, i - 1));
    }
  }

  /** The two flux-limited updates read only cells `i-2..i+1`. */
  lemma FluxLimitedCellWindow(s: Scheme, p: Params, u: seq<real>, v: seq<real>, i: int)
    requires IsFluxLimited(s)
    requires Admissible(s, p, u) && Admissible(s, p, v) && 2 <= i < p.M - 2
    requires u[i - 2] == v[i - 2] && u[i - 1] == v[i - 1] && u[i] == v[i] && u[i + 1] == v[i + 1]
    ensures Cell(s, p, u, i) == Cell(s, p, v, i)
  {
    FluxWindow(p, u, v, i);
    FluxWindow(p, u, v, i + 1);
    if s.McLimited? {
      FluxUpdateWindow(p, u, v, i, McFlux(p, u, i + 1), McFlux(p, u, i));
    } else {
      FluxUpdateWindow(p, u, v, i, VanLeerFlux(p, u, i + 1), VanLeerFlux(p, u, i));
    }
  }

  /**
   * Every scheme computes cell `i` from the old cells `i-2..i+1` only: two
   * admissible fields that agree there give the same new value.
   */
  lemma CellWindow(s: Scheme, p: Params, u: seq<real>, v: seq<real>, i: int)
    requires Admissible(s, p, u) && Admissible(s, p, v) && 2 <= i < p.M - 2
    requires forall j :: i - 2 <= j <= i + 1 ==> u[j] == v[j]
    ensures Cell(s, p, u, i) == Cell(s, p, v, i)
  {
    assert u[i - 2] == v[i - 2] && u[i - 1] == v[i - 1] && u[i] == v[i] && u[i + 1] == v[i + 1];
    if IsFluxLimited(s) {
      FluxLimitedCellWindow(s, p, u, v, i);
    } else if s.MinmodLimited? || s.SuperbeeLimited? {
      SlopeLimitedCellWindow(s, p, u, v, i);
    } else {
      UnlimitedCellWindow(s, p, u, v, i);
    }
  }

  /**
   * No scheme reads the old field beyond index `M-2` (so never `u[M-1]`):
   * two admissible fields that agree on `0..M-2` give the same step.
   */
  lemma StepReadsUpToMMinus2(s: Scheme, p: Params, u: seq<real>, v: seq<real>, uNew: seq<real>)
    requires Admissible(s, p, u) && Admissible(s, p, v) && |uNew| >= p.M
    requires forall j :: 0 <= j < p.M - 1 ==> u[j] == v[j]
    ensures Step(s, p, u, uNew) == Step(s, p, v, uNew)
  {
    forall i | 2 <= i < p.M - 2
      ensures Cell(s, p, u, i) == Cell(s, p, v, i)
    {
      CellWindow(s, p, u, v, i);
    }
  }

  predicate IsConstant(u: seq<real>, c: real)
  {
    forall j :: 0 <= j < |u| ==> u[j] == c
  }

  lemma ConstantDiff(p: Params, u: seq<real>, c: real, j: int)
    requires IsConstant(u, c) && 1 <= j < |u| && p.deltaX != 0.0
    ensures Diff(p, u, j) == 0.0
  {
    assert u[j] == c && u[j - 1] == c;
  }

  lemma ConstantFlux(p: Params, u: seq<real>, c: real, j: int, phi: real)
    requires IsConstant(u, c) && 1 <= j < |u|
    ensures LimitedFlux(p, u, j, phi) == c
  {
    assert u[j] == c && u[j - 1] == c;
  }

  lemma SlopeUpdateOfEqual(p: Params, u: seq<real>, i: int, slope: real)
    requires 1 <= i < |u| && u[i] == u[i - 1]
    ensures SlopeUpdate(p, u, i, slope, slope) == u[i]
  {
  }

  lemma FluxUpdateOfEqual(p: Params, u: seq<real>, i: int, flux: real)
    requires 0 <= i < |u|
    ensures FluxUpdate(p, u, i, flux, flux) == u[i]
  {
  }

  /** Every scheme maps a constant neighbourhood to the same constant. */
  lemma ConstantCell(s: Scheme, p: Params, u: seq<real>, c: real, i: int)
    requires Admissible(s, p, u) && IsConstant(u, c) && 2 <= i < p.M - 2
    ensures Cell(s, p, u, i) == c
  {
    assert u[i - 2] == c && u[i - 1] == c && u[i] == c && u[i + 1] == c;
    match s
    case Upwind =>
      assert UpwindCell(p, u, i) == c - p.sigma * 0.0;
    case LaxWendroff =>
      assert LaxWendroffCell(p, u, i) == c - p.sigma / 2.0 * 0.0 + p.sigma * p.sigma / 2.0 * 0.0;
    case BeamWarming =>
      assert BeamWarmingCell(p, u, i) == c - p.sigma * 0.0 - p.sigma / 2.0 * (0.0 / p.deltaX) * (p.deltaX - p.deltaT);
    case Fromm =>
      assert FrommCell(p, u, i) == c - p.sigma * 0.0 - p.sigma / 2.0 * (0.0 / (2.0 * p.deltaX) - 0.0 / (2.0 * p.deltaX)) * (p.deltaX - p.deltaT);
    case MinmodLimited =>
      ConstantDiff(p, u, c, i - 1);
      ConstantDiff(p, u, c, i);
      ConstantDiff(p, u, c, i + 1);
      assert MinmodSlope(p, u, i) == 0.0 && MinmodSlope(p, u, i - 1) == 0.0;
      SlopeUpdateOfEqual(p, u, i, 0.0);
    case SuperbeeLimited =>
      ConstantDiff(p, u, c, i - 1);
      ConstantDiff(p, u, c, i);
      ConstantDiff(p, u, c, i + 1);
      assert SuperbeeSlope(p, u, i) == 0.0 && SuperbeeSlope(p, u, i - 1) == 0.0;
      SlopeUpdateOfEqual(p, u, i, 0.0);
    case McLimited =>
      ConstantFlux(p, u, c, i, McPhi(Ratio(u, i)));
      ConstantFlux(p, u, c, i + 1, McPhi(Ratio(u, i + 1)));
      FluxUpdateOfEqual(p, u, i, c);
    case VanLeerLimited =>
      ConstantFlux(p, u, c, i, VanLeerPhi(Ratio(u, i)));
      ConstantFlux(p, u, c, i + 1, VanLeerPhi(Ratio(u, i + 1)));
      FluxUpdateOfEqual(p, u, i, c);
  }

  /** A constant field is admissible for every scheme, and every scheme keeps each interior cell at that constant. */
  lemma ConstantFieldIsSteady(s: Scheme, p: Params, u: seq<real>, c: real, uNew: seq<real>)
    requires |u| >= p.M && |uNew| >= p.M && IsConstant(u, c)
    requires DividesByDeltaX(s) ==> p.deltaX != 0.0
    ensures Admissible(s, p, u)
    ensures forall i :: 2 <= i < p.M - 2 ==> Step(s, p, u, uNew)[i] == c
  {
    forall j | 2 <= j < p.M - 1
      ensures Denominator(u, j) != 0.0
    {
      assert u[j] == c && u[j - 1] == c;
    }
    forall i | 2 <= i < p.M - 2
      ensures Step(s, p, u, uNew)[i] == c
    {
      ConstantCell(s, p, u, c, i);
    }
  }

  /**
   * With Courant number 1, upwind, Lax-Wendroff, MC and van Leer each shift
   * the field one cell to the right on the interior: the new cell `i` is the
   * old cell `i-1`.
   */
  lemma UnitCourantShifts(s: Scheme, p: Params, u: seq<real>, uNew: seq<real>)
    requires s.Upwind? || s.LaxWendroff? || s.McLimited? || s.VanLeerLimited?
    requires Admissible(s, p, u) && |uNew| >= p.M && p.sigma == 1.0
    ensures forall i :: 2 <= i < p.M - 2 ==> Step(s, p, u, uNew)[i] == u[i - 1]
  {
    forall i | 2 <= i < p.M - 2
      ensures Cell(s, p, u, i) == u[i - 1]
    {
      match s
      case McLimited =>
        assert McFlux(p, u, i) == u[i - 1];
        assert McFlux(p, u, i + 1) == u[i];
      case VanLeerLimited =>
        assert VanLeerFlux(p, u, i) == u[i - 1];
        assert VanLeerFlux(p, u, i + 1) == u[i];
      case _ =>
    }
  }

  /** The worked example: seven cells, a unit step at cell 3, `sigma = 0.5`, `delta_x = 1`, `delta_t = 0.5`. */
  lemma StepExample(uNew: seq<real>)
    requires |uNew| == 7
    ensures Step(Upwind, Params(7, 0.5, 1.0, 0.5), [0.0, 0.0, 0.0, 1.0, 1.0, 1.0, 1.0], uNew)[2..5]
         == [0.0, 0.5, 1.0]
    ensures Step(LaxWendroff, Params(7, 0.5, 1.0, 0.5), [0.0, 0.0, 0.0, 1.0, 1.0, 1.0, 1.0], uNew)[2..5]
         == [-0.125, 0.625, 1.0]
  {
    var p, u := Params(7, 0.5, 1.0, 0.5), [0.0, 0.0, 0.0, 1.0, 1.0, 1.0, 1.0];
    assert Step(Upwind, p, u, uNew)[2..5] == [Cell(Upwind, p, u, 2), Cell(Upwind, p, u, 3), Cell(Upwind, p, u, 4)];
    assert Step(LaxWendroff, p, u, uNew)[2..5]
        == [Cell(LaxWendroff, p, u, 2), Cell(LaxWendroff, p, u, 3), Cell(LaxWendroff, p, u, 4)];
  }

  // ---------------------------------------------------------------------
  // Conservation: every scheme is a difference of interface fluxes
  // ---------------------------------------------------------------------

  /** The total of the cells `lo..hi-1` of `s`. */
  function Sum(s: seq<real>, lo: int, hi: int): real
    requires 0 <= lo <= hi <= |s|
    decreases hi - lo
  {
    if lo == hi then 0.0 else Sum(s, lo, hi - 1) + s[hi - 1]
  }

  /**
   * The cells `lo..hi-1` of `a` add up to those of `b` less `k` times the
   * net flux, `outflow - inflow`, through the two ends of the range.
   */
  predicate Balanced(a: seq<real>, b: seq<real>, lo: int, hi: int, k: real, inflow: real, outflow: real)
    requires 0 <= lo <= hi <= |a| && hi <= |b|
  {
    Sum(a, lo, hi) == Sum(b, lo, hi) - k * (outflow - inflow)
  }

  /**
   * Extending a balanced range by one cell whose new value is the old one
   * less `sigma` times the flux difference across it keeps it balanced,
   * with the new right-hand interface as the outflow.
   */
  lemma BalancedExtend(p: Params, a: seq<real>, b: seq<real>, lo: int, hi: int, inflow: real, outflow: real, outflow': real)
    requires 0 <= lo < hi <= |a| && hi <= |b|
    requires Balanced(a, b, lo, hi - 1, p.sigma, inflow, outflow)
    requires a[hi - 1] == FluxUpdate(p, b, hi - 1, outflow', outflow)
    ensures Balanced(a, b, lo, hi, p.sigma, inflow, outflow')
  {
  }

  /** Upwind's flux at interface `i` (between cells `i-1` and `i`): the upwind cell. */
  function UpwindFlux(u: seq<real>, i: int): real
    requires 1 <= i <= |u|
  {
    u[i - 1]
  }

  /** Lax-Wendroff's flux at interface `i`: the mean of the two cells less `sigma/2` times their difference. */
  function LaxWendroffFlux(p: Params, u: seq<real>, i: int): real
    requires 1 <= i < |u|
  {
    0.5 * (u[i - 1] + u[i]) - p.sigma / 2.0 * (u[i] - u[i - 1])
  }

  /** Beam-Warming's flux at interface `i`, from the backward difference at cell `i-1`. */
  function BeamWarmingFlux(p: Params, u: seq<real>, i: int): real
    requires 2 <= i <= |u| && p.deltaX != 0.0
  {
    u[i - 1] + 0.5 * ((u[i - 1] - u[i - 2]) / p.deltaX) * (p.deltaX - p.deltaT)
  }

  /** Fromm's flux at interface `i`, from the centred slope at cell `i-1`. */
  function FrommFlux(p: Params, u: seq<real>, i: int): real
    requires 2 <= i < |u| && p.deltaX != 0.0
  {
    u[i - 1] + 0.5 * ((u[i] - u[i - 2]) / (2.0 * p.deltaX)) * (p.deltaX - p.deltaT)
  }

  /** The slope-limited schemes' flux at interface `i`, from the slope of cell `i-1`. */
  function SlopeFlux(p: Params, u: seq<real>, i: int, slopeLeft: real): real
    requires 1 <= i <= |u|
  {
    u[i - 1] + 0.5 * slopeLeft * (p.deltaX - p.deltaT)
  }

  /**
   * The numerical flux of scheme `s` at interface `i` (between cells `i-1`
   * and `i`), for the interfaces `2..M-2` that bound the interior.
   */
  function NumericalFlux(s: Scheme, p: Params, u: seq<real>, i: int): real
    requires Admissible(s, p, u) && 2 <= i <= p.M - 2
  {
    match s
    case Upwind => UpwindFlux(u, i)
    case LaxWendroff => LaxWendroffFlux(p, u, i)
    case BeamWarming => BeamWarmingFlux(p, u, i)
    case Fromm => FrommFlux(p, u, i)
    case MinmodLimited => SlopeFlux(p, u, i, MinmodSlope(p, u, i - 1))
    case SuperbeeLimited => SlopeFlux(p, u, i, SuperbeeSlope(p, u, i - 1))
    case McLimited => McFlux(p, u, i)
    case VanLeerLimited => VanLeerFlux(p, u, i)
  }

  lemma UpwindIsFluxUpdate(p: Params, u: seq<real>, i: int)
    requires 1 <= i < |u|
    ensures UpwindCell(p, u, i) == FluxUpdate(p, u, i, UpwindFlux(u, i + 1), UpwindFlux(u, i))
  {
  }

  lemma LaxWendroffIsFluxUpdate(p: Params, u: seq<real>, i: int)
    requires 1 <= i && i + 1 < |u|
    ensures LaxWendroffCell(p, u, i) == FluxUpdate(p, u, i, LaxWendroffFlux(p, u, i + 1), LaxWendroffFlux(p, u, i))
  {
  }

  lemma BeamWarmingIsFluxUpdate(p: Params, u: seq<real>, i: int)
    requires 2 <= i < |u| && p.deltaX != 0.0
    ensures BeamWarmingCell(p, u, i) == FluxUpdate(p, u, i, BeamWarmingFlux(p, u, i + 1), BeamWarmingFlux(p, u, i))
  {
  }

  lemma FrommIsFluxUpdate(p: Params, u: seq<real>, i: int)
    requires 2 <= i && i + 1 < |u| && p.deltaX != 0.0
    ensures FrommCell(p, u, i) == FluxUpdate(p, u, i, FrommFlux(p, u, i + 1), FrommFlux(p, u, i))
  {
  }

  lemma SlopeUpdateIsFluxUpdate(p: Params, u: seq<real>, i: int, slope: real, slopeLeft: real)
    requires 1 <= i < |u|
    ensures SlopeUpdate(p, u, i, slope, slopeLeft)
         == FluxUpdate(p, u, i, SlopeFlux(p, u, i + 1, slope), SlopeFlux(p, u, i, slopeLeft))
  {
  }

  /**
   * Every scheme updates cell `i` in conservation form: the old cell minus
   * `sigma` times the difference of the numerical fluxes at its two
   * interfaces.
   */
  lemma CellIsFluxDifference(s: Scheme, p: Params, u: seq<real>, i: int)
    requires Admissible(s, p, u) && 2 <= i < p.M - 2
    ensures Cell(s, p, u, i) == FluxUpdate(p, u, i, NumericalFlux(s, p, u, i + 1), NumericalFlux(s, p, u, i))
  {
    match s
    case Upwind => UpwindIsFluxUpdate(p, u, i);
    case LaxWendroff => LaxWendroffIsFluxUpdate(p, u, i);
    case BeamWarming => BeamWarmingIsFluxUpdate(p, u, i);
    case Fromm => FrommIsFluxUpdate(p, u, i);
    case MinmodLimited =>
      SlopeUpdateIsFluxUpdate(p, u, i, MinmodSlope(p, u, i), MinmodSlope(p, u, i - 1));
    case SuperbeeLimited =>
      SlopeUpdateIsFluxUpdate(p, u, i, SuperbeeSlope(p, u, i), SuperbeeSlope(p, u, i - 1));
    case McLimited =>
    case VanLeerLimited =>
  }

  /** The numerical fluxes of scheme `s` at the interfaces `2..M-2`, indexed by interface. */
  function InterfaceFluxes(s: Scheme, p: Params, u: seq<real>): (f: seq<real>)
    requires Admissible(s, p, u) && p.M >= 4
    ensures |f| == p.M - 1
  {
    seq(p.M - 1, i requires 0 <= i < p.M - 1 => if 2 <= i then NumericalFlux(s, p, u, i) else 0.0)
  }

  lemma StepCellIsFluxDifference(s: Scheme, p: Params, u: seq<real>, uNew: seq<real>, i: int)
    requires Admissible(s, p, u) && |uNew| >= p.M && 2 <= i < p.M - 2
    ensures Step(s, p, u, uNew)[i] == FluxUpdate(p, u, i, InterfaceFluxes(s, p, u)[i + 1], InterfaceFluxes(s, p, u)[i])
  {
    CellIsFluxDifference(s, p, u, i);
  }

  /**
   * One step keeps the total of the interior cells `2..hi-1` up to `sigma`
   * times the flux through interface `hi` minus the flux through interface `2`.
   */
  lemma {:induction false} StepTelescopes(s: Scheme, p: Params, u: seq<real>, uNew: seq<real>, hi: int)
    requires Admissible(s, p, u) && |uNew| >= p.M && p.M >= 4 && 2 <= hi <= p.M - 2
    ensures Balanced(Step(s, p, u, uNew), u, 2, hi, p.sigma, InterfaceFluxes(s, p, u)[2], InterfaceFluxes(s, p, u)[hi])
    decreases hi
  {
    if hi > 2 {
      StepTelescopes(s, p, u, uNew, hi - 1);
      StepCellIsFluxDifference(s, p, u, uNew, hi - 1);
      BalancedExtend(p, Step(s, p, u, uNew), u, 2, hi, InterfaceFluxes(s, p, u)[2], InterfaceFluxes(s, p, u)[hi - 1], InterfaceFluxes(s, p, u)[hi]);
    }
  }

  /**
   * Discrete conservation: the new cells `2..M-3` add up to the old ones less
   * `sigma` times the outflow at interface `M-2` minus the inflow at interface `2`.
   */
  lemma StepConserves(s: Scheme, p: Params, u: seq<real>, uNew: seq<real>)
    requires Admissible(s, p, u) && |uNew| >= p.M && p.M >= 4
    ensures Balanced(Step(s, p, u, uNew), u, 2, p.M - 2, p.sigma, NumericalFlux(s, p, u, 2), NumericalFlux(s, p, u, p.M - 2))
  {
    StepTelescopes(s, p, u, uNew, p.M - 2);
    var f := InterfaceFluxes(s, p, u);
    assert f[2] == NumericalFlux(s, p, u, 2) && f[p.M - 2] == NumericalFlux(s, p, u, p.M - 2);
  }
}
