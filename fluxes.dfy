/**
 * The `fluxes` object: four fixed parameters, the current field `u`, and the
 * scratch buffers `slope` and `flux`, with one method per one-step scheme.
 *
 * Each step method receives the output buffer by value: the caller's
 * sequence is never changed. The method overwrites the interior cells
 * `2..M-3` of its own copy, reading only the old field (and, for the
 * limited schemes, the scratch entries it has just written), and then
 * adopts that copy as its new current field.
 */
module Fluxes {
  import opened Stencils

  class Fluxes {
    const M: int
    const deltaT: real
    const deltaX: real
    const sigma: real

    /** The current field. */
    var u: seq<real>
    /** Scratch slopes of the slope-limited schemes, one per cell. */
    var slope: array<real>
    /** Scratch interface fluxes of the flux-limited schemes; entry `i` is the flux at `i - 1/2`. */
    var flux: array<real>

    function Parameters(): Params
    {
      Params(M, deltaT, deltaX, sigma)
    }

    /**
     * Records the four parameters. The buffers start empty; the driver that
     * owns the object fills `u` and sizes `slope` and `flux`.
     */
    constructor (M: int, deltaT: real, deltaX: real, sigma: real)
      ensures this.M == M && this.deltaT == deltaT && this.deltaX == deltaX && this.sigma == sigma
      ensures u == [] && fresh(slope) && slope.Length == 0 && fresh(flux) && flux.Length == 0
    {
      this.M := M;
      this.deltaT := deltaT;
      this.deltaX := deltaX;
      this.sigma := sigma;
      u := [];
      slope := new real[0];
      flux := new real[0];
    }

    /** First-order upwind step. */
    method Upwind(uNew: seq<real>)
      requires |u| >= M && |uNew| >= M
      modifies this`u
      ensures u == Step(Scheme.Upwind, Parameters(), old(u), uNew)
      ensures |u| == |uNew| && forall j :: 0 <= j < |uNew| && !(2 <= j < M - 2) ==> u[j] == uNew[j]
    {
      var next := uNew;
      var i := 2;
      while i < M - 2
        invariant 2 <= i && (i <= M - 2 || i == 2)
        invariant |next| == |uNew|
        invariant forall j :: 2 <= j < i ==> next[j] == Cell(Scheme.Upwind, Parameters(), u, j)
        invariant forall j :: 0 <= j < |uNew| && !(2 <= j < i) ==> next[j] == uNew[j]
      {
        next := next[i := UpwindCell(Parameters(), u, i)];
        i := i + 1;
      }
      u := next;
    }

    /** Lax-Wendroff step. */
    method LaxWendroff(uNew: seq<real>)
      requires |u| >= M && |uNew| >= M
      modifies this`u
      ensures u == Step(Scheme.LaxWendroff, Parameters(), old(u), uNew)
      ensures |u| == |uNew| && forall j :: 0 <= j < |uNew| && !(2 <= j < M - 2) ==> u[j] == uNew[j]
    {
      var next := uNew;
      var i := 2;
      while i < M - 2
        invariant 2 <= i && (i <= M - 2 || i == 2)
        invariant |next| == |uNew|
        invariant forall j :: 2 <= j < i ==> next[j] == Cell(Scheme.LaxWendroff, Parameters(), u, j)
        invariant forall j :: 0 <= j < |uNew| && !(2 <= j < i) ==> next[j] == uNew[j]
      {
        next := next[i := LaxWendroffCell(Parameters(), u, i)];
        i := i + 1;
      }
      u := next;
    }

    /** Beam-Warming step. */
    method BeamWarming(uNew: seq<real>)
      requires |u| >= M && |uNew| >= M && deltaX != 0.0
      modifies this`u
      ensures u == Step(Scheme.BeamWarming, Parameters(), old(u), uNew)
      ensures |u| == |uNew| && forall j :: 0 <= j < |uNew| && !(2 <= j < M - 2) ==> u[j] == uNew[j]
    {
      var next := uNew;
      var i := 2;
      while i < M - 2
        invariant 2 <= i && (i <= M - 2 || i == 2)
        invariant |next| == |uNew|
        invariant forall j :: 2 <= j < i ==> next[j] == Cell(Scheme.BeamWarming, Parameters(), u, j)
        invariant forall j :: 0 <= j < |uNew| && !(2 <= j < i) ==> next[j] == uNew[j]
      {
        next := next[i := BeamWarmingCell(Parameters(), u, i)];
        i := i + 1;
      }
      u := next;
    }

    /** Fromm step. */
    method Fromm(uNew: seq<real>)
      requires |u| >= M && |uNew| >= M && deltaX != 0.0
      modifies this`u
      ensures u == Step(Scheme.Fromm, Parameters(), old(u), uNew)
      ensures |u| == |uNew| && forall j :: 0 <= j < |uNew| && !(2 <= j < M - 2) ==> u[j] == uNew[j]
    {
      var next := uNew;
      var i := 2;
      while i < M - 2
        invariant 2 <= i && (i <= M - 2 || i == 2)
        invariant |next| == |uNew|
        invariant forall j :: 2 <= j < i ==> next[j] == Cell(Scheme.Fromm, Parameters(), u, j)
        invariant forall j :: 0 <= j < |uNew| && !(2 <= j < i) ==> next[j] == uNew[j]
      {
        next := next[i := FrommCell(Parameters(), u, i)];
        i := i + 1;
      }
      u := next;
    }

    /**
     * Slope-limited step: fills `slope[1..M-3]` with the minmod slopes of
     * the old field, then updates the interior from them.
     */
    method Minmod(uNew: seq<real>)
      requires |u| >= M && |uNew| >= M && slope.Length >= M && deltaX != 0.0
      modifies this`u, slope
      ensures u == Step(Scheme.MinmodLimited, Parameters(), old(u), uNew)
      ensures |u| == |uNew| && forall j :: 0 <= j < |uNew| && !(2 <= j < M - 2) ==> u[j] == uNew[j]
      ensures forall j :: 1 <= j < M - 2 ==> slope[j] == MinmodSlope(Parameters(), old(u), j)
      ensures forall j :: 0 <= j < slope.Length && !(1 <= j < M - 2) ==> slope[j] == old(slope[j])
    {
      var i := 1;
      while i < M - 2
        invariant 1 <= i && (i <= M - 2 || i == 1)
        invariant forall j :: 1 <= j < i ==> slope[j] == MinmodSlope(Parameters(), u, j)
        invariant forall j :: 0 <= j < slope.Length && !(1 <= j < i) ==> slope[j] == old(slope[j])
        modifies slope
      {
        var num1 := (u[i] - u[i - 1]) / deltaX;
        var num2 := (u[i + 1] - u[i]) / deltaX;
        if num1 * num2 > 0.0 {
          if Abs(num1) < Abs(num2) {
            slope[i] := num1;
          } else {
            slope[i] := num2;
          }
        } else {
          slope[i] := 0.0;
        }
        i := i + 1;
      }
      var next := uNew;
      i := 2;
      while i < M - 2
        invariant 2 <= i && (i <= M - 2 || i == 2)
        invariant |next| == |uNew|
        invariant forall j :: 2 <= j < i ==> next[j] == Cell(Scheme.MinmodLimited, Parameters(), u, j)
        invariant forall j :: 0 <= j < |uNew| && !(2 <= j < i) ==> next[j] == uNew[j]
        modifies {}
      {
        MinmodCellFromSlopes(Parameters(), u, i, slope[i], slope[i - 1]);
        next := next[i := SlopeUpdate(Parameters(), u, i, slope[i], slope[i - 1])];
        i := i + 1;
      }
      u := next;
    }

    /**
     * Slope-limited step: fills `slope[1..M-3]` with the superbee slopes of
     * the old field (the maxmod of two minmods), then updates the interior
     * from them.
     */
    method Superbee(uNew: seq<real>)
      requires |u| >= M && |uNew| >= M && slope.Length >= M && deltaX != 0.0
      modifies this`u, slope
      ensures u == Step(Scheme.SuperbeeLimited, Parameters(), old(u), uNew)
      ensures |u| == |uNew| && forall j :: 0 <= j < |uNew| && !(2 <= j < M - 2) ==> u[j] == uNew[j]
      ensures forall j :: 1 <= j < M - 2 ==> slope[j] == SuperbeeSlope(Parameters(), old(u), j)
      ensures forall j :: 0 <= j < slope.Length && !(1 <= j < M - 2) ==> slope[j] == old(slope[j])
    {
      var i := 1;
      while i < M - 2
        invariant 1 <= i && (i <= M - 2 || i == 1)
        invariant forall j :: 1 <= j < i ==> slope[j] == SuperbeeSlope(Parameters(), u, j)
        invariant forall j :: 0 <= j < slope.Length && !(1 <= j < i) ==> slope[j] == old(slope[j])
        modifies slope
      {
        var num1 := (u[i + 1] - u[i]) / deltaX;
        var num2 := (u[i] - u[i - 1]) / deltaX;
        assert num1 == Diff(Parameters(), u, i + 1) && num2 == Diff(Parameters(), u, i);
        var s1 := 0.0;
        var s2 := 0.0;
        if num1 * num2 > 0.0 {
          if Abs(num1) < Abs(2.0 * num2) {
            s1 := num1;
          } else {
            s1 := 2.0 * num2;
          }
          if Abs(2.0 * num1) < Abs(num2) {
            s2 := 2.0 * num1;
          } else {
            s2 := num2;
          }
        }
        slope[i] := 0.0;
        if s1 * s2 > 0.0 {
          if Abs(s1) < Abs(s2) {
            slope[i] := s2;
          } else {
            slope[i] := s1;
          }
        }
        assert slope[i] == SuperbeeOf(num1, num2);
        i := i + 1;
      }
      var next := uNew;
      i := 2;
      while i < M - 2
        invariant 2 <= i && (i <= M - 2 || i == 2)
        invariant |next| == |uNew|
        invariant forall j :: 2 <= j < i ==> next[j] == Cell(Scheme.SuperbeeLimited, Parameters(), u, j)
        invariant forall j :: 0 <= j < |uNew| && !(2 <= j < i) ==> next[j] == uNew[j]
        modifies {}
      {
        SuperbeeCellFromSlopes(Parameters(), u, i, slope[i], slope[i - 1]);
        next := next[i := SlopeUpdate(Parameters(), u, i, slope[i], slope[i - 1])];
        i := i + 1;
      }
      u := next;
    }

    /**
     * Flux-limited step: fills `flux[2..M-2]` with the MC-limited interface
     * fluxes of the old field, then updates the interior from them.
     */
    method Mc(uNew: seq<real>)
      requires |u| >= M && |uNew| >= M && flux.Length >= M
      requires NonzeroDenominators(Parameters(), u)
      modifies this`u, flux
      ensures u == Step(Scheme.McLimited, Parameters(), old(u), uNew)
      ensures |u| == |uNew| && forall j :: 0 <= j < |uNew| && !(2 <= j < M - 2) ==> u[j] == uNew[j]
      ensures forall j :: 2 <= j < M - 1 ==> flux[j] == McFlux(Parameters(), old(u), j)
      ensures forall j :: 0 <= j < flux.Length && !(2 <= j < M - 1) ==> flux[j] == old(flux[j])
    {
      var i := 2;
      while i < M - 1
        invariant 2 <= i && (i <= M - 1 || i == 2)
        invariant forall j :: 2 <= j < i ==> flux[j] == McFlux(Parameters(), u, j)
        invariant forall j :: 0 <= j < flux.Length && !(2 <= j < i) ==> flux[j] == old(flux[j])
        modifies flux
      {
        assert Denominator(u, i) != 0.0;
        var r := Ratio(u, i);
        var phi := McPhi(r);
        flux[i] := LimitedFlux(Parameters(), u, i, phi);
        i := i + 1;
      }
      var next := uNew;
      i := 2;
      while i < M - 2
        invariant 2 <= i && (i <= M - 2 || i == 2)
        invariant |next| == |uNew|
        invariant forall j :: 2 <= j < i ==> next[j] == Cell(Scheme.McLimited, Parameters(), u, j)
        invariant forall j :: 0 <= j < |uNew| && !(2 <= j < i) ==> next[j] == uNew[j]
        modifies {}
      {
        McCellFromFluxes(Parameters(), u, i, flux[i + 1], flux[i]);
        next := next[i := FluxUpdate(Parameters(), u, i, flux[i + 1], flux[i])];
        i := i + 1;
      }
      u := next;
    }

    /**
     * Flux-limited step: fills `flux[2..M-2]` with the van Leer-limited
     * interface fluxes of the old field, then updates the interior from them.
     */
    method VanLeer(uNew: seq<real>)
      requires |u| >= M && |uNew| >= M && flux.Length >= M
      requires NonzeroDenominators(Parameters(), u)
      modifies this`u, flux
      ensures u == Step(Scheme.VanLeerLimited, Parameters(), old(u), uNew)
      ensures |u| == |uNew| && forall j :: 0 <= j < |uNew| && !(2 <= j < M - 2) ==> u[j] == uNew[j]
      ensures forall j :: 2 <= j < M - 1 ==> flux[j] == VanLeerFlux(Parameters(), old(u), j)
      ensures forall j :: 0 <= j < flux.Length && !(2 <= j < M - 1) ==> flux[j] == old(flux[j])
    {
      var i := 2;
      while i < M - 1
        invariant 2 <= i && (i <= M - 1 || i == 2)
        invariant forall j :: 2 <= j < i ==> flux[j] == VanLeerFlux(Parameters(), u, j)
        invariant forall j :: 0 <= j < flux.Length && !(2 <= j < i) ==> flux[j] == old(flux[j])
        modifies flux
      {
        assert Denominator(u, i) != 0.0;
        var r := Ratio(u, i);
        var phi := VanLeerPhi(r);
        flux[i] := LimitedFlux(Parameters(), u, i, phi);
        i := i + 1;
      }
      var next := uNew;
      i := 2;
      while i < M - 2
        invariant 2 <= i && (i <= M - 2 || i == 2)
        invariant |next| == |uNew|
        invariant forall j :: 2 <= j < i ==> next[j] == Cell(Scheme.VanLeerLimited, Parameters(), u, j)
        invariant forall j :: 0 <= j < |uNew| && !(2 <= j < i) ==> next[j] == uNew[j]
        modifies {}
      {
        VanLeerCellFromFluxes(Parameters(), u, i, flux[i + 1], flux[i]);
        next := next[i := FluxUpdate(Parameters(), u, i, flux[i + 1], flux[i])];
        i := i + 1;
      }
      u := next;
    }
  }
}
