# AdvectionSolver `fluxes`: a verified Dafny model

AdvectionSolver advances a scalar field on a uniform 1-D grid of `M` cells by
one explicit time step of the linear advection equation. Its core is the
C++ class `fluxes`. The class holds four fixed parameters: the cell count
`M`, the time step `delta_t`, the grid spacing `delta_x` and the Courant
number `sigma`. It also holds three buffers: the current field `u`, the
scratch slopes `slope` and the scratch interface fluxes `flux`. It offers
eight step methods:

- the single-pass stencils `upwind`, `lax_wendroff`, `beam_warming` and `fromm`;
- the slope-limited schemes `minmod` and `superbee`: one pass fills `slope`
  on cells `1..M-3`, and a second pass updates the interior from it;
- the flux-limited schemes `mc` and `van_leer`: one pass fills `flux` on
  interfaces `2..M-2` with the MC or van Leer limiter, and a second pass
  updates the interior from it.

Every step method receives the output buffer `u_new` by value. It overwrites
the interior cells `2..M-3` of that copy with values computed from the old
`u`. Then it makes the copy the new `u`.

The model has two modules.

- `Stencils` (stencils.dfy) holds the pure part over `real`. It has the
  minmod and maxmod selections, the superbee slope, the MC and van Leer
  limiters, and one function per per-cell formula. `Cell` picks the formula
  for a `Scheme`. `Step` is the field that one step leaves behind. The
  lemmas below are proved about these definitions.
- `Fluxes` (fluxes.dfy) holds the class `Fluxes`. The parameters are
  `const` fields and `u` is a `seq<real>`. `slope` and `flux` are
  `array<real>` fields. There is one method per step method, and each
  keeps the source's loops. The first pass of a two-pass method writes the
  scratch array in place. The second pass, like every single-pass loop,
  assigns cells of a local copy of `uNew`. Each method ensures that the
  new `u` is `Step` of the old `u`. Each also states what it wrote into
  the scratch array and that every other scratch entry is unchanged.

Each method's result depends only on the old `u` and on `uNew`, never on
the old contents of `slope` or `flux`. So every scratch entry the second
pass reads was written earlier in the same call.

A step writes only the interior cells `2..M-3` of the buffer passed in. So
the cells `0`, `1`, `M-2` and `M-1` of the new `u` hold that buffer's values
(`Stencils.StepKeepsBoundary` and each method's second `ensures`). The
flux-limiter ratio adds `1E-16` to its denominator to avoid a division by
zero (src/fluxes.cpp:139 and 157). Over the reals this does not rule the
zero out: `u[i] - u[i-1] = -1E-16` still gives a zero denominator. So `mc`
and `van_leer` require `NonzeroDenominators` on the interfaces they visit.

Preconditions that the code leaves to its caller, because its constructor
never sizes the buffers:

- `|u| >= M` and `|uNew| >= M`;
- `slope.Length >= M` for the slope-limited schemes and `flux.Length >= M`
  for the flux-limited ones;
- `delta_x != 0` for the four schemes that divide by it;
- a nonzero ratio denominator `u[i] - u[i-1] + 1E-16` at every interface
  `2..M-2` for `mc` and `van_leer`.

Every scheme is in conservation form. `Stencils.NumericalFlux` gives the
flux of a scheme at interface `i`, between cells `i-1` and `i`. `mc` and
`van_leer` store this flux in `flux`. For the six other schemes it is a
rewriting of the per-cell formula. The new interior cell `i` is the old one
less `sigma` times the flux at interface `i+1` minus the flux at interface
`i`. Summed over the interior, the fluxes telescope. So one step changes
the total of cells `2..M-3` by `sigma` times the flux entering at interface
`2` minus the flux leaving at interface `M-2` (`Stencils.StepConserves`).

Small `M` is allowed. For `M = 4` the interior loops run zero times, but
the slope loops still run once (`i = 1`, writing `slope[1]`), and so do the
flux loops (`i = 2`, writing `flux[2]`, which needs a nonzero denominator at
interface 2). Every loop runs zero times only for `M <= 3`. Every formula is written
as the code has it, including the `(delta_x - delta_t)` factor of the
Beam-Warming, Fromm and slope-limited updates. `pow(sigma, 2.0)` is written
`sigma * sigma`.

## Model

| member | source | states |
|---|---|---|
| Stencils.Minmod | src/fluxes.cpp:57-71 | Reproduces the minmod selection of the slope loop: 0 unless the product is positive, otherwise the argument of smaller magnitude, with a tie going to the second. |
| Stencils.Maxmod | src/fluxes.cpp:112-123 | Reproduces the maxmod selection: 0 unless `s1*s2 > 0`, otherwise the argument of larger magnitude, with a tie going to the first. |
| Stencils.SuperbeeOf | src/fluxes.cpp:89-123 | Reproduces the superbee slope's nested branches from `num1` and `num2`, as the inner loop writes them. |
| Stencils.MinmodSlope | src/fluxes.cpp:55-71 | The minmod slope of cell `i`: `Minmod` of the backward and forward divided differences at lines 55-56. |
| Stencils.SuperbeeSlope | src/fluxes.cpp:87-123 | The superbee slope of cell `i`: `SuperbeeOf` of the forward and backward divided differences at lines 87-88. |
| Stencils.Denominator | src/fluxes.cpp:139 | The ratio's denominator `u[i] - u[i-1] + 1E-16`, shared by lines 139 and 157. |
| Stencils.Ratio | src/fluxes.cpp:139 | The smoothness ratio `r` of interface `i`, shared by lines 139 and 157. |
| Stencils.McPhi | src/fluxes.cpp:140 | Reproduces the MC limiter `max(0, min((1+r)/2, 2, 2r))`. |
| Stencils.VanLeerPhi | src/fluxes.cpp:158 | Reproduces the van Leer limiter `(r + abs(r)) / (1 + abs(r))`. |
| Stencils.LimitedFlux | src/fluxes.cpp:141 | Reproduces the limited interface flux `u[i-1] + 0.5 (1 - sigma)(u[i] - u[i-1]) phi` of lines 141 and 159. |
| Stencils.McFlux | src/fluxes.cpp:139-141 | The MC flux at interface `i`: `LimitedFlux` with the MC limiter of the ratio, as the first loop of `mc` writes `flux[i]`. |
| Stencils.VanLeerFlux | src/fluxes.cpp:157-159 | The van Leer flux at interface `i`: `LimitedFlux` with the van Leer limiter of the ratio, as the first loop of `van_leer` writes `flux[i]`. |
| Stencils.UpwindCell | src/fluxes.cpp:17 | Reproduces the upwind update of interior cell `i`. |
| Stencils.LaxWendroffCell | src/fluxes.cpp:26 | Reproduces the Lax-Wendroff update of interior cell `i`, with `pow(sigma, 2.0)` as `sigma * sigma`. |
| Stencils.BeamWarmingCell | src/fluxes.cpp:35 | Reproduces the Beam-Warming update of interior cell `i`, including the `(delta_x - delta_t)` factor. |
| Stencils.FrommCell | src/fluxes.cpp:44 | Reproduces the Fromm update of interior cell `i`, including the `(delta_x - delta_t)` factor. |
| Stencils.SlopeUpdate | src/fluxes.cpp:76 | Reproduces the second pass of the slope-limited schemes (lines 76 and 128) from the slopes of cells `i` and `i-1`. |
| Stencils.FluxUpdate | src/fluxes.cpp:146 | Reproduces the second pass of the flux-limited schemes (lines 146 and 164) from the fluxes at interfaces `i+1` and `i`. |
| Stencils.Cell | src/fluxes.cpp:13-167 | Picks the per-cell update of the scheme: one of the four single-pass formulas, `SlopeUpdate` of the two slopes, or `FluxUpdate` of the two limited fluxes. |
| Stencils.MinmodSelects | src/fluxes.cpp:55-71 | The minmod slope is 0 when the product of the two divided differences is not positive. Otherwise it is one of them and has their common sign. Its magnitude is the smaller of theirs, so it is no larger than either. |
| Stencils.MaxmodSelects | src/fluxes.cpp:112-123 | The maxmod of `s1` and `s2` is 0 unless `s1*s2 > 0`. Otherwise it is one of them, has their sign and has the larger magnitude. |
| Stencils.SuperbeeIsMaxmodOfMinmods | src/fluxes.cpp:87-123 | The superbee slope as the inner loop computes it is `maxmod(minmod(num1, 2*num2), minmod(2*num1, num2))`. |
| Stencils.SuperbeeBounds | src/fluxes.cpp:87-123 | The superbee slope is 0 unless `num1*num2 > 0`. Otherwise it has the sign of `num1`. Its magnitude is `min(max(|num1|,|num2|), 2*min(|num1|,|num2|))`, so it lies between `min(|num1|,|num2|)` and both `max(|num1|,|num2|)` and `2*min(|num1|,|num2|)`. |
| Stencils.McPhiRange | src/fluxes.cpp:140 | The MC limiter lies in `[0, 2]` and is 0 for `r <= 0`. |
| Stencils.McPhiPieces | src/fluxes.cpp:140 | For `r > 0` the MC limiter is `2r` up to `1/3`, then `(1+r)/2` up to `3`, then `2`. |
| Stencils.McPhiScaled | src/fluxes.cpp:140 | For `r, q > 0` with `r * q = 1`, the MC limiter has `r * phi(q) = phi(r)`. |
| Stencils.McPhiSymmetric | src/fluxes.cpp:140 | The MC limiter has `phi(1) = 1` and `phi(r) = r * phi(1/r)` for every `r > 0`. |
| Stencils.VanLeerPhiRange | src/fluxes.cpp:158 | The van Leer limiter lies in `[0, 2)` and is 0 for `r <= 0`. |
| Stencils.VanLeerPhiSymmetric | src/fluxes.cpp:158 | The van Leer limiter has `phi(1) = 1` and `phi(r) = r * phi(1/r)` for every `r > 0`. |
| Stencils.Step | src/fluxes.cpp:13-19 | One step leaves a field as long as the buffer passed in. |
| Stencils.StepKeepsBoundary | src/fluxes.cpp:13-19 | Every cell of the new field outside `2..M-3` is the passed-in buffer's cell. |
| Stencils.UnlimitedCellWindow | src/fluxes.cpp:13-47 | Upwind, Lax-Wendroff, Beam-Warming and Fromm compute cell `i` from the old cells `i-2..i+1` only. |
| Stencils.SlopeLimitedCellWindow | src/fluxes.cpp:49-131 | The minmod and superbee schemes compute cell `i` from the old cells `i-2..i+1` only. |
| Stencils.FluxLimitedCellWindow | src/fluxes.cpp:133-167 | The MC and van Leer schemes compute cell `i` from the old cells `i-2..i+1` only. |
| Stencils.CellWindow | src/fluxes.cpp:13-167 | Every scheme computes cell `i` from the old cells `i-2..i+1` only: two fields that agree there give the same new cell. |
| Stencils.StepReadsUpToMMinus2 | src/fluxes.cpp:13-167 | No scheme reads the old field beyond index `M-2`: two fields that agree on `0..M-2` give the same step. |
| Stencils.CellIsFluxDifference | src/fluxes.cpp:13-167 | Every scheme's new cell `i` is the old cell less `sigma` times the numerical flux at interface `i+1` minus the one at interface `i`. |
| Stencils.StepCellIsFluxDifference | src/fluxes.cpp:13-167 | Every interior cell of one step is the old cell less `sigma` times the difference of the interface fluxes at `i+1` and `i`. |
| Stencils.StepTelescopes | src/fluxes.cpp:13-167 | For every `hi` in `2..M-2`, the new cells `2..hi-1` add up to the old ones less `sigma` times the flux at interface `hi` minus the flux at interface `2`. |
| Stencils.StepConserves | src/fluxes.cpp:13-167 | One step changes the total of the interior cells `2..M-3` by exactly `sigma` times the inflow at interface `2` minus the outflow at interface `M-2`. |
| Stencils.ConstantCell | src/fluxes.cpp:13-167 | Every scheme maps a constant neighbourhood to that constant. |
| Stencils.ConstantFieldIsSteady | src/fluxes.cpp:13-167 | A constant old field meets every scheme's preconditions, and every scheme leaves each interior cell at that constant. |
| Stencils.UnitCourantShifts | src/fluxes.cpp:13-167 | With `sigma = 1`, upwind, Lax-Wendroff, MC and van Leer shift the field by one cell: the new interior cell `i` is the old cell `i-1`. |
| Stencils.StepExample | src/fluxes.cpp:13-29 | On seven cells with a unit step at cell 3 and `sigma = 1/2`, upwind gives `0, 1/2, 1` on cells `2..4` and Lax-Wendroff gives `-1/8, 5/8, 1`. |
| Fluxes.Fluxes.constructor | src/fluxes.cpp:3-9 | The constructor records the four parameters and starts with empty buffers. |
| Fluxes.Fluxes.Upwind | src/fluxes.cpp:13-20 | The new `u` is the upwind step of the old `u` over the passed-in buffer, and its cells outside `2..M-3` are the buffer's. |
| Fluxes.Fluxes.LaxWendroff | src/fluxes.cpp:22-29 | The new `u` is the Lax-Wendroff step of the old `u` over the passed-in buffer, and its cells outside `2..M-3` are the buffer's. |
| Fluxes.Fluxes.BeamWarming | src/fluxes.cpp:31-38 | The new `u` is the Beam-Warming step of the old `u` over the passed-in buffer, and its cells outside `2..M-3` are the buffer's. |
| Fluxes.Fluxes.Fromm | src/fluxes.cpp:40-47 | The new `u` is the Fromm step of the old `u` over the passed-in buffer, and its cells outside `2..M-3` are the buffer's. |
| Fluxes.Fluxes.Minmod | src/fluxes.cpp:49-79 | `slope[1..M-3]` holds the minmod slopes of the old field and every other entry is unchanged. The new `u` is the minmod step of the old `u`. |
| Fluxes.Fluxes.Superbee | src/fluxes.cpp:81-131 | `slope[1..M-3]` holds the superbee slopes of the old field and every other entry is unchanged. The new `u` is the superbee step of the old `u`. |
| Fluxes.Fluxes.Mc | src/fluxes.cpp:133-149 | `flux[2..M-2]` holds the MC-limited fluxes of the old field and every other entry is unchanged. The new `u` is the MC step of the old `u`. |
| Fluxes.Fluxes.VanLeer | src/fluxes.cpp:151-167 | `flux[2..M-2]` holds the van Leer-limited fluxes of the old field and every other entry is unchanged. The new `u` is the van Leer step of the old `u`. |

## Left out

- Floating point: the model computes over exact reals. IEEE-754 rounding,
  NaN and infinity are not modelled, and neither are the exact semantics of
  `abs`, `min`, `max` and `pow`. `pow(sigma, 2.0)` is read as `sigma * sigma`.
- The epsilon guard `1E-16`: it is kept as a literal constant. Its possible
  zero denominator is excluded by a precondition of `Mc` and `VanLeer`
  rather than given a result.
- The default constructor (src/fluxes.cpp:11) leaves the parameters
  uninitialised, so it is not modelled.
- src/fluxes.h is not part of this model. How `u`, `slope` and `flux` are
  allocated and filled is unknown, so the constructor starts them empty and
  the step methods state length preconditions.
- The driver is not modelled: the time loop, the boundary conditions on
  cells `0`, `1`, `M-2` and `M-1`, initial conditions and output.
- Numerical-analysis claims that the code never states are not modelled:
  TVD and monotonicity, order of accuracy, CFL stability, and comparisons
  of total variation between the limiters.
- Stencils.Step: its own contract states only the length of the new field.
  What each cell is comes from `Stencils.StepKeepsBoundary` and the lemmas
  about `Cell`.
