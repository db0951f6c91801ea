# Verdandi: optimal interpolation, observation operator, HJB bookkeeping and perturbations

This project models part of Verdandi, a data-assimilation library, in Dafny.
Verdandi runs a numerical model forward in time and corrects its state with
observations. The model covers four components.

- **The optimal interpolation driver** (module `Interpolation`, class
  `OptimalInterpolation`). `Initialize`, `Analyze` and `Forward` form a small
  state machine. When observations are available, `Analyze` replaces the model
  state by its BLUE (best linear unbiased estimator) analysis
  x + B Hᵀ (H B Hᵀ + R)⁻¹ (y − H x).
  - The dense computation keeps the source's nested loops over arrays and is
    proved equal to that closed form (module `Blue`).
  - The sparse computation uses matrix products and a linear-system solve. It
    is proved equal to the dense one in exact arithmetic, given a solver that
    agrees with the inverse.
  - The messages the driver sends through the message handler are kept as an
    appended log (module `Messages`).
- **The linear observation manager** (module `Observation`).
  - The availability rule and the byte offset of a record in the observation
    file; truncating C++ `/` and `%` are written out in module `CArith`.
  - The tangent operator H, either diagonal or read from a file, with its row,
    entry and product views proved to agree.
  - The innovation y − H x and the observation error covariance R.
  - The build switches `VERDANDI_TANGENT_OPERATOR_SPARSE`,
    `VERDANDI_OBSERVATION_ERROR_SPARSE` and `VERDANDI_TANGENT_OPERATOR_DENSE`,
    modelled as run-time flags.
- **The Hamilton-Jacobi-Bellman solver's bookkeeping** (module `HJB`).
  - The configuration checks of its constructor, each of which throws
    `ErrorConfiguration`, and the reading of the grid, Q₀ and the model's
    upper bounds.
  - The mapping of a boundary type name to an index.
  - The ghost value a boundary cell sees along one dimension.
  - The Lax-Friedrichs sub-stepping, which never passes Δt.
  - The time-step counter behind `HasFinished`.
- **The TRNG perturbation manager** (module `Perturbation`).
  - Scalar and vector normal and log-normal draws, with their parameter-length
    checks.
  - The rejection loop of the scalar log-normal draw.
  - The vector draw's retry loop.
  - The homogeneous perturbations.
  - The clipping test, `NormalClipping`.

The model and the components it calls are parameters.
- Matrix inversion (LAPACK `GetInverse`) is a function returning `None` for a
  singular matrix. The sparse LU solve (SuperLU `GetLU`/`SolveLU`), the
  Cholesky factorisation, `sqrt`, `log` and `exp` are likewise functions.
- Each observation file is a function from byte offset to vector.
- The configuration reader's tokeniser `to_num` is a function from token to
  number.
- The random generator is the sequence of values its distributions deliver,
  in the order they are requested. `Exhausted` marks a computation that would
  need more values than the sequence holds.
- The numerical model (module `ForwardModel`) is a class holding the state, the
  date, B and the sparsity and finished flags. It only stands in for the
  interface the drivers call.

All arithmetic is over unbounded integers and exact reals.

## Model

| member | source | states |
|---|---|---|
| CArith.TruncateToInt | observation_manager/LinearObservationManager.cxx:156 | the date is converted to the step by truncation toward zero: the step is within one of the date, on the side of zero |
| CArith.CRemZeroIffDivides | observation_manager/LinearObservationManager.cxx:158 | the C++ remainder, whose sign follows the dividend, is zero exactly when the divisor divides the step |
| Observation.AvailableIffMultiple | observation_manager/LinearObservationManager.cxx:156-158 | observations are available exactly at the steps that are multiples of period_observation × Nskip, negative steps included |
| Observation.FilePositionOfRecord | observation_manager/LinearObservationManager.cxx:174-180 | the k-th available step reads record k, at offset k·(N·sizeof(double)+sizeof(int)), where N is Nstate_model for type "state" and Nobservation for type "observation" |
| Observation.LinearOperator.RowAgreesWithEntries | observation_manager/LinearObservationManager.cxx:325-375 | the row view GetTangentOperatorRow agrees entry by entry with GetTangentOperator; for a diagonal operator a row is zero except the diagonal value at its own index |
| Observation.LinearOperator.ApplyIsMatVec | observation_manager/LinearObservationManager.cxx:288-302 | ApplyOperator (the diagonal value times x, or the operator matrix times x) is the product of H's rows with x |
| Observation.LinearObservationManager.constructor | observation_manager/LinearObservationManager.cxx:51-59 | the main constructor only clears the availability flag, and the observation vector starts as Seldon's empty default |
| Observation.LinearObservationManager.ReadConfiguration | observation_manager/LinearObservationManager.cxx:84-104 | the model dimension and the observation, error and operator entries are stored as read |
| Observation.LinearObservationManager.Initialize | observation_manager/LinearObservationManager.cxx:84-138 | under each build switch it builds the sparse diagonal H, the sparse diagonal R and Nobservation = Nstate. The dense file operator throws ErrorArgument exactly when its column count differs from the model's Nstate; otherwise Nobservation is its row count. H and R stay as they were when their switch is off, and with no switch set Nobservation and the observation stay too. The dense file matrix is stored before the column check, so it is H on the error path as well. Whenever the observation vector is reallocated, it has Nobservation entries. The manager is ready for the driver after a pass under the sparse operator switch, under the dense switch with matching sizes, and under the error switch alone with a diagonal operator |
| Observation.LinearObservationManager.LoadObservation | observation_manager/LinearObservationManager.cxx:151-186 | availability is the rule on the truncated date. When available, the observation is H applied to the vector read at the record's offset; otherwise it is unchanged. Records must hold Nstate values, and for type "observation" Nobservation must equal Nstate |
| Observation.LinearObservationManager.HasErrorMatrix | observation_manager/LinearObservationManager.cxx:250-275 | HasErrorMatrix equals IsErrorSparse |
| Observation.LinearObservationManager.SparseMatrixIsOperator | observation_manager/LinearObservationManager.cxx:108-113 | the sparse operator matrix is the diagonal value times the identity, the same operator as the row and entry views give |
| Observation.LinearObservationManager.Innovation | observation_manager/LinearObservationManager.cxx:419-427 | the innovation is y − H x, with one entry per observation |
| Observation.LinearObservationManager.ObservationErrorCovarianceMatrix | observation_manager/LinearObservationManager.cxx:462-470 | R has the variance on the diagonal and 0 elsewhere, entry by entry, so it is symmetric |
| Observation.LinearObservationManager.ObservationErrorVariance | observation_manager/LinearObservationManager.cxx:477-488 | R as a matrix exists exactly when it is built sparse; otherwise ErrorUndefined |
| Observation.LinearObservationManager.HasBLUECorrection | observation_manager/LinearObservationManager.cxx:434-440 | always throws ErrorUndefined |
| Observation.LinearObservationManager.GetBLUECorrection | observation_manager/LinearObservationManager.cxx:447-453 | always throws ErrorUndefined |
| Blue.ChooseBLUEPath | method/OptimalInterpolation.cxx:225-256 | the sparse computation is chosen exactly when the sparse switch is on and B and H are sparse, whatever R is; without the switch the dense one is always taken |
| Blue.CrossCovarianceIsProduct | method/OptimalInterpolation.cxx:328-370 | B Hᵀ built row by row, entry (j, c) being the scalar product of row j of B with row c of H as the dense loops compute it, is the matrix product of B with the transpose of H, as the sparse path computes it |
| Blue.InnovationCovarianceEntry | method/OptimalInterpolation.cxx:283-314 | entry (i, c) of H B Hᵀ + R is Σ_j H(i,j)·(Σ_k B(j,k)·H(c,k)) + R(i,c) |
| Blue.SolveAgreesWithInverse | method/OptimalInterpolation.cxx:397-401 | with a left inverse of the system matrix, the solution of the linear system is the inverse applied to the right-hand side |
| Blue.SparseEqualsDense | method/OptimalInterpolation.cxx:317-407 | in exact arithmetic the sparse analysis (solve) equals the dense analysis (invert) |
| Blue.ZeroInnovationKeepsState | method/OptimalInterpolation.cxx:317-343 | a zero innovation leaves the state unchanged |
| Blue.ScalarAnalysis | method/OptimalInterpolation.cxx:283-343 | one directly observed variable with B = 4, R = 1, x = 0, y = 3 gives H B Hᵀ + R = 5, whose inverse is 0.2, and the analysis 2.4 |
| Interpolation.FillCrossRow | method/OptimalInterpolation.cxx:292-299 | the loop over r fills row j of B Hᵀ |
| Interpolation.AccumulateRow | method/OptimalInterpolation.cxx:304-306 | the loop over c adds H(r, j) times the row to row r of the accumulator and changes nothing else |
| Interpolation.PartialProductStep | method/OptimalInterpolation.cxx:290-307 | each pass of the j-loop adds the j-th term H(i,j)·(B Hᵀ)(j,c) to the partial sum |
| Interpolation.PartialProductComplete | method/OptimalInterpolation.cxx:290-307 | after all terms the partial sums are the entries of H (B Hᵀ) |
| Interpolation.AccumulateColumn | method/OptimalInterpolation.cxx:302-307 | one pass of the j-loop takes every entry from the partial sum of the first j terms to that of the first j + 1 |
| Interpolation.AccumulateTerms | method/OptimalInterpolation.cxx:290-308 | from an accumulator of zeros, the j-loop over the columns of H leaves the sum of all Nstate terms in every entry |
| Interpolation.AccumulateProduct | method/OptimalInterpolation.cxx:283-308 | starting from zeros, the j-loop leaves H B Hᵀ in HBHR_inv |
| Interpolation.AddErrorCovariance | method/OptimalInterpolation.cxx:311-314 | the double loop adds R(r, c) to every entry |
| Interpolation.BuildInnovationCovariance | method/OptimalInterpolation.cxx:283-314 | the matrix built before the inversion is H B Hᵀ + R |
| Interpolation.AddCorrection | method/OptimalInterpolation.cxx:328-343 | each state entry r increases by row r of B Hᵀ times (H B Hᵀ + R)⁻¹ d |
| Interpolation.CorrectionIsAnalysis | method/OptimalInterpolation.cxx:328-343 | the state corrected entry by entry is the closed-form dense analysis |
| Interpolation.SolveAndCorrect | method/OptimalInterpolation.cxx:362-407 | a singular system leaves the state unchanged; otherwise the state becomes x + B Hᵀ·solve(H B Hᵀ + R, d) |
| Interpolation.OptimalInterpolation.constructor | method/OptimalInterpolation.cxx:40-81 | the driver is built over an initialised model and observation manager; Nstate is the model's |
| Interpolation.OptimalInterpolation.ComputeBLUEDense | method/OptimalInterpolation.cxx:264-344 | Nobservation is the manager's. A singular H B Hᵀ + R throws and leaves the state as it was; otherwise the state becomes the dense analysis of the state before the update |
| Interpolation.OptimalInterpolation.ComputeBLUESparse | method/OptimalInterpolation.cxx:351-409 | without the sparse switch nothing happens. Without an error matrix it throws ErrorUndefined before touching the state; otherwise the state becomes the sparse analysis |
| Interpolation.OptimalInterpolation.ComputeBLUE | method/OptimalInterpolation.cxx:219-257 | the outcome is that of the computation the dispatch selects |
| Interpolation.OptimalInterpolation.CorrectState | method/OptimalInterpolation.cxx:198-201 | GetState, ComputeBLUE, SetState: the model state becomes the BLUE of the old state or, on an exception, stays |
| Interpolation.OptimalInterpolation.LoadAndCorrect | method/OptimalInterpolation.cxx:190-201 | the observations of the current date are loaded. Without them the state, Nobservation and the observations are unchanged |
| Interpolation.OptimalInterpolation.Analyze | method/OptimalInterpolation.cxx:183-211 | with no observation the state is unchanged and the log gets only the begin and end messages. With one, the state is the BLUE and "analysis" goes to "model" and "observation_manager" |
| Interpolation.OptimalInterpolation.Initialize | method/OptimalInterpolation.cxx:102-142 | the first step is analysed only when Analyze_first_step is set and observations are available. "initial condition" is always sent to "model", barring an exception |
| Interpolation.OptimalInterpolation.InitializeStep | method/OptimalInterpolation.cxx:148-160 | only the begin and end messages |
| Interpolation.OptimalInterpolation.Forward | method/OptimalInterpolation.cxx:164-176 | the model advances one step; "forecast" goes to "model" and to "observation_manager" |
| Interpolation.OptimalInterpolation.HasFinished | method/OptimalInterpolation.cxx:416-421 | exactly the model's HasFinished |
| Interpolation.OptimalInterpolation.SparseAgreesWithDense | method/OptimalInterpolation.cxx:221-407 | with H and R both sparse diagonal, the two computations see the same H B Hᵀ + R and, with a solver that agrees with the inverse, give the same state |
| HJB.BoundaryConditionIndex | method/HamiltonJacobiBellman.cxx:154-159 | "Dirichlet" maps to 0 and only it; "Extrapolation" maps to 1 and only it; every other name, "Periodic" included, maps to 2 |
| HJB.ProductPositive | method/HamiltonJacobiBellman.cxx:93-100 | with every Nx at least 1, the product of the Nx is at least 1 |
| HJB.RowMajorIndex | method/HamiltonJacobiBellman.cxx:136-138 | i·N + j indexes the N² tokens |
| HJB.RowMajor | method/HamiltonJacobiBellman.cxx:135-138 | Q_0 is an N × N matrix |
| HJB.RowMajorUsesEveryToken | method/HamiltonJacobiBellman.cxx:135-138 | token k lands in Q_0(k / N, k % N): Q_0(i, j) = token[i·N + j] |
| HJB.InteriorStencil | method/HamiltonJacobiBellman.cxx:460-473 | an interior cell uses its two adjacent cells and leaves boundary_condition_ alone |
| HJB.PeriodicStencilWraps | method/HamiltonJacobiBellman.cxx:426-432 | under the periodic rule the neighbours of every cell are those on a ring: p − 1 and p + 1 modulo Nx |
| HJB.ExtrapolationContinuesLine | method/HamiltonJacobiBellman.cxx:423-446 | extrapolation's ghost value 2·V(cell) − V(neighbour) continues an affine line of values past either end |
| HJB.DirichletKeepsValue | method/HamiltonJacobiBellman.cxx:418-459 | under the Dirichlet rule the ghost value is the configured constant at both ends |
| HJB.StaleBoundaryIgnored | method/HamiltonJacobiBellman.cxx:418-459 | under extrapolation and the periodic rule the neighbours do not depend on the value boundary_condition_ held before |
| HJB.BoundaryAfterSweep | method/HamiltonJacobiBellman.cxx:410-475 | after a sweep along a line, boundary_condition_ holds the ghost value of the last cell's visit, so it keeps the configured value under the Dirichlet rule |
| HJB.Division | method/HamiltonJacobiBellman.cxx:482 | above the limit 0.5 the step is split into at least two sub-steps |
| HJB.SumConstant | method/HamiltonJacobiBellman.cxx:483-491 | k equal sub-steps accumulate to k times the sub-step |
| HJB.EqualStepsBound | method/HamiltonJacobiBellman.cxx:483-491 | k of n equal parts of Δt lie between 0 and Δt and reach Δt exactly when k = n |
| HJB.PositiveStep | method/HamiltonJacobiBellman.cxx:485-491 | with a positive Δt an equal sub-step never overshoots, so the clamp does not fire, and it reaches Δt at the last sub-step |
| HJB.NegativeStep | method/HamiltonJacobiBellman.cxx:485-488 | with a negative Δt the first sub-step already passes Δt, so the clamp ends the loop after one step |
| HJB.SubStepsStayWithinStep | method/HamiltonJacobiBellman.cxx:383-498 | every partial sum of the sub-steps lies between 0 and Δt: time_delta never passes Delta_t_ |
| HJB.SubStepsCoverStep | method/HamiltonJacobiBellman.cxx:383-498 | when the step is split, the sub-steps add up to Δt exactly |
| HJB.HamiltonJacobiBellman.constructor | method/HamiltonJacobiBellman.cxx:40-44 | time_step_ starts at zero |
| HJB.HamiltonJacobiBellman.ReadDiscretization | method/HamiltonJacobiBellman.cxx:89-100 | Ndimension is the token count over 3; x_min, Delta_x and Nx are taken from each triple; Npoint is the product of the Nx, and at least 1 when every Nx is |
| HJB.HamiltonJacobiBellman.ReadQ0 | method/HamiltonJacobiBellman.cxx:135-138 | the nested loops fill Q_0 row-major from the tokens |
| HJB.HamiltonJacobiBellman.ReadUpperBound | method/HamiltonJacobiBellman.cxx:180-182 | one upper bound per dimension, each converted from its token |
| HJB.HamiltonJacobiBellman.Configure | method/HamiltonJacobiBellman.cxx:80-183 | the configuration passes exactly when it meets all four checks (triples, dimension, Q_0 size, LxF upper bound size); otherwise ErrorConfiguration. A pass leaves every entry read as the constructor reads it |
| HJB.HamiltonJacobiBellman.ReadCoefficients | method/HamiltonJacobiBellman.cxx:112-183 | the time entries, the Q_0 size check and fill, then the solver part |
| HJB.HamiltonJacobiBellman.ReadSolver | method/HamiltonJacobiBellman.cxx:144-183 | scheme, boundary type, index and value; under "LxF" the upper-bound size check (ErrorConfiguration) and fill |
| HJB.HamiltonJacobiBellman.BoundaryStencil | method/HamiltonJacobiBellman.cxx:416-459 | one cell's neighbours along one dimension follow the ghost-value rule; boundary_condition_ keeps the ghost value of a boundary cell |
| HJB.HamiltonJacobiBellman.Sweep | method/HamiltonJacobiBellman.cxx:410-475 | the sweep over a line uses the rule at every cell; the neighbours do not depend on the stale boundary value |
| HJB.HamiltonJacobiBellman.AdvectionLxFForward | method/HamiltonJacobiBellman.cxx:355-504 | the while loop on time_delta != Delta_t_ takes exactly the sub-steps SubSteps; time_step_ grows by one; begin and end messages. Under extrapolation or the periodic rule each pass over the cells stores the last ghost value in boundary_condition_, so it holds that value when Δt ≠ 0; otherwise it is unchanged |
| HJB.HamiltonJacobiBellman.AdvectionBrysonLevyForward | method/HamiltonJacobiBellman.cxx:512-630 | time_step_ grows by one; begin and end messages; under extrapolation or the periodic rule boundary_condition_ holds the last ghost value, otherwise it is unchanged |
| HJB.HamiltonJacobiBellman.AdvectionGodunov | method/HamiltonJacobiBellman.cxx:636-757 | time_step_ grows by one; begin and end messages; under extrapolation or the periodic rule boundary_condition_ holds the last ghost value, otherwise it is unchanged |
| HJB.HamiltonJacobiBellman.Forward | method/HamiltonJacobiBellman.cxx:335-349 | the scheme the name selects (LxF, BrysonLevy, otherwise Godunov) runs; time_step_ grows by exactly one and HasFinished holds exactly when it reaches Nt; boundary_condition_ is what the scheme leaves in it, and under the Dirichlet rule it keeps its value |
| Perturbation.ScalarNormalDraws | method/TRNGPerturbationManager.cxx:108-130 | a parameter count other than 0 or 2 throws ErrorArgument after the first draw; 0 gives the first draw; 2 gives the second (truncated) draw |
| Perturbation.Reject | method/TRNGPerturbationManager.cxx:152-154 | a value the rejection loop returns lies in [parameter(0), parameter(1)] |
| Perturbation.RejectReturnsFirstAccepted | method/TRNGPerturbationManager.cxx:152-154 | the loop returns the first draw within the bounds, every earlier one being outside them, and consumes exactly the draws up to it |
| Perturbation.RejectSucceedsIffAcceptable | method/TRNGPerturbationManager.cxx:152-154 | the loop ends with a value exactly when some draw lies within the bounds |
| Perturbation.ScalarLogNormal | method/TRNGPerturbationManager.cxx:145-164 | with two parameters the value lies within them; any count other than 0 or 2 throws |
| Perturbation.Shift | method/TRNGPerturbationManager.cxx:281-282 | the perturbed vector keeps the length |
| Perturbation.ShiftKeepsDifferences | method/TRNGPerturbationManager.cxx:279-282 | every entry moves by the drawn value, so the differences between entries are kept |
| Perturbation.WithinMeaning | method/TRNGPerturbationManager.cxx:354-355 | with a non-zero standard deviation the test is parameter(0) ≤ output(i)/diagonal(i) ≤ parameter(1); with a zero one only a zero entry passes (0/0 is NaN, which no comparison rejects) |
| Perturbation.SampleDraws | method/TRNGPerturbationManager.cxx:198-212 | the sample has one entry per output entry and exists exactly when the generator has one draw per entry, two with clipping |
| Perturbation.TRNGPerturbationManager.constructor | method/TRNGPerturbationManager.cxx:46-51 | the generator is seeded; its draws are given |
| Perturbation.TRNGPerturbationManager.Normal | method/TRNGPerturbationManager.cxx:108-130 | the scalar normal draw and its parameter check, consuming the draws the rule says |
| Perturbation.TRNGPerturbationManager.LogNormal | method/TRNGPerturbationManager.cxx:145-164 | the scalar log-normal draw: with two parameters the rejection loop; the result and the draws left are those of ScalarLogNormal |
| Perturbation.TRNGPerturbationManager.AddToAll | method/TRNGPerturbationManager.cxx:281-282 | the loop adds the value to every entry |
| Perturbation.TRNGPerturbationManager.NormalHomogeneous | method/TRNGPerturbationManager.cxx:274-283 | one draw of mean 0 is added to every entry; an exception leaves output as it was |
| Perturbation.TRNGPerturbationManager.LogNormalHomogeneous | method/TRNGPerturbationManager.cxx:300-309 | one log-normal draw is added to every entry; an exception leaves output as it was |
| Perturbation.TRNGPerturbationManager.NormalClipping | method/TRNGPerturbationManager.cxx:328-360 | true with no parameters. ErrorArgument for a count other than 2 or for a diagonal and an output of different lengths. Otherwise true exactly when every output(i)/diagonal(i) lies in [parameter(0), parameter(1)] |
| Perturbation.TRNGPerturbationManager.DrawEntry | method/TRNGPerturbationManager.cxx:203-211 | one sample entry: a normal draw, replaced by a truncated one with clipping |
| Perturbation.TRNGPerturbationManager.DrawSample | method/TRNGPerturbationManager.cxx:193-212 | the sample loop yields SampleDraws |
| Perturbation.TRNGPerturbationManager.Attempt | method/TRNGPerturbationManager.cxx:198-226 | one retry: the standard deviations of the current matrix, its Cholesky factor, and output plus L times the sample |
| Perturbation.TRNGPerturbationManager.NormalVector | method/TRNGPerturbationManager.cxx:179-231 | a bad parameter count throws before any draw and changes nothing. A pass with clipping satisfies the clipping test; a pass without clipping is output plus L times the first sample |
| Perturbation.TRNGPerturbationManager.LogNormalVector | method/TRNGPerturbationManager.cxx:247-258 | log is taken before the parameter check, so a bad count leaves output as its logarithm; a pass without clipping is exp of (log(output) plus L times the sample); a pass with clipping is exp of a vector that satisfies the clipping test; the only outcomes are a pass, ErrorArgument and running out of draws |

## Left out

- I/O: configuration files (GetPot, `split`, `to_num`), the observation and operator files, `cout`, `Logger`, `OutputSaver`. Their contents are inputs.
- The value constraints the configuration reader enforces ("> 0", ">= 0", the allowed names). Observation.LinearObservationManager.Initialize requires only the three "> 0" ones (Period_observation, Nskip, error/Variance), not that operator/Definition be 'diagonal' or 'file': any other name is treated as a file operator. The HJB model (`Configure`) checks none of them.
- Floating-point rounding. Everything is exact real arithmetic; only the IEEE division by zero in `NormalClipping` is written out.
- The message handler's dispatch to recipients, and the model's own `InitializeStep`. Messages are a log of (recipient, text).
- ForwardModel.Model: the numerical models are declared only through their interface. B is an abstract input, and the model's `Forward` takes the forecast as an input.
- HJB numerics: the Lax-Friedrichs, Bryson-Levy and Godunov updates of V, the Courant-number computation in `Initialize`, and its recomputation for a time-dependent model. The Courant number is an input of `Forward`.
- HJB lattice indexing (`get_position`, `get_coordinate`): the ghost-value rule is stated on a line of values along one dimension with at least two cells.
- HJB.SubSteps: states the sub-steps in exact arithmetic. Rounding that could make `time_delta + local_step` differ from Δt is not modelled, and with it the loop's termination for doubles.
- The line that assigns the whole `a_Delta_x_` vector in the Bryson-Levy evolution points belongs to the numerics and is not modelled.
- TRNG distributions: the generator's values are given in draw order, whatever distribution produced them. The time-based seed and the distribution parameters are not modelled.
- Perturbation.TRNGPerturbationManager.LogNormal: partial correctness only. Exhaustion of the draws stands for a loop that would never accept.
- Perturbation.TRNGPerturbationManager.NormalVector: `GetCholesky`, `sqrt`, `log` and `exp` are function parameters. The model is faithful to the source in these points:
  - the covariance copy is re-factored on every retry;
  - `diagonal` is taken from the matrix of that retry;
  - output is not reset between retries.

  No contract is given for a clipped pass after several retries beyond the clipping test; the same holds for Perturbation.TRNGPerturbationManager.LogNormalVector, whose clipped pass is stated on the vector before `exp`.
- Perturbation.TRNGPerturbationManager.NormalClipping: the contract states the result, not the index at which the scan stops.
- `share/LockFile.cxx` (inter-process file locking) and the declaration-only headers.
- Observation.LinearObservationManager.Initialize: `Reallocate` leaves the contents of the observation vector unspecified; the model fills it with zeros but states only its size.
- Observation.LinearObservationManager.LoadObservation: requires every record to hold Nstate values, and Nobservation to equal Nstate for type "observation". Records of that type are spaced by Nobservation values, so when Nobservation differs from Nstate the source applies H to a vector of the wrong size; that case is not modelled.
- HJB.HamiltonJacobiBellman.Forward: the ghost value the last boundary visit of a step leaves in boundary_condition_ is computed from V, which is not modelled; it is a parameter (`lastGhost`). The single-line rule for it is stated by `Sweep` and `BoundaryStencil`.
- Observation.LinearObservationManager.LoadObservation: an observation type other than "state" and "observation" reads at offset 0, as the source's default `streampos` does.
- `ApplyTangentOperator` and `ApplyAdjointOperator` are not used by the optimal interpolation driver and are not modelled.
