/** The optimal interpolation driver: it runs the model forward and, whenever
    the observation manager has observations, replaces the model state by its
    BLUE analysis. Messages sent to the other components are recorded in a log. */
module Interpolation {
  import opened Errors
  import opened Linalg
  import opened Observation
  import opened ForwardModel
  import opened Blue
  import opened Messages
  import opened CArith

  // The messages the driver sends.
  const AnalyzeBegin := Message("all", "::Analyze begin")
  const AnalyzeEnd := Message("all", "::Analyze end")
  const ModelAnalysis := Message("model", "analysis")
  const ObservationAnalysis := Message("observation_manager", "analysis")
  const InitializeBegin := Message("all", "::Initialize begin")
  const InitializeEnd := Message("all", "::Initialize end")
  const ModelInitialCondition := Message("model", "initial condition")
  const InitializeStepBegin := Message("all", "::InitializeStep begin")
  const InitializeStepEnd := Message("all", "::InitializeStep end")
  const ForwardBegin := Message("all", "::Forward begin")
  const ForwardEnd := Message("all", "::Forward end")
  const ModelForecast := Message("model", "forecast")
  const ObservationForecast := Message("observation_manager", "forecast")

  /** Dense inversion (LAPACK GetInverse): the inverse, or None for a singular matrix. */
  type Inverter = Matrix -> Option<Matrix>
  /** Sparse LU factorisation and solve (SuperLU GetLU and SolveLU): the solution
      of M x = v, or None for a singular matrix. */
  type Solver = (Matrix, Vector) -> Option<Vector>

  ghost predicate InverterShaped(inverse: Inverter) {
    forall s :: inverse(s).Some? ==> IsMatrix(inverse(s).value, |s|, |s|)
  }

  ghost predicate SolverShaped(solve: Solver) {
    forall s, v :: solve(s, v).Some? ==> |solve(s, v).value| == |s|
  }

  /** An exception leaves the state as it was; otherwise the state is the analysis. */
  predicate Reflects(r: Result<Vector>, outcome: Outcome, before: Vector, after: Vector) {
    match r
    case Ok(xa) => outcome == Pass && after == xa
    case Err(e) => outcome == Fail(e) && after == before
  }

  /** B (held by the model) and H have matching dimensions. */
  predicate Compatible(model: Model, op: LinearOperator) {
    op.Valid() && model.nstate == op.nstate && IsMatrix(model.background, op.nstate, op.nstate)
  }

  /** B H^T, built from the rows of B and H. */
  function Crossed(model: Model, op: LinearOperator): (k: Matrix)
    requires Compatible(model, op)
    ensures IsMatrix(k, op.nstate, op.nobservation)
  {
    CrossCovariance(model.background, op.Rows(), op.nstate)
  }

  /** H B H^T + R, with R the variance times the identity. */
  function Covariance(model: Model, op: LinearOperator, variance: real): (s: Matrix)
    requires Compatible(model, op)
    ensures IsMatrix(s, op.nobservation, op.nobservation)
  {
    InnovationCovariance(model.background, op.Rows(), Diag(op.nobservation, variance), op.nstate)
  }

  /** Fills `out` with row j of B H^T: entry c is the scalar product of row j
      of B with row c of H. */
  method FillCrossRow(model: Model, op: LinearOperator, j: nat, out: array<real>)
    requires Compatible(model, op) && j < op.nstate && out.Length == op.nobservation
    modifies out
    ensures out[..] == Crossed(model, op)[j]
  {
    var errorCovarianceRow := model.BackgroundErrorCovarianceRow(j);
    ghost var target := Crossed(model, op)[j];
    var c := 0;
    while c < out.Length
      invariant 0 <= c <= out.Length
      invariant forall c' :: 0 <= c' < c ==> out[c'] == target[c']
    {
      out[c] := Dot(errorCovarianceRow, op.Row(c));
      c := c + 1;
    }
    assert out[..] == target;
  }

  /** Adds hEntry times `row` to row r of the accumulator. */
  method AccumulateRow(acc: array2<real>, row: array<real>, r: nat, hEntry: real)
    requires acc.Length1 == row.Length && r < acc.Length0
    modifies acc
    ensures forall c :: 0 <= c < row.Length ==> acc[r, c] == old(acc[r, c]) + hEntry * row[c]
    ensures forall i, c :: 0 <= i < acc.Length0 && 0 <= c < acc.Length1 && i != r ==> acc[i, c] == old(acc[i, c])
  {
    var c := 0;
    while c < row.Length
      invariant 0 <= c <= row.Length
      invariant forall c' :: 0 <= c' < c ==> acc[r, c'] == old(acc[r, c']) + hEntry * row[c']
      invariant forall c' :: c <= c' < row.Length ==> acc[r, c'] == old(acc[r, c'])
      invariant forall i, c' :: 0 <= i < acc.Length0 && 0 <= c' < acc.Length1 && i != r ==> acc[i, c'] == old(acc[i, c'])
    {
      acc[r, c] := acc[r, c] + hEntry * row[c];
      c := c + 1;
    }
  }

  /** The sum over t < j of h[i][t] * k[t][c]: entry (i, c) of h k after j terms. */
  ghost function PartialProduct(h: Matrix, k: Matrix, i: nat, c: nat, j: nat): real
    requires i < |h| && |h[i]| == |k| && j <= |k| && forall t :: 0 <= t < |k| ==> c < |k[t]|
  {
    Dot(h[i][..j], Column(k, c)[..j])
  }

  lemma {:induction false} PartialProductStep(h: Matrix, k: Matrix, i: nat, c: nat, j: nat)
    requires i < |h| && |h[i]| == |k| && j < |k| && forall t :: 0 <= t < |k| ==> c < |k[t]|
    ensures PartialProduct(h, k, i, c, j + 1) == PartialProduct(h, k, i, c, j) + h[i][j] * k[j][c]
  {
    DotSnoc(h[i], Column(k, c), j);
  }

  /** After all terms the partial sums are the entries of h k. */
  lemma {:induction false} PartialProductComplete(h: Matrix, k: Matrix, i: nat, c: nat, cols: nat)
    requires i < |h| && IsMatrix(k, |k|, cols) && |h[i]| == |k| && c < cols
    requires forall t :: 0 <= t < |h| ==> |h[t]| == |k|
    ensures PartialProduct(h, k, i, c, |k|) == MatMul(h, k, cols)[i][c]
  {
    assert h[i][..|k|] == h[i];
    assert Column(k, c)[..|k|] == Column(k, c);
  }

  /** One pass of the j-loop: with `row` holding row j of B H^T, adds H(r, j)
      times it to every row r, so that the accumulator holds the partial sums
      of H (B H^T) over the first j + 1 columns of H. */
  method AccumulateColumn(acc: array2<real>, row: array<real>, j: nat, op: LinearOperator, ghost k: Matrix)
    requires op.Valid() && j < op.nstate
    requires acc.Length0 == acc.Length1 == row.Length == op.nobservation
    requires IsMatrix(k, op.nstate, row.Length) && row[..] == k[j]
    requires forall r, c :: 0 <= r < row.Length && 0 <= c < row.Length ==>
               acc[r, c] == PartialProduct(op.Rows(), k, r, c, j)
    modifies acc
    ensures forall r, c :: 0 <= r < row.Length && 0 <= c < row.Length ==>
              acc[r, c] == PartialProduct(op.Rows(), k, r, c, j + 1)
  {
    var m := row.Length;
    ghost var h := op.Rows();
    var r := 0;
    while r < m
      invariant 0 <= r <= m
      invariant forall i, c :: 0 <= i < r && 0 <= c < m ==> acc[i, c] == PartialProduct(h, k, i, c, j + 1)
      invariant forall i, c :: r <= i < m && 0 <= c < m ==> acc[i, c] == PartialProduct(h, k, i, c, j)
    {
      op.RowAgreesWithEntries(r);
      var hEntry := op.Entry(r, j);
      AccumulateRow(acc, row, r, hEntry);
      forall c | 0 <= c < m ensures acc[r, c] == PartialProduct(h, k, r, c, j + 1) {
        PartialProductStep(h, k, r, c, j);
      }
      r := r + 1;
    }
  }

  /** The j-loop: adds, for every column j of H, H(r, j) times row j of B H^T
      to every row r of an accumulator filled with zeros. */
  method AccumulateTerms(model: Model, op: LinearOperator, acc: array2<real>, ghost k: Matrix)
    requires Compatible(model, op) && k == Crossed(model, op)
    requires acc.Length0 == acc.Length1 == op.nobservation
    requires forall r, c :: 0 <= r < acc.Length0 && 0 <= c < acc.Length1 ==> acc[r, c] == 0.0
    modifies acc
    ensures forall r, c :: 0 <= r < acc.Length0 && 0 <= c < acc.Length1 ==>
              acc[r, c] == PartialProduct(op.Rows(), k, r, c, op.nstate)
  {
    var m := op.nobservation;
    ghost var h := op.Rows();
    var row := new real[m];
    var j := 0;
    while j < op.nstate
      invariant 0 <= j <= op.nstate
      invariant forall r, c :: 0 <= r < m && 0 <= c < m ==> acc[r, c] == PartialProduct(h, k, r, c, j)
      modifies acc, row
    {
      FillCrossRow(model, op, j, row);
      AccumulateColumn(acc, row, j, op, k);
      j := j + 1;
    }
  }

  /** Accumulates H B H^T one row of B at a time, into a matrix filled with zeros. */
  method AccumulateProduct(model: Model, op: LinearOperator) returns (acc: array2<real>)
    requires Compatible(model, op)
    ensures fresh(acc)
    ensures acc.Length0 == acc.Length1 == op.nobservation
    ensures forall i, c :: 0 <= i < acc.Length0 && 0 <= c < acc.Length1 ==>
              acc[i, c] == MatMul(op.Rows(), Crossed(model, op), acc.Length1)[i][c]
  {
    var m := op.nobservation;
    ghost var h, k := op.Rows(), Crossed(model, op);
    acc := new real[m, m]((r, c) => 0.0);
    AccumulateTerms(model, op, acc, k);
    forall r, c | 0 <= r < m && 0 <= c < m ensures acc[r, c] == MatMul(h, k, m)[r][c] {
      PartialProductComplete(h, k, r, c, m);
    }
  }

  /** Adds R(r, c) to every entry of the accumulator. */
  method AddErrorCovariance(acc: array2<real>, variance: real)
    requires acc.Length0 == acc.Length1
    modifies acc
    ensures forall i, c :: 0 <= i < acc.Length0 && 0 <= c < acc.Length1 ==>
              acc[i, c] == old(acc[i, c]) + ErrorCovarianceEntry(variance, i, c)
  {
    var m := acc.Length0;
    var r := 0;
    while r < m
      invariant 0 <= r <= m
      invariant forall i, c :: 0 <= i < r && 0 <= c < m ==> acc[i, c] == old(acc[i, c]) + ErrorCovarianceEntry(variance, i, c)
      invariant forall i, c :: r <= i < m && 0 <= c < m ==> acc[i, c] == old(acc[i, c])
    {
      var c := 0;
      while c < m
        invariant 0 <= c <= m
        invariant forall i, c' :: 0 <= i < r && 0 <= c' < m ==> acc[i, c'] == old(acc[i, c']) + ErrorCovarianceEntry(variance, i, c')
        invariant forall c' :: 0 <= c' < c ==> acc[r, c'] == old(acc[r, c']) + ErrorCovarianceEntry(variance, r, c')
        invariant forall i, c' :: r <= i < m && 0 <= c' < m && (i > r || c' >= c) ==> acc[i, c'] == old(acc[i, c'])
      {
        acc[r, c] := acc[r, c] + ErrorCovarianceEntry(variance, r, c);
        c := c + 1;
      }
      r := r + 1;
    }
  }

  /** Builds H B H^T + R in a matrix: H B H^T accumulated one row of B at a
      time, then R added entry by entry. */
  method BuildInnovationCovariance(model: Model, op: LinearOperator, variance: real) returns (hbhr: array2<real>)
    requires Compatible(model, op)
    ensures fresh(hbhr)
    ensures hbhr.Length0 == hbhr.Length1 == op.nobservation
    ensures forall i, c :: 0 <= i < hbhr.Length0 && 0 <= c < hbhr.Length1 ==>
              hbhr[i, c] == Covariance(model, op, variance)[i][c]
  {
    hbhr := AccumulateProduct(model, op);
    AddErrorCovariance(hbhr, variance);
  }

  /** Adds row r of B H^T times z to each entry r of the state. */
  method AddCorrection(state: array<real>, model: Model, op: LinearOperator, z: Vector)
    requires Compatible(model, op) && state.Length == op.nstate && |z| == op.nobservation
    modifies state
    ensures forall i :: 0 <= i < op.nstate ==> state[i] == old(state[i]) + Dot(Crossed(model, op)[i], z)
  {
    var bhtRow := new real[op.nobservation]((c) => 0.0);
    var r := 0;
    while r < op.nstate
      invariant 0 <= r <= op.nstate
      invariant forall i :: 0 <= i < r ==> state[i] == old(state[i]) + Dot(Crossed(model, op)[i], z)
      invariant forall i :: r <= i < op.nstate ==> state[i] == old(state[i])
      modifies state, bhtRow
    {
      FillCrossRow(model, op, r, bhtRow);
      state[r] := state[r] + Dot(bhtRow[..], z);
      r := r + 1;
    }
  }

  /** A state corrected entry by entry by the rows of B H^T is the dense analysis. */
  lemma {:induction false} CorrectionIsAnalysis(model: Model, op: LinearOperator, x0: Vector, x1: Vector, inv: Matrix, d: Vector)
    requires Compatible(model, op) && |x0| == |x1| == op.nstate
    requires |d| == op.nobservation && IsMatrix(inv, op.nobservation, op.nobservation)
    requires forall i :: 0 <= i < op.nstate ==> x1[i] == x0[i] + Dot(Crossed(model, op)[i], MatVec(inv, d))
    ensures x1 == DenseAnalysis(x0, model.background, op.Rows(), inv, d, op.nstate)
  {
    var k, z := Crossed(model, op), MatVec(inv, d);
    var xa := DenseAnalysis(x0, model.background, op.Rows(), inv, d, op.nstate);
    assert xa == VecAdd(x0, MatVec(k, z));
    forall i | 0 <= i < op.nstate ensures x1[i] == xa[i] {
      assert MatVec(k, z)[i] == Dot(k[i], z);
    }
  }

  /** The outcome of solving (H B H^T + R) sol = d and correcting x by B H^T sol. */
  function SolvedAnalysis(x: Vector, b: Matrix, h: Matrix, r: Matrix, d: Vector, n: nat, solve: Solver): Result<Vector>
    requires IsMatrix(b, n, n) && IsMatrix(h, |h|, n) && IsMatrix(r, |h|, |h|) && |x| == n && |d| == |h|
    requires SolverShaped(solve)
  {
    match solve(InnovationCovariance(b, h, r, n), d)
    case None => Err(Singular)
    case Some(sol) => Ok(SparseAnalysis(x, b, h, sol, n))
  }

  /** The sparse computation proper: so = B H^T and oo = H so + R as matrix
      products, the LU solve of oo sol = d, and the state increased by so sol. */
  method SolveAndCorrect(state: array<real>, b: Matrix, h: Matrix, r: Matrix, d: Vector, solve: Solver)
    returns (outcome: Outcome)
    requires IsMatrix(b, state.Length, state.Length) && IsMatrix(h, |h|, state.Length) && IsMatrix(r, |h|, |h|)
    requires |d| == |h| && SolverShaped(solve)
    modifies state
    ensures Reflects(SolvedAnalysis(old(state[..]), b, h, r, d, state.Length, solve), outcome, old(state[..]), state[..])
  {
    var n, m := state.Length, |h|;
    var workingSO := MatMul(b, Transpose(h, n), m);
    CrossCovarianceIsProduct(b, h, n);
    var workingOO := MatMul(h, workingSO, m);
    workingOO := MatAdd(workingOO, r);
    assert workingOO == InnovationCovariance(b, h, r, n);
    var solved := solve(workingOO, d);
    if solved.None? {
      return Fail(Singular);
    }
    var correction := MatVec(workingSO, solved.value);
    ghost var xa := SparseAnalysis(state[..], b, h, solved.value, n);
    forall i | 0 <= i < n {
      state[i] := state[i] + correction[i];
    }
    assert state[..] == xa;
    outcome := Pass;
  }

  /** The entries of a two-dimensional array as a matrix. */
  function ToMatrix(a: array2<real>): (m: Matrix)
    reads a
    ensures IsMatrix(m, a.Length0, a.Length1)
  {
    seq(a.Length0, i requires 0 <= i < a.Length0 reads a =>
      seq(a.Length1, j requires 0 <= j < a.Length1 reads a => a[i, j]))
  }

  class OptimalInterpolation {
    const model: Model
    const observationManager: LinearObservationManager
    const nstate: nat
    const analyzeFirstStep: bool
    var nobservation: nat
    var log: seq<Message>

    /** The dimensions of B, H, R and the observations agree with the state's. */
    predicate Consistent()
      reads observationManager
    {
      && model.nstate == nstate && IsMatrix(model.background, nstate, nstate)
      && observationManager.Ready() && observationManager.nstateModel == nstate
      && observationManager.periodObservation > 0 && observationManager.nskip > 0
    }

    predicate Valid()
      reads model, observationManager
    {
      Consistent() && model.Valid()
    }

    /** The driver over an initialised model and observation manager. */
    constructor (model: Model, observationManager: LinearObservationManager, analyzeFirstStep: bool)
      requires model.Valid() && observationManager.Ready() && observationManager.nstateModel == model.nstate
      requires observationManager.periodObservation > 0 && observationManager.nskip > 0
      ensures Valid()
      ensures this.model == model && this.observationManager == observationManager
      ensures nstate == model.GetNstate() && this.analyzeFirstStep == analyzeFirstStep && log == []
    {
      this.model := model;
      this.observationManager := observationManager;
      this.analyzeFirstStep := analyzeFirstStep;
      nstate := model.GetNstate();
      nobservation := 0;
      log := [];
    }

    /** H B H^T + R as the dense computation assembles it, from the row and
        entry views of H and the entry view of R. */
    function DenseCovariance(): (s: Matrix)
      reads observationManager
      requires Consistent()
      ensures IsMatrix(s, observationManager.nobservation, observationManager.nobservation)
    {
      Covariance(model, observationManager.Operator(), observationManager.errorVarianceValue)
    }

    /** The state the dense computation produces from x, or the exception it throws. */
    function DenseBLUE(x: Vector, inverse: Inverter): Result<Vector>
      reads observationManager
      requires Consistent() && |x| == nstate && InverterShaped(inverse)
    {
      match inverse(DenseCovariance())
      case None => Err(Singular)
      case Some(inv) =>
        Ok(DenseAnalysis(x, model.background, observationManager.Operator().Rows(), inv,
                         observationManager.Innovation(x), nstate))
    }

    /** H B H^T + R from the stored matrices of H and R. */
    function SparseCovariance(): (s: Matrix)
      reads observationManager
      requires Consistent() && observationManager.flags.tangentOperatorSparse && observationManager.flags.observationErrorSparse
      ensures IsMatrix(s, observationManager.nobservation, observationManager.nobservation)
    {
      InnovationCovariance(model.background, observationManager.TangentOperatorMatrix(),
                           observationManager.ObservationErrorVariance().value, nstate)
    }

    /** The state the sparse computation produces from x, or the exception it
        throws. Without the sparse build switch its body is empty. */
    function SparseBLUE(x: Vector, solve: Solver): Result<Vector>
      reads observationManager
      requires Consistent() && |x| == nstate && SolverShaped(solve)
    {
      if !observationManager.flags.tangentOperatorSparse then Ok(x)
      else if !observationManager.HasErrorMatrix() then Err(ErrorUndefined)
      else SolvedAnalysis(x, model.background, observationManager.TangentOperatorMatrix(),
                          observationManager.ObservationErrorVariance().value, observationManager.Innovation(x),
                          nstate, solve)
    }

    function BLUEPath(): Path
      reads observationManager
    {
      ChooseBLUEPath(observationManager.flags.tangentOperatorSparse, model.IsErrorSparse(),
                     observationManager.IsErrorSparse(), observationManager.IsOperatorSparse())
    }

    /** The outcome of ComputeBLUE on x. */
    function BLUE(x: Vector, inverse: Inverter, solve: Solver): Result<Vector>
      reads observationManager
      requires Consistent() && |x| == nstate && InverterShaped(inverse) && SolverShaped(solve)
    {
      if BLUEPath() == SparsePath then SparseBLUE(x, solve) else DenseBLUE(x, inverse)
    }

    /** Builds H B H^T one row of B at a time, adds R, inverts, and adds
        B H^T (H B H^T + R)^{-1} d to the state in place, d being the innovation
        of the state before the update. The rows and entries of H and R are the
        observation manager's, which do not change during the computation. */
    method ComputeBLUEDense(state: array<real>, inverse: Inverter) returns (outcome: Outcome)
      requires Consistent() && state.Length == nstate && InverterShaped(inverse)
      modifies this`nobservation, state
      ensures nobservation == observationManager.nobservation
      ensures Reflects(DenseBLUE(old(state[..]), inverse), outcome, old(state[..]), state[..])
    {
      nobservation := observationManager.GetNobservation();
      var op := observationManager.Operator();
      var m := nobservation;

      var hbhrInv := BuildInnovationCovariance(model, op, observationManager.errorVarianceValue);
      var hbhr := ToMatrix(hbhrInv);
      MatrixEquality(hbhr, DenseCovariance(), m, m);
      var inverted := inverse(hbhr);
      if inverted.None? {
        return Fail(Singular);
      }
      var inv := inverted.value;

      var innovation := observationManager.Innovation(state[..]);
      var hbhrInvInnovation := MatVec(inv, innovation);
      ghost var x0 := state[..];
      AddCorrection(state, model, op, hbhrInvInnovation);
      CorrectionIsAnalysis(model, op, x0, state[..], inv, innovation);
      outcome := Pass;
    }

    /** Solves (H B H^T + R) x = d with the stored sparse matrices and adds
        B H^T x to the state. Throws ErrorUndefined when R is not held as a
        matrix. The whole body is compiled only with the sparse operator switch. */
    method ComputeBLUESparse(state: array<real>, solve: Solver) returns (outcome: Outcome)
      requires Consistent() && state.Length == nstate && SolverShaped(solve)
      modifies this`nobservation, state
      ensures observationManager.flags.tangentOperatorSparse ==> nobservation == observationManager.nobservation
      ensures !observationManager.flags.tangentOperatorSparse ==> nobservation == old(nobservation)
      ensures Reflects(SparseBLUE(old(state[..]), solve), outcome, old(state[..]), state[..])
    {
      if !observationManager.flags.tangentOperatorSparse {
        return Pass;
      }
      nobservation := observationManager.GetNobservation();
      if !observationManager.HasErrorMatrix() {
        return Fail(ErrorUndefined);
      }
      var innovation := observationManager.Innovation(state[..]);
      outcome := SolveAndCorrect(state, model.background, observationManager.TangentOperatorMatrix(),
                                 observationManager.ObservationErrorVariance().value, innovation, solve);
    }

    /** Dense or sparse BLUE, as the sparsity of B, R and H dictate. */
    method ComputeBLUE(state: array<real>, inverse: Inverter, solve: Solver) returns (outcome: Outcome)
      requires Consistent() && state.Length == nstate && InverterShaped(inverse) && SolverShaped(solve)
      modifies this`nobservation, state
      ensures nobservation == observationManager.nobservation
      ensures Reflects(BLUE(old(state[..]), inverse, solve), outcome, old(state[..]), state[..])
    {
      if BLUEPath() == SparsePath {
        outcome := ComputeBLUESparse(state, solve);
      } else {
        outcome := ComputeBLUEDense(state, inverse);
      }
    }

    /** The analysis step of Analyze and Initialize: the model state is
        copied out, corrected by ComputeBLUE and, unless an exception was
        thrown, written back. */
    method CorrectState(inverse: Inverter, solve: Solver) returns (outcome: Outcome)
      requires Valid() && InverterShaped(inverse) && SolverShaped(solve)
      modifies this`nobservation, model`state
      ensures Valid()
      ensures nobservation == observationManager.nobservation
      ensures Reflects(BLUE(old(model.state), inverse, solve), outcome, old(model.state), model.state)
    {
      var stateVector := model.GetState();
      outcome := ComputeBLUE(stateVector, inverse, solve);
      if outcome.Pass? {
        model.SetState(stateVector);
      }
    }

    /** Loads the observations of the current date and, if there are any,
        corrects the model state: the step Analyze and Initialize share. */
    method LoadAndCorrect(readAt: int -> Vector, inverse: Inverter, solve: Solver) returns (outcome: Outcome)
      requires Valid() && InverterShaped(inverse) && SolverShaped(solve)
      requires forall p :: |readAt(p)| == nstate
      requires observationManager.observationType == "observation" ==> observationManager.nobservation == nstate
      modifies this`nobservation, model`state
      modifies observationManager`availability, observationManager`observation
      ensures Valid()
      ensures observationManager.availability
           == Available(TruncateToInt(model.date), observationManager.periodObservation, observationManager.nskip)
      ensures !observationManager.availability ==>
                && outcome == Pass && model.state == old(model.state) && nobservation == old(nobservation)
                && observationManager.observation == old(observationManager.observation)
      ensures observationManager.availability ==>
                Reflects(BLUE(old(model.state), inverse, solve), outcome, old(model.state), model.state)
    {
      observationManager.LoadObservation(model.GetDate(), readAt);
      if observationManager.HasObservation() {
        outcome := CorrectState(inverse, solve);
      } else {
        outcome := Pass;
      }
    }

    /** Loads the observations of the current date and, if there are any,
        replaces the model state by its analysis and tells the model and the
        observation manager. */
    method Analyze(readAt: int -> Vector, inverse: Inverter, solve: Solver) returns (outcome: Outcome)
      requires Valid() && InverterShaped(inverse) && SolverShaped(solve)
      requires forall p :: |readAt(p)| == nstate
      requires observationManager.observationType == "observation" ==> observationManager.nobservation == nstate
      modifies this`nobservation, this`log, model`state
      modifies observationManager`availability, observationManager`observation
      ensures Valid()
      ensures observationManager.availability
           == Available(TruncateToInt(model.date), observationManager.periodObservation, observationManager.nskip)
      ensures !observationManager.availability ==>
                && outcome == Pass && model.state == old(model.state) && nobservation == old(nobservation)
                && observationManager.observation == old(observationManager.observation)
                && log == old(log) + [AnalyzeBegin, AnalyzeEnd]
      ensures observationManager.availability ==>
                Reflects(BLUE(old(model.state), inverse, solve), outcome, old(model.state), model.state)
      ensures observationManager.availability && outcome.Pass? ==>
                log == old(log) + [AnalyzeBegin, ModelAnalysis, ObservationAnalysis, AnalyzeEnd]
      ensures outcome.Fail? ==> log == old(log) + [AnalyzeBegin]
    {
      log := log + [AnalyzeBegin];
      outcome := LoadAndCorrect(readAt, inverse, solve);
      if outcome.Fail? {
        return;
      }
      if observationManager.HasObservation() {
        log := log + [ModelAnalysis, ObservationAnalysis];
        Appended(old(log), AnalyzeBegin, ModelAnalysis, ObservationAnalysis, AnalyzeEnd);
      }
      log := log + [AnalyzeEnd];
    }

    /** Optionally analyses the first step, then announces the initial condition. */
    method Initialize(readAt: int -> Vector, inverse: Inverter, solve: Solver) returns (outcome: Outcome)
      requires Valid() && InverterShaped(inverse) && SolverShaped(solve)
      requires forall p :: |readAt(p)| == nstate
      requires observationManager.observationType == "observation" ==> observationManager.nobservation == nstate
      modifies this`nobservation, this`log, model`state
      modifies observationManager`availability, observationManager`observation
      ensures Valid()
      ensures !analyzeFirstStep ==>
                && observationManager.availability == old(observationManager.availability)
                && observationManager.observation == old(observationManager.observation)
      ensures analyzeFirstStep ==>
                observationManager.availability
                == Available(TruncateToInt(model.date), observationManager.periodObservation, observationManager.nskip)
      ensures !(analyzeFirstStep && observationManager.availability) ==>
                outcome == Pass && model.state == old(model.state) && nobservation == old(nobservation)
      ensures analyzeFirstStep && observationManager.availability ==>
                Reflects(BLUE(old(model.state), inverse, solve), outcome, old(model.state), model.state)
      ensures outcome.Pass? ==> log == old(log) + [InitializeBegin, ModelInitialCondition, InitializeEnd]
      ensures outcome.Fail? ==> log == old(log) + [InitializeBegin]
    {
      log := log + [InitializeBegin];
      outcome := Pass;
      if analyzeFirstStep {
        outcome := LoadAndCorrect(readAt, inverse, solve);
        if outcome.Fail? {
          return;
        }
      }
      log := log + [ModelInitialCondition, InitializeEnd];
    }

    /** The model's own step initialisation is not part of this model: only the
        messages around it are. */
    method InitializeStep()
      modifies this`log
      ensures log == old(log) + [InitializeStepBegin, InitializeStepEnd]
    {
      log := log + [InitializeStepBegin, InitializeStepEnd];
    }

    /** Advances the model by one step, without analysis, and announces the forecast. */
    method Forward(forecast: Vector, nextDate: real, nextFinished: bool)
      requires Valid() && |forecast| == nstate
      modifies model`state, model`date, model`finished, this`log
      ensures Valid()
      ensures model.state == forecast && model.date == nextDate && model.finished == nextFinished
      ensures log == old(log) + [ForwardBegin, ModelForecast,
                                 ObservationForecast, ForwardEnd]
    {
      log := log + [ForwardBegin];
      model.Forward(forecast, nextDate, nextFinished);
      log := log + [ModelForecast, ObservationForecast,
                    ForwardEnd];
    }

    /** The driver has finished exactly when the model has. */
    function HasFinished(): (b: bool)
      reads this, model
      ensures b == model.HasFinished()
    {
      model.HasFinished()
    }

    /** With H and R both built as sparse diagonal matrices, the sparse and the
        dense computations see the same H B H^T + R, and, when the solver's
        answer is the inverse applied to the innovation, they produce the same
        analysis. */
    lemma {:induction false} SparseAgreesWithDense(x: Vector, inverse: Inverter, solve: Solver)
      requires Consistent() && |x| == nstate && InverterShaped(inverse) && SolverShaped(solve)
      requires observationManager.flags.tangentOperatorSparse && !observationManager.flags.tangentOperatorDense
      requires observationManager.flags.observationErrorSparse
      requires inverse(DenseCovariance()).Some?
      requires MatMul(inverse(DenseCovariance()).value, DenseCovariance(), observationManager.nobservation)
               == Identity(observationManager.nobservation)
      requires solve(DenseCovariance(), observationManager.Innovation(x)).Some?
      requires MatVec(DenseCovariance(), solve(DenseCovariance(), observationManager.Innovation(x)).value)
               == observationManager.Innovation(x)
      ensures SparseCovariance() == DenseCovariance()
      ensures SparseBLUE(x, solve) == DenseBLUE(x, inverse)
    {
      observationManager.SparseMatrixIsOperator();
      var s := DenseCovariance();
      var d := observationManager.Innovation(x);
      var op := observationManager.Operator();
      SparseEqualsDense(x, model.background, op.Rows(), Diag(op.nobservation, observationManager.errorVarianceValue),
                        inverse(s).value, solve(s, d).value, d, nstate);
    }
  }
}
