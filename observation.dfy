/** The linear observation manager: observations are available every
    `period * Nskip` steps, are read from a binary file of fixed-size records,
    and are mapped to observation space by a tangent operator H that is either
    `diagonal` (a constant times the identity) or a matrix read from a file.
    The observation error covariance R is the constant variance times the
    identity. */
module Observation {
  import opened Errors
  import opened Linalg
  import opened CArith

  /** sizeof(T) for T = double, the instantiation every driver uses, and sizeof(int). */
  const SizeOfReal: int := 8
  const SizeOfInt: int := 4

  /** The preprocessor switches VERDANDI_TANGENT_OPERATOR_SPARSE,
      VERDANDI_OBSERVATION_ERROR_SPARSE and VERDANDI_TANGENT_OPERATOR_DENSE. */
  datatype BuildFlags = BuildFlags(tangentOperatorSparse: bool, observationErrorSparse: bool, tangentOperatorDense: bool)

  /** The keys of the `observation/` configuration section. */
  datatype Config = Config(
    observationType: string,
    periodObservation: int,
    nskip: int,
    errorVariance: real,
    operatorDefinition: string,
    diagonalValue: real)

  /** The constraints the configuration reader enforces on the section ("> 0"). */
  predicate ConfigAccepted(c: Config) {
    c.periodObservation > 0 && c.nskip > 0 && c.errorVariance > 0.0
  }

  /** Observation availability at a given step. */
  function Available(step: int, period: int, nskip: int): bool
    requires period * nskip > 0
  {
    CRem(step, period * nskip) == 0
  }

  /** Size in bytes of one record of `n` reals: the stored length, then the values. */
  function RecordSize(n: int): int {
    n * SizeOfReal + SizeOfInt
  }

  /** Byte offset of the record read at `step`. */
  function FilePosition(observationType: string, step: int, period: int, nskip: int, nstate: int, nobservation: int): int
    requires period * nskip > 0
  {
    if observationType == "state" then CDiv(step, period * nskip) * RecordSize(nstate)
    else if observationType == "observation" then CDiv(step, period * nskip) * RecordSize(nobservation)
    else 0
  }

  /** Availability: observations arrive exactly at the multiples of the loading period. */
  lemma {:induction false} AvailableIffMultiple(step: int, period: int, nskip: int)
    requires period > 0 && nskip > 0
    ensures Available(step, period, nskip) <==> exists k :: step == k * (period * nskip)
  {
    var m := period * nskip;
    CRemZeroIffDivides(step, m);
    if step % m == 0 {
      assert step == (step / m) * m;
    }
    if exists k :: step == k * m {
      var k :| step == k * m;
      MulDivMod(k, m);
    }
  }

  /** The k-th available step reads the k-th record of the file. */
  lemma {:induction false} FilePositionOfRecord(observationType: string, k: nat, period: int, nskip: int, nstate: int, nobservation: int)
    requires period > 0 && nskip > 0
    ensures Available(k * (period * nskip), period, nskip)
    ensures observationType == "state" ==>
              FilePosition(observationType, k * (period * nskip), period, nskip, nstate, nobservation) == k * RecordSize(nstate)
    ensures observationType == "observation" ==>
              FilePosition(observationType, k * (period * nskip), period, nskip, nstate, nobservation) == k * RecordSize(nobservation)
  {
    var m := period * nskip;
    MulDivMod(k, m);
    CRemZeroIffDivides(k * m, m);
  }

  /** The tangent operator H: either `diagonal` (the diagonal value times the
      identity) or the matrix read from the operator file. H maps states of
      `nstate` entries to `nobservation` observations. */
  datatype LinearOperator = LinearOperator(
    diagonal: bool, diagonalValue: real, matrix: Matrix, nobservation: nat, nstate: nat)
  {
    predicate Valid() {
      && (diagonal ==> nobservation == nstate)
      && (!diagonal ==> IsMatrix(matrix, nobservation, nstate))
    }

    /** Entry (i, j) of H. */
    function Entry(i: nat, j: nat): real
      requires !diagonal ==> i < |matrix| && j < |matrix[i]|
    {
      if diagonal then (if i == j then diagonalValue else 0.0) else matrix[i][j]
    }

    /** H as a matrix, row by row: for a diagonal operator, the diagonal
        value on the diagonal and zeros elsewhere. */
    function Rows(): (h: Matrix)
      requires Valid()
      ensures IsMatrix(h, nobservation, nstate)
    {
      if diagonal then Diag(nobservation, diagonalValue) else matrix
    }

    /** Row `row` of H. */
    function Row(row: nat): Vector
      requires Valid() && row < nobservation
    {
      Rows()[row]
    }

    /** H applied to x: the diagonal value times x, or the matrix times x. */
    function Apply(x: Vector): (y: Vector)
      requires !diagonal ==> IsMatrix(matrix, |matrix|, |x|)
      ensures diagonal ==> |y| == |x|
      ensures !diagonal ==> |y| == |matrix|
    {
      if diagonal then Scale(diagonalValue, x) else MatVec(matrix, x)
    }

    /** The row view agrees with the entry view; for a diagonal operator a row
        holds the diagonal value on the diagonal and zero elsewhere. */
    lemma {:induction false} RowAgreesWithEntries(row: nat)
      requires Valid() && row < nobservation
      ensures |Row(row)| == nstate
      ensures forall j :: 0 <= j < nstate ==> Row(row)[j] == Entry(row, j)
      ensures diagonal ==> forall j :: 0 <= j < nstate ==> Row(row)[j] == (if j == row then diagonalValue else 0.0)
    {
    }

    /** Applying the operator is multiplying by its matrix of rows. */
    lemma {:induction false} ApplyIsMatVec(x: Vector)
      requires Valid() && |x| == nstate
      ensures Apply(x) == MatVec(Rows(), x)
    {
      var h := Rows();
      if diagonal {
        var d := diagonalValue;
        forall r | 0 <= r < nobservation ensures Apply(x)[r] == MatVec(h, x)[r] {
          assert h[r] == seq(nobservation, j => if j == r then d else 0.0);
          DotUnit(nobservation, r, d, x);
        }
      }
    }
  }

  /** Entry (i, j) of the observation error covariance R: the variance on the
      diagonal, zero elsewhere. */
  function ErrorCovarianceEntry(variance: real, i: nat, j: nat): real
  {
    if i == j then variance else 0.0
  }

  class LinearObservationManager {
    const flags: BuildFlags
    var nstateModel: nat
    var observationType: string
    var periodObservation: int
    var nskip: int
    var errorVarianceValue: real
    var operatorDefinition: string
    var operatorDiagonalValue: real
    /** H when it is held as a matrix (sparse diagonal, or read from a file). */
    var tangentOperatorMatrix: Matrix
    /** R when it is held as a sparse matrix. */
    var errorVariance: Matrix
    var nobservation: nat
    var availability: bool
    var observation: Vector

    /** The main constructor only clears the availability flag; the observation
        vector is Seldon's default, empty one. The other fields are left
        uninitialised by the source and are given placeholder values here. */
    constructor (flags: BuildFlags)
      ensures this.flags == flags && !availability
      ensures observation == []
    {
      this.flags := flags;
      nstateModel, observationType, periodObservation, nskip := 0, "", 1, 1;
      errorVarianceValue, operatorDefinition, operatorDiagonalValue := 0.0, "", 0.0;
      tangentOperatorMatrix, errorVariance := [], [];
      nobservation, availability, observation := 0, false, [];
    }

    predicate IsDiagonal()
      reads this
    {
      operatorDefinition == "diagonal"
    }

    /** The dimensions agree: H maps model states to observation vectors, and the
        observation vector has one entry per observation. */
    predicate Ready()
      reads this
    {
      && Operator().Valid()
      && |observation| == nobservation
      && (flags.tangentOperatorSparse ==> IsMatrix(tangentOperatorMatrix, nobservation, nstateModel))
      && (flags.tangentOperatorSparse && !flags.tangentOperatorDense ==>
            tangentOperatorMatrix == Diag(nobservation, operatorDiagonalValue))
      && (flags.observationErrorSparse ==> errorVariance == Diag(nobservation, errorVarianceValue))
    }

    /** The first part of Initialize: the model dimension and the values read
        from the configuration. */
    method ReadConfiguration(nstate: nat, config: Config)
      modifies this`nstateModel, this`observationType, this`periodObservation, this`nskip
      modifies this`errorVarianceValue, this`operatorDefinition, this`operatorDiagonalValue
      ensures nstateModel == nstate && observationType == config.observationType
      ensures periodObservation == config.periodObservation && nskip == config.nskip
      ensures errorVarianceValue == config.errorVariance
      ensures operatorDefinition == config.operatorDefinition && operatorDiagonalValue == config.diagonalValue
    {
      nstateModel := nstate;
      observationType := config.observationType;
      periodObservation := config.periodObservation;
      nskip := config.nskip;
      errorVarianceValue := config.errorVariance;
      operatorDefinition := config.operatorDefinition;
      operatorDiagonalValue := config.diagonalValue;
    }

    /** Reads the configuration and builds H and R according to the build switches.
        `fileMatrix` is the matrix stored in the operator file, of `fileRows` x `fileCols`.
        The observation vector is reallocated to Nobservation entries; what the
        new storage holds is not specified (the body fills it with zeros), so
        the contract states its size only. */
    method Initialize(nstate: nat, config: Config, fileMatrix: Matrix, fileRows: nat, fileCols: nat)
      returns (outcome: Outcome)
      requires ConfigAccepted(config)
      requires IsMatrix(fileMatrix, fileRows, fileCols)
      modifies this
      ensures nstateModel == nstate && observationType == config.observationType
      ensures periodObservation == config.periodObservation && nskip == config.nskip
      ensures errorVarianceValue == config.errorVariance
      ensures operatorDefinition == config.operatorDefinition && operatorDiagonalValue == config.diagonalValue
      ensures availability == old(availability)
      ensures flags.tangentOperatorDense && fileCols != nstate ==> outcome == Fail(ErrorArgument)
      ensures outcome.Fail? ==> flags.tangentOperatorDense && fileCols != nstate
      ensures flags.tangentOperatorDense && fileCols == nstate ==>
                nobservation == fileRows
      ensures !flags.tangentOperatorDense && (flags.tangentOperatorSparse || flags.observationErrorSparse) ==>
                nobservation == nstate
      ensures !flags.tangentOperatorDense && flags.tangentOperatorSparse ==>
                tangentOperatorMatrix == Diag(nstate, config.diagonalValue)
      ensures flags.observationErrorSparse ==> errorVariance == Diag(nstate, config.errorVariance)
      ensures flags.tangentOperatorDense ==> tangentOperatorMatrix == fileMatrix
      ensures !flags.tangentOperatorDense && !flags.tangentOperatorSparse ==>
                tangentOperatorMatrix == old(tangentOperatorMatrix)
      ensures !flags.observationErrorSparse ==> errorVariance == old(errorVariance)
      ensures (flags.tangentOperatorSparse || flags.observationErrorSparse) && outcome.Fail? ==> nobservation == nstate
      ensures !flags.tangentOperatorSparse && !flags.observationErrorSparse && !(flags.tangentOperatorDense && outcome.Pass?) ==>
                nobservation == old(nobservation) && observation == old(observation)
      ensures flags.tangentOperatorSparse || flags.observationErrorSparse || (flags.tangentOperatorDense && outcome.Pass?) ==>
                |observation| == nobservation
      ensures outcome.Pass? && !flags.tangentOperatorDense && flags.tangentOperatorSparse ==> Ready()
      ensures (outcome.Pass? && !flags.tangentOperatorDense && !flags.tangentOperatorSparse
               && flags.observationErrorSparse && IsDiagonal()) ==> Ready()
      ensures outcome.Pass? && flags.tangentOperatorDense && (IsDiagonal() || flags.observationErrorSparse ==> fileRows == nstate) ==> Ready()
    {
      ReadConfiguration(nstate, config);

      var nobs, obs, h, r := nobservation, observation, tangentOperatorMatrix, errorVariance;
      if flags.tangentOperatorSparse {
        nobs := nstate;
        obs := Zeros(nobs);
        h := Diag(nobs, config.diagonalValue);
      }
      if flags.observationErrorSparse {
        nobs := nstate;
        obs := Zeros(nobs);
        r := Diag(nobs, config.errorVariance);
      }
      outcome := Pass;
      if flags.tangentOperatorDense {
        h := fileMatrix;
        if fileCols != nstate {
          outcome := Fail(ErrorArgument);
        } else {
          nobs := fileRows;
          obs := Zeros(nobs);
        }
      }
      nobservation, observation, tangentOperatorMatrix, errorVariance := nobs, obs, h, r;
    }

    /** H as the operator value the manager's fields describe. */
    function Operator(): LinearOperator
      reads this
    {
      LinearOperator(IsDiagonal(), operatorDiagonalValue, tangentOperatorMatrix, nobservation, nstateModel)
    }

    function ApplyOperator(x: Vector): (y: Vector)
      reads this
      requires !IsDiagonal() ==> IsMatrix(tangentOperatorMatrix, |tangentOperatorMatrix|, |x|)
    {
      Operator().Apply(x)
    }

    /** The date is truncated to an integer step; observations are loaded when the
        step is a multiple of the loading period. `readAt(p)` is the vector stored
        at byte offset p of the observation file. H is applied to the record, so
        the record must have Nstate values; records of type "observation" are
        spaced by Nobservation values, so for that type Nobservation must equal
        Nstate (otherwise the source applies H to a vector of the wrong size). */
    method LoadObservation(date: real, readAt: int -> Vector)
      requires Ready() && periodObservation > 0 && nskip > 0
      requires forall p :: |readAt(p)| == nstateModel
      requires observationType == "observation" ==> nobservation == nstateModel
      modifies this`availability, this`observation
      ensures Ready()
      ensures availability == Available(TruncateToInt(date), periodObservation, nskip)
      ensures availability ==>
                observation == ApplyOperator(readAt(FilePosition(observationType, TruncateToInt(date),
                                                                 periodObservation, nskip, nstateModel, nobservation)))
      ensures !availability ==> observation == old(observation)
    {
      var step := TruncateToInt(date);
      availability := CRem(step, periodObservation * nskip) == 0;
      if availability {
        var position := 0;
        if observationType == "state" {
          position := CDiv(step, periodObservation * nskip) * RecordSize(nstateModel);
        }
        if observationType == "observation" {
          position := CDiv(step, periodObservation * nskip) * RecordSize(nobservation);
        }
        var inputData := readAt(position);
        observation := ApplyOperator(inputData);
      }
    }

    function HasObservation(): bool reads this { availability }

    function GetNobservation(): nat reads this { nobservation }

    function IsOperatorSparse(): bool reads this { flags.tangentOperatorSparse }

    function IsErrorSparse(): bool reads this { flags.observationErrorSparse }

    /** R is available as a matrix exactly when it is built as a sparse matrix. */
    function HasErrorMatrix(): (b: bool)
      reads this
      ensures b == IsErrorSparse()
    {
      flags.observationErrorSparse
    }

    function TangentOperator(i: nat, j: nat): real
      reads this
      requires !IsDiagonal() ==> i < |tangentOperatorMatrix| && j < |tangentOperatorMatrix[i]|
    {
      Operator().Entry(i, j)
    }

    function TangentOperatorRow(row: nat): Vector
      reads this
      requires Ready() && row < nobservation
    {
      Operator().Row(row)
    }

    /** The stored matrix of H (the sparse diagonal, or the matrix read from the file). */
    function TangentOperatorMatrix(): Matrix
      reads this
    {
      tangentOperatorMatrix
    }

    /** When H is built sparse, its stored matrix is the operator the row and
        entry views give. */
    lemma {:induction false} SparseMatrixIsOperator()
      requires Ready() && flags.tangentOperatorSparse && !flags.tangentOperatorDense
      ensures Operator().Rows() == TangentOperatorMatrix()
      ensures TangentOperatorMatrix() == Diag(nobservation, operatorDiagonalValue)
    {
    }

    /** The innovation y - H x. */
    function Innovation(state: Vector): (d: Vector)
      reads this
      requires Ready() && |state| == nstateModel
      ensures |d| == nobservation
      ensures d == VecSub(observation, MatVec(Operator().Rows(), state))
    {
      Operator().ApplyIsMatVec(state);
      VecSub(observation, ApplyOperator(state))
    }

    function ObservationErrorCovariance(i: nat, j: nat): real
      reads this
    {
      ErrorCovarianceEntry(errorVarianceValue, i, j)
    }

    /** R as a matrix, entry by entry. */
    function ObservationErrorCovarianceMatrix(): (m: Matrix)
      reads this
      ensures IsMatrix(m, nobservation, nobservation)
      ensures forall i, j :: 0 <= i < nobservation && 0 <= j < nobservation ==> m[i][j] == ObservationErrorCovariance(i, j)
      ensures forall i, j :: 0 <= i < nobservation && 0 <= j < nobservation ==> m[i][j] == m[j][i]
    {
      Diag(nobservation, errorVarianceValue)
    }

    /** R is only available as a matrix when it is built sparse. */
    function ObservationErrorVariance(): (r: Result<Matrix>)
      reads this
      ensures r.Ok? <==> HasErrorMatrix()
      ensures r.Ok? ==> r.value == errorVariance
      ensures r.Err? ==> r.error == ErrorUndefined
    {
      if flags.observationErrorSparse then Ok(errorVariance) else Err(ErrorUndefined)
    }

    /** This manager provides no BLUE correction: both queries throw. */
    function HasBLUECorrection(): (r: Result<bool>)
      ensures r == Err(ErrorUndefined)
    {
      Err(ErrorUndefined)
    }

    function GetBLUECorrection(): (r: Result<Vector>)
      ensures r == Err(ErrorUndefined)
    {
      Err(ErrorUndefined)
    }
  }
}
