/** The model a driver assimilates into, reduced to the interface the optimal
    interpolation driver uses: the state, the date, the background error
    covariance B and whether the model has finished. The time integration
    itself belongs to each concrete model and enters as the forecast the
    model produces. */
module ForwardModel {
  import opened Linalg

  class Model {
    const nstate: nat
    /** Whether B is held as a sparse matrix. */
    const errorSparse: bool
    /** The background error covariance B, nstate x nstate. */
    const background: Matrix
    var state: Vector
    var date: real
    var finished: bool

    predicate Valid()
      reads this
    {
      |state| == nstate && IsMatrix(background, nstate, nstate)
    }

    constructor (initialState: Vector, background: Matrix, errorSparse: bool, date: real)
      requires IsMatrix(background, |initialState|, |initialState|)
      ensures Valid()
      ensures nstate == |initialState| && state == initialState && this.background == background
      ensures this.errorSparse == errorSparse && this.date == date && !finished
    {
      nstate := |initialState|;
      this.errorSparse := errorSparse;
      this.background := background;
      state := initialState;
      this.date := date;
      finished := false;
    }

    function GetNstate(): nat { nstate }

    function GetDate(): real reads this { date }

    function IsErrorSparse(): bool { errorSparse }

    function HasFinished(): bool reads this { finished }

    /** Row `j` of B. */
    function BackgroundErrorCovarianceRow(j: nat): (row: Vector)
      requires IsMatrix(background, nstate, nstate) && j < nstate
      ensures |row| == nstate
    {
      background[j]
    }

    /** Copies the state into a new vector. */
    method GetState() returns (s: array<real>)
      requires Valid()
      ensures fresh(s) && s[..] == state
    {
      var v := state;
      s := new real[|v|](i requires 0 <= i < |v| => v[i]);
    }

    /** Replaces the state by the given vector. */
    method SetState(s: array<real>)
      requires Valid() && s.Length == nstate
      modifies this`state
      ensures Valid() && state == s[..]
    {
      state := s[..];
    }

    /** One time step of the model: the state becomes the forecast and the date advances. */
    method Forward(forecast: Vector, nextDate: real, nextFinished: bool)
      requires Valid() && |forecast| == nstate
      modifies this`state, this`date, this`finished
      ensures Valid()
      ensures state == forecast && date == nextDate && finished == nextFinished
    {
      state, date, finished := forecast, nextDate, nextFinished;
    }
  }
}
