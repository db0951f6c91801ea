/** The bookkeeping of the Hamilton-Jacobi-Bellman solver: the checks the
    constructor makes on its configuration, the mapping of the boundary type to
    an index, the ghost value a boundary cell sees along one dimension, the
    sub-stepping of the Lax-Friedrichs scheme, and the time-step counter. The
    value-function updates themselves are not modelled. */
module HJB {
  import opened Errors
  import opened Linalg
  import opened CArith
  import opened Messages

  /** The keys of the HJB configuration sections that the constructor reads;
      the lists are the entries already split into tokens. */
  datatype Settings = Settings(
    discretization: seq<string>,
    initialDate: real,
    deltaT: real,
    nt: int,
    modelTimeDependent: bool,
    q0: seq<string>,
    scheme: string,
    boundaryType: string,
    boundaryValue: real,
    upperBoundModel: seq<string>)

  /** The checks the constructor makes, each of which throws ErrorConfiguration:
      one "x_min delta_x Nx" triple per dimension, as many dimensions as the
      model has state variables, a square Q_0 matrix, and under the "LxF" scheme
      one upper bound of the model per dimension. */
  predicate Accepted(modelNstate: int, s: Settings) {
    && |s.discretization| % 3 == 0
    && |s.discretization| / 3 == modelNstate
    && |s.q0| == modelNstate * modelNstate
    && (s.scheme == "LxF" ==> |s.upperBoundModel| == modelNstate)
  }

  /** to_num: the conversion of a configuration token to a number. */
  type RealReader = string -> real
  type IntReader = string -> int

  // Boundary condition indices.
  const DirichletIndex := 0
  const ExtrapolationIndex := 1
  const PeriodicIndex := 2

  /** The boundary type name mapped to its index; any name other than
      "Dirichlet" and "Extrapolation" is periodic. */
  function BoundaryConditionIndex(boundaryType: string): (i: int)
    ensures 0 <= i <= 2
    ensures i == DirichletIndex <==> boundaryType == "Dirichlet"
    ensures i == ExtrapolationIndex <==> boundaryType == "Extrapolation"
    ensures boundaryType == "Periodic" ==> i == PeriodicIndex
  {
    if boundaryType == "Dirichlet" then 0
    else if boundaryType == "Extrapolation" then 1
    else 2
  }

  /** Product of the entries of a sequence (1 for the empty one). */
  function Product(s: seq<int>): int {
    if |s| == 0 then 1 else Product(s[..|s| - 1]) * s[|s| - 1]
  }

  /** A grid with at least one point per dimension has at least one point. */
  lemma {:induction false} ProductPositive(s: seq<int>)
    requires forall i :: 0 <= i < |s| ==> s[i] >= 1
    ensures Product(s) >= 1
    decreases |s|
  {
    if |s| > 0 {
      ProductPositive(s[..|s| - 1]);
      MulAtLeast(Product(s[..|s| - 1]), s[|s| - 1]);
    }
  }

  /** Row-major position (i, j) of an n x n matrix lies among its n * n entries. */
  lemma {:induction false} RowMajorIndex(i: int, j: int, n: int)
    requires 0 <= i < n && 0 <= j < n
    ensures 0 <= i * n + j < n * n
  {
    MulNonneg(i, n);
    assert i * n + j < (i + 1) * n;
    assert (i + 1) * n <= n * n by { MulNonneg(n - i - 1, n); }
  }

  /** Q_0 read from its tokens row by row. */
  function RowMajor(tokens: seq<string>, n: nat, toReal: RealReader): (q: Matrix)
    requires |tokens| == n * n
    ensures IsMatrix(q, n, n)
  {
    seq(n, i requires 0 <= i < n =>
      seq(n, j requires 0 <= j < n => RowMajorIndex(i, j, n); toReal(tokens[i * n + j])))
  }

  /** Every token of Q_0 lands in exactly one entry: token k becomes entry
      (k / n, k % n). */
  lemma {:induction false} RowMajorUsesEveryToken(tokens: seq<string>, n: nat, toReal: RealReader, k: int)
    requires |tokens| == n * n && 0 <= k < n * n
    ensures 0 <= k / n < n && 0 <= k % n < n
    ensures RowMajor(tokens, n, toReal)[k / n][k % n] == toReal(tokens[k])
  {
    assert n > 0;
    var i, j := k / n, k % n;
    assert k == i * n + j;
    MulNonneg(i, n);
  }

  /** The two neighbours a cell uses along one dimension, and the value the
      member boundary_condition_ holds once the cell has been visited. */
  datatype Stencil = Stencil(left: real, right: real, boundary: real)

  /** The neighbour rule of the three advection schemes. `line` holds the
      values of V along one dimension through the cell, `p` is the cell's
      coordinate along it and `bc` the value of boundary_condition_ before the
      visit. The upper end is checked first; there the missing right neighbour
      is the ghost value, at the lower end the missing left one. Extrapolation
      continues the two end values linearly, the periodic rule takes the value
      at the opposite end, and the Dirichlet rule keeps the configured value. */
  function CellStencil(index: int, line: seq<real>, p: nat, bc: real): (s: Stencil)
    requires |line| >= 2 && p < |line|
  {
    var n := |line|;
    if p == n - 1 then
      var g := if index == ExtrapolationIndex then 2.0 * line[p] - line[p - 1]
               else if index == PeriodicIndex then line[0]
               else bc;
      Stencil(line[p - 1], g, g)
    else if p == 0 then
      var g := if index == ExtrapolationIndex then 2.0 * line[0] - line[1]
               else if index == PeriodicIndex then line[n - 1]
               else bc;
      Stencil(g, line[1], g)
    else
      Stencil(line[p - 1], line[p + 1], bc)
  }

  /** Away from the ends the neighbours are the adjacent cells and the member
      is not touched. */
  lemma {:induction false} InteriorStencil(index: int, line: seq<real>, p: nat, bc: real)
    requires |line| >= 2 && 0 < p < |line| - 1
    ensures CellStencil(index, line, p, bc) == Stencil(line[p - 1], line[p + 1], bc)
  {
  }

  /** The periodic rule closes the grid into a ring: the neighbours of every
      cell are the cells before and after it modulo the number of cells. */
  lemma {:induction false} PeriodicStencilWraps(line: seq<real>, p: nat, bc: real)
    requires |line| >= 2 && p < |line|
    ensures CellStencil(PeriodicIndex, line, p, bc).left == line[(p + |line| - 1) % |line|]
    ensures CellStencil(PeriodicIndex, line, p, bc).right == line[(p + 1) % |line|]
  {
    var n := |line|;
    if p == 0 {
      ModOfRange(n - 1, n, 0);
    } else {
      ModOfRange(p + n - 1, n, 1);
    }
    if p == n - 1 {
      ModOfRange(n, n, 1);
    } else {
      ModOfRange(p + 1, n, 0);
    }
  }

  /** The remainder of an x with q * n <= x < (q + 1) * n, for q = 0 or 1. */
  lemma {:induction false} ModOfRange(x: int, n: int, q: int)
    requires n > 0 && (q == 0 || q == 1) && q * n <= x < q * n + n
    ensures x % n == x - q * n
  {
    var d, r := x / n, x % n;
    assert x == d * n + r && 0 <= r < n;
  }

  /** On values that are affine along the dimension, extrapolation continues
      the line: every cell sees the values the line takes one step to its left
      and one step to its right. */
  lemma {:induction false} ExtrapolationContinuesLine(line: seq<real>, a: real, b: real, p: nat, bc: real)
    requires |line| >= 2 && p < |line|
    requires forall k :: 0 <= k < |line| ==> line[k] == a + b * (k as real)
    ensures CellStencil(ExtrapolationIndex, line, p, bc).left == a + b * ((p as real) - 1.0)
    ensures CellStencil(ExtrapolationIndex, line, p, bc).right == a + b * ((p as real) + 1.0)
  {
    var n := |line|;
    assert line[p] == a + b * (p as real);
    if p > 0 {
      assert line[p - 1] == a + b * ((p - 1) as real);
    }
    if p < n - 1 {
      assert line[p + 1] == a + b * ((p + 1) as real);
    }
    if p == 0 {
      assert line[1] == a + b * 1.0;
    }
  }

  /** Under the Dirichlet rule the member keeps the configured value, and the
      cells at both ends see it as their missing neighbour. */
  lemma {:induction false} DirichletKeepsValue(line: seq<real>, p: nat, bc: real)
    requires |line| >= 2 && p < |line|
    ensures CellStencil(DirichletIndex, line, p, bc).boundary == bc
    ensures p == |line| - 1 ==> CellStencil(DirichletIndex, line, p, bc).right == bc
    ensures p == 0 ==> CellStencil(DirichletIndex, line, p, bc).left == bc
  {
  }

  /** Under the extrapolation and periodic rules the member is overwritten
      before it is read, so what a cell sees does not depend on what a previous
      cell left in it. */
  lemma {:induction false} StaleBoundaryIgnored(index: int, line: seq<real>, p: nat, bc1: real, bc2: real)
    requires |line| >= 2 && p < |line|
    requires index == ExtrapolationIndex || index == PeriodicIndex
    ensures CellStencil(index, line, p, bc1).left == CellStencil(index, line, p, bc2).left
    ensures CellStencil(index, line, p, bc1).right == CellStencil(index, line, p, bc2).right
  {
  }

  /** The value of boundary_condition_ once all cells of a line have been
      visited in order, starting from `bc`. */
  function BoundaryAfterSweep(index: int, line: seq<real>, bc: real): (v: real)
    requires |line| >= 2
    ensures v == CellStencil(index, line, |line| - 1, bc).boundary
    ensures index != ExtrapolationIndex && index != PeriodicIndex ==> v == bc
  {
    var n := |line|;
    if index == ExtrapolationIndex then 2.0 * line[n - 1] - line[n - 2]
    else if index == PeriodicIndex then line[0]
    else bc
  }

  /** The Courant number above which the Lax-Friedrichs step is split. */
  const Limit: real := 0.5

  /** The number of sub-steps: the Courant number over the limit, truncated,
      plus one. */
  function Division(courant: real): (n: int)
    requires courant > Limit
    ensures n >= 2
  {
    TruncateToInt(courant / Limit) + 1
  }

  /** The time increments of the Lax-Friedrichs sub-stepping in exact
      arithmetic: no split when the Courant number is at most the limit (or the
      time step is zero), a single clamped step for a negative time step, and
      otherwise Division(courant) equal steps. */
  function SubSteps(courant: real, deltaT: real): (steps: seq<real>)
  {
    if courant <= Limit || deltaT == 0.0 then []
    else if deltaT < 0.0 then [deltaT]
    else seq(Division(courant), _ => deltaT / (Division(courant) as real))
  }

  /** Sum of a sequence of reals. */
  function Sum(s: seq<real>): real {
    if |s| == 0 then 0.0 else Sum(s[..|s| - 1]) + s[|s| - 1]
  }

  lemma {:induction false} SumConstant(k: nat, c: real)
    ensures Sum(seq(k, _ => c)) == (k as real) * c
  {
    if k > 0 {
      var s := seq(k, _ => c);
      assert s[..k - 1] == seq(k - 1, _ => c);
      SumConstant(k - 1, c);
    }
  }

  /** k equal steps of dt / n, with k <= n, stay within dt and reach it at k = n. */
  lemma {:induction false} EqualStepsBound(k: nat, n: nat, dt: real)
    requires 0 < n && k <= n && dt > 0.0
    ensures 0.0 <= (k as real) * (dt / (n as real)) <= dt
    ensures (k as real) * (dt / (n as real)) == dt <==> k == n
  {
    var s := dt / (n as real);
    assert s > 0.0;
    assert (n as real) * s == dt;
    assert (k as real) * s <= (n as real) * s;
    if k < n {
      assert (k as real) * s < (n as real) * s;
    }
  }

  /** One more of k < n equal steps of dt / n: the sum does not pass dt, and
      it reaches dt exactly with the n-th step. */
  lemma {:induction false} PositiveStep(k: nat, n: nat, dt: real, t: real)
    requires k < n && dt > 0.0 && t == (k as real) * (dt / (n as real))
    ensures t + dt / (n as real) == ((k + 1) as real) * (dt / (n as real))
    ensures !(t + dt / (n as real) > dt)
    ensures t + dt / (n as real) == dt <==> k + 1 == n
  {
    EqualStepsBound(k + 1, n, dt);
  }

  lemma {:induction false} ConstantSnoc(k: nat, c: real)
    ensures seq(k, _ => c) + [c] == seq(k + 1, _ => c)
  {
  }

  /** A negative time step split in two or more is shorter than the whole. */
  lemma {:induction false} NegativeStep(dt: real, d: real)
    requires dt < 0.0 && d >= 2.0
    ensures dt / d > dt
  {
    var s := dt / d;
    assert s * d == dt;
    assert s < 0.0;
    assert s * (d - 1.0) < 0.0;
  }

  /** The sub-steps never carry the accumulated time past the time step: each
      partial sum lies between 0 and deltaT. */
  lemma {:induction false} SubStepsStayWithinStep(courant: real, deltaT: real, k: nat)
    requires k <= |SubSteps(courant, deltaT)|
    ensures var t := Sum(SubSteps(courant, deltaT)[..k]);
            (deltaT >= 0.0 ==> 0.0 <= t <= deltaT) && (deltaT < 0.0 ==> deltaT <= t <= 0.0)
  {
    var steps := SubSteps(courant, deltaT);
    if courant <= Limit || deltaT == 0.0 {
    } else if deltaT < 0.0 {
      if k == 1 { assert steps[..1] == [deltaT]; assert [deltaT][..0] == []; }
      else { assert steps[..0] == []; }
    } else {
      var n := Division(courant);
      assert steps[..k] == seq(k, _ => deltaT / (n as real));
      SumConstant(k, deltaT / (n as real));
      EqualStepsBound(k, n, deltaT);
    }
  }

  /** When the step is split, the sub-steps add up to the whole time step. */
  lemma {:induction false} SubStepsCoverStep(courant: real, deltaT: real)
    requires courant > Limit && deltaT != 0.0
    ensures Sum(SubSteps(courant, deltaT)) == deltaT
  {
    var steps := SubSteps(courant, deltaT);
    if deltaT < 0.0 {
      assert [deltaT][..0] == [];
    } else {
      var n := Division(courant);
      SumConstant(n, deltaT / (n as real));
      EqualStepsBound(n, n, deltaT);
    }
  }

  // The messages the solver sends.
  const ForwardBegin := Message("all", "::Forward begin")
  const ForecastValue := Message("all", "forecast value")
  const ForwardEnd := Message("all", "::Forward end")
  const LxFBegin := Message("all", "::AdvectionLxFForward begin")
  const LxFEnd := Message("all", "::AdvectionLxFForward end")
  const BrysonLevyBegin := Message("all", "::AdvectionBrysonLevyForward begin")
  const BrysonLevyEnd := Message("all", "::AdvectionBrysonLevyForward end")
  const GodunovBegin := Message("all", "::AdvectionGodunov begin")
  const GodunovEnd := Message("all", "::AdvectionGodunov end")

  /** The messages of one scheme's step: "LxF", "BrysonLevy", or Godunov for
      any other name. */
  function SchemeMessages(scheme: string): (m: seq<Message>)
    ensures |m| == 2
  {
    if scheme == "LxF" then [LxFBegin, LxFEnd]
    else if scheme == "BrysonLevy" then [BrysonLevyBegin, BrysonLevyEnd]
    else [GodunovBegin, GodunovEnd]
  }

  class HamiltonJacobiBellman {
    var ndimension: int
    var xMin: seq<real>
    var deltaX: seq<real>
    var nx: seq<int>
    var npoint: int
    var initialDate: real
    var deltaT: real
    var nt: int
    var modelTimeDependent: bool
    var q0: Matrix
    var scheme: string
    var boundaryConditionType: string
    var boundaryConditionIndex: int
    var boundaryCondition: real
    var upperBoundModel: seq<real>
    var timeStep: int
    var log: seq<Message>

    /** The grid read from the discretisation triples. */
    ghost predicate GridRead(tokens: seq<string>, toReal: RealReader, toInt: IntReader)
      reads this`ndimension, this`xMin, this`deltaX, this`nx, this`npoint
      requires |tokens| % 3 == 0
    {
      && ndimension == |tokens| / 3
      && |xMin| == ndimension && |deltaX| == ndimension && |nx| == ndimension
      && (forall i :: 0 <= i < ndimension ==>
            xMin[i] == toReal(tokens[3 * i]) && deltaX[i] == toReal(tokens[3 * i + 1])
            && nx[i] == toInt(tokens[3 * i + 2]))
      && npoint == Product(nx)
    }

    /** The solver and boundary entries as read. */
    ghost predicate SolverRead(s: Settings, toReal: RealReader)
      reads this`ndimension, this`scheme, this`boundaryConditionType, this`boundaryConditionIndex
      reads this`boundaryCondition, this`upperBoundModel
    {
      && scheme == s.scheme && boundaryConditionType == s.boundaryType
      && boundaryConditionIndex == BoundaryConditionIndex(s.boundaryType)
      && boundaryCondition == s.boundaryValue
      && (s.scheme == "LxF" ==>
            |upperBoundModel| == ndimension == |s.upperBoundModel|
            && forall i :: 0 <= i < ndimension ==> upperBoundModel[i] == toReal(s.upperBoundModel[i]))
    }

    /** The time entries, Q_0 and the solver and boundary entries as read. */
    ghost predicate CoefficientsRead(s: Settings, toReal: RealReader)
      reads this`ndimension, this`initialDate, this`deltaT, this`nt, this`modelTimeDependent, this`q0
      reads this`scheme, this`boundaryConditionType, this`boundaryConditionIndex
      reads this`boundaryCondition, this`upperBoundModel
    {
      && initialDate == s.initialDate && deltaT == s.deltaT && nt == s.nt
      && modelTimeDependent == s.modelTimeDependent
      && ndimension >= 0 && |s.q0| == ndimension * ndimension
      && q0 == RowMajor(s.q0, ndimension, toReal)
      && SolverRead(s, toReal)
    }

    /** The state of a successfully constructed solver. */
    ghost predicate Configured(modelNstate: int, s: Settings, toReal: RealReader, toInt: IntReader)
      reads this`ndimension, this`xMin, this`deltaX, this`nx, this`npoint, this`initialDate, this`deltaT, this`nt
      reads this`modelTimeDependent, this`q0, this`scheme, this`boundaryConditionType, this`boundaryConditionIndex
      reads this`boundaryCondition, this`upperBoundModel
      requires Accepted(modelNstate, s)
    {
      GridRead(s.discretization, toReal, toInt) && CoefficientsRead(s, toReal)
    }

    /** The initialiser list: the time step starts at zero. */
    constructor ()
      ensures timeStep == 0 && log == []
    {
      ndimension, xMin, deltaX, nx, npoint := 0, [], [], [], 1;
      initialDate, deltaT, nt, modelTimeDependent := 0.0, 0.0, 0, false;
      q0, scheme, boundaryConditionType, boundaryConditionIndex := [], "", "", 0;
      boundaryCondition, upperBoundModel := 0.0, [];
      timeStep, log := 0, [];
    }

    /** Reads the discretisation triples and counts the grid points. */
    method ReadDiscretization(tokens: seq<string>, toReal: RealReader, toInt: IntReader)
      requires |tokens| % 3 == 0
      modifies this`ndimension, this`xMin, this`deltaX, this`nx, this`npoint
      ensures GridRead(tokens, toReal, toInt)
      ensures (forall k :: 0 <= k < |nx| ==> nx[k] >= 1) ==> npoint >= 1
    {
      var n := |tokens| / 3;
      var xs, ds, ns, count := seq(n, _ => 0.0), seq(n, _ => 0.0), seq(n, _ => 0), 1;
      var i := 0;
      while i < n
        invariant 0 <= i <= n == |tokens| / 3 && |tokens| == 3 * n
        invariant |xs| == n && |ds| == n && |ns| == n
        invariant forall k :: 0 <= k < i ==> xs[k] == toReal(tokens[3 * k])
        invariant forall k :: 0 <= k < i ==> ds[k] == toReal(tokens[3 * k + 1])
        invariant forall k :: 0 <= k < i ==> ns[k] == toInt(tokens[3 * k + 2])
        invariant count == Product(ns[..i])
      {
        xs := xs[i := toReal(tokens[3 * i])];
        ds := ds[i := toReal(tokens[3 * i + 1])];
        ns := ns[i := toInt(tokens[3 * i + 2])];
        assert ns[..i + 1][..i] == ns[..i];
        count := count * ns[i];
        i := i + 1;
      }
      assert ns[..i] == ns;
      if forall k :: 0 <= k < n ==> ns[k] >= 1 {
        ProductPositive(ns);
      }
      ndimension, xMin, deltaX, nx, npoint := n, xs, ds, ns, count;
    }

    /** Fills Q_0 row by row from its tokens. */
    method ReadQ0(tokens: seq<string>, n: nat, toReal: RealReader)
      requires |tokens| == n * n
      modifies this`q0
      ensures q0 == RowMajor(tokens, n, toReal)
    {
      ghost var target := RowMajor(tokens, n, toReal);
      q0 := seq(n, _ => seq(n, _ => 0.0));
      var i := 0;
      while i < n
        invariant 0 <= i <= n
        invariant IsMatrix(q0, n, n)
        invariant forall r :: 0 <= r < i ==> q0[r] == target[r]
      {
        var j := 0;
        while j < n
          invariant 0 <= j <= n
          invariant IsMatrix(q0, n, n)
          invariant forall r :: 0 <= r < i ==> q0[r] == target[r]
          invariant forall c :: 0 <= c < j ==> q0[i][c] == target[i][c]
        {
          RowMajorIndex(i, j, n);
          q0 := q0[i := q0[i][j := toReal(tokens[i * n + j])]];
          j := j + 1;
        }
        assert q0[i] == target[i];
        i := i + 1;
      }
    }

    /** Reads the model's upper bound in every dimension. */
    method ReadUpperBound(tokens: seq<string>, toReal: RealReader)
      requires |tokens| == ndimension
      modifies this`upperBoundModel
      ensures |upperBoundModel| == ndimension
      ensures forall i :: 0 <= i < ndimension ==> upperBoundModel[i] == toReal(tokens[i])
    {
      upperBoundModel := seq(ndimension, _ => 0.0);
      var i := 0;
      while i < ndimension
        invariant 0 <= i <= ndimension
        invariant |upperBoundModel| == ndimension
        invariant forall k :: 0 <= k < i ==> upperBoundModel[k] == toReal(tokens[k])
      {
        upperBoundModel := upperBoundModel[i := toReal(tokens[i])];
        i := i + 1;
      }
    }

    /** The constructor body: reads the configuration in order and stops with
        ErrorConfiguration at the first failed check. */
    method Configure(modelNstate: int, s: Settings, toReal: RealReader, toInt: IntReader) returns (o: Outcome)
      modifies this`ndimension, this`xMin, this`deltaX, this`nx, this`npoint, this`initialDate, this`deltaT, this`nt
      modifies this`modelTimeDependent, this`q0, this`scheme, this`boundaryConditionType, this`boundaryConditionIndex
      modifies this`boundaryCondition, this`upperBoundModel
      ensures o == Pass || o == Fail(ErrorConfiguration)
      ensures o == Pass <==> Accepted(modelNstate, s)
      ensures o == Pass ==> Configured(modelNstate, s, toReal, toInt)
    {
      if |s.discretization| % 3 != 0 {
        return Fail(ErrorConfiguration);
      }
      ReadDiscretization(s.discretization, toReal, toInt);
      if ndimension != modelNstate {
        return Fail(ErrorConfiguration);
      }
      o := ReadCoefficients(s, toReal);
    }

    /** The time entries, Q_0, and the solver and boundary sections. */
    method ReadCoefficients(s: Settings, toReal: RealReader) returns (o: Outcome)
      requires ndimension >= 0
      modifies this`initialDate, this`deltaT, this`nt, this`modelTimeDependent, this`q0
      modifies this`scheme, this`boundaryConditionType, this`boundaryConditionIndex
      modifies this`boundaryCondition, this`upperBoundModel
      ensures o == Pass || o == Fail(ErrorConfiguration)
      ensures o == Pass <==> |s.q0| == ndimension * ndimension && (s.scheme == "LxF" ==> |s.upperBoundModel| == ndimension)
      ensures o == Pass ==> CoefficientsRead(s, toReal)
    {
      initialDate, deltaT, nt := s.initialDate, s.deltaT, s.nt;
      modelTimeDependent := s.modelTimeDependent;
      if |s.q0| != ndimension * ndimension {
        return Fail(ErrorConfiguration);
      }
      ReadQ0(s.q0, ndimension, toReal);
      o := ReadSolver(s, toReal);
    }

    /** The solver and boundary sections: the scheme, the boundary type and its
        index, the boundary value, and under "LxF" the model's upper bounds. */
    method ReadSolver(s: Settings, toReal: RealReader) returns (o: Outcome)
      modifies this`scheme, this`boundaryConditionType, this`boundaryConditionIndex
      modifies this`boundaryCondition, this`upperBoundModel
      ensures o == Pass || o == Fail(ErrorConfiguration)
      ensures o == Pass <==> (s.scheme == "LxF" ==> |s.upperBoundModel| == ndimension)
      ensures o == Pass ==> SolverRead(s, toReal)
    {
      scheme := s.scheme;
      boundaryConditionType := s.boundaryType;
      if boundaryConditionType == "Dirichlet" {
        boundaryConditionIndex := 0;
      } else if boundaryConditionType == "Extrapolation" {
        boundaryConditionIndex := 1;
      } else {
        boundaryConditionIndex := 2;
      }
      boundaryCondition := s.boundaryValue;
      if scheme == "LxF" {
        if |s.upperBoundModel| != ndimension {
          return Fail(ErrorConfiguration);
        }
        ReadUpperBound(s.upperBoundModel, toReal);
      }
      return Pass;
    }

    /** A visit of cell p along one dimension: computes the ghost value where a
        neighbour is missing, storing it in boundary_condition_. */
    method BoundaryStencil(line: seq<real>, p: nat) returns (s: Stencil)
      requires |line| >= 2 && p < |line|
      modifies this`boundaryCondition
      ensures s == CellStencil(boundaryConditionIndex, line, p, old(boundaryCondition))
      ensures boundaryCondition == s.boundary
    {
      var n := |line|;
      if p == n - 1 {
        if boundaryConditionIndex == 1 {
          boundaryCondition := 2.0 * line[p] - line[p - 1];
        } else if boundaryConditionIndex == 2 {
          boundaryCondition := line[0];
        }
        s := Stencil(line[p - 1], boundaryCondition, boundaryCondition);
      } else if p == 0 {
        if boundaryConditionIndex == 1 {
          boundaryCondition := 2.0 * line[p] - line[p + 1];
        } else if boundaryConditionIndex == 2 {
          boundaryCondition := line[n - 1];
        }
        s := Stencil(boundaryCondition, line[p + 1], boundaryCondition);
      } else {
        s := Stencil(line[p - 1], line[p + 1], boundaryCondition);
      }
    }

    /** The cell loop of a one-dimensional grid: visits every cell in order.
        Every cell sees the neighbours the rule gives with the value the member
        held before the loop: the ghost values of one cell do not leak into the
        next. */
    method Sweep(line: seq<real>) returns (stencils: seq<Stencil>)
      requires |line| >= 2
      modifies this`boundaryCondition
      ensures |stencils| == |line|
      ensures forall p :: 0 <= p < |line| ==>
                stencils[p].left == CellStencil(boundaryConditionIndex, line, p, old(boundaryCondition)).left
                && stencils[p].right == CellStencil(boundaryConditionIndex, line, p, old(boundaryCondition)).right
      ensures boundaryCondition == BoundaryAfterSweep(boundaryConditionIndex, line, old(boundaryCondition))
    {
      ghost var bc0 := boundaryCondition;
      stencils := [];
      var p := 0;
      while p < |line|
        invariant 0 <= p <= |line| && |stencils| == p
        invariant forall q :: 0 <= q < p ==>
                    stencils[q].left == CellStencil(boundaryConditionIndex, line, q, bc0).left
                    && stencils[q].right == CellStencil(boundaryConditionIndex, line, q, bc0).right
        invariant boundaryConditionIndex != ExtrapolationIndex && boundaryConditionIndex != PeriodicIndex ==>
                    boundaryCondition == bc0
        invariant p == |line| ==> boundaryCondition == BoundaryAfterSweep(boundaryConditionIndex, line, bc0)
      {
        ghost var before := boundaryCondition;
        var s := BoundaryStencil(line, p);
        if boundaryConditionIndex == ExtrapolationIndex || boundaryConditionIndex == PeriodicIndex {
          StaleBoundaryIgnored(boundaryConditionIndex, line, p, before, bc0);
        }
        stencils := stencils + [s];
        p := p + 1;
      }
    }

    /** Whether a pass over the cells rewrites boundary_condition_: under the
        extrapolation and periodic rules, on a grid with at least one dimension
        and one point (cell 0 lies at the lower end of every dimension). */
    predicate RewritesBoundary()
      reads this`boundaryConditionIndex, this`ndimension, this`npoint
    {
      (boundaryConditionIndex == ExtrapolationIndex || boundaryConditionIndex == PeriodicIndex)
      && ndimension > 0 && npoint > 0
    }

    /** The time loop of the Lax-Friedrichs step for a Courant number that does
        not depend on time: returns the time increments local_step before they
        are scaled by the time step. Every pass of the loop visits the cells
        and, where RewritesBoundary holds, leaves `lastGhost` in
        boundary_condition_: the ghost value of the last boundary visit, which
        is computed from V. The value-function updates are not modelled. */
    method AdvectionLxFForward(courant: real, lastGhost: real) returns (steps: seq<real>)
      modifies this`timeStep, this`log, this`boundaryCondition
      ensures steps == SubSteps(courant, deltaT)
      ensures timeStep == old(timeStep) + 1
      ensures log == old(log) + [LxFBegin, LxFEnd]
      ensures RewritesBoundary() && deltaT != 0.0 ==> boundaryCondition == lastGhost
      ensures !(RewritesBoundary() && deltaT != 0.0) ==> boundaryCondition == old(boundaryCondition)
    {
      log := log + [LxFBegin];
      var timeDelta := 0.0;
      steps := [];
      ghost var swept := false;
      ghost var n := if courant > Limit then Division(courant) else 1;
      ghost var unit := deltaT / (n as real);
      while timeDelta != deltaT
        invariant timeStep == old(timeStep) && log == old(log) + [LxFBegin]
        invariant !swept ==> timeDelta == 0.0 && boundaryCondition == old(boundaryCondition)
        invariant deltaT == 0.0 ==> !swept
        invariant swept && RewritesBoundary() ==> boundaryCondition == lastGhost
        invariant !RewritesBoundary() ==> boundaryCondition == old(boundaryCondition)
        invariant n >= 1
        invariant deltaT >= 0.0 ==> 0.0 <= timeDelta <= deltaT
        invariant deltaT < 0.0 ==> deltaT <= timeDelta <= 0.0
        invariant courant <= Limit || deltaT == 0.0 ==> steps == []
        invariant courant > Limit && deltaT > 0.0 ==>
                    n == Division(courant) && |steps| <= n
                    && steps == seq(|steps|, _ => unit)
                    && timeDelta == (|steps| as real) * unit
                    && (timeDelta == deltaT <==> |steps| == n)
        invariant courant > Limit && deltaT < 0.0 ==>
                    n == Division(courant)
                    && ((steps == [] && timeDelta == 0.0) || (steps == [deltaT] && timeDelta == deltaT))
        decreases if timeDelta == deltaT then 0 else n - |steps|
      {
        if RewritesBoundary() {
          boundaryCondition := lastGhost;
        }
        swept := true;
        if courant > Limit {
          var division := (TruncateToInt(courant / Limit) + 1) as real;
          var localStep := deltaT / division;
          if deltaT > 0.0 {
            PositiveStep(|steps|, n, deltaT, timeDelta);
            ConstantSnoc(|steps|, unit);
          } else {
            assert timeDelta == 0.0;
            NegativeStep(deltaT, division);
          }
          if timeDelta + localStep > deltaT {
            localStep := deltaT - timeDelta;
            timeDelta := deltaT;
          } else {
            timeDelta := timeDelta + localStep;
          }
          steps := steps + [localStep];
        } else {
          timeDelta := deltaT;
        }
      }
      if courant > Limit && deltaT > 0.0 {
        assert |steps| == Division(courant);
        assert forall i :: 0 <= i < |steps| ==> steps[i] == SubSteps(courant, deltaT)[i];
        assert steps == SubSteps(courant, deltaT);
      }
      timeStep := timeStep + 1;
      log := log + [LxFEnd];
    }

    /** The Bryson-Levy step; only its counter, its messages and the value its
        pass over the cells leaves in boundary_condition_ are modelled. */
    method AdvectionBrysonLevyForward(lastGhost: real)
      modifies this`timeStep, this`log, this`boundaryCondition
      ensures timeStep == old(timeStep) + 1
      ensures log == old(log) + [BrysonLevyBegin, BrysonLevyEnd]
      ensures boundaryCondition == if RewritesBoundary() then lastGhost else old(boundaryCondition)
    {
      log := log + [BrysonLevyBegin];
      if RewritesBoundary() {
        boundaryCondition := lastGhost;
      }
      timeStep := timeStep + 1;
      log := log + [BrysonLevyEnd];
    }

    /** The Godunov step; only its counter, its messages and the value its
        pass over the cells leaves in boundary_condition_ are modelled. */
    method AdvectionGodunov(lastGhost: real)
      modifies this`timeStep, this`log, this`boundaryCondition
      ensures timeStep == old(timeStep) + 1
      ensures log == old(log) + [GodunovBegin, GodunovEnd]
      ensures boundaryCondition == if RewritesBoundary() then lastGhost else old(boundaryCondition)
    {
      log := log + [GodunovBegin];
      if RewritesBoundary() {
        boundaryCondition := lastGhost;
      }
      timeStep := timeStep + 1;
      log := log + [GodunovEnd];
    }

    /** One step forward with the configured scheme: every scheme advances the
        counter by exactly one. `lastGhost` is the ghost value the step's last
        boundary visit computes from V. Under the Dirichlet rule
        boundary_condition_ keeps its configured value. */
    method Forward(courant: real, lastGhost: real) returns (steps: seq<real>)
      modifies this`timeStep, this`log, this`boundaryCondition
      ensures timeStep == old(timeStep) + 1
      ensures boundaryCondition
           == if RewritesBoundary() && (scheme != "LxF" || deltaT != 0.0) then lastGhost else old(boundaryCondition)
      ensures boundaryConditionIndex == DirichletIndex ==> boundaryCondition == old(boundaryCondition)
      ensures HasFinished() <==> old(timeStep) + 1 == nt
      ensures steps == if scheme == "LxF" then SubSteps(courant, deltaT) else []
      ensures log == old(log) + [ForwardBegin] + SchemeMessages(scheme) + [ForecastValue, ForwardEnd]
    {
      log := log + [ForwardBegin];
      steps := [];
      if scheme == "LxF" {
        steps := AdvectionLxFForward(courant, lastGhost);
      } else if scheme == "BrysonLevy" {
        AdvectionBrysonLevyForward(lastGhost);
      } else {
        AdvectionGodunov(lastGhost);
      }
      log := log + [ForecastValue];
      log := log + [ForwardEnd];
    }

    /** The run is over once the counter reaches the number of time steps. */
    predicate HasFinished()
      reads this
    {
      timeStep == nt
    }
  }
}
