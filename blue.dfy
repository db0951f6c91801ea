/** The best linear unbiased estimator (BLUE) in closed form:
      x_a = x + B H^T (H B H^T + R)^{-1} (y - H x),
    the rule that picks the dense or the sparse computation, and the facts
    that tie the two computations together. */
module Blue {
  import opened Linalg

  datatype Path = DensePath | SparsePath

  /** The dispatch of ComputeBLUE, branch by branch. `sparseBuild` is the build
      switch VERDANDI_TANGENT_OPERATOR_SPARSE; the other three say whether B, R
      and H are held as sparse matrices. The sparse computation is chosen exactly
      when the switch is on and B and H are sparse, whatever R is. */
  function ChooseBLUEPath(sparseBuild: bool, bSparse: bool, rSparse: bool, hSparse: bool): (p: Path)
    ensures p == SparsePath <==> sparseBuild && bSparse && hSparse
    ensures !sparseBuild ==> p == DensePath
  {
    if sparseBuild && bSparse && rSparse && hSparse then SparsePath
    else if sparseBuild && bSparse && hSparse && !rSparse then SparsePath
    else if bSparse || rSparse || hSparse then DensePath
    else DensePath
  }

  /** B H^T for B of size n x n and H of size m x n: entry (j, c) is the scalar
      product of row j of B with row c of H. */
  function CrossCovariance(b: Matrix, h: Matrix, n: nat): (k: Matrix)
    requires IsMatrix(b, |b|, n) && IsMatrix(h, |h|, n)
    ensures IsMatrix(k, |b|, |h|)
  {
    seq(|b|, j requires 0 <= j < |b| => seq(|h|, c requires 0 <= c < |h| => Dot(b[j], h[c])))
  }

  /** The row-by-row construction is the matrix product B * H^T. */
  lemma {:induction false} CrossCovarianceIsProduct(b: Matrix, h: Matrix, n: nat)
    requires IsMatrix(b, |b|, n) && IsMatrix(h, |h|, n)
    ensures CrossCovariance(b, h, n) == MatMul(b, Transpose(h, n), |h|)
  {
    var k, p := CrossCovariance(b, h, n), MatMul(b, Transpose(h, n), |h|);
    forall j, c | 0 <= j < |b| && 0 <= c < |h| ensures k[j][c] == p[j][c] {
      assert Column(Transpose(h, n), c) == h[c];
    }
    forall j | 0 <= j < |b| ensures k[j] == p[j] {
    }
  }

  /** H B H^T + R, of size m x m. */
  function InnovationCovariance(b: Matrix, h: Matrix, r: Matrix, n: nat): (s: Matrix)
    requires IsMatrix(b, n, n) && IsMatrix(h, |h|, n) && IsMatrix(r, |h|, |h|)
    ensures IsMatrix(s, |h|, |h|)
  {
    MatAdd(MatMul(h, CrossCovariance(b, h, n), |h|), r)
  }

  /** An entry of H B H^T + R written out as the double sum the dense loops build. */
  lemma {:induction false} InnovationCovarianceEntry(b: Matrix, h: Matrix, r: Matrix, n: nat, i: nat, c: nat)
    requires IsMatrix(b, n, n) && IsMatrix(h, |h|, n) && IsMatrix(r, |h|, |h|)
    requires i < |h| && c < |h|
    ensures InnovationCovariance(b, h, r, n)[i][c]
         == Dot(h[i], seq(n, j requires 0 <= j < n => Dot(b[j], h[c]))) + r[i][c]
  {
    assert Column(CrossCovariance(b, h, n), c) == seq(n, j requires 0 <= j < n => Dot(b[j], h[c]));
  }

  /** The dense analysis: x + B H^T (inv d), where inv stands for (H B H^T + R)^{-1}
      and d is the innovation. */
  function DenseAnalysis(x: Vector, b: Matrix, h: Matrix, inv: Matrix, d: Vector, n: nat): (xa: Vector)
    requires IsMatrix(b, n, n) && IsMatrix(h, |h|, n) && |x| == n
    requires IsMatrix(inv, |h|, |h|) && |d| == |h|
    ensures |xa| == n
  {
    VecAdd(x, MatVec(CrossCovariance(b, h, n), MatVec(inv, d)))
  }

  /** The sparse analysis: x + B H^T sol, where sol solves (H B H^T + R) sol = d. */
  function SparseAnalysis(x: Vector, b: Matrix, h: Matrix, sol: Vector, n: nat): (xa: Vector)
    requires IsMatrix(b, n, n) && IsMatrix(h, |h|, n) && |x| == n && |sol| == |h|
    ensures |xa| == n
  {
    VecAdd(x, MatVec(CrossCovariance(b, h, n), sol))
  }

  /** A left inverse maps the right-hand side of a linear system to its solution. */
  lemma {:induction false} SolveAgreesWithInverse(s: Matrix, inv: Matrix, sol: Vector, d: Vector, m: nat)
    requires IsMatrix(s, m, m) && IsMatrix(inv, m, m) && |sol| == m
    requires MatMul(inv, s, m) == Identity(m)
    requires MatVec(s, sol) == d
    ensures MatVec(inv, d) == sol
  {
    MatVecMatMul(inv, s, m, sol);
    MatVecIdentity(sol);
  }

  /** In exact arithmetic the sparse computation, which solves the linear
      system, gives the same analysis as the dense one, which inverts. */
  lemma {:induction false} SparseEqualsDense(x: Vector, b: Matrix, h: Matrix, r: Matrix, inv: Matrix, sol: Vector, d: Vector, n: nat)
    requires IsMatrix(b, n, n) && IsMatrix(h, |h|, n) && IsMatrix(r, |h|, |h|) && |x| == n
    requires IsMatrix(inv, |h|, |h|) && |d| == |h| && |sol| == |h|
    requires MatMul(inv, InnovationCovariance(b, h, r, n), |h|) == Identity(|h|)
    requires MatVec(InnovationCovariance(b, h, r, n), sol) == d
    ensures SparseAnalysis(x, b, h, sol, n) == DenseAnalysis(x, b, h, inv, d, n)
  {
    SolveAgreesWithInverse(InnovationCovariance(b, h, r, n), inv, sol, d, |h|);
  }

  /** When the observations match the state (zero innovation), the analysis is
      the state itself. */
  lemma {:induction false} ZeroInnovationKeepsState(x: Vector, b: Matrix, h: Matrix, inv: Matrix, n: nat)
    requires IsMatrix(b, n, n) && IsMatrix(h, |h|, n) && |x| == n
    requires IsMatrix(inv, |h|, |h|)
    ensures DenseAnalysis(x, b, h, inv, Zeros(|h|), n) == x
  {
    MatVecZeros(inv, |h|);
    MatVecZeros(CrossCovariance(b, h, n), |h|);
  }

  /** One state variable, observed directly: B = 4, R = 1, x = 0 and y = 3 give
      H B H^T + R = 5 and the analysis 0 + 4 * (1/5) * 3 = 2.4. */
  lemma {:induction false} ScalarAnalysis()
    ensures InnovationCovariance([[4.0]], [[1.0]], [[1.0]], 1) == [[5.0]]
    ensures MatMul([[0.2]], [[5.0]], 1) == Identity(1)
    ensures DenseAnalysis([0.0], [[4.0]], [[1.0]], [[0.2]], [3.0], 1) == [2.4]
  {
    var k := CrossCovariance([[4.0]], [[1.0]], 1);
    assert Dot([4.0], [1.0]) == 4.0 by { assert [4.0][..0] == []; }
    assert k[0] == [4.0];
    assert k == [[4.0]];
    assert Column(k, 0) == [4.0];
    var hk := MatMul([[1.0]], k, 1);
    assert Dot([1.0], [4.0]) == 4.0 by { assert [1.0][..0] == []; }
    assert hk[0] == [4.0];
    var s := InnovationCovariance([[4.0]], [[1.0]], [[1.0]], 1);
    assert s[0] == [5.0];
    assert Dot([0.2], [3.0]) == 0.6 by { assert [0.2][..0] == []; }
    assert MatVec([[0.2]], [3.0]) == [0.6];
    assert Dot([4.0], [0.6]) == 2.4 by { assert [4.0][..0] == []; }
    assert MatVec(k, [0.6]) == [2.4];
    assert Column([[5.0]], 0) == [5.0];
    assert Dot([0.2], [5.0]) == 1.0 by { assert [0.2][..0] == []; }
    assert MatMul([[0.2]], [[5.0]], 1)[0] == [1.0];
    assert Identity(1)[0] == [1.0];
  }
}
