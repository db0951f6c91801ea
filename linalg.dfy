/** Exact linear algebra over `real`: the dense vector and matrix operations
    that Seldon's `DotProd`, `Mlt`, `MltAdd`, `Add` and `GetRow` perform in
    floating point. A matrix is a sequence of rows. */
module Linalg {

  type Vector = seq<real>
  type Matrix = seq<seq<real>>

  /** `m` has `rows` rows of `cols` entries each. */
  predicate IsMatrix(m: Matrix, rows: nat, cols: nat) {
    |m| == rows && forall i :: 0 <= i < rows ==> |m[i]| == cols
  }

  /** Two matrices of the same shape with the same entries are equal. */
  lemma {:induction false} MatrixEquality(a: Matrix, b: Matrix, rows: nat, cols: nat)
    requires IsMatrix(a, rows, cols) && IsMatrix(b, rows, cols)
    requires forall i, j :: 0 <= i < rows && 0 <= j < cols ==> a[i][j] == b[i][j]
    ensures a == b
  {
    forall i | 0 <= i < rows ensures a[i] == b[i] { }
  }

  function Zeros(n: nat): (z: Vector)
    ensures |z| == n && forall i :: 0 <= i < n ==> z[i] == 0.0
  {
    seq(n, i => 0.0)
  }

  /** The n x n matrix with `d` on the diagonal and zeros elsewhere. */
  function Diag(n: nat, d: real): (m: Matrix)
    ensures IsMatrix(m, n, n)
    ensures forall i, j :: 0 <= i < n && 0 <= j < n ==> m[i][j] == (if i == j then d else 0.0)
  {
    seq(n, i => seq(n, j => if i == j then d else 0.0))
  }

  function Identity(n: nat): (m: Matrix)
    ensures IsMatrix(m, n, n)
  {
    Diag(n, 1.0)
  }

  /** Scalar product, summed from the first entry to the last. */
  function Dot(u: Vector, v: Vector): real
    requires |u| == |v|
    decreases |u|
  {
    if |u| == 0 then 0.0 else Dot(u[..|u| - 1], v[..|v| - 1]) + u[|u| - 1] * v[|v| - 1]
  }

  /** Extending both vectors by one entry adds one product to the scalar product. */
  lemma {:induction false} DotSnoc(u: Vector, v: Vector, j: nat)
    requires |u| == |v| && j < |u|
    ensures Dot(u[..j + 1], v[..j + 1]) == Dot(u[..j], v[..j]) + u[j] * v[j]
  {
    assert u[..j + 1][..j] == u[..j];
    assert v[..j + 1][..j] == v[..j];
  }

  function VecAdd(u: Vector, v: Vector): (w: Vector)
    requires |u| == |v|
    ensures |w| == |u| && forall i :: 0 <= i < |u| ==> w[i] == u[i] + v[i]
  {
    seq(|u|, i requires 0 <= i < |u| => u[i] + v[i])
  }

  function VecSub(u: Vector, v: Vector): (w: Vector)
    requires |u| == |v|
    ensures |w| == |u| && forall i :: 0 <= i < |u| ==> w[i] == u[i] - v[i]
  {
    seq(|u|, i requires 0 <= i < |u| => u[i] - v[i])
  }

  function Scale(s: real, v: Vector): (w: Vector)
    ensures |w| == |v| && forall i :: 0 <= i < |v| ==> w[i] == s * v[i]
  {
    seq(|v|, i requires 0 <= i < |v| => s * v[i])
  }

  /** Column `j` of `m`. */
  function Column(m: Matrix, j: nat): (c: Vector)
    requires forall i :: 0 <= i < |m| ==> j < |m[i]|
    ensures |c| == |m| && forall i :: 0 <= i < |m| ==> c[i] == m[i][j]
  {
    seq(|m|, i requires 0 <= i < |m| => m[i][j])
  }

  /** The transpose of a matrix with `cols` columns. */
  function Transpose(m: Matrix, cols: nat): (t: Matrix)
    requires IsMatrix(m, |m|, cols)
    ensures IsMatrix(t, cols, |m|)
    ensures forall j, i :: 0 <= j < cols && 0 <= i < |m| ==> t[j][i] == m[i][j]
  {
    seq(cols, j requires 0 <= j < cols => Column(m, j))
  }

  /** Matrix-vector product m * v. */
  function MatVec(m: Matrix, v: Vector): (w: Vector)
    requires forall i :: 0 <= i < |m| ==> |m[i]| == |v|
    ensures |w| == |m| && forall i :: 0 <= i < |m| ==> w[i] == Dot(m[i], v)
  {
    seq(|m|, i requires 0 <= i < |m| => Dot(m[i], v))
  }

  /** Matrix product a * b, where b has `cols` columns. */
  function MatMul(a: Matrix, b: Matrix, cols: nat): (p: Matrix)
    requires IsMatrix(b, |b|, cols)
    requires forall i :: 0 <= i < |a| ==> |a[i]| == |b|
    ensures IsMatrix(p, |a|, cols)
    ensures forall i, j :: 0 <= i < |a| && 0 <= j < cols ==> p[i][j] == Dot(a[i], Column(b, j))
  {
    seq(|a|, i requires 0 <= i < |a| => RowTimes(a[i], b, cols))
  }

  function MatAdd(a: Matrix, b: Matrix): (s: Matrix)
    requires |a| == |b| && forall i :: 0 <= i < |a| ==> |a[i]| == |b[i]|
    ensures |s| == |a| && forall i :: 0 <= i < |a| ==> |s[i]| == |a[i]|
    ensures forall i, j :: 0 <= i < |a| && 0 <= j < |a[i]| ==> s[i][j] == a[i][j] + b[i][j]
  {
    seq(|a|, i requires 0 <= i < |a| => VecAdd(a[i], b[i]))
  }

  /** p + x * q. */
  function AddScaled(p: Vector, x: real, q: Vector): (w: Vector)
    requires |p| == |q|
    ensures |w| == |p| && forall j :: 0 <= j < |p| ==> w[j] == p[j] + x * q[j]
  {
    seq(|p|, j requires 0 <= j < |p| => p[j] + x * q[j])
  }

  /** The last term of a non-empty scalar product. */
  lemma {:induction false} DotLast(u: Vector, v: Vector)
    requires |u| == |v| > 0
    ensures Dot(u, v) == Dot(u[..|u| - 1], v[..|v| - 1]) + u[|u| - 1] * v[|v| - 1]
  {
  }

  /** Dot is additive in its first argument. */
  lemma {:induction false} DotAdd(w: Vector, p: Vector, q: Vector, v: Vector)
    requires |w| == |p| == |q| == |v|
    requires forall j :: 0 <= j < |w| ==> w[j] == p[j] + q[j]
    ensures Dot(w, v) == Dot(p, v) + Dot(q, v)
  {
    if |w| > 0 {
      var n := |w| - 1;
      DotAdd(w[..n], p[..n], q[..n], v[..n]);
    }
  }

  /** Dot is homogeneous in its first argument. */
  lemma {:induction false} DotScale(r: Vector, q: Vector, x: real, v: Vector)
    requires |r| == |q| == |v|
    requires forall j :: 0 <= j < |r| ==> r[j] == x * q[j]
    ensures Dot(r, v) == x * Dot(q, v)
  {
    if |r| > 0 {
      var n := |r| - 1;
      DotScale(r[..n], q[..n], x, v[..n]);
      ScaleStep(Dot(r[..n], v[..n]), Dot(q[..n], v[..n]), r[n], q[n], v[n], x);
    }
  }

  /** The arithmetic of one step of DotScale. */
  lemma {:induction false} ScaleStep(dr: real, dq: real, rn: real, qn: real, vn: real, x: real)
    requires dr == x * dq && rn == x * qn
    ensures dr + rn * vn == x * (dq + qn * vn)
  {
  }

  /** Dot is linear in its first argument. */
  lemma {:induction false} DotLinear(p: Vector, q: Vector, x: real, v: Vector)
    requires |p| == |q| == |v|
    ensures Dot(AddScaled(p, x, q), v) == Dot(p, v) + x * Dot(q, v)
  {
    var r := Scale(x, q);
    DotAdd(AddScaled(p, x, q), p, r, v);
    DotScale(r, q, x, v);
  }

  lemma {:induction false} DotZerosRight(u: Vector)
    ensures Dot(u, Zeros(|u|)) == 0.0
  {
    if |u| > 0 {
      assert Zeros(|u|)[..|u| - 1] == Zeros(|u| - 1);
      DotZerosRight(u[..|u| - 1]);
    }
  }

  /** The scalar product with `d` times the i-th unit vector picks entry i. */
  lemma {:induction false} DotUnit(n: nat, i: nat, d: real, v: Vector)
    requires i < n == |v|
    ensures Dot(seq(n, j => if j == i then d else 0.0), v) == d * v[i]
  {
    var e := seq(n, j => if j == i then d else 0.0);
    var m := n - 1;
    assert e[..m] == seq(m, j => if j == i then d else 0.0);
    if i < m {
      DotUnit(m, i, d, v[..m]);
    } else {
      assert e[..m] == Zeros(m);
      DotZerosRight(v[..m]);
      DotCommZeros(v[..m]);
    }
  }

  lemma {:induction false} DotCommZeros(v: Vector)
    ensures Dot(Zeros(|v|), v) == 0.0
  {
    if |v| > 0 {
      assert Zeros(|v|)[..|v| - 1] == Zeros(|v| - 1);
      DotCommZeros(v[..|v| - 1]);
    }
  }

  lemma {:induction false} MatVecZeros(m: Matrix, n: nat)
    requires IsMatrix(m, |m|, n)
    ensures MatVec(m, Zeros(n)) == Zeros(|m|)
  {
    forall i | 0 <= i < |m| ensures MatVec(m, Zeros(n))[i] == 0.0 {
      DotZerosRight(m[i]);
    }
  }

  lemma {:induction false} MatVecIdentity(v: Vector)
    ensures MatVec(Identity(|v|), v) == v
  {
    var n := |v|;
    forall i | 0 <= i < n ensures MatVec(Identity(n), v)[i] == v[i] {
      assert Identity(n)[i] == seq(n, j => if j == i then 1.0 else 0.0);
      DotUnit(n, i, 1.0, v);
    }
  }

  /** The row a of a * b, where b has `cols` columns. */
  function RowTimes(a: Vector, b: Matrix, cols: nat): (r: Vector)
    requires IsMatrix(b, |a|, cols)
    ensures |r| == cols && forall j :: 0 <= j < cols ==> r[j] == Dot(a, Column(b, j))
  {
    seq(cols, j requires 0 <= j < cols => Dot(a, Column(b, j)))
  }

  lemma {:induction false} RowTimesSnoc(a: Vector, b: Matrix, cols: nat)
    requires IsMatrix(b, |a|, cols) && |a| > 0
    ensures RowTimes(a, b, cols)
         == AddScaled(RowTimes(a[..|a| - 1], b[..|a| - 1], cols), a[|a| - 1], b[|a| - 1])
  {
    var n := |a| - 1;
    forall j | 0 <= j < cols
      ensures RowTimes(a, b, cols)[j]
           == RowTimes(a[..n], b[..n], cols)[j] + a[n] * b[n][j]
    {
      assert Column(b, j)[..n] == Column(b[..n], j);
    }
    var r, r' := RowTimes(a, b, cols), AddScaled(RowTimes(a[..n], b[..n], cols), a[n], b[n]);
    assert |r| == |r'|;
    forall j | 0 <= j < cols ensures r[j] == r'[j] { }
  }

  lemma {:induction false} MatVecSnoc(b: Matrix, v: Vector)
    requires forall i :: 0 <= i < |b| ==> |b[i]| == |v|
    requires |b| > 0
    ensures MatVec(b, v)[..|b| - 1] == MatVec(b[..|b| - 1], v)
  {
  }

  /** The last row of b contributes a[n] * (b[n] . v) to (a * b) . v. */
  lemma {:induction false} RowTimesDotLast(a: Vector, b: Matrix, cols: nat, v: Vector)
    requires IsMatrix(b, |a|, cols) && |v| == cols && |a| > 0
    ensures Dot(RowTimes(a, b, cols), v)
         == Dot(RowTimes(a[..|a| - 1], b[..|a| - 1], cols), v) + a[|a| - 1] * Dot(b[|a| - 1], v)
  {
    var n := |a| - 1;
    RowTimesSnoc(a, b, cols);
    DotLinear(RowTimes(a[..n], b[..n], cols), b[n], a[n], v);
  }

  /** The same contribution to a . (b * v). */
  lemma {:induction false} DotMatVecLast(a: Vector, b: Matrix, cols: nat, v: Vector)
    requires IsMatrix(b, |a|, cols) && |v| == cols && |a| > 0
    ensures Dot(a, MatVec(b, v))
         == Dot(a[..|a| - 1], MatVec(b[..|a| - 1], v)) + a[|a| - 1] * Dot(b[|a| - 1], v)
  {
    var m := MatVec(b, v);
    MatVecSnoc(b, v);
    DotLast(a, m);
  }

  /** One row of the associativity law: (a * b) * v == a * (b * v) for the row a. */
  lemma {:induction false} RowAssoc(a: Vector, b: Matrix, cols: nat, v: Vector)
    requires IsMatrix(b, |a|, cols) && |v| == cols
    ensures Dot(RowTimes(a, b, cols), v) == Dot(a, MatVec(b, v))
  {
    if |a| > 0 {
      var n := |a| - 1;
      RowTimesDotLast(a, b, cols, v);
      DotMatVecLast(a, b, cols, v);
      RowAssoc(a[..n], b[..n], cols, v);
    } else {
      assert RowTimes(a, b, cols) == Zeros(cols);
      DotCommZeros(v);
    }
  }

  /** (a * b) * v == a * (b * v). */
  lemma {:induction false} MatVecMatMul(a: Matrix, b: Matrix, cols: nat, v: Vector)
    requires IsMatrix(b, |b|, cols) && |v| == cols
    requires forall i :: 0 <= i < |a| ==> |a[i]| == |b|
    ensures MatVec(MatMul(a, b, cols), v) == MatVec(a, MatVec(b, v))
  {
    forall i | 0 <= i < |a| ensures MatVec(MatMul(a, b, cols), v)[i] == MatVec(a, MatVec(b, v))[i] {
      RowAssoc(a[i], b, cols, v);
    }
  }
}
