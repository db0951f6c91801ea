/** The perturbation manager backed by the TRNG generator: scalar and vector
    normal and log-normal draws with optional clipping, homogeneous
    perturbations of a vector, and the clipping test. The generator is a
    finite stream of the values the distributions return, in the order they
    are requested; a run that needs more values than the stream holds ends
    with `Exhausted`. */
module Perturbation {
  import opened Errors
  import opened Linalg

  /** The result of drawing, and the values of the stream left afterwards. */
  datatype Drawn<T> = Drawn(result: Result<T>, rest: seq<real>)

  /** One draw from the generator. */
  function Next(s: seq<real>): Drawn<real> {
    if |s| == 0 then Drawn(Err(Exhausted), s) else Drawn(Ok(s[0]), s[1..])
  }

  /** The scalar normal draw: a first draw, replaced by a truncated draw when
      the two clipping parameters are given; any other non-zero number of
      parameters throws ErrorArgument after the first draw. */
  function ScalarNormal(s: seq<real>, parameter: seq<real>): Drawn<real> {
    match Next(s)
    case Drawn(Err(e), r) => Drawn(Err(e), r)
    case Drawn(Ok(v), r) =>
      if |parameter| == 2 then Next(r)
      else if |parameter| != 0 then Drawn(Err(ErrorArgument), r)
      else Drawn(Ok(v), r)
  }

  /** The parameter check of the scalar normal draw: only zero or two
      parameters give a value, and with enough draws they always do, using one
      draw without clipping and two with it. */
  lemma {:induction false} ScalarNormalDraws(s: seq<real>, parameter: seq<real>)
    ensures |parameter| != 0 && |parameter| != 2 ==> ScalarNormal(s, parameter).result.Err?
    ensures |parameter| != 0 && |parameter| != 2 && |s| > 0 ==> ScalarNormal(s, parameter) == Drawn(Err(ErrorArgument), s[1..])
    ensures |parameter| == 0 && |s| >= 1 ==> ScalarNormal(s, parameter) == Drawn(Ok(s[0]), s[1..])
    ensures |parameter| == 2 && |s| >= 2 ==> ScalarNormal(s, parameter) == Drawn(Ok(s[1]), s[2..])
  {
    if |s| >= 2 {
      assert s[1..][0] == s[1] && s[1..][1..] == s[2..];
    }
  }

  /** The draws a rejection loop considers: the value in hand, then the stream. */
  function Candidates(v: real, s: seq<real>): seq<real> {
    [v] + s
  }

  /** The rejection loop of the log-normal draw: draws again while the value
      lies outside [a, b]. */
  function Reject(v: real, s: seq<real>, a: real, b: real): (d: Drawn<real>)
    ensures d.result.Ok? ==> a <= d.result.value <= b
    ensures |d.rest| <= |s|
    decreases |s|
  {
    if a <= v <= b then Drawn(Ok(v), s)
    else if |s| == 0 then Drawn(Err(Exhausted), s)
    else Reject(s[0], s[1..], a, b)
  }

  /** The number of candidates the rejection loop turns down before it stops. */
  function Rejected(v: real, s: seq<real>, a: real, b: real): (k: nat)
    ensures k <= |s|
    decreases |s|
  {
    if a <= v <= b || |s| == 0 then 0 else 1 + Rejected(s[0], s[1..], a, b)
  }

  /** The rejection loop returns the first candidate within [a, b], and the
      stream after it. */
  lemma {:induction false} RejectReturnsFirstAccepted(v: real, s: seq<real>, a: real, b: real)
    requires Reject(v, s, a, b).result.Ok?
    ensures Candidates(v, s)[Rejected(v, s, a, b)] == Reject(v, s, a, b).result.value
    ensures Reject(v, s, a, b).rest == s[Rejected(v, s, a, b)..]
    ensures forall j :: 0 <= j < Rejected(v, s, a, b) ==> !(a <= Candidates(v, s)[j] <= b)
    decreases |s|
  {
    if !(a <= v <= b) {
      var t := s[1..];
      RejectReturnsFirstAccepted(s[0], t, a, b);
      var k := Rejected(s[0], t, a, b);
      assert Candidates(v, s)[k + 1] == Candidates(s[0], t)[k];
      assert t[k..] == s[k + 1..];
      forall j | 1 <= j < k + 1
        ensures !(a <= Candidates(v, s)[j] <= b)
      {
        assert Candidates(v, s)[j] == Candidates(s[0], t)[j - 1];
      }
    }
  }

  /** The rejection loop ends with a value exactly when some candidate lies
      within [a, b]. */
  lemma {:induction false} RejectSucceedsIffAcceptable(v: real, s: seq<real>, a: real, b: real)
    ensures Reject(v, s, a, b).result.Ok? <==> exists k :: 0 <= k <= |s| && a <= Candidates(v, s)[k] <= b
    decreases |s|
  {
    if a <= v <= b {
      assert Candidates(v, s)[0] == v;
    } else if |s| == 0 {
      assert Candidates(v, s) == [v];
    } else {
      RejectSucceedsIffAcceptable(s[0], s[1..], a, b);
      assert Candidates(s[0], s[1..]) == Candidates(v, s)[1..];
      if exists k :: 0 <= k <= |s| && a <= Candidates(v, s)[k] <= b {
        var k :| 0 <= k <= |s| && a <= Candidates(v, s)[k] <= b;
        assert k > 0;
        assert Candidates(s[0], s[1..])[k - 1] == Candidates(v, s)[k];
      }
      if exists k :: 0 <= k <= |s[1..]| && a <= Candidates(s[0], s[1..])[k] <= b {
        var k :| 0 <= k <= |s[1..]| && a <= Candidates(s[0], s[1..])[k] <= b;
        assert Candidates(v, s)[k + 1] == Candidates(s[0], s[1..])[k];
      }
    }
  }

  /** The scalar log-normal draw: a first draw, then with two clipping
      parameters the rejection loop on [parameter(0), parameter(1)]; any other
      non-zero number of parameters throws ErrorArgument after the first draw. */
  function ScalarLogNormal(s: seq<real>, parameter: seq<real>): (d: Drawn<real>)
    ensures |parameter| == 2 && d.result.Ok? ==> parameter[0] <= d.result.value <= parameter[1]
    ensures |parameter| != 0 && |parameter| != 2 ==> d.result.Err?
  {
    match Next(s)
    case Drawn(Err(e), r) => Drawn(Err(e), r)
    case Drawn(Ok(v), r) =>
      if |parameter| == 2 then Reject(v, r, parameter[0], parameter[1])
      else if |parameter| != 0 then Drawn(Err(ErrorArgument), r)
      else Drawn(Ok(v), r)
  }

  /** Every entry plus the same value. */
  function Shift(xs: seq<real>, v: real): (ys: seq<real>)
    ensures |ys| == |xs|
  {
    seq(|xs|, i requires 0 <= i < |xs| => xs[i] + v)
  }

  /** A homogeneous perturbation moves every entry by the same amount, so the
      differences between entries are kept. */
  lemma {:induction false} ShiftKeepsDifferences(xs: seq<real>, v: real, i: int, j: int)
    requires 0 <= i < |xs| && 0 <= j < |xs|
    ensures Shift(xs, v)[i] - xs[i] == v
    ensures Shift(xs, v)[i] - Shift(xs, v)[j] == xs[i] - xs[j]
  {
  }

  /** A double as IEEE arithmetic produces it from a quotient. */
  datatype Double = Finite(x: real) | PlusInfinity | MinusInfinity | NotANumber

  /** x / d in IEEE arithmetic: a non-zero numerator over zero is an infinity
      of its sign, and 0 / 0 is not a number. */
  function Quotient(x: real, d: real): Double {
    if d != 0.0 then Finite(x / d)
    else if x > 0.0 then PlusInfinity
    else if x < 0.0 then MinusInfinity
    else NotANumber
  }

  /** v < a and v > b for a finite bound; every comparison with NaN is false. */
  predicate Below(v: Double, a: real) {
    match v
    case Finite(x) => x < a
    case MinusInfinity => true
    case _ => false
  }

  predicate Above(v: Double, b: real) {
    match v
    case Finite(x) => x > b
    case PlusInfinity => true
    case _ => false
  }

  /** Entry x, with standard deviation d, passes the clipping test on [a, b]. */
  predicate Within(x: real, d: real, a: real, b: real) {
    var value := Quotient(x, d);
    !(Below(value, a) || Above(value, b))
  }

  /** With a non-zero standard deviation the test is the interval test on the
      reduced value; with a zero one, only a zero entry passes (0 / 0 is NaN,
      which no comparison rejects). */
  lemma {:induction false} WithinMeaning(x: real, d: real, a: real, b: real)
    ensures d != 0.0 ==> (Within(x, d, a, b) <==> a <= x / d <= b)
    ensures d == 0.0 ==> (Within(x, d, a, b) <==> x == 0.0)
  {
  }

  predicate AllWithin(diagonal: seq<real>, a: real, b: real, output: seq<real>)
    requires |diagonal| == |output|
  {
    forall i :: 0 <= i < |output| ==> Within(output[i], diagonal[i], a, b)
  }

  /** Positions the sample loop has consumed after `i` entries. */
  function Consumed(i: nat, truncated: bool): nat {
    if truncated then 2 * i else i
  }

  /** The sample of the vector normal draw: for every entry a normal draw,
      replaced by a truncated one when clipping parameters are given. */
  /** The value the sample loop keeps for entry k. */
  function SampleEntry(s: seq<real>, k: nat, truncated: bool): real
    requires Consumed(k + 1, truncated) <= |s|
  {
    if truncated then s[2 * k + 1] else s[k]
  }

  /** Entry 0 of the stream left after i entries is entry i. */
  lemma {:induction false} EntryOfSuffix(s: seq<real>, i: nat, truncated: bool)
    requires Consumed(i, truncated) + Consumed(1, truncated) <= |s|
    ensures Consumed(i + 1, truncated) <= |s|
    ensures SampleEntry(s[Consumed(i, truncated)..], 0, truncated) == SampleEntry(s, i, truncated)
    ensures s[Consumed(i, truncated)..][Consumed(1, truncated)..] == s[Consumed(i + 1, truncated)..]
  {
  }

  function SampleDraws(s: seq<real>, size: nat, truncated: bool): (d: Drawn<seq<real>>)
    ensures d.result.Ok? ==> |d.result.value| == size
    ensures d.result.Ok? <==> |s| >= Consumed(size, truncated)
  {
    if |s| < Consumed(size, truncated) then Drawn(Err(Exhausted), [])
    else Drawn(Ok(seq(size, i requires 0 <= i < size => SampleEntry(s, i, truncated))),
               s[Consumed(size, truncated)..])
  }

  /** Entry (i, j) of a matrix, or zero outside it. */
  function Entry(c: Matrix, i: int, j: int): real {
    if 0 <= i < |c| && 0 <= j < |c[i]| then c[i][j] else 0.0
  }

  /** The lower triangle of the Cholesky factor as an m x m matrix: the
      standard deviation matrix L. */
  function LowerPart(c: Matrix, m: nat): (l: Matrix)
    ensures IsMatrix(l, m, m)
  {
    seq(m, i => seq(m, j => if j <= i then Entry(c, i, j) else 0.0))
  }

  /** The entrywise image of a vector. */
  function Map(f: real -> real, xs: seq<real>): (ys: seq<real>)
    ensures |ys| == |xs|
  {
    seq(|xs|, i requires 0 <= i < |xs| => f(xs[i]))
  }

  /** The vector after one attempt of the vector normal draw without clipping:
      output plus L times the sample. */
  function FirstAttempt(output: seq<real>, variance: Matrix, cholesky: Matrix -> Matrix, s: seq<real>): (x: seq<real>)
    requires SampleDraws(s, |output|, false).result.Ok?
    ensures |x| == |output|
  {
    VecAdd(output, MatVec(LowerPart(cholesky(variance), |output|), SampleDraws(s, |output|, false).result.value))
  }

  class TRNGPerturbationManager {
    /** The values the generator will deliver. */
    var stream: seq<real>

    /** The generator seeded (from the clock in the library): its draws are given. */
    constructor (draws: seq<real>)
      ensures stream == draws
    {
      stream := draws;
    }

    method Draw() returns (r: Result<real>)
      modifies this`stream
      ensures Drawn(r, stream) == Next(old(stream))
    {
      if |stream| == 0 {
        return Err(Exhausted);
      }
      r := Ok(stream[0]);
      stream := stream[1..];
    }

    /** The scalar normal draw (mean and variance select the distribution,
        whose values the stream already holds). */
    method Normal(mean: real, variance: real, parameter: seq<real>) returns (r: Result<real>)
      modifies this`stream
      ensures Drawn(r, stream) == ScalarNormal(old(stream), parameter)
    {
      r := Draw();
      if r.Err? {
        return;
      }
      if |parameter| == 2 {
        r := Draw();
      } else if |parameter| != 0 {
        r := Err(ErrorArgument);
      }
    }

    /** The scalar log-normal draw, with its rejection loop. */
    method LogNormal(mean: real, variance: real, parameter: seq<real>) returns (r: Result<real>)
      modifies this`stream
      ensures Drawn(r, stream) == ScalarLogNormal(old(stream), parameter)
    {
      ghost var target := ScalarLogNormal(stream, parameter);
      var first := Draw();
      if first.Err? {
        return first;
      }
      var value := first.value;
      if |parameter| == 2 {
        while value < parameter[0] || value > parameter[1]
          invariant Reject(value, stream, parameter[0], parameter[1]) == target
          decreases |stream|
        {
          var next := Draw();
          if next.Err? {
            return next;
          }
          value := next.value;
        }
      } else if |parameter| != 0 {
        return Err(ErrorArgument);
      }
      return Ok(value);
    }

    /** Adds one drawn value to every entry of output. */
    method AddToAll(output: array<real>, value: real)
      modifies output
      ensures output[..] == Shift(old(output[..]), value)
    {
      var i := 0;
      while i < output.Length
        invariant 0 <= i <= output.Length
        invariant forall k :: 0 <= k < i ==> output[k] == old(output[k]) + value
        invariant forall k :: i <= k < output.Length ==> output[k] == old(output[k])
      {
        output[i] := output[i] + value;
        i := i + 1;
      }
    }

    /** Homogeneous normal perturbation: one scalar draw of mean 0, added to
        every entry; an exception leaves output as it was. */
    method NormalHomogeneous(variance: real, parameter: seq<real>, output: array<real>) returns (o: Outcome)
      modifies this`stream, output
      ensures stream == ScalarNormal(old(stream), parameter).rest
      ensures match ScalarNormal(old(stream), parameter).result
              case Ok(v) => o == Pass && output[..] == Shift(old(output[..]), v)
              case Err(e) => o == Fail(e) && output[..] == old(output[..])
    {
      var r := Normal(0.0, variance, parameter);
      if r.Err? {
        return Fail(r.error);
      }
      AddToAll(output, r.value);
      return Pass;
    }

    /** Homogeneous log-normal perturbation: one scalar log-normal draw of
        mean 0, added to every entry. */
    method LogNormalHomogeneous(variance: real, parameter: seq<real>, output: array<real>) returns (o: Outcome)
      modifies this`stream, output
      ensures stream == ScalarLogNormal(old(stream), parameter).rest
      ensures match ScalarLogNormal(old(stream), parameter).result
              case Ok(v) => o == Pass && output[..] == Shift(old(output[..]), v)
              case Err(e) => o == Fail(e) && output[..] == old(output[..])
    {
      var r := LogNormal(0.0, variance, parameter);
      if r.Err? {
        return Fail(r.error);
      }
      AddToAll(output, r.value);
      return Pass;
    }

    /** The clipping test: true without parameters; ErrorArgument unless there
        are exactly two and one standard deviation per entry; otherwise true
        exactly when every entry over its standard deviation lies in
        [parameter(0), parameter(1)], scanning stopping at the first that does not. */
    method NormalClipping(diagonal: seq<real>, parameter: seq<real>, output: seq<real>) returns (r: Result<bool>)
      ensures |parameter| == 0 ==> r == Ok(true)
      ensures |parameter| != 0 && (|parameter| != 2 || |diagonal| != |output|) ==> r == Err(ErrorArgument)
      ensures |parameter| == 2 && |diagonal| == |output| ==>
                r == Ok(AllWithin(diagonal, parameter[0], parameter[1], output))
    {
      if |parameter| == 0 {
        return Ok(true);
      }
      if |parameter| != 2 {
        return Err(ErrorArgument);
      }
      if |diagonal| != |output| {
        return Err(ErrorArgument);
      }
      var i := 0;
      while i < |output|
        invariant 0 <= i <= |output|
        invariant forall k :: 0 <= k < i ==> Within(output[k], diagonal[k], parameter[0], parameter[1])
      {
        var value := Quotient(output[i], diagonal[i]);
        if Below(value, parameter[0]) || Above(value, parameter[1]) {
          return Ok(false);
        }
        i := i + 1;
      }
      return Ok(true);
    }

    /** One entry of the sample: a normal draw, replaced by a truncated draw
        when clipping parameters are given. */
    method DrawEntry(truncated: bool) returns (r: Result<real>)
      modifies this`stream
      ensures r.Err? ==> r == Err(Exhausted) && |old(stream)| < Consumed(1, truncated) && stream == []
      ensures r.Ok? ==> |old(stream)| >= Consumed(1, truncated)
                        && r.value == SampleEntry(old(stream), 0, truncated)
                        && stream == old(stream)[Consumed(1, truncated)..]
    {
      r := Draw();
      if r.Err? || !truncated {
        return;
      }
      r := Draw();
      assert r.Ok? ==> old(stream)[1..][1..] == old(stream)[2..];
    }

    /** The sample loop of the vector normal draw. */
    method DrawSample(size: nat, truncated: bool) returns (r: Result<seq<real>>)
      modifies this`stream
      ensures Drawn(r, stream) == SampleDraws(old(stream), size, truncated)
    {
      ghost var s := stream;
      var sample: seq<real> := [];
      var i := 0;
      while i < size
        invariant 0 <= i <= size && |sample| == i
        invariant |s| >= Consumed(i, truncated) && stream == s[Consumed(i, truncated)..]
        invariant forall k :: 0 <= k < i ==> sample[k] == SampleEntry(s, k, truncated)
      {
        var value := DrawEntry(truncated);
        if value.Err? {
          assert Consumed(i, truncated) + Consumed(1, truncated) <= Consumed(size, truncated);
          return Err(Exhausted);
        }
        EntryOfSuffix(s, i, truncated);
        sample := sample + [value.value];
        i := i + 1;
      }
      assert sample == SampleDraws(s, size, truncated).result.value;
      return Ok(sample);
    }

    /** One attempt of the vector normal draw: the sample, the standard
        deviations of the current matrix, its factor and output plus L times
        the sample. */
    method Attempt(factor: Matrix, truncated: bool, output: array<real>,
                   cholesky: Matrix -> Matrix, sqrt: real -> real) returns (r: Result<Matrix>, sd: seq<real>)
      modifies this`stream, output
      ensures |sd| == output.Length
      ensures r.Err? ==> r == Err(Exhausted)
      ensures output.Length > 0 && r.Ok? ==> |stream| < |old(stream)|
      ensures r.Ok? ==>
                r.value == cholesky(factor)
                && SampleDraws(old(stream), output.Length, truncated).result.Ok?
                && stream == SampleDraws(old(stream), output.Length, truncated).rest
                && output[..] == VecAdd(old(output[..]), MatVec(LowerPart(cholesky(factor), output.Length),
                                                              SampleDraws(old(stream), output.Length, truncated).result.value))
    {
      var m := output.Length;
      sd := seq(m, i => sqrt(Entry(factor, i, i)));
      var sample := DrawSample(m, truncated);
      if sample.Err? {
        return Err(Exhausted), sd;
      }
      var next := cholesky(factor);
      var deviation := LowerPart(next, m);
      forall i | 0 <= i < m {
        output[i] := output[i] + Dot(deviation[i], sample.value);
      }
      assert output[..] == VecAdd(old(output[..]), MatVec(deviation, sample.value));
      return Ok(next), sd;
    }

    /** The vector normal draw: checks the parameters before anything else,
        then repeats attempts until the clipping test passes. Each attempt
        draws a sample, factors the current covariance matrix in place
        (`cholesky`) and adds L times the sample to output; output is not reset
        between attempts. `diagonal` is the standard deviation vector of the
        last attempt. */
    method NormalVector(variance: Matrix, parameter: seq<real>, output: array<real>,
                        cholesky: Matrix -> Matrix, sqrt: real -> real) returns (o: Outcome, ghost diagonal: seq<real>)
      requires IsMatrix(variance, output.Length, output.Length)
      modifies this`stream, output
      ensures |parameter| != 0 && |parameter| != 2 ==>
                o == Fail(ErrorArgument) && output[..] == old(output[..]) && stream == old(stream)
      ensures o == Pass || o == Fail(ErrorArgument) || o == Fail(Exhausted)
      ensures o == Pass ==> |diagonal| == output.Length
      ensures o == Pass && |parameter| == 2 ==> AllWithin(diagonal, parameter[0], parameter[1], output[..])
      ensures o == Pass && |parameter| == 0 ==>
                SampleDraws(old(stream), output.Length, false).result.Ok?
                && output[..] == FirstAttempt(old(output[..]), variance, cholesky, old(stream))
    {
      diagonal := [];
      if |parameter| != 0 && |parameter| != 2 {
        return Fail(ErrorArgument), diagonal;
      }
      var m := |variance|;
      var factor := variance;
      var sd: seq<real> := [];
      var satisfied := false;
      ghost var attempts := 0;
      while !satisfied
        invariant m == output.Length
        invariant satisfied ==> |sd| == m
        invariant satisfied && |parameter| == 2 ==> AllWithin(sd, parameter[0], parameter[1], output[..])
        invariant attempts == 0 ==> !satisfied && factor == variance && stream == old(stream) && output[..] == old(output[..])
        invariant |parameter| == 0 ==> attempts <= 1 && (satisfied <==> attempts == 1)
        invariant |parameter| == 0 && attempts == 1 ==>
                    SampleDraws(old(stream), m, false).result.Ok?
                    && output[..] == FirstAttempt(old(output[..]), variance, cholesky, old(stream))
        decreases |stream|, if satisfied then 0 else 1
      {
        var next;
        next, sd := Attempt(factor, |parameter| == 2, output, cholesky, sqrt);
        if next.Err? {
          return Fail(Exhausted), diagonal;
        }
        factor := next.value;
        var clipped := NormalClipping(sd, parameter, output[..]);
        satisfied := clipped == Ok(true);
        attempts := attempts + 1;
      }
      return Pass, sd;
    }

    /** The vector log-normal draw: output holds the medians; it is mapped by
        `ln`, perturbed by the vector normal draw and mapped back by `exp`. The
        logarithm is applied before the parameters are checked. `y` is the
        perturbed vector before `exp`, the one the clipping test is applied to,
        and `diagonal` the standard deviations of the last attempt. */
    method LogNormalVector(variance: Matrix, parameter: seq<real>, output: array<real>,
                           cholesky: Matrix -> Matrix, sqrt: real -> real,
                           ln: real -> real, exp: real -> real)
      returns (o: Outcome, ghost diagonal: seq<real>, ghost y: seq<real>)
      requires IsMatrix(variance, output.Length, output.Length)
      modifies this`stream, output
      ensures |parameter| != 0 && |parameter| != 2 ==>
                o == Fail(ErrorArgument) && output[..] == Map(ln, old(output[..])) && stream == old(stream)
      ensures o == Pass || o == Fail(ErrorArgument) || o == Fail(Exhausted)
      ensures o == Pass ==> |y| == output.Length == |diagonal| && output[..] == Map(exp, y)
      ensures o == Pass && |parameter| == 2 ==> AllWithin(diagonal, parameter[0], parameter[1], y)
      ensures o == Pass && |parameter| == 0 ==>
                SampleDraws(old(stream), output.Length, false).result.Ok?
                && output[..] == Map(exp, FirstAttempt(Map(ln, old(output[..])), variance, cholesky, old(stream)))
    {
      var m := |variance|;
      forall i | 0 <= i < m {
        output[i] := ln(output[i]);
      }
      assert output[..] == Map(ln, old(output[..]));
      o, diagonal := NormalVector(variance, parameter, output, cholesky, sqrt);
      y := output[..];
      if o.Fail? {
        return;
      }
      forall i | 0 <= i < m {
        output[i] := exp(output[i]);
      }
    }
  }
}
