/**
 * N-dimensional Brownian motion: increments are drawn per component and per
 * step, and the trajectory is the start column followed by the running sums of
 * the increments along the time axis.
 */
module Brownian {
  import opened Wrappers
  import opened Processes
  import opened Cumulative
  import Sde

  /** The numpy errors the two operations can raise for ill-shaped data. */
  datatype ShapeError =
    | NegativeDimensions   // an increment array of shape (dim, num_steps - 1) with dim < 0
    | ConcatenateMismatch  // start column and increments with different numbers of rows

  /**
   * get_increments: a dim x (num_steps - 1) matrix whose entry (k, j) is the
   * sample drawn for component k and step j.
   */
  function GetIncrements(p: Process, draw: (nat, nat) -> real): (r: Result<Matrix, ShapeError>)
    requires p.numSteps >= 1
    ensures r.Success? <==> p.dim >= 0
    ensures r.Failure? ==> r.error == NegativeDimensions
    ensures r.Success? ==> IsShape(r.value, p.dim, p.numSteps - 1)
    ensures r.Success? ==>
              forall k, j :: 0 <= k < p.dim && 0 <= j < p.numSteps - 1 ==> r.value[k][j] == draw(k, j)
  {
    if p.dim < 0 then Failure(NegativeDimensions)
    else Success(seq(p.dim, k requires 0 <= k => seq(p.numSteps - 1, j requires 0 <= j => draw(k, j))))
  }

  /**
   * The start column put in front of the increments, then running sums along
   * each row: concatenate((start, increments), axis=1) followed by
   * cumsum(axis=1).
   */
  function Trajectory(start: seq<real>, increments: Matrix): (r: Result<Matrix, ShapeError>)
    ensures r.Success? <==> |start| == |increments|
    ensures r.Failure? ==> r.error == ConcatenateMismatch
    ensures r.Success? ==>
              && |r.value| == |increments|
              && (forall k :: 0 <= k < |increments| ==> |r.value[k]| == |increments[k]| + 1)
  {
    if |start| != |increments| then Failure(ConcatenateMismatch)
    else Success(seq(|increments|, k requires 0 <= k < |increments| => CumSum([start[k]] + increments[k])))
  }

  /**
   * get_trajectory: draw the increments, then build the trajectory from them.
   * It succeeds exactly when dim >= 0 and the start column has dim rows, and
   * then gives dim rows of num_steps entries, one more than the increments.
   */
  function GetTrajectory(p: Process, draw: (nat, nat) -> real): (r: Result<Matrix, ShapeError>)
    requires p.numSteps >= 1
    ensures r.Success? <==> p.dim >= 0 && |p.startValue| == p.dim
    ensures r.Failure? ==> r.error == if p.dim < 0 then NegativeDimensions else ConcatenateMismatch
    ensures r.Success? ==> IsShape(r.value, p.dim, p.numSteps)
  {
    match GetIncrements(p, draw)
    case Failure(e) => Failure(e)
    case Success(increments) => Trajectory(p.startValue, increments)
  }

  /**
   * Entry (k, j) of what get_trajectory returns is the start value of
   * component k plus the first j samples drawn for that component.
   */
  lemma GetTrajectoryAt(p: Process, draw: (nat, nat) -> real, k: nat, j: nat)
    requires p.numSteps >= 1 && p.dim >= 0 && |p.startValue| == p.dim
    requires k < p.dim && j < p.numSteps
    ensures GetTrajectory(p, draw).value[k][j]
              == p.startValue[k] + Sum(seq(j, i requires 0 <= i < j => draw(k, i)))
  {
    var inc := GetIncrements(p, draw).value;
    TrajectoryAt(p.startValue, inc, k, j);
    assert inc[k][..j] == seq(j, i requires 0 <= i < j => draw(k, i));
  }

  /**
   * Entry (k, j) of the trajectory is the start value of component k plus the
   * first j increments of that component; column 0 is the start column.
   */
  lemma {:induction false} TrajectoryAt(start: seq<real>, increments: Matrix, k: nat, j: nat)
    requires |start| == |increments| && k < |increments| && j <= |increments[k]|
    ensures Trajectory(start, increments).value[k][j] == start[k] + Sum(increments[k][..j])
  {
    var row := [start[k]] + increments[k];
    CumSumAt(row, j);
    assert row[..j + 1] == [start[k]] + increments[k][..j];
    SumOfConsed(start[k], increments[k][..j]);
  }

  /** The sum of x followed by s is x plus the sum of s. */
  lemma {:induction false} SumOfConsed(x: real, s: seq<real>)
    ensures Sum([x] + s) == x + Sum(s)
  {
    if |s| > 0 {
      var front := s[..|s| - 1];
      SumOfConsed(x, front);
      assert [x] + s == ([x] + front) + [s[|s| - 1]];
      SumAppend([x] + front, s[|s| - 1]);
      assert s == front + [s[|s| - 1]];
      SumAppend(front, s[|s| - 1]);
    } else {
      assert [x] + s == [] + [x];
      SumAppend([], x);
    }
  }

  /** Column 0 of the trajectory is the start column. */
  lemma FirstColumnIsStart(start: seq<real>, increments: Matrix)
    requires |start| == |increments|
    ensures forall k :: 0 <= k < |increments| ==> Trajectory(start, increments).value[k][0] == start[k]
  {
    forall k | 0 <= k < |increments|
      ensures Trajectory(start, increments).value[k][0] == start[k]
    {
      TrajectoryAt(start, increments, k, 0);
    }
  }

  /**
   * Differencing consecutive columns of the trajectory gives back the
   * increments, and the start column with those differences gives back the
   * trajectory.
   */
  lemma DifferencesRecoverIncrements(start: seq<real>, increments: Matrix, k: nat)
    requires |start| == |increments| && k < |increments|
    ensures var row := Trajectory(start, increments).value[k];
            && Differences(row) == increments[k]
            && (forall j :: 0 <= j < |increments[k]| ==> increments[k][j] == row[j + 1] - row[j])
            && CumSum([row[0]] + Differences(row)) == row
  {
    var row := Trajectory(start, increments).value[k];
    DifferencesOfCumSum([start[k]] + increments[k]);
    assert ([start[k]] + increments[k])[1..] == increments[k];
    CumSumOfDifferences(row);
  }

  /**
   * Row k of the trajectory depends only on row k of the start column and of
   * the increments: the sums never mix components.
   */
  lemma RowsAreIndependent(start: seq<real>, increments: Matrix,
                           start': seq<real>, increments': Matrix, k: nat)
    requires |start| == |increments| && |start'| == |increments'|
    requires k < |increments| && k < |increments'|
    requires start[k] == start'[k] && increments[k] == increments'[k]
    ensures Trajectory(start, increments).value[k] == Trajectory(start', increments').value[k]
  {
  }

  /**
   * With zero drift and unit volatility, the one-dimensional Euler–Maruyama
   * path from x0 is the one-row Brownian trajectory from the column [x0]
   * driven by the same samples.
   */
  lemma PureNoiseSDEIsBrownian(x0: real, b: (real, real) -> real, sigma: (real, real) -> real,
                               t: seq<real>, dt: real, dW: seq<real>, n: nat)
    requires 1 <= n <= |t| && n <= |dW| + 1
    requires forall x, s :: b(x, s) == 0.0
    requires forall x, s :: sigma(x, s) == 1.0
    ensures Sde.EulerPath(x0, b, sigma, t, dt, dW, n) == Trajectory([x0], [dW[..n - 1]]).value[0]
  {
    Sde.PureNoisePath(x0, b, sigma, t, dt, dW, n);
  }

  /**
   * With the default start value the radial part of the trajectory is zero at
   * time 0, whatever the increments.
   */
  lemma RadialPartStartsAtZero(p: Process, draw: (nat, nat) -> real)
    requires p.numSteps >= 1 && p.dim >= 0
    requires p.startValue == Zeros(p.dim)
    ensures GetTrajectory(p, draw).Success?
    ensures GetRadialPart(GetTrajectory(p, draw).value, p.numSteps)[0] == 0.0
  {
    var inc := GetIncrements(p, draw).value;
    var tr := GetTrajectory(p, draw).value;
    FirstColumnIsStart(p.startValue, inc);
    RadialPartBounds(tr, p.numSteps, 0);
  }
}
