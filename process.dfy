/**
 * The base of every stochastic process: the checks its constructor runs, the
 * time grid it builds, and the radial part of a trajectory.
 */
module Processes {
  import opened Wrappers

  /** A Python argument as the constructor's isinstance(.., int) test sees it. */
  datatype PyArg = PyInt(n: int) | NotInt

  /** The Python exception class a failed construction raises. */
  datatype ExceptionClass = ValueError | IndexError | NotImplementedError

  /** Why construction failed, one case per place that raises. */
  datatype InitError =
    | StartNotBeforeEnd    // starttime >= endtime
    | NumStepsNotInteger   // num_steps is not an int
    | NegativeSampleCount  // linspace refuses a negative number of samples
    | TimeAxisTooShort     // timeaxis[1] does not exist when num_steps < 2
    | DimNotInteger        // dim is not an int
    | NegativeDimension    // the default start value np.zeros((dim, 1)) with dim < 0
  {
    function Raises(): ExceptionClass
    {
      match this
      case TimeAxisTooShort => IndexError
      case DimNotInteger => NotImplementedError
      case _ => ValueError
    }
  }

  /** A matrix as a sequence of rows. */
  type Matrix = seq<seq<real>>

  /** m has the given number of rows, each with the given number of columns. */
  predicate IsShape(m: Matrix, rows: int, cols: int)
  {
    |m| == rows && forall k :: 0 <= k < |m| ==> |m[k]| == cols
  }

  /**
   * The fields a constructed process holds. A start value is a column: entry
   * k is the value of component k at time 0.
   */
  datatype Process = Process(
    starttime: real,
    endtime: real,
    numSteps: int,
    timeaxis: seq<real>,
    dt: real,
    dim: int,
    startValue: seq<real>)
  {
    /** What every successfully constructed process satisfies. */
    predicate Valid()
    {
      && starttime < endtime
      && numSteps >= 2
      && timeaxis == Linspace(endtime, numSteps)
      && dt == timeaxis[1] - timeaxis[0]
    }
  }

  /**
   * num evenly spaced points from 0 to stop, both ends included, as
   * np.linspace(0, stop, num) returns them for num >= 0.
   */
  function Linspace(stop: real, num: nat): (r: seq<real>)
    ensures |r| == num
    ensures num >= 1 ==> r[0] == 0.0
    ensures num >= 2 ==> r[num - 1] == stop
  {
    if num == 0 then []
    else if num == 1 then [0.0]
    else
      var step := stop / (num - 1) as real;
      assert (num - 1) as real * step == stop;
      seq(num, i requires 0 <= i < num => i as real * step)
  }

  /** The zero column of length dim, np.zeros(shape=(dim, 1)). */
  function Zeros(dim: nat): (z: seq<real>)
    ensures |z| == dim && forall k :: 0 <= k < dim ==> z[k] == 0.0
  {
    seq(dim, _ => 0.0)
  }

  /**
   * The constructor. It checks starttime against endtime, then the type of
   * num_steps, then builds the grid (which fails for a negative num_steps, and
   * for fewer than two points when the second point is read), then checks the
   * type of dim, and finally fills in the start value.
   */
  function Init(starttime: real, endtime: real, numSteps: PyArg, dim: PyArg,
                startValue: Option<seq<real>>): (r: Result<Process, InitError>)
    ensures r == Failure(StartNotBeforeEnd) <==> starttime >= endtime
    ensures r == Failure(NumStepsNotInteger) <==> starttime < endtime && numSteps.NotInt?
    ensures r == Failure(NegativeSampleCount) <==>
              starttime < endtime && numSteps.PyInt? && numSteps.n < 0
    ensures r == Failure(TimeAxisTooShort) <==>
              starttime < endtime && numSteps.PyInt? && 0 <= numSteps.n < 2
    ensures r == Failure(DimNotInteger) <==>
              starttime < endtime && numSteps.PyInt? && numSteps.n >= 2 && dim.NotInt?
    ensures r == Failure(NegativeDimension) <==>
              && starttime < endtime && numSteps.PyInt? && numSteps.n >= 2
              && dim.PyInt? && startValue.None? && dim.n < 0
    ensures r.Success? <==>
              && starttime < endtime
              && numSteps.PyInt? && numSteps.n >= 2
              && dim.PyInt?
              && (startValue.Some? || dim.n >= 0)
    ensures r.Success? ==>
              && r.value.Valid()
              && r.value.starttime == starttime
              && r.value.endtime == endtime
              && r.value.numSteps == numSteps.n
              && r.value.dim == dim.n
    ensures r.Success? && startValue.Some? ==> r.value.startValue == startValue.value
    ensures r.Success? && startValue.None? ==>
              |r.value.startValue| == dim.n &&
              forall k :: 0 <= k < dim.n ==> r.value.startValue[k] == 0.0
  {
    if starttime >= endtime then Failure(StartNotBeforeEnd)
    else if numSteps.NotInt? then Failure(NumStepsNotInteger)
    else if numSteps.n < 0 then Failure(NegativeSampleCount)
    else
      var timeaxis := Linspace(endtime, numSteps.n);
      if numSteps.n < 2 then Failure(TimeAxisTooShort)
      else
        var dt := timeaxis[1] - timeaxis[0];
        if dim.NotInt? then Failure(DimNotInteger)
        else if startValue.None? && dim.n < 0 then Failure(NegativeDimension)
        else
          var start := if startValue.Some? then startValue.value else Zeros(dim.n);
          Success(Process(starttime, endtime, numSteps.n, timeaxis, dt, dim.n, start))
  }

  /**
   * The grid of a constructed process: num_steps points from 0 to endtime,
   * point i at i * dt, consecutive points dt apart, with dt equal to
   * endtime / (num_steps - 1). starttime plays no part in it.
   */
  lemma GridOfProcess(p: Process)
    requires p.Valid()
    ensures |p.timeaxis| == p.numSteps
    ensures p.timeaxis[0] == 0.0 && p.timeaxis[p.numSteps - 1] == p.endtime
    ensures p.dt == p.endtime / (p.numSteps - 1) as real
    ensures forall i :: 0 <= i < p.numSteps ==> p.timeaxis[i] == i as real * p.dt
    ensures forall i :: 0 <= i < p.numSteps - 1 ==> p.timeaxis[i + 1] - p.timeaxis[i] == p.dt
  {
    var step := p.endtime / (p.numSteps - 1) as real;
    assert p.timeaxis[1] == 1 as real * step;
    forall i | 0 <= i < p.numSteps - 1
      ensures p.timeaxis[i + 1] - p.timeaxis[i] == p.dt
    {
      assert p.timeaxis[i + 1] == (i + 1) as real * step;
      assert p.timeaxis[i] == i as real * step;
    }
  }

  /**
   * The step is positive exactly when endtime is, and the grid is then
   * strictly increasing; starttime < endtime alone does not ensure this.
   */
  lemma StepSign(p: Process)
    requires p.Valid()
    ensures p.dt > 0.0 <==> p.endtime > 0.0
    ensures p.endtime > 0.0 ==>
              forall i, j :: 0 <= i < j < p.numSteps ==> p.timeaxis[i] < p.timeaxis[j]
  {
    GridOfProcess(p);
    var n := (p.numSteps - 1) as real;
    assert p.dt * n == p.endtime;
    if p.endtime > 0.0 {
      forall i, j | 0 <= i < j < p.numSteps
        ensures p.timeaxis[i] < p.timeaxis[j]
      {
        assert p.timeaxis[j] - p.timeaxis[i] == (j - i) as real * p.dt;
      }
    }
  }

  /**
   * A construction that passes every check although its grid runs backwards:
   * starttime -2 and endtime -1 give the grid 0, -0.5, -1 and a negative step.
   */
  lemma NegativeEndtimeGivesNegativeStep()
    ensures var r := Init(-2.0, -1.0, PyInt(3), PyInt(1), None);
            r.Success? && r.value.timeaxis == [0.0, -0.5, -1.0] && r.value.dt == -0.5
  {
    var r := Init(-2.0, -1.0, PyInt(3), PyInt(1), None);
    var t := r.value.timeaxis;
    assert t[1] == 1 as real * (-1.0 / 2 as real);
  }

  /** The sum of the squares of the entries of s. */
  function SumSquares(s: seq<real>): real
  {
    if |s| == 0 then 0.0 else SumSquares(s[..|s| - 1]) + s[|s| - 1] * s[|s| - 1]
  }

  /** Column j of m. */
  function Column(m: Matrix, j: nat): (c: seq<real>)
    requires forall k :: 0 <= k < |m| ==> j < |m[k]|
    ensures |c| == |m| && forall k :: 0 <= k < |m| ==> c[k] == m[k][j]
  {
    seq(|m|, k requires 0 <= k < |m| => m[k][j])
  }

  /**
   * The radial part of a trajectory with cols columns, squared: one value per
   * time step, the sum of squares of that column (the Euclidean norm along the
   * dimension axis is its square root).
   */
  function GetRadialPart(trajectory: Matrix, cols: nat): (r: seq<real>)
    requires IsShape(trajectory, |trajectory|, cols)
    ensures |r| == cols
  {
    seq(cols, j requires 0 <= j < cols => SumSquares(Column(trajectory, j)))
  }

  /** A sum of squares is never negative, and it is zero when every entry is. */
  lemma {:induction false} SumSquaresBounds(s: seq<real>)
    ensures SumSquares(s) >= 0.0
    ensures (forall k :: 0 <= k < |s| ==> s[k] == 0.0) ==> SumSquares(s) == 0.0
  {
    if |s| > 0 {
      var front := s[..|s| - 1];
      SumSquaresBounds(front);
      var x := s[|s| - 1];
      assert x * x >= 0.0;
      if forall k :: 0 <= k < |s| ==> s[k] == 0.0 {
        assert forall k :: 0 <= k < |front| ==> front[k] == s[k];
      }
    }
  }

  /**
   * The radial part of a one-dimensional trajectory (an array of shape
   * (num_steps,)), squared. The norm along axis 0 of such an array is ONE value,
   * the norm of the whole path, not one value per time step.
   */
  function GetRadialPartOneDim(trajectory: seq<real>): (r: real)
    ensures r >= 0.0
    ensures (forall k :: 0 <= k < |trajectory| ==> trajectory[k] == 0.0) ==> r == 0.0
  {
    SumSquaresBounds(trajectory);
    SumSquares(trajectory)
  }

  /**
   * Each radial value is non-negative, and it is zero at every time step where
   * the whole column is zero.
   */
  lemma RadialPartBounds(trajectory: Matrix, cols: nat, j: nat)
    requires IsShape(trajectory, |trajectory|, cols) && j < cols
    ensures GetRadialPart(trajectory, cols)[j] >= 0.0
    ensures (forall k :: 0 <= k < |trajectory| ==> trajectory[k][j] == 0.0) ==>
              GetRadialPart(trajectory, cols)[j] == 0.0
  {
    SumSquaresBounds(Column(trajectory, j));
  }

  /** A two-dimensional point (3, 4) has radial part 5, whose square is 25. */
  lemma RadialPartPythagoras()
    ensures GetRadialPart([[3.0], [4.0]], 1) == [25.0]
  {
    var c := Column([[3.0], [4.0]], 0);
    assert c == [3.0, 4.0];
    assert c[..1] == [3.0];
    assert [3.0][..0] == [];
  }
}
