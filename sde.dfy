/**
 * A one-dimensional stochastic differential equation
 *   dX_t = b(X_t, t) dt + sigma(X_t, t) dB_t
 * integrated with the Euler–Maruyama scheme. The Gaussian samples dW are an
 * input; drift b and volatility sigma are total functions of state and time.
 */
module Sde {
  import opened Wrappers
  import opened Processes
  import opened Cumulative

  /** A drift or volatility function of the state x and the time t. */
  type Coefficient = (real, real) -> real

  datatype OneDimSDE = OneDimSDE(b: Coefficient, sigma: Coefficient, process: Process)

  /** The constructor: the base checks first, then b and sigma are stored. */
  function NewOneDimSDE(b: Coefficient, sigma: Coefficient, starttime: real, endtime: real,
                        numSteps: PyArg, dim: PyArg, startValue: Option<seq<real>>)
    : (r: Result<OneDimSDE, InitError>)
    ensures var base := Init(starttime, endtime, numSteps, dim, startValue);
            && (r.Failure? <==> base.Failure?)
            && (r.Failure? ==> r.error == base.error)
            && (r.Success? ==> r.value.process == base.value && r.value.b == b && r.value.sigma == sigma)
  {
    match Init(starttime, endtime, numSteps, dim, startValue)
    case Failure(e) => Failure(e)
    case Success(p) => Success(OneDimSDE(b, sigma, p))
  }

  /** One Euler–Maruyama step from state x at time t with noise sample w. */
  function EulerStep(b: Coefficient, sigma: Coefficient, x: real, t: real, dt: real, w: real): real
  {
    x + b(x, t) * dt + sigma(x, t) * w
  }

  /** The drift and noise terms of one step, without the state they are added to. */
  function Increment(b: Coefficient, sigma: Coefficient, x: real, t: real, dt: real, w: real): real
  {
    b(x, t) * dt + sigma(x, t) * w
  }

  /**
   * The first n states of the Euler–Maruyama path from x0 on the grid t,
   * step i using the grid time t[i - 1] and the sample dW[i - 1].
   */
  function EulerPath(x0: real, b: Coefficient, sigma: Coefficient, t: seq<real>, dt: real,
                     dW: seq<real>, n: nat): (path: seq<real>)
    requires 1 <= n <= |t| && n <= |dW| + 1
    ensures |path| == n && path[0] == x0
  {
    if n == 1 then [x0]
    else
      var prev := EulerPath(x0, b, sigma, t, dt, dW, n - 1);
      prev + [EulerStep(b, sigma, prev[n - 2], t[n - 2], dt, dW[n - 2])]
  }

  /**
   * The first n entries of what get_increments returns: the start value, then
   * each entry the drift and noise terms evaluated at the PREVIOUS ENTRY, which
   * from index 1 on is an increment and not a state.
   */
  function IncrementPath(x0: real, b: Coefficient, sigma: Coefficient, t: seq<real>, dt: real,
                         dW: seq<real>, n: nat): (inc: seq<real>)
    requires 1 <= n <= |t| && n <= |dW| + 1
    ensures |inc| == n && inc[0] == x0
  {
    if n == 1 then [x0]
    else
      var prev := IncrementPath(x0, b, sigma, t, dt, dW, n - 1);
      prev + [Increment(b, sigma, prev[n - 2], t[n - 2], dt, dW[n - 2])]
  }

  /**
   * get_trajectory: fills a fresh array of num_steps entries, entry 0 with the
   * start value and each later entry by one Euler–Maruyama step from the
   * previous one.
   */
  method GetTrajectory(sde: OneDimSDE, dW: seq<real>) returns (trajectory: seq<real>)
    requires 1 <= sde.process.numSteps == |sde.process.timeaxis|
    requires |sde.process.startValue| == 1
    requires |dW| == sde.process.numSteps
    ensures |trajectory| == sde.process.numSteps && trajectory[0] == sde.process.startValue[0]
    ensures forall i :: 1 <= i < |trajectory| ==>
              trajectory[i] == EulerStep(sde.b, sde.sigma, trajectory[i - 1],
                                         sde.process.timeaxis[i - 1], sde.process.dt, dW[i - 1])
    ensures trajectory == EulerPath(sde.process.startValue[0], sde.b, sde.sigma,
                                    sde.process.timeaxis, sde.process.dt, dW, sde.process.numSteps)
  {
    var p := sde.process;
    var x0 := p.startValue[0];
    var path := new real[p.numSteps];
    path[0] := x0;
    for i := 1 to p.numSteps
      invariant path[..i] == EulerPath(x0, sde.b, sde.sigma, p.timeaxis, p.dt, dW, i)
    {
      ghost var done := EulerPath(x0, sde.b, sde.sigma, p.timeaxis, p.dt, dW, i);
      var x, t := path[i - 1], p.timeaxis[i - 1];
      assert x == done[i - 1];
      var next := x + sde.b(x, t) * p.dt + sde.sigma(x, t) * dW[i - 1];
      assert next == EulerStep(sde.b, sde.sigma, x, t, p.dt, dW[i - 1]);
      path[i] := next;
      assert path[..i + 1] == done + [path[i]];
    }
    assert path[..p.numSteps] == path[..];
    trajectory := path[..];
    forall i | 1 <= i < |trajectory|
      ensures trajectory[i] == EulerStep(sde.b, sde.sigma, trajectory[i - 1], p.timeaxis[i - 1], p.dt, dW[i - 1])
    {
      EulerPathRecurrence(x0, sde.b, sde.sigma, p.timeaxis, p.dt, dW, p.numSteps, i);
    }
  }

  /**
   * get_increments: the same loop, but each entry after the first holds only
   * the drift and noise terms, computed from the previous entry.
   */
  method GetIncrements(sde: OneDimSDE, dW: seq<real>) returns (increments: seq<real>)
    requires 1 <= sde.process.numSteps == |sde.process.timeaxis|
    requires |sde.process.startValue| == 1
    requires |dW| == sde.process.numSteps
    ensures |increments| == sde.process.numSteps && increments[0] == sde.process.startValue[0]
    ensures forall i :: 1 <= i < |increments| ==>
              increments[i] == Increment(sde.b, sde.sigma, increments[i - 1],
                                         sde.process.timeaxis[i - 1], sde.process.dt, dW[i - 1])
    ensures increments == IncrementPath(sde.process.startValue[0], sde.b, sde.sigma,
                                        sde.process.timeaxis, sde.process.dt, dW, sde.process.numSteps)
  {
    var p := sde.process;
    var x0 := p.startValue[0];
    var inc := new real[p.numSteps];
    inc[0] := x0;
    for i := 1 to p.numSteps
      invariant inc[..i] == IncrementPath(x0, sde.b, sde.sigma, p.timeaxis, p.dt, dW, i)
    {
      ghost var done := IncrementPath(x0, sde.b, sde.sigma, p.timeaxis, p.dt, dW, i);
      var x, t := inc[i - 1], p.timeaxis[i - 1];
      assert x == done[i - 1];
      var next := sde.b(x, t) * p.dt + sde.sigma(x, t) * dW[i - 1];
      assert next == Increment(sde.b, sde.sigma, x, t, p.dt, dW[i - 1]);
      inc[i] := next;
      assert inc[..i + 1] == done + [inc[i]];
    }
    assert inc[..p.numSteps] == inc[..];
    increments := inc[..];
    forall i | 1 <= i < |increments|
      ensures increments[i] == Increment(sde.b, sde.sigma, increments[i - 1], p.timeaxis[i - 1], p.dt, dW[i - 1])
    {
      IncrementPathRecurrence(x0, sde.b, sde.sigma, p.timeaxis, p.dt, dW, p.numSteps, i);
    }
  }

  /** A shorter path is a prefix of a longer one. */
  lemma {:induction false} EulerPathPrefix(x0: real, b: Coefficient, sigma: Coefficient,
                                           t: seq<real>, dt: real, dW: seq<real>, m: nat, n: nat)
    requires 1 <= m <= n <= |t| && n <= |dW| + 1
    ensures EulerPath(x0, b, sigma, t, dt, dW, n)[..m] == EulerPath(x0, b, sigma, t, dt, dW, m)
  {
    if m < n {
      EulerPathPrefix(x0, b, sigma, t, dt, dW, m, n - 1);
      var longer := EulerPath(x0, b, sigma, t, dt, dW, n);
      assert longer[..n - 1] == EulerPath(x0, b, sigma, t, dt, dW, n - 1);
      assert longer[..m] == longer[..n - 1][..m];
    } else {
      assert EulerPath(x0, b, sigma, t, dt, dW, n)[..n] == EulerPath(x0, b, sigma, t, dt, dW, n);
    }
  }

  /** Every entry after the first is one Euler–Maruyama step from the one before. */
  lemma EulerPathRecurrence(x0: real, b: Coefficient, sigma: Coefficient,
                            t: seq<real>, dt: real, dW: seq<real>, n: nat, i: nat)
    requires 1 <= n <= |t| && n <= |dW| + 1
    requires 1 <= i < n
    ensures var path := EulerPath(x0, b, sigma, t, dt, dW, n);
            path[i] == EulerStep(b, sigma, path[i - 1], t[i - 1], dt, dW[i - 1])
  {
    EulerPathPrefix(x0, b, sigma, t, dt, dW, i + 1, n);
    var path := EulerPath(x0, b, sigma, t, dt, dW, n);
    assert path[i] == path[..i + 1][i] && path[i - 1] == path[..i + 1][i - 1];
  }

  /** A shorter list of increments is a prefix of a longer one. */
  lemma {:induction false} IncrementPathPrefix(x0: real, b: Coefficient, sigma: Coefficient,
                                               t: seq<real>, dt: real, dW: seq<real>, m: nat, n: nat)
    requires 1 <= m <= n <= |t| && n <= |dW| + 1
    ensures IncrementPath(x0, b, sigma, t, dt, dW, n)[..m] == IncrementPath(x0, b, sigma, t, dt, dW, m)
  {
    if m < n {
      IncrementPathPrefix(x0, b, sigma, t, dt, dW, m, n - 1);
      var longer := IncrementPath(x0, b, sigma, t, dt, dW, n);
      assert longer[..n - 1] == IncrementPath(x0, b, sigma, t, dt, dW, n - 1);
      assert longer[..m] == longer[..n - 1][..m];
    } else {
      assert IncrementPath(x0, b, sigma, t, dt, dW, n)[..n] == IncrementPath(x0, b, sigma, t, dt, dW, n);
    }
  }

  /**
   * Every entry after the first is the drift and noise terms evaluated at the
   * previous entry, which is itself an increment from index 2 on.
   */
  lemma IncrementPathRecurrence(x0: real, b: Coefficient, sigma: Coefficient,
                                t: seq<real>, dt: real, dW: seq<real>, n: nat, i: nat)
    requires 1 <= n <= |t| && n <= |dW| + 1
    requires 1 <= i < n
    ensures var inc := IncrementPath(x0, b, sigma, t, dt, dW, n);
            inc[i] == Increment(b, sigma, inc[i - 1], t[i - 1], dt, dW[i - 1])
  {
    IncrementPathPrefix(x0, b, sigma, t, dt, dW, i + 1, n);
    var inc := IncrementPath(x0, b, sigma, t, dt, dW, n);
    assert inc[i] == inc[..i + 1][i] && inc[i - 1] == inc[..i + 1][i - 1];
  }

  /** The path only ever reads the first n - 1 noise samples. */
  lemma {:induction false} EulerPathUsesOnlyEarlierSamples(x0: real, b: Coefficient, sigma: Coefficient,
                                                           t: seq<real>, dt: real, dW: seq<real>,
                                                           dW': seq<real>, n: nat)
    requires 1 <= n <= |t| && n <= |dW| + 1 && n <= |dW'| + 1
    requires dW[..n - 1] == dW'[..n - 1]
    ensures EulerPath(x0, b, sigma, t, dt, dW, n) == EulerPath(x0, b, sigma, t, dt, dW', n)
  {
    if n > 1 {
      assert dW[..n - 2] == dW[..n - 1][..n - 2] && dW'[..n - 2] == dW'[..n - 1][..n - 2];
      EulerPathUsesOnlyEarlierSamples(x0, b, sigma, t, dt, dW, dW', n - 1);
      assert dW[n - 2] == dW[..n - 1][n - 2] && dW'[n - 2] == dW'[..n - 1][n - 2];
    }
  }

  /**
   * get_trajectory draws num_steps samples but the last one, dW[num_steps - 1],
   * never affects its result.
   */
  lemma LastSampleUnused(sde: OneDimSDE, dW: seq<real>, w: real)
    requires 1 <= sde.process.numSteps == |sde.process.timeaxis|
    requires |dW| == sde.process.numSteps
    ensures var p := sde.process;
            forall x0 :: EulerPath(x0, sde.b, sde.sigma, p.timeaxis, p.dt, dW, p.numSteps)
                         == EulerPath(x0, sde.b, sde.sigma, p.timeaxis, p.dt, dW[|dW| - 1 := w], p.numSteps)
  {
    var p := sde.process;
    var dW' := dW[|dW| - 1 := w];
    assert dW[..p.numSteps - 1] == dW'[..p.numSteps - 1];
    forall x0
      ensures EulerPath(x0, sde.b, sde.sigma, p.timeaxis, p.dt, dW, p.numSteps)
              == EulerPath(x0, sde.b, sde.sigma, p.timeaxis, p.dt, dW', p.numSteps)
    {
      EulerPathUsesOnlyEarlierSamples(x0, sde.b, sde.sigma, p.timeaxis, p.dt, dW, dW', p.numSteps);
    }
  }

  /**
   * Zero volatility and constant drift mu: the path is deterministic,
   * entry i being x0 + mu * (i * dt).
   */
  lemma {:induction false} ConstantDriftPath(x0: real, mu: real, b: Coefficient, sigma: Coefficient,
                                             t: seq<real>, dt: real, dW: seq<real>, n: nat)
    requires 1 <= n <= |t| && n <= |dW| + 1
    requires forall x, s :: b(x, s) == mu
    requires forall x, s :: sigma(x, s) == 0.0
    ensures forall i :: 0 <= i < n ==> EulerPath(x0, b, sigma, t, dt, dW, n)[i] == x0 + mu * (i as real * dt)
  {
    if n > 1 {
      ConstantDriftPath(x0, mu, b, sigma, t, dt, dW, n - 1);
      var prev := EulerPath(x0, b, sigma, t, dt, dW, n - 1);
      var path := EulerPath(x0, b, sigma, t, dt, dW, n);
      assert path[..n - 1] == prev;
      var k := n - 1;
      assert path[k] == prev[k - 1] + mu * dt + 0.0 * dW[k - 1];
      assert prev[k - 1] == x0 + mu * ((k - 1) as real * dt);
      assert (k - 1) as real * dt + dt == k as real * dt;
      forall i | 0 <= i < n
        ensures path[i] == x0 + mu * (i as real * dt)
      {
        if i < n - 1 {
          assert path[i] == prev[i];
        }
      }
    }
  }

  /**
   * On the grid of a constructed process the constant-drift path is the line
   * start + mu * t at every grid time t.
   */
  lemma ConstantDriftOnGrid(sde: OneDimSDE, mu: real, dW: seq<real>)
    requires sde.process.Valid()
    requires |sde.process.startValue| == 1
    requires |dW| == sde.process.numSteps
    requires forall x, s :: sde.b(x, s) == mu
    requires forall x, s :: sde.sigma(x, s) == 0.0
    ensures var p := sde.process;
            var path := EulerPath(p.startValue[0], sde.b, sde.sigma, p.timeaxis, p.dt, dW, p.numSteps);
            forall i :: 0 <= i < p.numSteps ==> path[i] == p.startValue[0] + mu * p.timeaxis[i]
  {
    var p := sde.process;
    GridOfProcess(p);
    ConstantDriftPath(p.startValue[0], mu, sde.b, sde.sigma, p.timeaxis, p.dt, dW, p.numSteps);
  }

  /**
   * Zero drift and unit volatility: the path is the start value followed by
   * the running sums of the samples, a discrete Brownian path.
   */
  lemma {:induction false} PureNoisePath(x0: real, b: Coefficient, sigma: Coefficient,
                                         t: seq<real>, dt: real, dW: seq<real>, n: nat)
    requires 1 <= n <= |t| && n <= |dW| + 1
    requires forall x, s :: b(x, s) == 0.0
    requires forall x, s :: sigma(x, s) == 1.0
    ensures EulerPath(x0, b, sigma, t, dt, dW, n) == CumSum([x0] + dW[..n - 1])
  {
    if n == 1 {
      assert [x0] + dW[..0] == [] + [x0];
      CumSumAppend([], x0);
    } else {
      PureNoisePath(x0, b, sigma, t, dt, dW, n - 1);
      var front := [x0] + dW[..n - 2];
      assert [x0] + dW[..n - 1] == front + [dW[n - 2]];
      CumSumAppend(front, dW[n - 2]);
      var prev := EulerPath(x0, b, sigma, t, dt, dW, n - 1);
      assert prev[n - 2] == Sum(front) by {
        assert front == front[..|front| - 1] + [front[|front| - 1]];
        assert CumSum(front)[n - 2] == Sum(front);
      }
    }
  }

  /** With coefficients that ignore the state, a step adds the same increment from any state. */
  lemma StepOfStateFreeCoefficients(b: Coefficient, sigma: Coefficient, x: real, y: real,
                                    t: real, dt: real, w: real)
    requires b(x, t) == b(y, t) && sigma(x, t) == sigma(y, t)
    ensures EulerStep(b, sigma, x, t, dt, w) == x + Increment(b, sigma, y, t, dt, w)
  {
  }

  /**
   * When b and sigma do not depend on the state, the running sums of what
   * get_increments returns are exactly what get_trajectory returns; this is
   * the relation the alternative cumsum construction relies on.
   */
  lemma {:induction false} IncrementsSumToPath(x0: real, b: Coefficient, sigma: Coefficient,
                                               t: seq<real>, dt: real, dW: seq<real>, n: nat)
    requires 1 <= n <= |t| && n <= |dW| + 1
    requires forall x, y, s :: b(x, s) == b(y, s)
    requires forall x, y, s :: sigma(x, s) == sigma(y, s)
    ensures CumSum(IncrementPath(x0, b, sigma, t, dt, dW, n)) == EulerPath(x0, b, sigma, t, dt, dW, n)
  {
    if n == 1 {
      CumSumAppend([], x0);
      assert [] + [x0] == [x0];
    } else {
      IncrementsSumToPath(x0, b, sigma, t, dt, dW, n - 1);
      var incPrev := IncrementPath(x0, b, sigma, t, dt, dW, n - 1);
      var pathPrev := EulerPath(x0, b, sigma, t, dt, dW, n - 1);
      var d := Increment(b, sigma, incPrev[n - 2], t[n - 2], dt, dW[n - 2]);
      assert IncrementPath(x0, b, sigma, t, dt, dW, n) == incPrev + [d];
      CumSumAppend(incPrev, d);
      assert CumSum(incPrev)[n - 2] == Sum(incPrev) by {
        assert incPrev == incPrev[..n - 2] + [incPrev[n - 2]];
      }
      var x := pathPrev[n - 2];
      assert Sum(incPrev) == x;
      StepOfStateFreeCoefficients(b, sigma, x, incPrev[n - 2], t[n - 2], dt, dW[n - 2]);
      assert EulerPath(x0, b, sigma, t, dt, dW, n) == pathPrev + [EulerStep(b, sigma, x, t[n - 2], dt, dW[n - 2])];
    }
  }

  /**
   * When b does depend on the state, get_increments does not agree with
   * get_trajectory: with b(x, t) = x, no volatility, dt = 1 and start 1, the
   * path is 1, 2, 4 while the increments are 1, 1, 1 and sum to 1, 2, 3.
   */
  lemma IncrementsDifferForStateDependentDrift()
    ensures var b: Coefficient := (x, s) => x;
            var sigma: Coefficient := (x, s) => 0.0;
            && EulerPath(1.0, b, sigma, [0.0, 1.0, 2.0], 1.0, [0.0, 0.0, 0.0], 3) == [1.0, 2.0, 4.0]
            && IncrementPath(1.0, b, sigma, [0.0, 1.0, 2.0], 1.0, [0.0, 0.0, 0.0], 3) == [1.0, 1.0, 1.0]
            && CumSum([1.0, 1.0, 1.0]) == [1.0, 2.0, 3.0]
  {
    var b: Coefficient := (x, s) => x;
    var sigma: Coefficient := (x, s) => 0.0;
    var t, w := [0.0, 1.0, 2.0], [0.0, 0.0, 0.0];
    assert EulerPath(1.0, b, sigma, t, 1.0, w, 2) == [1.0, 2.0];
    assert IncrementPath(1.0, b, sigma, t, 1.0, w, 2) == [1.0, 1.0];
    CumSumAppend([], 1.0);
    CumSumAppend([1.0], 1.0);
    assert [1.0] + [1.0] == [1.0, 1.0];
    CumSumAppend([1.0, 1.0], 1.0);
    assert [1.0, 1.0] + [1.0] == [1.0, 1.0, 1.0];
    SumAppend([], 1.0);
    SumAppend([1.0], 1.0);
  }
}
