# stochproc in Dafny

A model of the deterministic core of `stochproc`, a small Python library that
simulates sample paths of stochastic processes on a fixed time grid:

- **Process** (`stochproc/process.py`): the constructor's argument checks, in
  the order the code runs them, the evenly spaced time axis from 0 to
  `endtime`, the step `dt`, the default all-zero start column, and the radial
  part of a trajectory.
- **One-dimensional SDE** (`stochproc/sde.py`): the Euler–Maruyama loops of
  `get_trajectory` and `get_increments`, each a method that fills a fresh array
  in place and is proved equal to a recursive specification.
- **Brownian motion** (`stochproc/brownian_motion.py`): increments of shape
  `dim × (num_steps − 1)` and the trajectory as running sums of the start
  column followed by the increments.

All arithmetic is over `real`. The Gaussian samples are inputs: a sequence `dW`
for the SDE, a function `draw(k, j)` for the Brownian increments. Drift `b` and
volatility `sigma` are total functions `(real, real) -> real`.

Files: `wrappers.dfy` (Option, Result), `cumulative.dfy` (numpy's `cumsum`
along one axis, as `Sum`/`CumSum`), `process.dfy` (module `Processes`),
`sde.dfy` (module `Sde`), `brownian_motion.dfy` (module `Brownian`).

The code checks less than its error messages say (stochproc/process.py:31 asks
for a "positive integer"); the model follows what the code does:

- `num_steps` is only checked to be an `int`. It is not checked to be positive.
  A negative value fails with numpy's own `ValueError` from `linspace`. A value
  of 0 or 1 fails with an `IndexError` when `timeaxis[1]` is read. Construction
  succeeds only for `num_steps >= 2` (`Processes.Init`).
- `dim` is only checked to be an `int`. With the default start value a
  negative `dim` fails in `np.zeros`. With a supplied start value any `int` is
  accepted.
- `starttime` does not enter the grid, so `dt > 0` holds only when
  `endtime > 0`, not whenever `starttime < endtime`
  (`Processes.NegativeEndtimeGivesNegativeStep`).
- A Python argument is either an `int` (`PyInt(n)`) or not (`NotInt`). A
  Python `bool` is an `int` there, so `True` behaves as `PyInt(1)`.

## Model

| member | source | states |
|---|---|---|
| `Processes.Init` | stochproc/process.py:15-47 | Each error happens exactly when its check is the first to fail, in the source's order: `starttime >= endtime`; a non-int `num_steps`; `num_steps < 0` (numpy's `ValueError`); `0 <= num_steps < 2` (the `IndexError`); a non-int `dim`; a negative `dim` with no start value (numpy's `ValueError`). Success holds iff `starttime < endtime`, `num_steps` is an int `>= 2`, `dim` is an int, and either a start value is supplied or `dim >= 0`. On success the process is valid and stores `starttime`, `endtime`, `num_steps` and `dim` as passed. A supplied start value is stored unchanged; otherwise the start value is a `dim`-long zero column |
| `Processes.Linspace` | stochproc/process.py:34 | `num` points; the first is 0 and, for `num >= 2`, the last is `stop` |
| `Processes.Zeros` | stochproc/process.py:45 | the default start column has `dim` entries, all zero |
| `Processes.GridOfProcess` | stochproc/process.py:34-35 | the grid of a valid process has `num_steps` points, from 0 to `endtime`; point `i` is `i * dt`; consecutive points are `dt` apart; `dt = endtime / (num_steps - 1)` |
| `Processes.StepSign` | stochproc/process.py:22-35 | `dt > 0` iff `endtime > 0`, and then the grid is strictly increasing |
| `Processes.NegativeEndtimeGivesNegativeStep` | stochproc/process.py:22-35 | `starttime = -2`, `endtime = -1`, `num_steps = 3` passes every check but yields grid `0, -0.5, -1` and `dt = -0.5` |
| `Processes.GetRadialPart` | stochproc/process.py:65-70 | for a two-dimensional trajectory, one value per column (time step) |
| `Processes.GetRadialPartOneDim` | stochproc/process.py:65-70 | for a one-dimensional trajectory, one value for the whole path; it is non-negative and zero on an all-zero path |
| `Processes.RadialPartBounds` | stochproc/process.py:70 | each squared radial value is non-negative, and it is zero at a time step where the whole column is zero |
| `Processes.RadialPartPythagoras` | stochproc/process.py:70 | the column `(3, 4)` has squared radial part 25 (radial part 5) |
| `Cumulative.CumSum` | stochproc/brownian_motion.py:23 | the running sums have as many entries as the input |
| `Cumulative.CumSumAt` | stochproc/brownian_motion.py:23 | entry `j` of the running sums is the sum of entries `0..j` |
| `Cumulative.CumSumRecurrence` | stochproc/brownian_motion.py:23 | running sums start at the first entry, and each next one adds the next entry |
| `Cumulative.DifferencesOfCumSum` | stochproc/brownian_motion.py:20-23 | differencing the running sums gives back every entry after the first |
| `Cumulative.CumSumOfDifferences` | stochproc/brownian_motion.py:20-23 | the first entry followed by the differences, summed up, rebuilds the sequence |
| `Sde.NewOneDimSDE` | stochproc/sde.py:19-35 | fails exactly when the base constructor fails, with the same error; otherwise holds the base process and the given `b` and `sigma` |
| `Sde.EulerPath` | stochproc/sde.py:47-54 | the specification path has `n` entries and starts at the start value |
| `Sde.GetTrajectory` | stochproc/sde.py:37-56 | the result has `num_steps` entries; entry 0 is the start value; entry `i` is `x + b(x, t)*dt + sigma(x, t)*dW[i-1]` with `x` entry `i-1` and `t = timeaxis[i-1]`; the whole result equals `EulerPath` |
| `Sde.EulerPathRecurrence` | stochproc/sde.py:50-54 | every entry after the first is one Euler–Maruyama step from the entry before, at the previous grid time, with the previous sample |
| `Sde.EulerPathPrefix` | stochproc/sde.py:50-54 | a path of `m` steps is the prefix of any longer path from the same inputs |
| `Sde.EulerPathUsesOnlyEarlierSamples` | stochproc/sde.py:43-54 | two sample sequences that agree on their first `n - 1` entries give the same `n`-entry path |
| `Sde.LastSampleUnused` | stochproc/sde.py:43-54 | replacing `dW[num_steps - 1]` by any value leaves the trajectory unchanged |
| `Sde.ConstantDriftPath` | stochproc/sde.py:50-54 | with `b ≡ mu` and `sigma ≡ 0`, entry `i` is `x0 + mu * (i * dt)` |
| `Sde.ConstantDriftOnGrid` | stochproc/sde.py:50-54 | on a valid process's grid, the constant-drift trajectory is `start + mu * timeaxis[i]` at every grid point |
| `Sde.PureNoisePath` | stochproc/sde.py:50-54 | with `b ≡ 0` and `sigma ≡ 1`, entry `i` is `start + dW[0] + … + dW[i-1]`; the path is the running sums of `[start] + dW[..n-1]` |
| `Sde.IncrementPath` | stochproc/sde.py:71-77 | the specification of the increments has `n` entries and starts at the start value |
| `Sde.GetIncrements` | stochproc/sde.py:61-79 | the result has `num_steps` entries; entry 0 is the start value; entry `i` is `b(y, t)*dt + sigma(y, t)*dW[i-1]` with `y` the previous increment (not the state); the whole result equals `IncrementPath` |
| `Sde.IncrementPathRecurrence` | stochproc/sde.py:74-77 | every entry after the first is the drift and noise terms evaluated at the previous entry |
| `Sde.IncrementsSumToPath` | stochproc/sde.py:50-77 | when `b` and `sigma` ignore the state, the running sums of the increments equal the trajectory for the same samples |
| `Sde.IncrementsDifferForStateDependentDrift` | stochproc/sde.py:74-77 | with `b(x, t) = x`, the path is `1, 2, 4` but the increments `1, 1, 1` sum to `1, 2, 3`: the two disagree once `b` depends on the state |
| `Brownian.GetIncrements` | stochproc/brownian_motion.py:10-14 | succeeds iff `dim >= 0`, and then yields a `dim × (num_steps - 1)` matrix holding the drawn samples |
| `Brownian.Trajectory` | stochproc/brownian_motion.py:20-23 | concatenation fails iff the start column and the increments have different row counts; otherwise each row has one more entry than its increments |
| `Brownian.GetTrajectory` | stochproc/brownian_motion.py:17-23 | succeeds iff `dim >= 0` and the start column has `dim` rows; a failure is the negative-dimension error when `dim < 0` and the concatenation mismatch otherwise; a success has `dim` rows of `num_steps` entries |
| `Brownian.GetTrajectoryAt` | stochproc/brownian_motion.py:10-23 | entry `(k, j)` of the result is `start_value[k]` plus the first `j` samples drawn for component `k` |
| `Brownian.TrajectoryAt` | stochproc/brownian_motion.py:23 | entry `(k, j)` is `start[k] + increments[k][0] + … + increments[k][j-1]` |
| `Brownian.FirstColumnIsStart` | stochproc/brownian_motion.py:20-23 | column 0 of the trajectory is the start column |
| `Brownian.DifferencesRecoverIncrements` | stochproc/brownian_motion.py:20-23 | `trajectory[k][j+1] - trajectory[k][j] = increments[k][j]`, and the start value with these differences rebuilds the row |
| `Brownian.RowsAreIndependent` | stochproc/brownian_motion.py:20-23 | row `k` of the trajectory depends only on row `k` of the start column and of the increments |
| `Brownian.PureNoiseSDEIsBrownian` | stochproc/brownian_motion.py:17-23 | the SDE path with `b ≡ 0` and `sigma ≡ 1` equals the one-row Brownian trajectory from `[start]` with the same samples as increments |
| `Brownian.RadialPartStartsAtZero` | stochproc/brownian_motion.py:20-23 | with the default zero start column the trajectory exists and its radial part at time 0 is zero |

## Left out

- Random sampling (`np.random.normal`) is not modelled. The samples are inputs. Distributional facts cannot be stated over `real`: mean 0, variance `dt`, independence, `Var(B_T) = T`, and the strong and weak convergence orders of Euler–Maruyama.
- The scaling of samples by `sqrt(dt)` is part of the drawn values. The model does not compute square roots.
- Floating point is not modelled. Rounding in `linspace`, `cumsum` and the loop arithmetic is absent, and so are NaN and infinity. Exact identities such as `start + mu * timeaxis[i]` hold only over `real`. With `endtime <= 0` the step `dt` is negative or zero. A negative `dt` makes `np.sqrt(self.dt)` NaN (stochproc/sde.py:44, stochproc/brownian_motion.py:13), so every sample and every trajectory entry after the first is NaN. The model has no NaN: its samples are parameters, and its sums stay finite.
- Processes.GetRadialPart: returns the squares of the Euclidean norms; the square root inside `np.linalg.norm` is not modelled.
- Brownian.Trajectory: a supplied start value is modelled as a column of `dim` entries, one per component. numpy's `concatenate` raises `ValueError` for a one-dimensional `(dim,)` array. A `(dim, m)` array gives `num_steps - 1 + m` columns. Neither of these is modelled.
- Processes.GetRadialPart: models only the call with a supplied trajectory. Without one it first calls the abstract `get_trajectory`; a caller composes this with `Brownian.GetTrajectory` instead.
- Processes.RadialPartBounds: does not prove the converse, that a zero radial value forces a zero column. The solver's nonlinear real arithmetic cannot close that step.
- Sde.GetTrajectory: requires a start value with exactly one entry. The numpy broadcast of a `dim × 1` start value into a scalar slot is not modelled, and neither is the numpy error for other sizes.
- Sde.GetIncrements: requires a start value with exactly one entry, for the same reason.
- Exceptions raised inside user-supplied `b` or `sigma` are not modelled; both are total functions.
- `plot_trajectory` and the warning for `dim > 3` are plotting only and are not modelled.
- `__repr__` is string formatting only and is not modelled.
- The abstract base methods `get_increments` and `get_trajectory` of `Process` have no behaviour of their own and are not modelled.
- The `ValueError` messages are not modelled. `InitError` names each failure, and `InitError.Raises` gives its Python exception class.
