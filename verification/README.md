# Retirement portfolio Monte Carlo engine, modelled in Dafny

This project models the simulation core of a retirement-planning app. The
core is a yearly recurrence over many independent portfolio paths. Each path
starts at the initial investment. Each year its value grows by a drawn
annual return and the current withdrawal is subtracted. In the engine the
app uses, the value is then floored at zero, and one drawn inflation rate
grows both the path's withdrawal and its cumulative inflation factor. The
app then derives terminal nominal and real values and a success rate.

The random draws are inputs. `returnDraws[t][p]` and `growthDraws[t][p]`
are the return and the withdrawal-growth rate drawn for year `t` on path
`p`. Row 0 of each table is never read, because the year loop runs over
years 1 to `numYears - 1`. All arithmetic is exact (`real`).

Files:

- `draws.dfy` (`Draws`): year × path tables and their columns. Also
  `Compound` (`x * (1 + rate)`), the growth product `Growth`, the indexed
  withdrawal `Indexed`, and the shape failures raised before year 0.
- `clamped.dfy` (`ClampedEngine`): the engine in `main.py`. It has a
  per-path state machine (`Step`, `After`), a reference matrix
  (`Simulate`), an error-returning entry point (`Run`), and the vectorised
  year loop (`MonteCarlo`) proved equal to `Simulate`.
- `unclamped.dfy` (`UnclampedEngine`): the earlier engine in
  `monte-carlo-simulation.py`. It has no floor and does not track the
  inflation factor.
- `comparison.dfy` (`EngineComparison`): how the two engines relate on the
  same draws.
- `summary.dfy` (`Summary`): the withdrawal amount, terminal real values
  and success rate.
- `horizon.dfy` (`Horizon`): the number of years derived from the two age
  inputs. See Findings.

The code validates none of its inputs, and the model follows the code:
`np.zeros` raises for a negative dimension, the row-0 assignment raises for
zero years, zero paths give an empty matrix and a NaN success rate, and a
negative investment is simulated as given. `Run` and `SuccessRate` model
exactly these outcomes.

## Model

| member | source | states |
|---|---|---|
| ClampedEngine.Step | main.py:38-48 | One year on one path. The new value is non-negative and at least the grown value minus the withdrawal. It is either 0 or exactly that difference. |
| ClampedEngine.Simulate | main.py:25-26 | The matrix has `numYears` rows of `numSims` entries, and row 0 is the initial investment on every path. |
| ClampedEngine.Run | main.py:25-26 | The engine returns a result exactly when there is at least one year and no dimension is negative. Zero years with a valid path count fails with the row-0 error. A result equals the reference matrix. |
| ClampedEngine.Coupling | main.py:29-48 | After every year, a path's factor is the product of its `(1 + growth)` multipliers. Its withdrawal is the initial withdrawal times that factor. |
| ClampedEngine.PathCoupled | main.py:29-48 | The reference model's coupling: for every path and year, the path's withdrawal equals the initial withdrawal times the path's cumulative factor. |
| ClampedEngine.PathRecurrence | main.py:38-45 | A path's year-t value is the floored grown value minus the withdrawal in force before year t's growth update. That withdrawal is the initial one indexed by years 1..t-1. |
| ClampedEngine.PathNonNegative | main.py:26-41 | With a non-negative investment, a path's value is non-negative in every year, for any draws. |
| ClampedEngine.PathOnlyReadsItsDraws | main.py:35-48 | A path's state after year t depends only on its own draws for years 1..t. |
| ClampedEngine.ValuesNonNegative | main.py:26-41 | With a non-negative investment, every matrix entry is non-negative. |
| ClampedEngine.Recurrence | main.py:34-45 | For t ≥ 1, `values[t][p] = max(values[t-1][p]·(1+r[t][p]) − w0·Π_{s=1..t-1}(1+g[s][p]), 0)`. |
| ClampedEngine.FactorIsProduct | main.py:32-48 | The returned factor of path p is the product of `(1 + g[t][p])` over t in 1..numYears-1. With one year it is exactly 1. |
| ClampedEngine.SingleYear | main.py:25-34 | With one year the loop does not run. The result is the initial row and a factor of 1 on every path. |
| ClampedEngine.FactorPositive | main.py:44-48 | If every growth draw of a path exceeds −1, its factor is positive. |
| ClampedEngine.PathIndependence | main.py:35-48 | Two draw tables that agree on column p give the same matrix column p and the same factor p. |
| ClampedEngine.SameDrawsSamePath | main.py:35-48 | Two paths with the same draws in every year have equal columns and factors. With zero volatility, all paths coincide. |
| ClampedEngine.FlatScenario | main.py:25-48 | Investment 100000, zero returns, withdrawal 10000, zero growth, 3 years: values 100000, 90000, 80000 and factor 1. |
| ClampedEngine.InflationScenario | main.py:25-48 | The same run with 10% growth: values 100000, 90000, 79000 and factor 1.21. Year 2 withdraws 11000. |
| ClampedEngine.AdvanceYear | main.py:38-48 | One vectorised pass keeps the coupling: a path whose withdrawal was `w0` times its factor still has withdrawal `w0` times its grown factor afterwards. The new row is non-negative, and each entry is 0 or exactly the grown value less the withdrawal. |
| ClampedEngine.MonteCarlo | main.py:15-50 | The year loop returns exactly the reference matrix and factors. With a non-negative investment, every value entry is non-negative. The coupling `withdrawals[p] == withdrawal * factors[p]` is one of its loop invariants. |
| UnclampedEngine.Simulate | monte-carlo-simulation.py:17-18 | The matrix has `numYears` rows of `numSims` entries, and row 0 is the initial investment on every path. |
| UnclampedEngine.Run | monte-carlo-simulation.py:17-18 | The same failure cases as the floored engine. A result equals the reference matrix. |
| UnclampedEngine.WithdrawalIndexed | monte-carlo-simulation.py:20-27 | The withdrawal a path carries out of year t is the initial withdrawal times the product of its `(1 + growth)` multipliers for years 1..t. |
| UnclampedEngine.Recurrence | monte-carlo-simulation.py:20-27 | For t ≥ 1, `values[t][p] = values[t-1][p]·(1+r[t][p]) − w0·Π_{s=1..t-1}(1+g[s][p])` exactly, with no floor. Growth is applied after the subtraction. |
| UnclampedEngine.SingleYear | monte-carlo-simulation.py:17-20 | With one year the loop does not run, and the result is the single initial row. |
| UnclampedEngine.MayGoNegative | monte-carlo-simulation.py:22 | Entries can be negative: 100 invested with a withdrawal of 150 and no return gives −50 after one year. |
| UnclampedEngine.MonteCarlo | monte-carlo-simulation.py:7-29 | The year loop returns exactly the reference matrix. |
| EngineComparison.SameWithdrawals | monte-carlo-simulation.py:22-27 | On the same draws, both engines carry the same withdrawal on every path in every year. |
| EngineComparison.SolventPathsAgree | main.py:38-41 | While the unfloored path has stayed non-negative, the floor has never acted and both engines have the same value. |
| EngineComparison.FloorNeverLowers | main.py:38-41 | When no drawn return is below −100%, the floored value is at least the unfloored value. |
| EngineComparison.FloorIsTheOnlyDifference | main.py:38-41 | A path whose unfloored column is non-negative has the same column in both matrices. |
| Summary.WithdrawalValue | main.py:120-128 | The withdrawal divided by the investment gives back the rate. A rate in [0, 1] gives a withdrawal between 0 and the investment. |
| Summary.TerminalReal | main.py:175-176 | Path p's real value is finite exactly when its factor is non-zero. Multiplying a finite real value by the factor gives back the nominal value. |
| Summary.CountPositive | main.py:200 | The number of paths with a positive terminal value is at most the number of paths. |
| Summary.CountIsCardinality | main.py:200 | That count equals the size of the set of positive paths. |
| Summary.CountExtremes | main.py:200 | The count equals the path count iff every path is positive. It is 0 iff no path is. |
| Summary.SuccessRate | main.py:200 | NaN exactly for zero paths. Otherwise the rate lies in [0, 100], and rate × paths = 100 × positive paths. The rate is 100 iff all paths are positive and 0 iff none is. |
| Summary.RealValuesDeflate | main.py:163-176 | In the floored engine, take a non-negative investment and growth draws above −1. Every terminal real value is then finite and non-negative, and times the path's factor it gives the terminal nominal value. |
| Summary.SuccessMeansNotDepleted | main.py:175-200 | In the floored engine with a non-negative investment, a path counts as a success exactly when its terminal value is non-zero. |
| Horizon.EmptyHorizonAdmitted | main.py:100-116 | The age inputs as written accept age 50 with life expectancy 50. That gives 0 years, and the engine then fails. |
| Horizon.CorrectedHorizonRuns | main.py:100-116 | With life expectancy at least age + 1, the horizon is 1..132 years and the engine returns a result. |

## Left out

- Random number generation (`np.random.normal`, `np.random.choice`): the draws are input tables. Independence and the distribution of the draws are not stated.
- Float64 rounding, overflow to infinity and NaN propagation inside the recurrence: arithmetic is exact `real`. Only the two places where the summary produces a non-finite number (division by a zero factor, mean of no paths) are modelled, as `Float.NonFinite`.
- `np.percentile`, `np.median` and `np.mean` of value vectors, the percentile table, the per-year percentile band and the random sample of plotted paths: these are calls into numpy whose internals are not part of this model.
- The Streamlit sidebar widgets, metrics, tabs, charts and locale setup and formatting: presentation only. Only the age bounds that fix the horizon are modelled, in `Horizon`.
- The script constants and driver code of `monte-carlo-simulation.py` (lines 31-75).
- Python rebinds the local scalar at monte-carlo-simulation.py:27, so the withdrawal printed at lines 64 and 71 is still the initial amount. In Dafny the `withdrawal` parameter is an immutable value and `MonteCarlo` grows a local vector. No separate member states this.
- The script's withdrawal begins as a scalar, and the first `*=` turns it into one withdrawal per path. The model keeps one withdrawal per path from the start. The numbers are the same.
- Two numpy errors that no sidebar input can reach: `np.random.normal` raises for a negative standard deviation of returns or inflation (main.py:35, :44; monte-carlo-simulation.py:21, :25) once there are at least two years, and `withdrawals *= (1 + withdrawal_growth_rates)` (main.py:45) raises numpy's casting error when the withdrawal is an integer, because `np.full` (main.py:29) then builds an integer vector. The sidebar keeps both volatilities at 0.1% or more (main.py:90-96, :140-146) and computes the withdrawal as an integer times a float (main.py:128). `Run` returns a result in both cases.
- UnclampedEngine.AdvanceYear has no row of its own: its contract only restates one unfloored `Step` per path. It serves `UnclampedEngine.MonteCarlo`.
- Summary.TerminalNominal has no contract. It is the last row of the matrix (main.py:175).

## Findings

| source | as written | input that shows it | evidently intended | confidence | as-written member | corrected member |
|---|---|---|---|---|---|---|
| main.py:108-116 | The life-expectancy input takes the current age as its minimum, so `num_years` can be 0. The row-0 assignment at main.py:26 then raises instead of showing a result. | current age 50, life expectancy 50 | Life expectancy at least one year above the current age, so the horizon is never empty | high; not executed | Horizon.EmptyHorizonAdmitted | Horizon.CorrectedHorizonRuns |
