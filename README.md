# Dissolved-oxygen profile of an aeration tank

This project models the numeric core of a small app for wastewater treatment.
The app simulates the dissolved-oxygen (DO) concentration in an aeration tank.
`calculate_do` integrates

    d(do)/dt = otr * (1 - do/9.0) - consumption_rate

with explicit forward Euler. It writes into the caller's array in place. It
takes a single step `dt = t[1] - t[0]` for the whole grid and replaces
every negative value it computes by zero. It never writes `do[0]` or the
entries at `len(t)` and beyond, so a negative value there is kept. The driver turns the OTE percentage into
`otr = ote/100`. It builds `t = np.linspace(0, 120, 120)`, whose step is
`120/119`, pre-fills `do` with zeros and sets `do[0] = initial_do`.

The model has two modules:

- `DissolvedOxygen` (`dissolved_oxygen.dfy`) holds the recurrence as
  functions. `Derivative` is the right-hand side. `Advance` is one Euler
  step before the clamp, and `EulerStep` is that step followed by the clamp. `Series` is the k-th entry and `Simulate` is the
  whole array after the call. `CalculateDo` is the loop itself, a method
  over an `array<real>` with `modifies` on that array; `UpdateEntry` is its
  body. Its postcondition
  ties the new array contents to `Simulate` applied to the old contents,
  and says that the returned reference is the argument. The file also holds
  the lemmas about the recurrence.
- `AerationApp` (`aeration_app.dfy`) holds the driver's setup and one run
  of the app.

Numbers are Dafny `real`s, so all arithmetic is exact. The time grid `t` is
a `seq<real>`, a value, so the loop cannot change it. Passing the same array
as `do` and `t` is harmless in the source: it reads `t` only for
`t[1] - t[0]` before the loop starts and for `len(t)`, which the loop does not
change. Such a call computes exactly `CalculateDo(d, d[..], ...)`, whose
grid is the array's contents before the call.

## Model

| member | source | states |
|---|---|---|
| `DissolvedOxygen.Derivative` | H3Q1.py:11 | The right-hand side `otr * (1 - do/9.0) - consumption_rate`. At DO 9.0, or with `otr = 0`, only `-consumption_rate` is left. |
| `DissolvedOxygen.DerivativeSign` | H3Q1.py:11 | With `otr > 0`, the transfer term is positive exactly below 9.0 and negative exactly above it. |
| `DissolvedOxygen.Advance` | H3Q1.py:12 | The unclamped Euler update `prev + ddo*dt`. A zero step, or a zero derivative, leaves the value unchanged. |
| `DissolvedOxygen.EulerStep` | H3Q1.py:11-15 | One step is the maximum of 0 and `prev + ddo*dt`: it is non-negative, it is at least the advanced value, and it equals either 0 or that value. |
| `DissolvedOxygen.Series` | H3Q1.py:9-15 | Entry 0 is the initial DO. Every later entry is non-negative. |
| `DissolvedOxygen.Simulate` | H3Q1.py:8-16 | The array keeps its length. `do[0]` is unchanged. Each `do[i]` with `1 <= i < len(t)` is one clamped step from the already clamped `do[i-1]`, with `dt = t[1]-t[0]`, and is non-negative. Entries at `len(t)` and beyond are unchanged. |
| `DissolvedOxygen.UpdateEntry` | H3Q1.py:11-15 | One pass of the loop body sets `do[i]` to one clamped step from the old `do[i-1]`. No other entry changes. |
| `DissolvedOxygen.CalculateDo` | H3Q1.py:6-16 | Needs `len(t) >= 2` and an array at least as long as `t`. The returned array is the argument itself. Its new contents are `Simulate` of its old contents, so they carry every property of `Simulate`. |
| `DissolvedOxygen.RecurrenceAgreesWithSeries` | H3Q1.py:9-15 | A sequence that starts at the initial DO and follows the clamped recurrence up to some index agrees with `Series` at every index before it. |
| `DissolvedOxygen.RecurrenceDeterminesProfile` | H3Q1.py:9-15 | Any sequence that starts at `do[0]`, follows the clamped recurrence over the grid and keeps the tail equals `Simulate`. So the recurrence determines the result completely. |
| `DissolvedOxygen.OnlyFirstStepOfGridMatters` | H3Q1.py:8 | Two grids of the same length with the same `t[1]-t[0]` give the same result. The other grid points have no influence. |
| `DissolvedOxygen.DecayWithoutTransfer` | H3Q1.py:11-15 | With `otr = 0`, `consumption_rate >= 0`, `dt >= 0` and a non-negative start, the profile is non-increasing from entry 0. |
| `DissolvedOxygen.ZeroIsAbsorbing` | H3Q1.py:11-15 | Once an entry is 0, with `otr <= consumption_rate` and `dt >= 0`, every later entry is 0. |
| `DissolvedOxygen.StaysBelowSaturation` | H3Q1.py:11-15 | Assume `otr >= 0`, `dt >= 0`, `otr*dt <= 9` and `consumption_rate >= 0`. Then a start at most 9.0 keeps every entry at most 9.0. |
| `DissolvedOxygen.StepTowardsSaturation` | H3Q1.py:11-15 | Without consumption, with `otr >= 0`, `dt >= 0` and `otr*dt <= 9`, one step from a value in `[0, 9]` does not clamp. It keeps exactly the fraction `1 - otr*dt/9` of the gap to 9.0, so the result lies between the value and 9.0. |
| `DissolvedOxygen.RisesWithoutConsumption` | H3Q1.py:11-15 | Without consumption, under the same bounds and from a start in `[0, 9]`, the profile is non-decreasing. |
| `DissolvedOxygen.MonotoneInInitialDo` | H3Q1.py:11-15 | When `0 <= otr*dt <= 9`, a lower or equal start gives a profile that is lower or equal at every index. |
| `DissolvedOxygen.SingleStepScenario` | H3Q1.py:8-15 | On grid `[0, 1]` with start 2.0, otr 0.2 and consumption 0.1, the result is `[2.0, 37/18]`. |
| `DissolvedOxygen.ClampScenario` | H3Q1.py:11-15 | With start 0, no transfer, consumption 0.5 and any `dt > 0`, the advanced value is negative and `do[1]` is clamped to 0. |
| `AerationApp.OtrFromOte` | H3Q1.py:26-27 | `otr * 100 == ote`. An `ote` in `[0, 100]` gives an `otr` in `[0, 1]`. |
| `AerationApp.Linspace` | H3Q1.py:32 | `num` points from `start` to `stop` with both ends included. Neighbours differ by `(stop-start)/(num-1)`, and the points strictly increase when `start < stop`. |
| `AerationApp.InitialProfile` | H3Q1.py:35-36 | A zero array of length `n` whose first entry is `initial_do`. |
| `AerationApp.ProfileWithinBounds` | H3Q1.py:26-39 | Within the slider ranges, every entry of the profile the app computes lies in `[0, 9]`. |
| `AerationApp.RunSimulation` | H3Q1.py:26-39 | One run builds the 120-point grid, converts OTE and pre-fills the array. It returns a fresh array whose contents are `Simulate` of that pre-filled array. Its first entry is `initial_do` and every entry is in `[0, 9]`. |

## Left out

- The Streamlit title, image, sidebar and explanatory text. Only the slider ranges carry over, as preconditions of the driver: OTE an integer in `[0, 100]`, consumption in `[0.0, 1.0]`, initial DO in `[0.0, 9.0]`. The default run (OTE 20, consumption 0.1, initial DO 2.0 on the 120-point grid) is not modelled. `SingleStepScenario` uses the default consumption 0.1 and start 2.0 on a one-step grid with `otr = 0.2`.
- The Matplotlib chart and `st.pyplot`. They are rendering and have no behaviour to state.
- The two-decimal formatting of the final value. It is float formatting done by the Python runtime.
- IEEE-754 rounding. All numbers are exact reals, so the regression value of the default run is not modelled.
- `np.linspace` and `np.zeros_like` are modelled only by their results: evenly spaced reals with both ends included, and a zero-filled array of matching length. The array is assumed to be floating point, as `zeros_like` of a float grid is.
- `CalculateDo`: the source raises `IndexError` when `len(t) < 2`, or when `do` is shorter than `t`. The model requires both conditions away instead of modelling the exception. When `2 <= len(do) < len(t)`, the source first fills `do[1] .. do[len(do)-1]` and then fails. When `len(do) == 1`, the write to `do[1]` fails in the first pass (H3Q1.py:12). When `len(do) == 0`, the read of `do[0]` fails (H3Q1.py:11). In the last two cases nothing is written.
- `DecayWithoutTransfer` additionally requires a non-negative start. A negative `do[0]` is followed by a clamped `0 > do[0]`, so without it the profile can rise from entry 0 to entry 1.
- `ZeroIsAbsorbing` additionally requires `dt >= 0`. With `dt < 0` and `otr < consumption_rate`, the step from 0 is positive.
- `RisesWithoutConsumption`: convergence towards 9.0 is stated only step by step. `StepTowardsSaturation` gives the exact shrinking of the gap in one step from any value in `[0, 9]`; it is not restated as a relation between consecutive entries of the profile. There is no closed form `(1 - otr*dt/9)^k` over the whole profile and no statement about limits.
