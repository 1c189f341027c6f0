/** Dissolved-oxygen (DO) profile of an aeration tank, integrated by forward
    Euler with a floor at zero.

    The numbers are mathematical reals: nothing here depends on IEEE-754
    rounding.  `CalculateDo` is the in-place loop over the caller's array;
    `Series` and `Simulate` are the recurrence it computes, stated as
    functions, and the lemmas below are about those functions.
 */
module DissolvedOxygen {

  /** DO at which the transfer driving force `1 - do/9.0` vanishes (mg/L). */
  const Saturation: real := 9.0

  /** Rate of change of DO at concentration `x`: oxygen transfer, which falls
      off linearly towards saturation, minus a constant consumption.  At
      saturation, or without transfer, only the consumption is left. */
  function Derivative(x: real, otr: real, consumptionRate: real): (r: real)
    ensures x == Saturation ==> r == -consumptionRate
    ensures otr == 0.0 ==> r == -consumptionRate
  {
    otr * (1.0 - x / Saturation) - consumptionRate
  }

  /** With a positive transfer rate, transfer adds oxygen exactly below
      saturation and removes it exactly above. */
  lemma DerivativeSign(x: real, otr: real, consumptionRate: real)
    ensures otr > 0.0 ==> (Derivative(x, otr, consumptionRate) + consumptionRate > 0.0 <==> x < Saturation)
    ensures otr > 0.0 ==> (Derivative(x, otr, consumptionRate) + consumptionRate < 0.0 <==> x > Saturation)
  {
  }

  /** The value one Euler step of length `dt` takes from `prev`, before the
      clamp.  A zero step, or a zero derivative, leaves `prev` where it is. */
  function Advance(prev: real, otr: real, consumptionRate: real, dt: real): (r: real)
    ensures dt == 0.0 ==> r == prev
    ensures Derivative(prev, otr, consumptionRate) == 0.0 ==> r == prev
  {
    prev + Derivative(prev, otr, consumptionRate) * dt
  }

  /** One step of the loop: advance, then replace a negative value by zero. */
  function EulerStep(prev: real, otr: real, consumptionRate: real, dt: real): (r: real)
    // r is the maximum of 0 and the advanced value
    ensures r >= 0.0
    ensures r >= Advance(prev, otr, consumptionRate, dt)
    ensures r == 0.0 || r == Advance(prev, otr, consumptionRate, dt)
  {
    var next := Advance(prev, otr, consumptionRate, dt);
    if next < 0.0 then 0.0 else next
  }

  /** Entry `k` of the profile that starts at `initialDo`: each entry is
      one step from the previous, already clamped, entry. */
  function Series(initialDo: real, otr: real, consumptionRate: real, dt: real, k: nat): (r: real)
    ensures k == 0 ==> r == initialDo
    ensures k > 0 ==> r >= 0.0
  {
    if k == 0 then initialDo
    else EulerStep(Series(initialDo, otr, consumptionRate, dt, k - 1), otr, consumptionRate, dt)
  }

  /** The whole array after the loop has run over the grid `t` on the
      array contents `d`: entries `1 .. |t|-1` follow the recurrence with the
      single step `t[1] - t[0]`, everything else is left as it was. */
  function Simulate(d: seq<real>, t: seq<real>, otr: real, consumptionRate: real): (r: seq<real>)
    requires |t| >= 2 && |d| >= |t|
    ensures |r| == |d|
    ensures r[0] == d[0]
    ensures forall i :: 1 <= i < |t| ==> r[i] == EulerStep(r[i - 1], otr, consumptionRate, t[1] - t[0])
    ensures forall i :: 1 <= i < |t| ==> r[i] >= 0.0
    ensures forall i :: |t| <= i < |d| ==> r[i] == d[i]
  {
    seq(|d|, i requires 0 <= i < |d| =>
      if i < |t| then Series(d[0], otr, consumptionRate, t[1] - t[0], i) else d[i])
  }

  /** A sequence whose grid entries are the `Series` from `d[0]` and whose
      other entries are those of `d` is `Simulate(d, ...)`. */
  lemma SimulateFromEntries(d: seq<real>, t: seq<real>, otr: real, consumptionRate: real, r: seq<real>)
    requires |t| >= 2 && |d| >= |t| && |r| == |d|
    requires forall k :: 0 <= k < |t| ==> r[k] == Series(d[0], otr, consumptionRate, t[1] - t[0], k)
    requires forall k :: |t| <= k < |d| ==> r[k] == d[k]
    ensures r == Simulate(d, t, otr, consumptionRate)
  {
  }

  /** The loop body (derivative, update, clamp) computes `EulerStep`. */
  lemma LoopBodyIsStep(prev: real, ddo: real, stored: real, otr: real, consumptionRate: real, dt: real)
    requires ddo == otr * (1.0 - prev / Saturation) - consumptionRate
    requires stored == if prev + ddo * dt < 0.0 then 0.0 else prev + ddo * dt
    ensures stored == EulerStep(prev, otr, consumptionRate, dt)
  {
    assert prev + ddo * dt == Advance(prev, otr, consumptionRate, dt);
  }

  /** One pass of the loop body: derive, update `d[i]` from `d[i-1]`, and
      clamp `d[i]` at zero.  Only `d[i]` changes. */
  method UpdateEntry(d: array<real>, i: nat, otr: real, consumptionRate: real, dt: real)
    requires 1 <= i < d.Length
    modifies d
    ensures d[i] == EulerStep(old(d[i - 1]), otr, consumptionRate, dt)
    ensures forall k :: 0 <= k < d.Length && k != i ==> d[k] == old(d[k])
  {
    ghost var prev := d[i - 1];
    var ddo := otr * (1.0 - d[i - 1] / Saturation) - consumptionRate;
    d[i] := d[i - 1] + ddo * dt;
    if d[i] < 0.0 {
      d[i] := 0.0;
    }
    LoopBodyIsStep(prev, ddo, d[i], otr, consumptionRate, dt);
  }

  /** The in-place loop.  It reads `t` only for `t[0]`, `t[1]` and `|t|`,
      writes `d[1] .. d[|t|-1]` and hands back the very array it was given. */
  method CalculateDo(d: array<real>, t: seq<real>, otr: real, consumptionRate: real) returns (r: array<real>)
    requires |t| >= 2
    requires d.Length >= |t|
    modifies d
    ensures r == d
    ensures d[..] == Simulate(old(d[..]), t, otr, consumptionRate)
  {
    var dt := t[1] - t[0];
    ghost var initialDo := d[0];
    for i := 1 to |t|
      invariant d[0] == initialDo
      invariant forall k :: 0 <= k < i ==> d[k] == Series(initialDo, otr, consumptionRate, dt, k)
      invariant forall k :: i <= k < d.Length ==> d[k] == old(d[k])
    {
      UpdateEntry(d, i, otr, consumptionRate, dt);
      assert d[i] == Series(initialDo, otr, consumptionRate, dt, i);
    }
    SimulateFromEntries(old(d[..]), t, otr, consumptionRate, d[..]);
    r := d;
  }

  /** The product of two non-negative reals is non-negative. */
  lemma MulNonnegative(x: real, y: real)
    requires x >= 0.0 && y >= 0.0
    ensures x * y >= 0.0
  {
  }

  // ---------------------------------------------------------------------
  // The profile is determined by its recurrence.

  /** A sequence that starts at `initialDo` and follows the clamped
      recurrence up to index `k` agrees with `Series` at `k`. */
  lemma {:induction false} RecurrenceAgreesWithSeries(r: seq<real>, n: nat, initialDo: real, otr: real, consumptionRate: real, dt: real, k: nat)
    requires n <= |r| && k < n
    requires r[0] == initialDo
    requires forall i :: 1 <= i < n ==> r[i] == EulerStep(r[i - 1], otr, consumptionRate, dt)
    ensures r[k] == Series(initialDo, otr, consumptionRate, dt, k)
    decreases k
  {
    if k > 0 {
      RecurrenceAgreesWithSeries(r, n, initialDo, otr, consumptionRate, dt, k - 1);
    }
  }

  /** Any sequence that starts at `d[0]`, follows the clamped recurrence over
      the grid and keeps the rest of `d` is the loop's result. */
  lemma RecurrenceDeterminesProfile(d: seq<real>, t: seq<real>, otr: real, consumptionRate: real, r: seq<real>)
    requires |t| >= 2 && |d| >= |t| && |r| == |d|
    requires r[0] == d[0]
    requires forall i :: 1 <= i < |t| ==> r[i] == EulerStep(r[i - 1], otr, consumptionRate, t[1] - t[0])
    requires forall i :: |t| <= i < |d| ==> r[i] == d[i]
    ensures r == Simulate(d, t, otr, consumptionRate)
  {
    forall k | 0 <= k < |t|
      ensures r[k] == Series(d[0], otr, consumptionRate, t[1] - t[0], k)
    {
      RecurrenceAgreesWithSeries(r, |t|, d[0], otr, consumptionRate, t[1] - t[0], k);
    }
    SimulateFromEntries(d, t, otr, consumptionRate, r);
  }

  /** `dt` is taken once from the first two grid points: two grids of the
      same length and the same first step give the same result. */
  lemma OnlyFirstStepOfGridMatters(d: seq<real>, t: seq<real>, u: seq<real>, otr: real, consumptionRate: real)
    requires |t| >= 2 && |d| >= |t| && |u| == |t|
    requires t[1] - t[0] == u[1] - u[0]
    ensures Simulate(d, t, otr, consumptionRate) == Simulate(d, u, otr, consumptionRate)
  {
  }

  // ---------------------------------------------------------------------
  // Consequences of the recurrence.

  /** Without transfer, a non-negative DO does not grow in one step. */
  lemma StepDecaysWithoutTransfer(x: real, consumptionRate: real, dt: real)
    requires x >= 0.0 && consumptionRate >= 0.0 && dt >= 0.0
    ensures EulerStep(x, 0.0, consumptionRate, dt) <= x
  {
    assert consumptionRate * dt >= 0.0;
  }

  /** With `otr = 0`, a non-negative start, non-negative consumption and a
      non-negative step, the profile is non-increasing from entry 0. */
  lemma {:induction false} DecayWithoutTransfer(initialDo: real, consumptionRate: real, dt: real, i: nat, j: nat)
    requires initialDo >= 0.0 && consumptionRate >= 0.0 && dt >= 0.0
    requires i <= j
    ensures Series(initialDo, 0.0, consumptionRate, dt, j) <= Series(initialDo, 0.0, consumptionRate, dt, i)
    decreases j
  {
    if i < j {
      DecayWithoutTransfer(initialDo, consumptionRate, dt, i, j - 1);
      StepDecaysWithoutTransfer(Series(initialDo, 0.0, consumptionRate, dt, j - 1), consumptionRate, dt);
    }
  }

  /** From zero, a step with `otr <= consumption_rate` and `dt >= 0` stays
      at zero. */
  lemma ZeroStep(otr: real, consumptionRate: real, dt: real)
    requires otr <= consumptionRate && dt >= 0.0
    ensures EulerStep(0.0, otr, consumptionRate, dt) == 0.0
  {
    MulNonnegative(consumptionRate - otr, dt);
    assert Advance(0.0, otr, consumptionRate, dt) == (otr - consumptionRate) * dt;
  }

  /** Once the profile is at zero and transfer cannot outweigh consumption
      (with a non-negative step), it stays at zero. */
  lemma {:induction false} ZeroIsAbsorbing(initialDo: real, otr: real, consumptionRate: real, dt: real, i: nat, j: nat)
    requires otr <= consumptionRate && dt >= 0.0
    requires i <= j
    requires Series(initialDo, otr, consumptionRate, dt, i) == 0.0
    ensures Series(initialDo, otr, consumptionRate, dt, j) == 0.0
    decreases j
  {
    if i < j {
      ZeroIsAbsorbing(initialDo, otr, consumptionRate, dt, i, j - 1);
      ZeroStep(otr, consumptionRate, dt);
    }
  }

  /** One step from at most saturation stays at most saturation, when the
      transfer over one step is not too large (`0 <= otr*dt <= 9`). */
  lemma StepStaysBelowSaturation(x: real, otr: real, consumptionRate: real, dt: real)
    requires x <= Saturation
    requires otr >= 0.0 && dt >= 0.0 && otr * dt <= Saturation && consumptionRate >= 0.0
    ensures EulerStep(x, otr, consumptionRate, dt) <= Saturation
  {
    var a := otr * dt / Saturation;
    assert 0.0 <= a <= 1.0;
    assert Advance(x, otr, consumptionRate, dt) == Saturation - (Saturation - x) * (1.0 - a) - consumptionRate * dt;
    assert (Saturation - x) * (1.0 - a) >= 0.0;
    assert consumptionRate * dt >= 0.0;
  }

  /** Under the same conditions, and starting at most at saturation, no
      entry of the profile exceeds saturation. */
  lemma {:induction false} StaysBelowSaturation(initialDo: real, otr: real, consumptionRate: real, dt: real, k: nat)
    requires initialDo <= Saturation
    requires otr >= 0.0 && dt >= 0.0 && otr * dt <= Saturation && consumptionRate >= 0.0
    ensures Series(initialDo, otr, consumptionRate, dt, k) <= Saturation
  {
    if k > 0 {
      StaysBelowSaturation(initialDo, otr, consumptionRate, dt, k - 1);
      StepStaysBelowSaturation(Series(initialDo, otr, consumptionRate, dt, k - 1), otr, consumptionRate, dt);
    }
  }

  /** The fraction of the gap to saturation left after one step without
      consumption. */
  function Retention(otr: real, dt: real): real
  {
    1.0 - otr * dt / Saturation
  }

  /** Without consumption, one step from `[0, 9]` keeps the fraction
      `Retention(otr, dt)` of the gap to saturation and the clamp does not act. */
  lemma StepTowardsSaturation(x: real, otr: real, dt: real)
    requires 0.0 <= x <= Saturation
    requires otr >= 0.0 && dt >= 0.0 && otr * dt <= Saturation
    ensures Saturation - EulerStep(x, otr, 0.0, dt) == (Saturation - x) * Retention(otr, dt)
    ensures x <= EulerStep(x, otr, 0.0, dt) <= Saturation
  {
    var a := otr * dt / Saturation;
    assert 0.0 <= a <= 1.0;
    assert Advance(x, otr, 0.0, dt) == x + (Saturation - x) * a;
    MulNonnegative(Saturation - x, a);
    MulNonnegative(Saturation - x, 1.0 - a);
  }

  /** Without consumption, starting in `[0, 9]`, the profile never falls. */
  lemma {:induction false} RisesWithoutConsumption(initialDo: real, otr: real, dt: real, i: nat, j: nat)
    requires 0.0 <= initialDo <= Saturation
    requires otr >= 0.0 && dt >= 0.0 && otr * dt <= Saturation
    requires i <= j
    ensures Series(initialDo, otr, 0.0, dt, i) <= Series(initialDo, otr, 0.0, dt, j)
    decreases j
  {
    if i < j {
      RisesWithoutConsumption(initialDo, otr, dt, i, j - 1);
      StaysBelowSaturation(initialDo, otr, 0.0, dt, j - 1);
      StepTowardsSaturation(Series(initialDo, otr, 0.0, dt, j - 1), otr, dt);
    }
  }

  /** One step preserves order when `0 <= otr*dt <= 9`. */
  lemma StepMonotone(p: real, q: real, otr: real, consumptionRate: real, dt: real)
    requires p <= q
    requires otr >= 0.0 && dt >= 0.0 && otr * dt <= Saturation
    ensures EulerStep(p, otr, consumptionRate, dt) <= EulerStep(q, otr, consumptionRate, dt)
  {
    var a := otr * dt / Saturation;
    assert 0.0 <= a <= 1.0;
    assert Advance(q, otr, consumptionRate, dt) - Advance(p, otr, consumptionRate, dt) == (q - p) * (1.0 - a);
    MulNonnegative(q - p, 1.0 - a);
  }

  /** A start that is no higher gives a profile that is nowhere higher, when
      `0 <= otr*dt <= 9`. */
  lemma {:induction false} MonotoneInInitialDo(x: real, y: real, otr: real, consumptionRate: real, dt: real, k: nat)
    requires x <= y
    requires otr >= 0.0 && dt >= 0.0 && otr * dt <= Saturation
    ensures Series(x, otr, consumptionRate, dt, k) <= Series(y, otr, consumptionRate, dt, k)
  {
    if k > 0 {
      MonotoneInInitialDo(x, y, otr, consumptionRate, dt, k - 1);
      StepMonotone(Series(x, otr, consumptionRate, dt, k - 1), Series(y, otr, consumptionRate, dt, k - 1), otr, consumptionRate, dt);
    }
  }

  // ---------------------------------------------------------------------
  // Two worked cases.

  /** Grid `[0, 1]`, start 2.0, otr 0.2, consumption 0.1: the derivative is
      `0.2 * (1 - 2/9) - 0.1 = 1/18`, so `do[1] = 37/18`. */
  lemma SingleStepScenario()
    ensures Simulate([2.0, 0.0], [0.0, 1.0], 0.2, 0.1) == [2.0, 37.0 / 18.0]
  {
    var r := Simulate([2.0, 0.0], [0.0, 1.0], 0.2, 0.1);
    assert Derivative(2.0, 0.2, 0.1) == 1.0 / 18.0;
    assert r[1] == 37.0 / 18.0;
  }

  /** Start 0, no transfer, consumption 0.5, any positive step: the advanced
      value is negative and the clamp makes `do[1]` zero. */
  lemma ClampScenario(dt: real)
    requires dt > 0.0
    ensures Advance(0.0, 0.0, 0.5, dt) < 0.0
    ensures Series(0.0, 0.0, 0.5, dt, 1) == 0.0
  {
  }
}
