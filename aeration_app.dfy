/** The part of the aeration-tank app that sets up one simulation run: the
    slider values, the time grid, the pre-filled DO array, and the call to
    `CalculateDo`.  Rendering is not modelled. */
module AerationApp {
  import opened DissolvedOxygen

  /** The simulated horizon in minutes and the number of grid points. */
  const Horizon: real := 120.0
  const GridPoints: nat := 120

  /** Oxygen transfer efficiency in percent, as a fraction. */
  function OtrFromOte(ote: int): (r: real)
    ensures r * 100.0 == ote as real
    ensures 0 <= ote <= 100 ==> 0.0 <= r <= 1.0
  {
    ote as real / 100.0
  }

  /** `num` evenly spaced points from `start` to `stop`, both ends included,
      as `np.linspace(start, stop, num)` returns them. */
  function Linspace(start: real, stop: real, num: nat): (r: seq<real>)
    ensures |r| == num
    ensures num >= 1 ==> r[0] == start
    ensures num >= 2 ==> r[num - 1] == stop
    ensures num >= 2 ==> forall k :: 0 <= k < num - 1 ==> r[k + 1] - r[k] == (stop - start) / (num - 1) as real
    ensures start < stop ==> forall k :: 0 <= k < num - 1 ==> r[k] < r[k + 1]
  {
    if num == 0 then []
    else if num == 1 then [start]
    else
      var step := (stop - start) / (num - 1) as real;
      LastPoint(start, stop, num);
      seq(num, k requires 0 <= k < num => start + k as real * step)
  }

  /** The last point of `Linspace` is `stop`. */
  lemma LastPoint(start: real, stop: real, num: nat)
    requires num >= 2
    ensures start + (num - 1) as real * ((stop - start) / (num - 1) as real) == stop
  {
  }

  /** The array `np.zeros_like(t)` after `do[0] = initial_do`. */
  function InitialProfile(initialDo: real, n: nat): (r: seq<real>)
    requires n >= 1
    ensures |r| == n && r[0] == initialDo
    ensures forall i :: 1 <= i < n ==> r[i] == 0.0
  {
    [initialDo] + seq(n - 1, _ => 0.0)
  }

  /** With the slider ranges, every entry of the profile the app plots lies
      between zero and saturation. */
  lemma {:induction false} ProfileWithinBounds(ote: int, consumptionRate: real, initialDo: real)
    requires 0 <= ote <= 100
    requires 0.0 <= consumptionRate <= 1.0
    requires 0.0 <= initialDo <= Saturation
    ensures var t := Linspace(0.0, Horizon, GridPoints);
            var r := Simulate(InitialProfile(initialDo, GridPoints), t, OtrFromOte(ote), consumptionRate);
            forall i :: 0 <= i < |r| ==> 0.0 <= r[i] <= Saturation
  {
    var t := Linspace(0.0, Horizon, GridPoints);
    var otr := OtrFromOte(ote);
    var dt := t[1] - t[0];
    assert dt == Horizon / (GridPoints - 1) as real;
    assert otr * dt <= Saturation by {
      MulAtMostOne(otr, dt);
    }
    var r := Simulate(InitialProfile(initialDo, GridPoints), t, otr, consumptionRate);
    forall i | 0 <= i < |r|
      ensures 0.0 <= r[i] <= Saturation
    {
      if i > 0 {
        StaysBelowSaturation(initialDo, otr, consumptionRate, dt, i);
        assert r[i] == Series(initialDo, otr, consumptionRate, dt, i);
      }
    }
  }

  /** A fraction of a non-negative number is no larger than the number. */
  lemma MulAtMostOne(f: real, x: real)
    requires 0.0 <= f <= 1.0 && x >= 0.0
    ensures f * x <= x
  {
    MulNonnegative(1.0 - f, x);
  }

  /** One run of the app: build the grid, convert OTE, pre-fill the DO array
      and integrate.  The array returned is the one that was filled. */
  method RunSimulation(ote: int, consumptionRate: real, initialDo: real) returns (t: seq<real>, profile: array<real>)
    requires 0 <= ote <= 100
    requires 0.0 <= consumptionRate <= 1.0
    requires 0.0 <= initialDo <= Saturation
    ensures t == Linspace(0.0, Horizon, GridPoints)
    ensures fresh(profile) && profile.Length == |t|
    ensures profile[..] == Simulate(InitialProfile(initialDo, |t|), t, OtrFromOte(ote), consumptionRate)
    ensures profile[0] == initialDo
    ensures forall i :: 0 <= i < profile.Length ==> 0.0 <= profile[i] <= Saturation
  {
    var otr := OtrFromOte(ote);
    t := Linspace(0.0, Horizon, GridPoints);
    var d := new real[|t|](_ => 0.0);
    d[0] := initialDo;
    assert d[..] == InitialProfile(initialDo, |t|);
    profile := CalculateDo(d, t, otr, consumptionRate);
    ProfileWithinBounds(ote, consumptionRate, initialDo);
  }
}
