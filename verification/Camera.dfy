/** The camera follower: an exponential approach of the fleet's centroid, one tick at a time. */
module Camera {
  import opened Reals

  datatype Vec = Vec(x: real, y: real, z: real)

  /** One axis after a history of centroids: the first one is taken over, every later one approached. */
  function TargetAfter(alpha: real, centroids: seq<real>): real {
    if centroids == [] then 0.0
    else
      var last := centroids[|centroids| - 1];
      if |centroids| == 1 then last
      else
        var t := TargetAfter(alpha, centroids[..|centroids| - 1]);
        Blend(alpha, t, last)
  }

  /** target + alpha * (centroid - target). */
  function Blend(alpha: real, t: real, c: real): real { t + alpha * (c - t) }

  function Xs(seen: seq<Vec>): seq<real> { seq(|seen|, i requires 0 <= i < |seen| => seen[i].x) }
  function Ys(seen: seq<Vec>): seq<real> { seq(|seen|, i requires 0 <= i < |seen| => seen[i].y) }
  function Zs(seen: seq<Vec>): seq<real> { seq(|seen|, i requires 0 <= i < |seen| => seen[i].z) }

  class CameraFollower {
    const alpha: real
    const offset: Vec
    var target: Vec
    var initialized: bool
    ghost var seen: seq<Vec>      // every centroid so far

    ghost predicate Valid()
      reads this
    {
      && initialized == (seen != [])
      && target == Vec(TargetAfter(alpha, Xs(seen)), TargetAfter(alpha, Ys(seen)), TargetAfter(alpha, Zs(seen)))
    }

    constructor (alpha: real, offset: Vec)
      ensures Valid() && seen == [] && this.alpha == alpha && this.offset == offset
    {
      this.alpha, this.offset := alpha, offset;
      target, initialized, seen := Vec(0.0, 0.0, 0.0), false, [];
    }

    /** Moves the target, and returns where the camera stands and looks. */
    method Tick(centroid: Vec) returns (eye: Vec, look: Vec)
      requires Valid()
      modifies this
      ensures Valid() && seen == old(seen) + [centroid]
      ensures look == target && eye == Vec(target.x + offset.x, target.y + offset.y, target.z + offset.z)
    {
      ghost var before := seen;
      seen := seen + [centroid];
      OneMoreSeen(before, centroid);
      NextTarget(alpha, Xs(before), centroid.x);
      NextTarget(alpha, Ys(before), centroid.y);
      NextTarget(alpha, Zs(before), centroid.z);
      hide TargetAfter, Xs, Ys, Zs, Blend;
      if !initialized {
        target := centroid;
        initialized := true;
      } else {
        target := Vec(Blend(alpha, target.x, centroid.x), Blend(alpha, target.y, centroid.y), Blend(alpha, target.z, centroid.z));
      }
      look := target;
      eye := Vec(target.x + offset.x, target.y + offset.y, target.z + offset.z);
    }
  }

  lemma OneMoreSeen(seen: seq<Vec>, c: Vec)
    ensures Xs(seen + [c]) == Xs(seen) + [c.x] && Ys(seen + [c]) == Ys(seen) + [c.y] && Zs(seen + [c]) == Zs(seen) + [c.z]
    ensures |Xs(seen)| == |Ys(seen)| == |Zs(seen)| == |seen|
  {
  }

  // ------------------------------------------------------------------------ lag

  function Abs(x: real): real { if x < 0.0 then -x else x }

  /** From one tick to the next the centroid moves at most `v`. */
  predicate MovesAtMost(centroids: seq<real>, v: real) {
    forall i :: 0 < i < |centroids| ==> Abs(centroids[i] - centroids[i - 1]) <= v
  }

  function Lag(alpha: real, centroids: seq<real>): real
    requires centroids != []
  {
    Abs(centroids[|centroids| - 1] - TargetAfter(alpha, centroids))
  }

  lemma LagStep(alpha: real, v: real, before: real, lag: real)
    requires 0.0 < alpha <= 1.0 && lag <= (1.0 - alpha) * (v + before) && alpha * before <= v * (1.0 - alpha)
    ensures alpha * lag <= v * (1.0 - alpha)
  {
    hide *;
    NonNegative(alpha, (1.0 - alpha) * (v + before) - lag);
    NonNegative(1.0 - alpha, v * (1.0 - alpha) - alpha * before);
    LagIdentity(alpha, v, before, lag);
  }

  lemma LagIdentity(a: real, v: real, before: real, lag: real)
    ensures v * (1.0 - a) - a * lag
         == a * ((1.0 - a) * (v + before) - lag) + (1.0 - a) * (v * (1.0 - a) - a * before)
  {
  }

  /** The lag never exceeds v (1 - alpha) / alpha. */
  lemma LagIsBounded(alpha: real, v: real, centroids: seq<real>)
    requires 0.0 < alpha <= 1.0 && v >= 0.0 && centroids != [] && MovesAtMost(centroids, v)
    ensures Lag(alpha, centroids) <= v * (1.0 - alpha) / alpha
  {
    LagIsBoundedScaled(alpha, v, centroids);
    hide Lag;
    Divide(alpha, Lag(alpha, centroids), v * (1.0 - alpha));
  }

  lemma Divide(alpha: real, lag: real, bound: real)
    requires alpha > 0.0 && alpha * lag <= bound
    ensures lag <= bound / alpha
  {
  }

  lemma {:induction false} LagIsBoundedScaled(alpha: real, v: real, centroids: seq<real>)
    requires 0.0 < alpha <= 1.0 && v >= 0.0 && centroids != [] && MovesAtMost(centroids, v)
    ensures alpha * Lag(alpha, centroids) <= v * (1.0 - alpha)
  {
    var n := |centroids| - 1;
    if n == 0 {
      assert Lag(alpha, centroids) == 0.0;
      hide *;
      NonNegative(v, 1.0 - alpha);
    } else {
      var init := centroids[..n];
      LagIsBoundedScaled(alpha, v, init);
      LagAfterMove(alpha, v, centroids);
      hide *;
      LagStep(alpha, v, Lag(alpha, init), Lag(alpha, centroids));
    }
  }

  /** One tick: the centroid moves away by at most v, then a share of alpha is made up. */
  lemma LagAfterMove(alpha: real, v: real, centroids: seq<real>)
    requires 0.0 < alpha <= 1.0 && |centroids| > 1 && MovesAtMost(centroids, v)
    ensures Lag(alpha, centroids) <= (1.0 - alpha) * (v + Lag(alpha, centroids[..|centroids| - 1]))
  {
    var n := |centroids| - 1;
    var init := centroids[..n];
    var t, was, now := TargetAfter(alpha, init), init[n - 1], centroids[n];
    assert TargetAfter(alpha, centroids) == t + alpha * (now - t);
    assert Abs(now - was) <= v;
    hide TargetAfter;
    Approach(alpha, v, t, was, now);
  }

  lemma Approach(alpha: real, v: real, t: real, was: real, now: real)
    requires 0.0 < alpha <= 1.0 && Abs(now - was) <= v
    ensures Abs(now - (t + alpha * (now - t))) <= (1.0 - alpha) * (v + Abs(was - t))
  {
    assert now - (t + alpha * (now - t)) == (1.0 - alpha) * (now - t);
    Shrinks(1.0 - alpha, now - t, now - (t + alpha * (now - t)), v + Abs(was - t));
  }

  lemma Shrinks(b: real, x: real, y: real, bound: real)
    requires b >= 0.0 && y == b * x && Abs(x) <= bound
    ensures Abs(y) <= b * bound
  {
    AbsScale(b, x);
    assert Abs(y) == Abs(b * x);
    hide *;
    ProductsGrow(b, Abs(x), bound);
  }

  lemma AbsScale(b: real, x: real)
    requires b >= 0.0
    ensures Abs(b * x) == b * Abs(x)
  {
    if x >= 0.0 {
      assert b * x >= 0.0;
    } else {
      assert b * (-x) >= 0.0;
      assert b * (-x) == -(b * x);
    }
  }

  // -------------------------------------------------------------------- standstill

  function Pow(b: real, n: nat): real { if n == 0 then 1.0 else b * Pow(b, n - 1) }

  function Repeat(c: real, n: nat): seq<real> { seq(n, i => c) }

  lemma DecayStep(alpha: real, t: real, c: real, n: nat, start: real)
    requires n > 0 && t - c == Pow(1.0 - alpha, n - 1) * start
    ensures Blend(alpha, t, c) - c == Pow(1.0 - alpha, n) * start
  {
    var power := Pow(1.0 - alpha, n - 1);
    assert t + alpha * (c - t) - c == (1.0 - alpha) * (t - c);
    assert (1.0 - alpha) * (power * start) == ((1.0 - alpha) * power) * start;
  }

  /** With a still centroid the error shrinks by exactly (1 - alpha) a tick. */
  lemma {:induction false} ErrorDecays(alpha: real, centroids: seq<real>, c: real, n: nat)
    requires centroids != []
    ensures TargetAfter(alpha, centroids + Repeat(c, n)) - c == Pow(1.0 - alpha, n) * (TargetAfter(alpha, centroids) - c)
  {
    hide TargetAfter, Blend;
    if n == 0 {
      assert centroids + Repeat(c, n) == centroids;
    } else {
      hide Pow;
      ErrorDecays(alpha, centroids, c, n - 1);
      var before := centroids + Repeat(c, n - 1);
      assert centroids + Repeat(c, n) == before + [c];
      NextTarget(alpha, before, c);
      DecayStep(alpha, TargetAfter(alpha, before), c, n, TargetAfter(alpha, centroids) - c);
    }
  }

  lemma NextTarget(alpha: real, before: seq<real>, c: real)
    ensures TargetAfter(alpha, before + [c]) == if before == [] then c else Blend(alpha, TargetAfter(alpha, before), c)
  {
    assert (before + [c])[..|before|] == before;
  }

  lemma BlendIsBetween(alpha: real, t: real, c: real, low: real, high: real)
    requires 0.0 <= alpha <= 1.0 && low <= t <= high && low <= c <= high
    ensures low <= t + alpha * (c - t) <= high
  {
    NonNegative(1.0 - alpha, t - low);
    NonNegative(alpha, c - low);
    NonNegative(1.0 - alpha, high - t);
    NonNegative(alpha, high - c);
    assert t + alpha * (c - t) - low == (1.0 - alpha) * (t - low) + alpha * (c - low);
    assert high - (t + alpha * (c - t)) == (1.0 - alpha) * (high - t) + alpha * (high - c);
  }

  /** The target stays in the range of the centroids seen. */
  lemma {:induction false} TargetStaysInRange(alpha: real, centroids: seq<real>, low: real, high: real)
    requires 0.0 <= alpha <= 1.0 && centroids != []
    requires forall i :: 0 <= i < |centroids| ==> low <= centroids[i] <= high
    ensures low <= TargetAfter(alpha, centroids) <= high
  {
    var n := |centroids| - 1;
    if n > 0 {
      TargetStaysInRange(alpha, centroids[..n], low, high);
      BlendIsBetween(alpha, TargetAfter(alpha, centroids[..n]), centroids[n], low, high);
    }
  }
}
