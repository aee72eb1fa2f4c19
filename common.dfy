/** Shared vocabulary: optional values, the 3-component float vector of the
    game engine (modelled over reals), Java's integer division and cast, and
    the "subtract but never below zero" damage rule shared by Player and Enemy. */
module Common {

  datatype Option<T> = None | Some(value: T)

  /** A Vector3f; the game keeps y == 0 and moves on the x/z ground plane. */
  datatype Vec3 = Vec3(x: real, y: real, z: real)

  const Zero: Vec3 := Vec3(0.0, 0.0, 0.0)

  function Add(a: Vec3, b: Vec3): Vec3 { Vec3(a.x + b.x, a.y + b.y, a.z + b.z) }

  function Sub(a: Vec3, b: Vec3): Vec3 { Vec3(a.x - b.x, a.y - b.y, a.z - b.z) }

  function Scale(a: Vec3, k: real): Vec3 { Vec3(a.x * k, a.y * k, a.z * k) }

  /** Squared Euclidean distance: the model never takes a square root. */
  function DistSq(a: Vec3, b: Vec3): (d: real)
    ensures d >= 0.0
  {
    var dx, dy, dz := a.x - b.x, a.y - b.y, a.z - b.z;
    dx * dx + dy * dy + dz * dz
  }

  /** `a.distance(b) <= radius`, stated without the square root. */
  predicate WithinRadius(a: Vec3, b: Vec3, radius: real)
  {
    radius >= 0.0 && DistSq(a, b) <= radius * radius
  }

  lemma ProductPositive(a: real, b: real)
    requires a > 0.0 && b > 0.0
    ensures a * b > 0.0
  {
  }

  lemma ProductNonNegative(a: real, b: real)
    requires a >= 0.0 && b >= 0.0
    ensures a * b >= 0.0
  {
  }

  /** On non-negative reals, comparing values and comparing their squares agree. */
  lemma SquaresOrdered(s: real, r: real)
    requires s >= 0.0 && r >= 0.0
    ensures s <= r <==> s * s <= r * r
  {
    var d := if s <= r then r - s else s - r;
    var lo := if s <= r then s else r;
    ProductNonNegative(lo, d);
    if s < r || r < s {
      ProductPositive(d, d);
    }
    assert (lo + d) * (lo + d) == lo * lo + 2.0 * (lo * d) + d * d;
  }

  /** For any candidate distance s (s >= 0 and s*s equal to the squared
      distance), the engine's test `s <= radius` agrees with WithinRadius. */
  lemma DistanceTestAgrees(a: Vec3, b: Vec3, s: real, radius: real)
    requires s >= 0.0 && s * s == DistSq(a, b)
    ensures s <= radius <==> WithinRadius(a, b, radius)
  {
    if radius >= 0.0 {
      SquaresOrdered(s, radius);
    }
  }

  function Max(a: real, b: real): real { if a >= b then a else b }

  function Min(a: real, b: real): real { if a <= b then a else b }

  /** Math.max(0, health - damage): the clamp of Player.takeDamage and Enemy.takeDamage. */
  function Damaged(health: real, damage: real): (h: real)
    ensures h >= 0.0
    ensures h == health - damage || (h == 0.0 && health - damage < 0.0)
  {
    Max(0.0, health - damage)
  }

  /** The health left after the given hits, applied in order. */
  function DamagedBy(health: real, hits: seq<real>): (h: real)
    decreases |hits|
  {
    if |hits| == 0 then health else Damaged(DamagedBy(health, hits[..|hits| - 1]), hits[|hits| - 1])
  }

  function Sum(xs: seq<real>): real
    decreases |xs|
  {
    if |xs| == 0 then 0.0 else Sum(xs[..|xs| - 1]) + xs[|xs| - 1]
  }

  predicate AllNonNegative(xs: seq<real>)
  {
    forall i :: 0 <= i < |xs| ==> xs[i] >= 0.0
  }

  /** Under non-negative hits the per-hit clamp is the same as one clamp of
      the total: health never rises, never goes below zero, and is gone once
      the hits add up to the starting health. */
  lemma {:induction false} DamagedByBounds(health: real, hits: seq<real>)
    requires AllNonNegative(hits)
    ensures DamagedBy(health, hits) == Max(0.0, health - Sum(hits)) || hits == []
    ensures health >= 0.0 ==> 0.0 <= DamagedBy(health, hits) <= health
    ensures Sum(hits) >= health ==> DamagedBy(health, hits) <= 0.0
    decreases |hits|
  {
    if |hits| > 0 {
      DamagedByBounds(health, hits[..|hits| - 1]);
    }
  }

  /** A target at zero health stays at zero under any further non-negative hits. */
  lemma {:induction false} DeadStaysDead(hits: seq<real>)
    requires AllNonNegative(hits)
    ensures DamagedBy(0.0, hits) == 0.0
    decreases |hits|
  {
    if |hits| > 0 {
      DeadStaysDead(hits[..|hits| - 1]);
    }
  }

  /** Java's `/` on int for a positive divisor: truncates toward zero. */
  function JavaDiv(a: int, b: int): (q: int)
    requires b > 0
    ensures a >= 0 ==> q == a / b
    ensures a < 0 ==> q == -((-a) / b)
  {
    if a >= 0 then a / b else -((-a) / b)
  }

  /** Java's `%` on int for a positive divisor: the sign follows the dividend. */
  function JavaRem(a: int, b: int): (r: int)
    requires b > 0
    ensures a == JavaDiv(a, b) * b + r
    ensures a >= 0 ==> 0 <= r < b
    ensures a < 0 ==> -b < r <= 0
  {
    a - JavaDiv(a, b) * b
  }

  /** A Java `(int)` cast of a float, away from the int range limits: truncation toward zero. */
  function Truncate(r: real): (n: int)
    ensures r >= 0.0 ==> 0 <= n && n as real <= r < n as real + 1.0
    ensures r < 0.0 ==> n <= 0 && n as real - 1.0 < r <= n as real
  {
    if r >= 0.0 then r.Floor else -((-r).Floor)
  }

  /** Math.round(float), away from the int range limits: round half up. */
  function Round(r: real): (n: int)
    ensures n as real - 0.5 <= r < n as real + 0.5
  {
    (r + 0.5).Floor
  }

  lemma RoundOfWhole(n: int)
    ensures Round(n as real) == n
  {
  }

  predicate Distinct<T(==)>(s: seq<T>)
  {
    forall i, j :: 0 <= i < j < |s| ==> s[i] != s[j]
  }

  /** The elements of xs whose flag in keep is set, in their original order
      (an ArrayList filtered with Iterator.remove). */
  function SelectBy<T>(xs: seq<T>, keep: seq<bool>): (r: seq<T>)
    requires |keep| == |xs|
    ensures |r| <= |xs|
    decreases |xs|
  {
    if |xs| == 0 then []
    else SelectBy(xs[..|xs| - 1], keep[..|xs| - 1]) + (if keep[|xs| - 1] then [xs[|xs| - 1]] else [])
  }

  /** An element survives the filter exactly when some position holding it is flagged. */
  lemma {:induction false} SelectByMembership<T>(xs: seq<T>, keep: seq<bool>, y: T)
    requires |keep| == |xs|
    ensures y in SelectBy(xs, keep) <==> exists i :: 0 <= i < |xs| && xs[i] == y && keep[i]
    decreases |xs|
  {
    if |xs| > 0 {
      var n := |xs| - 1;
      SelectByMembership(xs[..n], keep[..n], y);
      if y in SelectBy(xs[..n], keep[..n]) {
        var i :| 0 <= i < n && xs[..n][i] == y && keep[..n][i];
        assert xs[i] == y && keep[i];
      }
      if exists i :: 0 <= i < |xs| && xs[i] == y && keep[i] {
        var i :| 0 <= i < |xs| && xs[i] == y && keep[i];
        if i < n {
          assert xs[..n][i] == y && keep[..n][i];
        }
      }
    }
  }

  /** Filtering a list without duplicates leaves a list without duplicates. */
  lemma {:induction false} SelectByDistinct<T>(xs: seq<T>, keep: seq<bool>)
    requires |keep| == |xs| && Distinct(xs)
    ensures Distinct(SelectBy(xs, keep))
    decreases |xs|
  {
    if |xs| > 0 {
      var n := |xs| - 1;
      assert Distinct(xs[..n]);
      SelectByDistinct(xs[..n], keep[..n]);
      if keep[n] {
        SelectByMembership(xs[..n], keep[..n], xs[n]);
        assert xs[n] !in SelectBy(xs[..n], keep[..n]);
      }
    }
  }

  /** The positions 0 .. n - 1 in order. */
  function Positions(n: nat): (r: seq<int>)
    ensures |r| == n && forall i :: 0 <= i < n ==> r[i] == i
  {
    seq(n, i requires 0 <= i < n => i)
  }

  /** The filter keeps the same positions whatever the list holds: its k-th
      element is the list's element at the k-th flagged position. */
  lemma {:induction false} SelectByPositions<T>(xs: seq<T>, keep: seq<bool>)
    requires |keep| == |xs|
    ensures |SelectBy(xs, keep)| == |SelectBy(Positions(|xs|), keep)|
    ensures forall k :: 0 <= k < |SelectBy(xs, keep)| ==>
      0 <= SelectBy(Positions(|xs|), keep)[k] < |xs| && SelectBy(xs, keep)[k] == xs[SelectBy(Positions(|xs|), keep)[k]]
    decreases |xs|
  {
    if |xs| > 0 {
      var n := |xs| - 1;
      SelectByPositions(xs[..n], keep[..n]);
      assert Positions(|xs|)[..n] == Positions(n);
    }
  }
}
