/** Engine-level value types and the few numeric helpers of the engine
    (UnityEngine.Mathf, System.String) that the game's scripts rely on. */
module Unity {

  /** A reference that may be null, or a lookup that may find nothing. */
  datatype Option<T> = None | Some(value: T)

  /** A position or direction in world space (UnityEngine.Vector3). */
  datatype Vec3 = Vec3(x: real, y: real, z: real) {
    function Plus(o: Vec3): Vec3 { Vec3(x + o.x, y + o.y, z + o.z) }
    function Minus(o: Vec3): Vec3 { Vec3(x - o.x, y - o.y, z - o.z) }
  }

  const Zero := Vec3(0.0, 0.0, 0.0)

  /** A float distance that may be Mathf.Infinity. */
  datatype Dist = Finite(d: real) | Infinity {
    /** The float comparison `this <= o` (Infinity <= Infinity holds). */
    predicate AtMost(o: Dist) {
      match (this, o)
      case (_, Infinity) => true
      case (Infinity, Finite(_)) => false
      case (Finite(a), Finite(b)) => a <= b
    }
  }

  /** Mathf.Clamp01. */
  function Clamp01(t: real): (r: real)
    ensures 0.0 <= r <= 1.0
    ensures 0.0 <= t <= 1.0 ==> r == t
    ensures t < 0.0 ==> r == 0.0
    ensures t > 1.0 ==> r == 1.0
  {
    if t < 0.0 then 0.0 else if t > 1.0 then 1.0 else t
  }

  /** Mathf.Lerp: interpolation with the parameter clamped to [0, 1]. */
  function Lerp(a: real, b: real, t: real): real
  {
    a + (b - a) * Clamp01(t)
  }

  /** The sum of n copies of x: a fade's alpha after n increments of x
      from 0, the time spent in n waits of x seconds, or a door's travel
      over n frames (float rounding aside). */
  function Times(n: nat, x: real): real
  {
    if n == 0 then 0.0 else Times(n - 1, x) + x
  }

  lemma {:induction false} TimesIsProduct(n: nat, x: real)
    ensures Times(n, x) == (n as real) * x
  {
    if n > 0 {
      TimesIsProduct(n - 1, x);
      Decrement(n as real, x);
    }
  }

  lemma Decrement(a: real, x: real)
    ensures (a - 1.0) * x == a * x - x
  {
  }

  /** Mathf.Lerp never leaves the interval spanned by its two ends,
      whatever parameter it is given. */
  lemma LerpBetween(a: real, b: real, t: real)
    ensures a <= b ==> a <= Lerp(a, b, t) <= b
    ensures b <= a ==> b <= Lerp(a, b, t) <= a
  {
    var c, w := Clamp01(t), b - a;
    MulBetween(w, c);
    var p := w * c;
    assert Lerp(a, b, t) == a + p;
    assert a + w == b;
  }

  lemma MulBetween(w: real, c: real)
    requires 0.0 <= c <= 1.0
    ensures 0.0 <= w ==> 0.0 <= w * c <= w
    ensures w <= 0.0 ==> w <= w * c <= 0.0
  {
    if 0.0 <= w {
      MulNonNegative(w, c);
      MulNonNegative(w, 1.0 - c);
    } else {
      MulNonNegative(-w, c);
      MulNonNegative(-w, 1.0 - c);
    }
  }

  lemma MulNonNegative(x: real, y: real)
    requires 0.0 <= x && 0.0 <= y
    ensures 0.0 <= x * y
  {
  }

  /** C#'s `%` on int: the remainder truncates toward zero, so it has
      the sign of the dividend. */
  function CsRem(a: int, n: int): (r: int)
    requires n > 0
    ensures a >= 0 ==> 0 <= r < n
    ensures a < 0 ==> -n < r <= 0
  {
    if a >= 0 then a % n else -((-a) % n)
  }

  /** System.String.Contains (ordinal): `part` occurs in `s` at some offset. */
  predicate Contains(s: string, part: string)
  {
    exists i | 0 <= i <= |s| - |part| :: OccursAt(s, part, i)
  }

  /** A text without the first character of `part` does not contain it. */
  lemma FirstCharAbsent(s: string, part: string)
    requires |part| > 0 && forall i | 0 <= i < |s| :: s[i] != part[0]
    ensures !Contains(s, part)
  {
    forall i | 0 <= i <= |s| - |part|
      ensures !OccursAt(s, part, i)
    {
      assert s[i..i + |part|][0] == s[i];
    }
  }

  /** One mismatching character rules an offset out. */
  lemma MismatchAt(s: string, part: string, i: int, j: int)
    requires 0 <= i <= |s| - |part| && 0 <= j < |part| && s[i + j] != part[j]
    ensures !OccursAt(s, part, i)
  {
    assert s[i..i + |part|][j] == s[i + j];
  }

  predicate OccursAt(s: string, part: string, i: int)
  {
    0 <= i <= |s| - |part| && s[i..i + |part|] == part
  }
}
