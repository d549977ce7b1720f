/** The screen transitioner: fades a black image in, holds it opaque, and
    fades it out again, in fixed alpha steps separated by fixed waits. One
    transition runs at a time. */
module Transitions {
  import opened Unity

  /** The alpha change per update: a float, which is +Infinity when the
      transition time equals the opaque time. */
  datatype AlphaStep = Rate(r: real) | PosInfinity

  /** One observable effect of the fade coroutine: an alpha written to the
      image, or a wait (scaled or real time). */
  datatype Effect =
    | SetAlpha(alpha: real)
    | SetAlphaInfinity
    | Wait(seconds: real, realtime: bool)

  /** How a coroutine run ends: with its effects, or never (a step that is
      not positive leaves the fade-in loop running forever). */
  datatype Run = Ends(effects: seq<Effect>) | NeverEnds

  const MinRefreshRate := 0.01
  const MinTransitionTime := 0.1

  function Max(a: real, b: real): (m: real)
    ensures m >= a && m >= b && (m == a || m == b)
  {
    if a >= b then a else b
  }

  /** The alpha step for the clamped settings: 2 * refresh / (time - opaqueTime). */
  function StepFor(refresh: real, time: real, opaqueTime: real): AlphaStep
    requires refresh > 0.0
  {
    if time == opaqueTime then PosInfinity else Rate(refresh / (time - opaqueTime) * 2.0)
  }

  /** For a positive x, more copies sum to strictly more, and every sum is
      non-negative. */
  lemma {:induction false} TimesMonotone(a: nat, b: nat, x: real)
    requires a <= b && x > 0.0
    ensures 0.0 <= Times(a, x) <= Times(b, x)
    ensures a < b ==> Times(a, x) + x <= Times(b, x)
    decreases b
  {
    if b > 0 {
      if a < b {
        TimesMonotone(a, b - 1, x);
      } else {
        TimesMonotone(a - 1, b - 1, x);
      }
    }
  }

  /** Scaling every copy scales the sum. */
  lemma {:induction false} TimesScales(n: nat, x: real, c: real, y: real)
    requires y == c * x
    ensures Times(n, y) == c * Times(n, x)
  {
    if n > 0 {
      TimesScales(n - 1, x, c, y);
      Distribute(c, Times(n - 1, x), x);
    }
  }

  lemma Distribute(c: real, a: real, b: real)
    ensures c * a + c * b == c * (a + b)
  {
  }

  /** Some number of increments of a positive step reaches past 1. */
  lemma ReachesOne(r: real)
    requires r > 0.0
    ensures exists n: nat :: Times(n, r) > 1.0
  {
    var q := Inverse(r);
    var n := NatAbove(q);
    ScaledAboveOne(n, q, r);
    TimesIsProduct(n, r);
  }

  lemma Inverse(r: real) returns (q: real)
    requires r > 0.0
    ensures q * r == 1.0 && q > 0.0
  {
    q := 1.0 / r;
  }

  lemma NatAbove(q: real) returns (n: nat)
    requires q > 0.0
    ensures q < n as real
  {
    n := q.Floor + 1;
  }

  lemma ScaledAboveOne(n: int, q: real, r: real)
    requires q * r == 1.0 && q < n as real && r > 0.0
    ensures (n as real) * r > 1.0
  {
    MulStrict(q, n as real, r);
    var lo := q * r;
    var hi := (n as real) * r;
    assert lo < hi;
  }

  lemma MulStrict(a: real, b: real, r: real)
    requires a < b && r > 0.0
    ensures a * r < b * r
  {
    assert (b - a) * r > 0.0;
  }

  /** The least count from k up to `bound` whose sum reaches 1. */
  function Reach(r: real, k: nat, bound: nat): (m: nat)
    requires r > 0.0 && k <= bound && Times(bound, r) >= 1.0
    decreases bound - k
    ensures k <= m <= bound && Times(m, r) >= 1.0
    ensures forall j | k <= j < m :: Times(j, r) < 1.0
  {
    if Times(k, r) >= 1.0 then k else Reach(r, k + 1, bound)
  }

  /** The number of fade-in updates for a positive step r: the least m with
      m increments of r reaching 1. */
  ghost function FadeLength(r: real): (m: nat)
    requires r > 0.0
    ensures Times(m, r) >= 1.0
    ensures m >= 1 && Times(m - 1, r) < 1.0
  {
    ReachesOne(r);
    var n: nat :| Times(n, r) > 1.0;
    Reach(r, 0, n)
  }

  /** The fade-in effects of the first k updates: the alpha after i
      increments, then a wait. */
  function FadeIn(r: real, k: nat, refresh: real, realtime: bool): seq<Effect>
  {
    if k == 0 then []
    else FadeIn(r, k - 1, refresh, realtime) + [SetAlpha(Times(k - 1, r)), Wait(refresh, realtime)]
  }

  /** The fade-out effects of the first j updates from the alpha the fade-in
      left, m increments: the alpha after m - i increments, then a wait. */
  function FadeOut(r: real, m: nat, j: nat, refresh: real, realtime: bool): seq<Effect>
    requires j <= m
  {
    if j == 0 then []
    else FadeOut(r, m, j - 1, refresh, realtime) + [SetAlpha(Times(m - (j - 1), r)), Wait(refresh, realtime)]
  }

  /** The whole coroutine: fade in, force alpha 1 and hold for the opaque
      time, fade out, force alpha 0. */
  ghost function Transition(step: AlphaStep, refresh: real, opaqueTime: real, realtime: bool): Run
  {
    match step
    case PosInfinity =>
      Ends([SetAlpha(0.0), Wait(refresh, realtime), SetAlpha(1.0), Wait(opaqueTime, realtime),
            SetAlphaInfinity, Wait(refresh, realtime), SetAlpha(0.0)])
    case Rate(r) =>
      if r <= 0.0 then NeverEnds
      else
        var m := FadeLength(r);
        Ends(FadeIn(r, m, refresh, realtime) + [SetAlpha(1.0), Wait(opaqueTime, realtime)]
             + FadeOut(r, m, m, refresh, realtime) + [SetAlpha(0.0)])
  }

  /** The alpha written by an effect, if any, lies in [lo, hi). */
  predicate WritesAlphaIn(e: Effect, lo: real, hi: real)
  {
    e.SetAlpha? ==> lo <= e.alpha < hi
  }

  /** Every alpha written while fading in lies in [0, 1). */
  lemma {:induction false} FadeInAlphasBelowOne(r: real, k: nat, refresh: real, realtime: bool)
    requires r > 0.0 && k <= FadeLength(r)
    ensures |FadeIn(r, k, refresh, realtime)| == 2 * k
    ensures forall i | 0 <= i < |FadeIn(r, k, refresh, realtime)| ::
      WritesAlphaIn(FadeIn(r, k, refresh, realtime)[i], 0.0, 1.0)
  {
    if k > 0 {
      FadeInAlphasBelowOne(r, k - 1, refresh, realtime);
      TimesMonotone(k - 1, FadeLength(r) - 1, r);
      var before := FadeIn(r, k - 1, refresh, realtime);
      var now := FadeIn(r, k, refresh, realtime);
      forall i | 0 <= i < |now|
        ensures WritesAlphaIn(now[i], 0.0, 1.0)
      {
        if i < |before| {
          assert now[i] == before[i];
        }
      }
    }
  }

  /** Every alpha written while fading out is at least one step and below
      1 + r: the first can exceed 1, since the fade-out starts from the
      alpha the fade-in left rather than from 1. */
  lemma {:induction false} FadeOutAlphasPositive(r: real, m: nat, j: nat, refresh: real, realtime: bool)
    requires r > 0.0 && m == FadeLength(r) && j <= m
    ensures |FadeOut(r, m, j, refresh, realtime)| == 2 * j
    ensures forall i | 0 <= i < |FadeOut(r, m, j, refresh, realtime)| ::
      WritesAlphaIn(FadeOut(r, m, j, refresh, realtime)[i], r, 1.0 + r)
  {
    if j > 0 {
      FadeOutAlphasPositive(r, m, j - 1, refresh, realtime);
      TimesMonotone(0, m - (j - 1), r);
      TimesMonotone(m - (j - 1), m, r);
      var before := FadeOut(r, m, j - 1, refresh, realtime);
      var now := FadeOut(r, m, j, refresh, realtime);
      forall i | 0 <= i < |now|
        ensures WritesAlphaIn(now[i], r, 1.0 + r)
      {
        if i < |before| {
          assert now[i] == before[i];
        }
      }
    }
  }

  /** The effects with every wait's clock kind dropped. */
  function Unclocked(effects: seq<Effect>): seq<Effect>
  {
    seq(|effects|, i requires 0 <= i < |effects| =>
      if effects[i].Wait? then Wait(effects[i].seconds, false) else effects[i])
  }

  lemma {:induction false} UnclockedFadeIn(r: real, k: nat, refresh: real)
    ensures Unclocked(FadeIn(r, k, refresh, true)) == FadeIn(r, k, refresh, false)
  {
    if k > 0 {
      UnclockedFadeIn(r, k - 1, refresh);
    }
  }

  lemma {:induction false} UnclockedFadeOut(r: real, m: nat, j: nat, refresh: real)
    requires j <= m
    ensures Unclocked(FadeOut(r, m, j, refresh, true)) == FadeOut(r, m, j, refresh, false)
  {
    if j > 0 {
      UnclockedFadeOut(r, m, j - 1, refresh);
    }
  }

  /** The real-time and the scaled-time variants write the same alphas and
      wait the same durations; only the kind of clock differs. */
  lemma VariantsAgree(step: AlphaStep, refresh: real, opaqueTime: real)
    ensures Transition(step, refresh, opaqueTime, true).NeverEnds? == Transition(step, refresh, opaqueTime, false).NeverEnds?
    ensures Transition(step, refresh, opaqueTime, true).Ends? ==>
      Unclocked(Transition(step, refresh, opaqueTime, true).effects) == Transition(step, refresh, opaqueTime, false).effects
  {
    if step.Rate? && step.r > 0.0 {
      var r, m := step.r, FadeLength(step.r);
      UnclockedFadeIn(r, m, refresh);
      UnclockedFadeOut(r, m, m, refresh);
      var a := FadeIn(r, m, refresh, true);
      var b := FadeOut(r, m, m, refresh, true);
      assert Unclocked(a + [SetAlpha(1.0), Wait(opaqueTime, true)] + b + [SetAlpha(0.0)])
          == Unclocked(a) + [SetAlpha(1.0), Wait(opaqueTime, false)] + Unclocked(b) + [SetAlpha(0.0)];
    }
  }

  /** The coroutine ends exactly when the clamped transition time is at
      least the clamped opaque time. */
  lemma EndsIffTimeCoversOpaque(refresh: real, time: real, opaqueTime: real, realtime: bool)
    requires refresh > 0.0
    ensures Transition(StepFor(refresh, time, opaqueTime), refresh, opaqueTime, realtime).Ends? <==> time >= opaqueTime
  {
    if time > opaqueTime {
      var d := time - opaqueTime;
      assert refresh / d > 0.0;
    } else if time < opaqueTime {
      var d := time - opaqueTime;
      assert refresh / d < 0.0 by {
        assert refresh / (-d) > 0.0;
        assert refresh / d == -(refresh / (-d));
      }
    }
  }

  /** The sum of the waits of a run of effects. */
  function TotalWait(effects: seq<Effect>): real
  {
    if |effects| == 0 then 0.0
    else TotalWait(effects[..|effects| - 1])
         + (if effects[|effects| - 1].Wait? then effects[|effects| - 1].seconds else 0.0)
  }

  lemma {:induction false} TotalWaitAppend(a: seq<Effect>, b: seq<Effect>)
    ensures TotalWait(a + b) == TotalWait(a) + TotalWait(b)
    decreases |b|
  {
    if |b| > 0 {
      assert (a + b)[..|a + b| - 1] == a + b[..|b| - 1];
      TotalWaitAppend(a, b[..|b| - 1]);
    } else {
      assert a + b == a;
    }
  }

  /** The waits of an alpha write followed by a wait. */
  lemma UpdateWait(alpha: real, seconds: real, realtime: bool)
    ensures TotalWait([SetAlpha(alpha), Wait(seconds, realtime)]) == seconds
  {
    var e := [SetAlpha(alpha), Wait(seconds, realtime)];
    assert e[..1] == [SetAlpha(alpha)];
    assert e[..1][..0] == [];
    assert TotalWait(e[..1]) == 0.0;
    assert TotalWait(e) == TotalWait(e[..1]) + seconds;
  }

  lemma {:induction false} FadeInWait(r: real, k: nat, refresh: real, realtime: bool)
    ensures TotalWait(FadeIn(r, k, refresh, realtime)) == Times(k, refresh)
  {
    if k > 0 {
      FadeInWait(r, k - 1, refresh, realtime);
      TotalWaitAppend(FadeIn(r, k - 1, refresh, realtime), [SetAlpha(Times(k - 1, r)), Wait(refresh, realtime)]);
      UpdateWait(Times(k - 1, r), refresh, realtime);
    }
  }

  lemma {:induction false} FadeOutWait(r: real, m: nat, j: nat, refresh: real, realtime: bool)
    requires j <= m
    ensures TotalWait(FadeOut(r, m, j, refresh, realtime)) == Times(j, refresh)
  {
    if j > 0 {
      FadeOutWait(r, m, j - 1, refresh, realtime);
      TotalWaitAppend(FadeOut(r, m, j - 1, refresh, realtime), [SetAlpha(Times(m - (j - 1), r)), Wait(refresh, realtime)]);
      UpdateWait(Times(m - (j - 1), r), refresh, realtime);
    }
  }

  /** With r = 2 * refresh / d, n steps of r reach 1 exactly when 2 * n
      waits of refresh cover d. */
  lemma StepsCoverSpan(n: nat, refresh: real, d: real)
    requires refresh > 0.0 && d > 0.0
    ensures Times(n, refresh / d * 2.0) >= 1.0 <==> 2.0 * Times(n, refresh) >= d
  {
    var c := 2.0 / d;
    assert refresh / d * 2.0 == c * refresh;
    TimesScales(n, refresh, c, refresh / d * 2.0);
    var t := Times(n, refresh);
    assert c * d == 2.0;
    ScaleBack(t, c, d);
  }

  lemma ScaleBack(t: real, c: real, d: real)
    requires d > 0.0 && c * d == 2.0
    ensures c * t >= 1.0 <==> 2.0 * t >= d
  {
    var ct := c * t;
    assert ct * d == 2.0 * t;
    if ct >= 1.0 {
      MulMonotone(1.0, ct, d);
    } else {
      MulStrict(ct, 1.0, d);
    }
  }

  lemma MulMonotone(a: real, b: real, r: real)
    requires a <= b && r > 0.0
    ensures a * r <= b * r
  {
    MulNonNegative(b - a, r);
  }

  /** With a positive step the coroutine waits for 2 * m updates and the
      opaque time: at least the requested transition time, and less than
      two refresh periods more, as the source's comment on the step
      intends. */
  lemma TransitionTimeIsClose(refresh: real, time: real, opaqueTime: real, realtime: bool)
    requires refresh > 0.0 && time > opaqueTime
    ensures var run := Transition(StepFor(refresh, time, opaqueTime), refresh, opaqueTime, realtime);
      run.Ends? && time <= TotalWait(run.effects) < time + 2.0 * refresh
  {
    var d := time - opaqueTime;
    var r := refresh / d * 2.0;
    assert r > 0.0;
    var m := FadeLength(r);
    var a := FadeIn(r, m, refresh, realtime);
    var b := FadeOut(r, m, m, refresh, realtime);
    FadeInWait(r, m, refresh, realtime);
    FadeOutWait(r, m, m, refresh, realtime);
    var mid := [SetAlpha(1.0), Wait(opaqueTime, realtime)];
    TotalWaitAppend(a, mid);
    TotalWaitAppend(a + mid, b);
    TotalWaitAppend(a + mid + b, [SetAlpha(0.0)]);
    UpdateWait(1.0, opaqueTime, realtime);
    assert TotalWait([SetAlpha(0.0)]) == 0.0 by {
      assert [SetAlpha(0.0)][..0] == [];
    }
    StepsCoverSpan(m, refresh, d);
    StepsCoverSpan(m - 1, refresh, d);
  }

  class Transitioner {
    var transitioning: bool
    var transitionTime: real
    var transitionRefreshRate: real
    var transitionImageOpaqueTime: real
    var alphaChangePerUpdate: AlphaStep
    /** The coroutine in flight, with whether it waits in real time. */
    var running: Option<bool>

    /** The field defaults. */
    constructor ()
      ensures !transitioning && running == None
      ensures transitionTime == 1.0 && transitionRefreshRate == 0.05
      ensures transitionImageOpaqueTime == 0.0 && alphaChangePerUpdate == Rate(0.05)
    {
      transitioning, running := false, None;
      transitionTime, transitionRefreshRate := 1.0, 0.05;
      transitionImageOpaqueTime, alphaChangePerUpdate := 0.0, Rate(0.05);
    }

    /** Start a transition unless one is running: clamp the settings (refresh
        at least 0.01 s, time at least 0.1 s, opaque time at least 0), derive
        the alpha step, and start the coroutine, which marks the transitioner
        busy before its first wait. */
    method MaskTransition(time: real, refreshRate: real, fullyMaskedTime: real, realtime: bool)
      modifies this
      ensures old(transitioning) ==>
        && transitioning && running == old(running) && transitionTime == old(transitionTime)
        && transitionRefreshRate == old(transitionRefreshRate)
        && transitionImageOpaqueTime == old(transitionImageOpaqueTime)
        && alphaChangePerUpdate == old(alphaChangePerUpdate)
      ensures !old(transitioning) ==>
        && transitioning && running == Some(realtime)
        && transitionRefreshRate == Max(refreshRate, MinRefreshRate)
        && transitionTime == Max(time, MinTransitionTime)
        && transitionImageOpaqueTime == Max(fullyMaskedTime, 0.0)
        && alphaChangePerUpdate == StepFor(transitionRefreshRate, transitionTime, transitionImageOpaqueTime)
    {
      if transitioning {
        return;
      }
      var refresh := Max(refreshRate, MinRefreshRate);
      var total := Max(time, MinTransitionTime);
      var masked := Max(fullyMaskedTime, 0.0);
      transitionTime := total;
      transitionRefreshRate := refresh;
      transitionImageOpaqueTime := masked;
      if transitionTime - transitionImageOpaqueTime == 0.0 {
        alphaChangePerUpdate := PosInfinity;
      } else {
        var perUpdate := transitionRefreshRate / (transitionTime - transitionImageOpaqueTime);
        alphaChangePerUpdate := Rate(perUpdate * 2.0);
      }
      transitioning := true;
      running := Some(realtime);
    }

    /** Run the coroutine in flight to its end, collecting its effects; a
        coroutine that never ends leaves the transitioner busy for good. */
    method RunCoroutine() returns (run: Run)
      requires running.Some? ==> transitionRefreshRate > 0.0
      modifies this
      ensures old(running).None? ==> run == Ends([])
      ensures old(running).Some? ==>
        run == Transition(alphaChangePerUpdate, transitionRefreshRate, transitionImageOpaqueTime, old(running).value)
      ensures old(running).Some? && run.Ends? ==> !transitioning && running == None
      ensures old(running).None? || run.NeverEnds? ==>
        transitioning == old(transitioning) && running == old(running)
      ensures transitionTime == old(transitionTime) && transitionRefreshRate == old(transitionRefreshRate)
      ensures transitionImageOpaqueTime == old(transitionImageOpaqueTime)
      ensures alphaChangePerUpdate == old(alphaChangePerUpdate)
    {
      if running.None? {
        return Ends([]);
      }
      var realtime := running.value;
      var refresh, opaqueTime := transitionRefreshRate, transitionImageOpaqueTime;
      var effects: seq<Effect>;
      match alphaChangePerUpdate {
        case PosInfinity =>
          effects := [SetAlpha(0.0), Wait(refresh, realtime), SetAlpha(1.0), Wait(opaqueTime, realtime),
                      SetAlphaInfinity, Wait(refresh, realtime), SetAlpha(0.0)];
        case Rate(r) =>
          if r <= 0.0 {
            return NeverEnds;
          }
          effects := Fade(r, refresh, opaqueTime, realtime);
      }
      transitioning := false;
      running := None;
      return Ends(effects);
    }

    /** The fade loops for a positive step: alpha rises by r per update
        until it reaches 1, the image is held opaque, then alpha falls by r
        per update until it is no longer positive. */
    static method Fade(r: real, refresh: real, opaqueTime: real, realtime: bool) returns (effects: seq<Effect>)
      requires r > 0.0
      ensures var m := FadeLength(r);
        effects == FadeIn(r, m, refresh, realtime) + [SetAlpha(1.0), Wait(opaqueTime, realtime)]
                   + FadeOut(r, m, m, refresh, realtime) + [SetAlpha(0.0)]
    {
      ghost var m := FadeLength(r);
      var alpha := 0.0;
      ghost var k: nat := 0;
      effects := [];
      while alpha < 1.0
        invariant k <= m && alpha == Times(k, r)
        invariant alpha < 1.0 <==> k < m
        invariant effects == FadeIn(r, k, refresh, realtime)
        decreases m - k
      {
        effects := effects + [SetAlpha(alpha), Wait(refresh, realtime)];
        alpha := alpha + r;
        k := k + 1;
        if k < m {
          TimesMonotone(k, m - 1, r);
        }
      }
      effects := effects + [SetAlpha(1.0), Wait(opaqueTime, realtime)];
      ghost var j: nat := 0;
      ghost var fadedIn := effects;
      TimesMonotone(0, m, r);
      while alpha > 0.0
        invariant j <= m && alpha == Times(m - j, r)
        invariant alpha > 0.0 <==> j < m
        invariant effects == fadedIn + FadeOut(r, m, j, refresh, realtime)
        decreases m - j
      {
        effects := effects + [SetAlpha(alpha), Wait(refresh, realtime)];
        alpha := alpha - r;
        j := j + 1;
        if j < m {
          TimesMonotone(0, m - j, r);
        }
      }
      effects := effects + [SetAlpha(0.0)];
    }
  }
}
