/** The security camera: a device switched between a static mode and a
    sentry mode by the console's state text; in sentry mode it sweeps
    between two rotations following a sine of its running clock. */
module SecurityCameras {
  import opened Unity

  datatype CameraState = Static | SentryMode

  datatype CameraVars = CameraVars(currentState: CameraState, sentryTick: real, rotation: Vec3)

  /** The sweep's fixed settings: its two end rotations and its speed. */
  datatype Sweep = Sweep(leftMost: Vec3, rightMost: Vec3, rotationSpeed: real)

  /** Vector3.Lerp: component-wise, parameter clamped to [0, 1]. */
  function LerpVec(a: Vec3, b: Vec3, t: real): Vec3
  {
    Vec3(Lerp(a.x, b.x, t), Lerp(a.y, b.y, t), Lerp(a.z, b.z, t))
  }

  /** The device-state rule: text containing "static" selects Static,
      otherwise text containing "sentry mode" selects SentryMode, otherwise
      the state is kept. */
  function SelectState(current: CameraState, stateInfo: string): CameraState
  {
    if Contains(stateInfo, "static") then Static
    else if Contains(stateInfo, "sentry mode") then SentryMode
    else current
  }

  /** The sweep factor: a sine in [-1, 1] moved to [0, 1]. */
  function SweepFactor(sine: real): (f: real)
    requires -1.0 <= sine <= 1.0
    ensures 0.0 <= f <= 1.0
  {
    (sine + 1.0) / 2.0
  }

  /** The rotation at sweep factor f. */
  function SweepAt(sweep: Sweep, f: real): Vec3
  {
    LerpVec(sweep.leftMost, sweep.rightMost, f)
  }

  /** The sine's argument: the camera's clock scaled by its speed. */
  function Phase(tick: real, speed: real): real
  {
    tick * speed
  }

  /** The rotation at any factor in [0, 1] lies between the two ends,
      component by component. */
  lemma SweepAtBetween(sweep: Sweep, f: real)
    ensures var r := SweepAt(sweep, f);
      && Between(sweep.leftMost.x, r.x, sweep.rightMost.x)
      && Between(sweep.leftMost.y, r.y, sweep.rightMost.y)
      && Between(sweep.leftMost.z, r.z, sweep.rightMost.z)
  {
    LerpBetween(sweep.leftMost.x, sweep.rightMost.x, f);
    LerpBetween(sweep.leftMost.y, sweep.rightMost.y, f);
    LerpBetween(sweep.leftMost.z, sweep.rightMost.z, f);
  }

  /** One frame of the camera's mode: nothing in Static; in SentryMode the
      clock advances and the rotation follows the sine of clock * speed.
      `sin` stands for Mathf.Sin. */
  function StateStep(v: CameraVars, sweep: Sweep, deltaTime: real, sin: real -> real): CameraVars
    requires forall x :: -1.0 <= sin(x) <= 1.0
  {
    match v.currentState
    case Static => v
    case SentryMode =>
      var tick := v.sentryTick + deltaTime;
      v.(sentryTick := tick,
         rotation := SweepAt(sweep, SweepFactor(sin(Phase(tick, sweep.rotationSpeed)))))
  }

  /** The device-state rule for any text: "static" selects Static whatever
      else the text holds, "sentry mode" alone selects SentryMode, other
      text keeps the state; applying the same text twice is applying it
      once. */
  lemma SelectStateRule(current: CameraState, stateInfo: string)
    ensures Contains(stateInfo, "static") ==> SelectState(current, stateInfo) == Static
    ensures !Contains(stateInfo, "static") && Contains(stateInfo, "sentry mode") ==>
      SelectState(current, stateInfo) == SentryMode
    ensures !Contains(stateInfo, "static") && !Contains(stateInfo, "sentry mode") ==>
      SelectState(current, stateInfo) == current
    ensures SelectState(SelectState(current, stateInfo), stateInfo) == SelectState(current, stateInfo)
  {
  }

  /** Examples of the rule: a text holding both phrases selects Static,
      "sentry mode" alone selects SentryMode, other text keeps the state. */
  lemma StaticTakesPrecedence(current: CameraState)
    ensures SelectState(current, "sentry mode static") == Static
    ensures SelectState(Static, "sentry mode") == SentryMode
    ensures SelectState(current, "offline") == current
  {
    assert OccursAt("sentry mode static", "static", 12);
    assert OccursAt("sentry mode", "sentry mode", 0);
    forall i | 0 <= i <= |"sentry mode"| - |"static"|
      ensures !OccursAt("sentry mode", "static", i)
    {
      if i == 2 {
        MismatchAt("sentry mode", "static", i, 2);
      } else {
        MismatchAt("sentry mode", "static", i, 1);
      }
    }
    FirstCharAbsent("offline", "static");
    FirstCharAbsent("offline", "sentry mode");
  }

  /** Static mode changes nothing; sentry mode only advances the clock and
      keeps every rotation component between the sweep's two ends. */
  lemma SentrySweepStaysBetweenEnds(v: CameraVars, sweep: Sweep, deltaTime: real, sin: real -> real)
    requires forall x :: -1.0 <= sin(x) <= 1.0
    ensures v.currentState == Static ==> StateStep(v, sweep, deltaTime, sin) == v
    ensures v.currentState == SentryMode ==>
      var w := StateStep(v, sweep, deltaTime, sin);
      && w.sentryTick == v.sentryTick + deltaTime && w.currentState == SentryMode
      && Between(sweep.leftMost.x, w.rotation.x, sweep.rightMost.x)
      && Between(sweep.leftMost.y, w.rotation.y, sweep.rightMost.y)
      && Between(sweep.leftMost.z, w.rotation.z, sweep.rightMost.z)
  {
    if v.currentState == SentryMode {
      SweepAtBetween(sweep, SweepFactor(sin(Phase(v.sentryTick + deltaTime, sweep.rotationSpeed))));
    }
  }

  /** x lies between the two ends, in whichever order they come. */
  predicate Between(a: real, x: real, b: real)
  {
    (a <= x <= b) || (b <= x <= a)
  }

  class SecurityCamera {
    var currentState: CameraState
    var sentryTick: real
    /** The camera's local Euler rotation. */
    var rotation: Vec3
    const sweep: Sweep

    function Vars(): CameraVars
      reads this
    {
      CameraVars(currentState, sentryTick, rotation)
    }

    /** Start: the camera is turned to the sweep's left-most rotation. */
    constructor (initialState: CameraState, initialTick: real, s: Sweep)
      ensures Vars() == CameraVars(initialState, initialTick, s.leftMost) && sweep == s
    {
      currentState, sentryTick, rotation := initialState, initialTick, s.leftMost;
      sweep := s;
    }

    method SetDeviceState(stateInfo: string)
      modifies this
      ensures Vars() == old(Vars()).(currentState := SelectState(old(currentState), stateInfo))
    {
      if Contains(stateInfo, "static") {
        SetCameraState(Static);
      } else if Contains(stateInfo, "sentry mode") {
        SetCameraState(SentryMode);
      }
    }

    method SetCameraState(state: CameraState)
      modifies this
      ensures Vars() == old(Vars()).(currentState := state)
    {
      currentState := state;
    }

    /** One frame: run the current mode. */
    method SetStateInformation(deltaTime: real, sin: real -> real)
      requires forall x :: -1.0 <= sin(x) <= 1.0
      modifies this
      ensures Vars() == StateStep(old(Vars()), sweep, deltaTime, sin)
    {
      match currentState {
        case Static => StaticMode();
        case SentryMode => SentryModeStep(deltaTime, sin);
      }
    }

    method StaticMode()
      ensures Vars() == old(Vars())
    {
    }

    method SentryModeStep(deltaTime: real, sin: real -> real)
      requires forall x :: -1.0 <= sin(x) <= 1.0
      modifies this
      ensures currentState == old(currentState) && sentryTick == old(sentryTick) + deltaTime
      ensures rotation == SweepAt(sweep, SweepFactor(sin(Phase(sentryTick, sweep.rotationSpeed))))
    {
      sentryTick := sentryTick + deltaTime;
      var rotationLerp := SweepFactor(sin(Phase(sentryTick, sweep.rotationSpeed)));
      rotation := SweepAt(sweep, rotationLerp);
    }
  }
}
