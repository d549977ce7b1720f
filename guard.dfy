/** The guard: a per-frame behaviour state machine that patrols waypoints
    (looping, mirrored or random order, or holding a post), waits at each
    stop, and latches into pursuit the first time the player is seen.

    Engine services become inputs: the navigation agent's readings (has the
    guard arrived), Time.deltaTime, the random draws and the detector's
    answer for the frame. A frame that throws (a waypoint index out of
    range) is a `faulted` step: the rest of that frame does not run. */
module GuardPatrol {
  import opened Unity

  datatype GuardState = Idle | MirroredPatrol | LoopingPatrol | RandomPatrol | Pursuit | Guard

  /** What is fixed once the guard has started: the waypoint positions, the
      wait bounds, the two speeds and the post the guard holds. */
  datatype GuardConfig = GuardConfig(
    waypoints: seq<Vec3>,
    minTimeToWait: real,
    maxTimeToWait: real,
    patrolSpeed: real,
    alertSpeed: real,
    guardPosition: Vec3)

  /** The fields the state machine updates; `destination` is the last point
      given to the navigation agent and `speed` the agent's speed. */
  datatype GuardVars = GuardVars(
    currentState: GuardState,
    previousState: GuardState,
    currentIndex: int,
    waited: bool,
    idleTime: real,
    timeToWait: real,
    speed: real,
    foundPlayer: bool,
    destination: Option<Vec3>,
    lookingAround: bool)

  /** The navigation agent's readings that decide arrival. */
  datatype AgentReadings = AgentReadings(
    remainingDistance: real,
    stoppingDistance: real,
    hasPath: bool,
    sqrVelocity: real)

  /** The engine's answers for one frame: the agent's readings, the frame
      time, Random.Range(0, n) for a random patrol, the wait curve's value at
      a random point, and the player's position if the detector saw them. */
  datatype TickInputs = TickInputs(
    agent: AgentReadings,
    deltaTime: real,
    randomIndex: int,
    waitSample: real,
    sighting: Option<Vec3>)

  /** The state after a frame, and whether the frame threw part-way. */
  datatype Step = Step(vars: GuardVars, faulted: bool)

  /** Random.Range(0, n) with int bounds draws from [0, n). */
  predicate RandomDrawValid(cfg: GuardConfig, inputs: TickInputs)
  {
    |cfg.waypoints| > 0 ==> 0 <= inputs.randomIndex < |cfg.waypoints|
  }

  /** The agent has arrived: within stopping distance, and either without a
      path or standing still. */
  function ReachedDestination(a: AgentReadings): (arrived: bool)
    ensures arrived <==> a.remainingDistance <= a.stoppingDistance
                         && (!a.hasPath || a.sqrVelocity == 0.0)
  {
    if a.remainingDistance <= a.stoppingDistance then
      !a.hasPath || a.sqrVelocity == 0.0
    else false
  }

  /** Begin a wait: remember the behaviour, go Idle, and draw the wait time
      between the two bounds. */
  function StartWaiting(cfg: GuardConfig, v: GuardVars, waitSample: real): GuardVars
  {
    v.(idleTime := 0.0,
       timeToWait := Lerp(cfg.minTimeToWait, cfg.maxTimeToWait, waitSample),
       previousState := v.currentState,
       currentState := Idle,
       lookingAround := true)
  }

  /** One Idle frame: accumulate time, and once the wait is over resume the
      remembered behaviour with `waited` set. */
  function Waiting(v: GuardVars, deltaTime: real): GuardVars
  {
    var t := v.idleTime + deltaTime;
    if t >= v.timeToWait then
      v.(idleTime := t, waited := true, currentState := v.previousState, previousState := Idle)
    else
      v.(idleTime := t)
  }

  /** Head for waypoint `target` at patrol speed, clearing `waited`; an index
      outside the list throws after `currentIndex` was set to `failedIndex`. */
  function GoToWaypoint(cfg: GuardConfig, v: GuardVars, target: int, storedIndex: int, failedIndex: int): Step
  {
    if 0 <= target < |cfg.waypoints| then
      Step(v.(currentIndex := storedIndex, destination := Some(cfg.waypoints[target]),
              speed := cfg.patrolSpeed, waited := false), false)
    else
      Step(v.(currentIndex := failedIndex), true)
  }

  /** The arrival gate shared by all behaviours: nothing until arrival, then
      one wait, then the behaviour's own advance. */
  function Gate(cfg: GuardConfig, v: GuardVars, inputs: TickInputs, advance: Step): Step
  {
    if !ReachedDestination(inputs.agent) then Step(v, false)
    else if !v.waited then Step(StartWaiting(cfg, v, inputs.waitSample), false)
    else advance
  }

  /** Looping patrol: the next waypoint is (index + 1) % n, with C#'s `%`. */
  function LoopingStep(cfg: GuardConfig, v: GuardVars, inputs: TickInputs): Step
  {
    var n := |cfg.waypoints|;
    if n == 0 then Step(v, false)
    else
      var next := CsRem(v.currentIndex + 1, n);
      Gate(cfg, v, inputs, GoToWaypoint(cfg, v, next, next, next))
  }

  /** The mirrored patrol's advance of its running counter (wrapping to 0 on
      reaching 2(n-1)) and the waypoint it targets (the counter itself on the
      way out, 2(n-1) - counter on the way back). */
  function MirroredAdvance(counter: int, n: int): (int, int)
  {
    var c := counter + 1;
    var stored := if c == (n - 1) * 2 then 0 else c;
    var target := if stored >= n then (n - 1) * 2 - stored else stored;
    (stored, target)
  }

  /** Mirrored patrol: the counter persists, the target is its mirror image. */
  function MirroredStep(cfg: GuardConfig, v: GuardVars, inputs: TickInputs): Step
  {
    var n := |cfg.waypoints|;
    if n == 0 then Step(v, false)
    else
      var (stored, target) := MirroredAdvance(v.currentIndex, n);
      Gate(cfg, v, inputs, GoToWaypoint(cfg, v, target, stored, target))
  }

  /** Random patrol: the drawn index becomes the next waypoint. */
  function RandomStep(cfg: GuardConfig, v: GuardVars, inputs: TickInputs): Step
  {
    var n := |cfg.waypoints|;
    if n == 0 then Step(v, false)
    else
      var r := inputs.randomIndex;
      Gate(cfg, v, inputs, GoToWaypoint(cfg, v, r, r, r))
  }

  /** Guard stance: after each wait, head back to the post (speed is kept). */
  function GuardStanceStep(cfg: GuardConfig, v: GuardVars, inputs: TickInputs): Step
  {
    Gate(cfg, v, inputs,
         Step(v.(destination := Some(cfg.guardPosition), waited := false), false))
  }

  /** The behaviour dispatch of a frame; Pursuit has no behaviour. */
  function Behave(cfg: GuardConfig, v: GuardVars, inputs: TickInputs): Step
  {
    match v.currentState
    case Idle => Step(Waiting(v, inputs.deltaTime), false)
    case LoopingPatrol => LoopingStep(cfg, v, inputs)
    case MirroredPatrol => MirroredStep(cfg, v, inputs)
    case RandomPatrol => RandomStep(cfg, v, inputs)
    case Guard => GuardStanceStep(cfg, v, inputs)
    case Pursuit => Step(v, false)
  }

  /** The first sighting latches pursuit: found, Pursuit, alert speed, and
      one trip to where the player stood. Later sightings change nothing. */
  function DetectionLatch(cfg: GuardConfig, v: GuardVars, sighting: Option<Vec3>): GuardVars
  {
    if sighting.Some? && !v.foundPlayer then
      v.(foundPlayer := true, currentState := Pursuit, speed := cfg.alertSpeed,
         destination := Some(sighting.value))
    else v
  }

  /** One frame: behaviour, then the detection check (skipped when the
      behaviour threw). */
  function Tick(cfg: GuardConfig, v: GuardVars, inputs: TickInputs): Step
  {
    var s := Behave(cfg, v, inputs);
    if s.faulted then s
    else Step(DetectionLatch(cfg, s.vars, inputs.sighting), false)
  }

  /** A run of frames; stops at the end of the inputs. */
  function Run(cfg: GuardConfig, v: GuardVars, frames: seq<TickInputs>): GuardVars
    decreases |frames|
  {
    if |frames| == 0 then v
    else Run(cfg, Tick(cfg, v, frames[0]).vars, frames[1..])
  }

  // ---------------------------------------------------------------------
  // Properties of the patrol behaviours

  /** A looping advance from a non-negative index targets waypoint
      (index + 1) % n, which is always a valid index. */
  lemma LoopingAdvance(cfg: GuardConfig, v: GuardVars, inputs: TickInputs)
    requires v.currentState == LoopingPatrol && |cfg.waypoints| > 0 && v.currentIndex >= 0
    requires ReachedDestination(inputs.agent) && v.waited
    ensures var s := Behave(cfg, v, inputs);
      var next := (v.currentIndex + 1) % |cfg.waypoints|;
      && !s.faulted
      && s.vars == v.(currentIndex := next, destination := Some(cfg.waypoints[next]),
                      speed := cfg.patrolSpeed, waited := false)
      && 0 <= s.vars.currentIndex < |cfg.waypoints|
  {
  }

  /** A looping advance from a negative index below -1 throws: C#'s `%`
      keeps the sign, so the index stays negative. */
  lemma LoopingNegativeIndexFaults(cfg: GuardConfig, v: GuardVars, inputs: TickInputs)
    requires v.currentState == LoopingPatrol && |cfg.waypoints| > 0
    requires v.currentIndex + 1 < 0 && (-(v.currentIndex + 1)) % |cfg.waypoints| != 0
    requires ReachedDestination(inputs.agent) && v.waited
    ensures Behave(cfg, v, inputs).faulted
    ensures Behave(cfg, v, inputs).vars.currentIndex < 0
  {
  }

  /** A random advance targets the drawn index, always inside the list. */
  lemma RandomAdvance(cfg: GuardConfig, v: GuardVars, inputs: TickInputs)
    requires v.currentState == RandomPatrol && RandomDrawValid(cfg, inputs) && |cfg.waypoints| > 0
    requires ReachedDestination(inputs.agent) && v.waited
    ensures var s := Behave(cfg, v, inputs);
      && !s.faulted && 0 <= s.vars.currentIndex < |cfg.waypoints|
      && s.vars.currentIndex == inputs.randomIndex
      && s.vars.destination == Some(cfg.waypoints[inputs.randomIndex])
      && !s.vars.waited && s.vars.speed == cfg.patrolSpeed
  {
  }

  /** The behaviours that walk the waypoint list. */
  predicate IsWaypointPatrol(s: GuardState)
  {
    s == LoopingPatrol || s == MirroredPatrol || s == RandomPatrol
  }

  /** With no waypoints, the three waypoint patrols change nothing. */
  lemma NoWaypointsNoChange(cfg: GuardConfig, v: GuardVars, inputs: TickInputs)
    requires IsWaypointPatrol(v.currentState) && |cfg.waypoints| == 0
    ensures Behave(cfg, v, inputs) == Step(v, false)
  {
  }

  /** On arrival a guard that has not waited goes Idle, remembering its
      behaviour, with a fresh wait time between the two bounds; a guard that
      has not arrived changes nothing. */
  lemma ArrivalStartsWait(cfg: GuardConfig, v: GuardVars, inputs: TickInputs)
    requires (IsWaypointPatrol(v.currentState) && |cfg.waypoints| > 0) || v.currentState == Guard
    ensures !ReachedDestination(inputs.agent) ==> Behave(cfg, v, inputs) == Step(v, false)
    ensures ReachedDestination(inputs.agent) && !v.waited ==>
      var s := Behave(cfg, v, inputs);
      && !s.faulted && s.vars.currentState == Idle && s.vars.previousState == v.currentState
      && s.vars.idleTime == 0.0 && s.vars.currentIndex == v.currentIndex
      && s.vars.destination == v.destination && !s.vars.waited
      && (cfg.minTimeToWait <= cfg.maxTimeToWait ==>
            cfg.minTimeToWait <= s.vars.timeToWait <= cfg.maxTimeToWait)
  {
    LerpBetween(cfg.minTimeToWait, cfg.maxTimeToWait, inputs.waitSample);
  }

  /** The guard stance after its wait heads back to the post. */
  lemma GuardStanceReturns(cfg: GuardConfig, v: GuardVars, inputs: TickInputs)
    requires v.currentState == Guard && ReachedDestination(inputs.agent) && v.waited
    ensures Behave(cfg, v, inputs) ==
      Step(v.(destination := Some(cfg.guardPosition), waited := false), false)
  {
  }

  /** Idle frames count time; when the wait is over the remembered
      behaviour resumes with `waited` set and the memory reset to Idle. */
  lemma WaitingResumes(cfg: GuardConfig, v: GuardVars, inputs: TickInputs)
    requires v.currentState == Idle
    ensures var s := Behave(cfg, v, inputs);
      && !s.faulted && s.vars.idleTime == v.idleTime + inputs.deltaTime
      && (v.idleTime + inputs.deltaTime >= v.timeToWait ==>
            s.vars.currentState == v.previousState && s.vars.previousState == Idle && s.vars.waited)
      && (v.idleTime + inputs.deltaTime < v.timeToWait ==>
            s.vars.currentState == Idle && s.vars.waited == v.waited)
  {
  }

  // ---------------------------------------------------------------------
  // The mirrored patrol

  /** The ping-pong index of position m in a round trip over n waypoints. */
  function PingPong(m: int, n: int): int
  {
    if m < n then m else (n - 1) * 2 - m
  }

  /** For n >= 2 the counter stays in [0, 2(n-1)), advances by one and
      wraps to 0 at 2(n-1), and its target is a valid index: the counter on
      the way out, its mirror on the way back. */
  lemma MirroredAdvanceInRange(counter: int, n: int)
    requires n >= 2 && 0 <= counter < (n - 1) * 2
    ensures var (stored, target) := MirroredAdvance(counter, n);
      && stored == (if counter + 1 == (n - 1) * 2 then 0 else counter + 1)
      && 0 <= stored < (n - 1) * 2
      && 0 <= target < n && target == PingPong(stored, n)
  {
  }

  /** The counter after k advances from `start`. */
  function MirroredCounter(start: int, n: int, k: nat): int
  {
    if k == 0 then start else MirroredAdvance(MirroredCounter(start, n, k - 1), n).0
  }

  /** k advances and then j more are k + j advances. */
  lemma {:induction false} MirroredCounterCompose(start: int, n: int, k: nat, j: nat)
    ensures MirroredCounter(MirroredCounter(start, n, k), n, j) == MirroredCounter(start, n, k + j)
  {
    if j > 0 {
      MirroredCounterCompose(start, n, k, j - 1);
    }
  }

  /** In the first round from counter 0 the counter after k advances is k,
      so the guard visits waypoints 1, ..., n-1 and then n-2, ..., 0. */
  lemma {:induction false} MirroredFirstRound(n: int, k: nat)
    requires n >= 2 && k < (n - 1) * 2
    ensures MirroredCounter(0, n, k) == k
    ensures 0 <= PingPong(k, n) < n
  {
    if k > 0 {
      MirroredFirstRound(n, k - 1);
    }
  }

  /** After a full round of 2(n-1) advances the counter is back at 0, so the
      mirrored patrol repeats with period 2(n-1). */
  lemma MirroredPeriodic(n: int, k: nat)
    requires n >= 2
    ensures MirroredCounter(0, n, (n - 1) * 2) == 0
    ensures MirroredCounter(0, n, k + (n - 1) * 2) == MirroredCounter(0, n, k)
  {
    var p := (n - 1) * 2;
    MirroredFirstRound(n, p - 1);
    assert MirroredCounter(0, n, p) == MirroredAdvance(p - 1, n).0;
    MirroredCounterCompose(0, n, p, k);
  }

  /** The round trip over three waypoints A, B, C starting at A: the guard
      walks to B, C, B, A, B, C. */
  lemma MirroredThreeWaypoints()
    ensures MirroredAdvance(0, 3) == (1, 1)
    ensures MirroredAdvance(1, 3) == (2, 2)
    ensures MirroredAdvance(2, 3) == (3, 1)
    ensures MirroredAdvance(3, 3) == (0, 0)
  {
  }

  /** With a single waypoint the mirrored advance from counter 0 targets
      index -1 and throws; the next advance (from -1) targets index 0, so
      every other advance fails. */
  lemma MirroredSingleWaypointFaults(cfg: GuardConfig, v: GuardVars, inputs: TickInputs)
    requires v.currentState == MirroredPatrol && |cfg.waypoints| == 1 && v.currentIndex == 0
    requires ReachedDestination(inputs.agent) && v.waited
    ensures Behave(cfg, v, inputs) == Step(v.(currentIndex := -1), true)
    ensures Tick(cfg, v, inputs) == Step(v.(currentIndex := -1), true)
    ensures var w := v.(currentIndex := -1);
      Behave(cfg, w, inputs) == Step(w.(currentIndex := 0, destination := Some(cfg.waypoints[0]),
                                        speed := cfg.patrolSpeed, waited := false), false)
  {
  }

  // ---------------------------------------------------------------------
  // The detection latch

  /** The first sighting latches pursuit, at alert speed, towards the player. */
  lemma FirstSightingLatches(cfg: GuardConfig, v: GuardVars, inputs: TickInputs)
    requires !v.foundPlayer && inputs.sighting.Some? && !Behave(cfg, v, inputs).faulted
    ensures var t := Tick(cfg, v, inputs);
      && !t.faulted && t.vars.foundPlayer && t.vars.currentState == Pursuit
      && t.vars.speed == cfg.alertSpeed && t.vars.destination == inputs.sighting
  {
  }

  /** A frame never clears `foundPlayer`. */
  lemma FoundPlayerStays(cfg: GuardConfig, v: GuardVars, inputs: TickInputs)
    requires v.foundPlayer
    ensures Tick(cfg, v, inputs).vars.foundPlayer
  {
  }

  /** A guard in pursuit that has found the player is frozen: no patrol
      branch and no new goto runs. */
  lemma PursuitIsFinal(cfg: GuardConfig, v: GuardVars, inputs: TickInputs)
    requires v.currentState == Pursuit && v.foundPlayer
    ensures Tick(cfg, v, inputs) == Step(v, false)
  {
  }

  /** Over any run of frames, once the player is found and the guard is in
      pursuit, nothing about the guard changes again. */
  lemma {:induction false} LatchIsPermanent(cfg: GuardConfig, v: GuardVars, frames: seq<TickInputs>)
    requires v.currentState == Pursuit && v.foundPlayer
    ensures Run(cfg, v, frames) == v
    decreases |frames|
  {
    if |frames| > 0 {
      PursuitIsFinal(cfg, v, frames[0]);
      LatchIsPermanent(cfg, v, frames[1..]);
    }
  }

  /** A guard whose `foundPlayer` is set is in pursuit. */
  predicate LatchConsistent(v: GuardVars)
  {
    v.foundPlayer ==> v.currentState == Pursuit
  }

  /** Every frame keeps `foundPlayer` tied to Pursuit. */
  lemma TickKeepsLatchConsistent(cfg: GuardConfig, v: GuardVars, inputs: TickInputs)
    requires LatchConsistent(v)
    ensures LatchConsistent(Tick(cfg, v, inputs).vars)
  {
  }

  /** Over a run, a sighting in any frame that does not throw leaves the
      guard in pursuit for good. */
  lemma {:induction false} SightingLatchesRun(cfg: GuardConfig, v: GuardVars, frames: seq<TickInputs>, k: nat)
    requires LatchConsistent(v) && k < |frames|
    requires frames[k].sighting.Some?
    requires !Behave(cfg, Run(cfg, v, frames[..k]), frames[k]).faulted
    ensures Run(cfg, v, frames).foundPlayer && Run(cfg, v, frames).currentState == Pursuit
    decreases k
  {
    var w := Tick(cfg, v, frames[0]).vars;
    TickKeepsLatchConsistent(cfg, v, frames[0]);
    if k == 0 {
      if !v.foundPlayer {
        FirstSightingLatches(cfg, v, frames[0]);
      }
      LatchIsPermanent(cfg, w, frames[1..]);
    } else {
      assert frames[..k][1..] == frames[1..][..k - 1];
      SightingLatchesRun(cfg, w, frames[1..], k - 1);
    }
  }

  // ---------------------------------------------------------------------
  // A frame never throws for a well-set-up guard

  /** The behaviour a guard is in or, while Idle, will resume. */
  function Behaviour(v: GuardVars): GuardState
  {
    if v.currentState == Idle then v.previousState else v.currentState
  }

  /** The index fits the behaviour: a looping index is non-negative, and a
      mirrored counter lies in [0, 2(n-1)) on a list that is not a single
      waypoint. */
  predicate IndexFits(cfg: GuardConfig, v: GuardVars)
  {
    var n := |cfg.waypoints|;
    match Behaviour(v)
    case LoopingPatrol => v.currentIndex >= 0
    case MirroredPatrol => n != 1 && (n >= 2 ==> 0 <= v.currentIndex < (n - 1) * 2)
    case _ => true
  }

  /** Under IndexFits no frame throws, and IndexFits holds again after it. */
  lemma TickKeepsIndexFit(cfg: GuardConfig, v: GuardVars, inputs: TickInputs)
    requires IndexFits(cfg, v) && RandomDrawValid(cfg, inputs)
    ensures !Tick(cfg, v, inputs).faulted
    ensures IndexFits(cfg, Tick(cfg, v, inputs).vars)
  {
    var n := |cfg.waypoints|;
    if Behaviour(v) == MirroredPatrol && n >= 2 {
      MirroredAdvanceInRange(v.currentIndex, n);
    }
  }

  // ---------------------------------------------------------------------
  // Travel distance

  /** The length of a polyline: the sum of its consecutive segments. */
  function PathLength(points: seq<Vec3>, dist: (Vec3, Vec3) -> real): (len: real)
    requires forall a, b :: dist(a, b) >= 0.0
    ensures len >= 0.0
    decreases |points|
  {
    if |points| < 2 then 0.0
    else PathLength(points[..|points| - 1], dist) + dist(points[|points| - 2], points[|points| - 1])
  }

  /** A path without corners is the straight segment to the target. */
  lemma DirectPathLength(a: Vec3, b: Vec3, dist: (Vec3, Vec3) -> real)
    requires forall p, q :: dist(p, q) >= 0.0
    ensures PathLength([a, b], dist) == dist(a, b)
  {
    assert [a, b][..1] == [a];
  }

  /** The guard, with the fields its frames update. */
  class Guard {
    const waypoints: seq<Vec3>
    const minTimeToWait: real
    const maxTimeToWait: real
    const patrolSpeed: real
    const alertSpeed: real
    const guardPosition: Vec3

    var currentState: GuardState
    var previousState: GuardState
    var currentIndex: int
    var waited: bool
    var idleTime: real
    var timeToWait: real
    var speed: real
    var foundPlayer: bool
    var destination: Option<Vec3>
    var lookingAround: bool

    function Config(): GuardConfig
    {
      GuardConfig(waypoints, minTimeToWait, maxTimeToWait, patrolSpeed, alertSpeed, guardPosition)
    }

    function Vars(): GuardVars
      reads this
    {
      GuardVars(currentState, previousState, currentIndex, waited, idleTime, timeToWait,
                speed, foundPlayer, destination, lookingAround)
    }

    /** Start: the speeds derive from the agent's speed (alert is twice
        patrol), the guard moves at patrol speed, the waypoints come from its
        manager (none without one) and the post is where it stands. The
        state and index are the ones set in the inspector. */
    constructor (agentSpeed: real, manager: Option<seq<Vec3>>, position: Vec3,
                 minWait: real, maxWait: real, initialState: GuardState,
                 initialPrevious: GuardState, initialIndex: int)
      ensures patrolSpeed == agentSpeed && alertSpeed == agentSpeed * 2.0
      ensures waypoints == (if manager.Some? then manager.value else [])
      ensures guardPosition == position && minTimeToWait == minWait && maxTimeToWait == maxWait
      ensures Vars() == GuardVars(initialState, initialPrevious, initialIndex, false, 0.0, 0.0,
                                  agentSpeed, false, None, false)
    {
      patrolSpeed := agentSpeed;
      alertSpeed := agentSpeed * 2.0;
      waypoints := if manager.Some? then manager.value else [];
      guardPosition := position;
      minTimeToWait := minWait;
      maxTimeToWait := maxWait;
      currentState := initialState;
      previousState := initialPrevious;
      currentIndex := initialIndex;
      waited := false;
      idleTime := 0.0;
      timeToWait := 0.0;
      speed := agentSpeed;
      foundPlayer := false;
      destination := None;
      lookingAround := false;
    }

    method StartWaitingNow(waitSample: real)
      modifies this
      ensures Vars() == StartWaiting(Config(), old(Vars()), waitSample)
    {
      idleTime := 0.0;
      timeToWait := Lerp(minTimeToWait, maxTimeToWait, waitSample);
      previousState := currentState;
      currentState := Idle;
      lookingAround := true;
    }

    method WaitingNow(deltaTime: real)
      modifies this
      ensures Vars() == Waiting(old(Vars()), deltaTime)
    {
      idleTime := idleTime + deltaTime;
      if idleTime >= timeToWait {
        waited := true;
        currentState := previousState;
        previousState := Idle;
      }
    }

    method OnLoopingPatrol(inputs: TickInputs) returns (faulted: bool)
      modifies this
      ensures Step(Vars(), faulted) == LoopingStep(Config(), old(Vars()), inputs)
    {
      faulted := false;
      if |waypoints| == 0 {
        return;
      }
      if ReachedDestination(inputs.agent) {
        if !waited {
          StartWaitingNow(inputs.waitSample);
        } else {
          currentIndex := currentIndex + 1;
          currentIndex := CsRem(currentIndex, |waypoints|);
          if !(0 <= currentIndex < |waypoints|) {
            return true;
          }
          destination := Some(waypoints[currentIndex]);
          speed := patrolSpeed;
          waited := false;
        }
      }
    }

    method OnMirroredPatrol(inputs: TickInputs) returns (faulted: bool)
      modifies this
      ensures Step(Vars(), faulted) == MirroredStep(Config(), old(Vars()), inputs)
    {
      faulted := false;
      var n := |waypoints|;
      if n == 0 {
        return;
      }
      if ReachedDestination(inputs.agent) {
        if !waited {
          StartWaitingNow(inputs.waitSample);
        } else {
          currentIndex := currentIndex + 1;
          if currentIndex == (n - 1) * 2 {
            currentIndex := 0;
          }
          var mirroredIndex := currentIndex;
          if currentIndex >= n {
            currentIndex := (n - 1) * 2 - mirroredIndex;
          }
          if !(0 <= currentIndex < n) {
            return true;
          }
          destination := Some(waypoints[currentIndex]);
          currentIndex := mirroredIndex;
          speed := patrolSpeed;
          waited := false;
        }
      }
    }

    method OnRandomPatrol(inputs: TickInputs) returns (faulted: bool)
      requires RandomDrawValid(Config(), inputs)
      modifies this
      ensures !faulted
      ensures Step(Vars(), faulted) == RandomStep(Config(), old(Vars()), inputs)
    {
      faulted := false;
      if |waypoints| == 0 {
        return;
      }
      if ReachedDestination(inputs.agent) {
        if !waited {
          StartWaitingNow(inputs.waitSample);
        } else {
          currentIndex := inputs.randomIndex;
          destination := Some(waypoints[currentIndex]);
          speed := patrolSpeed;
          waited := false;
        }
      }
    }

    method GuardStance(inputs: TickInputs)
      modifies this
      ensures Step(Vars(), false) == GuardStanceStep(Config(), old(Vars()), inputs)
    {
      if ReachedDestination(inputs.agent) {
        if !waited {
          StartWaitingNow(inputs.waitSample);
        } else {
          destination := Some(guardPosition);
          waited := false;
        }
      }
    }

    /** One frame of the guard: its behaviour, then the detection check. */
    method Update(inputs: TickInputs) returns (faulted: bool)
      requires RandomDrawValid(Config(), inputs)
      modifies this
      ensures Step(Vars(), faulted) == Tick(Config(), old(Vars()), inputs)
    {
      faulted := false;
      match currentState {
        case Idle => WaitingNow(inputs.deltaTime);
        case LoopingPatrol => faulted := OnLoopingPatrol(inputs);
        case MirroredPatrol => faulted := OnMirroredPatrol(inputs);
        case RandomPatrol => faulted := OnRandomPatrol(inputs);
        case Guard => GuardStance(inputs);
        case Pursuit =>
      }
      if faulted {
        return;
      }
      if inputs.sighting.Some? && !foundPlayer {
        foundPlayer := true;
        currentState := Pursuit;
        speed := alertSpeed;
        destination := inputs.sighting;
      }
    }

    /** Send the guard to a point at alert speed; the behaviour state is
        left as it is. */
    method Investigate(worldPosition: Vec3)
      modifies this
      ensures Vars() == old(Vars()).(destination := Some(worldPosition), speed := alertSpeed)
    {
      destination := Some(worldPosition);
      speed := alertSpeed;
    }

    /** The distance the guard would walk to `target`: the sum of the
        segments from its position through the path's corners to the
        target, or Infinity when no path exists. */
    method GetTravelDistanceToPoint(position: Vec3, pathFound: bool, corners: seq<Vec3>,
                                    target: Vec3, dist: (Vec3, Vec3) -> real) returns (r: Dist)
      requires forall a, b :: dist(a, b) >= 0.0
      ensures !pathFound <==> r == Infinity
      ensures pathFound ==> r == Finite(PathLength([position] + corners + [target], dist))
      ensures pathFound ==> r.d >= 0.0
    {
      if !pathFound {
        return Infinity;
      }
      var points := new Vec3[|corners| + 2](_ => position);
      points[0] := position;
      points[points.Length - 1] := target;
      for i := 0 to |corners|
        invariant points[0] == position && points[points.Length - 1] == target
        invariant forall j | 0 <= j < i :: points[j + 1] == corners[j]
      {
        points[i + 1] := corners[i];
      }
      ghost var path := [position] + corners + [target];
      assert points[..] == path;
      var totalDistance := 0.0;
      for i := 0 to points.Length - 1
        invariant totalDistance == PathLength(path[..i + 1], dist)
      {
        assert path[..i + 2][..i + 1] == path[..i + 1];
        totalDistance := totalDistance + dist(points[i], points[i + 1]);
      }
      assert path[..points.Length] == path;
      return Finite(totalDistance);
    }
  }
}
