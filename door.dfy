/** The sliding door: opens while a character stands in its box, closes
    otherwise; a lock stops it opening but not closing. How far it is open
    is a fraction in [0, 1]. */
module Doors {
  import opened Unity

  datatype DoorState = Closed | Open

  datatype DoorVars = DoorVars(state: DoorState, locked: bool, openPercentage: real)

  /** OpenDoor: nothing when locked or fully open; otherwise advance by
      deltaTime * transitionSpeed and clamp (once per panel). */
  function Opening(v: DoorVars, deltaTime: real, transitionSpeed: real): DoorVars
  {
    if v.locked || v.openPercentage >= 1.0 then v
    else v.(openPercentage := Clamp01(Clamp01(v.openPercentage + deltaTime * transitionSpeed)))
  }

  /** CloseDoor: nothing when fully closed; otherwise retreat and clamp.
      The lock is not consulted. */
  function Closing(v: DoorVars, deltaTime: real, transitionSpeed: real): DoorVars
  {
    if v.openPercentage <= 0.0 then v
    else v.(openPercentage := Clamp01(Clamp01(v.openPercentage - deltaTime * transitionSpeed)))
  }

  /** CheckForCharacter: Open when some overlapping collider carries a
      character, Closed otherwise. */
  function Sensed(overlapHasCharacter: seq<bool>): DoorState
  {
    if true in overlapHasCharacter then Open else Closed
  }

  /** One frame of the door. */
  function Frame(v: DoorVars, overlapHasCharacter: seq<bool>, deltaTime: real, transitionSpeed: real): DoorVars
  {
    var w := v.(state := Sensed(overlapHasCharacter));
    match w.state
    case Closed => Closing(w, deltaTime, transitionSpeed)
    case Open => Opening(w, deltaTime, transitionSpeed)
  }

  predicate InUnit(x: real)
  {
    0.0 <= x <= 1.0
  }

  /** The open fraction stays in [0, 1] from frame to frame, and the state
      is what the box sensed. */
  lemma FrameKeepsFractionInUnit(v: DoorVars, overlapHasCharacter: seq<bool>, deltaTime: real, transitionSpeed: real)
    requires InUnit(v.openPercentage)
    ensures var w := Frame(v, overlapHasCharacter, deltaTime, transitionSpeed);
      InUnit(w.openPercentage) && w.state == Sensed(overlapHasCharacter) && w.locked == v.locked
  {
  }

  /** A locked door never opens further; closing ignores the lock. */
  lemma LockBlocksOpeningOnly(v: DoorVars, deltaTime: real, transitionSpeed: real)
    requires v.locked
    ensures Opening(v, deltaTime, transitionSpeed) == v
    ensures Closing(v, deltaTime, transitionSpeed) == Closing(v.(locked := false), deltaTime, transitionSpeed).(locked := true)
  {
  }

  /** With a non-negative step, a door with a character in its box (and no
      lock) never closes further, and a door with an empty box never opens
      further. */
  lemma FrameIsMonotone(v: DoorVars, overlapHasCharacter: seq<bool>, deltaTime: real, transitionSpeed: real)
    requires InUnit(v.openPercentage) && deltaTime >= 0.0 && transitionSpeed >= 0.0
    ensures var w := Frame(v, overlapHasCharacter, deltaTime, transitionSpeed);
      && (true in overlapHasCharacter ==> v.openPercentage <= w.openPercentage)
      && (true !in overlapHasCharacter ==> w.openPercentage <= v.openPercentage)
      && (true in overlapHasCharacter && v.locked ==> w.openPercentage == v.openPercentage)
  {
    MulNonNegative(deltaTime, transitionSpeed);
  }

  /** A run of frames with the same sensing and a positive step. */
  function Frames(v: DoorVars, overlapHasCharacter: seq<bool>, deltaTime: real, transitionSpeed: real, k: nat): DoorVars
  {
    if k == 0 then v else Frame(Frames(v, overlapHasCharacter, deltaTime, transitionSpeed, k - 1),
                                overlapHasCharacter, deltaTime, transitionSpeed)
  }

  /** An unlocked door with a character in its box is fully open after
      enough frames: each frame opens it by `step` until it reaches 1. */
  lemma {:induction false} OpensFully(v: DoorVars, overlapHasCharacter: seq<bool>, deltaTime: real, transitionSpeed: real, k: nat)
    requires InUnit(v.openPercentage) && !v.locked && true in overlapHasCharacter
    requires deltaTime * transitionSpeed > 0.0
    ensures var w := Frames(v, overlapHasCharacter, deltaTime, transitionSpeed, k);
      && InUnit(w.openPercentage) && !w.locked
      && (w.openPercentage == 1.0 || w.openPercentage >= v.openPercentage + Times(k, deltaTime * transitionSpeed))
  {
    if k > 0 {
      OpensFully(v, overlapHasCharacter, deltaTime, transitionSpeed, k - 1);
      var step := deltaTime * transitionSpeed;
      var u := Frames(v, overlapHasCharacter, deltaTime, transitionSpeed, k - 1);
      var w := Frame(u, overlapHasCharacter, deltaTime, transitionSpeed);
      assert Frames(v, overlapHasCharacter, deltaTime, transitionSpeed, k) == w;
      if u.openPercentage < 1.0 {
        assert w.openPercentage == Clamp01(u.openPercentage + step);
      } else {
        assert w.openPercentage == u.openPercentage;
      }
    }
  }

  class Door {
    var state: DoorState
    var locked: bool
    var openPercentage: real
    const transitionSpeed: real

    function Vars(): DoorVars
      reads this
    {
      DoorVars(state, locked, openPercentage)
    }

    /** A door as placed in the scene: its inspector state and lock, fully
        closed (the fraction starts at 0). */
    constructor (initialState: DoorState, initiallyLocked: bool, speed: real)
      ensures Vars() == DoorVars(initialState, initiallyLocked, 0.0)
      ensures transitionSpeed == speed
    {
      state, locked, openPercentage := initialState, initiallyLocked, 0.0;
      transitionSpeed := speed;
    }

    method Update(overlapHasCharacter: seq<bool>, deltaTime: real)
      modifies this
      ensures Vars() == Frame(old(Vars()), overlapHasCharacter, deltaTime, transitionSpeed)
    {
      CheckForCharacter(overlapHasCharacter);
      match state {
        case Closed => CloseDoor(deltaTime);
        case Open => OpenDoor(deltaTime);
      }
    }

    method OpenDoor(deltaTime: real)
      modifies this
      ensures Vars() == Opening(old(Vars()), deltaTime, transitionSpeed)
    {
      if locked || openPercentage >= 1.0 {
        return;
      }
      openPercentage := openPercentage + deltaTime * transitionSpeed;
      MoveDoor(openPercentage);
      MoveDoor(openPercentage);
    }

    method CloseDoor(deltaTime: real)
      modifies this
      ensures Vars() == Closing(old(Vars()), deltaTime, transitionSpeed)
    {
      if openPercentage <= 0.0 {
        return;
      }
      openPercentage := openPercentage - deltaTime * transitionSpeed;
      MoveDoor(openPercentage);
      MoveDoor(openPercentage);
    }

    /** Place one panel: the fraction is clamped to [0, 1] first. */
    method MoveDoor(fraction: real)
      modifies this
      ensures openPercentage == Clamp01(fraction) && InUnit(openPercentage)
      ensures state == old(state) && locked == old(locked)
    {
      openPercentage := Clamp01(fraction);
    }

    method LockDoor(lock: bool)
      modifies this
      ensures Vars() == old(Vars()).(locked := lock)
    {
      locked := lock;
    }

    method SetDoorState(newState: DoorState)
      modifies this
      ensures Vars() == old(Vars()).(state := newState)
    {
      state := newState;
    }

    /** Scan the colliders overlapping the door's box, opening on the first
        that carries a character. */
    method CheckForCharacter(overlapHasCharacter: seq<bool>)
      modifies this
      ensures Vars() == old(Vars()).(state := Sensed(overlapHasCharacter))
    {
      for i := 0 to |overlapHasCharacter|
        invariant true !in overlapHasCharacter[..i]
        invariant Vars() == old(Vars())
      {
        if overlapHasCharacter[i] {
          SetDoorState(Open);
          return;
        }
        assert overlapHasCharacter[..i + 1] == overlapHasCharacter[..i] + [overlapHasCharacter[i]];
      }
      assert overlapHasCharacter[..|overlapHasCharacter|] == overlapHasCharacter;
      SetDoorState(Closed);
    }
  }
}
