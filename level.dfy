/** The level's bookkeeping: the game state, and the two one-shot latches
    that start the failure sequence (player detected) and the completion
    sequence (player reached the end point). The sequences themselves are
    coroutines; the model counts how many of each were started. */
module Level {
  import opened Unity

  datatype GameState = Intro | Playing | Paused | Caught

  /** The level manager's fields, and how many intro, failure and
      completion sequences it has started. */
  datatype LevelVars = LevelVars(
    currentState: GameState,
    detected: bool,
    complete: bool,
    introRuns: nat,
    failureRuns: nat,
    completionRuns: nat)

  /** The state after a frame, and whether the frame threw. */
  datatype Frame = Frame(vars: LevelVars, faulted: bool)

  /** PlayerDetected: the first call latches `detected` and starts the
      failure sequence; later calls do nothing. */
  function Detect(v: LevelVars): LevelVars
  {
    if !v.detected then v.(detected := true, failureRuns := v.failureRuns + 1) else v
  }

  /** SwitchCurrentState: the state is always assigned; only Intro starts
      the intro sequence. */
  function SwitchState(v: LevelVars, s: GameState): LevelVars
  {
    v.(currentState := s, introRuns := if s == Intro then v.introRuns + 1 else v.introRuns)
  }

  /** CheckLevelComplete: ask the end point whether the level is complete
      (`areaReached` is None when no end point is set, which throws) and
      latch `complete`, starting the completion sequence once. */
  function CheckComplete(v: LevelVars, areaReached: Option<bool>): Frame
  {
    if areaReached.None? then Frame(v, true)
    else if areaReached.value && !v.complete then
      Frame(v.(complete := true, completionRuns := v.completionRuns + 1), false)
    else Frame(v, false)
  }

  /** RunCurrentState: completion is checked only while Playing. */
  function RunState(v: LevelVars, areaReached: Option<bool>): Frame
  {
    if v.currentState == Playing then CheckComplete(v, areaReached) else Frame(v, false)
  }

  /** SetUpLevel: clears `detected`. */
  function SetUp(v: LevelVars): LevelVars
  {
    v.(detected := false)
  }

  /** Start: switch to Intro, then set the level up. */
  function Start(initial: GameState): LevelVars
  {
    SetUp(SwitchState(LevelVars(initial, false, false, 0, 0, 0), Intro))
  }

  /** What can happen to a running level. */
  datatype LevelEvent =
    | Spotted                         // a detector reports the player
    | Tick(areaReached: Option<bool>) // one frame, with the end point's answer
    | Switch(state: GameState)        // a state change

  function Apply(v: LevelVars, e: LevelEvent): LevelVars
  {
    match e
    case Spotted => Detect(v)
    case Tick(a) => RunState(v, a).vars
    case Switch(s) => SwitchState(v, s)
  }

  function Replay(v: LevelVars, events: seq<LevelEvent>): LevelVars
    decreases |events|
  {
    if |events| == 0 then v else Replay(Apply(v, events[0]), events[1..])
  }

  /** Each latch has started its sequence exactly once if set, never if not. */
  predicate SequencesMatchLatches(v: LevelVars)
  {
    && v.failureRuns == (if v.detected then 1 else 0)
    && v.completionRuns == (if v.complete then 1 else 0)
  }

  /** After Start nothing has been started but the intro. */
  lemma StartState(initial: GameState)
    ensures Start(initial) == LevelVars(Intro, false, false, 1, 0, 0)
    ensures SequencesMatchLatches(Start(initial))
  {
  }

  /** A second detection changes nothing; the latch never clears. */
  lemma DetectIsOneShot(v: LevelVars)
    ensures Detect(v).detected
    ensures Detect(Detect(v)) == Detect(v)
    ensures v.detected ==> Detect(v) == v
    ensures !v.detected ==> Detect(v).failureRuns == v.failureRuns + 1
  {
  }

  /** Completion is checked only while Playing, and is latched only when the
      end point reports the player. */
  lemma CompletionOnlyWhilePlaying(v: LevelVars, areaReached: Option<bool>)
    ensures v.currentState != Playing ==> RunState(v, areaReached) == Frame(v, false)
    ensures RunState(v, areaReached).vars.complete ==> v.complete || areaReached == Some(true)
    ensures v.complete ==> RunState(v, areaReached).vars.completionRuns == v.completionRuns
  {
  }

  /** Over any sequence of events after Start, the failure and completion
      sequences each start at most once, exactly when their latch is set. */
  lemma {:induction false} ReplayStartsEachSequenceOnce(v: LevelVars, events: seq<LevelEvent>)
    requires SequencesMatchLatches(v)
    ensures SequencesMatchLatches(Replay(v, events))
    ensures Replay(v, events).failureRuns <= 1 && Replay(v, events).completionRuns <= 1
    ensures v.detected ==> Replay(v, events).detected
    ensures v.complete ==> Replay(v, events).complete
    decreases |events|
  {
    if |events| > 0 {
      var w := Apply(v, events[0]);
      assert SequencesMatchLatches(w);
      ReplayStartsEachSequenceOnce(w, events[1..]);
    }
  }

  /** The trigger volume at the end of the level. */
  class LevelEndPoint {
    var reachedEndPoint: bool

    /** Start: not yet reached. */
    constructor ()
      ensures !reachedEndPoint
    {
      reachedEndPoint := false;
    }

    /** A collider enters: the flag latches when it carries a Player, and
        nothing ever clears it. */
    method OnTriggerEnter(hasPlayer: bool)
      modifies this
      ensures reachedEndPoint == (old(reachedEndPoint) || hasPlayer)
    {
      if hasPlayer {
        reachedEndPoint := true;
      }
    }

    function IsLevelComplete(): (complete: bool)
      reads this
      ensures complete <==> reachedEndPoint
    {
      reachedEndPoint
    }
  }

  /** Folding a run of trigger entries over the end point's flag: it is set
      exactly when it was set before or some entering collider carried a
      Player. */
  function AfterEntries(reached: bool, entries: seq<bool>): bool
    decreases |entries|
  {
    if |entries| == 0 then reached else AfterEntries(reached || entries[0], entries[1..])
  }

  lemma {:induction false} AfterEntriesLatches(reached: bool, entries: seq<bool>)
    ensures AfterEntries(reached, entries) <==>
      reached || exists i | 0 <= i < |entries| :: entries[i]
    decreases |entries|
  {
    if |entries| > 0 {
      AfterEntriesLatches(reached || entries[0], entries[1..]);
      if exists i | 0 <= i < |entries[1..]| :: entries[1..][i] {
        var i :| 0 <= i < |entries[1..]| && entries[1..][i];
        assert entries[i + 1];
      }
      if exists i | 0 <= i < |entries| :: entries[i] {
        var i :| 0 <= i < |entries| && entries[i];
        if i > 0 {
          assert entries[1..][i - 1];
        }
      }
    }
  }

  class LevelManager {
    var currentState: GameState
    var detected: bool
    var complete: bool
    var introRuns: nat
    var failureRuns: nat
    var completionRuns: nat
    /** The end point set in the inspector (null when missing). */
    const endLevelArea: LevelEndPoint?

    function Vars(): LevelVars
      reads this
    {
      LevelVars(currentState, detected, complete, introRuns, failureRuns, completionRuns)
    }

    /** The end point's answer, or None without an end point. */
    function AreaReached(): Option<bool>
      reads this, endLevelArea
    {
      if endLevelArea == null then None else Some(endLevelArea.IsLevelComplete())
    }

    /** Start: switch to Intro (starting the intro) and set the level up. */
    constructor (initial: GameState, area: LevelEndPoint?)
      ensures endLevelArea == area
      ensures Vars() == Start(initial)
    {
      endLevelArea := area;
      currentState := initial;
      detected := false;
      complete := false;
      introRuns, failureRuns, completionRuns := 0, 0, 0;
      new;
      SwitchCurrentState(GameState.Intro);
      SetUpLevel();
    }

    method SetUpLevel()
      modifies this
      ensures Vars() == SetUp(old(Vars()))
    {
      detected := false;
    }

    method SwitchCurrentState(state: GameState)
      modifies this
      ensures Vars() == SwitchState(old(Vars()), state)
    {
      currentState := state;
      match currentState {
        case Intro => introRuns := introRuns + 1;
        case Playing =>
        case Paused =>
        case Caught =>
      }
    }

    method PlayerDetected()
      modifies this
      ensures Vars() == Detect(old(Vars()))
    {
      if !detected {
        detected := true;
        failureRuns := failureRuns + 1;
      }
    }

    method CheckLevelComplete() returns (faulted: bool)
      modifies this
      ensures Frame(Vars(), faulted) == CheckComplete(old(Vars()), old(AreaReached()))
    {
      if endLevelArea == null {
        return true;
      }
      faulted := false;
      if endLevelArea.IsLevelComplete() && !complete {
        complete := true;
        completionRuns := completionRuns + 1;
      }
    }

    /** One frame of the level. */
    method Update() returns (faulted: bool)
      modifies this
      ensures Frame(Vars(), faulted) == RunState(old(Vars()), old(AreaReached()))
    {
      faulted := false;
      match currentState {
        case Intro =>
        case Playing => faulted := CheckLevelComplete();
        case Paused =>
        case Caught =>
      }
    }
  }
}
