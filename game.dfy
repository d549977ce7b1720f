/** The hacking console: shows the beats of a story one at a time and
    follows the player's numbered choices. */
module GameConsole {
  import opened Unity
  import opened StoryData

  /** UnityEngine.KeyCode values read by the console. */
  const Escape := 27
  const Alpha1 := 49
  const Alpha9 := 57
  const Keypad1 := 257
  const Keypad9 := 265

  /** The choice a frame's key presses select, scanning the choices from
      `count` on: choice k answers to Alpha(k+1) or Keypad(k+1), only while
      those key codes do not go past 9, and the lowest pressed one wins. */
  function FirstPressed(choices: nat, keysDown: set<int>, count: nat): (r: Option<nat>)
    requires count <= choices
    decreases choices - count
    ensures r.Some? ==> count <= r.value < choices && r.value < 9
    ensures r.Some? ==> Pressed(keysDown, r.value)
    ensures r.Some? ==> forall j | count <= j < r.value :: !Pressed(keysDown, j)
    ensures r.None? ==> forall j | count <= j < choices && j < 9 :: !Pressed(keysDown, j)
  {
    if count == choices then None
    else if Alpha1 + count <= Alpha9 && Keypad1 + count <= Keypad9
         && (Alpha1 + count in keysDown || Keypad1 + count in keysDown)
    then Some(count)
    else FirstPressed(choices, keysDown, count + 1)
  }

  /** Number key k+1 is down this frame, on the main row or the keypad. */
  predicate Pressed(keysDown: set<int>, k: int)
  {
    Alpha1 + k in keysDown || Keypad1 + k in keysDown
  }

  /** The lines listed under a beat with several choices: "k: text" for the
      k-th choice, numbered from 1. */
  datatype ChoiceLine = ChoiceLine(number: int, text: string)

  /** What the display coroutine ends with, once the beat's text is shown. */
  datatype DisplayOutcome =
    | Listed(lines: seq<ChoiceLine>)   // several choices: listed, then wait for input
    | Advanced(nextId: int)            // at most one choice: follow choice 0 after a pause
    | Fault                            // a null beat or an empty choice list: the coroutine dies

  class Game {
    var data: seq<BeatData>
    var currentBeat: Option<BeatData>
    var acceptInput: bool
    var quitRequested: bool
    /** The beat argument of every display coroutine started, oldest first. */
    var displayRuns: seq<Option<BeatData>>

    /** Awake: input is refused until the level enables it, no beat is current. */
    constructor (story: seq<BeatData>)
      ensures data == story && currentBeat == None && !acceptInput
      ensures !quitRequested && displayRuns == []
    {
      data := story;
      currentBeat := None;
      acceptInput := false;
      quitRequested := false;
      displayRuns := [];
    }

    method SetAcceptingInput(takeInput: bool)
      modifies this
      ensures acceptInput == takeInput
      ensures data == old(data) && currentBeat == old(currentBeat)
      ensures quitRequested == old(quitRequested) && displayRuns == old(displayRuns)
    {
      acceptInput := takeInput;
    }

    /** The text of the current beat, or "" when there is none. */
    function GetCurrentBeatText(): (text: string)
      reads this
      ensures currentBeat.None? ==> text == ""
      ensures currentBeat.Some? ==> text == currentBeat.value.displayText
    {
      if currentBeat.Some? then currentBeat.value.displayText else ""
    }

    /** Look the beat up by id, start displaying it and make it current
        (None when the story has no beat with that id). */
    method DisplayBeat(id: int)
      modifies this
      ensures currentBeat == GetBeatById(data, id)
      ensures displayRuns == old(displayRuns) + [GetBeatById(data, id)]
      ensures data == old(data) && acceptInput == old(acceptInput)
      ensures quitRequested == old(quitRequested)
    {
      var beat := GetBeatById(data, id);
      displayRuns := displayRuns + [beat];
      currentBeat := beat;
    }

    /** A story given to the console replaces the current one and shows its
        beat 1; a null story is ignored. */
    method SetConsoleInformation(information: Option<seq<BeatData>>)
      modifies this
      ensures information.None? ==>
        data == old(data) && currentBeat == old(currentBeat) && displayRuns == old(displayRuns)
      ensures information.Some? ==>
        data == information.value && currentBeat == GetBeatById(data, 1)
        && displayRuns == old(displayRuns) + [currentBeat]
      ensures acceptInput == old(acceptInput) && quitRequested == old(quitRequested)
    {
      if information.Some? {
        data := information.value;
        DisplayBeat(1);
      }
    }

    /** One frame of keyboard input while a beat is current: Escape returns
        to beat 1 (or quits on beat 1), otherwise the lowest pressed number
        key that names a choice follows that choice. */
    method UpdateInput(keysDown: set<int>)
      requires currentBeat.Some?
      modifies this
      ensures data == old(data) && acceptInput == old(acceptInput)
      ensures !old(acceptInput) ==>
        currentBeat == old(currentBeat) && displayRuns == old(displayRuns)
        && quitRequested == old(quitRequested)
      ensures old(acceptInput) && Escape in keysDown && old(currentBeat).value.id == 1 ==>
        quitRequested && currentBeat == old(currentBeat) && displayRuns == old(displayRuns)
      ensures old(acceptInput) && Escape in keysDown && old(currentBeat).value.id != 1 ==>
        currentBeat == GetBeatById(data, 1) && displayRuns == old(displayRuns) + [currentBeat]
        && quitRequested == old(quitRequested)
      ensures old(acceptInput) && Escape !in keysDown ==> quitRequested == old(quitRequested)
      ensures old(acceptInput) && Escape !in keysDown ==>
        var choices := old(currentBeat).value.decision;
        match FirstPressed(|choices|, keysDown, 0)
        case None => currentBeat == old(currentBeat) && displayRuns == old(displayRuns)
        case Some(k) =>
          currentBeat == GetBeatById(data, choices[k].nextId)
          && displayRuns == old(displayRuns) + [currentBeat]
    {
      if !acceptInput {
        return;
      }
      if Escape in keysDown {
        if currentBeat.value.id == 1 {
          quitRequested := true;
        } else {
          DisplayBeat(1);
        }
      } else {
        var choices := currentBeat.value.decision;
        var alpha, keypad := Alpha1, Keypad1;
        var count := 0;
        while count < |choices|
          invariant 0 <= count <= |choices|
          invariant alpha == Alpha1 + count && keypad == Keypad1 + count
          invariant FirstPressed(|choices|, keysDown, 0) == FirstPressed(|choices|, keysDown, count)
          invariant currentBeat == old(currentBeat) && displayRuns == old(displayRuns)
          invariant data == old(data) && acceptInput == old(acceptInput)
          invariant quitRequested == old(quitRequested)
        {
          if alpha <= Alpha9 && keypad <= Keypad9 {
            if alpha in keysDown || keypad in keysDown {
              DisplayBeat(choices[count].nextId);
              return;
            }
          }
          alpha, keypad := alpha + 1, keypad + 1;
          count := count + 1;
        }
      }
    }

    /** The end of the display coroutine for `shown`: a beat with more than
        one choice lists them numbered from 1; otherwise the console follows
        choice 0 of the current beat, which fails on a beat without choices. */
    method FinishDisplay(shown: Option<BeatData>) returns (outcome: DisplayOutcome)
      modifies this
      ensures data == old(data) && acceptInput == old(acceptInput)
      ensures quitRequested == old(quitRequested)
      ensures shown.None? ==>
        outcome == Fault && currentBeat == old(currentBeat) && displayRuns == old(displayRuns)
      ensures shown.Some? && |shown.value.decision| > 1 ==>
        outcome.Listed? && |outcome.lines| == |shown.value.decision|
        && (forall k | 0 <= k < |outcome.lines| ::
              outcome.lines[k] == ChoiceLine(k + 1, shown.value.decision[k].displayText))
        && currentBeat == old(currentBeat) && displayRuns == old(displayRuns)
      ensures shown.Some? && |shown.value.decision| <= 1 ==>
        if old(currentBeat).None? || |old(currentBeat).value.decision| == 0 then
          outcome == Fault && currentBeat == old(currentBeat) && displayRuns == old(displayRuns)
        else
          var next := old(currentBeat).value.decision[0].nextId;
          outcome == Advanced(next) && currentBeat == GetBeatById(data, next)
          && displayRuns == old(displayRuns) + [currentBeat]
    {
      if shown.None? {
        return Fault;
      }
      var choices := shown.value.decision;
      if |choices| > 1 {
        var lines := [];
        for count := 0 to |choices|
          invariant |lines| == count
          invariant forall k | 0 <= k < count :: lines[k] == ChoiceLine(k + 1, choices[k].displayText)
        {
          lines := lines + [ChoiceLine(count + 1, choices[count].displayText)];
        }
        outcome := Listed(lines);
      } else if currentBeat.None? || |currentBeat.value.decision| == 0 {
        outcome := Fault;
      } else {
        var next := currentBeat.value.decision[0].nextId;
        DisplayBeat(next);
        outcome := Advanced(next);
      }
    }

    /** One frame: once the display is idle, show beat 1 if nothing is
        current, else read the keyboard. */
    method Update(outputIdle: bool, keysDown: set<int>)
      modifies this
      ensures data == old(data) && acceptInput == old(acceptInput)
      ensures !outputIdle ==>
        currentBeat == old(currentBeat) && displayRuns == old(displayRuns)
        && quitRequested == old(quitRequested)
      ensures outputIdle && old(currentBeat).None? ==>
        currentBeat == GetBeatById(data, 1) && displayRuns == old(displayRuns) + [currentBeat]
        && quitRequested == old(quitRequested)
      ensures outputIdle && old(currentBeat).Some? && !acceptInput ==>
        currentBeat == old(currentBeat) && displayRuns == old(displayRuns)
        && quitRequested == old(quitRequested)
    {
      if outputIdle {
        if currentBeat.None? {
          DisplayBeat(1);
        } else {
          UpdateInput(keysDown);
        }
      }
    }
  }

  /** With keys 1 and 3 held over a beat of three choices, the first choice
      is taken; over a beat of ten choices, "0" (past 9) selects nothing. */
  lemma LowestKeyWins()
    ensures FirstPressed(3, {Alpha1 + 0, Keypad1 + 2}, 0) == Some(0)
    ensures FirstPressed(12, {Alpha1 + 9, Keypad1 + 10}, 0) == None
  {
  }
}
