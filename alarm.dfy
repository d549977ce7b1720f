/** The alarm device: an edge-triggered alarm that, when it starts ringing,
    sends the guard with the shortest walk to its turn-off point, and goes
    silent again once a guard stands in its detection box. */
module Alarms {
  import opened Unity
  import GuardPatrol

  /** The alarm's state and how many guard alerts it has started. */
  datatype AlarmVars = AlarmVars(triggered: bool, alertsStarted: nat)

  /** TriggeredAlarm: nothing when the requested state is the current one;
      otherwise switch, and start a guard alert on a false-to-true edge. */
  function Trigger(v: AlarmVars, on: bool): AlarmVars
  {
    if v.triggered == on then v
    else AlarmVars(on, if on then v.alertsStarted + 1 else v.alertsStarted)
  }

  /** SetAlarmUp: force the flag on, then request silence, so the alarm ends
      silent without starting an alert. */
  function SetUp(v: AlarmVars): AlarmVars
  {
    Trigger(v.(triggered := true), false)
  }

  /** The device-state rule: text containing "Ringing" rings the alarm,
      otherwise text containing "Silenced" silences it, otherwise nothing. */
  function DeviceState(v: AlarmVars, stateInfo: string): AlarmVars
  {
    if Contains(stateInfo, "Ringing") then Trigger(v, true)
    else if Contains(stateInfo, "Silenced") then Trigger(v, false)
    else v
  }

  /** Requesting the same state twice is the same as once, and an alert is
      started exactly on a false-to-true edge. */
  lemma TriggerIsEdgeTriggered(v: AlarmVars, on: bool)
    ensures Trigger(v, on).triggered == on
    ensures Trigger(Trigger(v, on), on) == Trigger(v, on)
    ensures Trigger(v, on).alertsStarted == v.alertsStarted + (if on && !v.triggered then 1 else 0)
  {
  }

  /** Setting the alarm up leaves it silent and starts no alert. */
  lemma SetUpIsSilent(v: AlarmVars)
    ensures SetUp(v) == AlarmVars(false, v.alertsStarted)
  {
  }

  /** The device-state rule for any text: "Ringing" rings the alarm
      whatever else the text holds, "Silenced" alone silences it, other
      text changes nothing; an alert starts only when a silent alarm is
      told to ring, and applying the same text twice is applying it once. */
  lemma DeviceStateRule(v: AlarmVars, stateInfo: string)
    ensures Contains(stateInfo, "Ringing") ==> DeviceState(v, stateInfo) == Trigger(v, true)
    ensures Contains(stateInfo, "Ringing") ==> DeviceState(v, stateInfo).triggered
    ensures !Contains(stateInfo, "Ringing") && Contains(stateInfo, "Silenced") ==>
      DeviceState(v, stateInfo) == AlarmVars(false, v.alertsStarted)
    ensures !Contains(stateInfo, "Ringing") && !Contains(stateInfo, "Silenced") ==> DeviceState(v, stateInfo) == v
    ensures DeviceState(v, stateInfo).alertsStarted > v.alertsStarted ==>
      Contains(stateInfo, "Ringing") && !v.triggered && DeviceState(v, stateInfo).alertsStarted == v.alertsStarted + 1
    ensures DeviceState(DeviceState(v, stateInfo), stateInfo) == DeviceState(v, stateInfo)
  {
    TriggerIsEdgeTriggered(v, true);
    TriggerIsEdgeTriggered(v, false);
  }

  /** Examples of the rule: a text holding both words rings, "Silenced"
      alone silences, and a text with neither word changes nothing. */
  lemma RingingBeatsSilenced(v: AlarmVars)
    ensures DeviceState(v, "Silenced, Ringing") == Trigger(v, true)
    ensures DeviceState(v, "Silenced") == Trigger(v, false)
    ensures DeviceState(v, "Standby") == v
  {
    assert OccursAt("Silenced, Ringing", "Ringing", 10);
    assert OccursAt("Silenced", "Silenced", 0);
    FirstCharAbsent("Silenced", "Ringing");
    FirstCharAbsent("Standby", "Ringing");
  }

  /** The number of false-to-true edges in a run of requests. */
  function RisingEdges(on: bool, requests: seq<bool>): nat
    decreases |requests|
  {
    if |requests| == 0 then 0
    else (if requests[0] && !on then 1 else 0) + RisingEdges(requests[0], requests[1..])
  }

  function TriggerAll(v: AlarmVars, requests: seq<bool>): AlarmVars
    decreases |requests|
  {
    if |requests| == 0 then v else TriggerAll(Trigger(v, requests[0]), requests[1..])
  }

  /** Over a run of requests, one alert is started per rising edge, and
      the alarm ends in the last requested state. */
  lemma {:induction false} AlertsCountRisingEdges(v: AlarmVars, requests: seq<bool>)
    ensures TriggerAll(v, requests).alertsStarted == v.alertsStarted + RisingEdges(v.triggered, requests)
    ensures |requests| > 0 ==> TriggerAll(v, requests).triggered == requests[|requests| - 1]
    decreases |requests|
  {
    if |requests| > 0 {
      AlertsCountRisingEdges(Trigger(v, requests[0]), requests[1..]);
    }
  }

  /** Guard i is the one the alert loop keeps: its distance is at most
      every other, and every later guard is strictly farther (ties go to
      the later guard; Infinity <= Infinity). */
  predicate IsClosest(distances: seq<Dist>, i: int)
  {
    && 0 <= i < |distances|
    && (forall j | 0 <= j < |distances| :: distances[i].AtMost(distances[j]))
    && (forall j | i < j < |distances| :: !distances[j].AtMost(distances[i]))
  }

  /** At most one guard is the closest in that sense. */
  lemma ClosestIsUnique(distances: seq<Dist>, i: int, k: int)
    requires IsClosest(distances, i) && IsClosest(distances, k)
    ensures i == k
  {
    assert distances[k].AtMost(distances[i]) && distances[i].AtMost(distances[k]);
  }

  /** The loop over the guards' travel distances, keeping the last one
      that is at most the best so far; with no guards there is none. */
  method ClosestGuardIndex(distances: seq<Dist>) returns (closest: Option<nat>)
    ensures closest.None? <==> |distances| == 0
    ensures closest.Some? ==> IsClosest(distances, closest.value)
  {
    if |distances| == 0 {
      return None;
    }
    var closestGuard := 0;
    var closestDistance := Infinity;
    for i := 0 to |distances|
      invariant i == 0 ==> closestDistance == Infinity
      invariant i > 0 ==> closestGuard < i && closestDistance == distances[closestGuard]
      invariant forall j | 0 <= j < i :: closestDistance.AtMost(distances[j])
      invariant i > 0 ==> forall j | closestGuard < j < i :: !distances[j].AtMost(closestDistance)
    {
      var distance := distances[i];
      if distance.AtMost(closestDistance) {
        AtMostTransitive(distance, closestDistance);
        closestGuard := i;
        closestDistance := distance;
      }
    }
    return Some(closestGuard);
  }

  /** The distance order is transitive. */
  lemma AtMostTransitive(a: Dist, b: Dist)
    requires a.AtMost(b)
    ensures forall c :: b.AtMost(c) ==> a.AtMost(c)
  {
  }

  class Alarm {
    var triggered: bool
    var alertsStarted: nat
    var turnOffsStarted: nat
    var guardAlertDelay: real
    var alarmTurnOffDelay: real
    /** Whether the inspector set a detection box. */
    const hasDetectionCollider: bool
    /** Where guards are sent (the alarm's own position when unset). */
    const turnOffPoint: Option<Vec3>
    const position: Vec3

    function Vars(): AlarmVars
      reads this
    {
      AlarmVars(triggered, alertsStarted)
    }

    /** Start: the alarm is set up silent. */
    constructor (alertDelay: real, turnOffDelay: real, collider: bool, point: Option<Vec3>, at: Vec3)
      ensures Vars() == AlarmVars(false, 0) && turnOffsStarted == 0
      ensures guardAlertDelay == alertDelay && alarmTurnOffDelay == turnOffDelay
      ensures hasDetectionCollider == collider && turnOffPoint == point && position == at
    {
      guardAlertDelay, alarmTurnOffDelay := alertDelay, turnOffDelay;
      hasDetectionCollider, turnOffPoint, position := collider, point, at;
      triggered := false;
      alertsStarted, turnOffsStarted := 0, 0;
      new;
      SetAlarmUp();
    }

    method TriggeredAlarm(on: bool)
      modifies this
      ensures Vars() == Trigger(old(Vars()), on)
      ensures turnOffsStarted == old(turnOffsStarted)
      ensures guardAlertDelay == old(guardAlertDelay) && alarmTurnOffDelay == old(alarmTurnOffDelay)
    {
      if triggered == on {
        return;
      }
      triggered := on;
      if triggered {
        alertsStarted := alertsStarted + 1;
      }
    }

    method SetAlarmUp()
      modifies this
      ensures Vars() == SetUp(old(Vars()))
      ensures turnOffsStarted == old(turnOffsStarted)
      ensures guardAlertDelay == old(guardAlertDelay) && alarmTurnOffDelay == old(alarmTurnOffDelay)
    {
      triggered := true;
      TriggeredAlarm(false);
    }

    method UpdateDeviceState(stateInfo: string)
      modifies this
      ensures Vars() == DeviceState(old(Vars()), stateInfo)
      ensures turnOffsStarted == old(turnOffsStarted)
      ensures guardAlertDelay == old(guardAlertDelay) && alarmTurnOffDelay == old(alarmTurnOffDelay)
    {
      if Contains(stateInfo, "Ringing") {
        TriggeredAlarm(true);
      } else if Contains(stateInfo, "Silenced") {
        TriggeredAlarm(false);
      }
    }

    /** The body of a started alert, after its delay (clamped to at least
        0.1 s): the guard with the shortest walk to the turn-off point
        investigates it; no guard is told when there are none. `distances`
        are the guards' answers to GetTravelDistanceToPoint. */
    method AlertClosestGuard(guards: seq<GuardPatrol.Guard>, distances: seq<Dist>)
      returns (chosen: Option<nat>)
      requires |distances| == |guards|
      requires forall i, j | 0 <= i < j < |guards| :: guards[i] != guards[j]
      modifies this, set g | g in guards
      ensures guardAlertDelay == if old(guardAlertDelay) < 0.1 then 0.1 else old(guardAlertDelay)
      ensures Vars() == old(Vars()) && turnOffsStarted == old(turnOffsStarted)
      ensures alarmTurnOffDelay == old(alarmTurnOffDelay)
      ensures chosen.None? <==> |guards| == 0
      ensures chosen.Some? ==> IsClosest(distances, chosen.value)
      ensures chosen.Some? ==>
        var g := guards[chosen.value];
        g.Vars() == old(g.Vars()).(destination := Some(Destination()), speed := g.alertSpeed)
      ensures forall j | 0 <= j < |guards| && (chosen.None? || j != chosen.value) ::
        guards[j].Vars() == old(guards[j].Vars())
    {
      var destination := Destination();
      if guardAlertDelay < 0.1 {
        guardAlertDelay := 0.1;
      }
      chosen := ClosestGuardIndex(distances);
      if chosen.Some? {
        guards[chosen.value].Investigate(destination);
      }
    }

    function Destination(): Vec3
    {
      if turnOffPoint.Some? then turnOffPoint.value else position
    }

    /** While triggered, look for a guard among the colliders overlapping
        the detection box (`overlapHasGuard`), and start the turn-off as
        soon as one is found; nothing without a detection box. */
    method Update(overlapHasGuard: seq<bool>)
      modifies this
      ensures Vars() == old(Vars())
      ensures guardAlertDelay == old(guardAlertDelay) && alarmTurnOffDelay == old(alarmTurnOffDelay)
      ensures turnOffsStarted == old(turnOffsStarted) +
        if old(triggered) && hasDetectionCollider && true in overlapHasGuard then 1 else 0
    {
      if triggered {
        CheckForGuard(overlapHasGuard);
      }
    }

    method CheckForGuard(overlapHasGuard: seq<bool>)
      modifies this
      ensures Vars() == old(Vars())
      ensures guardAlertDelay == old(guardAlertDelay) && alarmTurnOffDelay == old(alarmTurnOffDelay)
      ensures turnOffsStarted == old(turnOffsStarted) +
        if hasDetectionCollider && true in overlapHasGuard then 1 else 0
    {
      if !hasDetectionCollider {
        return;
      }
      for i := 0 to |overlapHasGuard|
        invariant true !in overlapHasGuard[..i]
        invariant Vars() == old(Vars()) && turnOffsStarted == old(turnOffsStarted)
        invariant guardAlertDelay == old(guardAlertDelay) && alarmTurnOffDelay == old(alarmTurnOffDelay)
      {
        if overlapHasGuard[i] {
          turnOffsStarted := turnOffsStarted + 1;
          return;
        }
        assert overlapHasGuard[..i + 1] == overlapHasGuard[..i] + [overlapHasGuard[i]];
      }
      assert overlapHasGuard[..|overlapHasGuard|] == overlapHasGuard;
    }

    /** The body of a started turn-off, after its delay (clamped to at least
        0.1 s): silence the alarm. */
    method TurnOffAlarm()
      modifies this
      ensures alarmTurnOffDelay == if old(alarmTurnOffDelay) < 0.1 then 0.1 else old(alarmTurnOffDelay)
      ensures Vars() == Trigger(old(Vars()), false)
      ensures guardAlertDelay == old(guardAlertDelay) && turnOffsStarted == old(turnOffsStarted)
    {
      if alarmTurnOffDelay < 0.1 {
        alarmTurnOffDelay := 0.1;
      }
      TriggeredAlarm(false);
    }
  }
}
