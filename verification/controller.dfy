/** The signal controller of controller.h: the two fixed phase cycles, the
    controller loop of each intersection, the emergency hand-over and the
    crossing step of one vehicle. A sleep is a point where other threads may
    act; what they do there is an input of the method (a halt flag, the
    messages and the emergency flag seen on each loop turn). */
module Controller {
  import opened Wrappers
  import opened Vehicles
  import opened Intersections
  import opened Globals
  import Config

  datatype Axis = NorthSouth | EastWest

  function OtherAxis(a: Axis): (r: Axis)
    ensures r != a
  {
    if a == NorthSouth then EastWest else NorthSouth
  }

  predicate OnAxis(s: Side, a: Axis) {
    if a == NorthSouth then s == North || s == South else s == East || s == West
  }

  /** One phase change: the two lights of an axis turn GREEN, YELLOW or RED. */
  datatype Phase = Phase(axis: Axis, light: Light)

  /** The effect of a phase change on the four lights: the axis takes the
      phase's colour, and a GREEN phase also turns the cross axis RED. */
  function ApplyPhase(g: Signals, p: Phase): (r: Signals)
    ensures forall s :: OnAxis(s, p.axis) ==> LightAt(r, s) == p.light
    ensures forall s :: !OnAxis(s, p.axis) ==>
      LightAt(r, s) == (if p.light == Green then Red else LightAt(g, s))
  {
    if p.axis == NorthSouth then
      var h := WithLight(WithLight(g, North, p.light), South, p.light);
      if p.light == Green then WithLight(WithLight(h, East, Red), West, Red) else h
    else
      var h := WithLight(WithLight(g, East, p.light), West, p.light);
      if p.light == Green then WithLight(WithLight(h, North, Red), South, Red) else h
  }

  /** The lights after a sequence of phase changes, applied in order. */
  function ApplyPhases(g: Signals, ps: seq<Phase>): Signals
    decreases |ps|
  {
    if ps == [] then g else ApplyPhase(ApplyPhases(g, ps[..|ps| - 1]), ps[|ps| - 1])
  }

  /** The three phases of one axis: GREEN, YELLOW, RED. */
  function AxisCycle(a: Axis): seq<Phase> {
    [Phase(a, Green), Phase(a, Yellow), Phase(a, Red)]
  }

  lemma ApplyPhasesSnoc(g: Signals, ps: seq<Phase>, p: Phase)
    ensures ApplyPhases(g, ps + [p]) == ApplyPhase(ApplyPhases(g, ps), p)
  {
    assert (ps + [p])[..|ps + [p]| - 1] == ps;
  }

  /** Every prefix of a cycle that has started ends in a state that does not
      depend on the lights before it: after GREEN the axis is GREEN and the
      cross axis RED, after YELLOW the axis is YELLOW and the cross axis RED,
      and the whole cycle leaves everything RED. Each state keeps the
      normal-mode invariant. */
  lemma CycleStates(g: Signals, a: Axis, k: nat)
    requires 1 <= k <= 3
    ensures var r := ApplyPhases(g, AxisCycle(a)[..k]);
      && AxesExclusive(r)
      && (forall s :: !OnAxis(s, a) ==> LightAt(r, s) == Red)
      && (forall s :: OnAxis(s, a) ==> LightAt(r, s) == AxisCycle(a)[k - 1].light)
      && (k == 3 ==> r == AllRed)
  {
    var c := AxisCycle(a);
    ApplyPhasesSnoc(g, [], c[0]);
    assert c[..1] == [] + [c[0]];
    var r1 := ApplyPhases(g, c[..1]);
    if k >= 2 {
      ApplyPhasesSnoc(g, c[..1], c[1]);
      assert c[..2] == c[..1] + [c[1]];
    }
    if k == 3 {
      ApplyPhasesSnoc(g, c[..2], c[2]);
      assert c[..3] == c[..2] + [c[2]];
    }
    var r := ApplyPhases(g, c[..k]);
    assert LightAt(r, North) == LightAt(r, South) && LightAt(r, East) == LightAt(r, West);
  }

  /** cycleNorthSouth. The cycle does nothing in emergency mode; otherwise it
      runs GREEN, then YELLOW, then RED, and stops early when the check after
      a sleep finds emergency mode or shutdown (`haltAfterGreen`,
      `haltAfterYellow`: what other threads did during that sleep). */
  method CycleNorthSouth(x: Intersection, haltAfterGreen: bool, haltAfterYellow: bool) returns (steps: nat)
    requires x.Valid()
    modifies x
    ensures x.Valid() && x.id == old(x.id)
    ensures x.AllQueues() == old(x.AllQueues()) && x.EmergencyRecord() == old(x.EmergencyRecord())
    ensures steps == if old(x.emergencyMode) then 0 else if haltAfterGreen then 1 else if haltAfterYellow then 2 else 3
    ensures x.Lights() == ApplyPhases(old(x.Lights()), AxisCycle(NorthSouth)[..steps])
  {
    ghost var g := x.Lights();
    ghost var c := AxisCycle(NorthSouth);
    if x.IsEmergencyMode() {
      return 0;
    }
    x.SetControllerLight(North, Green);
    x.SetControllerLight(South, Green);
    x.SetControllerLight(East, Red);
    x.SetControllerLight(West, Red);
    ApplyPhasesSnoc(g, [], c[0]);
    assert c[..1] == [] + [c[0]];
    if x.IsEmergencyMode() || haltAfterGreen {
      return 1;
    }
    x.SetControllerLight(North, Yellow);
    x.SetControllerLight(South, Yellow);
    ApplyPhasesSnoc(g, c[..1], c[1]);
    assert c[..2] == c[..1] + [c[1]];
    if x.IsEmergencyMode() || haltAfterYellow {
      return 2;
    }
    x.SetControllerLight(North, Red);
    x.SetControllerLight(South, Red);
    ApplyPhasesSnoc(g, c[..2], c[2]);
    assert c[..3] == c[..2] + [c[2]];
    return 3;
  }

  /** cycleEastWest: the same cycle on the east-west axis. */
  method CycleEastWest(x: Intersection, haltAfterGreen: bool, haltAfterYellow: bool) returns (steps: nat)
    requires x.Valid()
    modifies x
    ensures x.Valid() && x.id == old(x.id)
    ensures x.AllQueues() == old(x.AllQueues()) && x.EmergencyRecord() == old(x.EmergencyRecord())
    ensures steps == if old(x.emergencyMode) then 0 else if haltAfterGreen then 1 else if haltAfterYellow then 2 else 3
    ensures x.Lights() == ApplyPhases(old(x.Lights()), AxisCycle(EastWest)[..steps])
  {
    ghost var g := x.Lights();
    ghost var c := AxisCycle(EastWest);
    if x.IsEmergencyMode() {
      return 0;
    }
    x.SetControllerLight(East, Green);
    x.SetControllerLight(West, Green);
    x.SetControllerLight(North, Red);
    x.SetControllerLight(South, Red);
    ApplyPhasesSnoc(g, [], c[0]);
    assert c[..1] == [] + [c[0]];
    if x.IsEmergencyMode() || haltAfterGreen {
      return 1;
    }
    x.SetControllerLight(East, Yellow);
    x.SetControllerLight(West, Yellow);
    ApplyPhasesSnoc(g, c[..1], c[1]);
    assert c[..2] == c[..1] + [c[1]];
    if x.IsEmergencyMode() || haltAfterYellow {
      return 2;
    }
    x.SetControllerLight(East, Red);
    x.SetControllerLight(West, Red);
    ApplyPhasesSnoc(g, c[..2], c[2]);
    assert c[..3] == c[..2] + [c[2]];
    return 3;
  }

  // ---------------------------------------------------------------------
  // The controller loop of each intersection

  /** What one turn of a controller loop sees: the byte read from its control
      pipe, if any, and the global emergency flag. */
  datatype Tick = Tick(message: Option<char>, emergencyActive: bool)

  /** F10's loop starts with the north-south cycle, F11's with east-west. */
  function FirstAxis(i: IntersectionId): Axis {
    if i == F10 then NorthSouth else EastWest
  }

  /** The axis of the k-th cycle a loop runs: the two alternate. */
  function AxisAt(first: Axis, k: nat): (a: Axis)
    ensures a == first <==> k % 2 == 0
  {
    if k % 2 == 0 then first else OtherAxis(first)
  }

  /** How many cycles the loop runs on these ticks: one per turn without the
      emergency flag, up to the first SHUTDOWN token. */
  function CyclesRun(ticks: seq<Tick>): (n: nat)
    ensures n <= |ticks|
  {
    if ticks == [] || ticks[0].message == Some(Config.MSG_SHUTDOWN) then 0
    else (if ticks[0].emergencyActive then 0 else 1) + CyclesRun(ticks[1..])
  }

  /** f10ControllerThread and f11ControllerThread. Each turn reads the control
      pipe (SHUTDOWN ends the loop; the other tokens are only logged), idles
      while the emergency flag is set, and otherwise runs the next cycle of
      the alternation. The loop stops when the ticks run out, which is where
      it sees the shutdown flag. */
  method ControllerThread(x: Intersection, ticks: seq<Tick>) returns (cycled: seq<Axis>)
    requires x.Valid()
    modifies x
    ensures x.Valid() && x.id == old(x.id)
    ensures x.AllQueues() == old(x.AllQueues()) && x.EmergencyRecord() == old(x.EmergencyRecord())
    ensures |cycled| == CyclesRun(ticks)
    ensures forall k :: 0 <= k < |cycled| ==> cycled[k] == AxisAt(FirstAxis(x.id), k)
    ensures x.Lights() == if |cycled| == 0 || old(x.emergencyMode) then old(x.Lights()) else AllRed
  {
    var phase := 0;
    var t := 0;
    cycled := [];
    while t < |ticks|
      invariant 0 <= t <= |ticks|
      invariant x.Valid() && x.id == old(x.id)
      invariant x.AllQueues() == old(x.AllQueues()) && x.EmergencyRecord() == old(x.EmergencyRecord())
      invariant CyclesRun(ticks) == |cycled| + CyclesRun(ticks[t..])
      invariant phase == |cycled| % 2
      invariant forall k :: 0 <= k < |cycled| ==> cycled[k] == AxisAt(FirstAxis(x.id), k)
      invariant x.Lights() == if |cycled| == 0 || old(x.emergencyMode) then old(x.Lights()) else AllRed
    {
      assert ticks[t..][1..] == ticks[t + 1..];
      var msg := ticks[t].message;
      if msg == Some(Config.MSG_SHUTDOWN) {
        break;
      }
      if ticks[t].emergencyActive {
        t := t + 1;
        continue;
      }
      var axis := if phase == 0 then FirstAxis(x.id) else OtherAxis(FirstAxis(x.id));
      ghost var g := x.Lights();
      var steps;
      if axis == NorthSouth {
        steps := CycleNorthSouth(x, false, false);
      } else {
        steps := CycleEastWest(x, false, false);
      }
      if !x.emergencyMode {
        CycleStates(g, axis, 3);
      }
      phase := 1 - phase;
      cycled := cycled + [axis];
      t := t + 1;
    }
  }

  /** A vehicle-to-controller token on one of the two control pipes, named by
      the intersection whose controller reads it. */
  datatype Message = Message(to: IntersectionId, token: char)

  /** The alert sent to the other intersection when a corridor opens. */
  function CorridorAlert(c: Corridor): Message {
    if c == Eastbound then Message(F11, Config.MSG_EMERGENCY_EASTBOUND)
    else Message(F10, Config.MSG_EMERGENCY_WESTBOUND)
  }

  /** handleEmergencyVehicle. The emergency flag is raised in every case; a
      valid spawn pair also records its direction, opens that corridor on
      both intersections and alerts the controller downstream. Any other
      spawn pair is only logged. */
  method HandleEmergencyVehicle(w: Simulation, spawn: IntersectionId, side: Side) returns (sent: seq<Message>)
    requires w.Valid()
    modifies w, w.f10, w.f11
    ensures w.Valid() && w.emergencyActive
    ensures w.shutdown == old(w.shutdown) && w.vehiclesCompleted == old(w.vehiclesCompleted)
    ensures w.nextVehicleId == old(w.nextVehicleId) && w.totalVehiclesToSpawn == old(w.totalVehiclesToSpawn)
    ensures w.f10.AllQueues() == old(w.f10.AllQueues()) && w.f11.AllQueues() == old(w.f11.AllQueues())
    ensures match EmergencyDirection(spawn, side)
      case Some(c) =>
        && w.emergencyDirection == Some(c)
        && InCorridor(w.f10, c) && InCorridor(w.f11, c)
        && sent == [CorridorAlert(c)]
      case None =>
        && w.emergencyDirection == old(w.emergencyDirection)
        && w.f10.Lights() == old(w.f10.Lights()) && w.f11.Lights() == old(w.f11.Lights())
        && w.f10.EmergencyRecord() == old(w.f10.EmergencyRecord())
        && w.f11.EmergencyRecord() == old(w.f11.EmergencyRecord())
        && sent == []
  {
    w.emergencyActive := true;
    if spawn == F10 && side == West {
      w.emergencyDirection := Some(Eastbound);
      ActivateEastboundEmergencyCorridor(w.f10, w.f11);
      sent := [Message(F11, Config.MSG_EMERGENCY_EASTBOUND)];
    } else if spawn == F11 && side == East {
      w.emergencyDirection := Some(Westbound);
      ActivateWestboundEmergencyCorridor(w.f10, w.f11);
      sent := [Message(F10, Config.MSG_EMERGENCY_WESTBOUND)];
    } else {
      sent := [];
    }
  }

  /** clearEmergency: the flag and the direction are cleared, both
      intersections leave emergency mode all RED, and both controllers are
      told with a CLEAR token. */
  method ClearEmergency(w: Simulation) returns (sent: seq<Message>)
    requires w.Valid()
    modifies w, w.f10, w.f11
    ensures w.Valid() && !w.emergencyActive && w.emergencyDirection == None
    ensures w.shutdown == old(w.shutdown) && w.vehiclesCompleted == old(w.vehiclesCompleted)
    ensures w.nextVehicleId == old(w.nextVehicleId) && w.totalVehiclesToSpawn == old(w.totalVehiclesToSpawn)
    ensures w.f10.EmergencyRecord() == (false, None, None) && w.f11.EmergencyRecord() == (false, None, None)
    ensures w.f10.Lights() == AllRed && w.f11.Lights() == AllRed
    ensures w.f10.AllQueues() == old(w.f10.AllQueues()) && w.f11.AllQueues() == old(w.f11.AllQueues())
    ensures sent == [Message(F11, Config.MSG_EMERGENCY_CLEAR), Message(F10, Config.MSG_EMERGENCY_CLEAR)]
  {
    w.emergencyActive := false;
    w.emergencyDirection := None;
    DeactivateEmergencyCorridor(w.f10, w.f11);
    sent := [Message(F11, Config.MSG_EMERGENCY_CLEAR), Message(F10, Config.MSG_EMERGENCY_CLEAR)];
  }

  /** processVehicleCrossing. A vehicle that is not an emergency vehicle waits
      until its approach is GREEN or shutdown is set; that wait is the
      precondition here. On shutdown the vehicle stays where it is; otherwise
      it crosses to the exit side of its turn. Either way the exit side is
      returned. */
  method ProcessVehicleCrossing(x: Intersection, v: Vehicle, shutdown: bool) returns (exit: Side, crossed: Vehicle)
    requires IsEmergencyVehicle(v.kind) || shutdown || x.CanVehicleMove(v.currentSide)
    ensures exit == ExitSide(v.currentSide, v.direction) && exit != v.currentSide
    ensures shutdown ==> crossed == v
    ensures !shutdown ==> crossed == v.(currentSide := exit)
  {
    exit := ExitSide(v.currentSide, v.direction);
    if shutdown {
      return exit, v;
    }
    crossed := v.(currentSide := exit);
  }
}
