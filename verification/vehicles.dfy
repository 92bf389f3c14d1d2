/** Vehicles, the turn table and the emergency rules of vehicle.h.
    The source keys sides, directions, intersections, vehicle types and
    priorities by strings; here each is a closed enumeration, so the
    fall-through branches the source takes for an unknown string
    (getOppositeSide returning its input, getExitSide returning the entry
    side) cannot be reached. */
module Vehicles {
  import opened Wrappers

  datatype Side = North | South | East | West
  datatype Direction = Straight | Left | Right
  datatype IntersectionId = F10 | F11
  datatype VehicleType = Car | Bike | Bus | Tractor | Ambulance | Firetruck
  datatype Priority = High | Medium | Low

  /** The two emergency corridors through both intersections. */
  datatype Corridor = Eastbound | Westbound

  /** A vehicle record. `arrival_time` (a wall-clock stamp) is not modelled. */
  datatype Vehicle = Vehicle(
    id: int,
    kind: VehicleType,
    spawnIntersection: IntersectionId,
    spawnSide: Side,
    direction: Direction,
    currentIntersection: IntersectionId,
    currentSide: Side,
    priority: Priority,
    wantsParking: bool,
    hasExited: bool)

  const AllSides: set<Side> := {North, South, East, West}

  predicate IsEmergencyVehicle(kind: VehicleType) {
    kind == Ambulance || kind == Firetruck
  }

  /** The constructor Vehicle(vid, vtype, spawn_int, side, dir). */
  function NewVehicle(id: int, kind: VehicleType, spawn: IntersectionId, side: Side, dir: Direction): (v: Vehicle)
    ensures v.id == id && v.kind == kind && v.direction == dir
    ensures v.spawnIntersection == spawn && v.spawnSide == side
    ensures v.currentIntersection == spawn && v.currentSide == side
    ensures !v.wantsParking && !v.hasExited
    ensures v.priority == High <==> IsEmergencyVehicle(kind)
    ensures v.priority == Medium <==> kind == Bus
    ensures v.priority == Low <==> kind in {Car, Bike, Tractor}
  {
    var priority :=
      if kind == Ambulance || kind == Firetruck then High
      else if kind == Bus then Medium
      else Low;
    Vehicle(id, kind, spawn, side, dir, spawn, side, priority, false, false)
  }

  /** The default constructor Vehicle(): it builds the same record as the
      parameterised constructor applied to its defaults. */
  function DefaultVehicle(): (v: Vehicle)
    ensures v == NewVehicle(0, Car, F10, North, Straight)
  {
    Vehicle(0, Car, F10, North, Straight, F10, North, Low, false, false)
  }

  // ---------------------------------------------------------------------
  // Routing

  function Opposite(side: Side): (r: Side)
    ensures r != side
  {
    match side
    case North => South
    case South => North
    case East => West
    case West => East
  }

  /** The turn table: STRAIGHT leaves by the opposite side, LEFT and RIGHT
      turn by a quarter. No entry leaves the way it came in. */
  function ExitSide(entry: Side, dir: Direction): (r: Side)
    ensures r != entry
    ensures dir == Straight ==> r == Opposite(entry)
  {
    match dir
    case Straight => Opposite(entry)
    case Left =>
      (match entry
       case North => East
       case South => West
       case East => South
       case West => North)
    case Right =>
      (match entry
       case North => West
       case South => East
       case East => North
       case West => South)
  }

  /** The one shared boundary: F10's EAST side meets F11's WEST side. */
  predicate WillTransition(current: IntersectionId, exit: Side) {
    (current == F10 && exit == East) || (current == F11 && exit == West)
  }

  function OtherIntersection(i: IntersectionId): (r: IntersectionId)
    ensures r != i
  {
    if i == F10 then F11 else F10
  }

  /** Result of getNextIntersection: the intersection and side a vehicle
      enters next, or "EXITED"/"NONE". */
  datatype Next = Transit(intersection: IntersectionId, entry: Side) | Exited

  function NextIntersection(current: IntersectionId, exit: Side): (r: Next)
    ensures r.Transit? <==> WillTransition(current, exit)
    ensures r.Transit? ==> r.intersection == OtherIntersection(current) && r.entry == Opposite(exit)
  {
    if current == F10 && exit == East then Transit(F11, West)
    else if current == F11 && exit == West then Transit(F10, East)
    else Exited
  }

  lemma OppositeInvolution(side: Side)
    ensures Opposite(Opposite(side)) == side
  {
  }

  lemma StraightTwiceReturns(side: Side)
    ensures ExitSide(ExitSide(side, Straight), Straight) == side
  {
    OppositeInvolution(side);
  }

  /** LEFT is the rotation N -> E -> S -> W -> N and RIGHT undoes it. */
  lemma LeftRightInverse(side: Side)
    ensures ExitSide(North, Left) == East
    ensures ExitSide(ExitSide(side, Left), Right) == side
    ensures ExitSide(ExitSide(side, Right), Left) == side
    ensures ExitSide(ExitSide(ExitSide(ExitSide(side, Left), Left), Left), Left) == side
    ensures ExitSide(side, Left) == Opposite(ExitSide(side, Right))
  {
  }

  /** From every side the three directions reach the three other sides. */
  lemma TurnTableComplete(side: Side)
    ensures {ExitSide(side, Straight), ExitSide(side, Left), ExitSide(side, Right)} == AllSides - {side}
  {
  }

  /** The hand-off is symmetric: leaving the next intersection by the side
      one entered it leads back to where one came from. */
  lemma HandOffSymmetric(current: IntersectionId, exit: Side)
    requires WillTransition(current, exit)
    ensures var n := NextIntersection(current, exit);
      NextIntersection(n.intersection, n.entry) == Transit(current, exit)
  {
  }

  /** A vehicle that keeps its direction is handed off at most once: after
      entering the other intersection through the shared side it cannot
      leave through the shared side again. */
  lemma HandOffAtMostOnce(current: IntersectionId, side: Side, dir: Direction)
    requires WillTransition(current, ExitSide(side, dir))
    ensures var n := NextIntersection(current, ExitSide(side, dir));
      !WillTransition(n.intersection, ExitSide(n.entry, dir))
  {
  }

  // ---------------------------------------------------------------------
  // Emergency vehicles

  /** Where a corridor starts: the intersection and the side its vehicle enters by. */
  function CorridorOrigin(c: Corridor): IntersectionId {
    if c == Eastbound then F10 else F11
  }

  function CorridorEntry(c: Corridor): Side {
    if c == Eastbound then West else East
  }

  function CorridorExit(c: Corridor): (r: Side)
    ensures r == Opposite(CorridorEntry(c))
  {
    if c == Eastbound then East else West
  }

  /** An emergency vehicle may only start where a corridor starts, going
      straight, so that its exit leads it on to the other intersection. */
  predicate IsValidEmergencySpawn(spawn: IntersectionId, side: Side, dir: Direction): (r: bool)
    ensures r <==> dir == Straight && exists c: Corridor :: CorridorOrigin(c) == spawn && CorridorEntry(c) == side
    ensures r ==> WillTransition(spawn, ExitSide(side, dir))
  {
    if dir != Straight then false
    else if spawn == F10 && side == West then assert CorridorOrigin(Eastbound) == F10; true
    else if spawn == F11 && side == East then assert CorridorOrigin(Westbound) == F11; true
    else false
  }

  /** getEmergencyDirection; None stands for "INVALID". */
  function EmergencyDirection(spawn: IntersectionId, side: Side): (r: Option<Corridor>)
    ensures r.Some? ==> CorridorOrigin(r.value) == spawn && CorridorEntry(r.value) == side
    ensures r.None? <==> !IsValidEmergencySpawn(spawn, side, Straight)
  {
    if spawn == F10 && side == West then Some(Eastbound)
    else if spawn == F11 && side == East then Some(Westbound)
    else None
  }

  /** Every corridor is found again from its own origin and entry side. */
  lemma EmergencyDirectionRoundTrip(c: Corridor)
    ensures EmergencyDirection(CorridorOrigin(c), CorridorEntry(c)) == Some(c)
  {
  }

  /** A waypoint of an emergency path: an intersection and one of its sides. */
  datatype Waypoint = Waypoint(intersection: IntersectionId, side: Side)

  /** getEmergencyPath; None stands for "INVALID". */
  function EmergencyPath(spawn: IntersectionId, side: Side): (r: Option<seq<Waypoint>>)
    ensures r.Some? <==> EmergencyDirection(spawn, side).Some?
    ensures r.Some? ==> |r.value| == 4 && r.value[0] == Waypoint(spawn, side)
  {
    if spawn == F10 && side == West then
      Some([Waypoint(F10, West), Waypoint(F10, East), Waypoint(F11, West), Waypoint(F11, East)])
    else if spawn == F11 && side == East then
      Some([Waypoint(F11, East), Waypoint(F11, West), Waypoint(F10, East), Waypoint(F10, West)])
    else None
  }

  /** The path an emergency vehicle announces is the one the turn table and
      the hand-off rule actually take it along: straight across, over the
      boundary, straight across again, and out. */
  lemma EmergencyPathFollowsRouting(spawn: IntersectionId, side: Side)
    requires EmergencyDirection(spawn, side).Some?
    ensures var path := EmergencyPath(spawn, side).value;
      var exit1 := ExitSide(side, Straight);
      var next := NextIntersection(spawn, exit1);
      && path[1] == Waypoint(spawn, exit1)
      && next.Transit?
      && path[2] == Waypoint(next.intersection, next.entry)
      && path[3] == Waypoint(next.intersection, ExitSide(next.entry, Straight))
      && !WillTransition(next.intersection, ExitSide(next.entry, Straight))
  {
  }

  /** The westbound path is the eastbound path travelled backwards. */
  lemma EmergencyPathsMirror()
    ensures var east := EmergencyPath(F10, West).value;
      var west := EmergencyPath(F11, East).value;
      forall k :: 0 <= k < 4 ==> west[k] == east[3 - k]
  {
  }

  // ---------------------------------------------------------------------
  // Searching a vehicle list by id (the loops in exitParking, leaveWaitQueue
  // and the approach-queue erase of the vehicle thread)

  predicate HasId(vs: seq<Vehicle>, id: int) {
    exists j :: 0 <= j < |vs| && vs[j].id == id
  }

  /** The list with its first entry carrying `id` erased; the order of the
      other entries is kept. */
  function RemoveFirst(vs: seq<Vehicle>, id: int): (r: seq<Vehicle>)
    ensures |r| == if HasId(vs, id) then |vs| - 1 else |vs|
    ensures !HasId(vs, id) ==> r == vs
    ensures forall v :: v in r ==> v in vs
  {
    if vs == [] then []
    else if vs[0].id == id then vs[1..]
    else
      assert HasId(vs, id) <==> HasId(vs[1..], id) by {
        if HasId(vs, id) {
          var j :| 0 <= j < |vs| && vs[j].id == id;
          assert vs[1..][j - 1].id == id;
        }
        if HasId(vs[1..], id) {
          var j :| 0 <= j < |vs| - 1 && vs[1..][j].id == id;
          assert vs[j + 1].id == id;
        }
      }
      [vs[0]] + RemoveFirst(vs[1..], id)
  }

  /** Index of the first entry of `vs` with this id, or |vs| when none has it. */
  method FindById(vs: seq<Vehicle>, id: int) returns (i: nat)
    ensures i <= |vs|
    ensures i < |vs| ==> vs[i].id == id
    ensures forall j :: 0 <= j < i ==> vs[j].id != id
  {
    i := 0;
    while i < |vs| && vs[i].id != id
      invariant i <= |vs|
      invariant forall j :: 0 <= j < i ==> vs[j].id != id
    {
      i := i + 1;
    }
  }

  /** Erasing at the index the search finds is RemoveFirst. */
  lemma {:induction false} RemoveFirstAt(vs: seq<Vehicle>, id: int, i: nat)
    requires i <= |vs|
    requires i < |vs| ==> vs[i].id == id
    requires forall j :: 0 <= j < i ==> vs[j].id != id
    ensures i < |vs| <==> HasId(vs, id)
    ensures RemoveFirst(vs, id) == if i < |vs| then vs[..i] + vs[i + 1..] else vs
  {
    if i == |vs| {
      assert !HasId(vs, id);
    } else if i > 0 {
      RemoveFirstAt(vs[1..], id, i - 1);
      assert vs[1..][..i - 1] + vs[1..][i..] == vs[1..i] + vs[i + 1..];
      assert [vs[0]] + vs[1..i] == vs[..i];
    }
  }

  /** Appending a vehicle whose id is not yet listed and then erasing that
      id gives back the original list. */
  lemma {:induction false} AppendThenRemove(vs: seq<Vehicle>, v: Vehicle)
    requires !HasId(vs, v.id)
    ensures RemoveFirst(vs + [v], v.id) == vs
  {
    if vs != [] {
      assert (vs + [v])[1..] == vs[1..] + [v];
      assert !HasId(vs[1..], v.id);
      AppendThenRemove(vs[1..], v);
    }
  }
}
