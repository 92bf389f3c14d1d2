/** An intersection: four approaches, each with a light and a queue of
    waiting vehicles, plus the emergency flag and the recorded entry/exit
    pair (intersection.h). The per-intersection semaphore only makes each
    operation atomic; every method here is one such atomic step. */
module Intersections {
  import opened Wrappers
  import opened Vehicles

  datatype Light = Red | Yellow | Green

  /** The four light states of an intersection. */
  datatype Signals = Signals(north: Light, south: Light, east: Light, west: Light)

  function LightAt(g: Signals, side: Side): Light {
    match side
    case North => g.north
    case South => g.south
    case East => g.east
    case West => g.west
  }

  function WithLight(g: Signals, side: Side, st: Light): (r: Signals)
    ensures LightAt(r, side) == st
    ensures forall s :: s != side ==> LightAt(r, s) == LightAt(g, s)
  {
    match side
    case North => g.(north := st)
    case South => g.(south := st)
    case East => g.(east := st)
    case West => g.(west := st)
  }

  const AllRed: Signals := Signals(Red, Red, Red, Red)

  /** The normal-mode invariant: the two sides of an axis show the same
      light, and at most one axis is not RED. */
  predicate AxesExclusive(g: Signals) {
    g.north == g.south && g.east == g.west && (g.north == Red || g.east == Red)
  }

  /** The emergency-mode invariant: exactly the entry and exit sides are GREEN. */
  predicate CorridorPattern(g: Signals, entry: Side, exit: Side) {
    forall s :: LightAt(g, s) == (if s == entry || s == exit then Green else Red)
  }

  /** Both corridors run along the east-west axis, so their light pattern
      is the one with EAST and WEST green and the north-south axis red;
      it also satisfies the normal-mode invariant. */
  lemma CorridorPatternIsEastWest(g: Signals, c: Corridor)
    ensures CorridorPattern(g, CorridorEntry(c), CorridorExit(c)) <==> g == Signals(Red, Red, Green, Green)
    ensures CorridorPattern(g, CorridorEntry(c), CorridorExit(c)) ==> AxesExclusive(g)
  {
    if CorridorPattern(g, CorridorEntry(c), CorridorExit(c)) {
      assert LightAt(g, North) == Red && LightAt(g, South) == Red;
      assert LightAt(g, East) == Green && LightAt(g, West) == Green;
    }
  }

  /** One traffic controller (approach). */
  datatype Approach = Approach(side: Side, light: Light, queue: seq<Vehicle>)

  /** The four approach queues. */
  datatype Queues = Queues(north: seq<Vehicle>, south: seq<Vehicle>, east: seq<Vehicle>, west: seq<Vehicle>)

  function QueueAt(qs: Queues, side: Side): seq<Vehicle> {
    match side
    case North => qs.north
    case South => qs.south
    case East => qs.east
    case West => qs.west
  }

  function WithQueue(qs: Queues, side: Side, q: seq<Vehicle>): (r: Queues)
    ensures QueueAt(r, side) == q
    ensures forall s :: s != side ==> QueueAt(r, s) == QueueAt(qs, s)
  {
    match side
    case North => qs.(north := q)
    case South => qs.(south := q)
    case East => qs.(east := q)
    case West => qs.(west := q)
  }

  class Intersection {
    var id: IntersectionId
    var north: Approach
    var south: Approach
    var east: Approach
    var west: Approach
    var emergencyMode: bool
    var emergencyEntry: Option<Side>   // None: the empty string
    var emergencyExit: Option<Side>

    /** Each controller's side names its own slot. */
    ghost predicate Valid()
      reads this
    {
      north.side == North && south.side == South && east.side == East && west.side == West
    }

    function Lights(): Signals
      reads this
    {
      Signals(north.light, south.light, east.light, west.light)
    }

    function AllQueues(): Queues
      reads this
    {
      Queues(north.queue, south.queue, east.queue, west.queue)
    }

    function EmergencyRecord(): (bool, Option<Side>, Option<Side>)
      reads this
    {
      (emergencyMode, emergencyEntry, emergencyExit)
    }

    /** A default-constructed intersection after initialisation: all four
        lights RED, no emergency, empty queues. */
    constructor (id: IntersectionId)
      ensures Valid() && this.id == id
      ensures Lights() == AllRed
      ensures AllQueues() == Queues([], [], [], [])
      ensures EmergencyRecord() == (false, None, None)
    {
      this.id := id;
      north := Approach(North, Red, []);
      south := Approach(South, Red, []);
      east := Approach(East, Red, []);
      west := Approach(West, Red, []);
      emergencyMode := false;
      emergencyEntry := None;
      emergencyExit := None;
    }

    /** initIntersection: names the sides, turns every light RED and clears
        the emergency flag; the queues and the recorded entry/exit stay. */
    method InitIntersection(id: IntersectionId)
      modifies this
      ensures Valid() && this.id == id
      ensures Lights() == AllRed && !emergencyMode
      ensures AllQueues() == old(AllQueues())
      ensures emergencyEntry == old(emergencyEntry) && emergencyExit == old(emergencyExit)
    {
      this.id := id;
      north := north.(side := North, light := Red);
      south := south.(side := South, light := Red);
      east := east.(side := East, light := Red);
      west := west.(side := West, light := Red);
      emergencyMode := false;
    }

    /** getController: the approach on the named side. */
    function Controller(side: Side): (c: Approach)
      reads this
      ensures Valid() ==> c.side == side
      ensures c.light == LightAt(Lights(), side)
      ensures c.queue == QueueAt(AllQueues(), side)
    {
      match side
      case North => north
      case South => south
      case East => east
      case West => west
    }

    /** getControllerLight. */
    function ControllerLight(side: Side): (st: Light)
      reads this
      ensures st == LightAt(Lights(), side)
      ensures st == Controller(side).light
    {
      match side
      case North => north.light
      case South => south.light
      case East => east.light
      case West => west.light
    }

    /** canVehicleMove: a vehicle may move off an approach whose light is GREEN. */
    function CanVehicleMove(from: Side): (b: bool)
      reads this
      ensures b <==> LightAt(Lights(), from) == Green
    {
      ControllerLight(from) == Green
    }

    /** isEmergencyMode. */
    function IsEmergencyMode(): (b: bool)
      reads this
      ensures b == EmergencyRecord().0
    {
      emergencyMode
    }

    /** setControllerLight: changes that one light and nothing else. */
    method SetControllerLight(side: Side, st: Light)
      requires Valid()
      modifies this
      ensures Valid() && id == old(id)
      ensures Lights() == WithLight(old(Lights()), side, st)
      ensures AllQueues() == old(AllQueues())
      ensures EmergencyRecord() == old(EmergencyRecord())
    {
      match side
      case North => north := north.(light := st);
      case South => south := south.(light := st);
      case East => east := east.(light := st);
      case West => west := west.(light := st);
    }

    /** setAllLightsRed. */
    method SetAllLightsRed()
      requires Valid()
      modifies this
      ensures Valid() && id == old(id)
      ensures Lights() == AllRed
      ensures AllQueues() == old(AllQueues())
      ensures EmergencyRecord() == old(EmergencyRecord())
    {
      north := north.(light := Red);
      south := south.(light := Red);
      east := east.(light := Red);
      west := west.(light := Red);
    }

    /** setEmergencyMode: overwrites the flag and the entry/exit pair (the
        source's default arguments "" are None here). */
    method SetEmergencyMode(active: bool, entry: Option<Side>, exit: Option<Side>)
      requires Valid()
      modifies this
      ensures Valid() && id == old(id)
      ensures EmergencyRecord() == (active, entry, exit)
      ensures IsEmergencyMode() == active
      ensures Lights() == old(Lights())
      ensures AllQueues() == old(AllQueues())
    {
      emergencyMode := active;
      emergencyEntry := entry;
      emergencyExit := exit;
    }

    /** deactivateEmergencyMode: leave emergency mode, then all lights RED. */
    method DeactivateEmergencyMode()
      requires Valid()
      modifies this
      ensures Valid() && id == old(id)
      ensures EmergencyRecord() == (false, None, None)
      ensures Lights() == AllRed
      ensures AllQueues() == old(AllQueues())
    {
      SetEmergencyMode(false, None, None);
      SetAllLightsRed();
    }

    /** A vehicle joins the queue of the approach it arrives on (push_back). */
    method Enqueue(side: Side, v: Vehicle)
      requires Valid()
      modifies this
      ensures Valid() && id == old(id)
      ensures AllQueues() == WithQueue(old(AllQueues()), side, QueueAt(old(AllQueues()), side) + [v])
      ensures Lights() == old(Lights())
      ensures EmergencyRecord() == old(EmergencyRecord())
    {
      match side
      case North => north := north.(queue := north.queue + [v]);
      case South => south := south.(queue := south.queue + [v]);
      case East => east := east.(queue := east.queue + [v]);
      case West => west := west.(queue := west.queue + [v]);
    }

    /** The erase loop before crossing: the first entry with this id leaves
        the approach's queue; the others keep their order. */
    method EraseFromQueue(side: Side, vid: int)
      requires Valid()
      modifies this
      ensures Valid() && id == old(id)
      ensures AllQueues() == WithQueue(old(AllQueues()), side, RemoveFirst(QueueAt(old(AllQueues()), side), vid))
      ensures Lights() == old(Lights())
      ensures EmergencyRecord() == old(EmergencyRecord())
    {
      var q := Controller(side).queue;
      var i := FindById(q, vid);
      RemoveFirstAt(q, vid, i);
      if i < |q| {
        q := q[..i] + q[i + 1..];
        match side
        case North => north := north.(queue := q);
        case South => south := south.(queue := q);
        case East => east := east.(queue := q);
        case West => west := west.(queue := q);
      }
    }
  }

  /** An intersection holding a corridor: emergency mode on, the corridor's
      entry and exit recorded, and exactly those two sides GREEN. */
  ghost predicate InCorridor(x: Intersection, c: Corridor)
    reads x
  {
    && x.EmergencyRecord() == (true, Some(CorridorEntry(c)), Some(CorridorExit(c)))
    && CorridorPattern(x.Lights(), CorridorEntry(c), CorridorExit(c))
  }

  /** activateEastboundEmergencyCorridor: both intersections all RED, then
      WEST and EAST GREEN on each, emergency mode with entry WEST and exit EAST. */
  method ActivateEastboundEmergencyCorridor(f10: Intersection, f11: Intersection)
    requires f10 != f11 && f10.Valid() && f11.Valid()
    modifies f10, f11
    ensures f10.Valid() && f11.Valid()
    ensures InCorridor(f10, Eastbound) && InCorridor(f11, Eastbound)
    ensures f10.Lights() == Signals(Red, Red, Green, Green) && f11.Lights() == Signals(Red, Red, Green, Green)
    ensures f10.id == old(f10.id) && f11.id == old(f11.id)
    ensures f10.AllQueues() == old(f10.AllQueues()) && f11.AllQueues() == old(f11.AllQueues())
  {
    f10.SetAllLightsRed();
    f11.SetAllLightsRed();

    f10.SetControllerLight(West, Green);
    f10.SetControllerLight(East, Green);
    f10.SetEmergencyMode(true, Some(West), Some(East));

    f11.SetControllerLight(West, Green);
    f11.SetControllerLight(East, Green);
    f11.SetEmergencyMode(true, Some(West), Some(East));

    CorridorPatternIsEastWest(f10.Lights(), Eastbound);
    CorridorPatternIsEastWest(f11.Lights(), Eastbound);
  }

  /** activateWestboundEmergencyCorridor: the mirror image, F11 first, with
      entry EAST and exit WEST. */
  method ActivateWestboundEmergencyCorridor(f10: Intersection, f11: Intersection)
    requires f10 != f11 && f10.Valid() && f11.Valid()
    modifies f10, f11
    ensures f10.Valid() && f11.Valid()
    ensures InCorridor(f10, Westbound) && InCorridor(f11, Westbound)
    ensures f10.Lights() == Signals(Red, Red, Green, Green) && f11.Lights() == Signals(Red, Red, Green, Green)
    ensures f10.id == old(f10.id) && f11.id == old(f11.id)
    ensures f10.AllQueues() == old(f10.AllQueues()) && f11.AllQueues() == old(f11.AllQueues())
  {
    f10.SetAllLightsRed();
    f11.SetAllLightsRed();

    f11.SetControllerLight(East, Green);
    f11.SetControllerLight(West, Green);
    f11.SetEmergencyMode(true, Some(East), Some(West));

    f10.SetControllerLight(East, Green);
    f10.SetControllerLight(West, Green);
    f10.SetEmergencyMode(true, Some(East), Some(West));

    CorridorPatternIsEastWest(f10.Lights(), Westbound);
    CorridorPatternIsEastWest(f11.Lights(), Westbound);
  }

  /** deactivateEmergencyCorridor: both intersections leave emergency mode
      (entry and exit cleared) and are left all RED. */
  method DeactivateEmergencyCorridor(f10: Intersection, f11: Intersection)
    requires f10 != f11 && f10.Valid() && f11.Valid()
    modifies f10, f11
    ensures f10.Valid() && f11.Valid()
    ensures f10.EmergencyRecord() == (false, None, None) && f11.EmergencyRecord() == (false, None, None)
    ensures f10.Lights() == AllRed && f11.Lights() == AllRed
    ensures f10.id == old(f10.id) && f11.id == old(f11.id)
    ensures f10.AllQueues() == old(f10.AllQueues()) && f11.AllQueues() == old(f11.AllQueues())
  {
    f10.SetEmergencyMode(false, None, None);
    f11.SetEmergencyMode(false, None, None);
    f10.SetAllLightsRed();
    f11.SetAllLightsRed();
  }
}
