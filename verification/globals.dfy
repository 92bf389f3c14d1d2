/** The process-wide state of the simulation (the globals of main.cpp that
    simulation.h declares): the two intersections, their parking lots, the
    shutdown and emergency flags and the counters. The mutexes that guard
    them only make each step atomic and are not modelled. */
module Globals {
  import opened Wrappers
  import opened Vehicles
  import opened Intersections
  import opened Parking
  import Config

  class Simulation {
    const f10: Intersection
    const f11: Intersection
    const parkingF10: ParkingLot
    const parkingF11: ParkingLot

    var shutdown: bool
    var emergencyActive: bool
    var emergencyDirection: Option<Corridor>   // None: the empty string
    var vehiclesCompleted: int
    var totalVehiclesToSpawn: int
    var nextVehicleId: int

    /** The four objects are distinct, each intersection carries its own
        name, and every component is consistent. */
    ghost predicate Valid()
      reads this, f10, f11, parkingF10, parkingF11
    {
      && f10 != f11 && parkingF10 != parkingF11
      && f10.id == F10 && f11.id == F11
      && f10.Valid() && f11.Valid()
      && parkingF10.Valid() && parkingF11.Valid()
    }

    /** The global definitions of main.cpp followed by
        initializeIntersections and initializeParkingLots. */
    constructor ()
      ensures Valid()
      ensures fresh(f10) && fresh(f11) && fresh(parkingF10) && fresh(parkingF11)
      ensures !shutdown && !emergencyActive && emergencyDirection == None
      ensures vehiclesCompleted == 0 && nextVehicleId == 1
      ensures totalVehiclesToSpawn == Config.DEFAULT_VEHICLE_COUNT
      ensures f10.Lights() == AllRed && f11.Lights() == AllRed
      ensures f10.AllQueues() == Queues([], [], [], []) && f11.AllQueues() == Queues([], [], [], [])
      ensures !f10.emergencyMode && !f11.emergencyMode
      ensures parkingF10.name == "F10_Parking" && parkingF11.name == "F11_Parking"
      ensures parkingF10.parked == [] && parkingF10.waiting == []
      ensures parkingF11.parked == [] && parkingF11.waiting == []
      ensures parkingF10.AvailableSpots() == MAX_PARKING_SPOTS && parkingF11.AvailableSpots() == MAX_PARKING_SPOTS
    {
      f10 := new Intersection(F10);
      f11 := new Intersection(F11);
      parkingF10 := new ParkingLot("F10_Parking");
      parkingF11 := new ParkingLot("F11_Parking");
      shutdown := false;
      emergencyActive := false;
      emergencyDirection := None;
      vehiclesCompleted := 0;
      totalVehiclesToSpawn := Config.DEFAULT_VEHICLE_COUNT;
      nextVehicleId := 1;
    }

    /** The intersection a vehicle at `i` is at. */
    function Junction(i: IntersectionId): Intersection {
      if i == F10 then f10 else f11
    }

    /** The parking lot of intersection `i`. */
    function Lot(i: IntersectionId): ParkingLot {
      if i == F10 then parkingF10 else parkingF11
    }
  }
}
