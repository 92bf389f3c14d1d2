/** A parking lot of one intersection (parkinglot.h): a counting semaphore
    of free spots, one of free wait-queue slots, and the two vectors of
    parked and waiting vehicles. The access lock only makes each operation
    atomic, so every method here is one atomic step; a semaphore is its
    counter. */
module Parking {
  import opened Vehicles

  const MAX_PARKING_SPOTS: int := 10
  const MAX_WAITING_QUEUE: int := 5

  /** No emergency vehicle among `vs`. */
  predicate NoEmergency(vs: seq<Vehicle>) {
    forall k :: 0 <= k < |vs| ==> !IsEmergencyVehicle(vs[k].kind)
  }

  /** Removing a vehicle keeps a list free of emergency vehicles. */
  lemma RemoveKeepsNoEmergency(vs: seq<Vehicle>, id: int)
    requires NoEmergency(vs)
    ensures NoEmergency(RemoveFirst(vs, id))
  {
    var r := RemoveFirst(vs, id);
    forall k | 0 <= k < |r|
      ensures !IsEmergencyVehicle(r[k].kind)
    {
      assert r[k] in vs;
    }
  }

  /** What a lot holds, as one value: the two semaphore counters and the
      two vectors. */
  datatype LotState = LotState(spots: int, waitSlots: int, parked: seq<Vehicle>, waiting: seq<Vehicle>)

  /** Each semaphore counts exactly the places its vector leaves free,
      and emergency vehicles never enter either vector. */
  predicate ValidLot(s: LotState) {
    && 0 <= s.spots && s.spots + |s.parked| == MAX_PARKING_SPOTS
    && 0 <= s.waitSlots && s.waitSlots + |s.waiting| == MAX_WAITING_QUEUE
    && NoEmergency(s.parked) && NoEmergency(s.waiting)
  }

  class ParkingLot {
    var name: string      // intersection_id, e.g. "F10_Parking"
    var spots: int        // value of the parking_spots semaphore
    var waitSlots: int    // value of the waiting_queue semaphore
    var parked: seq<Vehicle>
    var waiting: seq<Vehicle>

    function State(): LotState
      reads this
    {
      LotState(spots, waitSlots, parked, waiting)
    }

    ghost predicate Valid()
      reads this
    {
      ValidLot(State())
    }

    /** ParkingLot(id), named after its intersection: ten free spots, five free wait slots, nobody inside. */
    constructor (name: string)
      ensures Valid() && this.name == name
      ensures spots == MAX_PARKING_SPOTS && waitSlots == MAX_WAITING_QUEUE
      ensures parked == [] && waiting == []
    {
      this.name := name;
      spots := MAX_PARKING_SPOTS;
      waitSlots := MAX_WAITING_QUEUE;
      parked := [];
      waiting := [];
    }

    /** initParkingLot: resets both semaphores to their capacities but keeps
        the vectors, so the lot is consistent afterwards only if it was empty. */
    method InitParkingLot(name: string)
      modifies this
      ensures this.name == name
      ensures spots == MAX_PARKING_SPOTS && waitSlots == MAX_WAITING_QUEUE
      ensures parked == old(parked) && waiting == old(waiting)
      ensures Valid() <==> parked == [] && waiting == []
    {
      this.name := name;
      spots := MAX_PARKING_SPOTS;
      waitSlots := MAX_WAITING_QUEUE;
    }

    /** getAvailableSpots. */
    function AvailableSpots(): (n: int)
      reads this
      ensures Valid() ==> 0 <= n <= MAX_PARKING_SPOTS && n == MAX_PARKING_SPOTS - |parked|
    {
      spots
    }

    /** getAvailableWaitSlots. */
    function AvailableWaitSlots(): (n: int)
      reads this
      ensures Valid() ==> 0 <= n <= MAX_WAITING_QUEUE && n == MAX_WAITING_QUEUE - |waiting|
    {
      waitSlots
    }

    /** tryPark: an emergency vehicle is refused; any other vehicle takes a
        free spot if there is one and is appended to the parked vehicles. */
    method TryPark(v: Vehicle) returns (ok: bool)
      requires Valid()
      modifies this
      ensures Valid() && name == old(name) && waiting == old(waiting) && waitSlots == old(waitSlots)
      ensures ok <==> !IsEmergencyVehicle(v.kind) && old(spots) > 0
      ensures ok ==> parked == old(parked) + [v] && spots == old(spots) - 1
      ensures !ok ==> parked == old(parked) && spots == old(spots)
    {
      if IsEmergencyVehicle(v.kind) {
        return false;
      }
      if spots > 0 {
        spots := spots - 1;
        parked := parked + [v];
        return true;
      }
      return false;
    }

    /** enterParking: like tryPark, but waits for a spot instead of failing;
        the wait is the precondition that a spot is free. */
    method EnterParking(v: Vehicle) returns (ok: bool)
      requires Valid()
      requires IsEmergencyVehicle(v.kind) || spots > 0
      modifies this
      ensures Valid() && name == old(name) && waiting == old(waiting) && waitSlots == old(waitSlots)
      ensures ok <==> !IsEmergencyVehicle(v.kind)
      ensures ok ==> parked == old(parked) + [v] && spots == old(spots) - 1
      ensures !ok ==> parked == old(parked) && spots == old(spots)
    {
      if IsEmergencyVehicle(v.kind) {
        return false;
      }
      spots := spots - 1;
      parked := parked + [v];
      return true;
    }

    /** exitParking(id): the first parked vehicle with that id leaves and its
        spot is released; an id that is not parked changes nothing. */
    method ExitParking(vid: int) returns (ok: bool)
      requires Valid()
      modifies this
      ensures Valid() && name == old(name) && waiting == old(waiting) && waitSlots == old(waitSlots)
      ensures ok <==> HasId(old(parked), vid)
      ensures parked == RemoveFirst(old(parked), vid)
      ensures spots == old(spots) + (if ok then 1 else 0)
    {
      var i := FindById(parked, vid);
      RemoveFirstAt(parked, vid, i);
      RemoveKeepsNoEmergency(parked, vid);
      if i < |parked| {
        parked := parked[..i] + parked[i + 1..];
        spots := spots + 1;
        return true;
      }
      return false;
    }

    /** exitParking(Vehicle&): the same, by the vehicle's id. */
    method ExitParkingVehicle(v: Vehicle) returns (ok: bool)
      requires Valid()
      modifies this
      ensures Valid() && name == old(name) && waiting == old(waiting) && waitSlots == old(waitSlots)
      ensures ok <==> HasId(old(parked), v.id)
      ensures parked == RemoveFirst(old(parked), v.id)
      ensures spots == old(spots) + (if ok then 1 else 0)
    {
      ok := ExitParking(v.id);
    }

    /** tryJoinWaitQueue: an emergency vehicle is refused; any other vehicle
        takes a free wait slot if there is one and is appended to the waiting
        vehicles. */
    method TryJoinWaitQueue(v: Vehicle) returns (ok: bool)
      requires Valid()
      modifies this
      ensures Valid() && name == old(name) && parked == old(parked) && spots == old(spots)
      ensures ok <==> !IsEmergencyVehicle(v.kind) && old(waitSlots) > 0
      ensures ok ==> waiting == old(waiting) + [v] && waitSlots == old(waitSlots) - 1
      ensures !ok ==> waiting == old(waiting) && waitSlots == old(waitSlots)
    {
      if IsEmergencyVehicle(v.kind) {
        return false;
      }
      if waitSlots > 0 {
        waitSlots := waitSlots - 1;
        waiting := waiting + [v];
        return true;
      }
      return false;
    }

    /** leaveWaitQueue: the first waiting vehicle with that id leaves and its
        slot is released; an id that is not waiting changes nothing. */
    method LeaveWaitQueue(vid: int) returns (ok: bool)
      requires Valid()
      modifies this
      ensures Valid() && name == old(name) && parked == old(parked) && spots == old(spots)
      ensures ok <==> HasId(old(waiting), vid)
      ensures waiting == RemoveFirst(old(waiting), vid)
      ensures waitSlots == old(waitSlots) + (if ok then 1 else 0)
    {
      var i := FindById(waiting, vid);
      RemoveFirstAt(waiting, vid, i);
      RemoveKeepsNoEmergency(waiting, vid);
      if i < |waiting| {
        waiting := waiting[..i] + waiting[i + 1..];
        waitSlots := waitSlots + 1;
        return true;
      }
      return false;
    }
  }
}
