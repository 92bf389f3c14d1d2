/** The vehicle threads, the spawner and the argument handling of main.cpp.
    Every draw from rand() is a parameter, and so is the moment a shutdown
    signal reaches a vehicle thread. Each vehicle thread is run on its own,
    from its first turn to its last, against the shared state; the waits
    on the condition variables and the sleeps are not modelled. */
module TrafficSim {
  import opened Wrappers
  import opened Vehicles
  import opened Intersections
  import opened Parking
  import opened Globals
  import Config

  // ---------------------------------------------------------------------
  // Spawning

  /** The draws of one turn of the spawner loop, in the order it takes
      them, and whether pthread_create succeeded. An emergency turn uses
      only the first three draws. */
  datatype SpawnAttempt = SpawnAttempt(
    emergencyDraw: nat,
    kindDraw: nat,
    placeDraw: nat,
    sideDraw: nat,
    directionDraw: nat,
    parkingDraw: nat,
    threadStarted: bool)

  /** The spawner's own direction draw (rand() % 3: LEFT, RIGHT, STRAIGHT),
      not getRandomDirection. */
  function SpawnerDirection(draw: nat): Direction {
    var r := draw % 3;
    if r == 0 then Left else if r == 1 then Right else Straight
  }

  /** Each direction takes exactly one of the three residues, so the spawner
      draws the three directions with equal chance, not 50/25/25. */
  lemma SpawnerDirectionUniform(d: Direction)
    ensures Config.CountOf(SpawnerDirection, d, 3) == 1
  {
    assert SpawnerDirection(0) == Left && SpawnerDirection(1) == Right && SpawnerDirection(2) == Straight;
  }

  /** The vehicle one spawner turn builds. A tenth of the draws make an
      emergency vehicle: an ambulance or a fire truck, HIGH priority, going
      STRAIGHT from one of the two corridor origins, never parking. Any
      other draw takes its type from the type table, MEDIUM priority for a
      bus and LOW otherwise, a random intersection and side, the spawner's
      direction and a 30% wish to park. */
  function SpawnedVehicle(id: int, a: SpawnAttempt): (v: Vehicle)
    ensures v.id == id && !v.hasExited
    ensures v.currentIntersection == v.spawnIntersection && v.currentSide == v.spawnSide
    ensures v.priority == High <==> a.emergencyDraw % 10 == 0
    ensures v.priority == High ==>
      && IsEmergencyVehicle(v.kind) && !v.wantsParking
      && IsValidEmergencySpawn(v.spawnIntersection, v.spawnSide, v.direction)
      && EmergencyDirection(v.spawnIntersection, v.spawnSide).Some?
    ensures v.priority != High ==>
      && v.kind == Config.VehicleTypeFor(a.kindDraw)
      && (v.priority == Medium <==> v.kind == Bus)
      && v.spawnIntersection == Config.IntersectionFor(a.placeDraw)
      && v.spawnSide == Config.SideFor(a.sideDraw)
      && v.direction == SpawnerDirection(a.directionDraw)
      && (v.wantsParking <==> a.parkingDraw % 10 < 3)
  {
    if a.emergencyDraw % 10 == 0 then
      var kind := if a.kindDraw % 2 == 0 then Ambulance else Firetruck;
      var spawn := if a.placeDraw % 2 == 0 then F10 else F11;
      var side := if a.placeDraw % 2 == 0 then West else East;
      Vehicle(id, kind, spawn, side, Straight, spawn, side, High, false, false)
    else
      var kind := Config.VehicleTypeFor(a.kindDraw);
      var priority := if kind == Bus then Medium else Low;
      var spawn := if a.placeDraw % 2 == 0 then F10 else F11;
      var r := a.sideDraw % 4;
      var side := if r == 0 then North else if r == 1 then South else if r == 2 then East else West;
      var direction := SpawnerDirection(a.directionDraw);
      Vehicle(id, kind, spawn, side, direction, spawn, side, priority, a.parkingDraw % 10 < 3, false)
  }

  /** A regular spawner turn builds what the Vehicle constructor would, plus
      the parking wish, except for an ambulance or fire truck drawn from the
      type table: the constructor would make it HIGH priority, the spawner
      leaves it LOW, so it queues and waits like any car. Draw 85 of the
      type table is such an ambulance. */
  lemma SpawnedAgreesWithConstructor(id: int, a: SpawnAttempt)
    requires a.emergencyDraw % 10 != 0
    ensures var v := SpawnedVehicle(id, a);
      && (!IsEmergencyVehicle(v.kind) ==>
            v == NewVehicle(id, v.kind, v.spawnIntersection, v.spawnSide, v.direction).(wantsParking := v.wantsParking))
      && (IsEmergencyVehicle(v.kind) ==> v.priority == Low && NewVehicle(id, v.kind, v.spawnIntersection, v.spawnSide, v.direction).priority == High)
    ensures a.kindDraw == 85 ==> SpawnedVehicle(id, a).kind == Ambulance && SpawnedVehicle(id, a).priority == Low
  {
    var v := SpawnedVehicle(id, a);
    if !IsEmergencyVehicle(v.kind) {
      var n := NewVehicle(id, v.kind, v.spawnIntersection, v.spawnSide, v.direction).(wantsParking := v.wantsParking);
      assert n.priority == v.priority;
    }
  }

  /** total_vehicles_to_spawn as a number of vehicles (none when it is not positive). */
  function Quota(total: int): nat {
    if total > 0 then total else 0
  }

  /** How many of the attempts start a thread. */
  function StartedCount(attempts: seq<SpawnAttempt>): (n: nat)
    ensures n <= |attempts|
  {
    if attempts == [] then 0
    else (if attempts[0].threadStarted then 1 else 0) + StartedCount(attempts[1..])
  }

  /** How many attempts the spawner makes before `quota` threads run (or
      the draws run out); each one takes an id. */
  function AttemptsUsed(attempts: seq<SpawnAttempt>, quota: nat): (n: nat)
    ensures n <= |attempts|
  {
    if quota == 0 || attempts == [] then 0
    else 1 + AttemptsUsed(attempts[1..], if attempts[0].threadStarted then quota - 1 else quota)
  }

  /** The vehicles whose threads the spawner starts, ids counting up from
      `firstId`: each attempt takes the next id, and the vehicle it builds
      is kept when its thread started. */
  function SpawnRun(firstId: int, attempts: seq<SpawnAttempt>, quota: nat): (r: seq<Vehicle>)
    ensures |r| <= quota
    decreases |attempts|
  {
    if quota == 0 || attempts == [] then []
    else
      var a := attempts[0];
      var v := SpawnedVehicle(firstId, a);
      var rest := SpawnRun(firstId + 1, attempts[1..], if a.threadStarted then quota - 1 else quota);
      if a.threadStarted then [v] + rest else rest
  }

  /** The spawner starts `quota` threads, fewer only when fewer threads
      could be created. */
  lemma {:induction false} SpawnRunLength(firstId: int, attempts: seq<SpawnAttempt>, quota: nat)
    ensures var n := StartedCount(attempts);
      |SpawnRun(firstId, attempts, quota)| == if quota <= n then quota else n
    decreases |attempts|
  {
    if quota > 0 && attempts != [] {
      SpawnRunLength(firstId + 1, attempts[1..], if attempts[0].threadStarted then quota - 1 else quota);
    }
  }

  predicate IdsWithin(r: seq<Vehicle>, lo: int, hi: int) {
    forall k :: 0 <= k < |r| ==> lo <= r[k].id < hi
  }

  predicate IdsIncreasing(r: seq<Vehicle>) {
    forall j, k :: 0 <= j < k < |r| ==> r[j].id < r[k].id
  }

  /** Every vehicle starts where it spawned and has not exited; one with
      HIGH priority starts at a corridor origin. */
  predicate AllAtSpawn(r: seq<Vehicle>) {
    forall k :: 0 <= k < |r| ==>
      && !r[k].hasExited
      && r[k].currentIntersection == r[k].spawnIntersection && r[k].currentSide == r[k].spawnSide
      && (r[k].priority == High ==> IsValidEmergencySpawn(r[k].spawnIntersection, r[k].spawnSide, r[k].direction))
  }

  /** Ids are handed out in increasing order, every id lies in the range the
      attempts used (a failed thread still uses up its id), and every vehicle
      is launched fresh at its spawn point. */
  lemma {:induction false} SpawnRunIds(firstId: int, attempts: seq<SpawnAttempt>, quota: nat)
    ensures IdsWithin(SpawnRun(firstId, attempts, quota), firstId, firstId + AttemptsUsed(attempts, quota))
    ensures IdsIncreasing(SpawnRun(firstId, attempts, quota))
    ensures AllAtSpawn(SpawnRun(firstId, attempts, quota))
    decreases |attempts|
  {
    if quota > 0 && attempts != [] {
      var a := attempts[0];
      var q := if a.threadStarted then quota - 1 else quota;
      SpawnRunIds(firstId + 1, attempts[1..], q);
      var rest := SpawnRun(firstId + 1, attempts[1..], q);
      var r := SpawnRun(firstId, attempts, quota);
      var hi := firstId + AttemptsUsed(attempts, quota);
      assert hi == firstId + 1 + AttemptsUsed(attempts[1..], q);
      if a.threadStarted {
        var v := SpawnedVehicle(firstId, a);
        assert r == [v] + rest;
        forall k | 0 <= k < |r|
          ensures firstId <= r[k].id < hi
        {
          if k > 0 {
            assert r[k] == rest[k - 1];
          }
        }
        forall j, k | 0 <= j < k < |r|
          ensures r[j].id < r[k].id
        {
          assert r[k] == rest[k - 1];
          if j > 0 {
            assert r[j] == rest[j - 1];
          }
        }
      } else {
        assert r == rest;
      }
    }
  }

  /** One spawner turn peeled off the front of a run. */
  lemma SpawnRunStep(firstId: int, attempts: seq<SpawnAttempt>, quota: nat)
    requires quota > 0 && attempts != []
    ensures var a := attempts[0];
      var q := if a.threadStarted then quota - 1 else quota;
      && SpawnRun(firstId, attempts, quota)
         == (if a.threadStarted then [SpawnedVehicle(firstId, a)] else []) + SpawnRun(firstId + 1, attempts[1..], q)
      && AttemptsUsed(attempts, quota) == 1 + AttemptsUsed(attempts[1..], q)
  {
    var a := attempts[0];
    var q := if a.threadStarted then quota - 1 else quota;
    if !a.threadStarted {
      assert [] + SpawnRun(firstId + 1, attempts[1..], q) == SpawnRun(firstId + 1, attempts[1..], q);
    }
  }

  /** The spawner loop's invariant after `t` turns: what is launched so far
      followed by the run over the remaining draws is the whole run. */
  predicate SpawnedSoFar(firstId: int, attempts: seq<SpawnAttempt>, quota: nat, launched: seq<Vehicle>, t: nat) {
    && t <= |attempts| && |launched| <= quota
    && launched + SpawnRun(firstId + t, attempts[t..], quota - |launched|) == SpawnRun(firstId, attempts, quota)
    && t + AttemptsUsed(attempts[t..], quota - |launched|) == AttemptsUsed(attempts, quota)
  }

  /** The spawner loop's invariant survives one turn. */
  lemma SpawnerStep(firstId: int, attempts: seq<SpawnAttempt>, quota: nat, launched: seq<Vehicle>, t: nat)
    requires t < |attempts| && |launched| < quota
    requires SpawnedSoFar(firstId, attempts, quota, launched, t)
    ensures var a := attempts[t];
      SpawnedSoFar(firstId, attempts, quota,
        if a.threadStarted then launched + [SpawnedVehicle(firstId + t, a)] else launched, t + 1)
  {
    var q := quota - |launched|;
    var a := attempts[t];
    assert attempts[t..][1..] == attempts[t + 1..];
    SpawnRunStep(firstId + t, attempts[t..], q);
    var later := SpawnRun(firstId + t + 1, attempts[t + 1..], if a.threadStarted then q - 1 else q);
    if a.threadStarted {
      assert launched + ([SpawnedVehicle(firstId + t, a)] + later) == launched + [SpawnedVehicle(firstId + t, a)] + later;
    } else {
      assert [] + later == later;
    }
  }

  /** When the quota is reached or the draws run out, the run is complete. */
  lemma SpawnerDone(firstId: int, attempts: seq<SpawnAttempt>, quota: nat, launched: seq<Vehicle>, t: nat)
    requires SpawnedSoFar(firstId, attempts, quota, launched, t)
    requires |launched| >= quota || t >= |attempts|
    ensures launched == SpawnRun(firstId, attempts, quota)
    ensures t == AttemptsUsed(attempts, quota)
  {
    assert SpawnRun(firstId + t, attempts[t..], quota - |launched|) == [];
    assert launched + [] == launched;
  }

  /** vehicleSpawnerThread: while fewer than total_vehicles_to_spawn
      threads run and shutdown is not set, take the next id, build a
      vehicle from the next draws and start its thread. The model stops
      also when the draws run out. */
  method Spawner(w: Simulation, attempts: seq<SpawnAttempt>) returns (launched: seq<Vehicle>)
    modifies w
    ensures w.shutdown == old(w.shutdown) && w.totalVehiclesToSpawn == old(w.totalVehiclesToSpawn)
    ensures w.emergencyActive == old(w.emergencyActive) && w.emergencyDirection == old(w.emergencyDirection)
    ensures w.vehiclesCompleted == old(w.vehiclesCompleted)
    ensures old(w.shutdown) ==> launched == [] && w.nextVehicleId == old(w.nextVehicleId)
    ensures !old(w.shutdown) ==>
      && launched == SpawnRun(old(w.nextVehicleId), attempts, Quota(w.totalVehiclesToSpawn))
      && w.nextVehicleId == old(w.nextVehicleId) + AttemptsUsed(attempts, Quota(w.totalVehiclesToSpawn))
  {
    ghost var quota := Quota(w.totalVehiclesToSpawn);
    ghost var firstId := w.nextVehicleId;
    launched := [];
    var t := 0;
    while |launched| < w.totalVehiclesToSpawn && !w.shutdown && t < |attempts|
      invariant w.shutdown == old(w.shutdown) && w.totalVehiclesToSpawn == old(w.totalVehiclesToSpawn)
      invariant w.emergencyActive == old(w.emergencyActive) && w.emergencyDirection == old(w.emergencyDirection)
      invariant w.vehiclesCompleted == old(w.vehiclesCompleted)
      invariant w.shutdown ==> t == 0 && launched == []
      invariant w.nextVehicleId == firstId + t
      invariant SpawnedSoFar(firstId, attempts, quota, launched, t)
    {
      var a := attempts[t];
      var id := w.nextVehicleId;
      w.nextVehicleId := w.nextVehicleId + 1;
      var v := SpawnedVehicle(id, a);
      SpawnerStep(firstId, attempts, quota, launched, t);
      if a.threadStarted {
        launched := launched + [v];
      }
      t := t + 1;
    }
    if !w.shutdown {
      SpawnerDone(firstId, attempts, quota, launched, t);
    }
  }

  /** The spawner's pause between turns and a parked vehicle's stay are
      `min + rand() % (max - min)`: always below `max`, where
      getRandomDelay can reach `max` itself. */
  function HalfOpenDelay(minDelay: int, maxDelay: int, draw: nat): (d: int)
    requires minDelay < maxDelay
    ensures minDelay <= d < maxDelay
  {
    minDelay + draw % (maxDelay - minDelay)
  }

  lemma DelayRangesDiffer(minDelay: int, maxDelay: int, draw: nat)
    requires minDelay < maxDelay
    ensures HalfOpenDelay(minDelay, maxDelay, draw) != maxDelay
    ensures Config.DelayFor(minDelay, maxDelay, maxDelay - minDelay) == maxDelay
  {
    var m := maxDelay - minDelay;
    assert m % (m + 1) == m;
  }

  /** The vehicle count from the command line: a positive number given as
      the first argument, otherwise DEFAULT_VEHICLE_COUNT. `arg` is what
      atoi returned, None without an argument. */
  function VehicleCountFromArgs(arg: Option<int>): (n: int)
    ensures n > 0
    ensures arg.Some? && arg.value > 0 ==> n == arg.value
    ensures arg.None? || arg.value <= 0 ==> n == Config.DEFAULT_VEHICLE_COUNT
  {
    match arg
    case None => Config.DEFAULT_VEHICLE_COUNT
    case Some(n) => if n <= 0 then Config.DEFAULT_VEHICLE_COUNT else n
  }

  // ---------------------------------------------------------------------
  // Moving through the intersections

  /** Where a vehicle is after crossing its current intersection: in the
      other intersection, entering through the shared boundary, or gone. */
  function Advance(v: Vehicle): (r: Vehicle)
    requires !v.hasExited
    ensures r.hasExited <==> !WillTransition(v.currentIntersection, ExitSide(v.currentSide, v.direction))
    ensures !r.hasExited ==>
      r.currentIntersection == OtherIntersection(v.currentIntersection)
      && r.currentSide == Opposite(ExitSide(v.currentSide, v.direction))
    ensures r.hasExited ==> r.currentIntersection == v.currentIntersection && r.currentSide == v.currentSide
    ensures r.(currentIntersection := v.currentIntersection, currentSide := v.currentSide, hasExited := false) == v
  {
    match NextIntersection(v.currentIntersection, ExitSide(v.currentSide, v.direction))
    case Transit(j, e) => v.(currentIntersection := j, currentSide := e)
    case Exited => v.(hasExited := true)
  }

  /** How many intersections the vehicle still has to cross. */
  function LegsLeft(v: Vehicle): nat {
    if v.hasExited then 0
    else if Advance(v).hasExited then 1
    else 2
  }

  /** Every crossing brings the vehicle one leg nearer its exit: a vehicle
      handed to the other intersection always leaves the map there, so no
      route has more than two legs. */
  lemma AdvanceCountsDown(v: Vehicle)
    requires !v.hasExited
    ensures LegsLeft(Advance(v)) == LegsLeft(v) - 1
  {
    var r := Advance(v);
    if !r.hasExited {
      HandOffAtMostOnce(v.currentIntersection, v.currentSide, v.direction);
      assert r.currentSide == Opposite(ExitSide(v.currentSide, v.direction));
    }
  }

  /** The vehicle once it has crossed every intersection on its route. */
  function AdvanceAll(v: Vehicle): (r: Vehicle)
    ensures r.hasExited
    ensures r.id == v.id && r.kind == v.kind && r.priority == v.priority && r.direction == v.direction
    ensures r.wantsParking == v.wantsParking
    decreases LegsLeft(v)
  {
    if v.hasExited then v
    else
      AdvanceCountsDown(v);
      AdvanceAll(Advance(v))
  }

  /** An emergency vehicle crosses in one turn, taking the hand-off to the
      other intersection if its route has one, and is then gone. */
  function EmergencyCrossed(v: Vehicle): Vehicle
    requires !v.hasExited
  {
    Advance(v).(hasExited := true)
  }

  /** The emergency turn and the regular turns take a vehicle to the same
      place. */
  lemma EmergencyAndRegularEndAlike(v: Vehicle)
    requires !v.hasExited
    ensures EmergencyCrossed(v) == AdvanceAll(v)
  {
    var r := Advance(v);
    assert AdvanceAll(v) == AdvanceAll(r);
    if !r.hasExited {
      AdvanceCountsDown(v);
      assert LegsLeft(r) == 1;
      var e := Advance(r);
      assert e.hasExited;
      assert AdvanceAll(r) == AdvanceAll(e) == e;
      assert e == r.(hasExited := true);
    }
  }

  /** Parking a vehicle that is no emergency vehicle and then removing an
      entry keeps emergency vehicles out of the lot. */
  lemma NoEmergencyAfterParking(vs: seq<Vehicle>, v: Vehicle)
    requires !IsEmergencyVehicle(v.kind)
    ensures NoEmergency(vs) ==> NoEmergency(RemoveFirst(vs + [v], v.id))
  {
    if !NoEmergency(vs) {
      return;
    }
    var all := vs + [v];
    var r := RemoveFirst(all, v.id);
    forall k | 0 <= k < |r|
      ensures !IsEmergencyVehicle(r[k].kind)
    {
      assert r[k] in all;
      var j :| 0 <= j < |all| && all[j] == r[k];
      if j < |vs| {
        assert all[j] == vs[j];
      }
    }
  }

  datatype ParkingOutcome = ParkedAndLeft | WaitedInQueue | ParkedForGood | TurnedAway

  /** Appending a vehicle that is no emergency vehicle keeps a list free of them. */
  lemma AppendKeepsNoEmergency(vs: seq<Vehicle>, v: Vehicle)
    ensures NoEmergency(vs) && !IsEmergencyVehicle(v.kind) ==> NoEmergency(vs + [v])
  {
    if !NoEmergency(vs) || IsEmergencyVehicle(v.kind) {
      return;
    }
    forall k | 0 <= k < |vs + [v]|
      ensures !IsEmergencyVehicle((vs + [v])[k].kind)
    {
      if k < |vs| {
        assert (vs + [v])[k] == vs[k];
      }
    }
  }

  /** A successful retry after another vehicle left keeps a lot consistent. */
  lemma RetryKeepsLotValid(s: LotState, v: Vehicle, leaver: int)
    ensures ValidLot(s) && !IsEmergencyVehicle(v.kind) && s.waitSlots > 0 && HasId(s.parked, leaver) ==>
      ValidLot(s.(parked := RemoveFirst(s.parked, leaver) + [v], waitSlots := s.waitSlots - 1, waiting := s.waiting + [v]))
  {
    if ValidLot(s) {
      RemoveKeepsNoEmergency(s.parked, leaver);
      AppendKeepsNoEmergency(RemoveFirst(s.parked, leaver), v);
      AppendKeepsNoEmergency(s.waiting, v);
    }
  }

  /** The parking step of a regular vehicle on a lot holding `s`. A free
      spot is taken and, after the stay, given back. With no free spot the
      vehicle takes a wait slot if one is free, waits, and tries for a spot
      once more. `leaver` is what other threads do meanwhile: the id of a
      vehicle whose exitParking runs during the wait, if any. When that
      frees a spot the retry takes it, and as nothing calls exitParking
      for this vehicle afterwards it stays parked, and in the waiting list,
      for good. The wait slot is never given back. */
  function ParkingVisit(s: LotState, v: Vehicle, leaver: Option<int>): (r: (LotState, ParkingOutcome))
    ensures ValidLot(s) ==> ValidLot(r.0)
    ensures r.1 == ParkedAndLeft <==> !IsEmergencyVehicle(v.kind) && s.spots > 0
    ensures r.1 in {WaitedInQueue, ParkedForGood} <==> !IsEmergencyVehicle(v.kind) && s.spots <= 0 && s.waitSlots > 0
    ensures ValidLot(s) ==>
      (r.1 == ParkedForGood <==> r.1 in {WaitedInQueue, ParkedForGood} && leaver.Some? && HasId(s.parked, leaver.value))
    ensures r.1 == ParkedAndLeft ==> r.0.spots == s.spots && r.0.waiting == s.waiting && r.0.waitSlots == s.waitSlots
    ensures r.1 == ParkedAndLeft && !HasId(s.parked, v.id) ==> r.0 == s
    ensures ValidLot(s) && r.1 == WaitedInQueue ==>
      r.0 == s.(waitSlots := s.waitSlots - 1, waiting := s.waiting + [v])
    ensures r.1 == ParkedForGood ==>
      && leaver.Some?
      && r.0 == s.(parked := RemoveFirst(s.parked, leaver.value) + [v], waitSlots := s.waitSlots - 1, waiting := s.waiting + [v])
    ensures r.1 == TurnedAway ==> r.0 == s
  {
    if !IsEmergencyVehicle(v.kind) && s.spots > 0 then
      assert (s.parked + [v])[|s.parked|].id == v.id;
      if !HasId(s.parked, v.id) then AppendThenRemove(s.parked, v); (s, ParkedAndLeft)
      else
        NoEmergencyAfterParking(s.parked, v);
        (s.(parked := RemoveFirst(s.parked + [v], v.id)), ParkedAndLeft)
    else if !IsEmergencyVehicle(v.kind) && s.waitSlots > 0 then
      var queued := s.(waitSlots := s.waitSlots - 1, waiting := s.waiting + [v]);
      if leaver.Some? && HasId(s.parked, leaver.value) && s.spots + 1 > 0 then
        RetryKeepsLotValid(s, v, leaver.value);
        (queued.(parked := RemoveFirst(s.parked, leaver.value) + [v]), ParkedForGood)
      else
        AppendKeepsNoEmergency(s.waiting, v);
        (queued.(parked := if leaver.Some? then RemoveFirst(s.parked, leaver.value) else s.parked,
                 spots := if leaver.Some? && HasId(s.parked, leaver.value) then s.spots + 1 else s.spots),
         WaitedInQueue)
    else
      (s, TurnedAway)
  }

  /** A vehicle parked for good holds its spot and its wait slot: the lot
      has it both parked and waiting, no spot is free, and until some
      other vehicle leaves, every later visitor is turned away or waits. */
  lemma ParkedForGoodHoldsSpot(s: LotState, v: Vehicle, leaver: Option<int>, u: Vehicle)
    requires ValidLot(s) && ParkingVisit(s, v, leaver).1 == ParkedForGood
    ensures var t := ParkingVisit(s, v, leaver).0;
      && v in t.parked && v in t.waiting && t.spots == 0
      && ParkingVisit(t, u, None).1 in {WaitedInQueue, TurnedAway}
  {
    var t := ParkingVisit(s, v, leaver).0;
    assert t.parked[|t.parked| - 1] == v;
    assert t.waiting[|t.waiting| - 1] == v;
  }

  /** The parking step of main.cpp on one lot: tryPark, and after the stay
      exitParking; failing that, tryJoinWaitQueue, the wait, during which
      the vehicle `leaver` (if any) leaves the lot, and one more tryPark,
      whose result is ignored. */
  method VisitLot(lot: ParkingLot, v: Vehicle, leaver: Option<int>) returns (outcome: ParkingOutcome)
    requires lot.Valid()
    modifies lot
    ensures lot.Valid() && lot.name == old(lot.name)
    ensures (lot.State(), outcome) == ParkingVisit(old(lot.State()), v, leaver)
  {
    ghost var before := lot.parked;
    var parked := lot.TryPark(v);
    if parked {
      assert lot.parked[|before|].id == v.id;
      var _ := lot.ExitParkingVehicle(v);
      if !HasId(before, v.id) {
        AppendThenRemove(before, v);
      }
      return ParkedAndLeft;
    }
    var queued := lot.TryJoinWaitQueue(v);
    if queued {
      if leaver.Some? {
        var _ := lot.ExitParking(leaver.value);
      }
      var retried := lot.TryPark(v);
      return if retried then ParkedForGood else WaitedInQueue;
    }
    return TurnedAway;
  }

  /** One turn of the vehicle thread for a vehicle without HIGH priority,
      at its current intersection: it joins the queue of its approach; a
      shutdown seen while it waits there ends the turn and leaves it queued.
      Otherwise it leaves the queue, crosses, makes its parking stop if it
      wants one, and is either handed to the other intersection or gone. */
  method RegularTurn(w: Simulation, v: Vehicle, shutdownWhileQueued: bool, leaver: Option<int>) returns (next: Vehicle)
    requires w.Valid() && !v.hasExited
    modifies w.Junction(v.currentIntersection), w.Lot(v.currentIntersection)
    ensures w.Valid()
    ensures var x := w.Junction(v.currentIntersection);
      x.Lights() == old(x.Lights()) && x.EmergencyRecord() == old(x.EmergencyRecord())
    ensures var x := w.Junction(v.currentIntersection);
      var q := old(x.AllQueues());
      var queue := QueueAt(q, v.currentSide) + [v];
      x.AllQueues() == WithQueue(q, v.currentSide, if shutdownWhileQueued then queue else RemoveFirst(queue, v.id))
    ensures var x := w.Junction(v.currentIntersection);
      var q := old(x.AllQueues());
      !shutdownWhileQueued && !HasId(QueueAt(q, v.currentSide), v.id) ==> x.AllQueues() == q
    ensures var lot := w.Lot(v.currentIntersection);
      lot.name == old(lot.name)
      && lot.State() == (if shutdownWhileQueued || !v.wantsParking then old(lot.State())
                         else ParkingVisit(old(lot.State()), v, leaver).0)
    ensures next == if shutdownWhileQueued then v else Advance(v)
  {
    var x := w.Junction(v.currentIntersection);
    var lot := w.Lot(v.currentIntersection);
    ghost var q := x.AllQueues();
    x.Enqueue(v.currentSide, v);
    if shutdownWhileQueued {
      return v;
    }
    x.EraseFromQueue(v.currentSide, v.id);
    if !HasId(QueueAt(q, v.currentSide), v.id) {
      AppendThenRemove(QueueAt(q, v.currentSide), v);
      QueuesExt(x.AllQueues(), q);
    }
    if v.wantsParking {
      var _ := VisitLot(lot, v, leaver);
    }
    next := Advance(v);
  }

  /** Two queue records that agree on every side are equal. */
  lemma QueuesExt(a: Queues, b: Queues)
    requires forall s :: QueueAt(a, s) == QueueAt(b, s)
    ensures a == b
  {
    assert QueueAt(a, North) == QueueAt(b, North) && QueueAt(a, South) == QueueAt(b, South);
    assert QueueAt(a, East) == QueueAt(b, East) && QueueAt(a, West) == QueueAt(b, West);
  }

  /** The member of a pair (F10's, F11's) that belongs to intersection `i`. */
  function PairAt<T>(pair: (T, T), i: IntersectionId): T {
    if i == F10 then pair.0 else pair.1
  }

  /** The pair with the member of intersection `i` replaced. */
  function PairWith<T>(pair: (T, T), i: IntersectionId, x: T): (r: (T, T))
    ensures PairAt(r, i) == x && PairAt(r, OtherIntersection(i)) == PairAt(pair, OtherIntersection(i))
  {
    if i == F10 then (x, pair.1) else (pair.0, x)
  }

  /** The turn of the vehicle thread for a HIGH-priority vehicle. A vehicle
      spawned at a corridor origin raises the emergency flag, records the
      direction and opens that corridor on both intersections; `corridor`
      is the pair of light states it then crosses under. It crosses, taking
      the hand-off if its route has one, and then the flag and the
      direction are cleared and the corridor is closed, all RED, whether or
      not one was opened. */
  method EmergencyTurn(w: Simulation, v: Vehicle) returns (next: Vehicle, corridor: Option<(Signals, Signals)>)
    requires w.Valid() && !v.hasExited
    modifies w, w.f10, w.f11
    ensures w.Valid()
    ensures next == EmergencyCrossed(v)
    ensures !w.emergencyActive && w.emergencyDirection == None
    ensures w.f10.EmergencyRecord() == (false, None, None) && w.f11.EmergencyRecord() == (false, None, None)
    ensures w.f10.Lights() == AllRed && w.f11.Lights() == AllRed
    ensures w.f10.AllQueues() == old(w.f10.AllQueues()) && w.f11.AllQueues() == old(w.f11.AllQueues())
    ensures w.shutdown == old(w.shutdown) && w.vehiclesCompleted == old(w.vehiclesCompleted)
    ensures w.nextVehicleId == old(w.nextVehicleId) && w.totalVehiclesToSpawn == old(w.totalVehiclesToSpawn)
    ensures corridor.Some? <==> EmergencyDirection(v.spawnIntersection, v.spawnSide).Some?
    ensures corridor.Some? ==>
      var c := EmergencyDirection(v.spawnIntersection, v.spawnSide).value;
      && CorridorPattern(corridor.value.0, CorridorEntry(c), CorridorExit(c))
      && CorridorPattern(corridor.value.1, CorridorEntry(c), CorridorExit(c))
    ensures corridor.Some? && v.direction == Straight
            && v.currentIntersection == v.spawnIntersection && v.currentSide == v.spawnSide ==>
      && LightAt(PairAt(corridor.value, v.currentIntersection), v.currentSide) == Green
      && !Advance(v).hasExited
      && LightAt(PairAt(corridor.value, Advance(v).currentIntersection), Advance(v).currentSide) == Green
  {
    if v.spawnIntersection == F10 && v.spawnSide == West {
      w.emergencyActive := true;
      w.emergencyDirection := Some(Eastbound);
      ActivateEastboundEmergencyCorridor(w.f10, w.f11);
      corridor := Some((w.f10.Lights(), w.f11.Lights()));
    } else if v.spawnIntersection == F11 && v.spawnSide == East {
      w.emergencyActive := true;
      w.emergencyDirection := Some(Westbound);
      ActivateWestboundEmergencyCorridor(w.f10, w.f11);
      corridor := Some((w.f10.Lights(), w.f11.Lights()));
    } else {
      corridor := None;
    }
    next := EmergencyCrossed(v);
    w.emergencyActive := false;
    w.emergencyDirection := None;
    DeactivateEmergencyCorridor(w.f10, w.f11);
  }

  // ---------------------------------------------------------------------
  // The vehicle thread

  /** When the shutdown signal reaches a vehicle thread: never, just before
      the loop test of a given turn, or while the vehicle waits in the queue
      during a given turn. Turns count from 0. */
  datatype ShutdownAt = Never | BeforeTurn(turn: nat) | WhileQueued(turn: nat)

  /** How many turns the loop of the vehicle thread takes: one for a HIGH
      priority vehicle, one per leg for any other. */
  function Turns(v: Vehicle): nat {
    if v.hasExited then 0
    else if v.priority == High then 1
    else LegsLeft(v)
  }

  /** The signal reaches the thread within its first `turns` turns, at a
      point where the thread looks at the flag. */
  predicate StopsWithin(s: ShutdownAt, v: Vehicle, turns: nat) {
    match s
    case Never => false
    case BeforeTurn(k) => k < turns
    case WhileQueued(k) => v.priority != High && k < turns
  }

  /** Everything the emergency machinery touches: the lights and emergency
      records of both intersections, the emergency flag and direction. */
  ghost function SignalView(w: Simulation): (Signals, Signals, (bool, Option<Side>, Option<Side>), (bool, Option<Side>, Option<Side>), bool, Option<Corridor>)
    reads w, w.f10, w.f11
  {
    (w.f10.Lights(), w.f11.Lights(), w.f10.EmergencyRecord(), w.f11.EmergencyRecord(), w.emergencyActive, w.emergencyDirection)
  }

  /** The view after an emergency vehicle has crossed: every light RED, both
      intersections out of emergency mode with no entry or exit, and the
      global emergency flag and direction cleared. */
  const ClearedSignals: (Signals, Signals, (bool, Option<Side>, Option<Side>), (bool, Option<Side>, Option<Side>), bool, Option<Corridor>) :=
    (AllRed, AllRed, (false, None, None), (false, None, None), false, None)

  /** The approach queues of both intersections, F10's first. */
  ghost function QueuesView(w: Simulation): (Queues, Queues)
    reads w, w.f10, w.f11
  {
    (w.f10.AllQueues(), w.f11.AllQueues())
  }

  /** The states of both parking lots, F10's first. */
  ghost function LotsView(w: Simulation): (LotState, LotState)
    reads w, w.parkingF10, w.parkingF11
  {
    (w.parkingF10.State(), w.parkingF11.State())
  }

  /** No approach queue of either intersection holds a vehicle with this id. */
  predicate Unqueued(qs: (Queues, Queues), id: int) {
    forall s :: !HasId(QueueAt(qs.0, s), id) && !HasId(QueueAt(qs.1, s), id)
  }

  /** The queues after `v` joined the approach it is at. */
  function Enqueued(qs: (Queues, Queues), v: Vehicle): (r: (Queues, Queues))
    ensures QueueAt(PairAt(r, v.currentIntersection), v.currentSide)
      == QueueAt(PairAt(qs, v.currentIntersection), v.currentSide) + [v]
    ensures forall s :: s != v.currentSide ==>
      QueueAt(PairAt(r, v.currentIntersection), s) == QueueAt(PairAt(qs, v.currentIntersection), s)
    ensures PairAt(r, OtherIntersection(v.currentIntersection)) == PairAt(qs, OtherIntersection(v.currentIntersection))
  {
    var q := PairAt(qs, v.currentIntersection);
    PairWith(qs, v.currentIntersection, WithQueue(q, v.currentSide, QueueAt(q, v.currentSide) + [v]))
  }

  /** The lots after the parking step of `v` at its intersection, if it
      wants one; the other lot is left alone. */
  function AfterParking(lots: (LotState, LotState), v: Vehicle, leaver: Option<int>): (r: (LotState, LotState))
    ensures ValidLot(lots.0) && ValidLot(lots.1) ==> ValidLot(r.0) && ValidLot(r.1)
    ensures PairAt(r, OtherIntersection(v.currentIntersection)) == PairAt(lots, OtherIntersection(v.currentIntersection))
    ensures !v.wantsParking ==> r == lots
  {
    if v.wantsParking then
      PairWith(lots, v.currentIntersection, ParkingVisit(PairAt(lots, v.currentIntersection), v, leaver).0)
    else lots
  }

  /** The thread of `v0` ended waiting in a queue: it was running, and the
      signal reached it while queued within the turns it takes. */
  predicate StoppedWhileQueued(signal: ShutdownAt, v0: Vehicle, wasShutdown: bool) {
    !wasShutdown && !v0.hasExited && signal.WhileQueued? && StopsWithin(signal, v0, Turns(v0))
  }

  /** The lots after the parking stops a thread makes from turn `turn` on:
      one stop per leg of a vehicle without HIGH priority, each at the
      intersection it crosses, until the vehicle exits or the signal
      reaches the thread. No other thread leaves a lot meanwhile. */
  function LotsAfterRun(lots: (LotState, LotState), v: Vehicle, signal: ShutdownAt, turn: nat): (LotState, LotState)
    decreases LegsLeft(v)
  {
    if v.hasExited || v.priority == High || signal == BeforeTurn(turn) || signal == WhileQueued(turn) then lots
    else
      AdvanceCountsDown(v);
      LotsAfterRun(AfterParking(lots, v, None), Advance(v), signal, turn + 1)
  }

  /** A run keeps both lots consistent, and a vehicle with HIGH priority or
      without a parking wish leaves them as they were. */
  lemma {:induction false} LotsAfterRunKeeps(lots: (LotState, LotState), v: Vehicle, signal: ShutdownAt, turn: nat)
    ensures var r := LotsAfterRun(lots, v, signal, turn);
      && (ValidLot(lots.0) && ValidLot(lots.1) ==> ValidLot(r.0) && ValidLot(r.1))
      && (v.priority == High || !v.wantsParking ==> r == lots)
    decreases LegsLeft(v)
  {
    if !(v.hasExited || v.priority == High || signal == BeforeTurn(turn) || signal == WhileQueued(turn)) {
      AdvanceCountsDown(v);
      LotsAfterRunKeeps(AfterParking(lots, v, None), Advance(v), signal, turn + 1);
    }
  }

  /** `after` is `before` with one more vehicle, of this id, in the wait
      queue and one wait slot fewer. */
  predicate JoinedWaiting(before: LotState, after: LotState, id: int) {
    && |after.waiting| == |before.waiting| + 1
    && after.waiting[|before.waiting|].id == id
    && after == before.(waitSlots := before.waitSlots - 1, waiting := before.waiting + [after.waiting[|before.waiting|]])
  }

  /** One parking stop of a vehicle not parked in a consistent lot either
      leaves the lot as it was or leaves the vehicle in its wait queue. */
  lemma FreshVisitEffect(s: LotState, u: Vehicle)
    requires ValidLot(s) && !HasId(s.parked, u.id)
    ensures var t := ParkingVisit(s, u, None).0;
      && !HasId(t.parked, u.id)
      && (t == s || JoinedWaiting(s, t, u.id))
  {
    var t := ParkingVisit(s, u, None).0;
    if t != s {
      assert t == s.(waitSlots := s.waitSlots - 1, waiting := s.waiting + [u]);
      assert t.waiting[|s.waiting|] == u;
    }
  }

  /** The effect of a whole run on the lots, for a vehicle parked in
      neither: a route visits each lot at most once, so each lot is either
      unchanged or holds the vehicle at the end of its wait queue, with
      one wait slot fewer. */
  lemma FreshRunLots(lots: (LotState, LotState), v: Vehicle, signal: ShutdownAt, turn: nat)
    requires ValidLot(lots.0) && ValidLot(lots.1)
    requires !HasId(lots.0.parked, v.id) && !HasId(lots.1.parked, v.id)
    ensures var r := LotsAfterRun(lots, v, signal, turn);
      && (r.0 == lots.0 || JoinedWaiting(lots.0, r.0, v.id))
      && (r.1 == lots.1 || JoinedWaiting(lots.1, r.1, v.id))
  {
    if v.hasExited || v.priority == High || signal == BeforeTurn(turn) || signal == WhileQueued(turn) || !v.wantsParking {
      LotsAfterRunKeeps(lots, v, signal, turn);
      return;
    }
    var i := v.currentIntersection;
    FreshVisitEffect(PairAt(lots, i), v);
    var l1 := AfterParking(lots, v, None);
    var v1 := Advance(v);
    AdvanceCountsDown(v);
    if v1.hasExited || signal == BeforeTurn(turn + 1) || signal == WhileQueued(turn + 1) {
      assert LotsAfterRun(lots, v, signal, turn) == l1;
      return;
    }
    assert v1.currentIntersection == OtherIntersection(i);
    FreshVisitEffect(PairAt(l1, v1.currentIntersection), v1);
    var l2 := AfterParking(l1, v1, None);
    var v2 := Advance(v1);
    AdvanceCountsDown(v1);
    assert LotsAfterRun(l1, v1, signal, turn + 1) == LotsAfterRun(l2, v2, signal, turn + 2) == l2;
  }

  /** One iteration of the loop of vehicleThread, by priority. */
  method VehicleTurn(w: Simulation, v: Vehicle, stopWhileQueued: bool, leaver: Option<int>) returns (next: Vehicle)
    requires w.Valid() && !v.hasExited
    requires stopWhileQueued ==> v.priority != High
    modifies w, w.f10, w.f11, w.parkingF10, w.parkingF11
    ensures w.Valid()
    ensures w.shutdown == old(w.shutdown) && w.vehiclesCompleted == old(w.vehiclesCompleted)
    ensures w.nextVehicleId == old(w.nextVehicleId) && w.totalVehiclesToSpawn == old(w.totalVehiclesToSpawn)
    ensures next.priority == v.priority
    ensures stopWhileQueued ==> next == v
    ensures !stopWhileQueued ==>
      && Turns(next) == Turns(v) - 1
      && (next.hasExited ==> next == AdvanceAll(v))
      && (!next.hasExited ==> AdvanceAll(next) == AdvanceAll(v))
    ensures v.priority != High ==> SignalView(w) == old(SignalView(w))
    ensures v.priority == High ==> SignalView(w) == ClearedSignals
    ensures v.priority == High ==> QueuesView(w) == old(QueuesView(w)) && LotsView(w) == old(LotsView(w))
    ensures stopWhileQueued ==> QueuesView(w) == Enqueued(old(QueuesView(w)), v) && LotsView(w) == old(LotsView(w))
    ensures !stopWhileQueued && Unqueued(old(QueuesView(w)), v.id) ==> QueuesView(w) == old(QueuesView(w))
    ensures v.priority != High && !stopWhileQueued ==> LotsView(w) == AfterParking(old(LotsView(w)), v, leaver)
    ensures v.priority != High && !stopWhileQueued ==> next == Advance(v)
  {
    if v.priority == High {
      EmergencyAndRegularEndAlike(v);
      var corridor;
      next, corridor := EmergencyTurn(w, v);
    } else {
      AdvanceCountsDown(v);
      next := RegularTurn(w, v, stopWhileQueued, leaver);
    }
  }

  /** One pass through the loop of vehicleThread at turn `turn`: the
      signal may arrive before the turn, which then does nothing but set
      shutdown, or, for a vehicle without HIGH priority, while it waits in
      its queue, which sets shutdown and leaves it there. `stop` says the
      thread has seen shutdown. */
  method ThreadTurn(w: Simulation, v: Vehicle, signal: ShutdownAt, turn: nat) returns (next: Vehicle, stop: bool)
    requires w.Valid() && !v.hasExited && !w.shutdown
    modifies w, w.f10, w.f11, w.parkingF10, w.parkingF11
    ensures w.Valid()
    ensures stop <==> signal == BeforeTurn(turn) || (v.priority != High && signal == WhileQueued(turn))
    ensures w.shutdown == stop
    ensures w.vehiclesCompleted == old(w.vehiclesCompleted)
    ensures w.nextVehicleId == old(w.nextVehicleId) && w.totalVehiclesToSpawn == old(w.totalVehiclesToSpawn)
    ensures next.id == v.id && next.priority == v.priority && next.wantsParking == v.wantsParking
    ensures stop ==> next == v
    ensures !stop ==>
      && Turns(next) == Turns(v) - 1
      && (next.hasExited ==> next == AdvanceAll(v))
      && (!next.hasExited ==> AdvanceAll(next) == AdvanceAll(v))
    ensures v.priority != High || stop ==> SignalView(w) == old(SignalView(w))
    ensures v.priority == High && !stop ==> SignalView(w) == ClearedSignals
    ensures stop ==> LotsView(w) == old(LotsAfterRun(LotsView(w), v, signal, turn))
    ensures !stop ==> LotsAfterRun(LotsView(w), next, signal, turn + 1) == old(LotsAfterRun(LotsView(w), v, signal, turn))
    ensures Unqueued(old(QueuesView(w)), v.id) ==>
      QueuesView(w) == if stop && signal == WhileQueued(turn) then Enqueued(old(QueuesView(w)), v)
                       else old(QueuesView(w))
  {
    if signal == BeforeTurn(turn) {
      w.shutdown := true;
      return v, true;
    }
    stop := v.priority != High && signal == WhileQueued(turn);
    next := VehicleTurn(w, v, stop, None);
    if stop {
      w.shutdown := true;
    }
  }

  /** After `turn` turns the thread's vehicle `v` is on the route of `v0`,
      with as many turns left as the route still needs, and the signal has
      not yet reached the thread. */
  predicate RouteSoFar(v0: Vehicle, v: Vehicle, signal: ShutdownAt, turn: nat) {
    && turn + Turns(v) == Turns(v0)
    && (!v.hasExited ==> AdvanceAll(v) == AdvanceAll(v0))
    && (v.hasExited ==> v0.hasExited || v == AdvanceAll(v0))
    && (v0.priority == High ==> v == v0 || v.hasExited)
    && v.id == v0.id && v.wantsParking == v0.wantsParking
    && !StopsWithin(signal, v0, turn)
  }

  /** The loop of vehicleThread: it runs while the vehicle has not exited
      and shutdown is not set, one turn per iteration. `signal` says when,
      if at all, shutdown is raised while it runs. */
  method DriveRoute(w: Simulation, v0: Vehicle, signal: ShutdownAt) returns (v: Vehicle)
    requires w.Valid()
    modifies w, w.f10, w.f11, w.parkingF10, w.parkingF11
    ensures w.Valid()
    ensures v.hasExited <==> v0.hasExited || (!old(w.shutdown) && !StopsWithin(signal, v0, Turns(v0)))
    ensures w.shutdown <==> old(w.shutdown) || (!v0.hasExited && StopsWithin(signal, v0, Turns(v0)))
    ensures w.vehiclesCompleted == old(w.vehiclesCompleted)
    ensures w.nextVehicleId == old(w.nextVehicleId) && w.totalVehiclesToSpawn == old(w.totalVehiclesToSpawn)
    ensures v.hasExited && !v0.hasExited ==> v == AdvanceAll(v0)
    ensures v0.priority != High || !v.hasExited ==> SignalView(w) == old(SignalView(w))
    ensures v0.priority == High && v.hasExited && !v0.hasExited ==> SignalView(w) == ClearedSignals
    ensures v0.priority == High || !v0.wantsParking ==> LotsView(w) == old(LotsView(w))
    ensures LotsView(w) == if old(w.shutdown) then old(LotsView(w)) else LotsAfterRun(old(LotsView(w)), v0, signal, 0)
    ensures Unqueued(old(QueuesView(w)), v0.id) ==>
      QueuesView(w) == if StoppedWhileQueued(signal, v0, old(w.shutdown)) then Enqueued(old(QueuesView(w)), v)
                       else old(QueuesView(w))
  {
    v := v0;
    if w.shutdown {
      // the loop test fails at once
      LotsAfterRunKeeps(LotsView(w), v0, signal, 0);
      return;
    }
    ghost var signals, queues, lots := SignalView(w), QueuesView(w), LotsView(w);
    ghost var parkedAfter := LotsAfterRun(lots, v0, signal, 0);
    var turn: nat := 0;
    while !v.hasExited && !w.shutdown
      invariant w.Valid()
      invariant RouteSoFar(v0, v, signal, turn)
      invariant !w.shutdown
      invariant w.vehiclesCompleted == old(w.vehiclesCompleted)
      invariant w.nextVehicleId == old(w.nextVehicleId) && w.totalVehiclesToSpawn == old(w.totalVehiclesToSpawn)
      invariant v0.priority != High || v == v0 ==> SignalView(w) == signals
      invariant v0.priority == High && v.hasExited && !v0.hasExited ==> SignalView(w) == ClearedSignals
      invariant LotsAfterRun(LotsView(w), v, signal, turn) == parkedAfter
      invariant Unqueued(queues, v0.id) ==> QueuesView(w) == queues
      decreases Turns(v)
    {
      var stop;
      v, stop := ThreadTurn(w, v, signal, turn);
      if stop {
        break;
      }
      turn := turn + 1;
    }
    LotsAfterRunKeeps(lots, v0, signal, 0);
  }

  /** vehicleThread: the loop of `DriveRoute`, after which a vehicle that
      has exited is counted as completed. `signal` says when, if at
      all, shutdown is raised while this thread runs. A vehicle completes
      exactly when the signal misses all its turns, and then it has crossed
      its whole route. A vehicle without HIGH priority never touches the
      lights or the emergency state. */
  method VehicleThread(w: Simulation, v0: Vehicle, signal: ShutdownAt) returns (v: Vehicle, completed: bool)
    requires w.Valid()
    modifies w, w.f10, w.f11, w.parkingF10, w.parkingF11
    ensures w.Valid()
    ensures completed == v.hasExited
    ensures completed <==> v0.hasExited || (!old(w.shutdown) && !StopsWithin(signal, v0, Turns(v0)))
    ensures w.shutdown <==> old(w.shutdown) || (!v0.hasExited && StopsWithin(signal, v0, Turns(v0)))
    ensures w.vehiclesCompleted == old(w.vehiclesCompleted) + (if completed then 1 else 0)
    ensures w.nextVehicleId == old(w.nextVehicleId) && w.totalVehiclesToSpawn == old(w.totalVehiclesToSpawn)
    ensures completed && !v0.hasExited ==> v == AdvanceAll(v0)
    ensures v0.priority != High || !completed ==> SignalView(w) == old(SignalView(w))
    ensures v0.priority == High && completed && !v0.hasExited ==> SignalView(w) == ClearedSignals
    ensures v0.priority == High || !v0.wantsParking ==> LotsView(w) == old(LotsView(w))
    ensures LotsView(w) == if old(w.shutdown) then old(LotsView(w)) else LotsAfterRun(old(LotsView(w)), v0, signal, 0)
    ensures Unqueued(old(QueuesView(w)), v0.id) ==>
      QueuesView(w) == if StoppedWhileQueued(signal, v0, old(w.shutdown)) then Enqueued(old(QueuesView(w)), v)
                       else old(QueuesView(w))
  {
    v := DriveRoute(w, v0, signal);
    completed := v.hasExited;
    if completed {
      w.vehiclesCompleted := w.vehiclesCompleted + 1;
    }
  }
}
