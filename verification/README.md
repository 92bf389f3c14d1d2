# Two-intersection traffic simulation, modelled in Dafny

This project models the sequential core of a simulation of two linked
intersections, F10 (west) and F11 (east). F10's EAST side meets F11's WEST
side. The model covers:

- **Vehicles** (`vehicles.dfy`): the vehicle record, its two constructors,
  the turn table (`getExitSide`), the hand-off between the two
  intersections, the two emergency corridors and their announced paths, and
  the first-match erase by id that the parking lot and the approach queues
  use.
- **Configuration** (`config.dfy`): the constants and the attribute draws
  of `simulation.h`. Every `rand()` result is a parameter `draw: nat`.
- **Intersections** (`intersection.dfy`): a class with four approaches
  (light and queue), the emergency flag and the recorded entry/exit pair.
  It has the light setters and getters and corridor activation and
  deactivation.
- **Parking lots** (`parking.dfy`): a class with the two counting
  semaphores (free spots, free wait slots), the parked and waiting vehicles,
  and `tryPark`, `enterParking`, `exitParking`, `tryJoinWaitQueue` and
  `leaveWaitQueue`.
- **Simulation state** (`globals.dfy`): the process-wide state of
  `main.cpp`. This is the shutdown flag, the emergency flag and direction,
  the counters, the two intersections and the two lots.
- **Signal controller** (`controller.dfy`): `controller.h`'s phase cycles,
  the controller thread loops, emergency handling and vehicle crossing.
- **Light relay** (`relay.dfy`): the two phase-authority processes of
  `main.cpp` and the listener thread that applies their eight-byte tags to
  the intersections. The main results are:
  - the relayed lights follow the authority's cycle from any starting
    state;
  - after the first tag, the relayed lights keep the normal-mode invariant
    (the two sides of an axis agree, and at most one axis is not RED);
  - the relay overwrites an emergency corridor.
- **Vehicle thread and spawner** (`trafficsim.dfy`): the vehicle thread
  of `main.cpp` (emergency and regular turns, the parking stop), the
  spawner loop and the command-line vehicle count.

Threads, sleeps and pipes are not modelled. Each atomic step (one critical
section) is one method call. What a thread would learn from a timer, a pipe
or a signal is an input:
- the draws of `rand()`;
- the bytes a read returns;
- the turn at which the shutdown signal arrives.

## Model

| member | source | states |
|---|---|---|
| Vehicles.IsEmergencyVehicle | vehicle.h:52-54 | emergency vehicles are exactly ambulances and fire trucks; `Vehicles.NewVehicle` gives exactly them HIGH priority, `Config.WantsParkingFor` never gives them a parking wish, and `Config.EmergencyTypeShare` shows the type table draws them for 15 of 100 residues |
| Vehicles.NewVehicle | vehicle.h:23-45 | the record takes the given id, type, spawn point and direction, and starts at its spawn point, not parking and not exited; HIGH priority exactly for an ambulance or fire truck, MEDIUM exactly for a bus, LOW for the rest |
| Vehicles.DefaultVehicle | vehicle.h:47-49 | the default vehicle is the parameterised constructor applied to id 0, Car, F10, NORTH, STRAIGHT |
| Vehicles.Opposite | vehicle.h:79-85 | the opposite side is never the side itself |
| Vehicles.OppositeInvolution | vehicle.h:79-85 | taking the opposite side twice gives the side back |
| Vehicles.ExitSide | vehicle.h:87-104 | no vehicle leaves by the side it entered; STRAIGHT leaves by the opposite side |
| Vehicles.StraightTwiceReturns | vehicle.h:88-90 | two straight crossings lead back to the starting side |
| Vehicles.LeftRightInverse | vehicle.h:91-102 | LEFT from NORTH leaves by EAST, so LEFT is the rotation N, E, S, W; RIGHT undoes LEFT and LEFT undoes RIGHT; four LEFT turns come back round; LEFT and RIGHT exits are opposite |
| Vehicles.TurnTableComplete | vehicle.h:87-104 | from every side, the three directions reach exactly the three other sides |
| Vehicles.WillTransition | vehicle.h:106-110 | true exactly for F10's EAST exit and F11's WEST exit; `Vehicles.NextIntersection` hands off exactly then, `Vehicles.HandOffSymmetric` shows the hand-off leads back, and `Vehicles.HandOffAtMostOnce` that it happens at most once |
| Vehicles.OtherIntersection | main.cpp:141 | the other intersection differs from the current one |
| Vehicles.NextIntersection | vehicle.h:112-126 | a hand-off happens exactly when willTransitionToOtherIntersection holds; it enters the other intersection by the side opposite the exit |
| Vehicles.HandOffSymmetric | vehicle.h:112-126 | leaving the next intersection by the side one entered it leads back to the exit one came from |
| Vehicles.HandOffAtMostOnce | vehicle.h:106-110 | a vehicle that keeps its direction cannot be handed off a second time |
| Vehicles.IsValidEmergencySpawn | vehicle.h:56-61 | valid exactly for a STRAIGHT vehicle at the origin intersection and entry side of one of the two corridors; such a vehicle's exit leads on to the other intersection |
| Vehicles.EmergencyDirection | vehicle.h:73-77 | a corridor is found exactly for the valid straight spawn pairs, and it starts at that intersection and side |
| Vehicles.EmergencyDirectionRoundTrip | vehicle.h:73-77 | every corridor is found again from its own origin and entry side |
| Vehicles.EmergencyPath | vehicle.h:63-71 | a path exists exactly when a corridor does; it has four waypoints and starts at the spawn point |
| Vehicles.EmergencyPathFollowsRouting | vehicle.h:63-71 | the announced path is the route that the turn table and the hand-off rule give a straight vehicle; the vehicle exits after the fourth waypoint |
| Vehicles.EmergencyPathsMirror | vehicle.h:64-69 | the westbound path is the eastbound path reversed |
| Vehicles.RemoveFirst | parkinglot.h:98-105 | erasing by id shortens the list by one exactly when the id is present, leaves it unchanged otherwise, and adds nothing |
| Vehicles.FindById | parkinglot.h:98-99 | the search returns the first index holding the id, or the length when none does |
| Vehicles.RemoveFirstAt | parkinglot.h:98-105 | erasing at the index the search finds is the first-match erase, and the search succeeds exactly when the id is present |
| Vehicles.AppendThenRemove | main.cpp:214-221 | appending a vehicle whose id is absent and then erasing that id restores the list |
| Config.VehicleTypeFor | simulation.h:96-114 | each type is drawn exactly for its cumulative range of residues mod 100 |
| Config.VehicleTypeTableMatchesProbabilities | simulation.h:28-34 | the six shares add up to 100, and exactly PROB_x of the 100 residues give type x |
| Config.EmergencyTypeShare | simulation.h:96-114 | exactly PROB_AMBULANCE + PROB_FIRETRUCK of the 100 residues of a type draw give an emergency vehicle |
| Config.SideFor | simulation.h:116-118 | the side is SPAWN_SIDES indexed by the draw mod 4 |
| Config.DirectionFor | simulation.h:120-129 | STRAIGHT, LEFT and RIGHT are drawn exactly for their residue ranges |
| Config.DirectionTableMatchesProbabilities | simulation.h:38-41 | exactly 50, 25 and 25 of the 100 residues give STRAIGHT, LEFT and RIGHT |
| Config.IntersectionFor | simulation.h:131-133 | F10 exactly for even draws |
| Config.WantsParkingFor | simulation.h:135-140 | an emergency vehicle never wants parking; any other vehicle does exactly when the draw mod 100 is below 30 |
| Config.DelayFor | simulation.h:142-144 | the delay lies in [min, max], both ends included |
| Intersections.CorridorPatternIsEastWest | intersection.h:114-154 | a corridor's light pattern is exactly EAST and WEST green with NORTH and SOUTH red, and it keeps the normal-mode invariant |
| Intersections.Intersection.constructor | main.cpp:530-552 | an initialised intersection is all RED, has empty queues and no emergency record |
| Intersections.Intersection.InitIntersection | intersection.h:40-52 | sets the name and all four lights to RED and clears the emergency flag; queues and the recorded entry/exit are kept |
| Intersections.Intersection.Controller | intersection.h:54-59 | the approach returned is the one on that side, with that side's light and queue |
| Intersections.Intersection.ControllerLight | intersection.h:72-83 | returns the light of the named side |
| Intersections.Intersection.CanVehicleMove | intersection.h:85-87 | true exactly when the approach's light is GREEN |
| Intersections.Intersection.IsEmergencyMode | intersection.h:107-112 | returns the emergency flag |
| Intersections.Intersection.SetControllerLight | intersection.h:61-70 | changes that one light and nothing else |
| Intersections.Intersection.SetAllLightsRed | intersection.h:89-96 | all four lights RED; queues and emergency record unchanged |
| Intersections.Intersection.SetEmergencyMode | intersection.h:98-105 | overwrites the flag and the entry/exit pair; lights and queues unchanged |
| Intersections.Intersection.DeactivateEmergencyMode | intersection.h:168-172 | the emergency record is cleared and all lights are RED |
| Intersections.Intersection.Enqueue | main.cpp:169 | the vehicle is appended to its approach's queue; the other queues, the lights and the record are unchanged |
| Intersections.Intersection.EraseFromQueue | main.cpp:198-203 | the approach's queue loses its first entry with that id; everything else is unchanged |
| Intersections.ActivateEastboundEmergencyCorridor | intersection.h:114-133 | both intersections are in the eastbound corridor (flag set, entry WEST and exit EAST recorded, exactly those two sides GREEN); queues unchanged |
| Intersections.ActivateWestboundEmergencyCorridor | intersection.h:135-154 | the mirror image: entry EAST and exit WEST recorded, the same light pattern |
| Intersections.DeactivateEmergencyCorridor | intersection.h:156-166 | both intersections leave emergency mode, all RED, queues unchanged |
| Parking.ParkingLot.constructor | parkinglot.h:23-28 | a new lot has MAX_PARKING_SPOTS free spots, MAX_WAITING_QUEUE free wait slots and nobody inside |
| Parking.ParkingLot.InitParkingLot | parkinglot.h:43-48 | both counters are reset to their capacities and the vectors are kept, so the lot is consistent afterwards exactly when it was empty |
| Parking.ParkingLot.AvailableSpots | parkinglot.h:56-60 | in a consistent lot the free spots are capacity minus parked vehicles |
| Parking.ParkingLot.AvailableWaitSlots | parkinglot.h:62-66 | in a consistent lot the free wait slots are capacity minus waiting vehicles |
| Parking.ParkingLot.TryPark | parkinglot.h:68-80 | succeeds exactly for a vehicle that is no emergency vehicle when a spot is free; on success the vehicle is appended and one spot is taken, on failure nothing changes; consistency is kept |
| Parking.ParkingLot.EnterParking | parkinglot.h:82-93 | given a free spot, succeeds exactly for a vehicle that is no emergency vehicle and then appends it and takes a spot |
| Parking.ParkingLot.ExitParking | parkinglot.h:95-109 | succeeds exactly when the id is parked; the first such vehicle leaves and its spot is released |
| Parking.ParkingLot.ExitParkingVehicle | parkinglot.h:111-113 | the same, by the vehicle's id |
| Parking.ParkingLot.TryJoinWaitQueue | parkinglot.h:115-127 | succeeds exactly for a vehicle that is no emergency vehicle when a wait slot is free; then the vehicle is appended and one slot is taken |
| Parking.ParkingLot.LeaveWaitQueue | parkinglot.h:129-143 | succeeds exactly when the id is waiting; the first such vehicle leaves and its slot is released |
| Globals.Simulation.constructor | main.cpp:42-57 | flags clear, counters at their initial values (next id 1, quota DEFAULT_VEHICLE_COUNT), both intersections all RED with empty queues, both lots empty and named |
| Controller.ApplyPhase | main.cpp:389-414 | a phase change gives both sides of its axis its colour; a GREEN phase turns the two cross sides RED, and YELLOW or RED leaves them as they were |
| Controller.OtherAxis | controller.h:112-118 | the alternation switches to the other axis |
| Controller.CycleStates | controller.h:17-42 | after each step of a started cycle, the axis shows that step's light and the cross axis is RED; the full cycle ends all RED; every state keeps the normal-mode invariant |
| Controller.CycleNorthSouth | controller.h:17-42 | in emergency mode nothing happens; otherwise the lights are the first 1, 2 or 3 north-south phases, depending on where an emergency or shutdown stops the cycle; queues and record unchanged |
| Controller.CycleEastWest | controller.h:44-69 | the same for the east-west axis |
| Controller.AxisAt | controller.h:112-118 | the k-th cycle runs the first axis exactly when k is even |
| Controller.CyclesRun | controller.h:93-119 | the cycles a controller loop runs: one for each turn before the first SHUTDOWN token in which the emergency flag is clear; so never more than the turns read |
| Controller.ControllerThread | controller.h:86-162 | the loop runs one cycle per turn without the emergency flag, up to a SHUTDOWN token; the cycles alternate starting with north-south (F10) or east-west (F11); afterwards the lights are all RED when any cycle ran outside emergency mode |
| Controller.HandleEmergencyVehicle | controller.h:164-185 | the emergency flag is always raised; a valid spawn pair records its direction, puts both intersections in that corridor and sends one alert to the other controller; any other pair changes nothing else and sends nothing |
| Controller.ClearEmergency | controller.h:187-197 | flag and direction cleared, both intersections out of emergency mode and all RED, a CLEAR token sent to each controller |
| Controller.ProcessVehicleCrossing | controller.h:199-221 | the returned exit is the turn table's exit, never the entry; the vehicle moves to the exit side unless shutdown is set |
| Relay.Tag | main.cpp:280-305 | every tag is eight characters without a NUL |
| Relay.ParseTag | main.cpp:390-414 | reads an eight-character string back as the intersection and phase change of one of the twelve tags, and anything else as no tag; `Relay.TagRoundTrip`, `Relay.ParseTagExact` and `Relay.TagIff` prove the two directions |
| Relay.TagRoundTrip | main.cpp:390-414 | every tag is read back as the phase change it was written for |
| Relay.ParseTagExact | main.cpp:390-414 | whatever is read as a tag is exactly that tag |
| Relay.TagIff | main.cpp:390-414 | a string is a given tag exactly when it is read as that phase change |
| Relay.CString | main.cpp:384-387 | the string is the buffer's prefix before the first NUL |
| Relay.CStringOfTag | main.cpp:384-390 | eight bytes read as a tag exactly when they are that tag |
| Relay.RelaySignals | main.cpp:384-415 | the effect of one read on one intersection's lights: eight bytes carrying a tag of that intersection apply its phase change (`Relay.RelayTagApplies`); a short read, a tag of the other intersection or any other string changes nothing (`Relay.RelayIgnores`) |
| Relay.RelayRead | main.cpp:383-416 | the lights become the effect of the read on that intersection; queues and the emergency record are unchanged |
| Relay.ListenerTurn | main.cpp:382-453 | each intersection's lights take the effect of its read, if select reported one |
| Relay.LightStateListener | main.cpp:365-458 | each intersection's lights are its reads applied in arrival order, or unchanged when shutdown was already set |
| Relay.FullCycle | main.cpp:280-305 | one authority turn announces six phase changes |
| Relay.AuthorityTurns | main.cpp:266-277 | the cycles an authority announces: one for each turn before the first S token whose read was not an E or W token; so never more than the turns read |
| Relay.PhaseAuthority | main.cpp:257-309 | the authority writes the cycle's tags in order, six per turn that is not skipped, until the termination signal or the end of the given inbox |
| Relay.WriteCycle | main.cpp:279-305 | one turn appends the next tags of the cycle, stopping at the termination signal |
| Relay.CycleStatesExclusive | main.cpp:389-415 | every state of the relayed cycle keeps the normal-mode invariant, and the end of a cycle is all RED |
| Relay.CycleStep | main.cpp:280-305 | one more phase change moves the relayed cycle one state on, wrapping round |
| Relay.CycleStateFromAllRed | main.cpp:280-305 | the cycle's states are what its phase changes make of all RED |
| Relay.RelayTagApplies | main.cpp:389-414 | a tag of the relay's own intersection applies its phase change |
| Relay.RelayFollowsAuthority | main.cpp:383-416 | whatever the lights were, after the authority's first k tags the lights are the (k-1 mod 6)-th state of the cycle |
| Relay.RelayedAuthorityExclusive | main.cpp:389-415 | the relayed lights keep the normal-mode invariant, and are all RED at the end of each cycle |
| Relay.RelayIgnores | main.cpp:385-414 | a short read and a tag of the other intersection leave the lights unchanged |
| Relay.RelayOverridesCorridor | main.cpp:389-395 | a north-south GREEN tag arriving in emergency mode turns the corridor's green sides RED |
| TrafficSim.SpawnerDirection | main.cpp:499-504 | the spawner's direction draw maps the residues 0, 1, 2 mod 3 to LEFT, RIGHT, STRAIGHT; `TrafficSim.SpawnerDirectionUniform` shows each direction has one residue |
| TrafficSim.SpawnerDirectionUniform | main.cpp:499-504 | each of the three directions takes exactly one residue mod 3 |
| TrafficSim.SpawnedVehicle | main.cpp:464-511 | HIGH exactly for a tenth of the draws; an emergency vehicle goes straight from a corridor origin and never parks; any other vehicle takes its type from the type table, MEDIUM exactly for a bus, its side from SPAWN_SIDES, and parks with probability 3/10 |
| TrafficSim.SpawnedAgreesWithConstructor | main.cpp:486-487 | a regular spawn equals the constructor's vehicle plus the parking wish, except that an ambulance or fire truck from the type table gets LOW where the constructor gives HIGH |
| TrafficSim.SpawnRun | main.cpp:463-520 | at most quota vehicles are launched |
| TrafficSim.SpawnRunLength | main.cpp:463-516 | the spawner launches min(quota, started threads) vehicles |
| TrafficSim.SpawnRunIds | main.cpp:466-468 | the launched ids are strictly increasing and lie between the first id and the first id plus the attempts used; every launched vehicle starts unexited at its spawn point, and a HIGH-priority one at a corridor origin |
| TrafficSim.Spawner | main.cpp:460-527 | without shutdown, launches exactly the spawn run of the draws and advances next_vehicle_id by one per attempt; with shutdown, launches nothing |
| TrafficSim.HalfOpenDelay | main.cpp:522 | the spawner's pause and the stay in a lot lie in [min, max) |
| TrafficSim.DelayRangesDiffer | main.cpp:522 | the half-open delay never reaches max, and getRandomDelay can |
| TrafficSim.VehicleCountFromArgs | main.cpp:609-614 | the count is always positive: the given number when it is positive, DEFAULT_VEHICLE_COUNT otherwise |
| TrafficSim.Advance | main.cpp:231-241 | the vehicle leaves exactly when it does not take the hand-off; otherwise it enters the other intersection by the side opposite its exit; nothing else changes |
| TrafficSim.AdvanceCountsDown | main.cpp:233-241 | each leg taken leaves one fewer leg |
| TrafficSim.AdvanceAll | main.cpp:88-241 | following a route to its end leaves the vehicle exited with its id, type, priority and direction |
| TrafficSim.EmergencyCrossed | main.cpp:137-163 | an emergency vehicle crosses its intersection, takes the hand-off if its exit leads to the other intersection, and is then gone; `TrafficSim.EmergencyAndRegularEndAlike` shows this is where a regular vehicle with the same route ends |
| TrafficSim.EmergencyAndRegularEndAlike | main.cpp:137-163 | the emergency branch ends where a regular vehicle's route ends |
| TrafficSim.ParkingVisit | main.cpp:212-229 | lot consistency is kept; parked-and-left exactly when the vehicle is no emergency vehicle and a spot is free, and the lot is then as before; the vehicle queues exactly when no spot but a wait slot is free, and that slot is kept; in a consistent lot the retry then parks it for good exactly when the vehicle leaving during the wait was parked there, and the lot holds the vehicle both parked and waiting; otherwise the queued vehicle only holds its wait slot; a turned-away vehicle changes nothing |
| TrafficSim.ParkedForGoodHoldsSpot | main.cpp:224-227 | a vehicle parked for good by the retry stays in both vectors and leaves no spot free, so every later visitor, with nobody leaving, queues or is turned away |
| TrafficSim.VisitLot | main.cpp:213-228 | the lot and the outcome are those of ParkingVisit, given which vehicle other threads take out of the lot during the wait |
| TrafficSim.RegularTurn | main.cpp:165-242 | lights and record unchanged; the vehicle is queued and then erased again unless shutdown arrives while it waits; a fresh id leaves the queues as they were; the lot changes as ParkingVisit says when the vehicle wants parking; the vehicle advances one leg |
| TrafficSim.EmergencyTurn | main.cpp:115-163 | a corridor opens exactly for a valid spawn pair, with its light pattern on both intersections, and a straight vehicle from the origin sees GREEN on both legs; afterwards flag and direction are cleared, both intersections are all RED, and the vehicle has exited |
| TrafficSim.VehicleTurn | main.cpp:88-243 | one turn takes one leg (one turn in all for HIGH priority) towards the route's end; a HIGH-priority turn leaves every queue and both lots unchanged, and ends with the global emergency flag and direction cleared, both intersections out of emergency mode with entry and exit cleared, and all lights RED; any other turn leaves lights and emergency state unchanged, changes only the lot of its intersection and as ParkingVisit says, and, with an id no queue holds, leaves the queues as they were; a turn stopped while queued leaves the vehicle appended to its approach queue and the lots unchanged; a regular turn that is not stopped advances the vehicle one leg |
| TrafficSim.ThreadTurn | main.cpp:88-243 | one pass of the loop at a given turn: it stops exactly when the signal arrives before the turn, or while a vehicle without HIGH priority waits in its queue, and then sets shutdown; a signal before the turn changes nothing else; otherwise the pass is the vehicle's turn, a HIGH-priority one ending with both intersections out of emergency mode and all RED, and the lots after the remaining parking stops are as before it |
| TrafficSim.LotsAfterRun | main.cpp:88-229 | the lots after a run's parking stops: one ParkingVisit per leg of a vehicle without HIGH priority, at the intersection it crosses, until it exits or the signal reaches the thread; its properties are `TrafficSim.LotsAfterRunKeeps` and `TrafficSim.FreshRunLots` |
| TrafficSim.LotsAfterRunKeeps | main.cpp:212-229 | the lots after all of a run's parking stops stay consistent, and are untouched by a vehicle with HIGH priority or without a parking wish |
| TrafficSim.FreshVisitEffect | main.cpp:212-229 | one parking stop of a vehicle not parked in a consistent lot leaves the lot as it was, or leaves the vehicle at the end of its wait queue with one wait slot fewer |
| TrafficSim.FreshRunLots | main.cpp:88-243 | a route visits each lot at most once, so after a whole run of a vehicle parked in neither lot each lot is unchanged or holds that vehicle at the end of its wait queue, with one wait slot fewer |
| TrafficSim.DriveRoute | main.cpp:88-243 | the loop of the vehicle thread: the vehicle has exited at the end exactly when shutdown was not set and the signal misses all its turns, and it has then crossed its whole route; shutdown is set exactly when the signal falls within them; lights and emergency state change only through the turn of a HIGH-priority vehicle, which leaves the global flag cleared, both intersections out of emergency mode and all RED; the lots are those after every parking stop the run makes (LotsAfterRun), untouched when shutdown was already set; with an id no queue holds, the queues end as they were, except that a thread stopped while queued leaves the vehicle at the end of its approach queue |
| TrafficSim.VehicleThread | main.cpp:77-255 | the vehicle completes, and is counted, exactly when shutdown was not set and the signal misses all its turns; it then has crossed its whole route; the thread sets shutdown exactly when the signal falls within them; a vehicle without HIGH priority, or a HIGH-priority one stopped before its turn, never changes lights or emergency state, and a completed HIGH-priority one leaves the global flag and direction cleared, both intersections out of emergency mode with entry and exit cleared, and all lights RED; the lots end as LotsAfterRun says, each unchanged or holding the vehicle in its wait queue (`TrafficSim.FreshRunLots`), and untouched for a HIGH-priority or non-parking vehicle; with an id no queue holds, the queues end as they were, except that a thread stopped while queued leaves exactly one extra entry, the vehicle, at the end of its approach queue |

## Left out

- Threads, mutexes, condition variables and semaphore blocking are left
  out. Each critical section is one method call, and one vehicle thread is
  run on its own from start to finish. Interleavings of several threads are
  not modelled.
- Sleeps and timers are left out (`usleep`, the durations, `time()`,
  `arrival_time`). The constants are still declared and checked.
- Pipes, `select`, `fork`, process signals, `kill` and `waitpid` are
  replaced by inputs:
  - what a read returns;
  - which tokens an authority finds in its inbox;
  - when the termination signal arrives.
- `sendToController` and `checkForMessage` are represented by the
  `Message` values a method returns and the `Tick` values a controller loop
  reads.
- `rand()` becomes explicit draws: a `nat` parameter per draw, and a
  `SpawnAttempt` per spawner turn.
- `atoi` is left out. The argument is taken as an already-parsed optional
  integer.
- Logging, printing (`printVehicle`, `printIntersection`, the print
  functions of `parkinglot.h`, `safePrint`) and the display file are not
  part of this model.
- `main()`'s orchestration is left out: pipe setup, forking the two
  authorities, starting the listener and spawner, the 60-second wait, the
  final broadcast, the joins, the statistics and `cleanup`.
  `destroyParkingLot` is left out too.
- Strings are closed enumerations (side, direction, type, priority,
  light). The source's fall-through branches for unknown names therefore
  cannot happen. Examples are `getOppositeSide` returning its argument and
  the WEST default of `getController`.
- The default constructors `Intersection()` (id "UNKNOWN") and
  `ParkingLot()` (id "F10") are not modelled separately. They are always
  followed by initialisation, which the constructors here include.
- The structs `VehicleThreadData` and `ControllerData` and the name arrays
  `VEHICLE_TYPES` and `DIRECTIONS` are never used by the core and are left
  out.
- Parking.ParkingLot.EnterParking: its blocking wait for a spot is a
  precondition that a spot is free.
- Controller.ProcessVehicleCrossing: its polling wait for GREEN is a
  precondition that the light is GREEN, the vehicle is an emergency vehicle,
  or shutdown is set.
- Controller.ControllerThread: each cycle it starts runs to completion.
  `CycleNorthSouth` and `CycleEastWest` model the emergency and shutdown
  checks between phases as halt inputs, but the thread passes neither
  input.
- TrafficSim.RegularTurn: the waits for GREEN and for the end of an
  emergency are not modelled. The turn states what happens after them, or
  that a shutdown ended the wait.
- TrafficSim.ParkingVisit: of what other threads do to the lot while the
  vehicle waits, only one vehicle's `exitParking` is modelled, as the
  `leaver` input. Other vehicles parking or queueing in the meantime are
  not.
- TrafficSim.VehicleThread: it passes no leaver to its turns, so its retry
  finds the lot as the vehicle left it. `TrafficSim.RegularTurn` and
  `TrafficSim.VehicleTurn` take the leaver as an input.
- TrafficSim.Spawner: the loop also stops when the given draws run out,
  which the endless source loop would not do.
- Relay.PhaseAuthority: the loop also stops when the given inbox runs out,
  while the source loop runs until the termination flag is set.
- TrafficSim.VehicleThread: the shutdown signal reaches the thread only at
  the points named by `ShutdownAt`. One point is before the loop test of a
  turn; the other is while the vehicle waits in its queue.

## Where the code departs from its evident intent

The model follows the code in each of these points.

- The phase authority is evidently meant to stop cycling while an emergency
  is active, and the relayed lights are meant to leave an open corridor
  alone. In the code:
  - the authority processes (main.cpp:257-363) pause only when they read
    an E or W token, and the vehicle thread never sends one;
  - the relay applies every tag without checking emergency mode
    (`Relay.RelayOverridesCorridor`).
- `handleEmergencyVehicle` (controller.h:164-185) raises the emergency
  flag even for an invalid spawn pair. An invalid pair is evidently meant
  to leave the emergency state alone.
- The emergency branch of the vehicle thread (main.cpp:152-158) closes the
  corridor and all-REDs both intersections even when it never opened one.
- Both authority processes start with the north-south phase. The
  `controller.h` thread for F11 starts with east-west.
- `leaveWaitQueue` is never called. A vehicle that takes a wait slot never
  returns it (`TrafficSim.ParkingVisit`), so after five such vehicles no one
  can join a lot's wait queue again.
- The result of the retry after the wait (main.cpp:224-227) is ignored.
  When a spot was freed during the wait, the retry parks the vehicle, and
  nothing calls `exitParking` for it afterwards. The vehicle stays in the
  parked vector, and in the waiting vector, for good, and its spot is never
  released (`TrafficSim.ParkedForGoodHoldsSpot`).
- The spawner (main.cpp:470-506) takes the type of a regular vehicle from
  `getRandomVehicleType` (main.cpp:486). It draws the intersection, the
  side, the direction and the parking wish in line:
  - the direction is uniform over three values, not 50/25/25 as
    `getRandomDirection` draws it;
  - an ambulance or fire truck drawn from the type table stays LOW
    priority, so it waits and queues like a car;
  - the parking wish is 3 in 10 for every type drawn from the table. This
    includes such an ambulance or fire truck, which `tryPark` then turns
    away.
- The spawner's pause and the stay in a lot are `min + rand() % (max -
  min)`, which can never reach `max`. `getRandomDelay` includes `max`.
