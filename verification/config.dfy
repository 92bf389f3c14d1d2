/** The configuration constants of simulation.h and its attribute draws.
    Each draw that the source takes from rand() is a parameter `draw: nat`
    here (rand() never returns a negative value); the functions apply the
    same `%` and the same range partition to it. */
module Config {
  import opened Vehicles

  const DEFAULT_VEHICLE_COUNT: int := 15

  // Delays in microseconds.
  const SPAWN_MIN_DELAY: int := 500000
  const SPAWN_MAX_DELAY: int := 2000000
  const CROSSING_TIME: int := 1000000
  const GREEN_DURATION: int := 3000000
  const YELLOW_DURATION: int := 1000000
  const PARKING_MIN_TIME: int := 2000000
  const PARKING_MAX_TIME: int := 5000000

  // Vehicle type distribution, out of 100.
  const PROB_CAR: int := 40
  const PROB_BIKE: int := 20
  const PROB_BUS: int := 15
  const PROB_TRACTOR: int := 10
  const PROB_AMBULANCE: int := 8
  const PROB_FIRETRUCK: int := 7

  const PARKING_PROBABILITY: int := 30

  // Direction distribution, out of 100.
  const PROB_STRAIGHT: int := 50
  const PROB_LEFT: int := 25
  const PROB_RIGHT: int := 25

  // Single-byte tokens of the control channel between the two phase authorities.
  const MSG_EMERGENCY_EASTBOUND: char := 'E'
  const MSG_EMERGENCY_WESTBOUND: char := 'W'
  const MSG_EMERGENCY_CLEAR: char := 'C'
  const MSG_SHUTDOWN: char := 'S'

  /** getRandomVehicleType: the source peels the buckets off one by one
      (`r -= PROB_...`); the contract states the cumulative ranges. */
  function VehicleTypeFor(draw: nat): (t: VehicleType)
    ensures var r := draw % 100;
      && (t == Car <==> 0 <= r < 40)
      && (t == Bike <==> 40 <= r < 60)
      && (t == Bus <==> 60 <= r < 75)
      && (t == Tractor <==> 75 <= r < 85)
      && (t == Ambulance <==> 85 <= r < 93)
      && (t == Firetruck <==> 93 <= r < 100)
  {
    var r := draw % 100;
    if r < PROB_CAR then Car
    else
      var r := r - PROB_CAR;
      if r < PROB_BIKE then Bike
      else
        var r := r - PROB_BIKE;
        if r < PROB_BUS then Bus
        else
          var r := r - PROB_BUS;
          if r < PROB_TRACTOR then Tractor
          else
            var r := r - PROB_TRACTOR;
            if r < PROB_AMBULANCE then Ambulance
            else Firetruck
  }

  /** getRandomSpawnSide: SPAWN_SIDES[rand() % NUM_SIDES]. */
  function SideFor(draw: nat): (s: Side)
    ensures s == [North, South, East, West][draw % 4]
  {
    var r := draw % 4;
    if r == 0 then North else if r == 1 then South else if r == 2 then East else West
  }

  /** getRandomDirection. */
  function DirectionFor(draw: nat): (d: Direction)
    ensures var r := draw % 100;
      && (d == Straight <==> 0 <= r < 50)
      && (d == Left <==> 50 <= r < 75)
      && (d == Right <==> 75 <= r < 100)
  {
    var r := draw % 100;
    if r < PROB_STRAIGHT then Straight
    else
      var r := r - PROB_STRAIGHT;
      if r < PROB_LEFT then Left
      else Right
  }

  /** getRandomIntersection. */
  function IntersectionFor(draw: nat): (i: IntersectionId)
    ensures i == F10 <==> draw % 2 == 0
  {
    if draw % 2 == 0 then F10 else F11
  }

  /** shouldWantParking: emergency vehicles never park; any other vehicle
      wants to with probability PARKING_PROBABILITY out of 100. */
  function WantsParkingFor(kind: VehicleType, draw: nat): (b: bool)
    ensures IsEmergencyVehicle(kind) ==> !b
    ensures !IsEmergencyVehicle(kind) ==> (b <==> draw % 100 < 30)
  {
    if kind == Ambulance || kind == Firetruck then false
    else draw % 100 < PARKING_PROBABILITY
  }

  /** getRandomDelay: a delay in [min, max], both ends included. The source
      divides by max - min + 1, so min <= max is what keeps it defined. */
  function DelayFor(minDelay: int, maxDelay: int, draw: nat): (d: int)
    requires minDelay <= maxDelay
    ensures minDelay <= d <= maxDelay
  {
    minDelay + draw % (maxDelay - minDelay + 1)
  }

  /** How many of the draws 0 .. n-1 the function `f` maps to `x`. */
  function CountOf<T(==)>(f: nat -> T, x: T, n: nat): nat {
    if n == 0 then 0 else CountOf(f, x, n - 1) + (if f(n - 1) == x then 1 else 0)
  }

  /** When `f` maps exactly the draws in [lo, hi) to `x`, the first n draws
      hold as many of them as [lo, hi) and [0, n) share. */
  lemma {:induction false} CountOfBucket<T>(f: nat -> T, x: T, lo: nat, hi: nat, n: nat)
    requires lo <= hi
    requires forall r: nat :: r < n ==> (f(r) == x <==> lo <= r < hi)
    ensures CountOf(f, x, n) == if n <= lo then 0 else if n <= hi then n - lo else hi - lo
  {
    if n > 0 {
      CountOfBucket(f, x, lo, hi, n - 1);
    }
  }

  /** The probability of each vehicle type, in percent. */
  function TypeShare(t: VehicleType): nat {
    match t
    case Car => PROB_CAR
    case Bike => PROB_BIKE
    case Bus => PROB_BUS
    case Tractor => PROB_TRACTOR
    case Ambulance => PROB_AMBULANCE
    case Firetruck => PROB_FIRETRUCK
  }

  /** The type table realises the probability constants: of the 100
      residues of a draw, exactly TypeShare(t) map to type t, and the six
      shares add up to 100. */
  lemma VehicleTypeTableMatchesProbabilities(t: VehicleType)
    ensures PROB_CAR + PROB_BIKE + PROB_BUS + PROB_TRACTOR + PROB_AMBULANCE + PROB_FIRETRUCK == 100
    ensures CountOf(VehicleTypeFor, t, 100) == TypeShare(t)
  {
    match t
    case Car => CountOfBucket(VehicleTypeFor, Car, 0, 40, 100);
    case Bike => CountOfBucket(VehicleTypeFor, Bike, 40, 60, 100);
    case Bus => CountOfBucket(VehicleTypeFor, Bus, 60, 75, 100);
    case Tractor => CountOfBucket(VehicleTypeFor, Tractor, 75, 85, 100);
    case Ambulance => CountOfBucket(VehicleTypeFor, Ambulance, 85, 93, 100);
    case Firetruck => CountOfBucket(VehicleTypeFor, Firetruck, 93, 100, 100);
  }

  /** The direction table realises PROB_STRAIGHT, PROB_LEFT and PROB_RIGHT,
      which add up to 100. */
  lemma DirectionTableMatchesProbabilities()
    ensures PROB_STRAIGHT + PROB_LEFT + PROB_RIGHT == 100
    ensures CountOf(DirectionFor, Straight, 100) == PROB_STRAIGHT
    ensures CountOf(DirectionFor, Left, 100) == PROB_LEFT
    ensures CountOf(DirectionFor, Right, 100) == PROB_RIGHT
  {
    CountOfBucket(DirectionFor, Straight, 0, 50, 100);
    CountOfBucket(DirectionFor, Left, 50, 75, 100);
    CountOfBucket(DirectionFor, Right, 75, 100, 100);
  }

  /** Emergency vehicles, the ambulance and the fire truck, take the last
      PROB_AMBULANCE + PROB_FIRETRUCK residues of a draw. */
  lemma EmergencyTypeShare()
    ensures CountOf((d: nat) => IsEmergencyVehicle(VehicleTypeFor(d)), true, 100) == PROB_AMBULANCE + PROB_FIRETRUCK
  {
    CountOfBucket((d: nat) => IsEmergencyVehicle(VehicleTypeFor(d)), true, 85, 100, 100);
  }
}
