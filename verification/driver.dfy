/** Drivers (driver.py): position, speed, idle flag, destination and the
    rider on board, plus the travel-time arithmetic. */
module Drivers {
  import opened Wrappers
  import opened Locations
  import opened Riders

  /** The rider on board is kept by identifier; `None` is the source's `None`. */
  datatype Driver = Driver(
    id: Id,
    location: Location,
    speed: int,
    idle: bool,
    destination: Option<Location>,
    rider: Option<Id>)

  /** `Driver(identifier, location, speed)`. */
  function NewDriver(id: Id, location: Location, speed: int): (d: Driver)
    ensures d.idle && d.destination == None && d.rider == None
    ensures d.id == id && d.location == location && d.speed == speed
  {
    Driver(id, location, speed, true, None, None)
  }

  /** `Driver.__eq__`: id, speed, location, idle flag and destination; the
      rider on board is not compared. */
  predicate Equal(a: Driver, b: Driver) {
    && a.id == b.id && a.speed == b.speed && a.location == b.location
    && a.idle == b.idle && a.destination == b.destination
  }

  lemma {:induction false} EqualIgnoresRider(a: Driver, b: Driver)
    ensures Equal(a, b) <==> a.(rider := None) == b.(rider := None)
  {
  }

  /** Two drivers that differ only in the rider on board are equal. */
  lemma {:induction false} EqualDespiteRider(a: Driver, r: Id)
    ensures Equal(a, a.(rider := Some(r)))
  {
  }

  // ---------------------------------------------------------------- travel time

  /** `q` is `n / d` rounded to the nearest integer, halves to the even
      neighbour: `|q - n/d| <= 1/2`, with equality only for even `q`. */
  ghost predicate IsRoundHalfEven(n: int, d: int, q: int)
    requires d > 0
  {
    var e := 2 * (q * d - n);
    && -d <= e <= d
    && (e == d || e == -d ==> q % 2 == 0)
  }

  /** Python's `round(n / d)` on the exact quotient. */
  function RoundHalfEven(n: int, d: int): (q: int)
    requires d > 0
    ensures IsRoundHalfEven(n, d, q)
    ensures n >= 0 ==> q >= 0
  {
    var q0, r := n / d, n % d;
    assert n >= 0 ==> q0 >= 0;
    assert q0 * d + r == n;
    assert (q0 + 1) * d == q0 * d + d;
    if 2 * r > d then q0 + 1
    else if 2 * r < d then q0
    else if q0 % 2 == 0 then q0
    else q0 + 1
  }

  /** A multiple of a positive `d` within `d` of zero is `-d`, `0` or `d`. */
  lemma {:induction false} SmallMultiple(k: int, d: int)
    requires d > 0 && -d <= k * d <= d
    ensures -1 <= k <= 1
  {
    assert (k - 1) * d == k * d - d;
    assert (k + 1) * d == k * d + d;
  }

  /** At most one integer is the half-to-even rounding of a quotient. */
  lemma {:induction false} RoundHalfEvenUnique(n: int, d: int, q1: int, q2: int)
    requires d > 0 && IsRoundHalfEven(n, d, q1) && IsRoundHalfEven(n, d, q2)
    ensures q1 == q2
  {
    var k := q1 - q2;
    assert q1 * d - q2 * d == k * d;
    SmallMultiple(k, d);
    assert k == 1 ==> q1 * d == q2 * d + d;
    assert k == -1 ==> q2 * d == q1 * d + d;
  }

  lemma {:induction false} RoundingExamples()
    ensures RoundHalfEven(18, 5) == 4 && RoundHalfEven(20, 5) == 4
    ensures RoundHalfEven(5, 2) == 2 && RoundHalfEven(7, 2) == 4 && RoundHalfEven(1, 2) == 0
  {
  }

  /** `int(round(manhattan_distance(a, b) / speed, 0))`. */
  function TravelTime(a: Location, b: Location, speed: int): (t: nat)
    requires speed > 0
    ensures IsRoundHalfEven(Distance(a, b), speed, t)
  {
    RoundHalfEven(Distance(a, b), speed)
  }

  /** `driver.get_travel_time(x)`. */
  function GetTravelTime(d: Driver, x: Location): (t: nat)
    requires d.speed > 0
    ensures IsRoundHalfEven(Distance(d.location, x), d.speed, t)
    ensures x == d.location ==> t == 0
  {
    TravelTime(d.location, x, d.speed)
  }

  // ---------------------------------------------------------------- drives and rides

  /** A driver after a state change, with the travel time the source method returns. */
  datatype Leg = Leg(driver: Driver, time: nat)

  /** `driver.start_drive(x)`: head for `x`; the position does not change. */
  function StartDrive(d: Driver, x: Location): (r: Leg)
    requires d.speed > 0
    ensures !r.driver.idle && r.driver.destination == Some(x)
    ensures r.driver.location == d.location && r.driver.id == d.id
    ensures r.driver.speed == d.speed && r.driver.rider == d.rider
    ensures r.time == GetTravelTime(d, x)
  {
    Leg(d.(idle := false, destination := Some(x)), GetTravelTime(d, x))
  }

  /** `driver.end_drive()`: arrive at the destination and become idle. */
  function EndDrive(d: Driver): (r: Driver)
    requires d.destination.Some?
    ensures r.location == d.destination.value
    ensures r.destination == None && r.idle && r.rider == None
    ensures r.id == d.id && r.speed == d.speed
  {
    d.(location := d.destination.value, destination := None, idle := true, rider := None)
  }

  /** `driver.start_ride(rider)`: take the rider on board, head for the rider's destination. */
  function StartRide(d: Driver, r: Rider): (res: Leg)
    requires d.speed > 0
    ensures res.driver.rider == Some(r.id) && res.driver.destination == Some(r.destination)
    ensures !res.driver.idle
    ensures res.driver.location == d.location && res.driver.id == d.id && res.driver.speed == d.speed
    ensures res.time == GetTravelTime(d, r.destination)
  {
    Leg(d.(rider := Some(r.id), destination := Some(r.destination), idle := false),
        GetTravelTime(d, r.destination))
  }

  /** `driver.end_ride()`: the code is that of `end_drive`. */
  function EndRide(d: Driver): (r: Driver)
    requires d.destination.Some?
    ensures r == EndDrive(d)
  {
    d.(location := d.destination.value, destination := None, idle := true, rider := None)
  }

  /** Starting a drive to `x` and ending it leaves the driver idle at `x`. */
  lemma {:induction false} DriveThenArrive(d: Driver, x: Location)
    requires d.speed > 0
    ensures EndDrive(StartDrive(d, x).driver).location == x
    ensures EndDrive(StartDrive(d, x).driver).idle
    ensures EndDrive(StartDrive(d, x).driver).destination == None
    ensures EndDrive(StartDrive(d, x).driver).id == d.id
    ensures EndDrive(StartDrive(d, x).driver).speed == d.speed
  {
  }
}
