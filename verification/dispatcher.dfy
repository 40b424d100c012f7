/** The dispatcher (dispatcher.py): a register of drivers and a first-in,
    first-out waiting list of riders, both holding identifiers. */
module Dispatch {
  import opened Wrappers
  import opened Seqs
  import opened Locations
  import opened Riders
  import opened Drivers

  datatype Dispatcher = Dispatcher(register: seq<Id>, waiting: seq<Id>)

  /** `Dispatcher()`: nobody registered, nobody waiting. */
  function NewDispatcher(): (r: Dispatcher)
    ensures r.register == [] && r.waiting == []
  {
    Dispatcher([], [])
  }

  /** Every registered driver exists and has a positive speed, so travel times are defined. */
  predicate Registered(drivers: map<Id, Driver>, register: seq<Id>) {
    forall k :: k in register ==> k in drivers && drivers[k].speed > 0
  }

  // ---------------------------------------------------------------- request_driver

  /** `k` is the position of the minimum of `ts` that no later position ties. */
  ghost predicate IsLastMinimum(ts: seq<int>, k: int) {
    && 0 <= k < |ts|
    && (forall i :: 0 <= i < |ts| ==> ts[k] <= ts[i])
    && (forall i :: k < i < |ts| ==> ts[k] < ts[i])
  }

  /** The scan of `request_driver` from position `j` on: a candidate at least
      as fast as the best so far replaces it. */
  function Scan(ts: seq<int>, best: nat, j: nat): (k: nat)
    requires best < j <= |ts|
    requires IsLastMinimum(ts[..j], best)
    ensures IsLastMinimum(ts, k)
    decreases |ts| - j
  {
    if j == |ts| then
      assert ts[..j] == ts;
      best
    else if ts[j] <= ts[best] then
      Scan(ts, j, j + 1)
    else
      Scan(ts, best, j + 1)
  }

  /** The position the scan settles on: the fastest, the later one among ties. */
  function FastestIndex(ts: seq<int>): (k: nat)
    requires |ts| > 0
    ensures IsLastMinimum(ts, k)
  {
    Scan(ts, 0, 1)
  }

  /** The scan's answer is the only position that is a last minimum. */
  lemma {:induction false} LastMinimumUnique(ts: seq<int>, k1: int, k2: int)
    requires IsLastMinimum(ts, k1) && IsLastMinimum(ts, k2)
    ensures k1 == k2
  {
    assert ts[k1] <= ts[k2] && ts[k2] <= ts[k1];
  }

  /** The travel time of each registered driver to `x`, in register order. */
  function TravelTimes(drivers: map<Id, Driver>, register: seq<Id>, x: Location): (ts: seq<int>)
    requires Registered(drivers, register)
    ensures |ts| == |register|
    ensures forall i :: 0 <= i < |register| ==> ts[i] == GetTravelTime(drivers[register[i]], x)
  {
    seq(|register|, i requires 0 <= i < |register| => GetTravelTime(drivers[register[i]], x))
  }

  /** `start_drive(x)` applied to every registered driver. */
  function DriveAll(drivers: map<Id, Driver>, register: seq<Id>, x: Location): (r: map<Id, Driver>)
    requires Registered(drivers, register)
    ensures r.Keys == drivers.Keys
    ensures forall k :: k in drivers ==>
      && r[k].id == drivers[k].id && r[k].speed == drivers[k].speed
      && r[k].location == drivers[k].location && r[k].rider == drivers[k].rider
    ensures forall k :: k in register ==> !r[k].idle && r[k].destination == Some(x)
    ensures forall k :: k in drivers && k !in register ==> r[k] == drivers[k]
  {
    map k | k in drivers :: if k in register then StartDrive(drivers[k], x).driver else drivers[k]
  }

  /** The drivers after a dispatcher call, the dispatcher, and the driver it hands out. */
  datatype DriverAnswer = DriverAnswer(drivers: map<Id, Driver>, dispatcher: Dispatcher, driver: Option<Id>)

  lemma {:induction false} FastestIsNearest(drivers: map<Id, Driver>, register: seq<Id>, x: Location, best: nat)
    requires Registered(drivers, register)
    requires IsLastMinimum(TravelTimes(drivers, register, x), best)
    ensures best < |register|
    ensures forall k :: k in register ==>
      GetTravelTime(drivers[register[best]], x) <= GetTravelTime(drivers[k], x)
    ensures forall i, j :: 0 <= i < j < |register| && register[i] == register[best] && Distinct(register) ==>
      GetTravelTime(drivers[register[best]], x) < GetTravelTime(drivers[register[j]], x)
  {
    var ts := TravelTimes(drivers, register, x);
    forall k | k in register
      ensures GetTravelTime(drivers[register[best]], x) <= GetTravelTime(drivers[k], x)
    {
      var i := IndexOf(register, k);
      assert ts[best] <= ts[i];
    }
  }

  /** The many-driver branch of `request_driver`: every registered driver is
      sent towards `x` (`start_drive` is called on each while comparing), and
      the fastest is chosen, the later-registered one among ties. */
  function Nearest(drivers: map<Id, Driver>, register: seq<Id>, x: Location): (r: (map<Id, Driver>, Id))
    requires Registered(drivers, register) && |register| > 0 && Distinct(register)
    ensures r.0 == DriveAll(drivers, register, x) && r.1 in register
    ensures forall k :: k in register ==> GetTravelTime(drivers[r.1], x) <= GetTravelTime(drivers[k], x)
    ensures forall i, j :: 0 <= i < j < |register| && register[i] == r.1 ==>
      GetTravelTime(drivers[r.1], x) < GetTravelTime(drivers[register[j]], x)
  {
    var best := FastestIndex(TravelTimes(drivers, register, x));
    FastestIsNearest(drivers, register, x, best);
    (DriveAll(drivers, register, x), register[best])
  }

  /** `request_driver(rider)`. With nobody registered the rider joins the back
      of the waiting list. With one driver, that driver is marked busy and
      returned as it is. With more, see `Nearest`. */
  function RequestDriver(drivers: map<Id, Driver>, d: Dispatcher, rider: Rider): (r: DriverAnswer)
    requires Registered(drivers, d.register) && Distinct(d.register)
    ensures r.drivers.Keys == drivers.Keys && r.dispatcher.register == d.register
    ensures forall k :: k in drivers ==>
      && r.drivers[k].id == drivers[k].id && r.drivers[k].speed == drivers[k].speed
      && r.drivers[k].location == drivers[k].location && r.drivers[k].rider == drivers[k].rider
    ensures |d.register| == 0 ==>
      && r.driver == None && r.drivers == drivers
      && r.dispatcher.waiting == d.waiting + [rider.id]
    ensures |d.register| > 0 ==>
      r.dispatcher == d && r.driver.Some? && r.driver.value in d.register
    ensures |d.register| == 1 ==>
      && r.driver == Some(d.register[0])
      && r.drivers == drivers[d.register[0] := drivers[d.register[0]].(idle := false)]
    ensures |d.register| >= 2 ==> r.drivers == Nearest(drivers, d.register, rider.origin).0
    ensures |d.register| >= 2 ==> r.driver == Some(Nearest(drivers, d.register, rider.origin).1)
  {
    if |d.register| == 0 then
      DriverAnswer(drivers, d.(waiting := d.waiting + [rider.id]), None)
    else if |d.register| == 1 then
      var k := d.register[0];
      DriverAnswer(drivers[k := drivers[k].(idle := false)], d, Some(k))
    else
      var (moved, chosen) := Nearest(drivers, d.register, rider.origin);
      DriverAnswer(moved, d, Some(chosen))
  }

  // ---------------------------------------------------------------- request_rider

  /** `if driver not in register: register.append(driver)`. */
  function Enroll(register: seq<Id>, id: Id): (r: seq<Id>)
    ensures id in r
    ensures forall k :: k in r <==> k in register || k == id
    ensures |register| <= |r| && r[..|register|] == register
    ensures Distinct(register) ==> Distinct(r)
  {
    if id in register then register else register + [id]
  }

  /** Registering twice is registering once. */
  lemma {:induction false} EnrollIdempotent(register: seq<Id>, id: Id)
    ensures Enroll(Enroll(register, id), id) == Enroll(register, id)
  {
  }

  /** The drivers after a dispatcher call, the dispatcher, and the rider it hands out. */
  datatype RiderAnswer = RiderAnswer(drivers: map<Id, Driver>, dispatcher: Dispatcher, rider: Option<Id>)

  /** `request_rider(driver)`: register the driver if new; then hand it the
      rider at the front of the waiting list, if any, sending it to the
      rider's origin. */
  function RequestRider(drivers: map<Id, Driver>, riders: map<Id, Rider>, d: Dispatcher, id: Id): (r: RiderAnswer)
    requires id in drivers
    requires forall k :: k in d.waiting ==> k in riders
    ensures r.dispatcher.register == Enroll(d.register, id)
    ensures |d.waiting| == 0 ==>
      r.rider == None && r.dispatcher.waiting == d.waiting && r.drivers == drivers
    ensures |d.waiting| > 0 ==>
      && r.rider == Some(d.waiting[0])
      && r.dispatcher.waiting == d.waiting[1..]
      && r.drivers.Keys == drivers.Keys
      && r.drivers[id].destination == Some(riders[d.waiting[0]].origin)
      && !r.drivers[id].idle
      && r.drivers[id].location == drivers[id].location
      && r.drivers[id] == drivers[id].(destination := r.drivers[id].destination, idle := false)
      && forall k :: k in drivers && k != id ==> r.drivers[k] == drivers[k]
  {
    var register := Enroll(d.register, id);
    if |d.waiting| == 0 then
      RiderAnswer(drivers, d.(register := register), None)
    else
      var next := d.waiting[0];
      var driver := drivers[id].(destination := Some(riders[next].origin), idle := false);
      RiderAnswer(drivers[id := driver], Dispatcher(register, d.waiting[1..]), Some(next))
  }

  // ---------------------------------------------------------------- cancel_ride

  /** `cancel_ride(rider)`: drop the rider from the waiting list if it is there. */
  function CancelRide(d: Dispatcher, id: Id): (r: Dispatcher)
    ensures r.register == d.register
    ensures id !in d.waiting ==> r == d
    ensures id in d.waiting ==>
      r.waiting == d.waiting[..IndexOf(d.waiting, id)] + d.waiting[IndexOf(d.waiting, id) + 1..]
    ensures forall k :: k in r.waiting ==> k in d.waiting
  {
    RemoveFirstSubset(d.waiting, id);
    d.(waiting := RemoveFirst(d.waiting, id))
  }
}
