/** The events (event.py): each kind's `do()` as a transition from a state
    to a new state and the events it spawns. Drivers and riders are held in
    maps keyed by identifier, and events refer to them by identifier. */
module Events {
  import opened Wrappers
  import opened Seqs
  import opened Locations
  import opened Riders
  import opened Drivers
  import opened Dispatch
  import M = Monitoring

  /** The five event kinds. Pickup and dropoff name their driver and rider
      by role. */
  datatype Event =
    | RiderRequest(timestamp: int, rider: Id)
    | DriverRequest(timestamp: int, driver: Id)
    | Cancellation(timestamp: int, rider: Id)
    | Pickup(timestamp: int, driver: Id, rider: Id)
    | Dropoff(timestamp: int, driver: Id, rider: Id)

  // ---------------------------------------------------------------- ordering

  /** `Event.__eq__`: same timestamp. */
  predicate Eq(a: Event, b: Event) { a.timestamp == b.timestamp }
  /** `Event.__ne__`: `not ==`. */
  predicate Ne(a: Event, b: Event) { !Eq(a, b) }
  /** `Event.__lt__`. */
  predicate Lt(a: Event, b: Event) { a.timestamp < b.timestamp }
  /** `Event.__le__`. */
  predicate Le(a: Event, b: Event) { a.timestamp <= b.timestamp }
  /** `Event.__gt__`: `not <=`. */
  predicate Gt(a: Event, b: Event) { !Le(a, b) }
  /** `Event.__ge__`: `not <`. */
  predicate Ge(a: Event, b: Event) { !Lt(a, b) }

  /** The six comparisons are those of the timestamps, so they form a total
      preorder in which events of different kinds and participants can be
      equal. */
  lemma {:induction false} OrderIsByTimestamp(a: Event, b: Event)
    ensures Eq(a, b) <==> a.timestamp == b.timestamp
    ensures Ne(a, b) <==> a.timestamp != b.timestamp
    ensures Gt(a, b) <==> a.timestamp > b.timestamp
    ensures Ge(a, b) <==> a.timestamp >= b.timestamp
    ensures Le(a, b) <==> Lt(a, b) || Eq(a, b)
    ensures Lt(a, b) || Eq(a, b) || Gt(a, b)
    ensures Gt(a, b) <==> Lt(b, a)
  {
  }

  // ---------------------------------------------------------------- state

  /** Everything `do()` reads or writes: the driver and rider objects, the
      dispatcher and the monitor. */
  datatype State = State(drivers: map<Id, Driver>, riders: map<Id, Rider>, dispatcher: Dispatcher, monitor: M.Monitor)

  /** Objects are filed under their own identifier, drivers have a positive
      speed (the travel time divides by it), the dispatcher refers to known
      objects and registers each driver once. */
  ghost predicate Valid(s: State) {
    && (forall k :: k in s.drivers ==> s.drivers[k].id == k && s.drivers[k].speed > 0)
    && (forall k :: k in s.riders ==> s.riders[k].id == k)
    && Registered(s.drivers, s.dispatcher.register) && Distinct(s.dispatcher.register)
    && (forall k :: k in s.dispatcher.waiting ==> k in s.riders)
    && s.monitor.Valid()
  }

  /** The objects an event names exist. */
  predicate Refers(s: State, e: Event) {
    match e
    case RiderRequest(_, r) => r in s.riders
    case DriverRequest(_, d) => d in s.drivers
    case Cancellation(_, r) => r in s.riders
    case Pickup(_, d, r) => d in s.drivers && r in s.riders
    case Dropoff(_, d, r) => d in s.drivers && r in s.riders
  }

  /** Every monitor list of `m` is a prefix of the same list in `m'`. */
  ghost predicate AppendOnly(m: M.Monitor, m': M.Monitor) {
    forall c, k :: m.Activities(c, k) <= m'.Activities(c, k)
  }

  /** What no transition changes: the objects present, each driver's
      identifier and speed, each rider's fields other than the status, and
      the monitor's past. */
  ghost predicate Keeps(s: State, t: State) {
    && t.drivers.Keys == s.drivers.Keys && t.riders.Keys == s.riders.Keys
    && (forall k :: k in s.drivers ==> t.drivers[k].id == s.drivers[k].id && t.drivers[k].speed == s.drivers[k].speed)
    && (forall k :: k in s.riders ==> t.riders[k] == s.riders[k].(status := t.riders[k].status))
    && (forall k :: k in s.dispatcher.register ==> k in t.dispatcher.register)
    && AppendOnly(s.monitor, t.monitor)
  }

  /** The new state and the spawned events, in the order `do()` lists them. */
  datatype Transition = Transition(state: State, spawned: seq<Event>)

  /** Why a transition cannot be taken. */
  datatype StepError =
    | UnknownParticipant      // the event names an object the state does not hold
    | EndWithoutDestination   // `end_drive` or `end_ride` on a driver with no destination

  lemma {:induction false} NotifyAppends(m: M.Monitor, time: int, c: M.Category, d: M.Description, id: Id, loc: Location)
    requires m.Valid()
    ensures AppendOnly(m, M.Notify(m, time, c, d, id, loc))
  {
    var m' := M.Notify(m, time, c, d, id, loc);
    forall c', k ensures m.Activities(c', k) <= m'.Activities(c', k) {
    }
  }

  lemma {:induction false} AppendOnlyTransitive(a: M.Monitor, b: M.Monitor, c: M.Monitor)
    requires AppendOnly(a, b) && AppendOnly(b, c)
    ensures AppendOnly(a, c)
  {
    forall x, k ensures a.Activities(x, k) <= c.Activities(x, k) {
      assert a.Activities(x, k) <= b.Activities(x, k);
      assert b.Activities(x, k) <= c.Activities(x, k);
    }
  }

  // ---------------------------------------------------------------- RiderRequest

  /** `RiderRequest.do`: log the request at the rider's origin, ask the
      dispatcher for a driver and send that driver to the origin. The
      spawned events are a pickup when a driver was found, then the
      cancellation at the end of the rider's patience. */
  function DoRiderRequest(s: State, ts: int, id: Id): (r: Transition)
    requires Valid(s) && id in s.riders
    ensures Valid(r.state) && Keeps(s, r.state) && r.state.riders == s.riders
    ensures r.state.monitor.Activities(M.RiderCategory, id)
      == s.monitor.Activities(M.RiderCategory, id) + [M.Activity(ts, M.Request, id, s.riders[id].origin)]
    ensures forall c, k :: (c, k) != (M.RiderCategory, id) ==> r.state.monitor.Activities(c, k) == s.monitor.Activities(c, k)
    ensures |r.spawned| == 1 || |r.spawned| == 2
    ensures r.spawned[|r.spawned| - 1] == Cancellation(ts + s.riders[id].patience, id)
    ensures |r.spawned| == 1 <==> |s.dispatcher.register| == 0
    ensures |r.spawned| == 1 ==>
      && r.state.dispatcher.waiting == s.dispatcher.waiting + [id]
      && r.state.dispatcher.register == s.dispatcher.register
      && r.state.drivers == s.drivers
    ensures |r.spawned| == 2 ==>
      && r.state.dispatcher == s.dispatcher
      && r.spawned[0].Pickup? && r.spawned[0].rider == id
      && r.spawned[0].driver == RequestDriver(s.drivers, s.dispatcher, s.riders[id]).driver.value
      && r.spawned[0].driver in s.dispatcher.register
      && r.spawned[0].timestamp == ts + GetTravelTime(s.drivers[r.spawned[0].driver], s.riders[id].origin)
      && r.state.drivers == DriveAll(s.drivers, s.dispatcher.register, s.riders[id].origin)
  {
    var rider := s.riders[id];
    var monitor := M.Notify(s.monitor, ts, M.RiderCategory, M.Request, id, rider.origin);
    NotifyAppends(s.monitor, ts, M.RiderCategory, M.Request, id, rider.origin);
    var answer := RequestDriver(s.drivers, s.dispatcher, rider);
    var cancel := Cancellation(ts + rider.patience, id);
    if answer.driver.Some? then
      var k := answer.driver.value;
      var leg := StartDrive(answer.drivers[k], rider.origin);
      ChosenDriverStarts(s.drivers, s.dispatcher, rider);
      Transition(State(answer.drivers[k := leg.driver], s.riders, answer.dispatcher, monitor),
                 [Pickup(ts + leg.time, k, id), cancel])
    else
      Transition(State(answer.drivers, s.riders, answer.dispatcher, monitor), [cancel])
  }

  /** Sending the chosen driver to the origin once more changes nothing:
      selection already sent every registered driver there. */
  lemma {:induction false} ChosenDriverStarts(drivers: map<Id, Driver>, d: Dispatcher, rider: Rider)
    requires Registered(drivers, d.register) && Distinct(d.register) && |d.register| > 0
    ensures
      var a := RequestDriver(drivers, d, rider);
      var k := a.driver.value;
      && k in a.drivers && a.drivers[k].speed > 0
      && a.drivers[k := StartDrive(a.drivers[k], rider.origin).driver] == DriveAll(drivers, d.register, rider.origin)
  {
    var x := rider.origin;
    var a := RequestDriver(drivers, d, rider);
    var k := a.driver.value;
    var all := DriveAll(drivers, d.register, x);
    if |d.register| == 1 {
      assert k == d.register[0];
      forall j | j in drivers ensures a.drivers[k := StartDrive(a.drivers[k], x).driver][j] == all[j] {
        if j != k {
          assert j !in d.register;
        }
      }
    } else {
      assert a.drivers == all && all[k].destination == Some(x) && !all[k].idle;
      assert StartDrive(a.drivers[k], x).driver == all[k];
    }
  }

  // ---------------------------------------------------------------- DriverRequest

  /** `DriverRequest.do`: log the request at the driver's location, let the
      dispatcher register the driver and hand it the longest-waiting rider,
      and send the driver to that rider's origin. */
  function DoDriverRequest(s: State, ts: int, id: Id): (r: Transition)
    requires Valid(s) && id in s.drivers
    ensures Valid(r.state) && Keeps(s, r.state) && r.state.riders == s.riders
    ensures r.state.monitor.Activities(M.DriverCategory, id)
      == s.monitor.Activities(M.DriverCategory, id) + [M.Activity(ts, M.Request, id, s.drivers[id].location)]
    ensures forall c, k :: (c, k) != (M.DriverCategory, id) ==> r.state.monitor.Activities(c, k) == s.monitor.Activities(c, k)
    ensures r.state.dispatcher.register == Enroll(s.dispatcher.register, id)
    ensures |s.dispatcher.waiting| == 0 ==>
      && r.spawned == []
      && r.state.drivers == s.drivers
      && r.state.dispatcher.waiting == s.dispatcher.waiting
    ensures |s.dispatcher.waiting| > 0 ==>
      var next := s.dispatcher.waiting[0];
      var origin := s.riders[next].origin;
      && r.spawned == [Pickup(ts + GetTravelTime(s.drivers[id], origin), id, next)]
      && r.state.dispatcher.waiting == s.dispatcher.waiting[1..]
      && r.state.drivers == s.drivers[id := s.drivers[id].(destination := Some(origin), idle := false)]
  {
    var driver := s.drivers[id];
    var monitor := M.Notify(s.monitor, ts, M.DriverCategory, M.Request, id, driver.location);
    NotifyAppends(s.monitor, ts, M.DriverCategory, M.Request, id, driver.location);
    var answer := RequestRider(s.drivers, s.riders, s.dispatcher, id);
    if answer.rider.Some? then
      var next := answer.rider.value;
      var leg := StartDrive(answer.drivers[id], s.riders[next].origin);
      Transition(State(answer.drivers[id := leg.driver], s.riders, answer.dispatcher, monitor),
                 [Pickup(ts + leg.time, id, next)])
    else
      Transition(State(answer.drivers, s.riders, answer.dispatcher, monitor), [])
  }

  // ---------------------------------------------------------------- Cancellation

  /** `Cancellation.do` as written: a waiting rider leaves the waiting list
      and a cancel is logged at the origin, but the status assignment is a
      comparison, so every rider keeps its status. */
  function DoCancellation(s: State, ts: int, id: Id): (r: Transition)
    requires Valid(s) && id in s.riders
    ensures Valid(r.state) && Keeps(s, r.state)
    ensures r.spawned == []
    ensures r.state.riders == s.riders && r.state.drivers == s.drivers
    ensures r.state.dispatcher.register == s.dispatcher.register
    ensures s.riders[id].status != Waiting ==> r.state == s
    ensures s.riders[id].status == Waiting ==>
      && r.state.dispatcher == CancelRide(s.dispatcher, id)
      && multiset(r.state.dispatcher.waiting) == multiset(s.dispatcher.waiting) - multiset{id}
      && r.state.monitor.Activities(M.RiderCategory, id)
         == s.monitor.Activities(M.RiderCategory, id) + [M.Activity(ts, M.Cancel, id, s.riders[id].origin)]
      && forall c, k :: (c, k) != (M.RiderCategory, id) ==> r.state.monitor.Activities(c, k) == s.monitor.Activities(c, k)
  {
    var rider := s.riders[id];
    if rider.status == Waiting then
      var dispatcher := CancelRide(s.dispatcher, id);
      RemoveFirstMultiset(s.dispatcher.waiting, id);
      var monitor := M.Notify(s.monitor, ts, M.RiderCategory, M.Cancel, id, rider.origin);
      NotifyAppends(s.monitor, ts, M.RiderCategory, M.Cancel, id, rider.origin);
      Transition(s.(dispatcher := dispatcher, monitor := monitor), [])
    else
      Transition(s, [])
  }

  /** `Cancellation.do` as its documentation describes it: the same, and a
      waiting rider becomes cancelled. */
  function DoCancellationIntended(s: State, ts: int, id: Id): (r: Transition)
    requires Valid(s) && id in s.riders
    ensures Valid(r.state) && Keeps(s, r.state)
    ensures r.spawned == []
    ensures s.riders[id].status == Waiting ==> r.state.riders[id].status == Cancelled
    ensures forall k :: k in s.riders && (k != id || s.riders[id].status != Waiting) ==> r.state.riders[k] == s.riders[k]
    ensures r.state.(riders := s.riders) == DoCancellation(s, ts, id).state
  {
    var t := DoCancellation(s, ts, id);
    if s.riders[id].status == Waiting then
      t.(state := t.state.(riders := s.riders[id := s.riders[id].(status := Cancelled)]))
    else
      t
  }

  // ---------------------------------------------------------------- Pickup

  /** The driver ends its drive at its destination and nothing else changes. */
  function Arrive(s: State, did: Id): (t: State)
    requires Valid(s) && did in s.drivers && s.drivers[did].destination.Some?
    ensures Valid(t) && Keeps(s, t)
    ensures t.riders == s.riders && t.monitor == s.monitor && t.dispatcher == s.dispatcher
    ensures t.drivers[did] == EndDrive(s.drivers[did])
    ensures t.drivers[did].location == s.drivers[did].destination.value
    ensures forall k :: k in s.drivers && k != did ==> t.drivers[k] == s.drivers[k]
  {
    s.(drivers := s.drivers[did := EndDrive(s.drivers[did])])
  }

  /** The waiting rider boards a driver that has arrived: both log the
      pickup at the rider's origin, the rider becomes satisfied and the
      driver heads for the rider's destination. */
  function Board(s: State, ts: int, did: Id, rid: Id): (r: Transition)
    requires Valid(s) && did in s.drivers && rid in s.riders
    requires s.riders[rid].status == Waiting
    ensures Valid(r.state) && Keeps(s, r.state)
    ensures
      var rider := s.riders[rid];
      var t := r.state;
      && r.spawned == [Dropoff(ts + GetTravelTime(s.drivers[did], rider.destination), did, rid)]
      && t.dispatcher == s.dispatcher
      && t.riders == s.riders[rid := rider.(status := Satisfied)]
      && t.drivers[did].rider == Some(rid) && t.drivers[did].destination == Some(rider.destination)
      && !t.drivers[did].idle && t.drivers[did].location == s.drivers[did].location
      && (forall k :: k in s.drivers && k != did ==> t.drivers[k] == s.drivers[k])
      && t.monitor.Activities(M.RiderCategory, rid)
         == s.monitor.Activities(M.RiderCategory, rid) + [M.Activity(ts, M.Pickup, rid, rider.origin)]
      && t.monitor.Activities(M.DriverCategory, did)
         == s.monitor.Activities(M.DriverCategory, did) + [M.Activity(ts, M.Pickup, did, rider.origin)]
      && forall c, k :: (c, k) != (M.RiderCategory, rid) && (c, k) != (M.DriverCategory, did) ==>
           t.monitor.Activities(c, k) == s.monitor.Activities(c, k)
  {
    var rider := s.riders[rid];
    var m1 := M.Notify(s.monitor, ts, M.RiderCategory, M.Pickup, rid, rider.origin);
    var m2 := M.Notify(m1, ts, M.DriverCategory, M.Pickup, did, rider.origin);
    NotifyAppends(s.monitor, ts, M.RiderCategory, M.Pickup, rid, rider.origin);
    NotifyAppends(m1, ts, M.DriverCategory, M.Pickup, did, rider.origin);
    AppendOnlyTransitive(s.monitor, m1, m2);
    var leg := StartRide(s.drivers[did], rider);
    var riders := s.riders[rid := rider.(status := Satisfied)];
    Transition(State(s.drivers[did := leg.driver], riders, s.dispatcher, m2), [Dropoff(ts + leg.time, did, rid)])
  }

  /** `Pickup.do`: the driver arrives at its destination. A cancelled rider
      sends the driver back to the dispatcher at once; a waiting rider
      boards (see `Board`) and is dropped off after the ride time; a
      satisfied rider leaves the driver idle with nothing spawned. */
  function DoPickup(s: State, ts: int, did: Id, rid: Id): (r: Result<Transition, StepError>)
    requires Valid(s) && did in s.drivers && rid in s.riders
    ensures r.Failure? <==> s.drivers[did].destination.None?
    ensures r.Failure? ==> r.error == EndWithoutDestination
    ensures r.Success? ==> Valid(r.value.state) && Keeps(s, r.value.state)
    ensures r.Success? ==>
      && r.value.state.dispatcher == s.dispatcher
      && forall k :: k in s.drivers && k != did ==> r.value.state.drivers[k] == s.drivers[k]
    ensures r.Success? && s.riders[rid].status == Cancelled ==>
      && r.value.spawned == [DriverRequest(ts, did)]
      && r.value.state == Arrive(s, did)
    ensures r.Success? && s.riders[rid].status == Satisfied ==>
      && r.value.spawned == []
      && r.value.state == Arrive(s, did)
    ensures r.Success? && s.riders[rid].status == Waiting ==>
      r.value == Board(Arrive(s, did), ts, did, rid)
  {
    if s.drivers[did].destination.None? then Failure(EndWithoutDestination)
    else
      var t := Arrive(s, did);
      match s.riders[rid].status
      case Cancelled => Success(Transition(t, [DriverRequest(ts, did)]))
      case Satisfied => Success(Transition(t, []))
      case Waiting =>
        var b := Board(t, ts, did, rid);
        assert Keeps(s, b.state) by {
          AppendOnlyTransitive(s.monitor, t.monitor, b.state.monitor);
        }
        Success(b)
  }

  // ---------------------------------------------------------------- Dropoff

  /** `Dropoff.do`: the ride ends at the driver's destination, the driver
      asks for work at once, and both parties log the dropoff, the rider at
      its destination and the driver where it now is. */
  function DoDropoff(s: State, ts: int, did: Id, rid: Id): (r: Result<Transition, StepError>)
    requires Valid(s) && did in s.drivers && rid in s.riders
    ensures r.Failure? <==> s.drivers[did].destination.None?
    ensures r.Failure? ==> r.error == EndWithoutDestination
    ensures r.Success? ==>
      var t := r.value.state;
      var at := s.drivers[did].destination.value;
      && Valid(t) && Keeps(s, t)
      && r.value.spawned == [DriverRequest(ts, did)]
      && t.riders == s.riders && t.dispatcher == s.dispatcher
      && t.drivers == s.drivers[did := EndRide(s.drivers[did])]
      && t.drivers[did].location == at && t.drivers[did].idle && t.drivers[did].rider == None
      && t.monitor.Activities(M.RiderCategory, rid)
         == s.monitor.Activities(M.RiderCategory, rid) + [M.Activity(ts, M.Dropoff, rid, s.riders[rid].destination)]
      && t.monitor.Activities(M.DriverCategory, did)
         == s.monitor.Activities(M.DriverCategory, did) + [M.Activity(ts, M.Dropoff, did, at)]
      && forall c, k :: (c, k) != (M.RiderCategory, rid) && (c, k) != (M.DriverCategory, did) ==>
           t.monitor.Activities(c, k) == s.monitor.Activities(c, k)
  {
    var driver := s.drivers[did];
    if driver.destination.None? then Failure(EndWithoutDestination)
    else
      var ended := EndRide(driver);
      var rider := s.riders[rid];
      var m1 := M.Notify(s.monitor, ts, M.RiderCategory, M.Dropoff, rid, rider.destination);
      var m2 := M.Notify(m1, ts, M.DriverCategory, M.Dropoff, did, ended.location);
      NotifyAppends(s.monitor, ts, M.RiderCategory, M.Dropoff, rid, rider.destination);
      NotifyAppends(m1, ts, M.DriverCategory, M.Dropoff, did, ended.location);
      AppendOnlyTransitive(s.monitor, m1, m2);
      Success(Transition(State(s.drivers[did := ended], s.riders, s.dispatcher, m2), [DriverRequest(ts, did)]))
  }

  // ---------------------------------------------------------------- step

  /** Pickup and dropoff end a drive, which needs a destination. */
  predicate EndsDrive(e: Event) {
    e.Pickup? || e.Dropoff?
  }

  /** Every rider's patience is non-negative. */
  ghost predicate Patient(s: State) {
    forall k :: k in s.riders ==> s.riders[k].patience >= 0
  }

  /** A rider's status as the code moves it: only waiting to satisfied. */
  predicate Advances(before: Status, after: Status) {
    before == after || (before == Waiting && after == Satisfied)
  }

  /** What every transition guarantees: the invariant and the kept parts
      hold, spawned events name existing objects and, when patience is
      non-negative, none is scheduled before the event that spawned it. */
  ghost predicate Sound(s: State, e: Event, t: Transition) {
    && Valid(t.state) && Keeps(s, t.state)
    && (forall i :: 0 <= i < |t.spawned| ==> Refers(t.state, t.spawned[i]))
    && (Patient(s) ==> forall i :: 0 <= i < |t.spawned| ==> t.spawned[i].timestamp >= e.timestamp)
  }

  lemma {:induction false} RiderRequestSound(s: State, ts: int, rid: Id)
    requires Valid(s) && rid in s.riders
    ensures Sound(s, RiderRequest(ts, rid), DoRiderRequest(s, ts, rid))
    ensures forall k :: k in s.riders ==> DoRiderRequest(s, ts, rid).state.riders[k] == s.riders[k]
  {
    var t := DoRiderRequest(s, ts, rid);
    if |t.spawned| == 2 {
      assert t.spawned[0].driver in s.drivers;
    }
  }

  lemma {:induction false} DriverRequestSound(s: State, ts: int, did: Id)
    requires Valid(s) && did in s.drivers
    ensures Sound(s, DriverRequest(ts, did), DoDriverRequest(s, ts, did))
    ensures forall k :: k in s.riders ==> DoDriverRequest(s, ts, did).state.riders[k] == s.riders[k]
  {
  }

  lemma {:induction false} PickupSound(s: State, ts: int, did: Id, rid: Id)
    requires Valid(s) && did in s.drivers && rid in s.riders
    requires s.drivers[did].destination.Some?
    ensures Sound(s, Pickup(ts, did, rid), DoPickup(s, ts, did, rid).value)
    ensures forall k :: k in s.riders ==>
      Advances(s.riders[k].status, DoPickup(s, ts, did, rid).value.state.riders[k].status)
  {
  }

  lemma {:induction false} DropoffSound(s: State, ts: int, did: Id, rid: Id)
    requires Valid(s) && did in s.drivers && rid in s.riders
    requires s.drivers[did].destination.Some?
    ensures Sound(s, Dropoff(ts, did, rid), DoDropoff(s, ts, did, rid).value)
    ensures forall k :: k in s.riders ==> DoDropoff(s, ts, did, rid).value.state.riders[k] == s.riders[k]
  {
  }

  /** `event.do(dispatcher, monitor)` for any event kind, with
      `Cancellation.do` as written. */
  function Step(s: State, e: Event): (r: Result<Transition, StepError>)
    requires Valid(s)
    ensures r.Failure? <==> !Refers(s, e) || (EndsDrive(e) && s.drivers[e.driver].destination.None?)
    ensures r.Failure? ==> r.error == if Refers(s, e) then EndWithoutDestination else UnknownParticipant
    ensures r.Success? ==> Sound(s, e, r.value)
    ensures r.Success? ==> forall k :: k in s.riders ==> Advances(s.riders[k].status, r.value.state.riders[k].status)
  {
    if !Refers(s, e) then Failure(UnknownParticipant)
    else
      match e
      case RiderRequest(ts, rid) =>
        RiderRequestSound(s, ts, rid);
        Success(DoRiderRequest(s, ts, rid))
      case DriverRequest(ts, did) =>
        DriverRequestSound(s, ts, did);
        Success(DoDriverRequest(s, ts, did))
      case Cancellation(ts, rid) =>
        Success(DoCancellation(s, ts, rid))
      case Pickup(ts, did, rid) =>
        if s.drivers[did].destination.Some? then PickupSound(s, ts, did, rid); DoPickup(s, ts, did, rid)
        else DoPickup(s, ts, did, rid)
      case Dropoff(ts, did, rid) =>
        if s.drivers[did].destination.Some? then DropoffSound(s, ts, did, rid); DoDropoff(s, ts, did, rid)
        else DoDropoff(s, ts, did, rid)
  }

  /** `Step` with `Cancellation.do` as documented: a waiting rider that
      cancels becomes cancelled, so a later pickup turns the driver away. */
  function StepIntended(s: State, e: Event): (r: Result<Transition, StepError>)
    requires Valid(s)
    ensures r.Failure? <==> !Refers(s, e) || (EndsDrive(e) && s.drivers[e.driver].destination.None?)
    ensures r.Success? ==> Sound(s, e, r.value)
    ensures r.Success? ==> forall k :: k in s.riders ==>
      Advances(s.riders[k].status, r.value.state.riders[k].status)
      || (s.riders[k].status == Waiting && r.value.state.riders[k].status == Cancelled)
    ensures e.Cancellation? && r.Success? && s.riders[e.rider].status == Waiting ==>
      r.value.state.riders[e.rider].status == Cancelled
    ensures !e.Cancellation? ==> r == Step(s, e)
  {
    if e.Cancellation? && e.rider in s.riders then Success(DoCancellationIntended(s, e.timestamp, e.rider))
    else Step(s, e)
  }

  /** The code as written: a waiting rider who cancels and is then reached
      by the driver is still picked up, becomes satisfied and gets a
      dropoff. */
  lemma {:induction false} CancelledRiderIsPickedUp(s: State, t1: int, t2: int, did: Id, rid: Id)
    requires Valid(s) && did in s.drivers && rid in s.riders
    requires s.riders[rid].status == Waiting && s.drivers[did].destination.Some?
    ensures
      var c := Step(s, Cancellation(t1, rid));
      && c.Success? && c.value.state.riders[rid].status == Waiting
      && var p := Step(c.value.state, Pickup(t2, did, rid));
      && p.Success? && |p.value.spawned| == 1 && p.value.spawned[0].Dropoff?
      && p.value.state.riders[rid].status == Satisfied
  {
  }

  /** With the documented cancellation, the same rider ends cancelled and
      the arriving driver asks for another rider instead. */
  lemma {:induction false} CancelledRiderIsSkippedIntended(s: State, t1: int, t2: int, did: Id, rid: Id)
    requires Valid(s) && did in s.drivers && rid in s.riders
    requires s.riders[rid].status == Waiting && s.drivers[did].destination.Some?
    ensures
      var c := StepIntended(s, Cancellation(t1, rid));
      && c.Success? && c.value.state.riders[rid].status == Cancelled
      && var p := StepIntended(c.value.state, Pickup(t2, did, rid));
      && p.Success? && p.value.spawned == [DriverRequest(t2, did)]
      && p.value.state.riders[rid].status == Cancelled
      && p.value.state.monitor == c.value.state.monitor
  {
    var c := DoCancellationIntended(s, t1, rid);
    assert StepIntended(s, Cancellation(t1, rid)) == Success(c);
    PickupTurnsAway(c.state, t2, did, rid);
  }

  lemma {:induction false} PickupTurnsAway(s: State, ts: int, did: Id, rid: Id)
    requires Valid(s) && did in s.drivers && rid in s.riders
    requires s.riders[rid].status == Cancelled && s.drivers[did].destination.Some?
    ensures StepIntended(s, Pickup(ts, did, rid)) == Success(Transition(Arrive(s, did), [DriverRequest(ts, did)]))
  {
    assert StepIntended(s, Pickup(ts, did, rid)) == DoPickup(s, ts, did, rid);
  }
}
