/** The monitor (monitor.py): an append-only record of activities per
    category and identifier, reduced to three averages. The averages are
    kept as integer numerator and denominator; the source divides them as
    floats. */
module Monitoring {
  import opened Wrappers
  import opened Seqs
  import opened Locations
  import opened Riders

  /** The category constants `RIDER` and `DRIVER`. */
  datatype Category = RiderCategory | DriverCategory

  /** The description constants `REQUEST`, `CANCEL`, `PICKUP` and `DROPOFF`. */
  datatype Description = Request | Cancel | Pickup | Dropoff

  datatype Activity = Activity(time: int, description: Description, id: Id, location: Location)

  /** The activities of one category. `ids` lists the identifiers in the
      order they were first notified, which is the order a Python dict
      yields its values in. */
  datatype Log = Log(ids: seq<Id>, lists: map<Id, seq<Activity>>) {

    ghost predicate Valid() {
      Distinct(ids) && forall k :: k in ids <==> k in lists
    }

    /** The activities recorded for `id`, oldest first. */
    function Of(id: Id): seq<Activity> {
      if id in lists then lists[id] else []
    }
  }

  /** `Monitor._activities`: one log per category. */
  datatype Monitor = Monitor(riders: Log, drivers: Log) {

    ghost predicate Valid() {
      riders.Valid() && drivers.Valid()
    }

    function LogOf(c: Category): Log {
      match c
      case RiderCategory => riders
      case DriverCategory => drivers
    }

    /** The activities recorded for `(c, id)`, oldest first. */
    function Activities(c: Category, id: Id): seq<Activity> {
      LogOf(c).Of(id)
    }
  }

  /** `Monitor()`: both categories empty. */
  function NewMonitor(): (m: Monitor)
    ensures m.Valid()
    ensures forall c, id :: m.Activities(c, id) == []
  {
    Monitor(Log([], map[]), Log([], map[]))
  }

  // ---------------------------------------------------------------- notify

  /** Adds `a` at the end of the list of `a.id`, creating the list if needed. */
  function Append(log: Log, a: Activity): (r: Log)
    requires log.Valid()
    ensures r.Valid()
    ensures r.Of(a.id) == log.Of(a.id) + [a]
    ensures forall k :: k != a.id ==> r.Of(k) == log.Of(k)
    ensures a.id in log.lists ==> r.ids == log.ids
    ensures a.id !in log.lists ==> r.ids == log.ids + [a.id]
  {
    if a.id in log.lists then
      Log(log.ids, log.lists[a.id := log.lists[a.id] + [a]])
    else
      Log(log.ids + [a.id], log.lists[a.id := [a]])
  }

  /** `monitor.notify(timestamp, category, description, identifier, location)`:
      exactly one activity is appended, to the list of `(category, identifier)`. */
  function Notify(m: Monitor, time: int, c: Category, d: Description, id: Id, loc: Location): (r: Monitor)
    requires m.Valid()
    ensures r.Valid()
    ensures r.Activities(c, id) == m.Activities(c, id) + [Activity(time, d, id, loc)]
    ensures forall c', k :: (c', k) != (c, id) ==> r.Activities(c', k) == m.Activities(c', k)
    ensures r.LogOf(c).lists.Keys == m.LogOf(c).lists.Keys + {id}
  {
    var a := Activity(time, d, id, loc);
    match c
    case RiderCategory => m.(riders := Append(m.riders, a))
    case DriverCategory => m.(drivers := Append(m.drivers, a))
  }

  /** One call of `notify`. */
  datatype Notice = Notice(category: Category, activity: Activity)

  /** The monitor after the notices, in order. */
  function NotifyAll(m: Monitor, ns: seq<Notice>): (r: Monitor)
    requires m.Valid()
    ensures r.Valid()
  {
    if |ns| == 0 then m
    else
      var n := ns[|ns| - 1];
      var a := n.activity;
      Notify(NotifyAll(m, ns[..|ns| - 1]), a.time, n.category, a.description, a.id, a.location)
  }

  /** The activities among the notices that belong to `(c, id)`, in order. */
  function Matching(ns: seq<Notice>, c: Category, id: Id): seq<Activity> {
    if |ns| == 0 then []
    else
      var n := ns[|ns| - 1];
      Matching(ns[..|ns| - 1], c, id)
        + (if n.category == c && n.activity.id == id then [n.activity] else [])
  }

  /** The log is append-only and keeps call order: after any run of `notify`
      calls, each list is the old list followed by that list's new
      activities in the order they were notified. */
  lemma {:induction false} NotifyAllInOrder(m: Monitor, ns: seq<Notice>, c: Category, id: Id)
    requires m.Valid()
    ensures NotifyAll(m, ns).Activities(c, id) == m.Activities(c, id) + Matching(ns, c, id)
  {
    if |ns| > 0 {
      var init, n := ns[..|ns| - 1], ns[|ns| - 1];
      var a := n.activity;
      var before := NotifyAll(m, init);
      var extra := if n.category == c && a.id == id then [a] else [];
      calc {
        NotifyAll(m, ns).Activities(c, id);
        Notify(before, a.time, n.category, a.description, a.id, a.location).Activities(c, id);
        { NoticeMatching(before, n, c, id); }
        before.Activities(c, id) + extra;
        { NotifyAllInOrder(m, init, c, id); }
        (m.Activities(c, id) + Matching(init, c, id)) + extra;
        m.Activities(c, id) + (Matching(init, c, id) + extra);
      }
    }
  }

  /** One notice extends the list of `(c, id)` by its activity exactly when it is about `(c, id)`. */
  lemma {:induction false} NoticeMatching(m: Monitor, n: Notice, c: Category, id: Id)
    requires m.Valid()
    ensures
      var a := n.activity;
      Notify(m, a.time, n.category, a.description, a.id, a.location).Activities(c, id)
        == m.Activities(c, id) + (if n.category == c && a.id == id then [a] else [])
  {
    var a := n.activity;
    assert Activity(a.time, a.description, a.id, a.location) == a;
    if n.category != c || a.id != id {
      assert (n.category, a.id) != (c, id);
      assert m.Activities(c, id) + [] == m.Activities(c, id);
    }
  }

  // ---------------------------------------------------------------- averages

  /** An average as numerator over denominator. */
  datatype Ratio = Ratio(numerator: int, denominator: int)

  /** The exceptions the averages can raise. */
  datatype ReportError =
    | DivisionByZero           // ZeroDivisionError: nobody to average over
    | NoActivityAfterPickup    // IndexError: a driver's last activity is a pickup

  /** A rider with at least two activities has finished waiting; the wait is
      the time from the first activity to the second. */
  function WaitOf(acts: seq<Activity>): int
    requires |acts| >= 2
  {
    acts[1].time - acts[0].time
  }

  /** The sum of the waits of the riders among `ids` who finished waiting. */
  function WaitSum(ids: seq<Id>, lists: map<Id, seq<Activity>>): int {
    if |ids| == 0 then 0
    else
      var k := ids[|ids| - 1];
      WaitSum(ids[..|ids| - 1], lists)
        + (if k in lists && |lists[k]| >= 2 then WaitOf(lists[k]) else 0)
  }

  /** How many of the riders among `ids` finished waiting. */
  function WaitCount(ids: seq<Id>, lists: map<Id, seq<Activity>>): nat {
    if |ids| == 0 then 0
    else
      var k := ids[|ids| - 1];
      WaitCount(ids[..|ids| - 1], lists) + (if k in lists && |lists[k]| >= 2 then 1 else 0)
  }

  /** The riders among `ids` who finished waiting. */
  function Finished(ids: seq<Id>, lists: map<Id, seq<Activity>>): set<Id> {
    set k | k in ids && k in lists && |lists[k]| >= 2
  }

  lemma {:induction false} WaitCountIsFinished(ids: seq<Id>, lists: map<Id, seq<Activity>>)
    requires Distinct(ids)
    ensures WaitCount(ids, lists) == |Finished(ids, lists)|
  {
    if |ids| > 0 {
      var init, k := ids[..|ids| - 1], ids[|ids| - 1];
      assert Distinct(init);
      WaitCountIsFinished(init, lists);
      assert k !in init;
      if k in lists && |lists[k]| >= 2 {
        assert Finished(ids, lists) == Finished(init, lists) + {k};
      } else {
        assert Finished(ids, lists) == Finished(init, lists);
      }
    }
  }

  /** `_average_wait_time`: the mean wait over the riders with at least two
      activities; with none, the division by zero. */
  function AverageWaitTime(log: Log): (r: Result<Ratio, ReportError>)
    requires log.Valid()
    ensures r.Failure? <==> forall k :: k in log.lists ==> |log.lists[k]| < 2
    ensures r.Failure? ==> r.error == DivisionByZero
    ensures r.Success? ==> r.value.denominator == |set k | k in log.lists && |log.lists[k]| >= 2|
    ensures r.Success? ==> r.value.numerator == WaitSum(log.ids, log.lists)
  {
    WaitCountIsFinished(log.ids, log.lists);
    assert Finished(log.ids, log.lists) == set k | k in log.lists && |log.lists[k]| >= 2;
    assert forall k :: k in log.lists && |log.lists[k]| >= 2 ==> k in Finished(log.ids, log.lists);
    var count := WaitCount(log.ids, log.lists);
    if count == 0 then Failure(DivisionByZero)
    else Success(Ratio(WaitSum(log.ids, log.lists), count))
  }

  /** The loop of `_average_wait_time`, over the riders in dict order. */
  method AverageWaitTimeLoop(log: Log) returns (r: Result<Ratio, ReportError>)
    requires log.Valid()
    ensures r == AverageWaitTime(log)
  {
    var wait, count, i := 0, 0, 0;
    while i < |log.ids|
      invariant i <= |log.ids|
      invariant wait == WaitSum(log.ids[..i], log.lists)
      invariant count == WaitCount(log.ids[..i], log.lists)
    {
      var activities := log.lists[log.ids[i]];
      assert log.ids[..i + 1][..i] == log.ids[..i];
      if |activities| >= 2 {
        wait := wait + (activities[1].time - activities[0].time);
        count := count + 1;
      }
      i := i + 1;
    }
    assert log.ids[..i] == log.ids;
    if count == 0 {
      r := Failure(DivisionByZero);
    } else {
      r := Success(Ratio(wait, count));
    }
  }

  /** The distance covered along a driver's activities: the sum of the
      distances between consecutive locations. */
  function PathLength(acts: seq<Activity>): nat {
    if |acts| < 2 then 0
    else
      var n := |acts|;
      PathLength(acts[..n - 1]) + Distance(acts[n - 1].location, acts[n - 2].location)
  }

  /** A route is never shorter than the straight line from its first to its last location. */
  lemma {:induction false} PathLengthAtLeastDisplacement(acts: seq<Activity>)
    requires |acts| > 0
    ensures PathLength(acts) >= Distance(acts[0].location, acts[|acts| - 1].location)
  {
    var n := |acts|;
    if n > 1 {
      var init := acts[..n - 1];
      PathLengthAtLeastDisplacement(init);
      DistanceTriangle(acts[0].location, acts[n - 2].location, acts[n - 1].location);
      DistanceSymmetric(acts[n - 1].location, acts[n - 2].location);
    }
  }

  /** The inner loop of `_average_total_distance`. */
  method PathLengthLoop(acts: seq<Activity>) returns (total: int)
    ensures total == PathLength(acts)
  {
    if |acts| < 2 {
      return 0;
    }
    total := 0;
    var i := 1;
    while i < |acts|
      invariant 1 <= i <= |acts|
      invariant total == PathLength(acts[..i])
    {
      assert acts[..i + 1][..i] == acts[..i];
      total := total + Distance(acts[i].location, acts[i - 1].location);
      i := i + 1;
    }
    assert acts[..i] == acts;
  }

  /** The distance covered on rides: for each pickup that is followed by
      another activity, the distance from the pickup to that activity. */
  function RideLength(acts: seq<Activity>): nat {
    if |acts| < 2 then 0
    else
      var n := |acts|;
      RideLength(acts[..n - 1])
        + (if acts[n - 2].description == Pickup then Distance(acts[n - 1].location, acts[n - 2].location) else 0)
  }

  /** Ride legs are some of the legs of the route. */
  lemma {:induction false} RideWithinPath(acts: seq<Activity>)
    ensures RideLength(acts) <= PathLength(acts)
  {
    if |acts| >= 2 {
      RideWithinPath(acts[..|acts| - 1]);
    }
  }

  /** The source looks up the activity after each pickup, which fails for a final pickup. */
  predicate EndsWithPickup(acts: seq<Activity>) {
    |acts| > 0 && acts[|acts| - 1].description == Pickup
  }

  function TotalSum(ids: seq<Id>, lists: map<Id, seq<Activity>>): nat {
    if |ids| == 0 then 0
    else
      var k := ids[|ids| - 1];
      TotalSum(ids[..|ids| - 1], lists) + (if k in lists then PathLength(lists[k]) else 0)
  }

  function RideSum(ids: seq<Id>, lists: map<Id, seq<Activity>>): nat {
    if |ids| == 0 then 0
    else
      var k := ids[|ids| - 1];
      RideSum(ids[..|ids| - 1], lists) + (if k in lists then RideLength(lists[k]) else 0)
  }

  lemma {:induction false} RideSumWithinTotal(ids: seq<Id>, lists: map<Id, seq<Activity>>)
    ensures RideSum(ids, lists) <= TotalSum(ids, lists)
  {
    if |ids| > 0 {
      RideSumWithinTotal(ids[..|ids| - 1], lists);
      var k := ids[|ids| - 1];
      if k in lists {
        RideWithinPath(lists[k]);
      }
    }
  }

  lemma {:induction false} DriverCount(log: Log)
    requires log.Valid()
    ensures |log.ids| == |log.lists|
  {
    DistinctCardinality(log.ids);
    assert (set k | k in log.ids) == log.lists.Keys;
  }

  /** `_average_total_distance`: the summed route lengths over the number of
      drivers, drivers with fewer than two activities included. */
  function AverageTotalDistance(log: Log): (r: Result<Ratio, ReportError>)
    requires log.Valid()
    ensures r.Failure? <==> |log.lists| == 0
    ensures r.Failure? ==> r.error == DivisionByZero
    ensures r.Success? ==> r.value.denominator == |log.lists| && r.value.numerator >= 0
    ensures r.Success? ==> r.value.numerator == TotalSum(log.ids, log.lists)
  {
    DriverCount(log);
    if |log.ids| == 0 then Failure(DivisionByZero)
    else Success(Ratio(TotalSum(log.ids, log.lists), |log.ids|))
  }

  /** `_average_ride_distance`: the summed ride lengths over the number of
      drivers. A driver whose last activity is a pickup makes the source
      index past the end of the list. */
  function AverageRideDistance(log: Log): (r: Result<Ratio, ReportError>)
    requires log.Valid()
    ensures r == Failure(NoActivityAfterPickup) <==> exists k :: k in log.lists && EndsWithPickup(log.lists[k])
    ensures r == Failure(DivisionByZero) <==> |log.lists| == 0
    ensures r.Success? ==> r.value.denominator == |log.lists| && r.value.numerator >= 0
    ensures r.Success? ==> r.value.numerator == RideSum(log.ids, log.lists)
    ensures r.Success? ==> r.value.numerator <= AverageTotalDistance(log).value.numerator
  {
    DriverCount(log);
    RideSumWithinTotal(log.ids, log.lists);
    if exists k :: k in log.lists && EndsWithPickup(log.lists[k]) then Failure(NoActivityAfterPickup)
    else if |log.ids| == 0 then Failure(DivisionByZero)
    else Success(Ratio(RideSum(log.ids, log.lists), |log.ids|))
  }

  /** The route length after one more activity: the old length plus the leg
      from the previous last location. */
  lemma {:induction false} PathLengthAppend(acts: seq<Activity>, a: Activity)
    ensures PathLength(acts + [a])
      == PathLength(acts) + (if |acts| > 0 then Distance(a.location, acts[|acts| - 1].location) else 0)
  {
    assert (acts + [a])[..|acts|] == acts;
  }

  lemma {:induction false} TotalSumOutside(ids: seq<Id>, lists: map<Id, seq<Activity>>, k: Id, v: seq<Activity>)
    requires k !in ids
    ensures TotalSum(ids, lists[k := v]) == TotalSum(ids, lists)
  {
    if |ids| > 0 {
      TotalSumOutside(ids[..|ids| - 1], lists, k, v);
    }
  }

  lemma {:induction false} TotalSumUpdate(ids: seq<Id>, lists: map<Id, seq<Activity>>, k: Id, v: seq<Activity>)
    requires Distinct(ids) && k in ids && k in lists
    ensures TotalSum(ids, lists[k := v]) + PathLength(lists[k]) == TotalSum(ids, lists) + PathLength(v)
  {
    var init, last := ids[..|ids| - 1], ids[|ids| - 1];
    assert Distinct(init);
    if last == k {
      assert k !in init;
      TotalSumOutside(init, lists, k, v);
    } else {
      assert k in init;
      TotalSumUpdate(init, lists, k, v);
    }
  }

  /** Notifying a driver's activity grows the summed route length by exactly
      the leg from that driver's previous location, and a first activity
      adds nothing. */
  lemma {:induction false} NotifyDriverDistance(m: Monitor, time: int, d: Description, id: Id, loc: Location)
    requires m.Valid()
    ensures
      var before := m.Activities(DriverCategory, id);
      var after := Notify(m, time, DriverCategory, d, id, loc).drivers;
      TotalSum(after.ids, after.lists)
        == TotalSum(m.drivers.ids, m.drivers.lists)
           + (if |before| > 0 then Distance(loc, before[|before| - 1].location) else 0)
  {
    var log, a := m.drivers, Activity(time, d, id, loc);
    PathLengthAppend(log.Of(id), a);
    if id in log.lists {
      TotalSumUpdate(log.ids, log.lists, id, log.lists[id] + [a]);
    } else {
      var ids := log.ids + [id];
      assert ids[..|ids| - 1] == log.ids;
      TotalSumOutside(log.ids, log.lists, id, [a]);
    }
  }

  /** The driver log of the `_average_total_distance` example. */
  function TotalExample(): Log {
    var a1 := Activity(1, Request, "Chris", Location(0, 0));
    var a2 := Activity(3, Pickup, "Chris", Location(10, 2));
    var a3 := Activity(5, Dropoff, "Chris", Location(1, 3));
    var a4 := Activity(6, Request, "Louis", Location(6, 7));
    var a5 := Activity(2, Request, "Chen", Location(3, 3));
    var a6 := Activity(6, Cancel, "Chen", Location(4, 3));
    var a7 := Activity(9, Cancel, "Louis", Location(0, 0));
    Log(["Chris", "Louis", "Chen"], map["Chris" := [a1, a2, a3], "Louis" := [a4, a7], "Chen" := [a5, a6]])
  }

  /** The driver log of the `_average_ride_distance` example. */
  function RideExample(): Log {
    var a1 := Activity(1, Request, "Chris", Location(0, 0));
    var a2 := Activity(3, Pickup, "Chris", Location(10, 2));
    var a3 := Activity(5, Dropoff, "Chris", Location(1, 3));
    var a4 := Activity(6, Request, "Louis", Location(6, 7));
    var a5 := Activity(2, Request, "Chen", Location(3, 3));
    var a6 := Activity(6, Pickup, "Chen", Location(4, 0));
    var a7 := Activity(10, Dropoff, "Chen", Location(13, 20));
    var a8 := Activity(9, Cancel, "Louis", Location(0, 0));
    Log(["Chris", "Louis", "Chen"], map["Chris" := [a1, a2, a3], "Louis" := [a4, a8], "Chen" := [a5, a6, a7]])
  }

  /** 36 units over three drivers: the example's 12.0. */
  lemma {:induction false} TotalDistanceDoctest()
    ensures TotalExample().Valid()
    ensures AverageTotalDistance(TotalExample()) == Success(Ratio(36, 3))
  {
    var log := TotalExample();
    assert log.Valid();
    assert PathLength(log.lists["Chris"]) == 22;
    assert PathLength(log.lists["Louis"]) == 13;
    assert PathLength(log.lists["Chen"]) == 1;
    assert log.ids[..2][..1] == ["Chris"];
    assert log.ids[..2] == ["Chris", "Louis"];
    assert ["Chris"][..0] == [];
    assert TotalSum(["Chris"], log.lists) == 22;
    assert TotalSum(["Chris", "Louis"], log.lists) == 35;
    assert TotalSum(log.ids, log.lists) == 36;
    DriverCount(log);
  }

  /** 39 units over three drivers: the example's 13.0. */
  lemma {:induction false} RideDistanceDoctest()
    ensures RideExample().Valid()
    ensures AverageRideDistance(RideExample()) == Success(Ratio(39, 3))
  {
    var log := RideExample();
    assert log.Valid();
    assert RideLength(log.lists["Chris"]) == 10;
    assert RideLength(log.lists["Louis"]) == 0;
    assert RideLength(log.lists["Chen"]) == 29;
    assert log.ids[..2][..1] == ["Chris"];
    assert log.ids[..2] == ["Chris", "Louis"];
    assert !EndsWithPickup(log.lists["Chris"]);
    assert !EndsWithPickup(log.lists["Louis"]);
    assert !EndsWithPickup(log.lists["Chen"]);
    assert ["Chris"][..0] == [];
    assert RideSum(["Chris"], log.lists) == 10;
    assert RideSum(["Chris", "Louis"], log.lists) == 10;
    assert RideSum(log.ids, log.lists) == 39;
    assert log.lists.Keys == {"Chris", "Louis", "Chen"};
    DriverCount(log);
  }

  // ---------------------------------------------------------------- report

  const WaitKey := "rider_wait_time"
  const TotalKey := "driver_total_distance"
  const RideKey := "driver_ride_distance"

  /** `monitor.report()`: the three averages under their names, computed in
      the order wait, total distance, ride distance; the first failure is
      the exception the source raises. */
  function Report(m: Monitor): (r: Result<map<string, Ratio>, ReportError>)
    requires m.Valid()
    ensures r.Success? <==>
      && AverageWaitTime(m.riders).Success?
      && AverageTotalDistance(m.drivers).Success?
      && AverageRideDistance(m.drivers).Success?
    ensures r.Success? ==> r.value.Keys == {WaitKey, TotalKey, RideKey} && |r.value| == 3
    ensures r.Success? ==>
      && r.value[WaitKey] == AverageWaitTime(m.riders).value
      && r.value[TotalKey] == AverageTotalDistance(m.drivers).value
      && r.value[RideKey] == AverageRideDistance(m.drivers).value
    ensures AverageWaitTime(m.riders).Failure? ==> r == Failure(AverageWaitTime(m.riders).error)
    ensures AverageWaitTime(m.riders).Success? && AverageTotalDistance(m.drivers).Failure? ==>
      r == Failure(AverageTotalDistance(m.drivers).error)
    ensures
      (AverageWaitTime(m.riders).Success? && AverageTotalDistance(m.drivers).Success?
       && AverageRideDistance(m.drivers).Failure?) ==> r == Failure(AverageRideDistance(m.drivers).error)
  {
    var wait :- AverageWaitTime(m.riders);
    var total :- AverageTotalDistance(m.drivers);
    var ride :- AverageRideDistance(m.drivers);
    Success(map[WaitKey := wait, TotalKey := total, RideKey := ride])
  }
}
