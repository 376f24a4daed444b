/** Outdoor-trip batching: many trips share one modem batch. The steps of the adapter as
    functions of its fields, and the class that carries them out. */
module Trips {
  import opened Basics
  import opened OrderedMap

  const TWO_TO_32: int := 0x1_0000_0000

  /** `uint32_t` arithmetic. */
  function Add32(a: nat, b: nat): nat { (a + b) % TWO_TO_32 }

  function Sub32(a: nat, b: nat): nat { (a - b) % TWO_TO_32 }

  datatype Trip = Trip(ongoingBatch: nat, thisTrip: nat, onRestart: nat, distance: nat, interval: nat)

  type Trips = seq<Entry<Trip>>

  datatype Adapter = Adapter(trips: Trips, distance: nat, interval: nat,
                             intervalDropped: bool, distanceDropped: bool)

  /** Each request with the modem's answer. */
  datatype ModemCall =
    | Start(distance: nat, interval: nat, accepted: bool)
    | Restart(distance: nat, interval: nat, accepted: bool)
    | Stop

  /** What a command leaves behind, the modem calls it made, and the completed trips it reported. */
  datatype Outcome = Outcome(adapter: Adapter, calls: seq<ModemCall>, completed: seq<int>)

  const INITIAL := Adapter([], 0, 0, false, false)

  // ----- joining ------------------------------------------------------------------------

  /** A restart forced by a joining trip forgets the unreported part of the batch. */
  function Rebase(e: Entry<Trip>): Entry<Trip> {
    e.(value := e.value.(ongoingBatch := 0, onRestart := e.value.thisTrip))
  }

  function RebaseAll(trips: Trips): (r: Trips)
    ensures |r| == |trips| && forall i :: 0 <= i < |r| ==> r[i] == Rebase(trips[i])
  {
    seq(|trips|, i requires 0 <= i < |trips| => Rebase(trips[i]))
  }

  function Min(a: nat, b: nat): nat { if a < b then a else b }

  /** `answer` is what the query of the odometer gave, if it succeeded; `accepted` the modem's
      answer to the start or restart. A join whose query failed is not saved, and a refused
      restart has rebased the trips all the same. */
  function Join(a: Adapter, id: int, distance: nat, interval: nat, answer: Option<nat>, accepted: bool): Outcome {
    if a.trips == [] then
      var call := [Start(distance, interval, accepted)];
      if accepted then
        var trip := Entry(id, Trip(0, 0, 0, distance, interval));
        Outcome(a.(trips := [trip], distance := distance, interval := interval), call, [])
      else
        Outcome(a, call, [])
    else
      var trips := if answer.Some? then Put(a.trips, id, Trip(answer.value, 0, 0, distance, interval)) else a.trips;
      var remaining := if answer.Some? then Sub32(a.distance, answer.value) else a.distance;
      if distance < remaining || interval < a.interval then
        var d, t := Min(distance, remaining), Min(interval, a.interval);
        Outcome(a.(trips := RebaseAll(trips), distance := d, interval := t), [Restart(d, t, accepted)], [])
      else
        Outcome(a.(trips := trips), [], [])
  }

  // ----- restarting after a trip has gone -----------------------------------------------

  function Travelled(t: Trip, acc: nat): nat { Add32(t.onRestart, Sub32(acc, t.ongoingBatch)) }

  /** A restart for the trips that are left carries the whole batch over. */
  function Settle(e: Entry<Trip>, acc: nat): Entry<Trip> {
    var now := Travelled(e.value, acc);
    e.(value := e.value.(ongoingBatch := 0, thisTrip := now, onRestart := now))
  }

  function SettleAll(trips: Trips, acc: nat): (r: Trips)
    ensures |r| == |trips| && forall i :: 0 <= i < |r| ==> r[i] == Settle(trips[i], acc)
  {
    seq(|trips|, i requires 0 <= i < |trips| => Settle(trips[i], acc))
  }

  /** The running minimum of the source: 0 stands for "not set yet". */
  function Lower(current: nat, candidate: nat): nat {
    if current == 0 || candidate < current then candidate else current
  }

  function Remaining(t: Trip): nat { Sub32(t.distance, t.thisTrip) }

  function MinRemaining(trips: Trips, current: nat): nat {
    if trips == [] then current else MinRemaining(trips[1..], Lower(current, Remaining(trips[0].value)))
  }

  function MinInterval(trips: Trips, current: nat): nat {
    if trips == [] then current else MinInterval(trips[1..], Lower(current, trips[0].value.interval))
  }

  /** The restart asks for a new distance: the least one remaining. */
  predicate NewDistance(a: Adapter, acc: nat) {
    var remaining := MinRemaining(a.trips, 0);
    if !a.distanceDropped && Sub32(a.distance, acc) != 0 then remaining < Sub32(a.distance, acc) else remaining != 0
  }

  /** The restart asks for a new interval: the shortest one. */
  predicate NewInterval(a: Adapter) {
    var shortest := MinInterval(a.trips, 0);
    shortest < a.interval || (shortest != a.interval && a.intervalDropped)
  }

  /** A refused restart leaves everything as it was. */
  function RestartBatching(a: Adapter, acc: nat, accepted: bool): Outcome {
    if a.trips == [] then Outcome(a.(distance := 0, interval := 0), [Stop], [])
    else if NewDistance(a, acc) || NewInterval(a) then
      var d := if NewDistance(a, acc) then MinRemaining(a.trips, 0) else a.distance;
      var t := if NewInterval(a) then MinInterval(a.trips, 0) else a.interval;
      var call := [Restart(d, t, accepted)];
      if accepted then Outcome(a.(trips := SettleAll(a.trips, acc), distance := d, interval := t), call, [])
      else Outcome(a, call, [])
    else Outcome(a, [], [])
  }

  // ----- reporting and stopping -----------------------------------------------------------

  function Progress(e: Entry<Trip>, acc: nat): Entry<Trip> {
    e.(value := e.value.(thisTrip := Travelled(e.value, acc)))
  }

  predicate Finished(e: Entry<Trip>, acc: nat) { e.value.distance <= Travelled(e.value, acc) }

  function Survivors(trips: Trips, acc: nat): Trips {
    if trips == [] then []
    else (if Finished(trips[0], acc) then [] else [Progress(trips[0], acc)]) + Survivors(trips[1..], acc)
  }

  function Completed(trips: Trips, acc: nat): seq<int> {
    if trips == [] then [] else (if Finished(trips[0], acc) then [trips[0].key] else []) + Completed(trips[1..], acc)
  }

  /** Some finished trip has this interval, or this distance. */
  predicate IntervalFinished(trips: Trips, acc: nat, interval: nat) {
    trips != []
    && ((Finished(trips[0], acc) && trips[0].value.interval == interval) || IntervalFinished(trips[1..], acc, interval))
  }

  predicate DistanceFinished(trips: Trips, acc: nat, distance: nat) {
    trips != []
    && ((Finished(trips[0], acc) && trips[0].value.distance == distance) || DistanceFinished(trips[1..], acc, distance))
  }

  function AfterReport(a: Adapter, acc: nat): Adapter {
    a.(trips := Survivors(a.trips, acc),
       intervalDropped := a.intervalDropped || IntervalFinished(a.trips, acc, a.interval),
       distanceDropped := a.distanceDropped || DistanceFinished(a.trips, acc, a.distance))
  }

  function Report(a: Adapter, acc: nat, accepted: bool): Outcome {
    var completed := Completed(a.trips, acc);
    if completed == [] then Outcome(AfterReport(a, acc), [], [])
    else RestartBatching(AfterReport(a, acc), acc, accepted).(completed := completed)
  }

  /** A stopped trip goes; the flags record whether the ongoing values were its own. */
  function Without(a: Adapter, id: int): Adapter
    requires Has(a.trips, id)
  {
    var trip := At(a.trips, id);
    a.(trips := Erase(a.trips, id),
       intervalDropped := a.intervalDropped || trip.interval == a.interval,
       distanceDropped := a.distanceDropped || trip.distance == a.distance)
  }

  function StopTrip(a: Adapter, id: int, acc: nat, accepted: bool): Outcome
    requires Has(a.trips, id)
  {
    var left := Without(a, id);
    var stop := if |a.trips| == 1 then [Stop] else [];
    if left.trips == [] then Outcome(left.(distance := 0, interval := 0), stop, [])
    else
      var r := RestartBatching(left, acc, accepted);
      r.(calls := stop + r.calls)
  }

  /** Erasing or replacing the first element of `rest` in `kept + rest`. */
  lemma ReplaceAt<T>(kept: seq<T>, rest: seq<T>, x: T)
    requires rest != []
    ensures (kept + rest)[|kept|] == rest[0]
    ensures (kept + rest)[..|kept|] + (kept + rest)[|kept| + 1..] == kept + rest[1..]
    ensures (kept + rest)[|kept| := x] == kept + [x] + rest[1..]
  {
  }

  /** One entry of the walk served. */
  lemma ServedOne(kept: Trips, ids: seq<int>, rest: Trips, acc: nat)
    requires rest != []
    ensures kept + Survivors(rest, acc)
      == (if Finished(rest[0], acc) then kept else kept + [Progress(rest[0], acc)]) + Survivors(rest[1..], acc)
    ensures ids + Completed(rest, acc)
      == (if Finished(rest[0], acc) then ids + [rest[0].key] else ids) + Completed(rest[1..], acc)
  {
    if !Finished(rest[0], acc) {
      Regroup(kept, [Progress(rest[0], acc)], Survivors(rest[1..], acc));
    } else {
      Regroup(ids, [rest[0].key], Completed(rest[1..], acc));
    }
  }

  lemma ServedFlags(rest: Trips, acc: nat, interval: nat, distance: nat)
    requires rest != []
    ensures IntervalFinished(rest, acc, interval)
      == ((Finished(rest[0], acc) && rest[0].value.interval == interval) || IntervalFinished(rest[1..], acc, interval))
    ensures DistanceFinished(rest, acc, distance)
      == ((Finished(rest[0], acc) && rest[0].value.distance == distance) || DistanceFinished(rest[1..], acc, distance))
  {
  }

  // ----- the class ------------------------------------------------------------------------

  class BatchingAdapter {
    var tripSessions: Trips
    var ongoingTripDistance: nat
    var ongoingTripTBFInterval: nat
    var tripWithOngoingTBFDropped: bool
    var tripWithOngoingTripDistanceDropped: bool
    var modemCalls: seq<ModemCall>
    /** Every list of completed trips handed to the clients. */
    var reports: seq<seq<int>>

    ghost function View(): Adapter reads this {
      Adapter(tripSessions, ongoingTripDistance, ongoingTripTBFInterval,
              tripWithOngoingTBFDropped, tripWithOngoingTripDistanceDropped)
    }

    twostate predicate Did(r: Outcome) reads this {
      View() == r.adapter && modemCalls == old(modemCalls) + r.calls
      && reports == old(reports) + if r.completed == [] then [] else [r.completed]
    }

    constructor ()
      ensures View() == INITIAL && modemCalls == [] && reports == []
    {
      tripSessions, ongoingTripDistance, ongoingTripTBFInterval := [], 0, 0;
      tripWithOngoingTBFDropped, tripWithOngoingTripDistanceDropped := false, false;
      modemCalls, reports := [], [];
    }

    method StartTripBatchingMultiplex(id: int, minDistance: nat, minInterval: nat, answer: Option<nat>, accepted: bool)
      modifies this
      ensures Did(Join(old(View()), id, minDistance, minInterval, answer, accepted))
    {
      if |tripSessions| == 0 {
        tripSessions := [Entry(id, Trip(0, 0, 0, minDistance, minInterval))];
        modemCalls := modemCalls + [Start(minDistance, minInterval, accepted)];
        if accepted {
          ongoingTripDistance := minDistance;
          ongoingTripTBFInterval := minInterval;
        } else {
          tripSessions := Erase(tripSessions, id);
        }
        return;
      }
      var distance, interval, needsRestart := ongoingTripDistance, ongoingTripTBFInterval, false;
      if interval > minInterval {
        interval := minInterval;
        needsRestart := true;
      }
      if answer.None? {
        if minDistance < distance {
          distance := minDistance;
          needsRestart := true;
        }
      } else {
        var remaining := Sub32(distance, answer.value);
        if minDistance < remaining {
          distance := minDistance;
          needsRestart := true;
        } else if needsRestart {
          distance := remaining;
        }
        tripSessions := Put(tripSessions, id, Trip(answer.value, 0, 0, minDistance, minInterval));
      }
      if needsRestart {
        ongoingTripDistance := distance;
        ongoingTripTBFInterval := interval;
        RebaseEach();
        modemCalls := modemCalls + [Restart(distance, interval, accepted)];
      }
    }

    method RebaseEach()
      modifies this`tripSessions
      ensures tripSessions == RebaseAll(old(tripSessions))
    {
      for i := 0 to |tripSessions|
        invariant |tripSessions| == |old(tripSessions)|
        invariant forall k :: 0 <= k < i ==> tripSessions[k] == Rebase(old(tripSessions)[k])
        invariant forall k :: i <= k < |tripSessions| ==> tripSessions[k] == old(tripSessions)[k]
      {
        var status := tripSessions[i].value;
        status := status.(ongoingBatch := 0);
        status := status.(onRestart := status.thisTrip);
        tripSessions := tripSessions[i := tripSessions[i].(value := status)];
      }
    }

    method SettleEach(acc: nat)
      modifies this`tripSessions
      ensures tripSessions == SettleAll(old(tripSessions), acc)
    {
      for i := 0 to |tripSessions|
        invariant |tripSessions| == |old(tripSessions)|
        invariant forall k :: 0 <= k < i ==> tripSessions[k] == Settle(old(tripSessions)[k], acc)
        invariant forall k :: i <= k < |tripSessions| ==> tripSessions[k] == old(tripSessions)[k]
      {
        var status := tripSessions[i].value;
        status := status.(thisTrip := Add32(status.onRestart, Sub32(acc, status.ongoingBatch)));
        status := status.(ongoingBatch := 0);
        status := status.(onRestart := status.thisTrip);
        tripSessions := tripSessions[i := tripSessions[i].(value := status)];
      }
    }

    /** The minima over the live trips, in one pass. */
    method FindMinima() returns (minRemaining: nat, minInterval: nat)
      ensures minRemaining == MinRemaining(tripSessions, 0) && minInterval == MinInterval(tripSessions, 0)
    {
      minRemaining, minInterval := 0, 0;
      for i := 0 to |tripSessions|
        invariant MinRemaining(tripSessions[i..], minRemaining) == MinRemaining(tripSessions, 0)
        invariant MinInterval(tripSessions[i..], minInterval) == MinInterval(tripSessions, 0)
      {
        var status := tripSessions[i].value;
        assert tripSessions[i..][1..] == tripSessions[i + 1..];
        if minRemaining == 0 || minRemaining > Sub32(status.distance, status.thisTrip) {
          minRemaining := Sub32(status.distance, status.thisTrip);
        }
        if minInterval == 0 || minInterval > status.interval {
          minInterval := status.interval;
        }
      }
    }

    /** `acc` is the distance to use: the reported one, or the modem's answer to a query. */
    method RestartTripBatching(acc: nat, accepted: bool)
      modifies this
      ensures Did(RestartBatching(old(View()), acc, accepted))
    {
      if |tripSessions| == 0 {
        modemCalls := modemCalls + [Stop];
        ongoingTripDistance := 0;
        ongoingTripTBFInterval := 0;
        return;
      }
      var minRemaining, minInterval := FindMinima();
      var needsRestart, distance, interval := false, ongoingTripDistance, ongoingTripTBFInterval;
      if !tripWithOngoingTripDistanceDropped && Sub32(distance, acc) != 0 {
        if minRemaining < Sub32(distance, acc) {
          distance := minRemaining;
          needsRestart := true;
        }
      } else if minRemaining != 0 {
        distance := minRemaining;
        needsRestart := true;
      }
      if minInterval < interval || (minInterval != interval && tripWithOngoingTBFDropped) {
        interval := minInterval;
        needsRestart := true;
      }
      if needsRestart {
        modemCalls := modemCalls + [Restart(distance, interval, accepted)];
        if accepted {
          SettleEach(acc);
          ongoingTripDistance := distance;
          ongoingTripTBFInterval := interval;
        }
      }
    }

    method ReportCompletedTrips(acc: nat, accepted: bool)
      modifies this
      ensures Did(Report(old(View()), acc, accepted))
    {
      var completed := DropFinished(acc);
      if |completed| > 0 {
        reports := reports + [completed];
        RestartTripBatching(acc, accepted);
      }
    }

    /** Updates every trip and erases the finished ones while walking the map. */
    method DropFinished(acc: nat) returns (completed: seq<int>)
      modifies this
      ensures View() == AfterReport(old(View()), acc) && completed == Completed(old(tripSessions), acc)
      ensures modemCalls == old(modemCalls) && reports == old(reports)
    {
      completed := [];
      ghost var kept, rest := [], tripSessions;
      ghost var left, ids := Survivors(rest, acc), Completed(rest, acc);
      ghost var intervalGone := tripWithOngoingTBFDropped || IntervalFinished(rest, acc, ongoingTripTBFInterval);
      ghost var distanceGone := tripWithOngoingTripDistanceDropped || DistanceFinished(rest, acc, ongoingTripDistance);
      var it := 0;
      while it < |tripSessions|
        invariant tripSessions == kept + rest && it == |kept|
        invariant modemCalls == old(modemCalls) && reports == old(reports)
        invariant ongoingTripDistance == old(ongoingTripDistance)
        invariant ongoingTripTBFInterval == old(ongoingTripTBFInterval)
        invariant kept + Survivors(rest, acc) == left
        invariant completed + Completed(rest, acc) == ids
        invariant (tripWithOngoingTBFDropped || IntervalFinished(rest, acc, ongoingTripTBFInterval)) == intervalGone
        invariant (tripWithOngoingTripDistanceDropped || DistanceFinished(rest, acc, ongoingTripDistance))
          == distanceGone
        decreases |rest|
      {
        ghost var e := rest[0];
        ReplaceAt(kept, rest, Progress(e, acc));
        ServedOne(kept, completed, rest, acc);
        ServedFlags(rest, acc, ongoingTripTBFInterval, ongoingTripDistance);
        completed, it := ServeTrip(it, acc, completed);
        if !Finished(e, acc) {
          kept := kept + [Progress(e, acc)];
        }
        rest := rest[1..];
      }
    }

    /** Updates the trip at `it`; erases it if it is finished. */
    method ServeTrip(it: nat, acc: nat, completed: seq<int>) returns (completed': seq<int>, next: nat)
      requires it < |tripSessions|
      modifies this`tripSessions, this`tripWithOngoingTBFDropped, this`tripWithOngoingTripDistanceDropped
      ensures var e := old(tripSessions)[it];
        if Finished(e, acc) then
          completed' == completed + [e.key] && next == it
          && tripSessions == old(tripSessions)[..it] + old(tripSessions)[it + 1..]
          && tripWithOngoingTBFDropped
             == (old(tripWithOngoingTBFDropped) || e.value.interval == ongoingTripTBFInterval)
          && tripWithOngoingTripDistanceDropped
             == (old(tripWithOngoingTripDistanceDropped) || e.value.distance == ongoingTripDistance)
        else
          completed' == completed && next == it + 1 && tripSessions == old(tripSessions)[it := Progress(e, acc)]
          && tripWithOngoingTBFDropped == old(tripWithOngoingTBFDropped)
          && tripWithOngoingTripDistanceDropped == old(tripWithOngoingTripDistanceDropped)
    {
      var e := tripSessions[it];
      var trip := e.value.(thisTrip := Add32(e.value.onRestart, Sub32(acc, e.value.ongoingBatch)));
      completed', next := completed, it;
      if trip.distance <= trip.thisTrip {
        completed' := completed + [e.key];
        tripSessions := tripSessions[..it] + tripSessions[it + 1..];
        if trip.interval == ongoingTripTBFInterval {
          tripWithOngoingTBFDropped := true;
        }
        if trip.distance == ongoingTripDistance {
          tripWithOngoingTripDistanceDropped := true;
        }
      } else {
        tripSessions := tripSessions[it := e.(value := trip)];
        next := it + 1;
      }
    }

    method StopTripBatchingMultiplex(id: int, acc: nat, accepted: bool)
      requires Has(tripSessions, id)
      modifies this
      ensures Did(StopTrip(old(View()), id, acc, accepted))
    {
      if |tripSessions| == 1 {
        modemCalls := modemCalls + [Stop];
      }
      EraseTrip(id);
      if |tripSessions| == 0 {
        ongoingTripDistance := 0;
        ongoingTripTBFInterval := 0;
      } else {
        RestartTripBatching(acc, accepted);
      }
    }

    method EraseTrip(id: int)
      requires Has(tripSessions, id)
      modifies this`tripSessions, this`tripWithOngoingTBFDropped, this`tripWithOngoingTripDistanceDropped
      ensures View() == Without(old(View()), id)
    {
      var trip := At(tripSessions, id);
      if trip.interval == ongoingTripTBFInterval {
        tripWithOngoingTBFDropped := true;
      }
      if trip.distance == ongoingTripDistance {
        tripWithOngoingTripDistanceDropped := true;
      }
      tripSessions := Erase(tripSessions, id);
    }

    /** New options for a live trip: it is stopped and joins again under its old id. */
    method UpdateTrip(id: int, acc: nat, accepted: bool, minDistance: nat, minInterval: nat,
                      answer: Option<nat>, acceptedAgain: bool)
      requires Has(tripSessions, id)
      modifies this
      ensures var stopped := StopTrip(old(View()), id, acc, accepted);
        var joined := Join(stopped.adapter, id, minDistance, minInterval, answer, acceptedAgain);
        View() == joined.adapter && modemCalls == old(modemCalls) + stopped.calls + joined.calls
        && reports == old(reports)
    {
      StopTripBatchingMultiplex(id, acc, accepted);
      StartTripBatchingMultiplex(id, minDistance, minInterval, answer, acceptedAgain);
    }
  }
}
