/** References for outdoor-trip batching: the batch the modem was told to run, the trips as a plain map,
    and which of the ongoing values have lost their trip. */
module TripReference {
  import opened Basics
  import opened OrderedMap
  import opened Trips
  import opened TripRuns
  import opened TripDeadlines

  // ----- what the modem was told ------------------------------------------------------------------

  datatype Batch = Batch(distance: nat, interval: nat)

  /** An accepted start or restart replaces the modem's batch, and a stop ends it. */
  function Told(b: Option<Batch>, calls: seq<ModemCall>): Option<Batch>
    decreases |calls|
  {
    if calls == [] then b
    else
      var next := match calls[0]
        case Start(distance, interval, accepted) => if accepted then Some(Batch(distance, interval)) else b
        case Restart(distance, interval, accepted) => if accepted then Some(Batch(distance, interval)) else b
        case Stop => None;
      Told(next, calls[1..])
  }

  /** The modem's batch after all the calls of a run. */
  function ModemBatch(es: seq<Event>): Option<Batch> {
    if es == [] then None
    else Told(ModemBatch(es[..|es| - 1]), OutcomeOf(Run(es[..|es| - 1]), es[|es| - 1]).calls)
  }

  function Believed(a: Adapter): Option<Batch> {
    if a.trips == [] then None else Some(Batch(a.distance, a.interval))
  }

  lemma RestartTold(a: Adapter, acc: nat, accepted: bool)
    requires a.trips != []
    ensures var r := RestartBatching(a, acc, accepted);
      r.adapter.trips != []
      && forall b :: Told(b, r.calls) == if Renews(r.calls) then Believed(r.adapter) else b
    ensures var r := RestartBatching(a, acc, accepted); !Renews(r.calls) ==> r.adapter == a
  {
    var r := RestartBatching(a, acc, accepted);
    if r.calls != [] {
      assert r.calls == [r.calls[0]] && r.calls[1..] == [];
      assert accepted ==> r.calls[0] in r.calls;
    }
  }

  /** Whatever one event asks of the modem, an accepted start or restart leaves the modem with what the
      adapter believes, and with nothing asked the adapter goes on believing what it did, unless the
      restart of a join was refused. */
  lemma NextTold(w: World, e: Event, b: Option<Batch>)
    requires w.a.trips == [] ==> b == None
    ensures var o := OutcomeOf(w, e);
      if o.adapter.trips == [] then Told(b, o.calls) == None
      else if Renews(o.calls) then Told(b, o.calls) == Believed(o.adapter)
      else Told(b, o.calls) == b && ((Restarts(w, e) && !e.accepted) || Believed(o.adapter) == Believed(w.a))
  {
    var o := OutcomeOf(w, e);
    match e
    case Move(_) =>
    case JoinTrip(_, _, _, _, accepted) =>
      if o.calls != [] {
        assert o.calls == [o.calls[0]] && o.calls[1..] == [];
        assert accepted ==> o.calls[0] in o.calls;
      }
    case ReportTrips(accepted) => ReportTold(w, accepted, b);
    case EndTrip(id, accepted) =>
      if Has(w.a.trips, id) {
        EndTold(w, id, accepted, b);
      }
  }

  lemma ReportTold(w: World, accepted: bool, b: Option<Batch>)
    requires w.a.trips == [] ==> b == None
    ensures var o := OutcomeOf(w, ReportTrips(accepted));
      if o.adapter.trips == [] then Told(b, o.calls) == None
      else if Renews(o.calls) then Told(b, o.calls) == Believed(o.adapter)
      else Told(b, o.calls) == b && Believed(o.adapter) == Believed(w.a)
  {
    var left := AfterReport(w.a, w.odometer);
    if Completed(w.a.trips, w.odometer) == [] {
      NothingCompleted(w.a.trips, w.odometer);
      if w.a.trips != [] {
        var j := SurvivorTo(w.a.trips, w.odometer, 0);
      }
    } else if left.trips != [] {
      RestartTold(left, w.odometer, accepted);
    } else {
      assert [Stop][1..] == [];
    }
  }

  lemma {:induction false} EraseLeaves(trips: Trips, id: int)
    requires Has(trips, id)
    ensures |Erase(trips, id)| == |trips| - 1
  {
    if trips[0].key != id {
      var i :| 0 <= i < |trips| && trips[i].key == id;
      assert trips[1..][i - 1].key == id;
      EraseLeaves(trips[1..], id);
    }
  }

  lemma EndTold(w: World, id: int, accepted: bool, b: Option<Batch>)
    requires Has(w.a.trips, id)
    ensures var o := OutcomeOf(w, EndTrip(id, accepted));
      if o.adapter.trips == [] then Told(b, o.calls) == None
      else if Renews(o.calls) then Told(b, o.calls) == Believed(o.adapter)
      else Told(b, o.calls) == b && Believed(o.adapter) == Believed(w.a)
  {
    var left := Without(w.a, id);
    EraseLeaves(w.a.trips, id);
    if left.trips == [] {
      assert [Stop][1..] == [];
    } else {
      RestartTold(left, w.odometer, accepted);
      var calls := RestartBatching(left, w.odometer, accepted).calls;
      assert [] + calls == calls;
    }
  }

  /** At every moment of every run the calls have left the modem with exactly the batch the adapter
      believes it runs, and with none when no trip is live, unless it refused the restart of a join
      and was not started again since. */
  lemma {:induction false} ModemRunsBelieved(es: seq<Event>)
    ensures Run(es).a.trips == [] ==> ModemBatch(es) == None
    ensures !Astray(es) ==> ModemBatch(es) == Believed(Run(es).a)
  {
    if es != [] {
      ModemRunsBelieved(es[..|es| - 1]);
      NextTold(Run(es[..|es| - 1]), es[|es| - 1], ModemBatch(es[..|es| - 1]));
    }
  }

  /** Without trips nothing is believed: both ongoing values are 0. */
  lemma {:induction false} EmptyIsReset(es: seq<Event>)
    requires Run(es).a.trips == []
    ensures Run(es).a.distance == 0 && Run(es).a.interval == 0
  {
    if es != [] {
      var w, e := Run(es[..|es| - 1]), es[|es| - 1];
      if w.a.trips == [] {
        EmptyIsReset(es[..|es| - 1]);
      } else if e.ReportTrips? && Completed(w.a.trips, w.odometer) == [] {
        NothingCompleted(w.a.trips, w.odometer);
        var j := SurvivorTo(w.a.trips, w.odometer, 0);
      } else if e.JoinTrip? {
        AfterJoin(w, e);
      }
    }
  }

  // ----- what the modem is asked -------------------------------------------------------------------

  /** A 0 makes the values before it not count; `least` is the least of those after the last 0, or 0 if
      there are none. */
  ghost predicate LeastFrom(values: seq<nat>, from: nat, least: nat) {
    from <= |values| && (from > 0 ==> values[from - 1] == 0)
    && (forall i :: from <= i < |values| ==> 0 < least <= values[i])
    && if from == |values| then least == 0 else exists i :: from <= i < |values| && values[i] == least
  }

  ghost predicate Least(values: seq<nat>, least: nat) { exists from: nat :: LeastFrom(values, from, least) }

  lemma LeastGrows(values: seq<nat>, last: nat, least: nat)
    requires Least(values, least)
    ensures Least(values + [last], Lower(least, last))
  {
    var more := values + [last];
    var from: nat :| LeastFrom(values, from, least);
    if last == 0 {
      assert LeastFrom(more, |more|, 0);
    } else {
      assert more[|values|] == last && forall i :: 0 <= i < |values| ==> more[i] == values[i];
      if from < |values| {
        var i :| from <= i < |values| && values[i] == least;
        assert more[i] == least;
      }
      assert LeastFrom(more, from, Lower(least, last));
    }
  }

  function Lefts(trips: Trips): seq<nat> {
    if trips == [] then []
    else
      var last := trips[|trips| - 1].value;
      Lefts(trips[..|trips| - 1]) + [(last.distance - last.thisTrip) % 0x1_0000_0000]
  }

  function Intervals(trips: Trips): seq<nat> {
    if trips == [] then [] else Intervals(trips[..|trips| - 1]) + [trips[|trips| - 1].value.interval]
  }

  lemma {:induction false} RemainingSnoc(trips: Trips, current: nat)
    requires trips != []
    ensures MinRemaining(trips, current)
      == Lower(MinRemaining(trips[..|trips| - 1], current), Remaining(trips[|trips| - 1].value))
  {
    if |trips| == 1 {
      assert trips[1..] == [];
    } else {
      RemainingSnoc(trips[1..], Lower(current, Remaining(trips[0].value)));
      assert trips[1..][..|trips| - 2] == trips[..|trips| - 1][1..];
    }
  }

  lemma {:induction false} IntervalSnoc(trips: Trips, current: nat)
    requires trips != []
    ensures MinInterval(trips, current)
      == Lower(MinInterval(trips[..|trips| - 1], current), trips[|trips| - 1].value.interval)
  {
    if |trips| == 1 {
      assert trips[1..] == [];
    } else {
      IntervalSnoc(trips[1..], Lower(current, trips[0].value.interval));
      assert trips[1..][..|trips| - 2] == trips[..|trips| - 1][1..];
    }
  }

  lemma {:induction false} MinimaAre(trips: Trips)
    ensures Least(Lefts(trips), MinRemaining(trips, 0)) && Least(Intervals(trips), MinInterval(trips, 0))
  {
    if trips == [] {
      assert LeastFrom(Lefts(trips), 0, 0) && LeastFrom(Intervals(trips), 0, 0);
    } else {
      var front, last := trips[..|trips| - 1], trips[|trips| - 1].value;
      MinimaAre(front);
      RemainingSnoc(trips, 0);
      IntervalSnoc(trips, 0);
      LeastGrows(Lefts(front), Remaining(last), MinRemaining(front, 0));
      LeastGrows(Intervals(front), last.interval, MinInterval(front, 0));
    }
  }

  /** A new distance is asked for if it is less than what is left of the batch, or if the trip of the
      present one has gone, or the batch is used up; a new interval if it is shorter, or if the trip of the
      present one has gone. */
  predicate ForDistance(a: Adapter, acc: nat, distance: nat) {
    var left := (a.distance - acc) % 0x1_0000_0000;
    if a.distanceDropped || left == 0 then distance != 0 else distance < left
  }

  predicate ForInterval(a: Adapter, interval: nat) {
    interval < a.interval || (a.intervalDropped && interval > a.interval)
  }

  /** The one restart, for the least distance and the shortest interval, each only if it is asked for. */
  ghost predicate AsksRestart(a: Adapter, acc: nat, accepted: bool, calls: seq<ModemCall>) {
    exists d: nat, t: nat :: Least(Lefts(a.trips), d) && Least(Intervals(a.trips), t)
      && calls == if ForDistance(a, acc, d) || ForInterval(a, t)
                  then [Restart(if ForDistance(a, acc, d) then d else a.distance,
                                if ForInterval(a, t) then t else a.interval, accepted)]
                  else []
  }

  lemma RestartAsks(a: Adapter, acc: nat, accepted: bool)
    requires a.trips != []
    ensures AsksRestart(a, acc, accepted, RestartBatching(a, acc, accepted).calls)
  {
    MinimaAre(a.trips);
    var d, t := MinRemaining(a.trips, 0), MinInterval(a.trips, 0);
    assert ForDistance(a, acc, d) == NewDistance(a, acc) && ForInterval(a, t) == NewInterval(a);
  }

  // ----- the trips as a plain map -------------------------------------------------------------------

  datatype Wish = Wish(distance: nat, interval: nat)

  /** A join asks for a trip, a report that completes it or a stop takes it out. */
  function Onward(live: map<int, Wish>, w: World, e: Event): map<int, Wish> {
    match e
    case Move(_) => live
    case JoinTrip(id, distance, interval, queried, accepted) =>
      if if live == map[] then accepted else queried then live[id := Wish(distance, interval)] else live
    case ReportTrips(_) =>
      var completed := OutcomeOf(w, e).completed;
      map id | id in live && id !in completed :: live[id]
    case EndTrip(id, _) => live - {id}
  }

  /** What was asked for by the trips that have joined, and were neither completed nor stopped. */
  function Live(es: seq<Event>): map<int, Wish> {
    if es == [] then map[] else Onward(Live(es[..|es| - 1]), Run(es[..|es| - 1]), es[|es| - 1])
  }

  predicate Mirrors(trips: Trips, live: map<int, Wish>) {
    (forall e :: e in trips ==> e.key in live && live[e.key] == Wish(e.value.distance, e.value.interval))
    && (forall id :: id in live ==> Has(trips, id))
  }

  /** The same keys with the same wishes, entry by entry. */
  predicate SameWishes(a: Trips, b: Trips) {
    |a| == |b|
    && forall i :: 0 <= i < |a| ==>
         a[i].key == b[i].key && a[i].value.distance == b[i].value.distance
         && a[i].value.interval == b[i].value.interval
  }

  lemma MirrorsSame(a: Trips, b: Trips, live: map<int, Wish>)
    requires SameWishes(a, b) && Mirrors(a, live)
    ensures Mirrors(b, live) && (Sorted(a) ==> Sorted(b))
  {
    forall e | e in b ensures e.key in live && live[e.key] == Wish(e.value.distance, e.value.interval) {
      var i :| 0 <= i < |b| && b[i] == e;
      assert a[i] in a;
    }
    forall id | id in live ensures Has(b, id) {
      var i :| 0 <= i < |a| && a[i].key == id;
      assert b[i].key == id;
    }
  }

  lemma MirrorsEmpty(trips: Trips, live: map<int, Wish>)
    requires Mirrors(trips, live)
    ensures trips == [] <==> live == map[]
  {
    if trips == [] {
      forall id ensures id !in live {
        assert id in live ==> Has(trips, id);
      }
      assert live.Keys == {};
    } else {
      assert trips[0] in trips;
    }
  }

  lemma HasEntry(trips: Trips, id: int)
    ensures Has(trips, id) <==> exists e :: e in trips && e.key == id
  {
    if Has(trips, id) {
      var i :| 0 <= i < |trips| && trips[i].key == id;
      assert trips[i] in trips;
    }
  }

  lemma PutMirrors(trips: Trips, live: map<int, Wish>, id: int, trip: Trip)
    requires Sorted(trips) && Mirrors(trips, live)
    ensures Sorted(Put(trips, id, trip))
    ensures Mirrors(Put(trips, id, trip), live[id := Wish(trip.distance, trip.interval)])
  {
    PutSorted(trips, id, trip);
    var put, live' := Put(trips, id, trip), live[id := Wish(trip.distance, trip.interval)];
    forall e | e in put ensures e.key in live' && live'[e.key] == Wish(e.value.distance, e.value.interval) {
      PutMember(trips, id, trip, e);
    }
    forall k | k in live' ensures Has(put, k) {
      HasEntry(trips, k);
      HasEntry(put, k);
      if k == id {
        PutMember(trips, id, trip, Entry(id, trip));
      } else {
        var e :| e in trips && e.key == k;
        PutMember(trips, id, trip, e);
      }
    }
  }

  lemma EraseMirrors(trips: Trips, live: map<int, Wish>, id: int)
    requires Sorted(trips) && Mirrors(trips, live)
    ensures Sorted(Erase(trips, id)) && Mirrors(Erase(trips, id), live - {id})
  {
    EraseSorted(trips, id);
    var left := Erase(trips, id);
    forall e | e in left ensures e.key in live - {id} && live[e.key] == Wish(e.value.distance, e.value.interval) {
      EraseMember(trips, id, e);
    }
    forall k | k in live - {id} ensures Has(left, k) {
      HasEntry(trips, k);
      HasEntry(left, k);
      var e :| e in trips && e.key == k;
      EraseMember(trips, id, e);
    }
  }

  lemma SurvivorsMirror(trips: Trips, live: map<int, Wish>, acc: nat)
    requires Sorted(trips) && Mirrors(trips, live)
    ensures var left := Survivors(trips, acc);
      Sorted(left) && Mirrors(left, map id | id in live && id !in Completed(trips, acc) :: live[id])
  {
    SurvivorsSorted(trips, acc);
    var left := Survivors(trips, acc);
    var live' := map id | id in live && id !in Completed(trips, acc) :: live[id];
    forall e | e in left ensures e.key in live' && live'[e.key] == Wish(e.value.distance, e.value.interval) {
      var j :| 0 <= j < |left| && left[j] == e;
      var i := SurvivorFrom(trips, acc, j);
      assert trips[i] in trips;
      CompletedIff(trips, acc, e.key);
      assert e.key !in Completed(trips, acc) by {
        forall k | 0 <= k < |trips| && trips[k].key == e.key ensures !Finished(trips[k], acc) {
          SameKey(trips, trips[k], trips[i]);
        }
      }
    }
    forall id | id in live' ensures Has(left, id) {
      var i :| 0 <= i < |trips| && trips[i].key == id;
      CompletedIff(trips, acc, id);
      var j := SurvivorTo(trips, acc, i);
      assert left[j].key == id;
    }
  }

  lemma RestartSame(a: Adapter, acc: nat, accepted: bool)
    ensures SameWishes(a.trips, RestartBatching(a, acc, accepted).adapter.trips)
  {
  }

  lemma JoinMirrors(w: World, e: Event, live: map<int, Wish>)
    requires Sorted(w.a.trips) && Mirrors(w.a.trips, live) && e.JoinTrip?
    ensures var saved := if live == map[] then e.accepted else e.queried;
      Sorted(Next(w, e).a.trips)
      && Mirrors(Next(w, e).a.trips, if saved then live[e.id := Wish(e.distance, e.interval)] else live)
  {
    MirrorsEmpty(w.a.trips, live);
    if w.a.trips == [] {
      assert Next(w, e).a.trips == if e.accepted then [Entry(e.id, Trip(0, 0, 0, e.distance, e.interval))] else [];
      assert e.accepted ==> Next(w, e).a.trips[0].key == e.id;
    } else {
      AfterJoin(w, e);
      PutMirrors(w.a.trips, live, e.id, Trip(w.odometer, 0, 0, e.distance, e.interval));
      var after := if e.queried then live[e.id := Wish(e.distance, e.interval)] else live;
      MirrorsSame(JoinedTrips(w, e), Next(w, e).a.trips, after);
    }
  }

  /** Over every run, whatever the modem answers, the adapter's trips are exactly those of the plain
      map, with the distances and intervals they asked for, in ascending order of their ids. */
  lemma {:induction false} RunMirrors(es: seq<Event>)
    ensures Sorted(Run(es).a.trips) && Mirrors(Run(es).a.trips, Live(es))
  {
    if es != [] {
      var before, e := es[..|es| - 1], es[|es| - 1];
      var w := Run(before);
      RunMirrors(before);
      match e
      case Move(_) =>
      case JoinTrip(_, _, _, _, _) => JoinMirrors(w, e, Live(before));
      case ReportTrips(accepted) =>
        SurvivorsMirror(w.a.trips, Live(before), w.odometer);
        var left := AfterReport(w.a, w.odometer);
        RestartSame(left, w.odometer, accepted);
        MirrorsSame(left.trips, RestartBatching(left, w.odometer, accepted).adapter.trips, Live(es));
      case EndTrip(id, accepted) =>
        EraseMirrors(w.a.trips, Live(before), id);
        if Has(w.a.trips, id) {
          var left := Without(w.a, id);
          RestartSame(left, w.odometer, accepted);
          MirrorsSame(left.trips, RestartBatching(left, w.odometer, accepted).adapter.trips, Live(es));
        } else {
          assert id !in Live(before);
          assert Live(es) == Live(before);
        }
    }
  }

  /** What an event asks of the modem: a first join starts the batch; another one restarts it for the
      shorter of the two distances and intervals, if either is shorter; a report or a stop that takes trips
      out asks for a restart for those left, or stops the batch if nobody is; nothing else asks anything. */
  ghost predicate Asks(w: World, live: map<int, Wish>, e: Event, calls: seq<ModemCall>) {
    var after := Onward(live, w, e);
    match e
    case Move(_) => calls == []
    case JoinTrip(_, distance, interval, _, accepted) =>
      if live == map[] then calls == [Start(distance, interval, accepted)]
      else
        var left := LeftOfBatch(w, e);
        if distance < left || interval < w.a.interval then
          calls == [Restart(if distance < left then distance else left,
                            if interval < w.a.interval then interval else w.a.interval, accepted)]
        else calls == []
    case ReportTrips(accepted) =>
      if after == live then calls == []
      else if after == map[] then calls == [Stop]
      else AsksRestart(AfterReport(w.a, w.odometer), w.odometer, accepted, calls)
    case EndTrip(id, accepted) =>
      if after == live then calls == []
      else if after == map[] then calls == [Stop]
      else AsksRestart(w.a.(trips := Erase(w.a.trips, id),
                            intervalDropped := w.a.intervalDropped || live[id].interval == w.a.interval,
                            distanceDropped := w.a.distanceDropped || live[id].distance == w.a.distance),
                       w.odometer, accepted, calls)
  }

  lemma ReportTakesOut(w: World, live: map<int, Wish>, accepted: bool)
    requires Sorted(w.a.trips) && Mirrors(w.a.trips, live)
    ensures Completed(w.a.trips, w.odometer) == [] <==> Onward(live, w, ReportTrips(accepted)) == live
  {
    var after, completed := Onward(live, w, ReportTrips(accepted)), Completed(w.a.trips, w.odometer);
    if completed != [] {
      CompletedIff(w.a.trips, w.odometer, completed[0]);
      var i :| 0 <= i < |w.a.trips| && w.a.trips[i].key == completed[0];
      assert w.a.trips[i] in w.a.trips && completed[0] in live && completed[0] !in after;
    } else {
      assert after == live;
    }
  }

  lemma ReportLeaves(w: World, live: map<int, Wish>, accepted: bool)
    requires Sorted(w.a.trips) && Mirrors(w.a.trips, live)
    ensures Survivors(w.a.trips, w.odometer) == [] <==> Onward(live, w, ReportTrips(accepted)) == map[]
  {
    SurvivorsMirror(w.a.trips, live, w.odometer);
    MirrorsEmpty(Survivors(w.a.trips, w.odometer), Onward(live, w, ReportTrips(accepted)));
  }

  lemma ReportAsks(w: World, live: map<int, Wish>, accepted: bool)
    requires Sorted(w.a.trips) && Mirrors(w.a.trips, live)
    ensures Asks(w, live, ReportTrips(accepted), OutcomeOf(w, ReportTrips(accepted)).calls)
  {
    var left := AfterReport(w.a, w.odometer);
    ReportTakesOut(w, live, accepted);
    ReportLeaves(w, live, accepted);
    if left.trips != [] {
      RestartAsks(left, w.odometer, accepted);
    }
  }

  lemma EndAsks(w: World, live: map<int, Wish>, id: int, accepted: bool)
    requires Sorted(w.a.trips) && Mirrors(w.a.trips, live)
    ensures Asks(w, live, EndTrip(id, accepted), OutcomeOf(w, EndTrip(id, accepted)).calls)
  {
    StoppedGone(w, live, id, accepted);
    if Has(w.a.trips, id) {
      var left := Without(w.a, id);
      EraseMirrors(w.a.trips, live, id);
      EraseLeaves(w.a.trips, id);
      MirrorsEmpty(left.trips, live - {id});
      if left.trips != [] {
        RestartAsks(left, w.odometer, accepted);
        var calls := RestartBatching(left, w.odometer, accepted).calls;
        assert [] + calls == calls;
      }
    } else {
      assert live - {id} == live;
    }
  }

  /** Over every run each event asks exactly that. */
  lemma RunAsks(es: seq<Event>, e: Event)
    ensures Asks(Run(es), Live(es), e, OutcomeOf(Run(es), e).calls)
  {
    RunMirrors(es);
    MirrorsEmpty(Run(es).a.trips, Live(es));
    match e
    case Move(_) =>
    case JoinTrip(_, _, _, _, _) =>
    case ReportTrips(accepted) => ReportAsks(Run(es), Live(es), accepted);
    case EndTrip(id, accepted) => EndAsks(Run(es), Live(es), id, accepted);
  }

  /** The completed trips are reported in ascending order of their ids. */
  lemma {:induction false} CompletedAscending(trips: Trips, acc: nat)
    requires Sorted(trips)
    ensures var ids := Completed(trips, acc); forall i, j :: 0 <= i < j < |ids| ==> ids[i] < ids[j]
  {
    if trips != [] {
      CompletedAscending(trips[1..], acc);
      var rest := Completed(trips[1..], acc);
      forall j | 0 <= j < |rest| ensures trips[0].key < rest[j] {
        CompletedIff(trips[1..], acc, rest[j]);
        var i :| 0 <= i < |trips[1..]| && trips[1..][i].key == rest[j] && Finished(trips[1..][i], acc);
        assert trips[i + 1].key == rest[j];
      }
    }
  }

  // ----- which ongoing values have lost their trip --------------------------------------------------

  /** A trip went, completed or stopped, while its interval was the ongoing one; this is never forgotten. */
  predicate IntervalLost(es: seq<Event>) {
    es != []
    && (var before := es[..|es| - 1];
        IntervalLost(before)
        || exists id :: id in Live(before) && id !in Live(es) && Live(before)[id].interval == Run(before).a.interval)
  }

  predicate DistanceLost(es: seq<Event>) {
    es != []
    && (var before := es[..|es| - 1];
        DistanceLost(before)
        || exists id :: id in Live(before) && id !in Live(es) && Live(before)[id].distance == Run(before).a.distance)
  }

  lemma {:induction false} FinishedHas(trips: Trips, acc: nat, interval: nat, distance: nat)
    ensures IntervalFinished(trips, acc, interval)
      <==> exists i :: 0 <= i < |trips| && Finished(trips[i], acc) && trips[i].value.interval == interval
    ensures DistanceFinished(trips, acc, distance)
      <==> exists i :: 0 <= i < |trips| && Finished(trips[i], acc) && trips[i].value.distance == distance
  {
    if trips != [] {
      FinishedHas(trips[1..], acc, interval, distance);
      if i :| 0 <= i < |trips[1..]| && Finished(trips[1..][i], acc) && trips[1..][i].value.interval == interval {
        assert trips[i + 1] == trips[1..][i];
      }
      if i :| 0 <= i < |trips[1..]| && Finished(trips[1..][i], acc) && trips[1..][i].value.distance == distance {
        assert trips[i + 1] == trips[1..][i];
      }
      if i :| 1 <= i < |trips| && Finished(trips[i], acc) && trips[i].value.interval == interval {
        assert trips[1..][i - 1] == trips[i];
      }
      if i :| 1 <= i < |trips| && Finished(trips[i], acc) && trips[i].value.distance == distance {
        assert trips[1..][i - 1] == trips[i];
      }
    }
  }

  lemma FinishedGone(w: World, live: map<int, Wish>, accepted: bool, i: nat)
    requires Sorted(w.a.trips) && Mirrors(w.a.trips, live) && i < |w.a.trips|
    ensures Finished(w.a.trips[i], w.odometer) <==> w.a.trips[i].key !in Onward(live, w, ReportTrips(accepted))
  {
    var e := w.a.trips[i];
    assert e in w.a.trips;
    CompletedIff(w.a.trips, w.odometer, e.key);
    forall k | 0 <= k < |w.a.trips| && w.a.trips[k].key == e.key ensures w.a.trips[k] == e {
      SameKey(w.a.trips, w.a.trips[k], e);
    }
  }

  lemma FinishedWith(trips: Trips, acc: nat, live: map<int, Wish>, after: map<int, Wish>, interval: nat, distance: nat)
    requires Mirrors(trips, live)
    requires forall i :: 0 <= i < |trips| ==> (Finished(trips[i], acc) <==> trips[i].key !in after)
    ensures IntervalFinished(trips, acc, interval)
      <==> exists id :: id in live && id !in after && live[id].interval == interval
    ensures DistanceFinished(trips, acc, distance)
      <==> exists id :: id in live && id !in after && live[id].distance == distance
  {
    FinishedHas(trips, acc, interval, distance);
    forall i | 0 <= i < |trips|
      ensures trips[i].key in live && live[trips[i].key] == Wish(trips[i].value.distance, trips[i].value.interval)
    {
      assert trips[i] in trips;
    }
    if id :| id in live && id !in after && live[id].interval == interval {
      var i :| 0 <= i < |trips| && trips[i].key == id;
    }
    if id :| id in live && id !in after && live[id].distance == distance {
      var i :| 0 <= i < |trips| && trips[i].key == id;
    }
  }

  /** The finished trips are those that are live before a report and not after it. */
  lemma ReportedGone(w: World, live: map<int, Wish>, accepted: bool, interval: nat, distance: nat)
    requires Sorted(w.a.trips) && Mirrors(w.a.trips, live)
    ensures var after := Onward(live, w, ReportTrips(accepted));
      IntervalFinished(w.a.trips, w.odometer, interval)
      <==> exists id :: id in live && id !in after && live[id].interval == interval
    ensures var after := Onward(live, w, ReportTrips(accepted));
      DistanceFinished(w.a.trips, w.odometer, distance)
      <==> exists id :: id in live && id !in after && live[id].distance == distance
  {
    var after := Onward(live, w, ReportTrips(accepted));
    forall i | 0 <= i < |w.a.trips| ensures Finished(w.a.trips[i], w.odometer) <==> w.a.trips[i].key !in after {
      FinishedGone(w, live, accepted, i);
    }
    FinishedWith(w.a.trips, w.odometer, live, after, interval, distance);
  }

  lemma StoppedGone(w: World, live: map<int, Wish>, id: int, accepted: bool)
    requires Sorted(w.a.trips) && Mirrors(w.a.trips, live)
    ensures Has(w.a.trips, id) <==> id in live
    ensures var after := Onward(live, w, EndTrip(id, accepted));
      forall k :: k in live && k !in after <==> k == id && id in live
    ensures id in live ==> live[id] == Wish(At(w.a.trips, id).distance, At(w.a.trips, id).interval)
  {
    HasEntry(w.a.trips, id);
    if Has(w.a.trips, id) {
      assert Entry(id, At(w.a.trips, id)) in w.a.trips;
    }
  }

  lemma RestartFlags(a: Adapter, acc: nat, accepted: bool)
    ensures var r := RestartBatching(a, acc, accepted).adapter;
      r.intervalDropped == a.intervalDropped && r.distanceDropped == a.distanceDropped
  {
  }

  lemma ReportFlags(a: Adapter, acc: nat, accepted: bool)
    ensures var r := Report(a, acc, accepted).adapter;
      r.intervalDropped == (a.intervalDropped || IntervalFinished(a.trips, acc, a.interval))
      && r.distanceDropped == (a.distanceDropped || DistanceFinished(a.trips, acc, a.distance))
  {
    RestartFlags(AfterReport(a, acc), acc, accepted);
  }

  lemma StopFlags(a: Adapter, id: int, acc: nat, accepted: bool)
    requires Has(a.trips, id)
    ensures var r := StopTrip(a, id, acc, accepted).adapter;
      r.intervalDropped == (a.intervalDropped || At(a.trips, id).interval == a.interval)
      && r.distanceDropped == (a.distanceDropped || At(a.trips, id).distance == a.distance)
  {
    RestartFlags(Without(a, id), acc, accepted);
  }

  /** Nothing but a report or a stop takes a trip out. */
  lemma NobodyGone(es: seq<Event>)
    requires es != [] && (es[|es| - 1].Move? || es[|es| - 1].JoinTrip?)
    ensures forall id :: id in Live(es[..|es| - 1]) ==> id in Live(es)
    ensures var a, before := Run(es).a, Run(es[..|es| - 1]).a;
      a.intervalDropped == before.intervalDropped && a.distanceDropped == before.distanceDropped
  {
  }

  /** Over every run the two flags say exactly that, and are never cleared. */
  lemma {:induction false} FlagsAre(es: seq<Event>)
    ensures Run(es).a.intervalDropped <==> IntervalLost(es)
    ensures Run(es).a.distanceDropped <==> DistanceLost(es)
  {
    if es != [] {
      var before, e := es[..|es| - 1], es[|es| - 1];
      var a, acc := Run(before).a, Run(before).odometer;
      FlagsAre(before);
      RunMirrors(before);
      if e.ReportTrips? {
        ReportedGone(Run(before), Live(before), e.accepted, a.interval, a.distance);
        ReportFlags(a, acc, e.accepted);
      } else if e.EndTrip? {
        StoppedGone(Run(before), Live(before), e.id, e.accepted);
        if Has(a.trips, e.id) {
          StopFlags(a, e.id, acc, e.accepted);
        }
      } else {
        NobodyGone(es);
      }
    }
  }

  // ----- a report brings the books up to date -------------------------------------------------------

  /** On exact runs every trip that a report leaves has its true distance stored. */
  lemma ReportStores(es: seq<Event>, accepted: bool, e: Entry<Trip>)
    requires AskedRun(es) && LosslessRun(es) && RangedRun(es) && e in Next(Run(es), ReportTrips(accepted)).a.trips
    ensures e.key in Run(es).truth && e.value.thisTrip == Run(es).truth[e.key]
  {
    var w := Run(es);
    RunExact(es);
    RunGood(es);
    var left := AfterReport(w.a, w.odometer);
    forall j | 0 <= j < |left.trips|
      ensures var t := left.trips[j];
        t.key in w.truth && t.value.thisTrip == w.truth[t.key] && Settle(t, w.odometer).value.thisTrip == w.truth[t.key]
    {
      var i := SurvivorFrom(w.a.trips, w.odometer, j);
      assert ExactEntry(w.a.trips[i], w.odometer, w.truth);
      TravelledBound(w.a.trips[i].value, w.odometer);
    }
    var a' := Next(w, ReportTrips(accepted)).a;
    assert a'.trips == left.trips || a'.trips == SettleAll(left.trips, w.odometer);
    var j :| 0 <= j < |a'.trips| && a'.trips[j] == e;
    assert left.trips[j].key == e.key;
  }
}
