/** The interval of the shared batch: never above a live trip's, and exactly when the smallest. */
module TripIntervals {
  import opened OrderedMap
  import opened Trips
  import opened TripRuns
  import opened TripDeadlines

  predicate IntervalHit(trips: Trips, interval: nat) {
    exists i :: 0 <= i < |trips| && trips[i].value.interval == interval
  }

  predicate IntervalBelow(trips: Trips, interval: nat) {
    forall i :: 0 <= i < |trips| ==> interval <= trips[i].value.interval
  }

  predicate IntervalIsMin(a: Adapter) {
    IntervalBelow(a.trips, a.interval) && (a.trips != [] ==> IntervalHit(a.trips, a.interval))
  }

  /** What is left once a trip has gone still has somebody with the ongoing interval, or the adapter
      knows that nobody has and the modem accepts the restart. */
  predicate Repaired(left: Adapter, accepted: bool) {
    left.trips == [] || IntervalHit(left.trips, left.interval) || (left.intervalDropped && accepted)
  }

  /** What each event has to find for the ongoing interval to be some live trip's. */
  predicate IntervalStep(w: World, e: Event) {
    match e
    case Move(_) => IntervalIsMin(w.a)
    case JoinTrip(_, _, interval, queried, _) =>
      w.a.trips == []
      || if queried then interval <= w.a.interval || IntervalHit(w.a.trips, w.a.interval)
         else w.a.interval <= interval && IntervalHit(w.a.trips, w.a.interval)
    case ReportTrips(accepted) =>
      if Completed(w.a.trips, w.odometer) == [] then IntervalIsMin(w.a)
      else Repaired(AfterReport(w.a, w.odometer), accepted)
    case EndTrip(id, accepted) =>
      if Has(w.a.trips, id) then Repaired(Without(w.a, id), accepted) else IntervalIsMin(w.a)
  }

  lemma {:induction false} MinIntervalIs(trips: Trips, current: nat)
    requires forall i :: 0 <= i < |trips| ==> 0 < trips[i].value.interval
    ensures var r := MinInterval(trips, current);
      IntervalBelow(trips, r) && (current != 0 ==> 0 < r <= current) && (r == current || IntervalHit(trips, r))
      && (trips != [] ==> 0 < r)
  {
    if trips != [] {
      var lower := Lower(current, trips[0].value.interval);
      MinIntervalIs(trips[1..], lower);
      var r := MinInterval(trips[1..], lower);
      if IntervalHit(trips[1..], r) {
        var i :| 0 <= i < |trips[1..]| && trips[1..][i].value.interval == r;
        assert trips[i + 1].value.interval == r;
      }
      forall i | 0 <= i < |trips| ensures r <= trips[i].value.interval {
        assert i > 0 ==> trips[1..][i - 1] == trips[i];
      }
      assert trips[0].value.interval == lower || lower == current;
    }
  }

  lemma RestartKeepsIntervals(a: Adapter, acc: nat, accepted: bool)
    ensures var r := RestartBatching(a, acc, accepted).adapter;
      |r.trips| == |a.trips|
      && forall k :: 0 <= k < |r.trips| ==> r.trips[k].value.interval == a.trips[k].value.interval
  {
  }

  /** The restart decision repairs the interval exactly if its owner is known to have gone and the
      modem accepts. */
  lemma RestartIntervalIff(a: Adapter, acc: nat, accepted: bool)
    requires forall i :: 0 <= i < |a.trips| ==> 0 < a.trips[i].value.interval
    requires IntervalBelow(a.trips, a.interval)
    ensures IntervalIsMin(RestartBatching(a, acc, accepted).adapter)
      <==> a.trips == [] || IntervalHit(a.trips, a.interval) || (a.intervalDropped && accepted)
  {
    if a.trips != [] {
      MinIntervalIs(a.trips, 0);
      RestartKeepsIntervals(a, acc, accepted);
      var shortest, r := MinInterval(a.trips, 0), RestartBatching(a, acc, accepted).adapter;
      SameIntervals(a.trips, r.trips, r.interval);
      assert r.interval == a.interval || r.interval == shortest;
      assert IntervalHit(a.trips, shortest);
      assert IntervalHit(a.trips, a.interval) <==> shortest == a.interval by {
        if IntervalHit(a.trips, a.interval) {
          var h :| 0 <= h < |a.trips| && a.trips[h].value.interval == a.interval;
        }
      }
    }
  }

  lemma SameIntervals(a: Trips, b: Trips, interval: nat)
    requires |a| == |b| && forall k :: 0 <= k < |a| ==> a[k].value.interval == b[k].value.interval
    ensures IntervalBelow(a, interval) <==> IntervalBelow(b, interval)
    ensures IntervalHit(a, interval) <==> IntervalHit(b, interval)
  {
    if IntervalHit(a, interval) {
      var h :| 0 <= h < |a| && a[h].value.interval == interval;
      assert b[h].value.interval == interval;
    }
    if IntervalHit(b, interval) {
      var h :| 0 <= h < |b| && b[h].value.interval == interval;
      assert a[h].value.interval == interval;
    }
  }

  lemma {:induction false} IntervalFinishedIf(trips: Trips, acc: nat, i: nat)
    requires i < |trips| && Finished(trips[i], acc)
    ensures IntervalFinished(trips, acc, trips[i].value.interval)
  {
    if i > 0 {
      IntervalFinishedIf(trips[1..], acc, i - 1);
    }
  }

  lemma ReportedBelow(w: World)
    requires Good(w) && IntervalBelow(w.a.trips, w.a.interval)
    ensures var left := AfterReport(w.a, w.odometer);
      forall j :: 0 <= j < |left.trips| ==>
        0 < left.trips[j].value.interval && w.a.interval <= left.trips[j].value.interval
  {
    var left := AfterReport(w.a, w.odometer);
    forall j | 0 <= j < |left.trips|
      ensures 0 < left.trips[j].value.interval && w.a.interval <= left.trips[j].value.interval
    {
      var i := SurvivorFrom(w.a.trips, w.odometer, j);
      assert Tracks(w.a.trips[i], w.odometer, w.truth);
    }
  }

  lemma ReportedHit(w: World)
    requires IntervalIsMin(w.a) && w.a.trips != []
    ensures var left := AfterReport(w.a, w.odometer); IntervalHit(left.trips, left.interval) || left.intervalDropped
  {
    var left := AfterReport(w.a, w.odometer);
    var i :| 0 <= i < |w.a.trips| && w.a.trips[i].value.interval == w.a.interval;
    if Finished(w.a.trips[i], w.odometer) {
      IntervalFinishedIf(w.a.trips, w.odometer, i);
    } else {
      var j := SurvivorTo(w.a.trips, w.odometer, i);
      assert left.trips[j].value.interval == left.interval;
    }
  }

  lemma ReportIntervalIff(w: World, accepted: bool)
    requires Good(w) && IntervalBelow(w.a.trips, w.a.interval)
    ensures IntervalIsMin(Next(w, ReportTrips(accepted)).a) <==> IntervalStep(w, ReportTrips(accepted))
  {
    var left := AfterReport(w.a, w.odometer);
    ReportedBelow(w);
    if Completed(w.a.trips, w.odometer) == [] {
      NothingCompleted(w.a.trips, w.odometer);
      NothingGone(w.a.trips, w.odometer, w.a.interval);
    } else {
      RestartIntervalIff(left, w.odometer, accepted);
    }
  }

  lemma NothingGone(trips: Trips, acc: nat, interval: nat)
    requires forall i :: 0 <= i < |trips| ==> !Finished(trips[i], acc)
    ensures trips != [] ==> Survivors(trips, acc) != []
    ensures IntervalHit(Survivors(trips, acc), interval) <==> IntervalHit(trips, interval)
  {
    if trips != [] {
      var first := SurvivorTo(trips, acc, 0);
    }
    if IntervalHit(trips, interval) {
      var i :| 0 <= i < |trips| && trips[i].value.interval == interval;
      var j := SurvivorTo(trips, acc, i);
      assert Survivors(trips, acc)[j].value.interval == interval;
    }
    if IntervalHit(Survivors(trips, acc), interval) {
      var j :| 0 <= j < |Survivors(trips, acc)| && Survivors(trips, acc)[j].value.interval == interval;
      var i := SurvivorFrom(trips, acc, j);
      assert trips[i].value.interval == interval;
    }
  }

  lemma EndIntervalIff(w: World, id: int, accepted: bool)
    requires Good(w) && IntervalBelow(w.a.trips, w.a.interval) && Has(w.a.trips, id)
    ensures IntervalIsMin(Next(w, EndTrip(id, accepted)).a) <==> IntervalStep(w, EndTrip(id, accepted))
  {
    WithoutBelow(w, id);
    RestartIntervalIff(Without(w.a, id), w.odometer, accepted);
  }

  lemma WithoutBelow(w: World, id: int)
    requires Good(w) && IntervalBelow(w.a.trips, w.a.interval) && Has(w.a.trips, id)
    ensures var left := Without(w.a, id);
      forall j :: 0 <= j < |left.trips| ==>
        0 < left.trips[j].value.interval && w.a.interval <= left.trips[j].value.interval
  {
    var left := Without(w.a, id);
    forall j | 0 <= j < |left.trips|
      ensures 0 < left.trips[j].value.interval && w.a.interval <= left.trips[j].value.interval
    {
      EraseMember(w.a.trips, id, left.trips[j]);
      var i :| 0 <= i < |w.a.trips| && w.a.trips[i] == left.trips[j];
      assert Tracks(w.a.trips[i], w.odometer, w.truth);
    }
  }

  lemma WithoutHit(w: World, id: int)
    requires Good(w) && IntervalIsMin(w.a) && Has(w.a.trips, id)
    ensures var left := Without(w.a, id); IntervalHit(left.trips, left.interval) || left.intervalDropped
  {
    var left := Without(w.a, id);
    var i :| 0 <= i < |w.a.trips| && w.a.trips[i].value.interval == w.a.interval;
    if w.a.trips[i].key == id {
      SameKey(w.a.trips, w.a.trips[i], Entry(id, At(w.a.trips, id)));
    } else {
      EraseMember(w.a.trips, id, w.a.trips[i]);
      var j :| 0 <= j < |left.trips| && left.trips[j] == w.a.trips[i];
      assert left.trips[j].value.interval == left.interval;
    }
  }

  lemma JoinIntervalIff(w: World, e: Event)
    requires Good(w) && IntervalBelow(w.a.trips, w.a.interval) && e.JoinTrip? && Fresh(w, e)
    ensures IntervalIsMin(Next(w, e).a) <==> IntervalStep(w, e)
  {
    var a := Next(w, e).a;
    if w.a.trips == [] {
      assert a.trips != [] ==> a.trips[0].value.interval == a.interval;
    } else {
      AfterJoin(w, e);
      var joined := JoinedTrips(w, e);
      SameIntervals(joined, a.trips, a.interval);
      JoinedBelow(w, e);
      JoinedHitIff(w, e);
      assert joined != [];
    }
  }

  lemma JoinedBelow(w: World, e: Event)
    requires Sorted(w.a.trips) && IntervalBelow(w.a.trips, w.a.interval) && e.JoinTrip?
    ensures IntervalBelow(JoinedTrips(w, e), Min(e.interval, w.a.interval))
  {
    var joined := JoinedTrips(w, e);
    forall i | 0 <= i < |joined| ensures Min(e.interval, w.a.interval) <= joined[i].value.interval {
      if e.queried {
        PutMember(w.a.trips, e.id, Trip(w.odometer, 0, 0, e.distance, e.interval), joined[i]);
      }
    }
  }

  lemma JoinedHitIff(w: World, e: Event)
    requires Sorted(w.a.trips) && IntervalBelow(w.a.trips, w.a.interval) && e.JoinTrip? && Fresh(w, e)
    ensures IntervalHit(JoinedTrips(w, e), Min(e.interval, w.a.interval))
      <==> if e.queried then e.interval <= w.a.interval || IntervalHit(w.a.trips, w.a.interval)
           else w.a.interval <= e.interval && IntervalHit(w.a.trips, w.a.interval)
  {
    var joined, t := JoinedTrips(w, e), Min(e.interval, w.a.interval);
    if e.queried && e.interval <= w.a.interval {
      var own := Entry(e.id, Trip(w.odometer, 0, 0, e.distance, e.interval));
      var i := PutIndex(w.a.trips, e.id, own.value, own);
      assert joined[i].value.interval == t;
    } else if w.a.interval <= e.interval && IntervalHit(w.a.trips, w.a.interval) {
      var h :| 0 <= h < |w.a.trips| && w.a.trips[h].value.interval == w.a.interval;
      var i := JoinedIndex(w, e, h);
      assert joined[i].value.interval == t;
    }
    if IntervalHit(joined, t) {
      var i :| 0 <= i < |joined| && joined[i].value.interval == t;
      JoinedEntry(w, e, i);
      if joined[i].key != e.id {
        var k :| 0 <= k < |w.a.trips| && w.a.trips[k] == joined[i];
        assert w.a.trips[k].value.interval == t;
      }
    }
  }

  // ----- whole runs -------------------------------------------------------------------------

  lemma RestartBelow(a: Adapter, acc: nat, accepted: bool)
    requires forall i :: 0 <= i < |a.trips| ==> 0 < a.trips[i].value.interval
    requires IntervalBelow(a.trips, a.interval)
    ensures var r := RestartBatching(a, acc, accepted).adapter; IntervalBelow(r.trips, r.interval)
  {
    MinIntervalIs(a.trips, 0);
    RestartKeepsIntervals(a, acc, accepted);
  }

  lemma JoinBelow(w: World, e: Event)
    requires Good(w) && e.JoinTrip? && IntervalBelow(w.a.trips, w.a.interval)
    ensures IntervalBelow(Next(w, e).a.trips, Next(w, e).a.interval)
  {
    if w.a.trips != [] {
      AfterJoin(w, e);
      JoinedBelow(w, e);
      SameIntervals(JoinedTrips(w, e), Next(w, e).a.trips, Next(w, e).a.interval);
    }
  }

  /** Whatever the modem answers, the ongoing interval is at most every live trip's. */
  lemma {:induction false} RunIntervalBelow(es: seq<Event>)
    requires SaneRun(es)
    ensures IntervalBelow(Run(es).a.trips, Run(es).a.interval)
  {
    if es != [] {
      var w, e := Run(es[..|es| - 1]), es[|es| - 1];
      RunGood(es[..|es| - 1]);
      RunIntervalBelow(es[..|es| - 1]);
      match e
      case Move(_) =>
      case JoinTrip(_, _, _, _, _) => JoinBelow(w, e);
      case ReportTrips(accepted) =>
        ReportedBelow(w);
        RestartBelow(AfterReport(w.a, w.odometer), w.odometer, accepted);
      case EndTrip(id, accepted) =>
        if Has(w.a.trips, id) {
          WithoutBelow(w, id);
          RestartBelow(Without(w.a, id), w.odometer, accepted);
        }
    }
  }

  lemma NextIntervalIff(w: World, e: Event)
    requires Good(w) && IntervalBelow(w.a.trips, w.a.interval) && Fresh(w, e)
    ensures IntervalIsMin(Next(w, e).a) <==> IntervalStep(w, e)
  {
    match e
    case Move(_) =>
    case JoinTrip(_, _, _, _, _) => JoinIntervalIff(w, e);
    case ReportTrips(accepted) => ReportIntervalIff(w, accepted);
    case EndTrip(id, accepted) =>
      if Has(w.a.trips, id) {
        EndIntervalIff(w, id, accepted);
      }
  }

  predicate IntervalRun(es: seq<Event>) {
    es == [] || (IntervalRun(es[..|es| - 1]) && IntervalStep(Run(es[..|es| - 1]), es[|es| - 1]))
  }

  predicate AlwaysShortest(es: seq<Event>) {
    IntervalIsMin(Run(es).a) && (es == [] || AlwaysShortest(es[..|es| - 1]))
  }

  /** At every moment of a run the ongoing interval is exactly the smallest of the live trips', if
      and only if no failed query and no refused restart in it leaves an interval nobody has. */
  lemma {:induction false} RunIntervalIff(es: seq<Event>)
    requires SaneRun(es) && FreshRun(es)
    ensures AlwaysShortest(es) <==> IntervalRun(es)
  {
    if es != [] {
      var before := es[..|es| - 1];
      RunIntervalIff(before);
      RunGood(before);
      RunIntervalBelow(before);
      NextIntervalIff(Run(before), es[|es| - 1]);
    }
  }

  /** The modem answers the queries and accepts the restarts of reports and stops. */
  predicate Answered(w: World, e: Event) {
    match e
    case Move(_) => true
    case JoinTrip(_, _, _, queried, _) => w.a.trips != [] ==> queried
    case ReportTrips(accepted) => accepted
    case EndTrip(_, accepted) => accepted
  }

  predicate AnsweredRun(es: seq<Event>) {
    es == [] || (AnsweredRun(es[..|es| - 1]) && Answered(Run(es[..|es| - 1]), es[|es| - 1]))
  }

  /** An answered event from the smallest interval leaves the smallest interval. */
  lemma AnsweredStep(w: World, e: Event)
    requires Good(w) && IntervalIsMin(w.a) && Answered(w, e)
    ensures IntervalStep(w, e)
  {
    if e.ReportTrips? && w.a.trips != [] {
      ReportedHit(w);
    } else if e.EndTrip? && Has(w.a.trips, e.id) {
      WithoutHit(w, e.id);
    }
  }

  /** In particular, as long as the modem answers: in every run of joins, movements, reports and
      stops the ongoing interval is exactly the smallest interval of the live trips. */
  lemma {:induction false} RunInterval(es: seq<Event>)
    requires SaneRun(es) && FreshRun(es) && AnsweredRun(es)
    ensures IntervalIsMin(Run(es).a)
  {
    if es != [] {
      var before, e := es[..|es| - 1], es[|es| - 1];
      RunInterval(before);
      RunGood(before);
      AnsweredStep(Run(before), e);
      NextIntervalIff(Run(before), e);
    }
  }
}
