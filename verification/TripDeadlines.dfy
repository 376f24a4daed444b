/** When the shared batch reports: its distance overshoots no live trip, and some trip needs it. */
module TripDeadlines {
  import opened OrderedMap
  import opened Trips
  import opened TripRuns

  /** The batch will have run `distance` no later than the trip needs it to. */
  predicate Due(e: Entry<Trip>, distance: nat) {
    distance + e.value.onRestart <= e.value.distance + e.value.ongoingBatch
  }

  predicate DueNow(e: Entry<Trip>, distance: nat) {
    distance + e.value.onRestart == e.value.distance + e.value.ongoingBatch
  }

  predicate Deadline(a: Adapter) {
    forall i :: 0 <= i < |a.trips| ==> Due(a.trips[i], a.distance)
  }

  /** Some live trip needs the report exactly at the batch distance. */
  predicate Tight(a: Adapter) {
    exists i :: 0 <= i < |a.trips| && DueNow(a.trips[i], a.distance)
  }

  /** The report at the batch distance will complete some trip, if any is live. */
  predicate Served(a: Adapter) { a.trips == [] || Tight(a) }

  /** The odometer has not passed the distance the modem was asked to report at. */
  predicate Within(w: World) {
    w.a.trips != [] ==> w.odometer <= w.a.distance
  }

  // ----- joining ------------------------------------------------------------------------

  /** A join that restarts the batch without knowing the odometer has to find that every trip needs
      the new batch distance even from where it last reported. */
  predicate SafeJoin(w: World, e: Event)
    requires e.JoinTrip?
  {
    !e.queried && Restarts(w, e) ==>
      forall i :: 0 <= i < |w.a.trips| ==>
        Min(e.distance, w.a.distance) + w.a.trips[i].value.thisTrip <= w.a.trips[i].value.distance
  }

  /** A join keeps the deadline if and only if it is safe; a join whose query succeeds always is. */
  lemma JoinDeadlineIff(w: World, e: Event)
    requires Good(w) && Deadline(w.a) && Within(w) && Asked(w, e) && e.JoinTrip?
    requires Restarts(w, e) ==> e.accepted
    ensures Deadline(Next(w, e).a) <==> SafeJoin(w, e)
    ensures Within(Next(w, e))
  {
    if w.a.trips == [] {
      var o := OutcomeOf(w, e);
      assert o.calls[0] in o.calls;
    } else {
      AfterJoin(w, e);
      var a := Next(w, e).a;
      if e.queried {
        QueriedJoinDeadline(w, e);
      } else if Restarts(w, e) {
        assert a.distance == Min(e.distance, w.a.distance);
        forall i | 0 <= i < |w.a.trips| ensures a.trips[i] == Rebase(w.a.trips[i]) {
        }
        if SafeJoin(w, e) {
          assert Deadline(a);
        } else {
          var i :| 0 <= i < |w.a.trips| && a.distance + w.a.trips[i].value.thisTrip > w.a.trips[i].value.distance;
          assert !Due(a.trips[i], a.distance);
        }
      }
    }
  }

  lemma QueriedJoinDeadline(w: World, e: Event)
    requires Good(w) && Deadline(w.a) && Within(w) && Asked(w, e) && e.JoinTrip? && w.a.trips != [] && e.queried
    ensures Deadline(Next(w, e).a)
  {
    AfterJoin(w, e);
    forall i | 0 <= i < |JoinedTrips(w, e)| ensures Due(Next(w, e).a.trips[i], Next(w, e).a.distance) {
      JoinedDue(w, e, i);
    }
  }

  lemma JoinedDue(w: World, e: Event, i: nat)
    requires Good(w) && Deadline(w.a) && w.odometer <= w.a.distance
    requires e.JoinTrip? && w.a.trips != [] && e.queried && i < |JoinedTrips(w, e)|
    ensures var entry := JoinedTrips(w, e)[i];
      if Restarts(w, e) then Due(Rebase(entry), Min(e.distance, LeftOfBatch(w, e))) else Due(entry, w.a.distance)
  {
    var entry := JoinedTrips(w, e)[i];
    PutMember(w.a.trips, e.id, Trip(w.odometer, 0, 0, e.distance, e.interval), entry);
    if entry.key != e.id {
      var k :| 0 <= k < |w.a.trips| && w.a.trips[k] == entry;
      assert Tracks(w.a.trips[k], w.odometer, w.truth) && Due(w.a.trips[k], w.a.distance);
    }
  }

  /** What a join has to find for some trip to need the report exactly at the batch distance: without
      a restart, such a trip, or to be one itself; with one, itself to be that short, or a trip that
      needs just the new distance from where it last reported. */
  predicate TightJoin(w: World, e: Event)
    requires e.JoinTrip?
  {
    if w.a.trips == [] then true
    else if !Restarts(w, e) then Tight(w.a) || (e.queried && e.distance + w.odometer == w.a.distance)
    else
      (e.queried && e.distance <= LeftOfBatch(w, e)) || NeedsFromReport(w.a.trips, Min(e.distance, LeftOfBatch(w, e)))
  }

  predicate NeedsFromReport(trips: Trips, distance: nat) {
    exists i :: 0 <= i < |trips| && distance + trips[i].value.thisTrip == trips[i].value.distance
  }

  lemma JoinTightIff(w: World, e: Event)
    requires Good(w) && Within(w) && Asked(w, e) && Fresh(w, e) && e.JoinTrip?
    ensures Served(Next(w, e).a) <==> TightJoin(w, e)
  {
    if w.a.trips == [] {
      var a := Next(w, e).a;
      assert a.trips != [] ==> DueNow(a.trips[0], a.distance);
    } else {
      AfterJoin(w, e);
      if TightJoin(w, e) {
        JoinTightens(w, e);
      }
      if Tight(Next(w, e).a) {
        JoinTightened(w, e);
      }
    }
  }

  lemma JoinTightens(w: World, e: Event)
    requires Good(w) && Within(w) && Fresh(w, e) && e.JoinTrip? && w.a.trips != [] && TightJoin(w, e)
    ensures Tight(Next(w, e).a)
  {
    AfterJoin(w, e);
    var a, joined := Next(w, e).a, JoinedTrips(w, e);
    var own := Entry(e.id, Trip(w.odometer, 0, 0, e.distance, e.interval));
    var i: nat;
    if e.queried
       && (if Restarts(w, e) then e.distance <= LeftOfBatch(w, e) else e.distance + w.odometer == w.a.distance) {
      i := PutIndex(w.a.trips, e.id, own.value, own);
    } else if Restarts(w, e) {
      var k :| 0 <= k < |w.a.trips| && a.distance + w.a.trips[k].value.thisTrip == w.a.trips[k].value.distance;
      i := JoinedIndex(w, e, k);
    } else {
      var k :| 0 <= k < |w.a.trips| && DueNow(w.a.trips[k], w.a.distance);
      i := JoinedIndex(w, e, k);
    }
    assert a.trips[i] == if Restarts(w, e) then Rebase(joined[i]) else joined[i];
    assert DueNow(a.trips[i], a.distance);
  }

  lemma JoinTightened(w: World, e: Event)
    requires Good(w) && Within(w) && Fresh(w, e) && e.JoinTrip? && w.a.trips != [] && Tight(Next(w, e).a)
    ensures TightJoin(w, e)
  {
    AfterJoin(w, e);
    var a, joined := Next(w, e).a, JoinedTrips(w, e);
    var i :| 0 <= i < |a.trips| && DueNow(a.trips[i], a.distance);
    assert a.trips[i] == if Restarts(w, e) then Rebase(joined[i]) else joined[i];
    JoinedEntry(w, e, i);
    if joined[i].key != e.id {
      var k :| 0 <= k < |w.a.trips| && w.a.trips[k] == joined[i];
      assert !Restarts(w, e) ==> DueNow(w.a.trips[k], w.a.distance);
      assert Restarts(w, e) ==> a.distance + w.a.trips[k].value.thisTrip == w.a.trips[k].value.distance;
    }
  }

  // ----- reporting ------------------------------------------------------------------------

  predicate Unfinished(e: Entry<Trip>) {
    e.value.thisTrip < e.value.distance < TWO_TO_32
  }

  /** The source's running minimum is the minimum, as long as nothing is at 0. */
  lemma {:induction false} MinRemainingIs(trips: Trips, current: nat)
    requires forall i :: 0 <= i < |trips| ==> Unfinished(trips[i])
    ensures var r := MinRemaining(trips, current);
      (current != 0 ==> 0 < r <= current)
      && (forall i :: 0 <= i < |trips| ==> 0 < r <= trips[i].value.distance - trips[i].value.thisTrip)
      && (r == current || exists i :: 0 <= i < |trips| && r == trips[i].value.distance - trips[i].value.thisTrip)
  {
    if trips != [] {
      assert Unfinished(trips[0]);
      var t := trips[0].value;
      var lower := Lower(current, Remaining(t));
      assert Remaining(t) == t.distance - t.thisTrip;
      MinRemainingIs(trips[1..], lower);
      var r := MinRemaining(trips[1..], lower);
      if r != lower {
        var i :| 0 <= i < |trips[1..]| && r == trips[1..][i].value.distance - trips[1..][i].value.thisTrip;
        assert trips[i + 1] == trips[1..][i];
      }
      forall i | 0 <= i < |trips| ensures r <= trips[i].value.distance - trips[i].value.thisTrip {
        assert i > 0 ==> trips[1..][i - 1] == trips[i];
      }
    }
  }

  /** A report at exactly the batch distance that completes a trip restarts the batch so that
      the deadline holds again, tightly. */
  lemma ReportAtDistance(w: World)
    requires Good(w) && Deadline(w.a) && w.odometer == w.a.distance
    requires Completed(w.a.trips, w.odometer) != []
    ensures var w' := Next(w, ReportTrips(true));
      Deadline(w'.a) && Within(w') && (w'.a.trips != [] ==> Tight(w'.a) && w'.odometer == 0 && w'.a.distance > 0)
  {
    var left := AfterReport(w.a, w.odometer);
    var r := RestartBatching(left, w.odometer, true);
    if left.trips != [] {
      forall j | 0 <= j < |left.trips|
        ensures Unfinished(left.trips[j])
          && left.trips[j].value.thisTrip == Travelled(left.trips[j].value, w.odometer)
      {
        var i := SurvivorFrom(w.a.trips, w.odometer, j);
        assert Tracks(w.a.trips[i], w.odometer, w.truth);
      }
      MinRemainingIs(left.trips, 0);
      var d := MinRemaining(left.trips, 0);
      assert Unfinished(left.trips[0]);
      assert r.calls[0] in r.calls && r.adapter.distance == d;
      var i :| 0 <= i < |left.trips| && d == left.trips[i].value.distance - left.trips[i].value.thisTrip;
      assert r.adapter.trips[i] == Settle(left.trips[i], w.odometer);
      assert DueNow(r.adapter.trips[i], d);
    }
  }

  /** A report before the batch distance completes nothing and moves nothing. */
  lemma ReportBeforeDistance(w: World, accepted: bool)
    requires Good(w) && Deadline(w.a) && Within(w)
    requires w.odometer < w.a.distance || Completed(w.a.trips, w.odometer) == []
    ensures var w' := Next(w, ReportTrips(accepted));
      Deadline(w'.a) && Within(w') && Completed(w.a.trips, w.odometer) == [] && (Tight(w.a) ==> Tight(w'.a))
  {
    forall i | 0 <= i < |w.a.trips| ensures !Finished(w.a.trips[i], w.odometer) {
      assert Tracks(w.a.trips[i], w.odometer, w.truth) && Due(w.a.trips[i], w.a.distance);
      TravelledBound(w.a.trips[i].value, w.odometer);
      CompletedIff(w.a.trips, w.odometer, w.a.trips[i].key);
    }
    if Completed(w.a.trips, w.odometer) != [] {
      CompletedIff(w.a.trips, w.odometer, Completed(w.a.trips, w.odometer)[0]);
    }
    var left := AfterReport(w.a, w.odometer);
    forall j | 0 <= j < |left.trips| ensures Due(left.trips[j], w.a.distance) {
      var i := SurvivorFrom(w.a.trips, w.odometer, j);
    }
    if left.trips != [] {
      var i := SurvivorFrom(w.a.trips, w.odometer, 0);
    }
    if Tight(w.a) {
      var i :| 0 <= i < |w.a.trips| && DueNow(w.a.trips[i], w.a.distance);
      var j := SurvivorTo(w.a.trips, w.odometer, i);
      assert DueNow(left.trips[j], w.a.distance);
    }
  }

  /** A report whose restart the modem refuses moves nothing either. */
  lemma ReportRefused(w: World)
    requires Good(w) && Deadline(w.a) && Within(w)
    ensures Deadline(Next(w, ReportTrips(false)).a) && Within(Next(w, ReportTrips(false)))
  {
    var left := AfterReport(w.a, w.odometer);
    forall j | 0 <= j < |left.trips| ensures Due(left.trips[j], w.a.distance) {
      var i := SurvivorFrom(w.a.trips, w.odometer, j);
    }
    if left.trips != [] {
      var i := SurvivorFrom(w.a.trips, w.odometer, 0);
    }
  }

  lemma ReportDeadline(w: World, accepted: bool)
    requires Good(w) && Deadline(w.a) && Within(w)
    ensures Deadline(Next(w, ReportTrips(accepted)).a) && Within(Next(w, ReportTrips(accepted)))
  {
    if Completed(w.a.trips, w.odometer) == [] || w.odometer != w.a.distance {
      if w.a.trips != [] {
        ReportBeforeDistance(w, accepted);
      }
    } else if accepted {
      ReportAtDistance(w);
    } else {
      ReportRefused(w);
    }
  }

  lemma FinishedAtDistance(w: World, i: nat)
    requires Good(w) && Deadline(w.a) && w.odometer == w.a.distance && i < |w.a.trips|
    ensures Finished(w.a.trips[i], w.odometer) <==> DueNow(w.a.trips[i], w.a.distance)
  {
    assert Tracks(w.a.trips[i], w.odometer, w.truth) && Due(w.a.trips[i], w.a.distance);
    TravelledBound(w.a.trips[i].value, w.odometer);
  }

  /** A report at the batch distance completes some trip if and only if one needs it there. */
  lemma ReportAtDistanceIff(w: World)
    requires Good(w) && Deadline(w.a) && w.odometer == w.a.distance
    ensures Completed(w.a.trips, w.odometer) != [] <==> Tight(w.a)
  {
    if Tight(w.a) {
      var i :| 0 <= i < |w.a.trips| && DueNow(w.a.trips[i], w.a.distance);
      FinishedAtDistance(w, i);
      CompletedIff(w.a.trips, w.odometer, w.a.trips[i].key);
    }
    if Completed(w.a.trips, w.odometer) != [] {
      CompletedIff(w.a.trips, w.odometer, Completed(w.a.trips, w.odometer)[0]);
      var i :| 0 <= i < |w.a.trips| && Finished(w.a.trips[i], w.odometer);
      FinishedAtDistance(w, i);
    }
  }

  /** What a report has to find: nothing to complete and such a trip, or a modem that accepts the
      restart, or nobody left to restart for. */
  predicate TightReport(w: World, accepted: bool) {
    if Completed(w.a.trips, w.odometer) == [] then Served(w.a)
    else accepted || Survivors(w.a.trips, w.odometer) == []
  }

  lemma ReportTightIff(w: World, accepted: bool)
    requires Good(w) && Deadline(w.a) && Within(w)
    ensures Served(Next(w, ReportTrips(accepted)).a) <==> TightReport(w, accepted)
  {
    if w.a.trips == [] {
    } else if Completed(w.a.trips, w.odometer) == [] {
      ReportBeforeDistance(w, accepted);
      NothingTightens(w);
    } else {
      ReportBeforeDistanceIs(w);
      if accepted {
        ReportAtDistance(w);
      } else {
        RefusedLoosens(w);
      }
    }
  }

  /** Only a report at the batch distance completes anything. */
  lemma ReportBeforeDistanceIs(w: World)
    requires Good(w) && Deadline(w.a) && Within(w) && Completed(w.a.trips, w.odometer) != []
    ensures w.odometer == w.a.distance
  {
    if w.odometer < w.a.distance {
      ReportBeforeDistance(w, true);
    }
  }

  lemma NothingTightens(w: World)
    requires Good(w) && Completed(w.a.trips, w.odometer) == [] && w.a.trips != []
    ensures Survivors(w.a.trips, w.odometer) != []
    ensures Tight(AfterReport(w.a, w.odometer)) <==> Tight(w.a)
  {
    var left := AfterReport(w.a, w.odometer);
    NothingCompleted(w.a.trips, w.odometer);
    var first := SurvivorTo(w.a.trips, w.odometer, 0);
    if Tight(w.a) {
      var i :| 0 <= i < |w.a.trips| && DueNow(w.a.trips[i], w.a.distance);
      var j := SurvivorTo(w.a.trips, w.odometer, i);
      assert DueNow(left.trips[j], w.a.distance);
    }
    if Tight(left) {
      var j :| 0 <= j < |left.trips| && DueNow(left.trips[j], w.a.distance);
      var i := SurvivorFrom(w.a.trips, w.odometer, j);
      assert DueNow(w.a.trips[i], w.a.distance);
    }
  }

  lemma NothingCompleted(trips: Trips, acc: nat)
    requires Completed(trips, acc) == []
    ensures forall i :: 0 <= i < |trips| ==> !Finished(trips[i], acc)
  {
    forall i | 0 <= i < |trips| ensures !Finished(trips[i], acc) {
      CompletedIff(trips, acc, trips[i].key);
    }
  }

  /** Refused, the trips that are left keep a batch distance that has been run, and none of them
      needed it. */
  lemma RefusedLoosens(w: World)
    requires Good(w) && Deadline(w.a) && w.odometer == w.a.distance && Completed(w.a.trips, w.odometer) != []
    ensures Next(w, ReportTrips(false)).a == AfterReport(w.a, w.odometer)
      || Survivors(w.a.trips, w.odometer) == []
    ensures Served(Next(w, ReportTrips(false)).a) <==> Survivors(w.a.trips, w.odometer) == []
  {
    var left := AfterReport(w.a, w.odometer);
    if Tight(left) {
      var j :| 0 <= j < |left.trips| && DueNow(left.trips[j], w.a.distance);
      var i := SurvivorFrom(w.a.trips, w.odometer, j);
      FinishedAtDistance(w, i);
      assert false;
    }
  }

  // ----- stopping ---------------------------------------------------------------------------

  /** The distance a trip has really still to go, by its accumulators and the odometer. */
  function StillNeeds(t: Trip, acc: nat): int { t.distance - t.onRestart - (acc - t.ongoingBatch) }

  predicate AllNeed(trips: Trips, acc: nat, distance: nat) {
    forall i :: 0 <= i < |trips| ==> distance <= StillNeeds(trips[i].value, acc)
  }

  /** What a stop has to find, by the guards of the restart it leads to: a new distance comes from
      the distances remaining at the last report, and must not be more than any trip still needs;
      a restart for the interval alone starts the whole old batch distance over again, and every
      trip must still need at least that. */
  predicate SafeStop(a: Adapter, id: int, acc: nat)
    requires Has(a.trips, id)
  {
    var left := Without(a, id);
    left.trips == []
    || if NewDistance(left, acc) then AllNeed(left.trips, acc, MinRemaining(left.trips, 0))
       else NewInterval(left) ==> AllNeed(left.trips, acc, a.distance)
  }

  /** Carried over into a new batch, a trip is due exactly if it still needs the batch distance. */
  lemma SettledDue(w: World, e: Entry<Trip>, distance: nat)
    requires w.odometer < TWO_TO_32 && Tracks(e, w.odometer, w.truth) && Due(e, w.a.distance)
    requires w.odometer <= w.a.distance
    ensures Due(Settle(e, w.odometer), distance) <==> distance <= StillNeeds(e.value, w.odometer)
  {
    TravelledBound(e.value, w.odometer);
  }

  /** A stop keeps the deadline if and only if it is safe, or the modem refuses the restart. */
  lemma EndDeadlineIff(w: World, id: int, accepted: bool)
    requires Good(w) && Deadline(w.a) && Within(w) && Has(w.a.trips, id)
    ensures Deadline(Next(w, EndTrip(id, accepted)).a) <==> !accepted || SafeStop(w.a, id, w.odometer)
    ensures Within(Next(w, EndTrip(id, accepted)))
  {
    var left := Without(w.a, id);
    var r := RestartBatching(left, w.odometer, accepted);
    var w' := Next(w, EndTrip(id, accepted));
    StopCalls(w, id, accepted);
    forall i | 0 <= i < |left.trips|
      ensures Tracks(left.trips[i], w.odometer, w.truth) && Due(left.trips[i], w.a.distance)
      ensures Due(Settle(left.trips[i], w.odometer), r.adapter.distance)
        <==> r.adapter.distance <= StillNeeds(left.trips[i].value, w.odometer)
    {
      EraseMember(w.a.trips, id, left.trips[i]);
      var k :| 0 <= k < |w.a.trips| && w.a.trips[k] == left.trips[i];
      SettledDue(w, left.trips[i], r.adapter.distance);
    }
    if left.trips != [] {
      assert w'.a == r.adapter;
      if r.calls != [] && accepted {
        assert r.calls[0] in r.calls;
        SettledDeadline(left, w.odometer, r.adapter);
      }
    }
  }

  lemma SettledDeadline(left: Adapter, acc: nat, after: Adapter)
    requires after.trips == SettleAll(left.trips, acc)
    ensures Deadline(after) <==> forall i :: 0 <= i < |left.trips| ==> Due(Settle(left.trips[i], acc), after.distance)
  {
    forall i | 0 <= i < |left.trips| ensures after.trips[i] == Settle(left.trips[i], acc) {
    }
  }

  predicate SomeNeeds(trips: Trips, acc: nat, distance: nat) {
    exists i :: 0 <= i < |trips| && distance == StillNeeds(trips[i].value, acc)
  }

  /** What a stop has to find for some trip that is left to need the report exactly at the batch
      distance, whichever that is after the restart it leads to. */
  predicate TightStop(a: Adapter, id: int, acc: nat, accepted: bool)
    requires Has(a.trips, id)
  {
    var left := Without(a, id);
    left.trips == []
    || if accepted && NewDistance(left, acc) then SomeNeeds(left.trips, acc, MinRemaining(left.trips, 0))
       else if accepted && NewInterval(left) then SomeNeeds(left.trips, acc, a.distance)
       else Tight(left)
  }

  lemma EndTightIff(w: World, id: int, accepted: bool)
    requires Good(w) && Deadline(w.a) && Within(w) && Has(w.a.trips, id)
    ensures Served(Next(w, EndTrip(id, accepted)).a) <==> TightStop(w.a, id, w.odometer, accepted)
  {
    var left := Without(w.a, id);
    var r := RestartBatching(left, w.odometer, accepted);
    if left.trips != [] {
      assert Next(w, EndTrip(id, accepted)).a == r.adapter;
      if accepted && (NewDistance(left, w.odometer) || NewInterval(left)) {
        forall i | 0 <= i < |left.trips|
          ensures DueNow(r.adapter.trips[i], r.adapter.distance)
            <==> r.adapter.distance == StillNeeds(left.trips[i].value, w.odometer)
        {
          EraseMember(w.a.trips, id, left.trips[i]);
          var k :| 0 <= k < |w.a.trips| && w.a.trips[k] == left.trips[i];
          assert Tracks(w.a.trips[k], w.odometer, w.truth) && Due(w.a.trips[k], w.a.distance);
          TravelledBound(left.trips[i].value, w.odometer);
          assert r.adapter.trips[i] == Settle(left.trips[i], w.odometer);
        }
      }
    }
  }

  // ----- the modem's side of a run -----------------------------------------------------------

  predicate Renews(calls: seq<ModemCall>) { exists c :: c in calls && !c.Stop? && c.accepted }

  /** The batch has run out: the modem has reported at its distance, trips are live, and it has not
      been started again since. */
  predicate Spent(es: seq<Event>) {
    es != []
    && (var before, e := es[..|es| - 1], es[|es| - 1];
        Run(es).a.trips != [] && !Renews(OutcomeOf(Run(before), e).calls)
        && (Spent(before) || (e.ReportTrips? && Run(before).odometer == Run(before).a.distance)))
  }

  /** The modem has refused the restart of a join, and has not been started again since: it runs
      another batch distance than the adapter believes. */
  predicate Astray(es: seq<Event>) {
    es != []
    && (var before, e := es[..|es| - 1], es[|es| - 1];
        Run(es).a.trips != [] && !Renews(OutcomeOf(Run(before), e).calls)
        && (Astray(before) || (Restarts(Run(before), e) && !e.accepted)))
  }

  /** The modem reports when the batch distance is reached, before it goes on. */
  predicate Prompt(w: World, e: Event) {
    e.Move? && w.a.trips != [] ==> w.odometer + e.metres <= w.a.distance
  }

  /** Once the batch has run out there is nothing left for the modem to report, and it just goes on; and
      with another distance it reports at that. */
  predicate PromptRun(es: seq<Event>) {
    es == []
    || (PromptRun(es[..|es| - 1])
        && (Spent(es[..|es| - 1]) || Astray(es[..|es| - 1]) || Prompt(Run(es[..|es| - 1]), es[|es| - 1])))
  }

  // ----- on time --------------------------------------------------------------------------------

  /** A report at the batch distance finds a trip to complete, and a modem that then restarts for
      those that are left, if there are any. */
  predicate SafeReport(w: World, e: Event) {
    e.ReportTrips? && w.a.trips != [] && w.odometer == w.a.distance ==>
      Tight(w.a) && (e.accepted || Survivors(w.a.trips, w.odometer) == [])
  }

  /** Joins, reports and the stops that restart the batch find what they need. */
  predicate Paced(w: World, e: Event) {
    (e.JoinTrip? ==> SafeJoin(w, e) && (Restarts(w, e) ==> e.accepted))
    && (e.EndTrip? && Has(w.a.trips, e.id) && e.accepted ==> SafeStop(w.a, e.id, w.odometer))
    && SafeReport(w, e)
  }

  predicate PacedRun(es: seq<Event>) {
    es == [] || (PacedRun(es[..|es| - 1]) && Paced(Run(es[..|es| - 1]), es[|es| - 1]))
  }

  /** No live trip is overdue, the batch has not run out while trips are live, and the modem runs the
      distance the adapter believes. */
  predicate OnTime(es: seq<Event>) { Deadline(Run(es).a) && !Spent(es) && !Astray(es) }

  lemma NextDeadline(w: World, e: Event)
    requires Good(w) && Deadline(w.a) && Within(w) && Asked(w, e) && Prompt(w, e)
    requires Restarts(w, e) ==> e.accepted
    ensures SafeReport(w, e) ==> (Deadline(Next(w, e).a) <==> Paced(w, e))
    ensures e.ReportTrips? ==> Deadline(Next(w, e).a)
    ensures Within(Next(w, e))
  {
    match e
    case Move(_) =>
    case JoinTrip(_, _, _, _, _) => JoinDeadlineIff(w, e);
    case EndTrip(id, accepted) =>
      if Has(w.a.trips, id) {
        EndDeadlineIff(w, id, accepted);
      }
    case ReportTrips(accepted) => ReportDeadline(w, accepted);
  }

  /** A report at the batch distance leaves the batch run out exactly if it was not safe. */
  lemma ReportSpendsIff(w: World, accepted: bool)
    requires Good(w) && Deadline(w.a) && w.a.trips != [] && w.odometer == w.a.distance
    ensures var e := ReportTrips(accepted);
      SafeReport(w, e) <==> Next(w, e).a.trips == [] || Renews(OutcomeOf(w, e).calls)
  {
    var o := OutcomeOf(w, ReportTrips(accepted));
    ReportAtDistanceIff(w);
    if Completed(w.a.trips, w.odometer) == [] {
      NothingTightens(w);
    } else if !accepted {
      RefusedLoosens(w);
    } else if Survivors(w.a.trips, w.odometer) != [] {
      SurvivorsRestart(w);
    }
  }

  lemma SurvivorsRestart(w: World)
    requires Good(w) && w.odometer == w.a.distance
    requires Completed(w.a.trips, w.odometer) != [] && Survivors(w.a.trips, w.odometer) != []
    ensures Renews(OutcomeOf(w, ReportTrips(true)).calls)
  {
    var left := AfterReport(w.a, w.odometer);
    forall j | 0 <= j < |left.trips| ensures Unfinished(left.trips[j]) {
      var i := SurvivorFrom(w.a.trips, w.odometer, j);
      assert Tracks(w.a.trips[i], w.odometer, w.truth);
    }
    MinRemainingIs(left.trips, 0);
    assert Unfinished(left.trips[0]);
    var calls := OutcomeOf(w, ReportTrips(true)).calls;
    assert calls[0] in calls;
  }

  /** This report leaves the batch run out; this join leaves the modem with another distance. */
  predicate Spends(w: World, e: Event) {
    e.ReportTrips? && w.odometer == w.a.distance && Next(w, e).a.trips != [] && !Renews(OutcomeOf(w, e).calls)
  }

  predicate Strays(w: World, e: Event) { Restarts(w, e) && !e.accepted }

  lemma StrayedIsLive(w: World, e: Event)
    requires Strays(w, e)
    ensures Next(w, e).a.trips != [] && !Renews(OutcomeOf(w, e).calls)
  {
    AfterJoin(w, e);
  }

  lemma OnTimeStep(w: World, e: Event)
    requires Good(w) && Deadline(w.a) && Within(w) && Asked(w, e) && Prompt(w, e) && !Strays(w, e)
    ensures Deadline(Next(w, e).a) && !Spends(w, e) <==> Paced(w, e)
    ensures Within(Next(w, e))
  {
    NextDeadline(w, e);
    if e.ReportTrips? {
      if w.a.trips != [] && w.odometer == w.a.distance {
        ReportSpendsIff(w, e.accepted);
      } else if w.a.trips == [] {
        assert Next(w, e).a.trips == [];
      }
    }
  }

  lemma NextOnTime(es: seq<Event>)
    requires es != [] && SaneRun(es) && PromptRun(es)
    requires OnTime(es[..|es| - 1]) && Within(Run(es[..|es| - 1]))
    ensures OnTime(es) <==> Paced(Run(es[..|es| - 1]), es[|es| - 1])
    ensures OnTime(es) ==> Within(Run(es))
  {
    var w, e := Run(es[..|es| - 1]), es[|es| - 1];
    RunGood(es[..|es| - 1]);
    assert Spent(es) <==> Spends(w, e);
    if Strays(w, e) {
      StrayedIsLive(w, e);
    } else {
      OnTimeStep(w, e);
    }
  }

  /** With a modem that reports in time, on every paced run no live trip is ever overdue. */
  lemma {:induction false} RunDeadline(es: seq<Event>)
    requires SaneRun(es) && PromptRun(es) && PacedRun(es)
    ensures OnTime(es) && Within(Run(es))
  {
    if es != [] {
      RunDeadline(es[..|es| - 1]);
      NextOnTime(es);
    }
  }

  predicate AlwaysOnTime(es: seq<Event>) {
    OnTime(es) && (es == [] || AlwaysOnTime(es[..|es| - 1]))
  }

  /** With a modem that reports in time, and whatever it answers, no live trip is overdue, the batch
      never runs out, and the modem runs what the adapter believes, at any moment of a run of joins,
      movements, reports and stops, exactly when every join, every stop and every report at the batch
      distance finds what it needs. */
  lemma {:induction false} RunDeadlineIff(es: seq<Event>)
    requires SaneRun(es) && PromptRun(es)
    ensures AlwaysOnTime(es) <==> PacedRun(es)
  {
    if es != [] {
      RunDeadlineIff(es[..|es| - 1]);
      if PacedRun(es[..|es| - 1]) {
        RunDeadline(es[..|es| - 1]);
        NextOnTime(es);
      }
    }
  }

  /** The books being exact, a live trip has not yet travelled further than it was asked to. */
  lemma NotOverdue(w: World)
    requires Good(w) && Exact(w) && Deadline(w.a) && Within(w)
    ensures forall i :: 0 <= i < |w.a.trips| ==>
      w.a.trips[i].key in w.truth && w.truth[w.a.trips[i].key] <= w.a.trips[i].value.distance
    ensures InRange(w)
  {
    forall i | 0 <= i < |w.a.trips|
      ensures w.a.trips[i].key in w.truth && w.truth[w.a.trips[i].key] <= w.a.trips[i].value.distance < TWO_TO_32
    {
      assert Tracks(w.a.trips[i], w.odometer, w.truth) && Due(w.a.trips[i], w.a.distance);
      assert ExactEntry(w.a.trips[i], w.odometer, w.truth);
    }
  }

  /** On paced, lossless runs the books are exact, and no true distance leaves the 32-bit range. */
  lemma {:induction false} PacedExact(es: seq<Event>)
    requires AskedRun(es) && PromptRun(es) && PacedRun(es) && LosslessRun(es)
    ensures SaneRun(es) && Exact(Run(es)) && AllCarried(Run(es).a.trips) && RangedRun(es)
  {
    if es != [] {
      var before := es[..|es| - 1];
      PacedExact(before);
      RunGood(before);
      NextExact(Run(before), es[|es| - 1]);
      NextCarried(Run(before), es[|es| - 1]);
    }
    RunGood(es);
    RunDeadline(es);
    NotOverdue(Run(es));
  }

  /** On paced, lossless runs a report completes a trip exactly when its true distance equals
      the distance asked for; it is never exceeded. */
  lemma CompletesOnTheDot(es: seq<Event>, id: int, accepted: bool)
    requires AskedRun(es) && PromptRun(es) && PacedRun(es) && LosslessRun(es) && Has(Run(es).a.trips, id)
    ensures id in Run(es).truth && Run(es).truth[id] <= At(Run(es).a.trips, id).distance
    ensures id in OutcomeOf(Run(es), ReportTrips(accepted)).completed
      <==> Run(es).truth[id] == At(Run(es).a.trips, id).distance
  {
    PacedExact(es);
    RunGood(es);
    RunDeadline(es);
    NotOverdue(Run(es));
    var e := Entry(id, At(Run(es).a.trips, id));
    var i :| 0 <= i < |Run(es).a.trips| && Run(es).a.trips[i] == e;
    CompletesIffReached(es, id, accepted);
  }

  // ----- never running out -----------------------------------------------------------------------

  /** On paced runs, stops included, the report at the batch distance completes some trip if and only
      if one needs it there. */
  lemma ReportAtDistanceCompletesIff(es: seq<Event>, accepted: bool)
    requires SaneRun(es) && PromptRun(es) && PacedRun(es) && Run(es).odometer == Run(es).a.distance
    ensures OutcomeOf(Run(es), ReportTrips(accepted)).completed != [] <==> Tight(Run(es).a)
  {
    RunGood(es);
    RunDeadline(es);
    ReportAtDistanceIff(Run(es));
  }

  /** What each event has to find for the next report at the batch distance to complete a trip. */
  predicate TightStep(w: World, e: Event) {
    match e
    case Move(_) => Served(w.a)
    case JoinTrip(_, _, _, _, _) => TightJoin(w, e)
    case ReportTrips(accepted) => TightReport(w, accepted)
    case EndTrip(id, accepted) => if Has(w.a.trips, id) then TightStop(w.a, id, w.odometer, accepted) else Served(w.a)
  }

  lemma NextServedIff(w: World, e: Event)
    requires Good(w) && Deadline(w.a) && Within(w) && Asked(w, e) && Fresh(w, e)
    ensures Served(Next(w, e).a) <==> TightStep(w, e)
  {
    match e
    case Move(_) =>
    case JoinTrip(_, _, _, _, _) => JoinTightIff(w, e);
    case ReportTrips(accepted) => ReportTightIff(w, accepted);
    case EndTrip(id, accepted) =>
      if Has(w.a.trips, id) {
        EndTightIff(w, id, accepted);
      }
  }

  predicate TightRun(es: seq<Event>) {
    es == [] || (TightRun(es[..|es| - 1]) && TightStep(Run(es[..|es| - 1]), es[|es| - 1]))
  }

  predicate AlwaysServed(es: seq<Event>) {
    Served(Run(es).a) && (es == [] || AlwaysServed(es[..|es| - 1]))
  }

  /** At every moment of a paced run the next report at the batch distance would complete a trip,
      exactly when every event of the run finds what it needs for that. */
  lemma {:induction false} RunServedIff(es: seq<Event>)
    requires SaneRun(es) && PromptRun(es) && PacedRun(es) && FreshRun(es)
    ensures AlwaysServed(es) <==> TightRun(es)
  {
    if es != [] {
      var before := es[..|es| - 1];
      RunServedIff(before);
      RunGood(before);
      RunDeadline(before);
      NextServedIff(Run(before), es[|es| - 1]);
    }
  }

  /** Nobody stops a live trip, and the modem answers queries and accepts restarts. */
  predicate Steady(w: World, e: Event) {
    (e.EndTrip? ==> !Has(w.a.trips, e.id))
    && (e.JoinTrip? && w.a.trips != [] ==> e.queried && (Restarts(w, e) ==> e.accepted))
    && (e.ReportTrips? ==> e.accepted)
  }

  predicate SteadyRun(es: seq<Event>) {
    es == [] || (SteadyRun(es[..|es| - 1]) && Steady(Run(es[..|es| - 1]), es[|es| - 1]))
  }

  lemma SteadyStep(w: World, e: Event)
    requires Good(w) && Within(w) && Served(w.a) && Lossless(w, e) && Steady(w, e)
    ensures Paced(w, e) && TightStep(w, e)
  {
    if e.JoinTrip? && Restarts(w, e) && LeftOfBatch(w, e) < e.distance {
      var k :| 0 <= k < |w.a.trips| && DueNow(w.a.trips[k], w.a.distance);
      assert Tracks(w.a.trips[k], w.odometer, w.truth);
      assert LeftOfBatch(w, e) + w.a.trips[k].value.thisTrip == w.a.trips[k].value.distance;
    }
  }

  /** So where nobody stops a trip, the modem answers, and no join loses distance, every event finds
      what it needs: the batch never runs out, and every trip is completed on the dot. */
  lemma {:induction false} SteadyRunsOnTime(es: seq<Event>)
    requires AskedRun(es) && PromptRun(es) && LosslessRun(es) && SteadyRun(es)
    ensures PacedRun(es) && Served(Run(es).a)
  {
    if es != [] {
      var before, e := es[..|es| - 1], es[|es| - 1];
      SteadyRunsOnTime(before);
      PacedExact(before);
      RunGood(before);
      RunDeadline(before);
      SteadyStep(Run(before), e);
      NextServedIff(Run(before), e);
    }
  }
}
