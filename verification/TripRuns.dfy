/** What runs of outdoor-trip batching keep, against a modem whose odometer restarts at every
    (re)start and against the true distance of every trip. */
module TripRuns {
  import opened Basics
  import opened OrderedMap
  import opened Trips

  /** `truth` is the distance really travelled since each trip joined; no code can see it. */
  datatype World = World(a: Adapter, odometer: nat, truth: map<int, nat>)

  /** `queried` is whether the query of the odometer succeeds, `accepted` the modem's answer to the
      start or restart, if there is one. */
  datatype Event =
    | Move(metres: nat)
    | JoinTrip(id: int, distance: nat, interval: nat, queried: bool, accepted: bool)
    | ReportTrips(accepted: bool)
    | EndTrip(id: int, accepted: bool)

  function Odometer(before: nat, calls: seq<ModemCall>): nat {
    if exists c :: c in calls && !c.Stop? && c.accepted then 0 else before
  }

  function OutcomeOf(w: World, e: Event): Outcome {
    match e
    case Move(_) => Outcome(w.a, [], [])
    case JoinTrip(id, distance, interval, queried, accepted) =>
      Join(w.a, id, distance, interval, if queried then Some(w.odometer) else None, accepted)
    case ReportTrips(accepted) => Report(w.a, w.odometer, accepted)
    case EndTrip(id, accepted) =>
      if Has(w.a.trips, id) then StopTrip(w.a, id, w.odometer, accepted) else Outcome(w.a, [], [])
  }

  /** A first join, or one whose query succeeded, is saved. */
  predicate Saved(w: World, e: Event)
    requires e.JoinTrip?
  {
    w.a.trips == [] || e.queried
  }

  function TruthAfter(w: World, e: Event): map<int, nat> {
    match e
    case Move(metres) => map id | id in w.truth :: w.truth[id] + metres
    case JoinTrip(id, _, _, _, _) => if Saved(w, e) then w.truth[id := 0] else w.truth
    case _ => w.truth
  }

  function Next(w: World, e: Event): World {
    var o := OutcomeOf(w, e);
    World(o.adapter, Odometer(w.odometer, o.calls) + (if e.Move? then e.metres else 0), TruthAfter(w, e))
  }

  function Run(es: seq<Event>): World {
    if es == [] then World(INITIAL, 0, map[]) else Next(Run(es[..|es| - 1]), es[|es| - 1])
  }

  /** What a joining trip takes to be left of the batch: all of it, if the query fails. */
  function LeftOfBatch(w: World, e: Event): nat
    requires e.JoinTrip?
  {
    if e.queried then Sub32(w.a.distance, w.odometer) else w.a.distance
  }

  /** The joining trip is shorter than what is left of the batch, or wants a shorter interval. */
  predicate Restarts(w: World, e: Event) {
    e.JoinTrip? && w.a.trips != []
    && (e.distance < LeftOfBatch(w, e) || e.interval < w.a.interval)
  }

  predicate WellAsked(e: Event)
    requires e.JoinTrip?
  {
    0 < e.distance < TWO_TO_32 && 0 < e.interval < TWO_TO_32
  }

  /** The modem's odometer does not wrap within one batch, and clients ask for positive 32-bit
      distances and intervals. */
  predicate Asked(w: World, e: Event) {
    match e
    case Move(metres) => w.odometer + metres < TWO_TO_32
    case JoinTrip(_, _, _, _, _) => WellAsked(e)
    case _ => true
  }

  /** Rebasing this trip takes nothing back that the odometer would then count again. */
  predicate RebasesDown(e: Entry<Trip>) { e.value.thisTrip + e.value.ongoingBatch <= e.value.onRestart }

  /** A restart that the modem refuses does no harm: the odometer holds nothing for the new trip, nor
      beyond its last restart for any other. */
  predicate Harmless(w: World, e: Event)
    requires e.JoinTrip?
  {
    (e.queried ==> w.odometer == 0) && forall i :: 0 <= i < |w.a.trips| ==> RebasesDown(w.a.trips[i])
  }

  /** The modem refuses the restart of a join only where that does no harm. */
  predicate Sane(w: World, e: Event) {
    Asked(w, e) && (Restarts(w, e) && !e.accepted ==> Harmless(w, e))
  }

  predicate AskedRun(es: seq<Event>) {
    es == [] || (AskedRun(es[..|es| - 1]) && Asked(Run(es[..|es| - 1]), es[|es| - 1]))
  }

  predicate SaneRun(es: seq<Event>) {
    es == [] || (SaneRun(es[..|es| - 1]) && Sane(Run(es[..|es| - 1]), es[|es| - 1]))
  }

  // ----- never early ----------------------------------------------------------------------

  /** What the three accumulators of a trip stand for. */
  predicate Tracks(e: Entry<Trip>, odometer: nat, truth: map<int, nat>) {
    e.key in truth
    && e.value.ongoingBatch <= odometer
    && e.value.thisTrip <= e.value.onRestart + (odometer - e.value.ongoingBatch) <= truth[e.key]
    && 0 < e.value.distance < TWO_TO_32 && 0 < e.value.interval
  }

  predicate AllTrack(trips: Trips, odometer: nat, truth: map<int, nat>) {
    forall i :: 0 <= i < |trips| ==> Tracks(trips[i], odometer, truth)
  }

  predicate Good(w: World) {
    w.odometer < TWO_TO_32 && w.a.distance < TWO_TO_32 && Sorted(w.a.trips)
    && AllTrack(w.a.trips, w.odometer, w.truth)
  }

  /** The wrapped sum of the source never exceeds the real one, and equals it below 2^32. */
  lemma TravelledBound(t: Trip, odometer: nat)
    requires t.ongoingBatch <= odometer < TWO_TO_32
    ensures Travelled(t, odometer) <= t.onRestart + (odometer - t.ongoingBatch)
    ensures t.onRestart + (odometer - t.ongoingBatch) < TWO_TO_32 ==>
      Travelled(t, odometer) == t.onRestart + (odometer - t.ongoingBatch)
  {
  }

  lemma {:induction false} SurvivorFrom(trips: Trips, acc: nat, j: nat) returns (i: nat)
    requires j < |Survivors(trips, acc)|
    ensures i < |trips| && j <= i && !Finished(trips[i], acc) && Survivors(trips, acc)[j] == Progress(trips[i], acc)
  {
    if Finished(trips[0], acc) {
      i := SurvivorFrom(trips[1..], acc, j);
      i := i + 1;
    } else if j == 0 {
      i := 0;
    } else {
      i := SurvivorFrom(trips[1..], acc, j - 1);
      i := i + 1;
    }
  }

  lemma {:induction false} SurvivorTo(trips: Trips, acc: nat, i: nat) returns (j: nat)
    requires i < |trips| && !Finished(trips[i], acc)
    ensures j < |Survivors(trips, acc)| && Survivors(trips, acc)[j] == Progress(trips[i], acc)
  {
    if i == 0 {
      j := 0;
    } else {
      j := SurvivorTo(trips[1..], acc, i - 1);
      j := if Finished(trips[0], acc) then j else j + 1;
    }
  }

  lemma {:induction false} SurvivorsSorted(trips: Trips, acc: nat)
    requires Sorted(trips)
    ensures Sorted(Survivors(trips, acc))
  {
    if trips != [] {
      SurvivorsSorted(trips[1..], acc);
      var rest := Survivors(trips[1..], acc);
      forall j | 0 <= j < |rest| ensures trips[0].key < rest[j].key {
        var i := SurvivorFrom(trips[1..], acc, j);
        assert trips[1..][i] == trips[i + 1];
      }
    }
  }

  lemma {:induction false} CompletedIff(trips: Trips, acc: nat, id: int)
    ensures id in Completed(trips, acc)
      <==> exists i :: 0 <= i < |trips| && trips[i].key == id && Finished(trips[i], acc)
  {
    if trips != [] {
      CompletedIff(trips[1..], acc, id);
      if i :| 0 <= i < |trips[1..]| && trips[1..][i].key == id && Finished(trips[1..][i], acc) {
        assert trips[i + 1].key == id && Finished(trips[i + 1], acc);
      }
      if i :| 1 <= i < |trips| && trips[i].key == id && Finished(trips[i], acc) {
        assert trips[1..][i - 1].key == id && Finished(trips[1..][i - 1], acc);
      }
    }
  }

  lemma RestartGood(a: Adapter, odometer: nat, truth: map<int, nat>, accepted: bool)
    requires Good(World(a, odometer, truth))
    ensures var r := RestartBatching(a, odometer, accepted);
      Good(World(r.adapter, Odometer(odometer, r.calls), truth))
  {
    var r := RestartBatching(a, odometer, accepted);
    if a.trips != [] && r.calls != [] && accepted {
      assert r.calls[0] in r.calls && Odometer(odometer, r.calls) == 0;
      forall i | 0 <= i < |a.trips| ensures Tracks(r.adapter.trips[i], 0, truth) {
        assert Tracks(a.trips[i], odometer, truth);
        TravelledBound(a.trips[i].value, odometer);
      }
      MinRemainingBelow(a.trips, 0);
    }
  }

  lemma {:induction false} MinRemainingBelow(trips: Trips, current: nat)
    requires current < TWO_TO_32
    ensures MinRemaining(trips, current) < TWO_TO_32
  {
    if trips != [] {
      MinRemainingBelow(trips[1..], Lower(current, Remaining(trips[0].value)));
    }
  }

  /** The new trips and distances are the same whether the modem accepts the restart or not; only its
      odometer tells. */
  lemma AfterJoin(w: World, e: Event)
    requires e.JoinTrip? && w.a.trips != []
    ensures Next(w, e).a.trips == if Restarts(w, e) then RebaseAll(JoinedTrips(w, e)) else JoinedTrips(w, e)
    ensures Next(w, e).odometer == if Restarts(w, e) && e.accepted then 0 else w.odometer
    ensures Next(w, e).truth == TruthAfter(w, e)
    ensures Next(w, e).a.distance == if Restarts(w, e) then Min(e.distance, LeftOfBatch(w, e)) else w.a.distance
    ensures Next(w, e).a.interval == Min(e.interval, w.a.interval)
  {
    var o := OutcomeOf(w, e);
    assert o.calls != [] ==> o.calls[0] in o.calls;
  }

  lemma JoinGood(w: World, e: Event)
    requires Good(w) && Sane(w, e) && e.JoinTrip?
    ensures Good(Next(w, e))
  {
    if w.a.trips == [] {
      var o := OutcomeOf(w, e);
      assert o.calls[0] in o.calls;
    } else {
      AfterJoin(w, e);
      JoinedTrack(w, e);
      var joined := JoinedTrips(w, e);
      forall i | 0 <= i < |joined| && Restarts(w, e)
        ensures Tracks(Rebase(joined[i]), Next(w, e).odometer, TruthAfter(w, e))
      {
        assert Tracks(joined[i], w.odometer, TruthAfter(w, e));
        if !e.accepted {
          HarmlessJoined(w, e, i);
        }
      }
    }
  }

  lemma HarmlessJoined(w: World, e: Event, i: nat)
    requires Sorted(w.a.trips) && e.JoinTrip? && Harmless(w, e) && i < |JoinedTrips(w, e)|
    ensures RebasesDown(JoinedTrips(w, e)[i])
  {
    var joined := JoinedTrips(w, e);
    if e.queried {
      PutMember(w.a.trips, e.id, Trip(w.odometer, 0, 0, e.distance, e.interval), joined[i]);
    }
    if joined[i] in w.a.trips {
      var k :| 0 <= k < |w.a.trips| && w.a.trips[k] == joined[i];
      assert RebasesDown(w.a.trips[k]);
    }
  }

  /** The trips a join leaves, before any restart. */
  function JoinedTrips(w: World, e: Event): Trips
    requires e.JoinTrip?
  {
    if e.queried then Put(w.a.trips, e.id, Trip(w.odometer, 0, 0, e.distance, e.interval)) else w.a.trips
  }

  lemma JoinedTrack(w: World, e: Event)
    requires Good(w) && Sane(w, e) && e.JoinTrip? && w.a.trips != []
    ensures Sorted(JoinedTrips(w, e)) && AllTrack(JoinedTrips(w, e), w.odometer, TruthAfter(w, e))
  {
    if e.queried {
      var trip, joined := Trip(w.odometer, 0, 0, e.distance, e.interval), JoinedTrips(w, e);
      PutSorted(w.a.trips, e.id, trip);
      forall i | 0 <= i < |joined| ensures Tracks(joined[i], w.odometer, TruthAfter(w, e)) {
        PutMember(w.a.trips, e.id, trip, joined[i]);
        if joined[i].key != e.id {
          var k :| 0 <= k < |w.a.trips| && w.a.trips[k] == joined[i];
          assert Tracks(w.a.trips[k], w.odometer, w.truth);
        }
      }
    }
  }

  lemma ReportGood(w: World, accepted: bool)
    requires Good(w)
    ensures Good(World(AfterReport(w.a, w.odometer), w.odometer, w.truth))
    ensures Good(Next(w, ReportTrips(accepted)))
  {
    var after := AfterReport(w.a, w.odometer);
    SurvivorsSorted(w.a.trips, w.odometer);
    forall j | 0 <= j < |after.trips| ensures Tracks(after.trips[j], w.odometer, w.truth) {
      var i := SurvivorFrom(w.a.trips, w.odometer, j);
      assert Tracks(w.a.trips[i], w.odometer, w.truth);
      TravelledBound(w.a.trips[i].value, w.odometer);
    }
    RestartGood(after, w.odometer, w.truth, accepted);
  }

  lemma EndGood(w: World, id: int, accepted: bool)
    requires Good(w)
    ensures Good(Next(w, EndTrip(id, accepted)))
  {
    if Has(w.a.trips, id) {
      var left := Without(w.a, id);
      EraseSorted(w.a.trips, id);
      forall i | 0 <= i < |left.trips| ensures Tracks(left.trips[i], w.odometer, w.truth) {
        EraseMember(w.a.trips, id, left.trips[i]);
        var k :| 0 <= k < |w.a.trips| && w.a.trips[k] == left.trips[i];
      }
      RestartGood(left, w.odometer, w.truth, accepted);
      StopCalls(w, id, accepted);
    }
  }

  /** The extra stop call of the last trip does not touch the odometer. */
  lemma StopCalls(w: World, id: int, accepted: bool)
    requires Has(w.a.trips, id)
    ensures var left := Without(w.a, id);
      Odometer(w.odometer, StopTrip(w.a, id, w.odometer, accepted).calls)
        == if left.trips == [] then w.odometer
           else Odometer(w.odometer, RestartBatching(left, w.odometer, accepted).calls)
  {
    var left := Without(w.a, id);
    var stop := if |w.a.trips| == 1 then [Stop] else [];
    var calls := RestartBatching(left, w.odometer, accepted).calls;
    assert forall c :: c in stop + calls <==> c in stop || c in calls;
  }

  lemma NextGood(w: World, e: Event)
    requires Good(w) && Sane(w, e)
    ensures Good(Next(w, e))
  {
    match e
    case Move(metres) =>
      forall i | 0 <= i < |w.a.trips| ensures Tracks(w.a.trips[i], w.odometer + metres, TruthAfter(w, e)) {
        assert Tracks(w.a.trips[i], w.odometer, w.truth);
      }
    case JoinTrip(_, _, _, _, _) => JoinGood(w, e);
    case ReportTrips(accepted) => ReportGood(w, accepted);
    case EndTrip(id, accepted) => EndGood(w, id, accepted);
  }

  /** In every run and for every live trip: what was last computed <= what the accumulators
      and the odometer give <= the true distance, and no subtraction underflows. */
  lemma {:induction false} RunGood(es: seq<Event>)
    requires SaneRun(es)
    ensures Good(Run(es))
  {
    if es != [] {
      RunGood(es[..|es| - 1]);
      NextGood(Run(es[..|es| - 1]), es[|es| - 1]);
    }
  }

  /** A trip is reported complete only after its true distance reached what was asked. */
  lemma NeverCompletesEarly(es: seq<Event>, id: int, accepted: bool)
    requires SaneRun(es) && id in OutcomeOf(Run(es), ReportTrips(accepted)).completed
    ensures Has(Run(es).a.trips, id) && id in Run(es).truth
    ensures At(Run(es).a.trips, id).distance <= Run(es).truth[id]
  {
    var w := Run(es);
    RunGood(es);
    CompletedIff(w.a.trips, w.odometer, id);
    var i :| 0 <= i < |w.a.trips| && w.a.trips[i].key == id && Finished(w.a.trips[i], w.odometer);
    assert Tracks(w.a.trips[i], w.odometer, w.truth);
    TravelledBound(w.a.trips[i].value, w.odometer);
    SameKey(w.a.trips, w.a.trips[i], Entry(id, At(w.a.trips, id)));
  }

  // ----- exact, as long as no join loses distance --------------------------------------------

  predicate ExactEntry(e: Entry<Trip>, odometer: nat, truth: map<int, nat>) {
    e.key in truth && e.value.ongoingBatch <= odometer
    && e.value.onRestart + (odometer - e.value.ongoingBatch) == truth[e.key]
  }

  predicate AllExact(trips: Trips, odometer: nat, truth: map<int, nat>) {
    forall i :: 0 <= i < |trips| ==> ExactEntry(trips[i], odometer, truth)
  }

  predicate Exact(w: World) { AllExact(w.a.trips, w.odometer, w.truth) }

  predicate InRange(w: World) {
    forall i :: 0 <= i < |w.a.trips| ==> w.a.trips[i].key in w.truth && w.truth[w.a.trips[i].key] < TWO_TO_32
  }

  /** Every live trip has been reported since the last movement. */
  predicate UpToDate(w: World) {
    forall i :: 0 <= i < |w.a.trips| ==>
      var t := w.a.trips[i].value;
      t.ongoingBatch <= w.odometer && t.thisTrip == t.onRestart + (w.odometer - t.ongoingBatch)
  }

  /** A trip's last restart is no further than its last report: so a refused restart that takes
      nothing back changes nothing. */
  predicate Carried(e: Entry<Trip>) { e.value.onRestart <= e.value.thisTrip + e.value.ongoingBatch }

  predicate AllCarried(trips: Trips) { forall i :: 0 <= i < |trips| ==> Carried(trips[i]) }

  /** The only things that get the distance wrong are a join that restarts the batch after unreported
      movement, and one whose restart is refused and not harmless. */
  predicate Lossless(w: World, e: Event) {
    Restarts(w, e) ==> if e.accepted then UpToDate(w) else Harmless(w, e)
  }

  predicate Fresh(w: World, e: Event) {
    e.JoinTrip? ==> !Has(w.a.trips, e.id)
  }

  /** A join keeps the books exact if and only if it is lossless. */
  lemma JoinExactIff(w: World, e: Event)
    requires Good(w) && Exact(w) && AllCarried(w.a.trips) && Asked(w, e) && Fresh(w, e) && e.JoinTrip?
    ensures Exact(Next(w, e)) <==> Lossless(w, e)
  {
    if w.a.trips == [] {
      var o := OutcomeOf(w, e);
      assert o.calls[0] in o.calls;
    } else {
      AfterJoin(w, e);
      var joined := JoinedTrips(w, e);
      if Lossless(w, e) {
        forall i | 0 <= i < |joined|
          ensures ExactEntry(Next(w, e).a.trips[i], Next(w, e).odometer, Next(w, e).truth)
        {
          JoinedExact(w, e, i);
        }
      } else if e.accepted {
        JoinLoses(w, e);
      } else {
        RefusedLoses(w, e);
      }
    }
  }

  /** A joined entry is the new one or one that was there. */
  lemma JoinedEntry(w: World, e: Event, i: nat)
    requires Sorted(w.a.trips) && Fresh(w, e) && e.JoinTrip? && i < |JoinedTrips(w, e)|
    ensures var entry := JoinedTrips(w, e)[i];
      (e.queried && entry == Entry(e.id, Trip(w.odometer, 0, 0, e.distance, e.interval)))
      || (entry in w.a.trips && entry.key != e.id)
  {
    var entry := JoinedTrips(w, e)[i];
    if e.queried {
      PutMember(w.a.trips, e.id, Trip(w.odometer, 0, 0, e.distance, e.interval), entry);
    } else {
      assert w.a.trips[i].key != e.id;
    }
  }

  /** Where an entry that was there is after the join. */
  lemma JoinedIndex(w: World, e: Event, k: nat) returns (i: nat)
    requires Sorted(w.a.trips) && Fresh(w, e) && e.JoinTrip? && k < |w.a.trips|
    ensures i < |JoinedTrips(w, e)| && JoinedTrips(w, e)[i] == w.a.trips[k] && w.a.trips[k].key != e.id
  {
    assert w.a.trips[k].key != e.id;
    i := k;
    if e.queried {
      i := PutIndex(w.a.trips, e.id, Trip(w.odometer, 0, 0, e.distance, e.interval), w.a.trips[k]);
    }
  }

  lemma JoinedExact(w: World, e: Event, i: nat)
    requires Sorted(w.a.trips) && Exact(w) && AllCarried(w.a.trips) && Fresh(w, e) && e.JoinTrip? && Lossless(w, e)
    requires w.a.trips != [] && i < |JoinedTrips(w, e)|
    ensures var entry := JoinedTrips(w, e)[i];
      if Restarts(w, e) then ExactEntry(Rebase(entry), if e.accepted then 0 else w.odometer, TruthAfter(w, e))
      else ExactEntry(entry, w.odometer, TruthAfter(w, e))
  {
    var entry := JoinedTrips(w, e)[i];
    JoinedEntry(w, e, i);
    if entry.key != e.id {
      var k :| 0 <= k < |w.a.trips| && w.a.trips[k] == entry;
      assert ExactEntry(w.a.trips[k], w.odometer, w.truth) && Carried(w.a.trips[k]);
      assert Restarts(w, e) && !e.accepted ==> RebasesDown(w.a.trips[k]);
    }
  }

  lemma JoinLoses(w: World, e: Event)
    requires Good(w) && Exact(w) && Fresh(w, e) && e.JoinTrip? && e.accepted && !Lossless(w, e)
    ensures !Exact(Next(w, e))
  {
    AfterJoin(w, e);
    var k :| 0 <= k < |w.a.trips| &&
      w.a.trips[k].value.thisTrip != w.a.trips[k].value.onRestart + (w.odometer - w.a.trips[k].value.ongoingBatch);
    assert ExactEntry(w.a.trips[k], w.odometer, w.truth);
    var i := JoinedIndex(w, e, k);
    assert Next(w, e).a.trips[i] == Rebase(w.a.trips[k]);
    assert !ExactEntry(Next(w, e).a.trips[i], Next(w, e).odometer, Next(w, e).truth);
  }

  /** A refused restart that is not harmless counts something twice. */
  lemma RefusedLoses(w: World, e: Event)
    requires Good(w) && Exact(w) && Fresh(w, e) && e.JoinTrip? && Restarts(w, e) && !e.accepted && !Harmless(w, e)
    ensures !Good(Next(w, e)) && !Exact(Next(w, e))
  {
    AfterJoin(w, e);
    var w' := Next(w, e);
    if e.queried && w.odometer != 0 {
      var own := Entry(e.id, Trip(w.odometer, 0, 0, e.distance, e.interval));
      var i := PutIndex(w.a.trips, e.id, own.value, own);
      assert w'.a.trips[i] == Rebase(own);
      assert !Tracks(w'.a.trips[i], w'.odometer, w'.truth) && !ExactEntry(w'.a.trips[i], w'.odometer, w'.truth);
    } else {
      var k :| 0 <= k < |w.a.trips| && !RebasesDown(w.a.trips[k]);
      assert ExactEntry(w.a.trips[k], w.odometer, w.truth);
      var i := JoinedIndex(w, e, k);
      assert w'.a.trips[i] == Rebase(w.a.trips[k]);
      assert !Tracks(w'.a.trips[i], w'.odometer, w'.truth) && !ExactEntry(w'.a.trips[i], w'.odometer, w'.truth);
    }
  }

  /** A join whose restart the modem refuses has rebased the trips while the odometer goes on. From
      exact books they still bound the true distances if and only if that is harmless, and then they
      stay exact. */
  lemma RefusedJoinIff(w: World, e: Event)
    requires Good(w) && Exact(w) && AllCarried(w.a.trips) && Fresh(w, e) && Asked(w, e)
    requires e.JoinTrip? && Restarts(w, e) && !e.accepted
    ensures Good(Next(w, e)) <==> Harmless(w, e)
    ensures Exact(Next(w, e)) <==> Harmless(w, e)
  {
    JoinExactIff(w, e);
    if Harmless(w, e) {
      JoinGood(w, e);
    } else {
      RefusedLoses(w, e);
    }
  }

  lemma RestartExact(a: Adapter, odometer: nat, truth: map<int, nat>, accepted: bool)
    requires var w := World(a, odometer, truth); Good(w) && Exact(w) && InRange(w)
    ensures var r := RestartBatching(a, odometer, accepted);
      Exact(World(r.adapter, Odometer(odometer, r.calls), truth))
  {
    var r := RestartBatching(a, odometer, accepted);
    if a.trips != [] && r.calls != [] && accepted {
      assert r.calls[0] in r.calls;
      forall i | 0 <= i < |a.trips| ensures r.adapter.trips[i].value.onRestart == truth[a.trips[i].key] {
        assert ExactEntry(a.trips[i], odometer, truth);
        TravelledBound(a.trips[i].value, odometer);
      }
    }
  }

  lemma ReportExact(w: World, accepted: bool)
    requires Good(w) && Exact(w) && InRange(w)
    ensures Exact(Next(w, ReportTrips(accepted)))
  {
    var after := AfterReport(w.a, w.odometer);
    ReportGood(w, accepted);
    forall j | 0 <= j < |after.trips|
      ensures var e := after.trips[j];
        ExactEntry(e, w.odometer, w.truth) && w.truth[e.key] < TWO_TO_32
    {
      var i := SurvivorFrom(w.a.trips, w.odometer, j);
      assert ExactEntry(w.a.trips[i], w.odometer, w.truth);
    }
    RestartExact(after, w.odometer, w.truth, accepted);
  }

  lemma EndExact(w: World, id: int, accepted: bool)
    requires Good(w) && Exact(w) && InRange(w)
    ensures Exact(Next(w, EndTrip(id, accepted)))
  {
    if Has(w.a.trips, id) {
      var left := Without(w.a, id);
      EraseSorted(w.a.trips, id);
      forall i | 0 <= i < |left.trips|
        ensures Tracks(left.trips[i], w.odometer, w.truth) && left.trips[i] in w.a.trips
        ensures ExactEntry(left.trips[i], w.odometer, w.truth)
      {
        EraseMember(w.a.trips, id, left.trips[i]);
        var k :| 0 <= k < |w.a.trips| && w.a.trips[k] == left.trips[i];
        assert ExactEntry(w.a.trips[k], w.odometer, w.truth);
      }
      RestartExact(left, w.odometer, w.truth, accepted);
      StopCalls(w, id, accepted);
    }
  }

  predicate LosslessRun(es: seq<Event>) {
    es == []
    || (LosslessRun(es[..|es| - 1])
        && Lossless(Run(es[..|es| - 1]), es[|es| - 1])
        && Fresh(Run(es[..|es| - 1]), es[|es| - 1]))
  }

  /** No live trip's true distance ever leaves the 32-bit range. */
  predicate RangedRun(es: seq<Event>) {
    InRange(Run(es)) && (es == [] || RangedRun(es[..|es| - 1]))
  }

  /** Reports and restarts bring the last report up to the last restart and beyond. */
  lemma NextCarried(w: World, e: Event)
    requires Good(w) && Exact(w) && InRange(w) && AllCarried(w.a.trips)
    ensures AllCarried(Next(w, e).a.trips)
  {
    match e
    case Move(_) =>
    case JoinTrip(_, _, _, _, _) =>
      if w.a.trips != [] {
        AfterJoin(w, e);
        JoinedCarried(w, e);
      }
    case ReportTrips(accepted) =>
      var after := AfterReport(w.a, w.odometer);
      forall j | 0 <= j < |after.trips| ensures Carried(after.trips[j]) {
        var i := SurvivorFrom(w.a.trips, w.odometer, j);
        assert ExactEntry(w.a.trips[i], w.odometer, w.truth);
        TravelledBound(w.a.trips[i].value, w.odometer);
      }
      RestartCarried(after, w.odometer, accepted);
    case EndTrip(id, accepted) =>
      if Has(w.a.trips, id) {
        var left := Without(w.a, id);
        forall i | 0 <= i < |left.trips| ensures Carried(left.trips[i]) {
          EraseMember(w.a.trips, id, left.trips[i]);
          var k :| 0 <= k < |w.a.trips| && w.a.trips[k] == left.trips[i];
        }
        RestartCarried(left, w.odometer, accepted);
      }
  }

  lemma JoinedCarried(w: World, e: Event)
    requires Sorted(w.a.trips) && AllCarried(w.a.trips) && e.JoinTrip?
    ensures AllCarried(JoinedTrips(w, e))
  {
    var joined := JoinedTrips(w, e);
    forall i | 0 <= i < |joined| ensures Carried(joined[i]) {
      if e.queried {
        PutMember(w.a.trips, e.id, Trip(w.odometer, 0, 0, e.distance, e.interval), joined[i]);
      }
      if joined[i] in w.a.trips {
        var k :| 0 <= k < |w.a.trips| && w.a.trips[k] == joined[i];
      }
    }
  }

  lemma RestartCarried(a: Adapter, acc: nat, accepted: bool)
    requires AllCarried(a.trips)
    ensures AllCarried(RestartBatching(a, acc, accepted).adapter.trips)
  {
  }

  lemma NextExact(w: World, e: Event)
    requires Good(w) && Exact(w) && InRange(w) && AllCarried(w.a.trips)
    requires Asked(w, e) && Lossless(w, e) && Fresh(w, e)
    ensures Exact(Next(w, e))
  {
    match e
    case Move(_) =>
      forall i | 0 <= i < |w.a.trips| ensures ExactEntry(w.a.trips[i], Next(w, e).odometer, Next(w, e).truth) {
        assert ExactEntry(w.a.trips[i], w.odometer, w.truth);
      }
    case JoinTrip(_, _, _, _, _) => JoinExactIff(w, e);
    case ReportTrips(accepted) => ReportExact(w, accepted);
    case EndTrip(id, accepted) => EndExact(w, id, accepted);
  }

  /** Without a lossy join the accumulators reconstruct the true distance across every restart. */
  lemma {:induction false} RunExact(es: seq<Event>)
    requires AskedRun(es) && LosslessRun(es) && RangedRun(es)
    ensures SaneRun(es) && Exact(Run(es)) && AllCarried(Run(es).a.trips)
  {
    if es != [] {
      RunExact(es[..|es| - 1]);
      RunGood(es[..|es| - 1]);
      NextExact(Run(es[..|es| - 1]), es[|es| - 1]);
      NextCarried(Run(es[..|es| - 1]), es[|es| - 1]);
    }
  }

  predicate FreshRun(es: seq<Event>) {
    es == [] || (FreshRun(es[..|es| - 1]) && Fresh(Run(es[..|es| - 1]), es[|es| - 1]))
  }

  /** The accumulators gave the true distance of every live trip at every moment of the run. */
  predicate AlwaysExact(es: seq<Event>) {
    Exact(Run(es)) && (es == [] || AlwaysExact(es[..|es| - 1]))
  }

  /** So over whole runs, whatever the modem answers, lossy joins and harmful refusals are the only
      things that ever get the distance wrong. */
  lemma {:induction false} RunExactIff(es: seq<Event>)
    requires AskedRun(es) && FreshRun(es) && RangedRun(es)
    ensures AlwaysExact(es) <==> LosslessRun(es)
  {
    if es != [] {
      var before, e := es[..|es| - 1], es[|es| - 1];
      RunExactIff(before);
      if LosslessRun(before) {
        RunExact(before);
        RunGood(before);
        if e.JoinTrip? {
          JoinExactIff(Run(before), e);
        } else {
          NextExact(Run(before), e);
        }
      }
    }
  }

  /** On such runs a report completes a live trip exactly when its true distance is reached. */
  lemma CompletesIffReached(es: seq<Event>, id: int, accepted: bool)
    requires AskedRun(es) && LosslessRun(es) && RangedRun(es) && Has(Run(es).a.trips, id)
    ensures id in Run(es).truth
    ensures id in OutcomeOf(Run(es), ReportTrips(accepted)).completed
      <==> At(Run(es).a.trips, id).distance <= Run(es).truth[id]
  {
    var w := Run(es);
    RunExact(es);
    RunGood(es);
    CompletedIff(w.a.trips, w.odometer, id);
    var e := Entry(id, At(w.a.trips, id));
    var i :| 0 <= i < |w.a.trips| && w.a.trips[i] == e;
    assert ExactEntry(w.a.trips[i], w.odometer, w.truth);
    TravelledBound(e.value, w.odometer);
    forall k | 0 <= k < |w.a.trips| && w.a.trips[k].key == id ensures w.a.trips[k] == e {
      SameKey(w.a.trips, w.a.trips[k], e);
    }
  }

  lemma RunSnoc(es: seq<Event>, e: Event)
    ensures Run(es + [e]) == Next(Run(es), e)
    ensures SaneRun(es + [e]) <==> SaneRun(es) && Sane(Run(es), e)
  {
    assert (es + [e])[..|es|] == es;
  }
}
