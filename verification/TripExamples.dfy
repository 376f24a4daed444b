/** Runs of outdoor-trip batching that lose distance, complete a trip early, leave one overdue, or
    leave the batch run out. */
module TripExamples {
  import opened OrderedMap
  import opened Trips
  import opened TripRuns
  import opened TripDeadlines
  import opened TripIntervals

  /** Asked for properly, reported in time, and finding what it needs, up to here. */
  predicate Regular(es: seq<Event>) { AskedRun(es) && SaneRun(es) && PromptRun(es) && PacedRun(es) }

  predicate Fits(w: World, e: Event) { Asked(w, e) && Sane(w, e) && Prompt(w, e) && Paced(w, e) }

  lemma RegularSnoc(es: seq<Event>, e: Event)
    ensures Run(es + [e]) == Next(Run(es), e)
    ensures Regular(es) && Fits(Run(es), e) ==> Regular(es + [e])
  {
    assert (es + [e])[..|es|] == es;
  }

  // ----- the first two joins --------------------------------------------------------------------

  function Joined(id: int, distance: nat, interval: nat): Entry<Trip> {
    Entry(id, Trip(0, 0, 0, distance, interval))
  }

  function FirstTrip(): Entry<Trip> { Joined(1, 1000, 60) }

  function First(moved: nat): seq<Event> { [] + [JoinTrip(1, 1000, 60, true, true)] + [Move(moved)] }

  function FirstWorld(moved: nat): World {
    World(Adapter([FirstTrip()], 1000, 60, false, false), moved, map[1 := moved])
  }

  lemma FirstJoin()
    ensures var w, e := World(INITIAL, 0, map[]), JoinTrip(1, 1000, 60, true, true);
      Next(w, e) == FirstWorld(0) && Fits(w, e)
  {
    assert Start(1000, 60, true) in [Start(1000, 60, true)];
  }

  lemma FirstMove(moved: nat)
    requires moved <= 1000
    ensures Next(FirstWorld(0), Move(moved)) == FirstWorld(moved) && Fits(FirstWorld(0), Move(moved))
  {
    assert TruthAfter(FirstWorld(0), Move(moved)) == map[1 := moved];
  }

  lemma FirstRun(moved: nat)
    requires moved <= 1000
    ensures Run(First(moved)) == FirstWorld(moved) && Regular(First(moved))
  {
    var join := JoinTrip(1, 1000, 60, true, true);
    FirstJoin();
    FirstMove(moved);
    RegularSnoc([], join);
    RegularSnoc([] + [join], Move(moved));
  }

  function Second(distance: nat, interval: nat, accepted: bool): Event {
    JoinTrip(2, distance, interval, true, accepted)
  }

  /** A second trip that restarts the batch; if the modem refuses, its odometer goes on. */
  lemma SecondJoin(moved: nat, distance: nat, interval: nat, accepted: bool)
    requires moved <= 1000 && (distance < 1000 - moved || interval < 60)
    ensures Next(FirstWorld(moved), Second(distance, interval, accepted))
         == World(Adapter([FirstTrip(), Joined(2, distance, interval)], Min(distance, 1000 - moved), Min(interval, 60),
                          false, false),
                  if accepted then 0 else moved, map[1 := moved, 2 := 0])
  {
    var one, two := FirstTrip(), Entry(2, Trip(moved, 0, 0, distance, interval));
    var d, t := Min(distance, 1000 - moved), Min(interval, 60);
    assert Put([one], 2, two.value) == [one] + Put([], 2, two.value) == [one, two];
    assert RebaseAll([one, two]) == [one, Joined(2, distance, interval)];
    assert Restart(d, t, accepted) in [Restart(d, t, accepted)];
  }

  /** The first trip, some movement, the second trip, and more movement. */
  function Two(moved: nat, distance: nat, interval: nat, accepted: bool, further: nat): seq<Event> {
    First(moved) + [Second(distance, interval, accepted)] + [Move(further)]
  }

  function TwoAdapter(moved: nat, distance: nat, interval: nat): Adapter
    requires moved <= 1000
  {
    Adapter([FirstTrip(), Joined(2, distance, interval)], Min(distance, 1000 - moved), Min(interval, 60), false, false)
  }

  lemma SecondIsRegular(moved: nat, distance: nat, interval: nat)
    requires moved <= 1000 && 0 < distance < TWO_TO_32 && 0 < interval < TWO_TO_32
    ensures Fits(FirstWorld(moved), Second(distance, interval, true))
  {
  }

  lemma FurtherMove(a: Adapter, odometer: nat, moved: nat, further: nat)
    ensures Next(World(a, odometer, map[1 := moved, 2 := 0]), Move(further))
         == World(a, odometer + further, map[1 := moved + further, 2 := further])
  {
    assert TruthAfter(World(a, odometer, map[1 := moved, 2 := 0]), Move(further))
      == map[1 := moved + further, 2 := further];
  }

  lemma TwoRun(moved: nat, distance: nat, interval: nat, accepted: bool, further: nat)
    requires moved <= 1000 && 0 < distance < TWO_TO_32 && 0 < interval < TWO_TO_32
    requires distance < 1000 - moved || interval < 60
    requires further <= Min(distance, 1000 - moved)
    ensures Run(Two(moved, distance, interval, accepted, further))
      == World(TwoAdapter(moved, distance, interval), (if accepted then 0 else moved) + further,
               map[1 := moved + further, 2 := further])
    ensures accepted ==> Regular(Two(moved, distance, interval, accepted, further))
  {
    var join := Second(distance, interval, accepted);
    FirstRun(moved);
    SecondJoin(moved, distance, interval, accepted);
    SecondIsRegular(moved, distance, interval);
    RegularSnoc(First(moved), join);
    RegularSnoc(First(moved) + [join], Move(further));
    FurtherMove(TwoAdapter(moved, distance, interval), if accepted then 0 else moved, moved, further);
  }

  // ----- lost and doubled distance --------------------------------------------------------------

  /** A second trip with a shorter interval restarts the batch and the first trip loses its
      300 unreported metres: at its full true distance of 1000 it is not completed. */
  lemma LossyJoinDelaysCompletion()
    ensures var es := Two(300, 5000, 30, true, 700);
      Regular(es) && Has(Run(es).a.trips, 1) && At(Run(es).a.trips, 1).distance == 1000
      && 1 in Run(es).truth && Run(es).truth[1] == 1000
      && 1 !in OutcomeOf(Run(es), ReportTrips(true)).completed
  {
    TwoRun(300, 5000, 30, true, 700);
    var trips := [FirstTrip(), Joined(2, 5000, 30)];
    assert trips[0].key == 1;
    CompletedIff(trips, 700, 1);
  }

  /** The modem refuses the restart that a second trip of 600 metres asks for: the 300 metres on the
      odometer count for that trip as well, and it completes after 300. */
  lemma RefusedJoinCompletesEarly()
    ensures var es := Two(300, 600, 30, false, 300);
      Has(Run(es).a.trips, 2) && At(Run(es).a.trips, 2).distance == 600
      && 2 in Run(es).truth && Run(es).truth[2] == 300
      && 2 in OutcomeOf(Run(es), ReportTrips(true)).completed
  {
    TwoRun(300, 600, 30, false, 300);
    var trips := [FirstTrip(), Joined(2, 600, 30)];
    assert trips[1].key == 2 && Finished(trips[1], 600);
    SameKey(trips, trips[1], Entry(2, At(trips, 2)));
    CompletedIff(trips, 600, 2);
  }

  // ----- overdue trips ----------------------------------------------------------------------------

  lemma TwoWithout(one: Entry<Trip>, two: Entry<Trip>, distance: nat, interval: nat)
    requires one.key == 1 && two.key == 2
    ensures var a := Adapter([one, two], distance, interval, false, false);
      Has(a.trips, 2) && At(a.trips, 2) == two.value && Without(a, 2).trips == [one]
  {
    var trips := [one, two];
    assert trips[1].key == 2;
    SameKey(trips, two, Entry(2, At(trips, 2)));
    assert Erase(trips, 2) == [one] + Erase([two], 2) == [one];
  }

  /** On a paced run an unsafe stop leaves some trip overdue. */
  lemma UnsafeStop(es: seq<Event>, id: int)
    ensures Regular(es) && Has(Run(es).a.trips, id) && !SafeStop(Run(es).a, id, Run(es).odometer) ==>
      !Deadline(Run(es + [EndTrip(id, true)]).a)
  {
    if Regular(es) && Has(Run(es).a.trips, id) {
      RunGood(es);
      RunDeadline(es);
      EndDeadlineIff(Run(es), id, true);
      RegularSnoc(es, EndTrip(id, true));
    }
  }

  /** The first unsafe stop: the trip that is left had its last report 400 metres ago. The restart
      takes the 1000 metres it had to go then, while it still needs 600. */
  lemma StaleStopBreaksDeadline()
    ensures var es := Two(0, 500, 60, true, 400);
      Regular(es) && Has(Run(es).a.trips, 2)
      && !SafeStop(Run(es).a, 2, Run(es).odometer) && !Deadline(Run(es + [EndTrip(2, true)]).a)
  {
    TwoRun(0, 500, 60, true, 400);
    TwoWithout(FirstTrip(), Joined(2, 500, 60), 500, 60);
    var left := Without(Run(Two(0, 500, 60, true, 400)).a, 2);
    assert MinRemaining(left.trips, 0) == MinRemaining([], 1000) == 1000;
    assert StillNeeds(left.trips[0].value, 400) == 600;
    UnsafeStop(Two(0, 500, 60, true, 400), 2);
  }

  /** The second one, with every trip reported: the restart is for the interval alone and starts
      the old batch distance of 1000 metres again, while the trip that is left needs 600. */
  lemma IntervalStopBreaksDeadline()
    ensures var es := Two(0, 2000, 30, true, 400) + [ReportTrips(true)];
      Regular(es) && UpToDate(Run(es)) && Has(Run(es).a.trips, 2)
      && !SafeStop(Run(es).a, 2, Run(es).odometer) && !Deadline(Run(es + [EndTrip(2, true)]).a)
  {
    TwoRun(0, 2000, 30, true, 400);
    RegularSnoc(Two(0, 2000, 30, true, 400), ReportTrips(true));
    TwoReported();
    UnsafeForInterval();
    UnsafeStop(Two(0, 2000, 30, true, 400) + [ReportTrips(true)], 2);
  }

  lemma UnsafeForInterval()
    ensures var one, two := Entry(1, Trip(0, 400, 0, 1000, 60)), Entry(2, Trip(0, 400, 0, 2000, 30));
      var a := Adapter([one, two], 1000, 30, false, false);
      Has(a.trips, 2) && !SafeStop(a, 2, 400)
  {
    var one, two := Entry(1, Trip(0, 400, 0, 1000, 60)), Entry(2, Trip(0, 400, 0, 2000, 30));
    TwoWithout(one, two, 1000, 30);
    var left := Without(Adapter([one, two], 1000, 30, false, false), 2);
    assert MinRemaining(left.trips, 0) == MinRemaining([], 600) == 600;
    assert MinInterval(left.trips, 0) == MinInterval([], 60) == 60;
    assert StillNeeds(left.trips[0].value, 400) == 600;
  }

  lemma TwoReported()
    ensures var joined := Adapter([FirstTrip(), Joined(2, 2000, 30)], 1000, 30, false, false);
      var reported := [Entry(1, Trip(0, 400, 0, 1000, 60)), Entry(2, Trip(0, 400, 0, 2000, 30))];
      var w := World(joined, 400, map[1 := 400, 2 := 400]);
      Next(w, ReportTrips(true)) == World(Adapter(reported, 1000, 30, false, false), 400, map[1 := 400, 2 := 400])
      && Fits(w, ReportTrips(true))
  {
    var one, two := FirstTrip(), Joined(2, 2000, 30);
    assert [one, two][1..] == [two];
    assert Survivors([one, two], 400)
      == [Progress(one, 400)] + Survivors([two], 400) == [Progress(one, 400), Progress(two, 400)];
    assert Completed([one, two], 400) == [] + Completed([two], 400) == [];
  }

  lemma OneReported()
    ensures Next(FirstWorld(400), ReportTrips(true))
         == World(Adapter([Entry(1, Trip(0, 400, 0, 1000, 60))], 1000, 60, false, false), 400, map[1 := 400])
  {
    var one := FirstTrip();
    assert Survivors([one], 400) == [Progress(one, 400)];
    assert Completed([one], 400) == [];
  }

  /** A join that could not query the odometer takes its 900 metres to be less than the 1000 of the
      batch, and starts them when the first trip needs only 600 more. */
  lemma BlindJoinBreaksDeadline()
    ensures var es, join := First(400) + [ReportTrips(true)], JoinTrip(2, 900, 60, false, true);
      Regular(es) && Asked(Run(es), join) && Prompt(Run(es), join)
      && !SafeJoin(Run(es), join) && !Deadline(Run(es + [join]).a)
  {
    var es, join := First(400) + [ReportTrips(true)], JoinTrip(2, 900, 60, false, true);
    FirstRun(400);
    RegularSnoc(First(400), ReportTrips(true));
    OneReported();
    assert Run(es).a.trips[0].value.thisTrip == 400;
    RunGood(es);
    RunDeadline(es);
    JoinDeadlineIff(Run(es), join);
    RegularSnoc(es, join);
  }

  /** A join that could not query the odometer is not saved, and leaves an interval nobody has. */
  lemma BlindJoinLeavesInterval()
    ensures var es := First(0) + [JoinTrip(2, 2000, 30, false, true)];
      SaneRun(es) && Run(es).a.trips == [FirstTrip()] && Run(es).a.interval == 30
  {
    FirstRun(0);
    RunSnoc(First(0), JoinTrip(2, 2000, 30, false, true));
    assert RebaseAll([FirstTrip()]) == [FirstTrip()];
  }

  // ----- a batch that runs out ----------------------------------------------------------------------

  /** Two trips; the first has been reported before the second joins, and is stopped after it. */
  function Dry(): seq<Event> {
    First(300) + [ReportTrips(true)] + [JoinTrip(2, 2000, 30, true, true)] + [EndTrip(1, true)] + [Move(700)]
  }

  function DryWorld(metres: nat): World {
    World(Adapter([Joined(2, 2000, 30)], 700, 30, false, false), metres, map[1 := 300 + metres, 2 := metres])
  }

  lemma DryReported()
    ensures Next(FirstWorld(300), ReportTrips(true))
         == World(Adapter([Entry(1, Trip(0, 300, 0, 1000, 60))], 1000, 60, false, false), 300, map[1 := 300])
    ensures Fits(FirstWorld(300), ReportTrips(true))
  {
    var one := FirstTrip();
    assert Survivors([one], 300) == [Progress(one, 300)];
    assert Completed([one], 300) == [];
  }

  lemma DryJoin()
    ensures var one := Entry(1, Trip(0, 300, 0, 1000, 60));
      var w := World(Adapter([one], 1000, 60, false, false), 300, map[1 := 300]);
      var both := [Entry(1, Trip(0, 300, 300, 1000, 60)), Joined(2, 2000, 30)];
      Next(w, JoinTrip(2, 2000, 30, true, true))
        == World(Adapter(both, 700, 30, false, false), 0, map[1 := 300, 2 := 0])
      && Fits(w, JoinTrip(2, 2000, 30, true, true))
  {
    var one, two := Entry(1, Trip(0, 300, 0, 1000, 60)), Entry(2, Trip(300, 0, 0, 2000, 30));
    assert Put([one], 2, two.value) == [one] + Put([], 2, two.value) == [one, two];
    assert RebaseAll([one, two]) == [Entry(1, Trip(0, 300, 300, 1000, 60)), Joined(2, 2000, 30)];
    assert Restart(700, 30, true) in [Restart(700, 30, true)];
  }

  /** The stopped trip has neither the batch distance nor its interval, and the trip that is left
      needs more: nothing restarts, and the stop is safe. */
  lemma DryStop()
    ensures var both := [Entry(1, Trip(0, 300, 300, 1000, 60)), Joined(2, 2000, 30)];
      var w := World(Adapter(both, 700, 30, false, false), 0, map[1 := 300, 2 := 0]);
      Has(w.a.trips, 1) && Next(w, EndTrip(1, true)) == DryWorld(0) && Fits(w, EndTrip(1, true))
  {
    var one, two := Entry(1, Trip(0, 300, 300, 1000, 60)), Joined(2, 2000, 30);
    var a := Adapter([one, two], 700, 30, false, false);
    assert a.trips[0].key == 1 && At(a.trips, 1) == one.value && Erase(a.trips, 1) == [two];
    var left := Without(a, 1);
    assert MinRemaining(left.trips, 0) == MinRemaining([], 2000) == 2000;
    assert MinInterval(left.trips, 0) == MinInterval([], 30) == 30;
  }

  lemma DryMove()
    ensures Next(DryWorld(0), Move(700)) == DryWorld(700) && Fits(DryWorld(0), Move(700))
  {
    assert TruthAfter(DryWorld(0), Move(700)) == map[1 := 1000, 2 := 700];
  }

  lemma DryRun()
    ensures Regular(Dry()) && Run(Dry()) == DryWorld(700)
  {
    var e1 := First(300) + [ReportTrips(true)];
    var e2 := e1 + [JoinTrip(2, 2000, 30, true, true)];
    var e3 := e2 + [EndTrip(1, true)];
    FirstRun(300);
    RegularSnoc(First(300), ReportTrips(true));
    DryReported();
    RegularSnoc(e1, JoinTrip(2, 2000, 30, true, true));
    DryJoin();
    RegularSnoc(e2, EndTrip(1, true));
    DryStop();
    RegularSnoc(e3, Move(700));
    DryMove();
  }

  lemma DryReport(metres: nat)
    requires metres < 2000
    ensures var o := OutcomeOf(DryWorld(metres), ReportTrips(true));
      o.calls == [] && o.completed == [] && o.adapter.trips == [Entry(2, Trip(0, metres, 0, 2000, 30))]
  {
    var two := Joined(2, 2000, 30);
    assert Survivors([two], metres) == [Progress(two, metres)];
    assert Completed([two], metres) == [];
  }

  /** The run with that stop: the report at the batch distance of 700 completes nothing and restarts
      nothing. The modem has nothing left to report, and the second trip travels past its 2000 metres
      unnoticed. */
  lemma StopRunsBatchDry()
    ensures Regular(Dry()) && Run(Dry()).odometer == Run(Dry()).a.distance && !Tight(Run(Dry()).a)
    ensures var es := Dry() + [ReportTrips(true)];
      PromptRun(es) && OutcomeOf(Run(Dry()), ReportTrips(true)).calls == [] && Spent(es) && !PacedRun(es)
    ensures var es := Dry() + [ReportTrips(true)] + [Move(1400)];
      PromptRun(es) && Has(Run(es).a.trips, 2) && At(Run(es).a.trips, 2).distance == 2000
      && 2 in Run(es).truth && Run(es).truth[2] == 2100
  {
    var es := Dry() + [ReportTrips(true)];
    DryRun();
    DryReport(700);
    assert es[..|es| - 1] == Dry();
    assert !DueNow(Run(Dry()).a.trips[0], 700);
    RunGood(Dry());
    RunDeadline(Dry());
    var on := es + [Move(1400)];
    assert on[..|on| - 1] == es;
    assert Run(es).truth == map[1 := 1000, 2 := 700];
    assert Run(on).a.trips[0] == Entry(2, Trip(0, 700, 0, 2000, 30)) && Run(on).a.trips[0].key == 2;
  }
}
