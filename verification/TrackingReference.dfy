/** The tracking sessions as two plain maps: which of them each command leaves, and what it asks of the
    modem, without the multiplexer's scans. */
module TrackingReference {
  import opened Basics
  import opened OrderedMap
  import opened Tracking
  import opened TrackingRuns

  type Wishes = map<int, Options>

  datatype Ref = Ref(time: Wishes, distance: Wishes)

  // ----- what decides a request -----------------------------------------------------------------

  /** The interval is shorter than every session's. */
  ghost predicate Shorter(m: Wishes, interval: nat) { forall k :: k in m ==> interval < m[k].minInterval }

  /** A session without a power mode makes those with smaller ids not count. */
  ghost predicate Counts(m: Wishes, k: int) {
    k in m && forall z :: z in m && m[z].powerMode == 0 ==> z < k
  }

  /** The power mode is lower than that of every session that counts, and some does. */
  ghost predicate LowerPower(m: Wishes, power: nat) {
    (exists k :: Counts(m, k)) && forall k :: Counts(m, k) ==> power < m[k].powerMode
  }

  ghost predicate Demands(m: Wishes, o: Options) { Shorter(m, o.minInterval) || LowerPower(m, o.powerMode) }

  /** The session with the shortest interval; of several, the one with the smallest id. */
  ghost predicate Shortest(m: Wishes, k: int) {
    k in m
    && forall j :: j in m ==>
         m[k].minInterval <= m[j].minInterval && (m[j].minInterval == m[k].minInterval ==> k <= j)
  }

  ghost predicate LeastPower(m: Wishes, power: nat) {
    if exists k :: Counts(m, k) then
      (exists k :: Counts(m, k) && m[k].powerMode == power) && forall k :: Counts(m, k) ==> power <= m[k].powerMode
    else power == 0
  }

  /** The least power mode there is, unless the session with the smallest id, `f`, has none. */
  ghost predicate PowerFrom(m: Wishes, f: int, power: nat) {
    f in m && (forall k :: k in m ==> f <= k)
    && if m[f].powerMode == 0 then power == 0
       else power != 0 && (exists k :: k in m && m[k].powerMode == power)
            && forall k :: k in m && m[k].powerMode != 0 ==> power <= m[k].powerMode
  }

  ghost predicate FirstPower(m: Wishes, power: nat) { exists f :: PowerFrom(m, f, power) }

  // ----- what is asked of the modem ----------------------------------------------------------------

  /** A session that joins these: alone it gets what it wants; otherwise it asks for the shortest
      interval and its power mode, or that of the shortest session, if it demands more than they do. */
  ghost predicate AsksFor(others: Wishes, o: Options, request: Option<Request>) {
    if others == map[] then request == Some(StartFix(o.minInterval, o.powerMode))
    else if Demands(others, o) then
      exists k :: Shortest(others, k)
        && request == Some(StartFix(if Shorter(others, o.minInterval) then o.minInterval else others[k].minInterval,
                                    if LowerPower(others, o.powerMode) then o.powerMode else others[k].powerMode))
    else request == None
  }

  /** A session that leaves these. */
  ghost predicate AsksWithout(others: Wishes, o: Options, request: Option<Request>) {
    if others == map[] then request == Some(StopFix)
    else if Demands(others, o) then
      exists k, power :: Shortest(others, k) && LeastPower(others, power)
        && request == Some(StartFix(others[k].minInterval, power))
    else request == None
  }

  ghost predicate AsksAgain(m: Wishes, request: Option<Request>) {
    if m == map[] then request == None
    else exists k, power :: Shortest(m, k) && FirstPower(m, power)
           && request == Some(StartFix(m[k].minInterval, power))
  }

  // ----- the commands --------------------------------------------------------------------------------

  /** Never faster than every 100 ms. */
  function Floored(o: Options): Options { o.(minInterval := if o.minInterval < 100 then 100 else o.minInterval) }

  /** Power mode M4 with more than 480 seconds between measurements is served as M2. */
  function Weaker(o: Options): Options {
    o.(powerMode := if o.powerMode == 4 && o.tbm > 480000 then 2 else o.powerMode)
  }

  ghost predicate Differ(a: Options, b: Options) { a.minInterval != b.minInterval || a.powerMode != b.powerMode }

  /** A session joins the time-based ones, unless it demands something and the modem refuses. */
  ghost predicate Joins(others: Wishes, o: Options, accepted: bool) {
    (others != map[] && !Demands(others, o)) || accepted
  }

  /** A session leaves the time-based ones, and the modem refuses what is then asked for the others. */
  ghost predicate LeavesRefused(m: Wishes, key: int, accepted: bool)
    requires key in m
  {
    m - {key} != map[] && Demands(m - {key}, m[key]) && !accepted
  }

  ghost function RefUpdate(supported: bool, r: Ref, key: int, o: Options, accepted: bool, distanceAccepted: bool): Ref {
    if key in r.time && o.minDistance == 0 then
      var stays := Differ(r.time[key], o) && !Joins(r.time - {key}, o, accepted);
      if stays then r else r.(time := r.time[key := o])
    else if key in r.time then
      var others := r.time - {key};
      if LeavesRefused(r.time, key, accepted) then Ref(others, r.distance)
      else if supported then Ref(others, r.distance[key := o])
      else Ref(r.time[key := o], r.distance)
    else if key in r.distance && o.minDistance == 0 then
      Ref(if Joins(r.time, o, accepted) then r.time[key := o] else r.time, r.distance - {key})
    else if key in r.distance && distanceAccepted then r.(distance := r.distance[key := o])
    else r
  }

  ghost function RefNext(supported: bool, r: Ref, c: Command): Ref {
    match c
    case StartTracking(key, options, welcome, accepted, distanceAccepted) =>
      if !welcome then r
      else if options.minDistance > 0 && supported then
        if distanceAccepted then r.(distance := r.distance[key := Floored(options)]) else r
      else
        var o := Weaker(Floored(options));
        if Joins(r.time, o, accepted) then r.(time := r.time[key := o]) else r
    case UpdateTracking(key, options, welcome, accepted, distanceAccepted) =>
      if welcome then RefUpdate(supported, r, key, Floored(Weaker(options)), accepted, distanceAccepted) else r
    case StopTracking(key, _, distanceAccepted) =>
      if key in r.time then r.(time := r.time - {key})
      else if distanceAccepted then r.(distance := r.distance - {key})
      else r
    case EngineRestart => r
  }

  /** What a command asks of the modem's fix stream. */
  ghost predicate RefAsks(supported: bool, r: Ref, c: Command, request: Option<Request>) {
    match c
    case StartTracking(_, options, welcome, _, _) =>
      if welcome && (options.minDistance == 0 || !supported)
      then AsksFor(r.time, Weaker(Floored(options)), request)
      else request == None
    case UpdateTracking(key, options, welcome, _, _) =>
      var o := Floored(Weaker(options));
      if !welcome then request == None
      else if key in r.time && o.minDistance > 0 then AsksWithout(r.time - {key}, r.time[key], request)
      else if key in r.time then
        if Differ(r.time[key], o) then AsksFor(r.time - {key}, o, request) else request == None
      else if key in r.distance && o.minDistance == 0 then AsksFor(r.time, o, request)
      else request == None
    case StopTracking(key, _, _) =>
      if key in r.time then AsksWithout(r.time - {key}, r.time[key], request) else request == None
    case EngineRestart => AsksAgain(r.time, request)
  }

  /** The fix stream follows every accepted request; a modem restart ends it first, and its request is
      always accepted. */
  ghost function RefRunning(running: Option<nat>, c: Command, request: Option<Request>): Option<nat> {
    var before := if c.EngineRestart? then None else running;
    if request == None || (!c.EngineRestart? && !c.accepted) then before
    else match request.value case StartFix(interval, _) => Some(interval) case StopFix => None
  }

  ghost function RefRun(supported: bool, cs: seq<Command>): Ref {
    if cs == [] then Ref(map[], map[]) else RefNext(supported, RefRun(supported, cs[..|cs| - 1]), cs[|cs| - 1])
  }

  // ----- the session maps as plain maps -----------------------------------------------------------

  ghost function MapOf(s: Sessions): Wishes {
    if s == [] then map[] else MapOf(s[..|s| - 1])[s[|s| - 1].key := s[|s| - 1].value]
  }

  lemma {:induction false} MapOfMember(s: Sessions, e: Entry<Options>)
    requires Sorted(s)
    ensures e in s <==> e.key in MapOf(s) && MapOf(s)[e.key] == e.value
  {
    if s != [] {
      var front, last := s[..|s| - 1], s[|s| - 1];
      MapOfMember(front, e);
      assert e in s <==> e in front || e == last by { assert s == front + [last]; }
      assert e in front ==> e.key < last.key;
    }
  }

  lemma MapOfIs(s: Sessions, m: Wishes)
    requires Sorted(s)
    requires forall e :: e in s <==> e.key in m && m[e.key] == e.value
    ensures MapOf(s) == m
  {
    forall k ensures k in MapOf(s) <==> k in m {
      if k in MapOf(s) { MapOfMember(s, Entry(k, MapOf(s)[k])); }
      if k in m {
        assert Entry(k, m[k]) in s;
        MapOfMember(s, Entry(k, m[k]));
      }
    }
    forall k | k in m ensures MapOf(s)[k] == m[k] {
      assert Entry(k, m[k]) in s;
      MapOfMember(s, Entry(k, m[k]));
    }
  }

  lemma MapOfHas(s: Sessions, key: int)
    requires Sorted(s)
    ensures Has(s, key) <==> key in MapOf(s)
    ensures Has(s, key) ==> At(s, key) == MapOf(s)[key]
  {
    if Has(s, key) {
      MapOfMember(s, Entry(key, At(s, key)));
    }
    if key in MapOf(s) {
      MapOfMember(s, Entry(key, MapOf(s)[key]));
      var i :| 0 <= i < |s| && s[i] == Entry(key, MapOf(s)[key]);
    }
  }

  lemma MapOfPut(s: Sessions, key: int, o: Options)
    requires Sorted(s)
    ensures Sorted(Put(s, key, o)) && MapOf(Put(s, key, o)) == MapOf(s)[key := o]
  {
    PutSorted(s, key, o);
    forall e ensures e in Put(s, key, o) <==> e.key in MapOf(s)[key := o] && MapOf(s)[key := o][e.key] == e.value {
      PutMember(s, key, o, e);
      MapOfMember(s, e);
    }
    MapOfIs(Put(s, key, o), MapOf(s)[key := o]);
  }

  lemma MapOfErase(s: Sessions, key: int)
    requires Sorted(s)
    ensures Sorted(Erase(s, key)) && MapOf(Erase(s, key)) == MapOf(s) - {key}
  {
    EraseSorted(s, key);
    forall e ensures e in Erase(s, key) <==> e.key in MapOf(s) - {key} && MapOf(s)[e.key] == e.value {
      EraseMember(s, key, e);
      MapOfMember(s, e);
    }
    MapOfIs(Erase(s, key), MapOf(s) - {key});
  }

  lemma MapOfEmpty(s: Sessions)
    ensures MapOf(s) == map[] <==> s == []
  {
    if s != [] {
      assert s[|s| - 1].key in MapOf(s);
    }
  }

  // ----- the scans -----------------------------------------------------------------------------------

  lemma {:induction false} ScanSkips(s: Sessions, key: int, b: Best)
    requires Sorted(s)
    ensures Scan(s, Some(key), b) == Scan(Erase(s, key), None, b)
  {
    if s != [] {
      if s[0].key == key {
        ScanRest(s[1..], key, b);
      } else {
        ScanSkips(s[1..], key, Better(b, s[0].value));
        assert Erase(s, key)[1..] == Erase(s[1..], key);
      }
    }
  }

  lemma {:induction false} ScanRest(s: Sessions, key: int, b: Best)
    requires forall i :: 0 <= i < |s| ==> s[i].key != key
    ensures Scan(s, Some(key), b) == Scan(s, None, b)
  {
    if s != [] {
      ScanRest(s[1..], key, Better(b, s[0].value));
    }
  }

  lemma {:induction false} ScanSnoc(s: Sessions, b: Best)
    requires s != []
    ensures Scan(s, None, b) == Better(Scan(s[..|s| - 1], None, b), s[|s| - 1].value)
  {
    if |s| > 1 {
      ScanSnoc(s[1..], Better(b, s[0].value));
      assert s[1..][..|s| - 2] == s[..|s| - 1][1..];
    } else {
      assert s[1..] == [];
    }
  }

  /** The scan finds the shortest session and the least power mode that counts. */
  lemma {:induction false} ScanIs(s: Sessions)
    requires Sorted(s)
    ensures var m, b := MapOf(s), Scan(s, None, NOTHING);
      LeastPower(m, b.powerMode) && (b.found <==> s != [])
      && (s != [] ==> exists k :: Shortest(m, k) && b.options == m[k])
  {
    if s != [] {
      var front, last := s[..|s| - 1], s[|s| - 1];
      var m, b := MapOf(front), Scan(front, None, NOTHING);
      ScanIs(front);
      ScanSnoc(s, NOTHING);
      KeysBelow(s, m);
      PowerGrows(m, b.powerMode, last.key, last.value);
      if front == [] {
        assert Shortest(MapOf(s), last.key);
      } else {
        var k :| Shortest(m, k) && b.options == m[k];
        assert Shortest(MapOf(s), if last.value.minInterval < m[k].minInterval then last.key else k);
      }
    }
  }

  lemma KeysBelow(s: Sessions, m: Wishes)
    requires Sorted(s) && s != [] && m == MapOf(s[..|s| - 1])
    ensures forall k :: k in m ==> k < s[|s| - 1].key
  {
    var front := s[..|s| - 1];
    forall k | k in m ensures k < s[|s| - 1].key {
      MapOfMember(front, Entry(k, m[k]));
      var i :| 0 <= i < |front| && front[i] == Entry(k, m[k]);
      assert s[i] == front[i];
    }
  }

  lemma CountsGrow(m: Wishes, key: int, o: Options, k: int)
    requires forall j :: j in m ==> j < key
    ensures Counts(m[key := o], k) <==> o.powerMode != 0 && (Counts(m, k) || k == key)
  {
    var m' := m[key := o];
    if o.powerMode == 0 {
      assert key in m' && m'[key].powerMode == 0;
    } else {
      assert forall z :: z in m' && m'[z].powerMode == 0 <==> z in m && m[z].powerMode == 0;
    }
  }

  lemma PowerGrows(m: Wishes, power: nat, key: int, o: Options)
    requires LeastPower(m, power) && forall k :: k in m ==> k < key
    ensures LeastPower(m[key := o], if power == 0 || o.powerMode < power then o.powerMode else power)
  {
    var m' := m[key := o];
    if o.powerMode == 0 {
      forall k ensures !Counts(m', k) {
        CountsGrow(m, key, o, k);
      }
    } else {
      var least := if power == 0 || o.powerMode < power then o.powerMode else power;
      forall k | Counts(m', k) ensures least <= m'[k].powerMode {
        CountsGrow(m, key, o, k);
      }
      CountsGrow(m, key, o, key);
      if least != o.powerMode {
        var k :| Counts(m, k) && m[k].powerMode == power;
        CountsGrow(m, key, o, k);
        assert Counts(m', k) && m'[k].powerMode == least;
      } else {
        assert Counts(m', key) && m'[key].powerMode == least;
      }
    }
  }

  lemma {:induction false} HighestSnoc(s: Sessions, found: bool, power: nat)
    requires s != []
    ensures var before, p := HighestPower(s[..|s| - 1], found, power), s[|s| - 1].value.powerMode;
      HighestPower(s, found, power) == if (!found && |s| == 1) || (p != 0 && p < before) then p else before
  {
    if |s| > 1 {
      var p := s[0].value.powerMode;
      HighestSnoc(s[1..], true, if !found || (p != 0 && p < power) then p else power);
      assert s[1..][..|s| - 2] == s[..|s| - 1][1..];
    } else {
      assert s[1..] == [];
    }
  }

  lemma {:induction false} HighestIs(s: Sessions)
    requires Sorted(s) && s != []
    ensures FirstPower(MapOf(s), HighestPower(s, false, 0))
  {
    var front, last := s[..|s| - 1], s[|s| - 1];
    HighestSnoc(s, false, 0);
    if front == [] {
      assert last.key in MapOf(s);
      assert PowerFrom(MapOf(s), last.key, last.value.powerMode);
    } else {
      HighestIs(front);
      var m, power := MapOf(front), HighestPower(front, false, 0);
      KeysBelow(s, m);
      var f :| PowerFrom(m, f, power);
      HighestGrows(m, f, power, last.key, last.value);
    }
  }

  lemma HighestGrows(m: Wishes, f: int, power: nat, key: int, o: Options)
    requires PowerFrom(m, f, power) && forall k :: k in m ==> k < key
    ensures PowerFrom(m[key := o], f, if o.powerMode != 0 && o.powerMode < power then o.powerMode else power)
  {
    if m[f].powerMode != 0 {
      var k :| k in m && m[k].powerMode == power;
      assert k in m[key := o] && key in m[key := o];
    }
  }

  /** Both thresholds of a scan, as seen by one more session. */
  lemma ScanDecides(s: Sessions, o: Options)
    requires Sorted(s) && s != []
    ensures var m, b := MapOf(s), Scan(s, None, NOTHING);
      (o.minInterval < b.options.minInterval <==> Shorter(m, o.minInterval))
      && (o.powerMode < b.powerMode <==> LowerPower(m, o.powerMode))
  {
    var m, b := MapOf(s), Scan(s, None, NOTHING);
    ScanIs(s);
    var k :| Shortest(m, k) && b.options == m[k];
    if exists k :: Counts(m, k) {
      var k' :| Counts(m, k') && m[k'].powerMode == b.powerMode;
    }
  }

  lemma MergeAsks(s: Sessions, o: Options)
    requires Sorted(s) && s != []
    ensures AsksFor(MapOf(s), o, Merge(Scan(s, None, NOTHING), o))
    ensures Merge(Scan(s, None, NOTHING), o).Some? <==> Demands(MapOf(s), o)
  {
    MapOfEmpty(s);
    ScanIs(s);
    ScanDecides(s, o);
  }

  lemma StartAsks(s: Sessions, o: Options, accepted: bool)
    requires Sorted(s)
    ensures AsksFor(MapOf(s), o, StartMultiplex(s, o))
    ensures Refused(StartMultiplex(s, o), accepted) <==> !Joins(MapOf(s), o, accepted)
  {
    MapOfEmpty(s);
    if s != [] {
      MergeAsks(s, o);
    }
  }

  /** A scan that skips a session is one of the sessions without it. */
  lemma OthersAre(s: Sessions, key: int)
    requires Sorted(s) && Has(s, key)
    ensures var m, left := MapOf(s), Erase(s, key);
      key in m && At(s, key) == m[key] && Sorted(left) && MapOf(left) == m - {key}
      && (|s| == 1 <==> left == []) && (left == [] <==> m - {key} == map[])
      && Scan(s, Some(key), NOTHING) == Scan(left, None, NOTHING)
  {
    MapOfHas(s, key);
    MapOfErase(s, key);
    MapOfEmpty(Erase(s, key));
    OthersOf(s, key);
    ScanSkips(s, key, NOTHING);
  }

  lemma UpdateAsks(s: Sessions, key: int, o: Options, accepted: bool)
    requires Sorted(s) && Has(s, key)
    ensures var m, request := MapOf(s), UpdateMultiplex(s, key, o);
      key in m
      && (if Differ(m[key], o) then AsksFor(m - {key}, o, request) else request == None)
      && (Refused(request, accepted) <==> Differ(m[key], o) && !Joins(m - {key}, o, accepted))
  {
    OthersAre(s, key);
    if Erase(s, key) != [] {
      MergeAsks(Erase(s, key), o);
    }
  }

  lemma LeaveAsks(left: Sessions, o: Options)
    requires Sorted(left) && left != []
    ensures var b := Scan(left, None, NOTHING);
      AsksWithout(MapOf(left), o,
                  if o.minInterval < b.options.minInterval || o.powerMode < b.powerMode
                  then Some(StartFix(b.options.minInterval, b.powerMode)) else None)
  {
    MapOfEmpty(left);
    ScanIs(left);
    ScanDecides(left, o);
  }

  lemma StopAsks(s: Sessions, key: int, accepted: bool)
    requires Sorted(s) && Has(s, key)
    ensures var m, request := MapOf(s), StopMultiplex(s, key);
      key in m && AsksWithout(m - {key}, m[key], request)
      && (Refused(request, accepted) <==> LeavesRefused(m, key, accepted))
  {
    OthersAre(s, key);
    if Erase(s, key) != [] {
      LeaveAsks(Erase(s, key), At(s, key));
    }
  }

  // ----- one command -----------------------------------------------------------------------------------

  ghost predicate Mirrors(t: Tracker, r: Ref) {
    Sorted(t.timeBased) && Sorted(t.distanceBased)
    && MapOf(t.timeBased) == r.time && MapOf(t.distanceBased) == r.distance
  }

  /** No id is in both maps; nothing is distance-based where the modem cannot track distances, and
      nothing with a distance time-based where it can. */
  ghost predicate Apart(supported: bool, r: Ref) {
    (forall k :: k in r.time ==> k !in r.distance)
    && if supported then forall k :: k in r.time ==> r.time[k].minDistance == 0 else r.distance == map[]
  }

  lemma RefApart(supported: bool, r: Ref, c: Command)
    requires Apart(supported, r)
    requires c.StartTracking? ==> c.key !in r.time && c.key !in r.distance
    ensures Apart(supported, RefNext(supported, r, c))
  {
  }

  lemma SaveMirrors(t: Tracker, r: Ref, key: int, o: Options)
    requires Mirrors(t, r)
    ensures Mirrors(Save(t, key, o), if o.minDistance > 0 && t.distanceSupported
                                     then Ref(r.time, r.distance[key := o]) else Ref(r.time[key := o], r.distance))
  {
    MapOfPut(t.timeBased, key, o);
    MapOfPut(t.distanceBased, key, o);
  }

  lemma EraseMirrors(t: Tracker, r: Ref, key: int)
    requires Mirrors(t, r)
    ensures Mirrors(EraseSession(t, key), if key in r.time then Ref(r.time - {key}, r.distance)
                                          else Ref(r.time, r.distance - {key}))
  {
    MapOfHas(t.timeBased, key);
    MapOfErase(t.timeBased, key);
    MapOfErase(t.distanceBased, key);
  }

  lemma AdmitMirrors(t: Tracker, r: Ref, key: int, o: Options, accepted: bool)
    requires Mirrors(t, r) && key !in r.time && (o.minDistance == 0 || !t.distanceSupported)
    ensures AsksFor(r.time, o, Admit(t, key, o, accepted).request)
    ensures Mirrors(Admit(t, key, o, accepted).tracker,
                    if Joins(r.time, o, accepted) then r.(time := r.time[key := o]) else r)
  {
    var request := StartMultiplex(t.timeBased, o);
    var running := t.(running := Answered(t.running, request, accepted));
    var saved := Save(running, key, o);
    StartAsks(t.timeBased, o, accepted);
    assert Mirrors(saved, Ref(r.time[key := o], r.distance)) by { SaveMirrors(running, r, key, o); }
    assert Mirrors(EraseSession(saved, key), r) by {
      EraseMirrors(saved, Ref(r.time[key := o], r.distance), key);
      assert r.time[key := o] - {key} == r.time;
    }
  }

  lemma RetireAsks(t: Tracker, r: Ref, key: int, next: Option<Options>, accepted: bool)
    requires Mirrors(t, r) && Has(t.timeBased, key)
    ensures key in r.time && AsksWithout(r.time - {key}, r.time[key], Retire(t, key, next, accepted).request)
  {
    StopAsks(t.timeBased, key, accepted);
  }

  lemma RetireMirrors(t: Tracker, r: Ref, key: int, accepted: bool)
    requires Mirrors(t, r) && Apart(t.distanceSupported, r) && key in r.time
    ensures Has(t.timeBased, key)
    ensures Mirrors(Retire(t, key, None, accepted).tracker, Ref(r.time - {key}, r.distance))
  {
    MapOfHas(t.timeBased, key);
    var request, others := StopMultiplex(t.timeBased, key), r.time - {key};
    var erased := EraseSession(t, key).(running := Answered(t.running, request, accepted));
    EraseMirrors(t, r, key);
    EraseMirrors(erased, Ref(others, r.distance), key);
    assert r.distance - {key} == r.distance;
  }

  lemma SavedAgain(t: Tracker, r: Ref, key: int, o: Options)
    requires Mirrors(t, r) && key !in r.time && key !in r.distance && o.minDistance > 0
    ensures Mirrors(Save(t, key, o), if t.distanceSupported then Ref(r.time, r.distance[key := o])
                                     else Ref(r.time[key := o], r.distance))
    ensures Mirrors(EraseSession(Save(t, key, o), key), r)
  {
    SaveMirrors(t, r, key, o);
    if t.distanceSupported {
      assert r.distance[key := o] - {key} == r.distance;
      EraseMirrors(Save(t, key, o), Ref(r.time, r.distance[key := o]), key);
    } else {
      assert r.time[key := o] - {key} == r.time;
      EraseMirrors(Save(t, key, o), Ref(r.time[key := o], r.distance), key);
    }
  }

  lemma ReplaceMirrors(t: Tracker, r: Ref, key: int, o: Options, accepted: bool)
    requires Mirrors(t, r) && Apart(t.distanceSupported, r) && key in r.time && o.minDistance > 0
    ensures Has(t.timeBased, key)
    ensures var others := r.time - {key};
      Mirrors(Retire(t, key, Some(o), accepted).tracker,
              if LeavesRefused(r.time, key, accepted) then Ref(others, r.distance)
              else if t.distanceSupported then Ref(others, r.distance[key := o])
              else Ref(r.time[key := o], r.distance))
  {
    MapOfHas(t.timeBased, key);
    var request, others := StopMultiplex(t.timeBased, key), r.time - {key};
    var erased := EraseSession(t, key).(running := Answered(t.running, request, accepted));
    var saved := Save(erased, key, o);
    assert Mirrors(erased, Ref(others, r.distance)) by { EraseMirrors(t, r, key); }
    assert others[key := o] == r.time[key := o];
    SavedAgain(erased, Ref(others, r.distance), key, o);
    assert Refused(request, accepted) <==> LeavesRefused(r.time, key, accepted) by {
      StopAsks(t.timeBased, key, accepted);
    }
    assert Retire(t, key, Some(o), accepted).tracker
      == if Refused(request, accepted) then EraseSession(saved, key) else saved;
  }

  lemma ReviseMirrors(t: Tracker, r: Ref, key: int, o: Options, accepted: bool)
    requires Mirrors(t, r) && Apart(t.distanceSupported, r) && key in r.time && o.minDistance == 0
    ensures Has(t.timeBased, key)
    ensures Mirrors(Revise(t, key, o, accepted).tracker,
                    if Differ(r.time[key], o) && !Joins(r.time - {key}, o, accepted)
                    then r else r.(time := r.time[key := o]))
  {
    MapOfHas(t.timeBased, key);
    var request, previous := UpdateMultiplex(t.timeBased, key, o), At(t.timeBased, key);
    var running := t.(running := Answered(t.running, request, accepted));
    var saved := Save(running, key, o);
    assert Refused(request, accepted) <==> Differ(r.time[key], o) && !Joins(r.time - {key}, o, accepted) by {
      UpdateAsks(t.timeBased, key, o, accepted);
    }
    assert Mirrors(saved, Ref(r.time[key := o], r.distance)) by { SaveMirrors(running, r, key, o); }
    assert Mirrors(Save(saved, key, previous), r) by {
      SaveMirrors(saved, Ref(r.time[key := o], r.distance), key, previous);
      assert r.time[key := o][key := previous] == r.time;
    }
  }

  lemma SameWish(o: Options)
    ensures AtLeastMinimum(o) == Floored(o) && FallBack(o) == Weaker(o)
    ensures Floored(o).minDistance == o.minDistance && Weaker(o).minDistance == o.minDistance
  {
  }

  lemma NextRuns(t: Tracker, c: Command)
    ensures Next(t, c).tracker.distanceSupported == t.distanceSupported
    ensures Next(t, c).tracker.running == RefRunning(t.running, c, Next(t, c).request)
  {
    if c.UpdateTracking? {
      UpdateRuns(t, c);
    }
  }

  lemma UpdateRuns(t: Tracker, c: Command)
    requires c.UpdateTracking?
    ensures Next(t, c).tracker.distanceSupported == t.distanceSupported
    ensures Next(t, c).tracker.running == RefRunning(t.running, c, Next(t, c).request)
  {
    var o := AtLeastMinimum(FallBack(c.options));
    if c.welcome && Has(t.timeBased, c.key) {
      if o.minDistance > 0 {
        var retired := Retire(t, c.key, Some(o), c.accepted);
        assert retired.tracker.running == Answered(t.running, retired.request, c.accepted);
      } else if !Has(t.distanceBased, c.key) {
        var revised := Revise(t, c.key, o, c.accepted);
        assert revised.tracker.running == Answered(t.running, revised.request, c.accepted);
      }
    }
  }

  lemma StartMirrors(t: Tracker, r: Ref, c: Command)
    requires Mirrors(t, r) && c.StartTracking? && c.key !in r.time && c.key !in r.distance
    ensures Mirrors(Next(t, c).tracker, RefNext(t.distanceSupported, r, c))
    ensures RefAsks(t.distanceSupported, r, c, Next(t, c).request)
  {
    var o := AtLeastMinimum(c.options);
    SameWish(c.options);
    SameWish(o);
    if !c.welcome {
    } else if o.minDistance > 0 && t.distanceSupported {
      SaveMirrors(t, r, c.key, o);
      EraseMirrors(Save(t, c.key, o), Ref(r.time, r.distance[c.key := o]), c.key);
      assert r.distance[c.key := o] - {c.key} == r.distance;
    } else {
      AdmitMirrors(t, r, c.key, FallBack(o), c.accepted);
    }
  }

  lemma UpdateMirrors(t: Tracker, r: Ref, c: Command)
    requires Mirrors(t, r) && Apart(t.distanceSupported, r) && c.UpdateTracking?
    ensures Mirrors(Next(t, c).tracker, RefNext(t.distanceSupported, r, c))
    ensures RefAsks(t.distanceSupported, r, c, Next(t, c).request)
  {
    var o := AtLeastMinimum(FallBack(c.options));
    SameWish(c.options);
    SameWish(FallBack(c.options));
    MapOfHas(t.timeBased, c.key);
    MapOfHas(t.distanceBased, c.key);
    if !c.welcome {
    } else if c.key in r.time && o.minDistance > 0 {
      RetireAsks(t, r, c.key, Some(o), c.accepted);
      ReplaceMirrors(t, r, c.key, o, c.accepted);
    } else if c.key in r.time {
      UpdateAsks(t.timeBased, c.key, o, c.accepted);
      ReviseMirrors(t, r, c.key, o, c.accepted);
    } else if c.key in r.distance && o.minDistance == 0 {
      EraseMirrors(t, r, c.key);
      AdmitMirrors(EraseSession(t, c.key), Ref(r.time, r.distance - {c.key}), c.key, o, c.accepted);
    } else if c.key in r.distance {
      SaveMirrors(t, r, c.key, o);
    }
  }

  lemma StopMirrors(t: Tracker, r: Ref, c: Command)
    requires Mirrors(t, r) && Apart(t.distanceSupported, r) && c.StopTracking?
    ensures Mirrors(Next(t, c).tracker, RefNext(t.distanceSupported, r, c))
    ensures RefAsks(t.distanceSupported, r, c, Next(t, c).request)
  {
    MapOfHas(t.timeBased, c.key);
    MapOfHas(t.distanceBased, c.key);
    if c.key in r.time {
      RetireAsks(t, r, c.key, None, c.accepted);
      RetireMirrors(t, r, c.key, c.accepted);
    } else {
      EraseMirrors(t, r, c.key);
      assert c.key !in r.distance ==> r.distance - {c.key} == r.distance;
    }
  }

  lemma NextMirrors(t: Tracker, r: Ref, c: Command)
    requires Mirrors(t, r) && Apart(t.distanceSupported, r)
    requires c.StartTracking? ==> c.key !in r.time && c.key !in r.distance
    ensures Mirrors(Next(t, c).tracker, RefNext(t.distanceSupported, r, c))
    ensures RefAsks(t.distanceSupported, r, c, Next(t, c).request)
  {
    match c
    case StartTracking(_, _, _, _, _) => StartMirrors(t, r, c);
    case UpdateTracking(_, _, _, _, _) => UpdateMirrors(t, r, c);
    case StopTracking(_, _, _) => StopMirrors(t, r, c);
    case EngineRestart =>
      MapOfEmpty(t.timeBased);
      if t.timeBased != [] {
        ScanIs(t.timeBased);
        HighestIs(t.timeBased);
      }
  }

  // ----- whole runs ------------------------------------------------------------------------------------

  /** Over every run with new ids for new sessions, whatever the modem answers and whether or not it can
      track distances: the saved sessions of both kinds are exactly those of the plain maps. */
  lemma {:induction false} RunMirrors(supported: bool, cs: seq<Command>)
    requires FreshRun(supported, cs)
    ensures var t := Run(supported, cs);
      Mirrors(t, RefRun(supported, cs)) && Apart(supported, RefRun(supported, cs)) && t.distanceSupported == supported
  {
    if cs != [] {
      var before, c := cs[..|cs| - 1], cs[|cs| - 1];
      var t, r := Run(supported, before), RefRun(supported, before);
      RunMirrors(supported, before);
      if c.StartTracking? {
        MapOfHas(t.timeBased, c.key);
        MapOfHas(t.distanceBased, c.key);
      }
      NextMirrors(t, r, c);
      NextRuns(t, c);
      RefApart(supported, r, c);
    }
  }

  /** After any such run each command asks exactly what the plain maps call for, and the fix stream
      follows every accepted request. */
  lemma RunAsks(supported: bool, cs: seq<Command>, c: Command)
    requires FreshRun(supported, cs + [c])
    ensures var o := Next(Run(supported, cs), c);
      RefAsks(supported, RefRun(supported, cs), c, o.request)
      && o.tracker.running == RefRunning(Run(supported, cs).running, c, o.request)
  {
    var t, r := Run(supported, cs), RefRun(supported, cs);
    assert (cs + [c])[..|cs + [c]| - 1] == cs;
    RunMirrors(supported, cs);
    if c.StartTracking? {
      MapOfHas(t.timeBased, c.key);
      MapOfHas(t.distanceBased, c.key);
    }
    NextMirrors(t, r, c);
    NextRuns(t, c);
  }

  /** The plain maps fix the request. */
  lemma AskedIsUnique(supported: bool, r: Ref, c: Command, a: Option<Request>, b: Option<Request>)
    requires RefAsks(supported, r, c, a) && RefAsks(supported, r, c, b)
    ensures a == b
  {
  }

  /** Stopping the last time-based session stops the fix stream, if the modem accepts. */
  lemma LastStopEnds(supported: bool, cs: seq<Command>, key: int, accepted: bool, distanceAccepted: bool)
    requires FreshRun(supported, cs) && RefRun(supported, cs).time.Keys == {key}
    ensures var o := Next(Run(supported, cs), StopTracking(key, accepted, distanceAccepted));
      o.request == Some(StopFix) && o.tracker.timeBased == []
      && o.tracker.running == if accepted then None else Run(supported, cs).running
  {
    var r, c := RefRun(supported, cs), StopTracking(key, accepted, distanceAccepted);
    RunMirrors(supported, cs);
    NextMirrors(Run(supported, cs), r, c);
    NextRuns(Run(supported, cs), c);
    assert key in r.time && r.time - {key} == map[];
    MapOfEmpty(Next(Run(supported, cs), c).tracker.timeBased);
  }
}
