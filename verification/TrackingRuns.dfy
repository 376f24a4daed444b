/** The service guarantee of the time-based tracking multiplexer over whole runs. */
module TrackingRuns {
  import opened Basics
  import opened OrderedMap
  import opened Tracking

  function Run(distanceSupported: bool, cs: seq<Command>): Tracker {
    if cs == [] then Tracker(distanceSupported, [], [], None)
    else Next(Run(distanceSupported, cs[..|cs| - 1]), cs[|cs| - 1]).tracker
  }

  /** `r` is fast enough for every session. */
  predicate Below(r: nat, sessions: Sessions) {
    forall i :: 0 <= i < |sessions| ==> r <= sessions[i].value.minInterval
  }

  predicate Attained(r: nat, sessions: Sessions) {
    exists i :: 0 <= i < |sessions| && sessions[i].value.minInterval == r
  }

  predicate IsMin(r: nat, sessions: Sessions) { Below(r, sessions) && Attained(r, sessions) }

  /** The modem runs, not faster than every 100 ms, and fast enough for every session. */
  predicate Serves(running: Option<nat>, sessions: Sessions) {
    sessions != [] ==> running.Some? && MIN_TRACKING_INTERVAL <= running.value && Below(running.value, sessions)
  }

  predicate Good(t: Tracker) {
    Sorted(t.timeBased) && Below(MIN_TRACKING_INTERVAL, t.timeBased) && Serves(t.running, t.timeBased)
  }

  // ----- scanning ------------------------------------------------------------------------

  /** The sessions a scan looks at. */
  predicate Seen(e: Entry<Options>, skip: Option<int>) { skip != Some(e.key) }

  lemma {:induction false} ScanFinds(sessions: Sessions, skip: Option<int>, b: Best)
    ensures var r := Scan(sessions, skip, b);
      (b.found ==> r.found && r.options.minInterval <= b.options.minInterval)
      && (forall i :: 0 <= i < |sessions| && Seen(sessions[i], skip) ==>
            r.found && r.options.minInterval <= sessions[i].value.minInterval)
      && ((r.options == b.options && r.found == b.found)
          || exists i :: 0 <= i < |sessions| && Seen(sessions[i], skip) && r.options == sessions[i].value)
  {
    if sessions != [] {
      var b' := if skip == Some(sessions[0].key) then b else Better(b, sessions[0].value);
      ScanFinds(sessions[1..], skip, b');
      var r := Scan(sessions[1..], skip, b');
      if i :| 0 <= i < |sessions[1..]| && Seen(sessions[1..][i], skip) && r.options == sessions[1..][i].value {
        assert sessions[i + 1] == sessions[1..][i];
      }
      forall i | 0 <= i < |sessions| && Seen(sessions[i], skip)
        ensures r.found && r.options.minInterval <= sessions[i].value.minInterval
      {
        assert i > 0 ==> sessions[1..][i - 1] == sessions[i];
      }
    }
  }

  /** With some other session present, the scan's interval is the least of the others. */
  lemma ScanOthers(sessions: Sessions, skip: Option<int>, others: Sessions)
    requires others != []
    requires forall e :: e in others <==> e in sessions && Seen(e, skip)
    ensures IsMin(Scan(sessions, skip, NOTHING).options.minInterval, others)
  {
    ScanFinds(sessions, skip, NOTHING);
    var r := Scan(sessions, skip, NOTHING);
    forall k | 0 <= k < |others| ensures r.found && r.options.minInterval <= others[k].value.minInterval {
      assert others[k] in sessions;
      var i :| 0 <= i < |sessions| && sessions[i] == others[k];
    }
    assert r.found by {
      assert others[0] in others;
    }
    var i :| 0 <= i < |sessions| && Seen(sessions[i], skip) && r.options == sessions[i].value;
    assert sessions[i] in others;
    var k :| 0 <= k < |others| && others[k] == sessions[i];
    assert others[k].value.minInterval == r.options.minInterval;
  }

  lemma AllSeen(sessions: Sessions)
    requires sessions != []
    ensures IsMin(Scan(sessions, None, NOTHING).options.minInterval, sessions)
  {
    ScanOthers(sessions, None, sessions);
  }

  // ----- the session map -------------------------------------------------------------------

  lemma BelowPut(sessions: Sessions, key: int, o: Options, r: nat)
    requires Sorted(sessions)
    ensures Sorted(Put(sessions, key, o))
    ensures Below(r, sessions) && r <= o.minInterval ==> Below(r, Put(sessions, key, o))
    ensures Below(r, Put(sessions, key, o)) ==> r <= o.minInterval
    ensures Attained(o.minInterval, Put(sessions, key, o))
  {
    PutSorted(sessions, key, o);
    var put := Put(sessions, key, o);
    forall i | 0 <= i < |put| && Below(r, sessions) && r <= o.minInterval ensures r <= put[i].value.minInterval {
      PutMember(sessions, key, o, put[i]);
    }
    var i := PutIndex(sessions, key, o, Entry(key, o));
    assert put[i].value.minInterval == o.minInterval;
  }

  lemma BelowErase(sessions: Sessions, key: int, r: nat)
    requires Sorted(sessions)
    ensures Sorted(Erase(sessions, key))
    ensures Below(r, sessions) ==> Below(r, Erase(sessions, key))
  {
    EraseSorted(sessions, key);
    var left := Erase(sessions, key);
    forall i | 0 <= i < |left| && Below(r, sessions) ensures r <= left[i].value.minInterval {
      EraseMember(sessions, key, left[i]);
    }
  }

  /** Saving over a key leaves the other sessions and the new one. */
  lemma BelowOverwrite(sessions: Sessions, key: int, o: Options, r: nat)
    requires Sorted(sessions)
    requires Below(r, Erase(sessions, key)) && r <= o.minInterval
    ensures Below(r, Put(sessions, key, o))
  {
    var put := Put(sessions, key, o);
    forall i | 0 <= i < |put| ensures r <= put[i].value.minInterval {
      PutMember(sessions, key, o, put[i]);
      EraseMember(sessions, key, put[i]);
    }
  }

  lemma OthersOf(sessions: Sessions, key: int)
    requires Sorted(sessions) && Has(sessions, key)
    ensures forall e :: e in Erase(sessions, key) <==> e in sessions && Seen(e, Some(key))
    ensures Erase(sessions, key) == [] <==> |sessions| == 1
  {
    forall e ensures e in Erase(sessions, key) <==> e in sessions && Seen(e, Some(key)) {
      EraseMember(sessions, key, e);
    }
    EraseLength(sessions, key);
  }

  lemma {:induction false} EraseLength(sessions: Sessions, key: int)
    requires Has(sessions, key)
    ensures |Erase(sessions, key)| == |sessions| - 1
  {
    if sessions[0].key != key {
      var i :| 0 <= i < |sessions| && sessions[i].key == key;
      assert sessions[1..][i - 1].key == key;
      EraseLength(sessions[1..], key);
    }
  }

  lemma AttainedOther(sessions: Sessions, key: int, o: Options, r: nat)
    requires Sorted(sessions) && Attained(r, Erase(sessions, key))
    ensures Attained(r, Put(sessions, key, o))
  {
    var left := Erase(sessions, key);
    var k :| 0 <= k < |left| && left[k].value.minInterval == r;
    EraseMember(sessions, key, left[k]);
    var i := PutIndex(sessions, key, o, left[k]);
    assert Put(sessions, key, o)[i].value.minInterval == r;
  }

  // ----- starting ---------------------------------------------------------------------------

  /** The request a start makes, if any, is for the least interval of the resulting sessions;
      without a request the running interval serves them already. */
  lemma StartRequest(sessions: Sessions, running: Option<nat>, key: int, o: Options)
    requires Sorted(sessions) && !Has(sessions, key) && Serves(running, sessions)
    requires Below(MIN_TRACKING_INTERVAL, sessions) && MIN_TRACKING_INTERVAL <= o.minInterval
    ensures var request := StartMultiplex(sessions, o);
      if request.None? then Serves(running, Put(sessions, key, o))
      else request.value.StartFix? && IsMin(request.value.minInterval, Put(sessions, key, o))
  {
    var request := StartMultiplex(sessions, o);
    BelowPut(sessions, key, o, o.minInterval);
    if sessions == [] {
      assert Put(sessions, key, o) == [Entry(key, o)];
    } else {
      AllSeen(sessions);
      var least := Scan(sessions, None, NOTHING).options.minInterval;
      var r := if o.minInterval < least then o.minInterval else least;
      BelowPut(sessions, key, o, r);
      if least <= o.minInterval {
        var k :| 0 <= k < |sessions| && sessions[k].value.minInterval == least;
        assert sessions[k].key != key;
        var i := PutIndex(sessions, key, o, sessions[k]);
        assert Put(sessions, key, o)[i].value.minInterval == least;
        BelowPut(sessions, key, o, running.value);
      }
    }
  }

  lemma AdmitGood(t: Tracker, key: int, o: Options, accepted: bool)
    requires Good(t) && !Has(t.timeBased, key) && MIN_TRACKING_INTERVAL <= o.minInterval
    requires o.minDistance == 0 || !t.distanceSupported
    ensures Good(Admit(t, key, o, accepted).tracker)
    ensures var request := StartMultiplex(t.timeBased, o);
      accepted && request.Some? ==>
        request.value.StartFix? && IsMin(request.value.minInterval, Admit(t, key, o, accepted).tracker.timeBased)
  {
    StartRequest(t.timeBased, t.running, key, o);
    var request := StartMultiplex(t.timeBased, o);
    BelowPut(t.timeBased, key, o, MIN_TRACKING_INTERVAL);
    EraseOfPut(t.timeBased, key, o);
    if request.Some? {
      MinAtLeast(request.value.minInterval, Put(t.timeBased, key, o));
    }
  }

  lemma MinAtLeast(r: nat, sessions: Sessions)
    requires IsMin(r, sessions) && Below(MIN_TRACKING_INTERVAL, sessions)
    ensures MIN_TRACKING_INTERVAL <= r
  {
  }

  lemma {:induction false} EraseOfPut(sessions: Sessions, key: int, o: Options)
    requires Sorted(sessions) && !Has(sessions, key)
    ensures Has(Put(sessions, key, o), key) && Erase(Put(sessions, key, o), key) == sessions
  {
    var i := PutIndex(sessions, key, o, Entry(key, o));
    assert Put(sessions, key, o)[i].key == key;
    if sessions != [] && sessions[0].key < key {
      assert !Has(sessions[1..], key) by {
        forall j | 0 <= j < |sessions[1..]| ensures sessions[1..][j].key != key {
          assert sessions[1..][j] == sessions[j + 1];
        }
      }
      EraseOfPut(sessions[1..], key, o);
    } else if sessions != [] {
      assert sessions[0].key != key;
    }
  }

  // ----- stopping ---------------------------------------------------------------------------

  /** Whatever the modem answers, it still serves the sessions that are left; a request to go
      on is for exactly their least interval. */
  lemma StopRequest(t: Tracker, key: int, accepted: bool)
    requires Good(t) && Has(t.timeBased, key)
    ensures var request, left := StopMultiplex(t.timeBased, key), Erase(t.timeBased, key);
      Sorted(left) && Below(MIN_TRACKING_INTERVAL, left)
      && Serves(Answered(t.running, request, accepted), left)
      && (request.Some? && request.value.StartFix? ==> IsMin(request.value.minInterval, left))
      && (request == Some(StopFix) <==> left == [])
  {
    var left := Erase(t.timeBased, key);
    OthersOf(t.timeBased, key);
    BelowErase(t.timeBased, key, MIN_TRACKING_INTERVAL);
    if left != [] {
      BelowErase(t.timeBased, key, t.running.value);
      ScanOthers(t.timeBased, Some(key), left);
    }
  }

  /** Erasing the retired key once more changes no time-based session but its replacement. */
  lemma RetireGood(t: Tracker, key: int, next: Option<Options>, accepted: bool)
    requires Good(t) && Has(t.timeBased, key)
    requires next.Some? ==> next.value.minDistance > 0 && t.distanceSupported
    ensures var r := Retire(t, key, next, accepted).tracker;
      Good(r) && r.timeBased == Erase(t.timeBased, key)
  {
    StopRequest(t, key, accepted);
    NotHasErased(t.timeBased, key);
  }

  lemma NotHasErased(sessions: Sessions, key: int)
    requires Sorted(sessions)
    ensures !Has(Erase(sessions, key), key)
  {
    var left := Erase(sessions, key);
    forall i | 0 <= i < |left| ensures left[i].key != key {
      EraseMember(sessions, key, left[i]);
    }
  }

  // ----- updating ----------------------------------------------------------------------------

  lemma UpdateRequest(t: Tracker, key: int, o: Options)
    requires Good(t) && Has(t.timeBased, key) && MIN_TRACKING_INTERVAL <= o.minInterval
    ensures var request, put := UpdateMultiplex(t.timeBased, key, o), Put(t.timeBased, key, o);
      if request.None? then Serves(t.running, put)
      else request.value.StartFix? && IsMin(request.value.minInterval, put)
  {
    var left, put := Erase(t.timeBased, key), Put(t.timeBased, key, o);
    var request := UpdateMultiplex(t.timeBased, key, o);
    OthersOf(t.timeBased, key);
    BelowPut(t.timeBased, key, o, o.minInterval);
    BelowErase(t.timeBased, key, t.running.value);
    assert t.running.value <= At(t.timeBased, key).minInterval by {
      var e := Entry(key, At(t.timeBased, key));
      var i :| 0 <= i < |t.timeBased| && t.timeBased[i] == e;
    }
    if left == [] {
      BelowOverwrite(t.timeBased, key, o, o.minInterval);
      if request.None? {
        BelowOverwrite(t.timeBased, key, o, t.running.value);
      }
    } else {
      ScanOthers(t.timeBased, Some(key), left);
      var least := Scan(t.timeBased, Some(key), NOTHING).options.minInterval;
      var r := if o.minInterval < least then o.minInterval else least;
      BelowOverwrite(t.timeBased, key, o, r);
      if least <= o.minInterval {
        AttainedOther(t.timeBased, key, o, least);
      }
      if request.None? {
        assert t.running.value <= least by {
          var k :| 0 <= k < |left| && left[k].value.minInterval == least;
        }
        BelowOverwrite(t.timeBased, key, o, t.running.value);
      }
    }
  }

  /** Putting the old options back restores the old sessions. */
  lemma PutBack(sessions: Sessions, key: int, o: Options)
    requires Sorted(sessions) && Has(sessions, key)
    ensures Put(Put(sessions, key, o), key, At(sessions, key)) == sessions
  {
    PutTwice(sessions, key, o, At(sessions, key));
    PutSame(sessions, key);
  }

  lemma {:induction false} PutTwice(sessions: Sessions, key: int, first: Options, second: Options)
    ensures Put(Put(sessions, key, first), key, second) == Put(sessions, key, second)
  {
    if sessions != [] && sessions[0].key < key {
      PutTwice(sessions[1..], key, first, second);
      assert Put(sessions, key, first)[1..] == Put(sessions[1..], key, first);
    }
  }

  lemma {:induction false} PutSame(sessions: Sessions, key: int)
    requires Sorted(sessions) && Has(sessions, key)
    ensures Put(sessions, key, At(sessions, key)) == sessions
  {
    var i :| 0 <= i < |sessions| && sessions[i].key == key;
    if i > 0 {
      assert sessions[1..][i - 1].key == key;
      PutSame(sessions[1..], key);
    }
  }

  /** A time-based session carries a distance only where distance tracking is missing, and
      there no session is distance-based. */
  predicate PlainSessions(t: Tracker) {
    if t.distanceSupported
    then forall i :: 0 <= i < |t.timeBased| ==> t.timeBased[i].value.minDistance == 0
    else t.distanceBased == []
  }

  lemma ReviseGood(t: Tracker, key: int, o: Options, accepted: bool)
    requires Good(t) && PlainSessions(t) && Has(t.timeBased, key)
    requires MIN_TRACKING_INTERVAL <= o.minInterval && o.minDistance == 0
    ensures Good(Revise(t, key, o, accepted).tracker)
  {
    UpdateRequest(t, key, o);
    BelowPut(t.timeBased, key, o, MIN_TRACKING_INTERVAL);
    PutBack(t.timeBased, key, o);
    var e := Entry(key, At(t.timeBased, key));
    var i :| 0 <= i < |t.timeBased| && t.timeBased[i] == e;
    var request := UpdateMultiplex(t.timeBased, key, o);
    if request.Some? {
      MinAtLeast(request.value.minInterval, Put(t.timeBased, key, o));
    }
  }

  // ----- switching to a distance the modem cannot track --------------------------------------

  /** An update asks for a distance where distance tracking is missing: the session is retired
      from the multiplexer and then saved as time-based after all. */
  predicate UnsupportedSwitch(t: Tracker, c: Command) {
    c.UpdateTracking? && c.welcome && !t.distanceSupported && Has(t.timeBased, c.key) && c.options.minDistance > 0
  }

  predicate OtherWithin(sessions: Sessions, key: int, interval: nat) {
    exists i :: 0 <= i < |sessions| && sessions[i].key != key && sessions[i].value.minInterval <= interval
  }

  /** What such a switch has to find. Alone, the session is served only if the modem refuses to
      stop, at the old interval; with others, the old interval stays unless the modem accepts a
      new one, which is the least of the others'. */
  predicate SwitchServed(t: Tracker, c: Command)
    requires UnsupportedSwitch(t, c) && t.running.Some?
  {
    var interval := AtLeastMinimum(FallBack(c.options)).minInterval;
    if |t.timeBased| == 1 then !c.accepted && t.running.value <= interval
    else if StopMultiplex(t.timeBased, c.key) == None then t.running.value <= interval
    else !c.accepted || OtherWithin(t.timeBased, c.key, interval)
  }

  lemma OtherWithinLeft(sessions: Sessions, key: int, interval: nat, least: nat)
    requires Sorted(sessions) && Has(sessions, key) && IsMin(least, Erase(sessions, key))
    ensures OtherWithin(sessions, key, interval) <==> least <= interval
  {
    var left := Erase(sessions, key);
    if OtherWithin(sessions, key, interval) {
      var i :| 0 <= i < |sessions| && sessions[i].key != key && sessions[i].value.minInterval <= interval;
      EraseMember(sessions, key, sessions[i]);
      var k :| 0 <= k < |left| && left[k] == sessions[i];
    }
    var k :| 0 <= k < |left| && left[k].value.minInterval == least;
    EraseMember(sessions, key, left[k]);
    var i :| 0 <= i < |sessions| && sessions[i] == left[k];
  }

  /** The session is served after such a switch if and only if the switch found what it needs;
      an accepted request is then for the least interval of the resulting sessions. */
  lemma UnsupportedSwitchIff(t: Tracker, c: Command)
    requires Good(t) && UnsupportedSwitch(t, c)
    ensures t.running.Some?
    ensures Good(Next(t, c).tracker) <==> SwitchServed(t, c)
    ensures var o := Next(t, c);
      SwitchServed(t, c) && c.accepted && o.request.Some? ==>
        o.request.value.StartFix? && IsMin(o.request.value.minInterval, o.tracker.timeBased)
  {
    var o := AtLeastMinimum(FallBack(c.options));
    var request, left := StopMultiplex(t.timeBased, c.key), Erase(t.timeBased, c.key);
    var after := Answered(t.running, request, c.accepted);
    assert t.timeBased != [];
    OthersOf(t.timeBased, c.key);
    StopRequest(t, c.key, c.accepted);
    NotHasErased(t.timeBased, c.key);
    EraseOfPut(left, c.key, o);
    BelowPut(left, c.key, o, MIN_TRACKING_INTERVAL);
    if after.Some? {
      BelowPut(left, c.key, o, after.value);
    }
    if request.Some? && request.value.StartFix? {
      OtherWithinLeft(t.timeBased, c.key, o.minInterval, request.value.minInterval);
      var k :| 0 <= k < |left| && left[k].value.minInterval == request.value.minInterval;
      var i := PutIndex(left, c.key, o, left[k]);
      assert Put(left, c.key, o)[i].value.minInterval == request.value.minInterval;
      MinAtLeast(request.value.minInterval, left);
    }
  }

  // ----- whole runs ----------------------------------------------------------------------------

  /** Session ids are new. */
  predicate FreshId(t: Tracker, c: Command) {
    c.StartTracking? ==> !Has(t.timeBased, c.key) && !Has(t.distanceBased, c.key)
  }

  /** The sessions can be served over this command: it is no unsupported switch, or one that
      finds what it needs. */
  predicate Servable(t: Tracker, c: Command) {
    UnsupportedSwitch(t, c) ==> t.running.Some? && SwitchServed(t, c)
  }

  predicate Proper(t: Tracker, c: Command) { FreshId(t, c) && Servable(t, c) }

  predicate ProperRun(distanceSupported: bool, cs: seq<Command>) {
    cs == []
    || (ProperRun(distanceSupported, cs[..|cs| - 1])
        && Proper(Run(distanceSupported, cs[..|cs| - 1]), cs[|cs| - 1]))
  }

  lemma PlainPut(t: Tracker, key: int, o: Options)
    requires Sorted(t.timeBased) && PlainSessions(t) && (t.distanceSupported ==> o.minDistance == 0)
    ensures PlainSessions(t.(timeBased := Put(t.timeBased, key, o)))
  {
    var put := Put(t.timeBased, key, o);
    forall i | 0 <= i < |put| && t.distanceSupported ensures put[i].value.minDistance == 0 {
      PutMember(t.timeBased, key, o, put[i]);
    }
  }

  lemma PlainErase(t: Tracker, key: int)
    requires Sorted(t.timeBased) && PlainSessions(t)
    ensures PlainSessions(t.(timeBased := Erase(t.timeBased, key)))
  {
    var left := Erase(t.timeBased, key);
    forall i | 0 <= i < |left| && t.distanceSupported ensures left[i].value.minDistance == 0 {
      EraseMember(t.timeBased, key, left[i]);
    }
  }

  /** One command keeps the guarantee, and what it asks of the modem is the least interval of
      the sessions it leaves. */
  lemma NextGood(t: Tracker, c: Command)
    requires Good(t) && PlainSessions(t) && Proper(t, c)
    ensures Good(Next(t, c).tracker)
    ensures var o := Next(t, c);
      (c.EngineRestart? || c.accepted) && o.request.Some? && o.request.value.StartFix? ==>
        IsMin(o.request.value.minInterval, o.tracker.timeBased)
  {
    match c
    case StartTracking(key, options, welcome, accepted, _) =>
      var o := AtLeastMinimum(options);
      if welcome && !(o.minDistance > 0 && t.distanceSupported) {
        AdmitGood(t, key, FallBack(o), accepted);
      }
    case UpdateTracking(key, options, welcome, accepted, _) =>
      var o := AtLeastMinimum(FallBack(options));
      if UnsupportedSwitch(t, c) {
        UnsupportedSwitchIff(t, c);
      } else if welcome && Has(t.timeBased, key) && o.minDistance > 0 {
        RetireGood(t, key, Some(o), accepted);
        StopRequest(t, key, accepted);
      } else if Has(t.distanceBased, key) && o.minDistance == 0 {
        NotHasErased(t.timeBased, key);
        BelowErase(t.timeBased, key, MIN_TRACKING_INTERVAL);
        if t.timeBased != [] {
          BelowErase(t.timeBased, key, t.running.value);
        }
        AdmitGood(EraseSession(t, key), key, o, accepted);
      } else if welcome && Has(t.timeBased, key) {
        ReviseGood(t, key, o, accepted);
        UpdateRequest(t, key, o);
      }
    case StopTracking(key, accepted, _) =>
      if Has(t.timeBased, key) {
        RetireGood(t, key, None, accepted);
        StopRequest(t, key, accepted);
      }
    case EngineRestart =>
      if t.timeBased != [] {
        AllSeen(t.timeBased);
      }
  }

  lemma AdmitPlain(t: Tracker, key: int, o: Options, accepted: bool)
    requires Sorted(t.timeBased) && PlainSessions(t) && !Has(t.timeBased, key)
    requires o.minDistance == 0 || !t.distanceSupported
    ensures PlainSessions(Admit(t, key, o, accepted).tracker)
  {
    PlainPut(t, key, o);
    EraseOfPut(t.timeBased, key, o);
  }

  lemma RevisePlain(t: Tracker, key: int, o: Options, accepted: bool)
    requires Sorted(t.timeBased) && PlainSessions(t) && Has(t.timeBased, key) && o.minDistance == 0
    ensures PlainSessions(Revise(t, key, o, accepted).tracker)
  {
    PlainPut(t, key, o);
    PutBack(t.timeBased, key, o);
    var e := Entry(key, At(t.timeBased, key));
    var i :| 0 <= i < |t.timeBased| && t.timeBased[i] == e;
  }

  lemma RetirePlain(t: Tracker, key: int, next: Option<Options>, accepted: bool)
    requires Good(t) && PlainSessions(t) && Has(t.timeBased, key)
    requires next.Some? ==> next.value.minDistance > 0 && t.distanceSupported
    ensures PlainSessions(Retire(t, key, next, accepted).tracker)
  {
    RetireGood(t, key, next, accepted);
    PlainErase(t, key);
  }

  lemma SwitchPlain(t: Tracker, key: int, o: Options, accepted: bool)
    requires Good(t) && PlainSessions(t) && o.minDistance == 0
    ensures PlainSessions(Admit(EraseSession(t, key), key, o, accepted).tracker)
  {
    NotHasErased(t.timeBased, key);
    BelowErase(t.timeBased, key, 0);
    PlainErase(t, key);
    AdmitPlain(EraseSession(t, key), key, o, accepted);
  }

  lemma NextPlain(t: Tracker, c: Command)
    requires Good(t) && PlainSessions(t) && Proper(t, c)
    ensures PlainSessions(Next(t, c).tracker)
  {
    match c
    case StartTracking(key, options, _, accepted, _) =>
      var o := FallBack(AtLeastMinimum(options));
      if !(o.minDistance > 0 && t.distanceSupported) {
        AdmitPlain(t, key, o, accepted);
      }
    case UpdateTracking(key, options, welcome, accepted, _) =>
      var o := AtLeastMinimum(FallBack(options));
      if UnsupportedSwitch(t, c) {
      } else if welcome && Has(t.timeBased, key) && o.minDistance > 0 {
        RetirePlain(t, key, Some(o), accepted);
      } else if Has(t.distanceBased, key) && o.minDistance == 0 {
        SwitchPlain(t, key, o, accepted);
      } else if welcome && Has(t.timeBased, key) {
        RevisePlain(t, key, o, accepted);
      }
    case StopTracking(key, accepted, _) =>
      if Has(t.timeBased, key) {
        RetirePlain(t, key, None, accepted);
      }
    case EngineRestart =>
  }

  lemma NextKeepsSupport(t: Tracker, c: Command)
    ensures Next(t, c).tracker.distanceSupported == t.distanceSupported
  {
  }

  lemma {:induction false} RunGood(distanceSupported: bool, cs: seq<Command>)
    requires ProperRun(distanceSupported, cs)
    ensures Good(Run(distanceSupported, cs)) && PlainSessions(Run(distanceSupported, cs))
    ensures Run(distanceSupported, cs).distanceSupported == distanceSupported
  {
    if cs != [] {
      var t, c := Run(distanceSupported, cs[..|cs| - 1]), cs[|cs| - 1];
      RunGood(distanceSupported, cs[..|cs| - 1]);
      NextGood(t, c);
      NextPlain(t, c);
      NextKeepsSupport(t, c);
    }
  }

  /** After any run of starts, updates, stops, mode switches and modem restarts, whether the
      modem accepted or refused: every time-based session is served at least as often as it
      asked, and never below 100 ms. */
  lemma ServiceGuarantee(distanceSupported: bool, cs: seq<Command>)
    requires ProperRun(distanceSupported, cs)
    ensures var t := Run(distanceSupported, cs);
      forall i :: 0 <= i < |t.timeBased| ==>
        t.running.Some? && MIN_TRACKING_INTERVAL <= t.running.value <= t.timeBased[i].value.minInterval
  {
    RunGood(distanceSupported, cs);
  }

  /** Every request sent carries exactly the minimum over the sessions it results in. */
  lemma RequestsAreMinimal(distanceSupported: bool, cs: seq<Command>, c: Command)
    requires ProperRun(distanceSupported, cs) && Proper(Run(distanceSupported, cs), c)
    requires c.EngineRestart? || c.accepted
    ensures var o := Next(Run(distanceSupported, cs), c);
      match o.request
      case Some(StartFix(interval, _)) => IsMin(interval, o.tracker.timeBased) && o.tracker.running == Some(interval)
      case Some(StopFix) => o.tracker.timeBased == []
      case None => true
  {
    var t := Run(distanceSupported, cs);
    RunGood(distanceSupported, cs);
    NextGood(t, c);
    if UnsupportedSwitch(t, c) {
      UnsupportedSwitchIff(t, c);
    } else if c.UpdateTracking? && c.welcome && Has(t.timeBased, c.key) {
      var o := AtLeastMinimum(FallBack(c.options));
      if o.minDistance > 0 {
        StopRequest(t, c.key, c.accepted);
        RetireGood(t, c.key, Some(o), c.accepted);
      } else if !Has(t.distanceBased, c.key) {
        UpdateRequest(t, c.key, o);
      }
    } else if c.StopTracking? && Has(t.timeBased, c.key) {
      StopRequest(t, c.key, c.accepted);
      RetireGood(t, c.key, None, c.accepted);
    }
  }

  predicate FreshRun(distanceSupported: bool, cs: seq<Command>) {
    cs == []
    || (FreshRun(distanceSupported, cs[..|cs| - 1])
        && FreshId(Run(distanceSupported, cs[..|cs| - 1]), cs[|cs| - 1]))
  }

  /** Every session was served at every moment of the run. */
  predicate AlwaysServed(distanceSupported: bool, cs: seq<Command>) {
    var t := Run(distanceSupported, cs);
    Serves(t.running, t.timeBased) && (cs == [] || AlwaysServed(distanceSupported, cs[..|cs| - 1]))
  }

  /** The guarantee holds throughout a run exactly when every unsupported switch in it finds what
      it needs; nothing else ever breaks it. */
  lemma {:induction false} ServiceGuaranteeIff(distanceSupported: bool, cs: seq<Command>)
    requires FreshRun(distanceSupported, cs)
    ensures AlwaysServed(distanceSupported, cs) <==> ProperRun(distanceSupported, cs)
  {
    if cs != [] {
      var before, c := cs[..|cs| - 1], cs[|cs| - 1];
      ServiceGuaranteeIff(distanceSupported, before);
      if ProperRun(distanceSupported, before) {
        RunGood(distanceSupported, before);
        if ProperRun(distanceSupported, cs) {
          RunGood(distanceSupported, cs);
        } else {
          UnsupportedSwitchIff(Run(distanceSupported, before), c);
          SwitchKeepsSorted(Run(distanceSupported, before), c);
        }
      }
    }
  }

  lemma SwitchKeepsSorted(t: Tracker, c: Command)
    requires Good(t) && UnsupportedSwitch(t, c)
    ensures Sorted(Next(t, c).tracker.timeBased) && Below(MIN_TRACKING_INTERVAL, Next(t, c).tracker.timeBased)
  {
    var o, left := AtLeastMinimum(FallBack(c.options)), Erase(t.timeBased, c.key);
    StopRequest(t, c.key, c.accepted);
    NotHasErased(t.timeBased, c.key);
    EraseOfPut(left, c.key, o);
    BelowPut(left, c.key, o, MIN_TRACKING_INTERVAL);
  }

  /** A run whose only session asks for a distance of a modem that cannot track one: the modem is
      told to stop, and the session stays. */
  lemma UnsupportedSwitchStarves()
    ensures var t := Run(false, [StartTracking(1, Options(1000, 0, 2, 0), true, true, true),
                                 UpdateTracking(1, Options(1000, 50, 2, 0), true, true, true)]);
      t.timeBased == [Entry(1, Options(1000, 50, 2, 0))] && t.running == None
  {
    var start := StartTracking(1, Options(1000, 0, 2, 0), true, true, true);
    var one, two := [start], [start, UpdateTracking(1, Options(1000, 50, 2, 0), true, true, true)];
    assert two[..1] == one && one[..0] == [];
    var t := Tracker(false, [Entry(1, Options(1000, 0, 2, 0))], [], Some(1000));
    assert t.timeBased[0].key == 1;
    assert Run(false, one) == t;
  }
}
