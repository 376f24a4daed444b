/** Time-based tracking: many sessions share one modem fix stream, whose interval has to serve
    the most demanding of them. */
module Tracking {
  import opened Basics
  import opened OrderedMap

  const MIN_TRACKING_INTERVAL: nat := 100
  const TBM_THRESHOLD_MILLIS: nat := 480000
  const POWER_MODE_INVALID: nat := 0
  const POWER_MODE_M2: nat := 2
  const POWER_MODE_M4: nat := 4

  datatype Options = Options(minInterval: nat, minDistance: nat, powerMode: nat, tbm: nat)

  type Sessions = seq<Entry<Options>>

  datatype Request = StartFix(minInterval: nat, powerMode: nat) | StopFix

  /** `running` is the interval of the modem's fix stream, if there is one. */
  datatype Tracker = Tracker(distanceSupported: bool, timeBased: Sessions, distanceBased: Sessions,
                             running: Option<nat>)

  /** A client command, with the answers the modem will give to the requests it leads to. */
  datatype Command =
    | StartTracking(key: int, options: Options, welcome: bool, accepted: bool, distanceAccepted: bool)
    | UpdateTracking(key: int, options: Options, welcome: bool, accepted: bool, distanceAccepted: bool)
    | StopTracking(key: int, accepted: bool, distanceAccepted: bool)
    | EngineRestart

  datatype Outcome = Outcome(tracker: Tracker, request: Option<Request>)

  // ----- the session maps ------------------------------------------------------------------

  function Save(t: Tracker, key: int, options: Options): Tracker {
    if options.minDistance > 0 && t.distanceSupported
    then t.(distanceBased := Put(t.distanceBased, key, options))
    else t.(timeBased := Put(t.timeBased, key, options))
  }

  function EraseSession(t: Tracker, key: int): Tracker {
    if Has(t.timeBased, key) then t.(timeBased := Erase(t.timeBased, key))
    else t.(distanceBased := Erase(t.distanceBased, key))
  }

  function AtLeastMinimum(o: Options): Options {
    if o.minInterval < MIN_TRACKING_INTERVAL then o.(minInterval := MIN_TRACKING_INTERVAL) else o
  }

  function FallBack(o: Options): Options {
    if o.powerMode == POWER_MODE_M4 && o.tbm > TBM_THRESHOLD_MILLIS then o.(powerMode := POWER_MODE_M2) else o
  }

  // ----- finding what the modem should run ----------------------------------------------------

  /** The multiplexed options so far; `found` is the source's nonzero size. */
  datatype Best = Best(found: bool, options: Options, powerMode: nat)

  const NOTHING := Best(false, Options(0, 0, POWER_MODE_INVALID, 0), POWER_MODE_INVALID)

  function Better(b: Best, o: Options): Best {
    Best(true,
         if !b.found || o.minInterval < b.options.minInterval then o else b.options,
         if b.powerMode == POWER_MODE_INVALID || o.powerMode < b.powerMode then o.powerMode else b.powerMode)
  }

  /** One pass over the sessions, leaving out `skip`. */
  function Scan(sessions: Sessions, skip: Option<int>, b: Best): Best {
    if sessions == [] then b
    else Scan(sessions[1..], skip, if skip == Some(sessions[0].key) then b else Better(b, sessions[0].value))
  }

  function Merge(b: Best, o: Options): Option<Request> {
    if o.minInterval < b.options.minInterval || o.powerMode < b.powerMode then
      Some(StartFix(if o.minInterval < b.options.minInterval then o.minInterval else b.options.minInterval,
                    if o.powerMode < b.powerMode then o.powerMode else b.options.powerMode))
    else None
  }

  function StartMultiplex(sessions: Sessions, o: Options): Option<Request> {
    if sessions == [] then Some(StartFix(o.minInterval, o.powerMode))
    else Merge(Scan(sessions, None, NOTHING), o)
  }

  function UpdateMultiplex(sessions: Sessions, key: int, o: Options): Option<Request>
    requires Has(sessions, key)
  {
    var previous := At(sessions, key);
    if previous.minInterval == o.minInterval && previous.powerMode == o.powerMode then None
    else if |sessions| == 1 then Some(StartFix(o.minInterval, o.powerMode))
    else Merge(Scan(sessions, Some(key), NOTHING), o)
  }

  function StopMultiplex(sessions: Sessions, key: int): Option<Request>
    requires Has(sessions, key)
  {
    var b := Scan(sessions, Some(key), NOTHING);
    var o := At(sessions, key);
    if |sessions| == 1 then Some(StopFix)
    else if o.minInterval < b.options.minInterval || o.powerMode < b.powerMode
    then Some(StartFix(b.options.minInterval, b.powerMode))
    else None
  }

  /** The options with the highest power, for the restart after a modem crash. */
  function HighestPower(sessions: Sessions, found: bool, power: nat): nat {
    if sessions == [] then power
    else
      var p := sessions[0].value.powerMode;
      HighestPower(sessions[1..], true, if !found || (p != POWER_MODE_INVALID && p < power) then p else power)
  }

  // ----- commands --------------------------------------------------------------------------

  /** What the modem runs after it answered a request. */
  function Answered(running: Option<nat>, request: Option<Request>, accepted: bool): Option<nat> {
    match request
    case Some(StartFix(interval, _)) => if accepted then Some(interval) else running
    case Some(StopFix) => if accepted then None else running
    case None => running
  }

  predicate Refused(request: Option<Request>, accepted: bool) {
    request.Some? && request.value.StartFix? && !accepted
  }

  /** Start as a time-based session: multiplex, save, and erase again if the modem refuses. */
  function Admit(t: Tracker, key: int, o: Options, accepted: bool): Outcome {
    var request := StartMultiplex(t.timeBased, o);
    var saved := Save(t.(running := Answered(t.running, request, accepted)), key, o);
    Outcome(if Refused(request, accepted) then EraseSession(saved, key) else saved, request)
  }

  /** End a time-based session and save `next`, if any, in its place; a refused request
      erases the session of this key once more. */
  function Retire(t: Tracker, key: int, next: Option<Options>, accepted: bool): Outcome
    requires Has(t.timeBased, key)
  {
    var request := StopMultiplex(t.timeBased, key);
    var erased := EraseSession(t, key).(running := Answered(t.running, request, accepted));
    var saved := if next.Some? then Save(erased, key, next.value) else erased;
    Outcome(if Refused(request, accepted) then EraseSession(saved, key) else saved, request)
  }

  function Revise(t: Tracker, key: int, o: Options, accepted: bool): Outcome
    requires Has(t.timeBased, key)
  {
    var previous := At(t.timeBased, key);
    var request := UpdateMultiplex(t.timeBased, key, o);
    var saved := Save(t.(running := Answered(t.running, request, accepted)), key, o);
    Outcome(if Refused(request, accepted) then Save(saved, key, previous) else saved, request)
  }

  function Next(t: Tracker, c: Command): Outcome {
    match c
    case StartTracking(key, options, welcome, accepted, distanceAccepted) =>
      var o := AtLeastMinimum(options);
      if !welcome then Outcome(t, None)
      else if o.minDistance > 0 && t.distanceSupported then
        var saved := Save(t, key, o);
        Outcome(if distanceAccepted then saved else EraseSession(saved, key), None)
      else Admit(t, key, FallBack(o), accepted)
    case UpdateTracking(key, options, welcome, accepted, distanceAccepted) =>
      var o := AtLeastMinimum(FallBack(options));
      if !welcome || !(Has(t.timeBased, key) || Has(t.distanceBased, key)) then Outcome(t, None)
      else if Has(t.timeBased, key) && o.minDistance > 0 then Retire(t, key, Some(o), accepted)
      else if Has(t.distanceBased, key) && o.minDistance == 0 then Admit(EraseSession(t, key), key, o, accepted)
      else if Has(t.timeBased, key) then Revise(t, key, o, accepted)
      else Outcome(if distanceAccepted then Save(t, key, o) else t, None)
    case StopTracking(key, accepted, distanceAccepted) =>
      if Has(t.timeBased, key) then Retire(t, key, None, accepted)
      else if Has(t.distanceBased, key) && distanceAccepted then Outcome(EraseSession(t, key), None)
      else Outcome(t, None)
    case EngineRestart =>
      if t.timeBased == [] then Outcome(t.(running := None), None)
      else
        var interval := Scan(t.timeBased, None, NOTHING).options.minInterval;
        Outcome(t.(running := Some(interval)), Some(StartFix(interval, HighestPower(t.timeBased, false, 0))))
  }

  // ----- the class ----------------------------------------------------------------------------

  class GnssTracking {
    const distanceSupported: bool
    var timeBasedTrackingSessions: Sessions
    var distanceBasedTrackingSessions: Sessions
    var running: Option<nat>
    var requests: seq<Request>

    ghost function View(): Tracker reads this {
      Tracker(distanceSupported, timeBasedTrackingSessions, distanceBasedTrackingSessions, running)
    }

    twostate predicate Did(o: Outcome) reads this {
      View() == o.tracker && requests == old(requests) + if o.request.Some? then [o.request.value] else []
    }

    constructor (distanceSupported: bool)
      ensures View() == Tracker(distanceSupported, [], [], None) && requests == []
    {
      this.distanceSupported := distanceSupported;
      timeBasedTrackingSessions, distanceBasedTrackingSessions, running, requests := [], [], None, [];
    }

    method SaveTrackingSession(key: int, options: Options)
      modifies this`timeBasedTrackingSessions, this`distanceBasedTrackingSessions
      ensures View() == Save(old(View()), key, options)
    {
      if options.minDistance > 0 && distanceSupported {
        distanceBasedTrackingSessions := Put(distanceBasedTrackingSessions, key, options);
      } else {
        timeBasedTrackingSessions := Put(timeBasedTrackingSessions, key, options);
      }
    }

    method EraseTrackingSession(key: int)
      modifies this`timeBasedTrackingSessions, this`distanceBasedTrackingSessions
      ensures View() == EraseSession(old(View()), key)
    {
      if Has(timeBasedTrackingSessions, key) {
        timeBasedTrackingSessions := Erase(timeBasedTrackingSessions, key);
      } else {
        distanceBasedTrackingSessions := Erase(distanceBasedTrackingSessions, key);
      }
    }

    method FindBest(skip: Option<int>) returns (b: Best)
      ensures b == Scan(timeBasedTrackingSessions, skip, NOTHING)
    {
      b := NOTHING;
      for i := 0 to |timeBasedTrackingSessions|
        invariant Scan(timeBasedTrackingSessions[i..], skip, b) == Scan(timeBasedTrackingSessions, skip, NOTHING)
      {
        var e := timeBasedTrackingSessions[i];
        assert timeBasedTrackingSessions[i..][1..] == timeBasedTrackingSessions[i + 1..];
        if skip != Some(e.key) {
          var options, power := b.options, b.powerMode;
          if !b.found || e.value.minInterval < options.minInterval {
            options := e.value;
          }
          if power == POWER_MODE_INVALID || e.value.powerMode < power {
            power := e.value.powerMode;
          }
          b := Best(true, options, power);
        }
      }
    }

    /** The modem takes the request and, if it accepts it, acts on it. */
    method Ask(request: Request, accepted: bool)
      modifies this`requests, this`running
      ensures requests == old(requests) + [request]
      ensures running == Answered(old(running), Some(request), accepted)
    {
      requests := requests + [request];
      if accepted {
        running := match request case StartFix(interval, _) => Some(interval) case StopFix => None;
      }
    }

    method StartTimeBasedTrackingMultiplex(o: Options, accepted: bool) returns (refused: bool)
      modifies this`requests, this`running
      ensures var request := StartMultiplex(timeBasedTrackingSessions, o);
        running == Answered(old(running), request, accepted) && refused == Refused(request, accepted)
        && requests == old(requests) + if request.Some? then [request.value] else []
    {
      refused := false;
      if |timeBasedTrackingSessions| == 0 {
        Ask(StartFix(o.minInterval, o.powerMode), accepted);
        refused := !accepted;
      } else {
        var b := FindBest(None);
        refused := AskMerged(b, o, accepted);
      }
    }

    /** Asks for the multiplexed options lowered by `o`, if `o` lowers them. */
    method AskMerged(b: Best, o: Options, accepted: bool) returns (refused: bool)
      modifies this`requests, this`running
      ensures var request := Merge(b, o);
        running == Answered(old(running), request, accepted) && refused == Refused(request, accepted)
        && requests == old(requests) + if request.Some? then [request.value] else []
    {
      var options, updateOptions := b.options, false;
      if o.minInterval < options.minInterval {
        options := options.(minInterval := o.minInterval);
        updateOptions := true;
      }
      if o.powerMode < b.powerMode {
        options := options.(powerMode := o.powerMode);
        updateOptions := true;
      }
      if updateOptions {
        Ask(StartFix(options.minInterval, options.powerMode), accepted);
      }
      refused := updateOptions && !accepted;
    }

    method UpdateTrackingMultiplex(key: int, o: Options, accepted: bool) returns (refused: bool)
      requires Has(timeBasedTrackingSessions, key)
      modifies this`requests, this`running
      ensures var request := UpdateMultiplex(timeBasedTrackingSessions, key, o);
        running == Answered(old(running), request, accepted) && refused == Refused(request, accepted)
        && requests == old(requests) + if request.Some? then [request.value] else []
    {
      refused := false;
      var previous := At(timeBasedTrackingSessions, key);
      if previous.minInterval != o.minInterval || previous.powerMode != o.powerMode {
        if |timeBasedTrackingSessions| == 1 {
          Ask(StartFix(o.minInterval, o.powerMode), accepted);
          refused := !accepted;
        } else {
          var b := FindBest(Some(key));
          refused := AskMerged(b, o, accepted);
        }
      }
    }

    method StopTimeBasedTrackingMultiplex(key: int, accepted: bool) returns (refused: bool)
      requires Has(timeBasedTrackingSessions, key)
      modifies this`requests, this`running
      ensures var request := StopMultiplex(timeBasedTrackingSessions, key);
        running == Answered(old(running), request, accepted) && refused == Refused(request, accepted)
        && requests == old(requests) + if request.Some? then [request.value] else []
    {
      refused := false;
      if |timeBasedTrackingSessions| == 1 {
        Ask(StopFix, accepted);
      } else {
        var b := FindBest(Some(key));
        var o := At(timeBasedTrackingSessions, key);
        if o.minInterval < b.options.minInterval || o.powerMode < b.powerMode {
          Ask(StartFix(b.options.minInterval, b.powerMode), accepted);
          refused := !accepted;
        }
      }
    }

    /** Multiplexes, saves and, once the modem has refused, erases. */
    method AdmitSession(key: int, o: Options, accepted: bool)
      modifies this
      ensures Did(Admit(old(View()), key, o, accepted))
    {
      var refused := StartTimeBasedTrackingMultiplex(o, accepted);
      SaveTrackingSession(key, o);
      if refused {
        EraseTrackingSession(key);
      }
    }

    /** Stops a time-based session, saves what replaces it, and handles a refusal. */
    method RetireSession(key: int, next: Option<Options>, accepted: bool)
      requires Has(timeBasedTrackingSessions, key)
      modifies this
      ensures Did(Retire(old(View()), key, next, accepted))
    {
      var refused := StopTimeBasedTrackingMultiplex(key, accepted);
      EraseTrackingSession(key);
      if next.Some? {
        SaveTrackingSession(key, next.value);
      }
      if refused {
        EraseTrackingSession(key);
      }
    }

    /** Updates a time-based session and puts the old options back if the modem refuses. */
    method ReviseSession(key: int, o: Options, accepted: bool)
      requires Has(timeBasedTrackingSessions, key)
      modifies this
      ensures Did(Revise(old(View()), key, o, accepted))
    {
      var previous := At(timeBasedTrackingSessions, key);
      var refused := UpdateTrackingMultiplex(key, o, accepted);
      SaveTrackingSession(key, o);
      if refused {
        SaveTrackingSession(key, previous);
      }
    }

    method StartTrackingCommand(key: int, options: Options, welcome: bool, accepted: bool, distanceAccepted: bool)
      modifies this
      ensures Did(Next(old(View()), StartTracking(key, options, welcome, accepted, distanceAccepted)))
    {
      if !welcome {
        return;
      }
      var o := options;
      if o.minInterval < MIN_TRACKING_INTERVAL {
        o := o.(minInterval := MIN_TRACKING_INTERVAL);
      }
      if o.minDistance > 0 && distanceSupported {
        SaveTrackingSession(key, o);
        if !distanceAccepted {
          EraseTrackingSession(key);
        }
      } else {
        if o.powerMode == POWER_MODE_M4 && o.tbm > TBM_THRESHOLD_MILLIS {
          o := o.(powerMode := POWER_MODE_M2);
        }
        AdmitSession(key, o, accepted);
      }
    }

    method UpdateTrackingOptionsCommand(key: int, options: Options, welcome: bool, accepted: bool,
                                        distanceAccepted: bool)
      modifies this
      ensures Did(Next(old(View()), UpdateTracking(key, options, welcome, accepted, distanceAccepted)))
    {
      var isTimeBased := Has(timeBasedTrackingSessions, key);
      var isDistanceBased := Has(distanceBasedTrackingSessions, key);
      if !welcome || (!isTimeBased && !isDistanceBased) {
        return;
      }
      var o := options;
      if o.powerMode == POWER_MODE_M4 && o.tbm > TBM_THRESHOLD_MILLIS {
        o := o.(powerMode := POWER_MODE_M2);
      }
      if o.minInterval < MIN_TRACKING_INTERVAL {
        o := o.(minInterval := MIN_TRACKING_INTERVAL);
      }
      if isTimeBased && o.minDistance > 0 {
        RetireSession(key, Some(o), accepted);
      } else if isDistanceBased && o.minDistance == 0 {
        EraseTrackingSession(key);
        AdmitSession(key, o, accepted);
      } else if isTimeBased {
        ReviseSession(key, o, accepted);
      } else if distanceAccepted {
        SaveTrackingSession(key, o);
      }
    }

    method StopTrackingCommand(key: int, accepted: bool, distanceAccepted: bool)
      modifies this
      ensures Did(Next(old(View()), StopTracking(key, accepted, distanceAccepted)))
    {
      if Has(timeBasedTrackingSessions, key) {
        RetireSession(key, None, accepted);
      } else if Has(distanceBasedTrackingSessions, key) && distanceAccepted {
        EraseTrackingSession(key);
      }
    }

    /** After a modem restart nothing runs until the smallest interval is asked for again; every
        distance-based session is started again on its own. */
    method RestartSessions() returns (distanceStarts: Sessions)
      modifies this
      ensures Did(Next(old(View()), EngineRestart))
      ensures distanceStarts == old(distanceBasedTrackingSessions)
    {
      running := None;
      if |timeBasedTrackingSessions| > 0 {
        var b := FindBest(None);
        var power := FindHighestPower();
        Ask(StartFix(b.options.minInterval, power), true);
      }
      distanceStarts := [];
      for i := 0 to |distanceBasedTrackingSessions|
        invariant distanceStarts == distanceBasedTrackingSessions[..i]
      {
        distanceStarts := distanceStarts + [distanceBasedTrackingSessions[i]];
      }
    }

    method FindHighestPower() returns (power: nat)
      ensures power == HighestPower(timeBasedTrackingSessions, false, 0)
    {
      power := 0;
      for i := 0 to |timeBasedTrackingSessions|
        invariant HighestPower(timeBasedTrackingSessions[i..], i > 0, power)
          == HighestPower(timeBasedTrackingSessions, false, 0)
      {
        var p := timeBasedTrackingSessions[i].value.powerMode;
        assert timeBasedTrackingSessions[i..][1..] == timeBasedTrackingSessions[i + 1..];
        if i == 0 || (p != POWER_MODE_INVALID && p < power) {
          power := p;
        }
      }
    }
  }
}
