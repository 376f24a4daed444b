/** On-demand coarse position injection: a timer keeps requests to the framework apart. */
module Odcpi {

  datatype State = State(hasCallback: bool, requestActive: bool, timerActive: bool, emergency: bool)

  datatype Event = Init | StartRequest(emergency: bool) | StopRequest | TimerExpired | EngineUp

  datatype Result = Result(state: State, callbacks: nat)

  const INITIAL := State(false, false, false, false)

  /** The stored request is replaced by an emergency one. */
  predicate Upgrades(s: State, e: Event) {
    s.hasCallback && e == StartRequest(true) && !s.emergency && (s.requestActive || s.timerActive)
  }

  function Next(s: State, e: Event): Result {
    match e
    case Init => Result(s.(hasCallback := true), 0)
    case StartRequest(emergency) =>
      if !s.hasCallback then Result(s, 0)
      else if (!s.requestActive && !s.timerActive) || (!s.emergency && emergency) then
        Result(State(true, true, true, emergency), 1)
      else
        Result(s.(requestActive := s.requestActive || s.timerActive, emergency := emergency), 0)
    case StopRequest => Result(if s.hasCallback then s.(requestActive := false) else s, 0)
    case TimerExpired =>
      if s.requestActive then Result(s.(timerActive := true), 1) else Result(s.(timerActive := false), 0)
    case EngineUp => Result(s.(requestActive := false), 0)
  }

  function Run(s: State, es: seq<Event>): State {
    if es == [] then s else Next(Run(s, es[..|es| - 1]), es[|es| - 1]).state
  }

  function Callbacks(s: State, es: seq<Event>): nat {
    if es == [] then 0 else Callbacks(s, es[..|es| - 1]) + Next(Run(s, es[..|es| - 1]), es[|es| - 1]).callbacks
  }

  function Expiries(es: seq<Event>): nat {
    if es == [] then 0 else Expiries(es[..|es| - 1]) + (if es[|es| - 1] == TimerExpired then 1 else 0)
  }

  function UpgradeCount(s: State, es: seq<Event>): nat {
    if es == [] then 0
    else UpgradeCount(s, es[..|es| - 1]) + (if Upgrades(Run(s, es[..|es| - 1]), es[|es| - 1]) then 1 else 0)
  }

  /** A pending request always has a timer that will look at it. */
  predicate Watched(s: State) { s.requestActive ==> s.timerActive }

  function Credit(s: State): nat { if s.timerActive then 1 else 0 }

  /** Over any stretch of any run: every callback is paid for by a handled expiry, an upgrade,
      or the timer it has newly started. */
  lemma {:induction false} Throttled(s: State, es: seq<Event>)
    requires Watched(s)
    ensures Watched(Run(s, es))
    ensures Callbacks(s, es) + Credit(s) <= Expiries(es) + UpgradeCount(s, es) + Credit(Run(s, es))
  {
    if es != [] {
      Throttled(s, es[..|es| - 1]);
    }
  }

  /** From the start, modem restarts included: at most one callback more than handled expiries
      and emergency upgrades, and an active request implies an active timer. */
  lemma AtMostOneFreeCallback(es: seq<Event>)
    ensures Watched(Run(INITIAL, es))
    ensures Callbacks(INITIAL, es) <= 1 + Expiries(es) + UpgradeCount(INITIAL, es)
  {
    Throttled(INITIAL, es);
  }

  /** The lower bound beside the throttling: over any stretch without a stop or a modem restart, a
      wanted request stays wanted and is asked for again at every handled expiry and for every
      upgrade, and at no other time. */
  lemma {:induction false} WantedRequestRepeats(s: State, es: seq<Event>)
    requires Watched(s) && s.requestActive
    requires StopRequest !in es && EngineUp !in es
    ensures Run(s, es).requestActive && Watched(Run(s, es))
    ensures Callbacks(s, es) == Expiries(es) + UpgradeCount(s, es)
  {
    if es != [] {
      WantedRequestRepeats(s, es[..|es| - 1]);
      assert es[|es| - 1] in es;
    }
  }

  /** Between two handled expiries a stopped and restarted request costs nothing. */
  lemma StopAndStartIsFree(s: State, es: seq<Event>)
    requires Watched(s) && Run(s, es).requestActive && Run(s, es).hasCallback
    ensures var again := es + [StopRequest, StartRequest(Run(s, es).emergency)];
      Callbacks(s, again) == Callbacks(s, es) && Run(s, again) == Run(s, es)
  {
    Throttled(s, es);
    var stop := es + [StopRequest];
    var again := es + [StopRequest, StartRequest(Run(s, es).emergency)];
    assert again[..|again| - 1] == stop && stop[..|es|] == es;
  }

  class OdcpiTimer {
    var active: bool

    constructor ()
      ensures !active
    {
      active := false;
    }

    method Start()
      modifies this
      ensures active
    {
      active := true;
    }

    method Stop()
      modifies this
      ensures !active
    {
      active := false;
    }

    method Restart()
      modifies this
      ensures active
    {
      Stop();
      Start();
    }
  }

  class OdcpiControl {
    var hasCallback: bool
    var requestActive: bool
    const timer: OdcpiTimer
    var lastIsEmergency: bool
    /** The emergency flag of every request passed to the framework. */
    var calls: seq<bool>

    ghost function View(): State reads this, timer {
      State(hasCallback, requestActive, timer.active, lastIsEmergency)
    }

    /** The step was taken, and each callback carried the request now stored. */
    twostate predicate Did(e: Event) reads this, timer {
      var r := Next(old(View()), e);
      View() == r.state
      && calls == old(calls) + if r.callbacks == 1 then [lastIsEmergency] else []
    }

    constructor ()
      ensures View() == INITIAL && calls == [] && fresh(timer)
    {
      timer := new OdcpiTimer();
      hasCallback, requestActive, lastIsEmergency, calls := false, false, false, [];
    }

    method InitOdcpi()
      modifies this
      ensures Did(Init)
    {
      hasCallback := true;
    }

    method RequestOdcpi(start: bool, emergency: bool)
      modifies this, timer
      ensures Did(if start then StartRequest(emergency) else StopRequest)
    {
      if !hasCallback {
        return;
      }
      if start {
        if !requestActive && !timer.active {
          calls := calls + [emergency];
          requestActive := true;
          timer.Start();
        } else if !lastIsEmergency && emergency {
          calls := calls + [emergency];
          requestActive := true;
          if timer.active {
            timer.Restart();
          } else {
            timer.Start();
          }
        } else if !requestActive && timer.active {
          requestActive := true;
        }
        lastIsEmergency := emergency;
      } else {
        requestActive := false;
      }
    }

    method OdcpiTimerExpire()
      modifies this, timer
      ensures Did(TimerExpired)
    {
      if requestActive {
        calls := calls + [lastIsEmergency];
        timer.Restart();
      } else {
        timer.Stop();
      }
    }

    /** The part of `restartSessions` that concerns these requests. */
    method RestartSessions()
      modifies this
      ensures Did(EngineUp)
    {
      requestActive := false;
    }
  }
}
