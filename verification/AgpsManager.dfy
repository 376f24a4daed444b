/** `AgpsManager`: routes requests and framework reports to one of two state machines. */
module AgpsManagement {
  import opened Basics
  import opened Agps
  import opened AgpsRuns

  datatype AgpsType = Invalid | Supl | SuplEs | WwanAny | Other

  datatype Nif = Agnss | Internet

  /** A machine that was never created is `None`. */
  datatype Manager = Manager(agnss: Option<Machine>, internet: Option<Machine>) {
    function Get(nif: Nif): Option<Machine> { if nif == Agnss then agnss else internet }
  }

  datatype ManagerEvent =
    | RequestAtl(handle: int, agpsType: AgpsType)
    | ReleaseAtl(handle: int)
    | OpenSucceeded(agpsType: AgpsType)
    | OpenFailed(agpsType: AgpsType)
    | ConnectionClosed(agpsType: AgpsType)
    | Ssr

  function NifFor(agpsType: AgpsType): Nif {
    match agpsType
    case Invalid => Agnss
    case Supl => Agnss
    case SuplEs => Agnss
    case _ => Internet
  }

  /** The framework reports only on a machine that exists; the source does not test for it. */
  predicate Reportable(s: Manager, e: ManagerEvent) {
    match e
    case OpenSucceeded(t) => s.Get(NifFor(t)).Some?
    case OpenFailed(t) => s.Get(NifFor(t)).Some?
    case ConnectionClosed(t) => s.Get(NifFor(t)).Some?
    case _ => true
  }

  predicate Holds(m: Option<Machine>, handle: int) {
    m.Some? && Listed(m.value.subs, handle)
  }

  /** The machine that will serve a release: AGNSS first, then Internet. */
  function ReleaseNif(s: Manager, handle: int): Option<Nif> {
    if Holds(s.agnss, handle) then Some(Agnss)
    else if Holds(s.internet, handle) then Some(Internet)
    else None
  }

  /** The events (none or one) that one manager event sends to one machine. */
  function EventsFor(s: Manager, e: ManagerEvent, nif: Nif): seq<Event> {
    if s.Get(nif).None? then []
    else match e
      case RequestAtl(handle, t) => if NifFor(t) == nif then [Subscribe(handle, false)] else []
      case ReleaseAtl(handle) =>
        if ReleaseNif(s, handle) == Some(nif) then [Unsubscribe(Entry(s.Get(nif).value.subs, handle))] else []
      case OpenSucceeded(t) => if NifFor(t) == nif then [OnGranted] else []
      case OpenFailed(t) => if NifFor(t) == nif then [OnDenied] else []
      case ConnectionClosed(t) => if NifFor(t) == nif then [OnReleased] else []
      case Ssr => [ModemRestart]
  }

  function Deliver(m: Option<Machine>, es: seq<Event>): Option<Machine> {
    if m.None? || es == [] then m else Some(Step(m.value, es[0]).machine)
  }

  /** What one machine sends on account of one manager event. */
  function OutputsFor(s: Manager, e: ManagerEvent, nif: Nif): seq<Output> {
    var es := EventsFor(s, e, nif);
    if es == [] then [] else Step(s.Get(nif).value, es[0]).outputs
  }

  function ManagerStep(s: Manager, e: ManagerEvent): Manager {
    Manager(Deliver(s.agnss, EventsFor(s, e, Agnss)), Deliver(s.internet, EventsFor(s, e, Internet)))
  }

  function ManagerRun(agnss: bool, internet: bool, es: seq<ManagerEvent>): Manager {
    if es == [] then Manager(if agnss then Some(INITIAL) else None, if internet then Some(INITIAL) else None)
    else ManagerStep(ManagerRun(agnss, internet, es[..|es| - 1]), es[|es| - 1])
  }

  /** The events one machine sees in a run of the manager. */
  function Seen(agnss: bool, internet: bool, es: seq<ManagerEvent>, nif: Nif): seq<Event> {
    if es == [] then []
    else Seen(agnss, internet, es[..|es| - 1], nif)
         + EventsFor(ManagerRun(agnss, internet, es[..|es| - 1]), es[|es| - 1], nif)
  }

  /** Each machine of a manager run is a run of the state machine, so that everything proved
      of all machine runs holds of it. */
  lemma {:induction false} MachineOfManagerRun(agnss: bool, internet: bool, es: seq<ManagerEvent>, nif: Nif)
    ensures var m := ManagerRun(agnss, internet, es).Get(nif);
      if (if nif == Agnss then agnss else internet)
      then m == Some(Run(Seen(agnss, internet, es, nif)))
      else m == None
  {
    if es != [] {
      var before := es[..|es| - 1];
      MachineOfManagerRun(agnss, internet, before, nif);
      var more := EventsFor(ManagerRun(agnss, internet, before), es[|es| - 1], nif);
      var seen := Seen(agnss, internet, before, nif);
      if more != [] {
        assert more == [more[0]] && (seen + more)[..|seen|] == seen;
      } else {
        assert seen + more == seen;
      }
    }
  }

  /** Nobody is inactive and the connection is never in RELEASING. */
  predicate Plain(m: Machine) {
    m.state != Releasing && forall s :: s in m.subs ==> !s.inactive && !s.waitForClose
  }

  lemma StepPlain(m: Machine, e: Event)
    requires Inv(m) && Plain(m)
    requires e.Subscribe? ==> !e.waitForClose
    requires e.Unsubscribe? ==> e.current in m.subs
    ensures Plain(Step(m, e).machine)
  {
    KeptMembers(m.subs, Everyone);
    if e.Unsubscribe? {
      var left := Remove(m.subs, e.current.handle);
      OccursRemove(m.subs, e.current.handle, 0);
      if left != [] {
        ActiveMember(left, left[0]);
      }
    }
  }

  /** Driven through the manager no entry is ever inactive and RELEASING is unreachable:
      `requestATL` never asks to wait for the close. */
  lemma {:induction false} ManagerNeverReleasing(agnss: bool, internet: bool, es: seq<ManagerEvent>, nif: Nif)
    ensures var m := ManagerRun(agnss, internet, es).Get(nif); m.Some? ==> Plain(m.value)
  {
    if es != [] {
      var before := es[..|es| - 1];
      var s := ManagerRun(agnss, internet, before);
      ManagerNeverReleasing(agnss, internet, before, nif);
      MachineOfManagerRun(agnss, internet, before, nif);
      RunInv(Seen(agnss, internet, before, nif));
      var more := EventsFor(s, es[|es| - 1], nif);
      if more != [] {
        StepPlain(s.Get(nif).value, more[0]);
      }
    }
  }

  /** The manager asks the machine to end or to serve a dropped connection. */
  predicate ManagerPicksUp(state: ConnState, nif: Nif, e: ManagerEvent) {
    match e
    case RequestAtl(_, t) => NifFor(t) == nif
    case OpenFailed(t) => NifFor(t) == nif && state == Pending
    case ConnectionClosed(t) => NifFor(t) == nif && state == Acquired
    case _ => false
  }

  /** Once a modem restart has dropped the subscribers of a connection, no release through the
      manager can end it: only a new request takes it over, or the framework ends it. */
  lemma DroppedStaysIff(agnss: bool, internet: bool, es: seq<ManagerEvent>, nif: Nif, e: ManagerEvent)
    requires var m := ManagerRun(agnss, internet, es).Get(nif); m.Some? && Dropped(m.value)
    ensures var m, m' := ManagerRun(agnss, internet, es).Get(nif), ManagerRun(agnss, internet, es + [e]).Get(nif);
      m'.Some? && (Dropped(m'.value) <==> !ManagerPicksUp(m.value.state, nif, e))
      && (Busy(m'.value) <==> ManagerPicksUp(m.value.state, nif, e))
  {
    var s := ManagerRun(agnss, internet, es);
    assert (es + [e])[..|es|] == es;
    ManagerNeverReleasing(agnss, internet, es, nif);
    var more := EventsFor(s, e, nif);
    if more != [] {
      PickUpIff(s.Get(nif).value, more[0]);
    }
  }

  lemma SnocLedger(seen: seq<Event>, e: Event, handle: int)
    ensures AllStrays(seen + [e], handle) == AllStrays(seen, handle) + Bit(Strays(Run(seen), e, handle))
    ensures e != ModemRestart ==> AllDrops(seen + [e], handle) == AllDrops(seen, handle)
  {
    assert (seen + [e])[..|seen|] == seen;
  }

  /** The manager unsubscribes only listed handles, and drops only on a modem restart. */
  lemma ListedOnly(s: Manager, e: ManagerEvent, nif: Nif)
    requires EventsFor(s, e, nif) != []
    ensures var es := EventsFor(s, e, nif);
      es == [es[0]] && (e != Ssr ==> es[0] != ModemRestart)
      && (es[0].Unsubscribe? ==> Listed(s.Get(nif).value.subs, es[0].current.handle))
  {
  }

  lemma {:induction false} NoStrays(agnss: bool, internet: bool, es: seq<ManagerEvent>, nif: Nif, handle: int)
    ensures var seen := Seen(agnss, internet, es, nif);
      AllStrays(seen, handle) == 0 && (Ssr !in es ==> AllDrops(seen, handle) == 0)
  {
    if es != [] {
      var before := es[..|es| - 1];
      var seen := Seen(agnss, internet, before, nif);
      var more := EventsFor(ManagerRun(agnss, internet, before), es[|es| - 1], nif);
      NoStrays(agnss, internet, before, nif, handle);
      MachineOfManagerRun(agnss, internet, before, nif);
      if more == [] {
        assert seen + more == seen;
      } else {
        ListedOnly(ManagerRun(agnss, internet, before), es[|es| - 1], nif);
        SnocLedger(seen, more[0], handle);
      }
    }
  }

  /** Driven through the manager, modem restarts included, every time a subscriber joined is matched
      by exactly one open-failure or close, one restart drop, or its entry still being in the list;
      and without a modem restart nobody is dropped. */
  lemma ManagerLedger(agnss: bool, internet: bool, es: seq<ManagerEvent>, nif: Nif, handle: int)
    ensures var seen := Seen(agnss, internet, es, nif);
      AllJoins(seen, handle)
        == AllTerminals(seen, handle) + AllDrops(seen, handle) + Bit(Listed(Run(seen).subs, handle))
      && (Ssr !in es ==> AllDrops(seen, handle) == 0)
  {
    NoStrays(agnss, internet, es, nif, handle);
    TerminalLedger(Seen(agnss, internet, es, nif), handle);
  }

  class AgpsManager {
    var agnssNif: AgpsStateMachine?
    var internetNif: AgpsStateMachine?
    /** Callbacks the manager makes itself, when it has no machine for a request. */
    var outputs: seq<Output>

    ghost predicate Valid() reads this {
      agnssNif != null && internetNif != null ==> agnssNif != internetNif
    }

    ghost function View(): Manager
      reads this, agnssNif, internetNif
    {
      Manager(if agnssNif == null then None else Some(agnssNif.View()),
              if internetNif == null then None else Some(internetNif.View()))
    }

    ghost function Sent(nif: Nif): seq<Output>
      reads this, agnssNif, internetNif
    {
      var sm := if nif == Agnss then agnssNif else internetNif;
      if sm == null then [] else sm.outputs
    }

    /** Both machines took the step and sent what it sends. */
    twostate predicate Did(e: ManagerEvent)
      reads this, agnssNif, internetNif
    {
      View() == ManagerStep(old(View()), e)
      && Sent(Agnss) == old(Sent(Agnss)) + OutputsFor(old(View()), e, Agnss)
      && Sent(Internet) == old(Sent(Internet)) + OutputsFor(old(View()), e, Internet)
    }

    /** `createAgpsStateMachines`, given which interfaces the configuration provides. */
    constructor (agnss: bool, internet: bool)
      ensures Valid() && View() == ManagerRun(agnss, internet, []) && outputs == []
      ensures agnssNif != null ==> fresh(agnssNif)
      ensures internetNif != null ==> fresh(internetNif)
    {
      agnssNif, internetNif, outputs := null, null, [];
      new;
      if internet {
        internetNif := new AgpsStateMachine();
      }
      if agnss {
        agnssNif := new AgpsStateMachine();
      }
    }

    method GetAgpsStateMachine(agpsType: AgpsType) returns (sm: AgpsStateMachine?)
      ensures sm == if NifFor(agpsType) == Agnss then agnssNif else internetNif
    {
      match agpsType {
        case Invalid => sm := agnssNif;
        case Supl => sm := agnssNif;
        case SuplEs => sm := agnssNif;
        case WwanAny => sm := internetNif;
        case Other => sm := internetNif;
      }
    }

    method RequestATL(handle: int, agpsType: AgpsType)
      requires Valid()
      modifies this`outputs, agnssNif, internetNif
      ensures Valid() && Did(RequestAtl(handle, agpsType))
      ensures outputs == old(outputs)
        + if old(View()).Get(NifFor(agpsType)).None? then [AtlOpen(handle, false)] else []
    {
      var sm := GetAgpsStateMachine(agpsType);
      if sm == null {
        outputs := outputs + [AtlOpen(handle, false)];
        return;
      }
      sm.ProcessSubscribe(handle, false);
    }

    method ReleaseATL(handle: int)
      requires Valid()
      modifies agnssNif, internetNif
      ensures Valid() && Did(ReleaseAtl(handle))
    {
      var found, sub := false, Subscriber(handle, false, false);
      var sm: AgpsStateMachine? := null;
      if agnssNif != null {
        found, sub := agnssNif.GetSubscriber(handle);
        if found {
          sm := agnssNif;
        }
      }
      if sm == null && internetNif != null {
        found, sub := internetNif.GetSubscriber(handle);
        if found {
          sm := internetNif;
        }
      }
      if sm != null {
        sm.ProcessUnsubscribe(sub);
      }
    }

    method ReportAtlOpenSuccess(agpsType: AgpsType)
      requires Valid() && Reportable(View(), OpenSucceeded(agpsType))
      modifies agnssNif, internetNif
      ensures Valid() && Did(OpenSucceeded(agpsType))
    {
      var sm := GetAgpsStateMachine(agpsType);
      sm.ProcessGranted();
    }

    method ReportAtlOpenFailed(agpsType: AgpsType)
      requires Valid() && Reportable(View(), OpenFailed(agpsType))
      modifies agnssNif, internetNif
      ensures Valid() && Did(OpenFailed(agpsType))
    {
      var sm := GetAgpsStateMachine(agpsType);
      sm.ProcessDenied();
    }

    method ReportAtlClosed(agpsType: AgpsType)
      requires Valid() && Reportable(View(), ConnectionClosed(agpsType))
      modifies agnssNif, internetNif
      ensures Valid() && Did(ConnectionClosed(agpsType))
    {
      var sm := GetAgpsStateMachine(agpsType);
      sm.ProcessReleased();
    }

    method HandleModemSSR()
      requires Valid()
      modifies agnssNif, internetNif
      ensures Valid() && Did(Ssr)
    {
      if agnssNif != null {
        agnssNif.DropAllSubscribers();
      }
      if internetNif != null {
        internetNif.DropAllSubscribers();
      }
    }
  }
}
