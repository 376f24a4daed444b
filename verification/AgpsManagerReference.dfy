/** A reference for the AGPS manager: two references, and for every request and report the one that is
    concerned, by type and handle. */
module AgpsManagerReference {
  import opened Basics
  import opened Agps
  import opened AgpsRuns
  import opened AgpsManagement
  import opened AgpsReference

  /** A reference that was never created is `None`. */
  datatype RefManager = RefManager(agnss: Option<Ref>, internet: Option<Ref>)

  predicate ForInternet(agpsType: AgpsType) { agpsType == WwanAny || agpsType == Other }

  predicate HasMember(r: Option<Ref>, handle: int) { r.Some? && handle in r.value.members }

  function Leave(r: Ref, handle: int): Event
    requires handle in r.members
  {
    Unsubscribe(Subscriber(handle, r.members[handle].waits, r.members[handle].leaving))
  }

  /** What the machine for SUPL (`internet` false) or for other connections is told, if anything. */
  function Told(s: RefManager, e: ManagerEvent, internet: bool): Option<Event> {
    var r := if internet then s.internet else s.agnss;
    if r.None? then None
    else match e
      case RequestAtl(handle, t) => if ForInternet(t) == internet then Some(Subscribe(handle, false)) else None
      case ReleaseAtl(handle) =>
        if HasMember(r, handle) && !(internet && HasMember(s.agnss, handle)) then Some(Leave(r.value, handle)) else None
      case OpenSucceeded(t) => if ForInternet(t) == internet then Some(OnGranted) else None
      case OpenFailed(t) => if ForInternet(t) == internet then Some(OnDenied) else None
      case ConnectionClosed(t) => if ForInternet(t) == internet then Some(OnReleased) else None
      case Ssr => Some(ModemRestart)
  }

  function After(r: Option<Ref>, told: Option<Event>): Option<Ref> {
    if r.Some? && told.Some? then Some(RefNext(r.value, told.value)) else r
  }

  function RefManagerRun(agnss: bool, internet: bool, es: seq<ManagerEvent>): RefManager {
    if es == [] then
      var released := Ref(Released, map[]);
      RefManager(if agnss then Some(released) else None, if internet then Some(released) else None)
    else
      var s, e := RefManagerRun(agnss, internet, es[..|es| - 1]), es[|es| - 1];
      RefManager(After(s.agnss, Told(s, e, false)), After(s.internet, Told(s, e, true)))
  }

  predicate MirrorsOne(m: Option<Machine>, r: Option<Ref>) {
    m.Some? == r.Some? && (m.Some? ==> Mirrors(m.value, r.value))
  }

  predicate MirrorsBoth(s: Manager, r: RefManager) {
    MirrorsOne(s.agnss, r.agnss) && MirrorsOne(s.internet, r.internet)
  }

  lemma MirrorsHolds(m: Option<Machine>, r: Option<Ref>, handle: int)
    requires MirrorsOne(m, r)
    ensures Holds(m, handle) <==> HasMember(r, handle)
    ensures Holds(m, handle) ==> Unsubscribe(Entry(m.value.subs, handle)) == Leave(r.value, handle)
  {
    if m.Some? {
      ListedMember(m.value.subs, handle);
    }
  }

  /** Each machine is told what the reference says. */
  lemma ToldIs(s: Manager, r: RefManager, e: ManagerEvent, internet: bool)
    requires MirrorsBoth(s, r)
    ensures var told := Told(r, e, internet);
      EventsFor(s, e, if internet then Internet else Agnss) == if told.Some? then [told.value] else []
  {
    if e.ReleaseAtl? {
      MirrorsHolds(s.agnss, r.agnss, e.handle);
      MirrorsHolds(s.internet, r.internet, e.handle);
    }
  }

  lemma DeliverMirrors(m: Option<Machine>, r: Option<Ref>, told: Option<Event>)
    requires MirrorsOne(m, r)
    ensures MirrorsOne(Deliver(m, if told.Some? then [told.value] else []), After(r, told))
  {
    if m.Some? && told.Some? {
      StepMirrors(m.value, told.value, r.value);
    }
  }

  /** Over every run of the manager both machines mirror their references. */
  lemma {:induction false} ManagerMirrors(agnss: bool, internet: bool, es: seq<ManagerEvent>)
    ensures MirrorsBoth(ManagerRun(agnss, internet, es), RefManagerRun(agnss, internet, es))
  {
    if es != [] {
      var before, e := es[..|es| - 1], es[|es| - 1];
      var s, r := ManagerRun(agnss, internet, before), RefManagerRun(agnss, internet, before);
      ManagerMirrors(agnss, internet, before);
      ToldIs(s, r, e, false);
      ToldIs(s, r, e, true);
      DeliverMirrors(s.agnss, r.agnss, Told(r, e, false));
      DeliverMirrors(s.internet, r.internet, Told(r, e, true));
    }
  }

  /** In every run of the manager, for every request and report: each handle, and the framework, hear
      of each machine exactly what the reference says. */
  lemma ManagerHears(agnss: bool, internet: bool, es: seq<ManagerEvent>, e: ManagerEvent, nif: Nif, handle: int)
    ensures var s, r := ManagerRun(agnss, internet, es), RefManagerRun(agnss, internet, es);
      var told, one := Told(r, e, nif == Internet), if nif == Internet then r.internet else r.agnss;
      var outputs := OutputsFor(s, e, nif);
      (told.None? ==> outputs == [])
      && (told.Some? ==>
            one.Some? && HeardBy(outputs, handle) == Hears(one.value, told.value, handle)
            && HeardByFramework(outputs) == FrameworkHears(one.value, told.value))
  {
    var s, r := ManagerRun(agnss, internet, es), RefManagerRun(agnss, internet, es);
    ManagerMirrors(agnss, internet, es);
    ToldIs(s, r, e, nif == Internet);
    var told := Told(r, e, nif == Internet);
    if told.Some? {
      MachineOfManagerRun(agnss, internet, es, nif);
      RunInv(Seen(agnss, internet, es, nif));
      StepHeard(s.Get(nif).value, told.value, (if nif == Internet then r.internet else r.agnss).value, handle);
    }
  }
}
