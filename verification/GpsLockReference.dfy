/** The GPS lock told from its history: bit by bit what is stored, and what the modem was last told. */
module GpsLockReference {
  import opened Basics
  import opened GpsLock

  /** The control session that is open; 0 if there is none. */
  function Session(es: seq<Event>): nat {
    if es == [] then 0
    else
      var open := Session(es[..|es| - 1]);
      match es[|es| - 1]
      case Enable(isGnss, sessionId) => if isGnss && open == 0 then sessionId else open
      case Disable(id) => if open == id then 0 else open
      case _ => open
  }

  /** NFW control was withdrawn by a new configuration. */
  predicate Withdrawn(es: seq<Event>) { exists i :: 0 <= i < |es| && es[i].UpdateConfig? }

  /** The event opens, or closes, the control session. */
  predicate Opens(es: seq<Event>, e: Event) { e.Enable? && e.isGnss && Session(es) == 0 }

  predicate Closes(es: seq<Event>, e: Event) { e.Disable? && e.id == Session(es) }

  /** MO is cleared where a session opens under NFW control, and set where it closes and by every new
      configuration. */
  function Mo(lock: Lock, es: seq<Event>): bool {
    if es == [] then lock.mo
    else
      var before, e := es[..|es| - 1], es[|es| - 1];
      if e.UpdateConfig? then true
      else if Opens(before, e) && !Withdrawn(before) then false
      else if Closes(before, e) && !Withdrawn(before) then true
      else Mo(lock, before)
  }

  /** NI follows the last NFW control that was carried out, or the configuration since. */
  function Ni(lock: Lock, es: seq<Event>): bool {
    if es == [] then lock.ni
    else
      var before := es[..|es| - 1];
      match es[|es| - 1]
      case NfwControl(enable) => if Withdrawn(before) then Ni(lock, before) else !enable
      case NfwMessage(enable) => !enable
      case UpdateConfig(requested) => requested.ni
      case _ => Ni(lock, before)
  }

  /** The nameless bits are cleared where a session opens under NFW control. */
  function Rest(lock: Lock, es: seq<Event>): nat {
    if es == [] then lock.rest
    else
      var before, e := es[..|es| - 1], es[|es| - 1];
      if e.UpdateConfig? then e.lock.rest
      else if Opens(before, e) && !Withdrawn(before) then 0
      else Rest(lock, before)
  }

  function Stored(lock: Lock, es: seq<Event>): Lock { Lock(Mo(lock, es), Ni(lock, es), Rest(lock, es)) }

  /** Something is written to the modem. */
  predicate Speaks(es: seq<Event>, e: Event) {
    match e
    case Enable(_, _) => Opens(es, e)
    case Disable(_) => Closes(es, e)
    case NfwControl(_) => !Withdrawn(es)
    case NfwMessage(_) => true
    case UpdateConfig(_) => Session(es) == 0 || !Withdrawn(es)
    case EngineUp => true
  }

  /** What it is: nothing is locked while a session is open without NFW control, unless an NFW message
      comes late; otherwise the stored lock. */
  function Said(lock: Lock, es: seq<Event>, e: Event): Lock {
    var unlocked := match e
      case Enable(_, _) => Withdrawn(es)
      case UpdateConfig(_) => Session(es) != 0
      case EngineUp => Session(es) != 0 && Withdrawn(es)
      case _ => false;
    if unlocked then Lock(false, false, 0) else Stored(lock, es + [e])
  }

  /** What the modem was last told. */
  function Told(lock: Lock, es: seq<Event>): Option<Lock> {
    if es == [] then None
    else
      var before, e := es[..|es| - 1], es[|es| - 1];
      if Speaks(before, e) then Some(Said(lock, before, e)) else Told(lock, before)
  }

  lemma WithdrawnSnoc(es: seq<Event>)
    requires es != []
    ensures Withdrawn(es) <==> Withdrawn(es[..|es| - 1]) || es[|es| - 1].UpdateConfig?
  {
    if i :| 0 <= i < |es| - 1 && es[i].UpdateConfig? {
      assert es[..|es| - 1][i] == es[i];
    }
  }

  /** The state that the history tells. */
  function Recounted(lock: Lock, es: seq<Event>): State {
    State(Stored(lock, es), Session(es), !Withdrawn(es), Told(lock, es))
  }

  lemma SessionNext(s: State, es: seq<Event>)
    requires es != [] && s.controlId == Session(es[..|es| - 1])
    ensures Next(s, es[|es| - 1]).controlId == Session(es)
    ensures Next(s, es[|es| - 1]).nfwSupported == (s.nfwSupported && !es[|es| - 1].UpdateConfig?)
  {
  }

  lemma StoredNext(lock: Lock, es: seq<Event>)
    requires es != []
    ensures Next(Recounted(lock, es[..|es| - 1]), es[|es| - 1]).lock == Stored(lock, es)
  {
    var s' := Next(Recounted(lock, es[..|es| - 1]), es[|es| - 1]);
    assert s'.lock.mo == Mo(lock, es);
    assert s'.lock.ni == Ni(lock, es);
    assert s'.lock.rest == Rest(lock, es);
  }

  lemma ToldNext(lock: Lock, es: seq<Event>)
    requires es != [] && es[..|es| - 1] + [es[|es| - 1]] == es
    requires Withdrawn(es) <==> Withdrawn(es[..|es| - 1]) || es[|es| - 1].UpdateConfig?
    ensures Next(Recounted(lock, es[..|es| - 1]), es[|es| - 1]).modem == Told(lock, es)
  {
    StoredNext(lock, es);
  }

  /** Over every run, late messages included, the stored lock, the session and what the modem was last
      told are those of the history. */
  lemma {:induction false} RunIs(lock: Lock, es: seq<Event>)
    ensures Run(lock, es) == Recounted(lock, es)
  {
    if es != [] {
      RunIs(lock, es[..|es| - 1]);
      WithdrawnSnoc(es);
      assert es[..|es| - 1] + [es[|es| - 1]] == es;
      SessionNext(Run(lock, es[..|es| - 1]), es);
      StoredNext(lock, es);
      ToldNext(lock, es);
    }
  }

  /** After every run an event writes exactly when, and what, the history says. */
  lemma RunWrites(lock: Lock, es: seq<Event>, e: Event)
    ensures Writes(Run(lock, es), e) == if Speaks(es, e) then [Said(lock, es, e)] else []
  {
    RunIs(lock, es);
    RunIs(lock, es + [e]);
    assert (es + [e])[..|es + [e]| - 1] == es;
  }

  /** So on proper runs the modem has NI locked exactly if the last NFW control carried out, or the
      configuration since, locked it, and no session is open without NFW control. */
  lemma NetworkInitiatedIff(lock: Lock, es: seq<Event>)
    requires ProperRun(lock, es) && Told(lock, es).Some?
    ensures Told(lock, es).value.ni <==> Ni(lock, es) && !(Session(es) != 0 && Withdrawn(es))
    ensures Told(lock, es).value.mo <==> Mo(lock, es) && !(Session(es) != 0 && Withdrawn(es))
  {
    RunConsistent(lock, es);
    RunIs(lock, es);
  }
}
