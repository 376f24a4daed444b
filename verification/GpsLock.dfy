/** GPS-lock control: four commands and the modem restart write one lock value; what the
    restart injects must be what the modem was last told. */
module GpsLock {
  import opened Basics

  /** A lock mask: bit 0 locks mobile-originated use (MO), bit 1 network-initiated use (NI);
      `rest` is the value of all higher bits, which have no name. */
  datatype Lock = Lock(mo: bool, ni: bool, rest: nat)

  const LOCK_NONE := Lock(false, false, 0)

  /** `lock & NI` and `lock | MO` */
  function KeepNi(lock: Lock): Lock { Lock(false, lock.ni, 0) }

  function WithMo(lock: Lock): Lock { lock.(mo := true) }

  /** `lock` is GPS_LOCK of the configuration, `controlId` the open control session (0: none),
      `modem` the last value written to the modem. */
  datatype State = State(lock: Lock, controlId: nat, nfwSupported: bool, modem: Option<Lock>)

  datatype Event =
    | Enable(isGnss: bool, sessionId: nat)
    | Disable(id: nat)
    | NfwControl(enable: bool)      // the command: checked and carried out at once
    | NfwMessage(enable: bool)      // only the queued message, after the check
    | UpdateConfig(lock: Lock)
    | EngineUp

  function INITIAL(lock: Lock): State { State(lock, 0, true, None) }

  /** What `setConfig` injects after a modem restart. */
  function Injected(s: State): Lock {
    if s.nfwSupported || s.controlId == 0 then s.lock else LOCK_NONE
  }

  function SetNetworkInitiated(s: State, enable: bool): State {
    var lock := s.lock.(ni := !enable);
    s.(lock := lock, modem := Some(lock))
  }

  function Next(s: State, e: Event): State {
    match e
    case Enable(isGnss, sessionId) =>
      if !isGnss || s.controlId > 0 then s
      else
        var lock := if s.nfwSupported then KeepNi(s.lock) else s.lock;
        s.(lock := lock, controlId := sessionId, modem := Some(if s.nfwSupported then lock else LOCK_NONE))
    case Disable(id) =>
      if s.controlId != id then s
      else
        var lock := if s.nfwSupported then WithMo(s.lock) else s.lock;
        s.(lock := lock, controlId := 0, modem := Some(lock))
    case NfwControl(enable) => if s.nfwSupported then SetNetworkInitiated(s, enable) else s
    case NfwMessage(enable) => SetNetworkInitiated(s, enable)
    case UpdateConfig(requested) =>
      var lock := WithMo(requested);
      var modem :=
        if s.controlId == 0 then Some(lock)
        else if s.nfwSupported then Some(LOCK_NONE)
        else s.modem;
      s.(lock := lock, nfwSupported := false, modem := modem)
    case EngineUp => s.(modem := Some(Injected(s)))
  }

  /** The lock values one event writes to the modem. */
  function Writes(s: State, e: Event): seq<Lock> {
    var writes := match e
      case Enable(isGnss, _) => isGnss && s.controlId == 0
      case Disable(id) => s.controlId == id
      case NfwControl(_) => s.nfwSupported
      case NfwMessage(_) => true
      case UpdateConfig(_) => s.controlId == 0 || s.nfwSupported
      case EngineUp => true;
    if writes && Next(s, e).modem.Some? then [Next(s, e).modem.value] else []
  }

  function Run(lock: Lock, es: seq<Event>): State {
    if es == [] then INITIAL(lock) else Next(Run(lock, es[..|es| - 1]), es[|es| - 1])
  }

  /** Once the modem was told a lock, it is the one a restart would inject. */
  predicate Agrees(s: State) {
    s.modem.None? || s.modem.value == Injected(s)
  }

  /** Session ids are generated, and the generator never gives out 0. */
  predicate Proper(s: State, e: Event) {
    match e
    case Enable(_, sessionId) => sessionId > 0
    case NfwMessage(_) => s.nfwSupported || s.controlId == 0
    case _ => true
  }

  predicate ProperRun(lock: Lock, es: seq<Event>) {
    es == [] || (ProperRun(lock, es[..|es| - 1]) && Proper(Run(lock, es[..|es| - 1]), es[|es| - 1]))
  }

  /** Agreement, and what an open control session means for mobile-originated positioning. */
  predicate Consistent(s: State) {
    Agrees(s)
    && (s.controlId > 0 ==> s.modem.Some? && !s.modem.value.mo)
    && (!s.nfwSupported ==> s.lock.mo && s.modem.Some?)
  }

  lemma {:induction false} RunConsistent(lock: Lock, es: seq<Event>)
    requires ProperRun(lock, es)
    ensures Consistent(Run(lock, es))
  {
    if es != [] {
      RunConsistent(lock, es[..|es| - 1]);
      assert Consistent(Next(Run(lock, es[..|es| - 1]), es[|es| - 1]));
    }
  }

  /** Through any interleaving of commands and restarts a re-injection never changes the lock. */
  lemma RestartChangesNothing(lock: Lock, es: seq<Event>)
    requires ProperRun(lock, es) && Run(lock, es).modem.Some?
    ensures Next(Run(lock, es), EngineUp) == Run(lock, es)
  {
    RunConsistent(lock, es);
  }

  /** While a control session is open the modem may position for the phone itself; closing
      it, or updating the configuration with none open, locks that. */
  lemma SessionUnlocksMobileOriginated(lock: Lock, es: seq<Event>, e: Event)
    requires ProperRun(lock, es) && Proper(Run(lock, es), e)
    ensures var s := Next(Run(lock, es), e);
      (s.controlId > 0 ==> s.modem.Some? && !s.modem.value.mo)
      && (e == Disable(Run(lock, es).controlId) || (e.UpdateConfig? && s.controlId == 0) ==>
            s.modem.Some? && s.modem.value.mo)
  {
    RunConsistent(lock, es);
  }

  /** A queued NFW message that is carried out after the configuration took NFW control away
      breaks the agreement, exactly when a control session is open. */
  lemma LateNfwMessageIff(lock: Lock, es: seq<Event>, enable: bool)
    requires ProperRun(lock, es)
    ensures var s := Run(lock, es);
      Agrees(Next(s, NfwMessage(enable))) <==> s.nfwSupported || s.controlId == 0
  {
    RunConsistent(lock, es);
  }

  /** Every session id is a generated one. */
  predicate GeneratedIds(es: seq<Event>) {
    forall i :: 0 <= i < |es| && es[i].Enable? ==> es[i].sessionId > 0
  }

  /** The agreement held at every moment of the run. */
  predicate AlwaysAgrees(lock: Lock, es: seq<Event>) {
    Agrees(Run(lock, es)) && (es == [] || AlwaysAgrees(lock, es[..|es| - 1]))
  }

  /** So over whole runs late messages are the only thing that ever makes a restart change the
      lock: the agreement holds throughout exactly on the runs without one. */
  lemma {:induction false} AgreementIff(lock: Lock, es: seq<Event>)
    requires GeneratedIds(es)
    ensures AlwaysAgrees(lock, es) <==> ProperRun(lock, es)
  {
    if es != [] {
      var before, e := es[..|es| - 1], es[|es| - 1];
      AgreementIff(lock, before);
      if ProperRun(lock, before) {
        RunConsistent(lock, before);
        if ProperRun(lock, es) {
          RunConsistent(lock, es);
        } else {
          LateNfwMessageIff(lock, before, e.enable);
        }
      }
    }
  }

  /** A run in which that happens: the restart changes the lock from MO to NONE. */
  lemma LateNfwMessageDisagrees()
    ensures var both := Lock(true, true, 0);
      var s := Run(both, [Enable(true, 5), UpdateConfig(both), NfwMessage(true)]);
      s.modem == Some(Lock(true, false, 0)) && Next(s, EngineUp).modem == Some(LOCK_NONE)
  {
    var both := Lock(true, true, 0);
    var three := [Enable(true, 5), UpdateConfig(both), NfwMessage(true)];
    var two, one := [Enable(true, 5), UpdateConfig(both)], [Enable(true, 5)];
    assert three[..2] == two && two[..1] == one && one[..0] == [];
    assert Run(both, one) == Next(INITIAL(both), Enable(true, 5));
    assert Run(both, two) == Next(Run(both, one), UpdateConfig(both));
  }

  class LockControl {
    var gpsLock: Lock
    var afwControlId: nat
    var supportNfwControl: bool
    /** Every lock value written to the modem, oldest first. */
    var written: seq<Lock>

    ghost function View(): State reads this {
      State(gpsLock, afwControlId, supportNfwControl, if written == [] then None else Some(written[|written| - 1]))
    }

    twostate predicate Did(e: Event) reads this {
      View() == Next(old(View()), e) && written == old(written) + Writes(old(View()), e)
    }

    constructor (configured: Lock)
      ensures View() == INITIAL(configured)
    {
      gpsLock, afwControlId, supportNfwControl, written := configured, 0, true, [];
    }

    method SetGpsLock(lock: Lock)
      modifies this`written
      ensures written == old(written) + [lock]
    {
      written := written + [lock];
    }

    method EnableCommand(isGnss: bool, sessionId: nat)
      modifies this
      ensures Did(Enable(isGnss, sessionId))
    {
      if !isGnss || afwControlId > 0 {
        return;
      }
      afwControlId := sessionId;
      var lock := LOCK_NONE;
      if supportNfwControl {
        gpsLock := KeepNi(gpsLock);
        lock := gpsLock;
      }
      SetGpsLock(lock);
    }

    method DisableCommand(id: nat)
      modifies this
      ensures Did(Disable(id))
    {
      if afwControlId != id {
        return;
      }
      afwControlId := 0;
      if supportNfwControl {
        gpsLock := WithMo(gpsLock);
      }
      SetGpsLock(gpsLock);
    }

    method NfwControlCommand(enable: bool)
      modifies this
      ensures Did(Event.NfwControl(enable))
    {
      if supportNfwControl {
        ProcessNfwMessage(enable);
      }
    }

    method ProcessNfwMessage(enable: bool)
      modifies this
      ensures Did(NfwMessage(enable))
    {
      var lock := gpsLock;
      if enable {
        lock := lock.(ni := false);
      } else {
        lock := lock.(ni := true);
      }
      gpsLock := lock;
      SetGpsLock(lock);
    }

    method UpdateConfigCommand(requested: Lock)
      modifies this
      ensures Did(UpdateConfig(requested))
    {
      var lock, needEngineUpdate := WithMo(requested), true;
      gpsLock := lock;
      if afwControlId != 0 {
        if supportNfwControl {
          lock := LOCK_NONE;
        } else {
          needEngineUpdate := false;
        }
      }
      supportNfwControl := false;
      if needEngineUpdate {
        SetGpsLock(lock);
      }
    }

    method SetConfig()
      modifies this
      ensures Did(EngineUp)
    {
      if supportNfwControl || afwControlId == 0 {
        SetGpsLock(gpsLock);
      } else {
        SetGpsLock(LOCK_NONE);
      }
    }
  }
}
