/** What every run of the AGPS state machine keeps: conservation of data-connection
    requests, the per-subscriber notification ledger and the shape of the list. */
module AgpsRuns {
  import opened Agps

  function Run(es: seq<Event>): Machine {
    if es == [] then INITIAL else Step(Run(es[..|es| - 1]), es[|es| - 1]).machine
  }

  // ----- counting on lists -------------------------------------------------------------

  function Occurs(subs: seq<Subscriber>, handle: int): nat {
    if subs == [] then 0 else (if subs[0].handle == handle then 1 else 0) + Occurs(subs[1..], handle)
  }

  function Opens(outputs: seq<Output>, handle: int): nat {
    if outputs == [] then 0 else (if outputs[0] == AtlOpen(handle, true) then 1 else 0) + Opens(outputs[1..], handle)
  }

  /** Callbacks after which the subscriber hears no more: open-failure or close. */
  function Terminals(outputs: seq<Output>, handle: int): nat {
    if outputs == [] then 0
    else (if outputs[0] in {AtlOpen(handle, false), AtlClose(handle)} then 1 else 0) + Terminals(outputs[1..], handle)
  }

  predicate Distinct(subs: seq<Subscriber>) {
    forall i, j :: 0 <= i < j < |subs| ==> subs[i].handle != subs[j].handle
  }

  ghost predicate AtMostOnce(subs: seq<Subscriber>) {
    forall handle :: Occurs(subs, handle) <= 1
  }

  lemma {:induction false} OccursOne(subs: seq<Subscriber>, k: nat)
    requires k < |subs|
    ensures Occurs(subs, subs[k].handle) >= 1
  {
    if k > 0 {
      OccursOne(subs[1..], k - 1);
    }
  }

  lemma {:induction false} OccursListed(subs: seq<Subscriber>, handle: int)
    ensures Listed(subs, handle) <==> Occurs(subs, handle) >= 1
  {
    if subs != [] {
      OccursListed(subs[1..], handle);
      if Listed(subs[1..], handle) {
        var i :| 0 <= i < |subs[1..]| && subs[1..][i].handle == handle;
        assert subs[i + 1].handle == handle;
      }
    }
  }

  lemma {:induction false} AtMostOnceDistinct(subs: seq<Subscriber>)
    requires AtMostOnce(subs)
    ensures Distinct(subs)
  {
    if subs != [] {
      forall handle ensures Occurs(subs[1..], handle) <= 1 {
        assert Occurs(subs, handle) <= 1;
      }
      AtMostOnceDistinct(subs[1..]);
      forall i, j | 0 <= i < j < |subs| ensures subs[i].handle != subs[j].handle {
        assert subs[j] == subs[1..][j - 1];
        OccursOne(subs[1..], j - 1);
        assert Occurs(subs, subs[j].handle) <= 1;
      }
    }
  }

  lemma {:induction false} OccursConcat(a: seq<Subscriber>, b: seq<Subscriber>, handle: int)
    ensures Occurs(a + b, handle) == Occurs(a, handle) + Occurs(b, handle)
  {
    if a == [] {
      assert a + b == b;
    } else {
      assert (a + b)[1..] == a[1..] + b;
      OccursConcat(a[1..], b, handle);
    }
  }

  lemma {:induction false} OccursRemove(subs: seq<Subscriber>, gone: int, handle: int)
    ensures Occurs(Remove(subs, gone), handle) == if handle == gone then 0 else Occurs(subs, handle)
    ensures forall s :: s in Remove(subs, gone) ==> s in subs
  {
    if subs != [] {
      OccursRemove(subs[1..], gone, handle);
      OccursConcat(if subs[0].handle == gone then [] else [subs[0]], Remove(subs[1..], gone), handle);
    }
  }

  lemma {:induction false} OccursMark(subs: seq<Subscriber>, marked: int, handle: int)
    ensures Occurs(Mark(subs, marked), handle) == Occurs(subs, handle)
  {
    if subs != [] {
      assert Mark(subs, marked)[1..] == Mark(subs[1..], marked);
      OccursMark(subs[1..], marked, handle);
    }
  }

  lemma {:induction false} KeptMembers(subs: seq<Subscriber>, audience: Audience)
    ensures forall s :: s in Kept(subs, audience, true) <==> s in subs && !Addressed(audience, s)
  {
    if subs != [] {
      KeptMembers(subs[1..], audience);
      assert forall s :: s in subs <==> s == subs[0] || s in subs[1..];
    }
  }

  lemma {:induction false} CountsAppend(a: seq<Output>, b: seq<Output>, handle: int)
    ensures Opens(a + b, handle) == Opens(a, handle) + Opens(b, handle)
    ensures Terminals(a + b, handle) == Terminals(a, handle) + Terminals(b, handle)
    ensures ConnOf(a + b) == ConnOf(a) + ConnOf(b)
  {
    ConnAppend(a, b);
    if a == [] {
      assert a + b == b;
    } else {
      assert (a + b)[1..] == a[1..] + b;
      CountsAppend(a[1..], b, handle);
    }
  }

  lemma {:induction false} ConnAppend(a: seq<Output>, b: seq<Output>)
    ensures ConnOf(a + b) == ConnOf(a) + ConnOf(b)
  {
    if a == [] {
      assert a + b == b;
    } else {
      assert (a + b)[1..] == a[1..] + b;
      ConnAppend(a[1..], b);
    }
  }

  lemma {:induction false} NoticesAreNoConn(subs: seq<Subscriber>, notice: Notice, audience: Audience)
    ensures ConnOf(Notices(subs, notice, audience)) == []
  {
    if subs != [] {
      NoticesAreNoConn(subs[1..], notice, audience);
      CountsAppend(NoticeTo(subs[0], notice, audience), Notices(subs[1..], notice, audience), 0);
    }
  }

  /** A terminal notice reaches exactly the entries that leave. */
  lemma {:induction false} TerminalNotices(subs: seq<Subscriber>, notice: Notice, audience: Audience, handle: int)
    requires notice != OpenGranted
    ensures Opens(Notices(subs, notice, audience), handle) == 0
    ensures Terminals(Notices(subs, notice, audience), handle) + Occurs(Kept(subs, audience, true), handle)
         == Occurs(subs, handle)
  {
    if subs != [] {
      var first, rest := NoticeTo(subs[0], notice, audience), Notices(subs[1..], notice, audience);
      TerminalNotices(subs[1..], notice, audience, handle);
      OccursConcat(KeptOf(subs[0], audience, true), Kept(subs[1..], audience, true), handle);
      CountsAppend(first, rest, handle);
      assert Opens(first, handle) == 0;
    }
  }

  /** An open-success notice is no terminal one and reaches every entry it is addressed to. */
  lemma {:induction false} OpenNotices(subs: seq<Subscriber>, audience: Audience, handle: int)
    ensures Terminals(Notices(subs, OpenGranted, audience), handle) == 0
    ensures (exists s :: s in subs && s.handle == handle && Addressed(audience, s)) ==>
      Opens(Notices(subs, OpenGranted, audience), handle) >= 1
  {
    if subs != [] {
      var first, rest := NoticeTo(subs[0], OpenGranted, audience), Notices(subs[1..], OpenGranted, audience);
      OpenNotices(subs[1..], audience, handle);
      CountsAppend(first, rest, handle);
      assert Terminals(first, handle) == 0;
      assert forall s :: s in subs <==> s == subs[0] || s in subs[1..];
    }
  }

  // ----- list shape ----------------------------------------------------------------------

  ghost predicate Inv(m: Machine) {
    AtMostOnce(m.subs) && (m.state == Released ==> m.subs == [])
  }

  lemma StepInv(m: Machine, e: Event)
    requires Inv(m)
    ensures Inv(Step(m, e).machine)
  {
    forall handle ensures Occurs(Step(m, e).machine.subs, handle) <= 1 {
      StepCounted(m, e, handle);
    }
    KeptNobody(m.subs);
  }

  lemma {:induction false} KeptNobody(subs: seq<Subscriber>)
    ensures Kept(subs, Everyone, true) == []
    ensures !AnyActive(Kept(subs, OnlyInactive, true)) ==> Kept(subs, OnlyInactive, true) == []
  {
    if subs != [] {
      KeptNobody(subs[1..]);
      var kept := Kept(subs, OnlyInactive, true);
      if subs[0].inactive {
        assert kept == Kept(subs[1..], OnlyInactive, true);
      } else {
        assert !kept[0].inactive;
      }
    }
  }

  /** A member that is not marked inactive makes a list active. */
  lemma ActiveMember(subs: seq<Subscriber>, s: Subscriber)
    requires s in subs && !s.inactive
    ensures AnyActive(subs)
  {
    var i :| 0 <= i < |subs| && subs[i] == s;
    assert !subs[i].inactive;
  }

  lemma {:induction false} RunInv(es: seq<Event>)
    ensures Inv(Run(es))
  {
    if es != [] {
      RunInv(es[..|es| - 1]);
      StepInv(Run(es[..|es| - 1]), es[|es| - 1]);
    }
  }

  /** In every run, modem restarts included, no handle is listed twice and RELEASED means
      nobody is listed. */
  lemma ListShape(es: seq<Event>)
    ensures Distinct(Run(es).subs)
    ensures Run(es).state == Released ==> Run(es).subs == []
  {
    RunInv(es);
    AtMostOnceDistinct(Run(es).subs);
  }

  predicate Busy(m: Machine) {
    (m.state == Pending || m.state == Acquired ==> AnyActive(m.subs))
    && (m.state == Releasing ==> m.subs != [])
  }

  /** A step from a machine with somebody to serve keeps that, unless it is a modem restart with
      the connection not yet released. */
  lemma StepBusyIff(m: Machine, e: Event)
    requires Inv(m) && Busy(m)
    ensures Busy(Step(m, e).machine) <==> e != ModemRestart || m.state == Released
  {
    if e.Subscribe? {
      var sub := Subscriber(e.handle, e.waitForClose, false);
      if AnyActive(m.subs) {
        var i :| 0 <= i < |m.subs| && !m.subs[i].inactive;
        ActiveMember(Add(m.subs, sub), m.subs[i]);
      } else if m.state == Released {
        ActiveMember(Add(m.subs, sub), sub);
      }
    }
  }

  /** The connection is not released and nobody is listed. */
  predicate Dropped(m: Machine) { m.state != Released && m.subs == [] }

  /** What brings a dropped connection back into somebody's hands, or ends it: a subscriber, a
      direct unsubscribe, the framework's end of it, or any answer to its release. */
  predicate PicksUp(state: ConnState, e: Event) {
    match e
    case Subscribe(_, _) => true
    case Unsubscribe(_) => true
    case OnGranted => false
    case OnReleased => state == Acquired || state == Releasing
    case OnDenied => state == Pending || state == Releasing
    case ModemRestart => false
  }

  lemma PickUpIff(m: Machine, e: Event)
    requires Dropped(m)
    ensures Busy(Step(m, e).machine) <==> PicksUp(m.state, e)
    ensures Dropped(Step(m, e).machine) <==> !PicksUp(m.state, e)
  {
    match e
    case Subscribe(handle, waitForClose) =>
      ActiveMember(Step(m, e).machine.subs, Subscriber(handle, waitForClose, false));
    case _ =>
  }

  /** Some modem restart found the connection not released, and nothing has picked it up since. */
  predicate LeftDropped(es: seq<Event>) {
    es != []
    && (var before, e := es[..|es| - 1], es[|es| - 1];
        (e == ModemRestart && Run(before).state != Released)
        || (LeftDropped(before) && !PicksUp(Run(before).state, e)))
  }

  /** In every run, restarts included: a pending or acquired connection has somebody waiting for
      it and one being released somebody to tell, exactly unless a restart dropped them and
      nothing has picked the connection up since; then nobody at all is listed. */
  lemma {:induction false} BusyIff(es: seq<Event>)
    ensures Busy(Run(es)) <==> !LeftDropped(es)
    ensures LeftDropped(es) <==> Dropped(Run(es))
  {
    if es != [] {
      var before, e := es[..|es| - 1], es[|es| - 1];
      BusyIff(before);
      RunInv(before);
      if LeftDropped(before) {
        PickUpIff(Run(before), e);
      } else {
        StepBusyIff(Run(before), e);
      }
    }
  }

  /** Without modem restarts a pending or acquired connection always has somebody waiting
      for it, and a connection being released always has somebody to tell. */
  lemma {:induction false} BusyRun(es: seq<Event>)
    requires ModemRestart !in es
    ensures Busy(Run(es))
  {
    BusyIff(es);
    if es != [] {
      BusyRun(es[..|es| - 1]);
      BusyIff(es[..|es| - 1]);
    }
  }

  /** A run in which a restart leaves the connection up with nobody listed; a subscriber that
      comes later owns it again. */
  lemma RestartLeavesConnectionUnowned()
    ensures var es := [Subscribe(7, false), OnGranted, ModemRestart];
      Run(es) == Machine(Acquired, []) && LeftDropped(es) && !Busy(Run(es))
      && !LeftDropped(es + [Subscribe(8, false)]) && Busy(Run(es + [Subscribe(8, false)]))
  {
    var one := [Subscribe(7, false)];
    var two := one + [OnGranted];
    var three := two + [ModemRestart];
    assert three[..2] == two && two[..1] == one && one[..0] == [];
    assert Run(one).state == Pending;
    assert Run(two).state == Acquired;
    assert three == [Subscribe(7, false), OnGranted, ModemRestart];
    var four := three + [Subscribe(8, false)];
    assert four[..3] == three;
    BusyIff(three);
    BusyIff(four);
  }

  // ----- conservation of data connections ---------------------------------------------------

  datatype Conn = Requested | ReleaseSent | EndedByFramework

  function ConnOf(outputs: seq<Output>): seq<Conn> {
    if outputs == [] then []
    else (match outputs[0]
          case DataConn(request) => [if request then Requested else ReleaseSent]
          case _ => []) + ConnOf(outputs[1..])
  }

  /** The framework refuses a requested connection, or takes down a granted one. */
  predicate FrameworkEnds(m: Machine, e: Event) {
    (e == OnDenied && m.state == Pending) || (e == OnReleased && m.state == Acquired)
  }

  function Moves(m: Machine, e: Event): seq<Conn> {
    ConnOf(Step(m, e).outputs) + (if FrameworkEnds(m, e) then [EndedByFramework] else [])
  }

  function ConnLog(es: seq<Event>): seq<Conn> {
    if es == [] then [] else ConnLog(es[..|es| - 1]) + Moves(Run(es[..|es| - 1]), es[|es| - 1])
  }

  function Count(log: seq<Conn>, c: Conn): nat { multiset(log)[c] }

  function Balance(log: seq<Conn>): int {
    Count(log, Requested) - Count(log, ReleaseSent) - Count(log, EndedByFramework)
  }

  function Outstanding(m: Machine): nat {
    if m.state == Pending || m.state == Acquired then 1 else 0
  }

  lemma ReleaseDoneConn(m: Machine)
    ensures ConnOf(OnReleaseDone(m).outputs)
         == if OnReleaseDone(m).machine.state == Pending then [Requested] else []
  {
    NoticesAreNoConn(m.subs, Closed, OnlyInactive);
    CountsAppend(Notices(m.subs, Closed, OnlyInactive), [DataConn(true)], 0);
    assert ConnOf([DataConn(true)]) == [Requested];
  }

  lemma UnsubscribeConn(m: Machine, current: Subscriber)
    ensures ConnOf(OnUnsubscribe(m, current).outputs)
         == if Outstanding(m) > Outstanding(OnUnsubscribe(m, current).machine) then [ReleaseSent] else []
    ensures Outstanding(m) >= Outstanding(OnUnsubscribe(m, current).machine)
  {
    var notice := if current.waitForClose then [] else [AtlClose(current.handle)];
    CountsAppend(notice, [DataConn(false)], 0);
    assert ConnOf([DataConn(false)]) == [ReleaseSent] && ConnOf(notice) == [];
    assert ConnOf([AtlClose(current.handle)]) == [];
  }

  /** The one message, if any, that accounts for a change of the connection. */
  function Expected(before: nat, after: nat, ended: bool): seq<Conn> {
    if before < after then [Requested]
    else if after < before then [if ended then EndedByFramework else ReleaseSent]
    else []
  }

  lemma StepMoves(m: Machine, e: Event)
    ensures Moves(m, e) == Expected(Outstanding(m), Outstanding(Step(m, e).machine), FrameworkEnds(m, e))
  {
    match e
    case Subscribe(handle, _) =>
      assert ConnOf([DataConn(true)]) == [Requested] && ConnOf([AtlOpen(handle, true)]) == [];
    case Unsubscribe(current) =>
      UnsubscribeConn(m, current);
      assert Moves(m, e) == ConnOf(OnUnsubscribe(m, current).outputs);
    case OnGranted =>
      NoticesAreNoConn(m.subs, OpenGranted, OnlyActive);
    case OnReleased =>
      NoticesAreNoConn(m.subs, Closed, Everyone);
      ReleaseDoneConn(m);
    case OnDenied =>
      NoticesAreNoConn(m.subs, OpenDenied, Everyone);
      ReleaseDoneConn(m);
    case ModemRestart =>
  }

  lemma AppendExpected(log: seq<Conn>, before: nat, after: nat, ended: bool)
    requires before <= 1 && after <= 1 && Balance(log) == before
    requires forall k :: 0 <= k <= |log| ==> 0 <= Balance(log[..k]) <= 1
    ensures var log' := log + Expected(before, after, ended);
      Balance(log') == after && forall k :: 0 <= k <= |log'| ==> 0 <= Balance(log'[..k]) <= 1
  {
    var moves := Expected(before, after, ended);
    assert multiset(log + moves) == multiset(log) + multiset(moves);
    forall k | 0 <= k <= |log + moves| ensures 0 <= Balance((log + moves)[..k]) <= 1 {
      if k <= |log| {
        assert (log + moves)[..k] == log[..k];
      } else {
        assert (log + moves)[..k] == log + moves;
      }
    }
  }

  /** Over every event sequence the data connection is never requested twice and never
      released or ended unless it is outstanding; the books always balance. */
  lemma {:induction false} ConnectionsConserved(es: seq<Event>)
    ensures var log := ConnLog(es);
      Count(log, Requested)
        == Count(log, ReleaseSent) + Count(log, EndedByFramework) + Outstanding(Run(es))
    ensures forall k :: 0 <= k <= |ConnLog(es)| ==> 0 <= Balance(ConnLog(es)[..k]) <= 1
  {
    if es != [] {
      var before, m, e := es[..|es| - 1], Run(es[..|es| - 1]), es[|es| - 1];
      ConnectionsConserved(before);
      StepMoves(m, e);
      AppendExpected(ConnLog(before), Outstanding(m), Outstanding(Run(es)), FrameworkEnds(m, e));
    }
  }

  // ----- the notification ledger --------------------------------------------------------------

  predicate Joins(m: Machine, e: Event, handle: int) {
    !Listed(m.subs, handle) && Listed(Step(m, e).machine.subs, handle)
  }

  predicate Leaves(m: Machine, e: Event, handle: int) {
    Listed(m.subs, handle) && !Listed(Step(m, e).machine.subs, handle)
  }

  /** A close callback to a subscriber that is not listed at all. */
  predicate Strays(m: Machine, e: Event, handle: int) {
    e.Unsubscribe? && e.current.handle == handle && !Listed(m.subs, handle)
    && (m.state == Released || !e.current.waitForClose)
  }

  function Bit(b: bool): nat { if b then 1 else 0 }

  /** The effect of one step on the occurrences of one handle and on its terminal callbacks. */
  lemma StepCounted(m: Machine, e: Event, handle: int)
    requires Inv(m)
    ensures Occurs(Step(m, e).machine.subs, handle) <= 1
    ensures e != ModemRestart ==>
      Terminals(Step(m, e).outputs, handle) == Bit(Leaves(m, e, handle)) + Bit(Strays(m, e, handle))
    ensures e == ModemRestart ==> Terminals(Step(m, e).outputs, handle) == 0
  {
    assert Occurs(m.subs, handle) <= 1;
    OccursListed(m.subs, handle);
    OccursListed(Step(m, e).machine.subs, handle);
    match e
    case Subscribe(h, w) =>
      OccursConcat(m.subs, [Subscriber(h, w, false)], handle);
      OccursListed(m.subs, h);
    case Unsubscribe(current) => UnsubscribeCounted(m, current, handle);
    case OnGranted => OpenNotices(m.subs, OnlyActive, handle);
    case OnReleased => EndCounted(m, e, Closed, handle);
    case OnDenied => EndCounted(m, e, OpenDenied, handle);
    case ModemRestart =>
  }

  lemma EndCounted(m: Machine, e: Event, notice: Notice, handle: int)
    requires Inv(m) && (if notice == Closed then e == OnReleased else notice == OpenDenied && e == OnDenied)
    ensures Occurs(Step(m, e).machine.subs, handle) <= 1
    ensures Terminals(Step(m, e).outputs, handle) == Bit(Leaves(m, e, handle)) + Bit(Strays(m, e, handle))
  {
    assert Occurs(m.subs, handle) <= 1;
    OccursListed(m.subs, handle);
    OccursListed(Step(m, e).machine.subs, handle);
    if m.state == Releasing {
      ReleaseDoneCounted(m, handle);
    } else {
      TerminalNotices(m.subs, notice, Everyone, handle);
    }
  }

  lemma UnsubscribeCounted(m: Machine, current: Subscriber, handle: int)
    requires Inv(m)
    ensures var r := OnUnsubscribe(m, current);
      Occurs(r.machine.subs, handle)
        == (if m.state != Released && !current.waitForClose && current.handle == handle then 0
            else Occurs(m.subs, handle))
      && Opens(r.outputs, handle) == 0
      && Terminals(r.outputs, handle)
        == Bit(current.handle == handle && (m.state == Released || !current.waitForClose))
  {
    OccursRemove(m.subs, current.handle, handle);
    OccursMark(m.subs, current.handle, handle);
    var notice := if current.waitForClose then [] else [AtlClose(current.handle)];
    CountsAppend(notice, [DataConn(false)], handle);
    assert Terminals([DataConn(false)], handle) == 0 == Opens([DataConn(false)], handle);
    assert Terminals([AtlClose(current.handle)], handle) == Bit(current.handle == handle);
  }

  lemma ReleaseDoneCounted(m: Machine, handle: int)
    ensures var r := OnReleaseDone(m);
      Opens(r.outputs, handle) == 0
      && Terminals(r.outputs, handle) + Occurs(r.machine.subs, handle) == Occurs(m.subs, handle)
  {
    TerminalNotices(m.subs, Closed, OnlyInactive, handle);
    CountsAppend(Notices(m.subs, Closed, OnlyInactive), [DataConn(true)], handle);
  }

  /** At every step of every run: an entry that leaves the list gets exactly one terminal
      callback at that moment, unless a modem restart drops it, and then none; an entry
      that stays gets none. */
  lemma OneTerminalOnLeaving(es: seq<Event>, e: Event, handle: int)
    requires Listed(Run(es).subs, handle)
    ensures Terminals(Step(Run(es), e).outputs, handle)
         == if Leaves(Run(es), e, handle) && e != ModemRestart then 1 else 0
  {
    RunInv(es);
    StepCounted(Run(es), e, handle);
  }

  function AllTerminals(es: seq<Event>, handle: int): nat {
    if es == [] then 0
    else AllTerminals(es[..|es| - 1], handle)
         + Terminals(Step(Run(es[..|es| - 1]), es[|es| - 1]).outputs, handle)
  }

  function AllJoins(es: seq<Event>, handle: int): nat {
    if es == [] then 0
    else AllJoins(es[..|es| - 1], handle) + Bit(Joins(Run(es[..|es| - 1]), es[|es| - 1], handle))
  }

  function AllStrays(es: seq<Event>, handle: int): nat {
    if es == [] then 0
    else AllStrays(es[..|es| - 1], handle) + Bit(Strays(Run(es[..|es| - 1]), es[|es| - 1], handle))
  }

  function AllDrops(es: seq<Event>, handle: int): nat {
    if es == [] then 0
    else AllDrops(es[..|es| - 1], handle)
         + Bit(es[|es| - 1] == ModemRestart && Leaves(Run(es[..|es| - 1]), es[|es| - 1], handle))
  }

  /** The whole-run ledger of one handle: every time it joined, and every unsubscribe from
      a stranger, is matched by one terminal callback, one restart drop, or its entry still
      being in the list. */
  lemma {:induction false} TerminalLedger(es: seq<Event>, handle: int)
    ensures AllJoins(es, handle) + AllStrays(es, handle)
         == AllTerminals(es, handle) + AllDrops(es, handle) + Bit(Listed(Run(es).subs, handle))
  {
    if es != [] {
      var before := es[..|es| - 1];
      TerminalLedger(before, handle);
      RunInv(before);
      StepCounted(Run(before), es[|es| - 1], handle);
    }
  }

  /** Open-success callbacks made to a handle since its present entry joined the list. */
  function OpensSinceJoining(es: seq<Event>, handle: int): nat {
    if es == [] then 0
    else
      var before, e := es[..|es| - 1], es[|es| - 1];
      var r := Step(Run(before), e);
      if !Listed(r.machine.subs, handle) then 0
      else (if Listed(Run(before).subs, handle) then OpensSinceJoining(before, handle) else 0)
           + Opens(r.outputs, handle)
  }

  predicate ActiveAs(m: Machine, handle: int) {
    exists i :: 0 <= i < |m.subs| && m.subs[i].handle == handle && !m.subs[i].inactive
  }

  /** An active entry has been told that the connection is open exactly when it is. */
  lemma {:induction false} OpenedIffAcquired(es: seq<Event>, handle: int)
    requires ActiveAs(Run(es), handle)
    ensures OpensSinceJoining(es, handle) > 0 <==> Run(es).state == Acquired
  {
    if es != [] {
      var before, e := es[..|es| - 1], es[|es| - 1];
      var m, m' := Run(before), Run(es);
      RunInv(before);
      var i :| 0 <= i < |m'.subs| && m'.subs[i].handle == handle && !m'.subs[i].inactive;
      ActiveMember(m'.subs, m'.subs[i]);
      assert Listed(m'.subs, handle);
      if Listed(m.subs, handle) {
        ActiveBefore(m, e, handle);
        OpenedIffAcquired(before, handle);
      }
      OpensOfStep(m, e, handle);
    }
  }

  /** Nothing reactivates a listed entry. */
  lemma ActiveBefore(m: Machine, e: Event, handle: int)
    requires Inv(m) && Listed(m.subs, handle) && ActiveAs(Step(m, e).machine, handle)
    ensures ActiveAs(m, handle)
  {
    var m' := Step(m, e).machine;
    var i :| 0 <= i < |m'.subs| && m'.subs[i].handle == handle && !m'.subs[i].inactive;
    var s := m'.subs[i];
    assert s in m.subs by {
      match e
      case Subscribe(h, w) =>
        assert s.handle != h || Listed(m.subs, h);
      case Unsubscribe(current) => LeftFrom(m.subs, current.handle, s);
      case OnGranted =>
      case OnReleased => KeptFrom(m.subs, s);
      case OnDenied => KeptFrom(m.subs, s);
      case ModemRestart =>
    }
    var j :| 0 <= j < |m.subs| && m.subs[j] == s;
    assert m.subs[j].handle == handle && !m.subs[j].inactive;
  }

  lemma LeftFrom(subs: seq<Subscriber>, gone: int, s: Subscriber)
    requires !s.inactive
    ensures s in Mark(subs, gone) || s in Remove(subs, gone) ==> s in subs
  {
    if s in Mark(subs, gone) {
      var k :| 0 <= k < |subs| && Mark(subs, gone)[k] == s;
      assert subs[k] == s;
    }
    if s in Remove(subs, gone) {
      RemovedFrom(subs, gone, s);
    }
  }

  lemma {:induction false} RemovedFrom(subs: seq<Subscriber>, gone: int, s: Subscriber)
    requires s in Remove(subs, gone)
    ensures s in subs
  {
    if s != subs[0] {
      RemovedFrom(subs[1..], gone, s);
    }
  }

  lemma KeptFrom(subs: seq<Subscriber>, s: Subscriber)
    ensures s in Kept(subs, OnlyInactive, true) || s in Kept(subs, Everyone, true) ==> s in subs
  {
    KeptMembers(subs, OnlyInactive);
    KeptMembers(subs, Everyone);
  }

  lemma OpensOfStep(m: Machine, e: Event, handle: int)
    requires Inv(m) && ActiveAs(Step(m, e).machine, handle)
    ensures var r := Step(m, e);
      if r.machine.state != Acquired then
        Opens(r.outputs, handle) == 0 && (m.state == Acquired ==> !Listed(m.subs, handle))
      else if m.state == Acquired && Listed(m.subs, handle) then true
      else Opens(r.outputs, handle) >= 1
  {
    var m' := Step(m, e).machine;
    var i :| 0 <= i < |m'.subs| && m'.subs[i].handle == handle && !m'.subs[i].inactive;
    ActiveMember(m'.subs, m'.subs[i]);
    match e
    case Unsubscribe(current) =>
      UnsubscribeCounted(m, current, handle);
      OccursListed(m.subs, handle);
      OccursListed(m'.subs, handle);
    case OnGranted => OpenNotices(m.subs, OnlyActive, handle);
    case OnReleased =>
      ReleaseDoneCounted(m, handle);
      KeptNobody(m.subs);
    case OnDenied =>
      ReleaseDoneCounted(m, handle);
      KeptNobody(m.subs);
    case _ =>
  }
}
