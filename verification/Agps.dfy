/** The AGPS data-connection state machine: its steps as functions of the machine
    value, and the imperative classes that carry them out on their own fields. */
module Agps {
  import opened Basics

  datatype ConnState = Released | Pending | Acquired | Releasing

  datatype Subscriber = Subscriber(handle: int, waitForClose: bool, inactive: bool)

  /** What leaves the machine: data-connection messages to the framework and open/close
      status callbacks to the modem. */
  datatype Output = DataConn(request: bool) | AtlOpen(handle: int, success: bool) | AtlClose(handle: int)

  datatype Notice = OpenGranted | OpenDenied | Closed

  datatype Audience = Everyone | OnlyActive | OnlyInactive

  datatype Event =
    | Subscribe(handle: int, waitForClose: bool)
    | Unsubscribe(current: Subscriber)
    | OnGranted
    | OnReleased
    | OnDenied
    | ModemRestart

  datatype Machine = Machine(state: ConnState, subs: seq<Subscriber>)

  datatype StepResult = StepResult(machine: Machine, outputs: seq<Output>)

  const INITIAL := Machine(Released, [])

  // ----- the subscriber list ---------------------------------------------------------

  predicate Listed(subs: seq<Subscriber>, handle: int) {
    exists i :: 0 <= i < |subs| && subs[i].handle == handle
  }

  lemma ListedTail(subs: seq<Subscriber>, handle: int)
    requires subs != [] && subs[0].handle != handle
    ensures Listed(subs[1..], handle) == Listed(subs, handle)
  {
    if Listed(subs, handle) {
      var i :| 0 <= i < |subs| && subs[i].handle == handle;
      assert subs[1..][i - 1].handle == handle;
    }
    if Listed(subs[1..], handle) {
      var i :| 0 <= i < |subs[1..]| && subs[1..][i].handle == handle;
      assert subs[i + 1].handle == handle;
    }
  }

  /** The first entry with this handle. */
  function Entry(subs: seq<Subscriber>, handle: int): (s: Subscriber)
    requires Listed(subs, handle)
    ensures s in subs && s.handle == handle
  {
    if subs[0].handle == handle then subs[0]
    else
      ListedTail(subs, handle);
      Entry(subs[1..], handle)
  }

  predicate AnyActive(subs: seq<Subscriber>) {
    exists i :: 0 <= i < |subs| && !subs[i].inactive
  }

  function Add(subs: seq<Subscriber>, sub: Subscriber): seq<Subscriber> {
    if Listed(subs, sub.handle) then subs else subs + [sub]
  }

  function Remove(subs: seq<Subscriber>, handle: int): seq<Subscriber> {
    if subs == [] then []
    else (if subs[0].handle == handle then [] else [subs[0]]) + Remove(subs[1..], handle)
  }

  function Mark(subs: seq<Subscriber>, handle: int): (r: seq<Subscriber>)
    ensures |r| == |subs|
    ensures forall i :: 0 <= i < |r| ==>
      r[i] == if subs[i].handle == handle then subs[i].(inactive := true) else subs[i]
  {
    seq(|subs|, i requires 0 <= i < |subs| =>
      if subs[i].handle == handle then subs[i].(inactive := true) else subs[i])
  }

  predicate Addressed(audience: Audience, sub: Subscriber) {
    match audience
    case Everyone => true
    case OnlyActive => !sub.inactive
    case OnlyInactive => sub.inactive
  }

  function NoticeFor(notice: Notice, handle: int): Output {
    match notice
    case OpenGranted => AtlOpen(handle, true)
    case OpenDenied => AtlOpen(handle, false)
    case Closed => AtlClose(handle)
  }

  function NoticeTo(sub: Subscriber, notice: Notice, audience: Audience): seq<Output> {
    if Addressed(audience, sub) then [NoticeFor(notice, sub.handle)] else []
  }

  function Notices(subs: seq<Subscriber>, notice: Notice, audience: Audience): seq<Output> {
    if subs == [] then [] else NoticeTo(subs[0], notice, audience) + Notices(subs[1..], notice, audience)
  }

  function KeptOf(sub: Subscriber, audience: Audience, deleteAfter: bool): seq<Subscriber> {
    if deleteAfter && Addressed(audience, sub) then [] else [sub]
  }

  /** What a notification leaves of the list. */
  function Kept(subs: seq<Subscriber>, audience: Audience, deleteAfter: bool): (kept: seq<Subscriber>)
    ensures !deleteAfter ==> kept == subs
  {
    if subs == [] then [] else KeptOf(subs[0], audience, deleteAfter) + Kept(subs[1..], audience, deleteAfter)
  }

  /** Erasing the first element of `rest` from `kept + rest`, or stepping over it. */
  lemma EraseAt<T>(kept: seq<T>, rest: seq<T>)
    requires rest != []
    ensures (kept + rest)[|kept|] == rest[0]
    ensures (kept + rest)[..|kept|] + (kept + rest)[|kept| + 1..] == kept + rest[1..]
    ensures kept + rest == (kept + [rest[0]]) + rest[1..]
    ensures rest == [rest[0]] + rest[1..]
  {
  }

  // ----- one event -------------------------------------------------------------------

  function OnSubscribe(m: Machine, handle: int, waitForClose: bool): StepResult {
    var subs := Add(m.subs, Subscriber(handle, waitForClose, false));
    match m.state
    case Released => StepResult(Machine(Pending, subs), [DataConn(true)])
    case Acquired => StepResult(Machine(Acquired, subs), [AtlOpen(handle, true)])
    case _ => StepResult(Machine(m.state, subs), [])
  }

  function OnUnsubscribe(m: Machine, current: Subscriber): StepResult {
    if m.state == Released then
      StepResult(m, [AtlClose(current.handle)])
    else
      var subs := if current.waitForClose then Mark(m.subs, current.handle) else Remove(m.subs, current.handle);
      var notice := if current.waitForClose then [] else [AtlClose(current.handle)];
      if m.state == Releasing then
        StepResult(Machine(if subs == [] then Released else Releasing, subs), notice)
      else if subs == [] then
        StepResult(Machine(Released, subs), notice + [DataConn(false)])
      else if !AnyActive(subs) then
        StepResult(Machine(Releasing, subs), notice + [DataConn(false)])
      else
        StepResult(Machine(m.state, subs), notice)
  }

  /** RELEASED and DENIED do the same thing while the connection is being released. */
  function OnReleaseDone(m: Machine): StepResult {
    var subs := Kept(m.subs, OnlyInactive, true);
    var notices := Notices(m.subs, Closed, OnlyInactive);
    if AnyActive(subs) then StepResult(Machine(Pending, subs), notices + [DataConn(true)])
    else StepResult(Machine(Released, subs), notices)
  }

  function Step(m: Machine, e: Event): StepResult {
    match e
    case Subscribe(handle, waitForClose) => OnSubscribe(m, handle, waitForClose)
    case Unsubscribe(current) => OnUnsubscribe(m, current)
    case OnGranted =>
      if m.state == Pending
      then StepResult(Machine(Acquired, m.subs), Notices(m.subs, OpenGranted, OnlyActive))
      else StepResult(m, [])
    case OnReleased =>
      if m.state == Acquired
      then StepResult(Machine(Released, Kept(m.subs, Everyone, true)), Notices(m.subs, Closed, Everyone))
      else if m.state == Releasing then OnReleaseDone(m) else StepResult(m, [])
    case OnDenied =>
      if m.state == Pending
      then StepResult(Machine(Released, Kept(m.subs, Everyone, true)), Notices(m.subs, OpenDenied, Everyone))
      else if m.state == Releasing then OnReleaseDone(m) else StepResult(m, [])
    case ModemRestart => StepResult(Machine(m.state, []), [])
  }

  // ----- the classes -----------------------------------------------------------------

  class AgpsStateMachine {
    var state: ConnState
    var subscribers: seq<Subscriber>
    /** Every callback made so far, oldest first. */
    var outputs: seq<Output>

    ghost function View(): Machine reads this { Machine(state, subscribers) }

    /** The machine is now where `r` says, and exactly the outputs of `r` were sent. */
    twostate predicate Did(r: StepResult) reads this {
      View() == r.machine && outputs == old(outputs) + r.outputs
    }

    constructor ()
      ensures View() == INITIAL && outputs == []
    {
      state, subscribers, outputs := Released, [], [];
    }

    method ProcessSubscribe(handle: int, waitForClose: bool)
      modifies this
      ensures Did(Step(old(View()), Subscribe(handle, waitForClose)))
    {
      var sub := Subscriber(handle, waitForClose, false);
      match state {
        case Released =>
          AddSubscriber(sub);
          RequestOrReleaseDataConn(true);
          state := Pending;
        case Pending =>
          AddSubscriber(sub);
        case Acquired =>
          NotifyEventToSubscriber(OpenGranted, handle, false);
          AddSubscriber(sub);
        case Releasing =>
          AddSubscriber(sub);
      }
    }

    method ProcessUnsubscribe(current: Subscriber)
      modifies this
      ensures Did(Step(old(View()), Unsubscribe(current)))
    {
      if state == Released {
        NotifyEventToSubscriber(Closed, current.handle, false);
        return;
      }
      if current.waitForClose {
        MarkInactive(current.handle);
      } else {
        NotifyEventToSubscriber(Closed, current.handle, true);
      }
      if state == Releasing {
        if subscribers == [] {
          state := Released;
        }
        return;
      }
      var active := AnyActiveSubscribers();
      if subscribers == [] {
        state := Released;
        RequestOrReleaseDataConn(false);
      } else if !active {
        state := Releasing;
        RequestOrReleaseDataConn(false);
      }
    }

    method ProcessGranted()
      modifies this
      ensures Did(Step(old(View()), OnGranted))
    {
      if state == Pending {
        state := Acquired;
        NotifyAllSubscribers(OpenGranted, false, OnlyActive);
      }
    }

    method ProcessReleased()
      modifies this
      ensures Did(Step(old(View()), OnReleased))
    {
      if state == Acquired {
        state := Released;
        NotifyAllSubscribers(Closed, true, Everyone);
      } else if state == Releasing {
        FinishReleasing();
      }
    }

    method ProcessDenied()
      modifies this
      ensures Did(Step(old(View()), OnDenied))
    {
      if state == Pending {
        state := Released;
        NotifyAllSubscribers(OpenDenied, true, Everyone);
      } else if state == Releasing {
        FinishReleasing();
      }
    }

    method FinishReleasing()
      modifies this
      ensures Did(OnReleaseDone(old(View())))
    {
      NotifyAllSubscribers(Closed, true, OnlyInactive);
      ghost var notices := Notices(old(subscribers), Closed, OnlyInactive);
      var active := AnyActiveSubscribers();
      if active {
        state := Pending;
        RequestOrReleaseDataConn(true);
        assert outputs == old(outputs) + (notices + [DataConn(true)]);
      } else {
        state := Released;
      }
    }

    method DropAllSubscribers()
      modifies this
      ensures Did(Step(old(View()), ModemRestart))
    {
      while subscribers != []
        invariant state == old(state) && outputs == old(outputs)
        decreases |subscribers|
      {
        subscribers := subscribers[1..];
      }
    }

    method RequestOrReleaseDataConn(request: bool)
      modifies this`outputs
      ensures outputs == old(outputs) + [DataConn(request)]
    {
      outputs := outputs + [DataConn(request)];
    }

    /** `deleteAfter` erases the notified entries while the loop walks the list. */
    method NotifyAllSubscribers(notice: Notice, deleteAfter: bool, audience: Audience)
      modifies this`outputs, this`subscribers
      ensures outputs == old(outputs) + Notices(old(subscribers), notice, audience)
      ensures subscribers == Kept(old(subscribers), audience, deleteAfter)
    {
      ghost var kept, rest := [], subscribers;
      ghost var all, left := outputs + Notices(rest, notice, audience), Kept(rest, audience, deleteAfter);
      var it := 0;
      while it < |subscribers|
        invariant subscribers == kept + rest && it == |kept|
        invariant outputs + Notices(rest, notice, audience) == all
        invariant kept + Kept(rest, audience, deleteAfter) == left
        decreases |rest|
      {
        EraseAt(kept, rest);
        Regroup(outputs, NoticeTo(rest[0], notice, audience), Notices(rest[1..], notice, audience));
        Regroup(kept, KeptOf(rest[0], audience, deleteAfter), Kept(rest[1..], audience, deleteAfter));
        it := NotifyAt(it, notice, deleteAfter, audience);
        if KeptOf(rest[0], audience, deleteAfter) == [] {
          assert kept + [] == kept;
        }
        kept, rest := kept + KeptOf(rest[0], audience, deleteAfter), rest[1..];
      }
    }

    /** Serves the entry at `it` and says where the walk goes on. */
    method NotifyAt(it: nat, notice: Notice, deleteAfter: bool, audience: Audience) returns (next: nat)
      requires it < |subscribers|
      modifies this`outputs, this`subscribers
      ensures outputs == old(outputs) + NoticeTo(old(subscribers)[it], notice, audience)
      ensures var kept := KeptOf(old(subscribers)[it], audience, deleteAfter);
        next == it + |kept|
        && subscribers == if kept == [] then old(subscribers[..it] + subscribers[it + 1..]) else old(subscribers)
    {
      var sub := subscribers[it];
      next := it + 1;
      if Addressed(audience, sub) {
        NotifyEventToSubscriber(notice, sub.handle, false);
        if deleteAfter {
          subscribers := subscribers[..it] + subscribers[it + 1..];
          next := it;
        }
      }
    }

    method NotifyEventToSubscriber(notice: Notice, handle: int, deleteAfter: bool)
      modifies this`outputs, this`subscribers
      ensures outputs == old(outputs) + [NoticeFor(notice, handle)]
      ensures subscribers == if deleteAfter then Remove(old(subscribers), handle) else old(subscribers)
    {
      outputs := outputs + [NoticeFor(notice, handle)];
      if deleteAfter {
        DeleteSubscriber(handle);
      }
    }

    method AddSubscriber(sub: Subscriber)
      modifies this`subscribers
      ensures subscribers == Add(old(subscribers), sub)
    {
      var i := 0;
      while i < |subscribers|
        invariant 0 <= i <= |subscribers| && subscribers == old(subscribers)
        invariant !Listed(subscribers[..i], sub.handle)
      {
        if subscribers[i].handle == sub.handle {
          return;
        }
        i := i + 1;
      }
      assert subscribers[..i] == subscribers;
      subscribers := subscribers + [sub];
    }

    /** Takes the handle by value: the caller's subscriber may be the entry that is erased. */
    method DeleteSubscriber(handle: int)
      modifies this`subscribers
      ensures subscribers == Remove(old(subscribers), handle)
    {
      ghost var kept, rest := [], subscribers;
      var it := 0;
      while it < |subscribers|
        invariant subscribers == kept + rest && it == |kept|
        invariant kept + Remove(rest, handle) == old(Remove(subscribers, handle))
        decreases |rest|
      {
        EraseAt(kept, rest);
        if subscribers[it].handle == handle {
          subscribers := subscribers[..it] + subscribers[it + 1..];
        } else {
          kept := kept + [subscribers[it]];
          it := it + 1;
        }
        rest := rest[1..];
      }
    }

    method MarkInactive(handle: int)
      modifies this`subscribers
      ensures subscribers == Mark(old(subscribers), handle)
    {
      for i := 0 to |subscribers|
        invariant |subscribers| == |old(subscribers)|
        invariant forall k :: 0 <= k < i ==> subscribers[k] == Mark(old(subscribers), handle)[k]
        invariant forall k :: i <= k < |subscribers| ==> subscribers[k] == old(subscribers)[k]
      {
        if subscribers[i].handle == handle {
          subscribers := subscribers[i := subscribers[i].(inactive := true)];
        }
      }
    }

    method AnyActiveSubscribers() returns (any: bool)
      ensures any == AnyActive(subscribers)
    {
      for i := 0 to |subscribers|
        invariant !AnyActive(subscribers[..i])
      {
        if !subscribers[i].inactive {
          return true;
        }
      }
      assert subscribers[..|subscribers|] == subscribers;
      return false;
    }

    /** The first entry with this handle, if there is one. */
    method GetSubscriber(handle: int) returns (found: bool, sub: Subscriber)
      ensures found == Listed(subscribers, handle)
      ensures found ==> sub == Entry(subscribers, handle)
    {
      sub := Subscriber(handle, false, false);
      ghost var rest := subscribers;
      for i := 0 to |subscribers|
        invariant rest == subscribers[i..] && Listed(rest, handle) == Listed(subscribers, handle)
        invariant Listed(rest, handle) ==> Entry(rest, handle) == Entry(subscribers, handle)
      {
        if subscribers[i].handle == handle {
          return true, subscribers[i];
        }
        ListedTail(rest, handle);
        rest := rest[1..];
      }
      return false, sub;
    }
  }
}
