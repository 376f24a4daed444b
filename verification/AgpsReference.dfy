/** A reference for the AGPS machine without a list: a state and who is subscribed. It says what each
    handle hears, and what the framework is asked, in terms of that handle alone. */
module AgpsReference {
  import opened Basics
  import opened Agps
  import opened AgpsRuns

  datatype Member = Member(waits: bool, leaving: bool)

  datatype Ref = Ref(state: ConnState, members: map<int, Member>)

  /** Somebody is subscribed who is not on the way out. */
  predicate AnyStaying(members: map<int, Member>) { exists h :: h in members && !members[h].leaving }

  function Staying(members: map<int, Member>): map<int, Member> {
    map h | h in members && !members[h].leaving :: members[h]
  }

  /** Who is left after an unsubscribe: the subscriber waits for the close, or goes at once. */
  function Left(members: map<int, Member>, current: Subscriber): map<int, Member> {
    if !current.waitForClose then members - {current.handle}
    else if current.handle in members then members[current.handle := members[current.handle].(leaving := true)]
    else members
  }

  function RefNext(r: Ref, e: Event): Ref {
    match e
    case Subscribe(handle, waitForClose) =>
      Ref(if r.state == Released then Pending else r.state,
          if handle in r.members then r.members else r.members[handle := Member(waitForClose, false)])
    case Unsubscribe(current) =>
      if r.state == Released then r
      else
        var left := Left(r.members, current);
        Ref(if left == map[] then Released else if AnyStaying(left) then r.state else Releasing, left)
    case OnGranted => if r.state == Pending then r.(state := Acquired) else r
    case OnReleased =>
      if r.state == Acquired then Ref(Released, map[]) else if r.state == Releasing then AfterRelease(r) else r
    case OnDenied =>
      if r.state == Pending then Ref(Released, map[]) else if r.state == Releasing then AfterRelease(r) else r
    case ModemRestart => r.(members := map[])
  }

  /** Those who waited for the close go; a new connection is asked for if somebody stays. */
  function AfterRelease(r: Ref): Ref {
    Ref(if AnyStaying(r.members) then Pending else Released, Staying(r.members))
  }

  function RefRun(es: seq<Event>): Ref {
    if es == [] then Ref(Released, map[]) else RefNext(RefRun(es[..|es| - 1]), es[|es| - 1])
  }

  /** Every callback one handle gets for an event. */
  function Hears(r: Ref, e: Event, handle: int): seq<Output> {
    var listed := handle in r.members;
    var leaving := listed && r.members[handle].leaving;
    match e
    case Subscribe(h, _) => if h == handle && r.state == Acquired then [AtlOpen(handle, true)] else []
    case Unsubscribe(current) =>
      if current.handle == handle && (r.state == Released || !current.waitForClose) then [AtlClose(handle)] else []
    case OnGranted => if r.state == Pending && listed && !leaving then [AtlOpen(handle, true)] else []
    case OnReleased =>
      if (r.state == Acquired && listed) || (r.state == Releasing && leaving) then [AtlClose(handle)] else []
    case OnDenied =>
      if r.state == Pending && listed then [AtlOpen(handle, false)]
      else if r.state == Releasing && leaving then [AtlClose(handle)]
      else []
    case ModemRestart => []
  }

  /** Every message the framework gets for an event. */
  function FrameworkHears(r: Ref, e: Event): seq<Output> {
    match e
    case Subscribe(_, _) => if r.state == Released then [DataConn(true)] else []
    case Unsubscribe(current) =>
      if (r.state == Pending || r.state == Acquired) && !AnyStaying(Left(r.members, current)) then [DataConn(false)]
      else []
    case OnReleased => if r.state == Releasing && AnyStaying(r.members) then [DataConn(true)] else []
    case OnDenied => if r.state == Releasing && AnyStaying(r.members) then [DataConn(true)] else []
    case _ => []
  }

  // ----- the list mirrors it ------------------------------------------------------------------

  predicate Mirrors(m: Machine, r: Ref) {
    m.state == r.state
    && (forall s :: s in m.subs ==>
          s.handle in r.members && r.members[s.handle] == Member(s.waitForClose, s.inactive))
    && (forall h :: h in r.members ==> Listed(m.subs, h))
  }

  lemma ListedMember(subs: seq<Subscriber>, handle: int)
    ensures Listed(subs, handle) <==> exists s :: s in subs && s.handle == handle
  {
    if Listed(subs, handle) {
      var i :| 0 <= i < |subs| && subs[i].handle == handle;
      assert subs[i] in subs;
    }
  }

  lemma MirrorsActive(m: Machine, r: Ref)
    requires Mirrors(m, r)
    ensures AnyActive(m.subs) <==> AnyStaying(r.members)
    ensures m.subs == [] <==> r.members == map[]
  {
    if AnyActive(m.subs) {
      var i :| 0 <= i < |m.subs| && !m.subs[i].inactive;
      assert m.subs[i] in m.subs;
    }
    if AnyStaying(r.members) {
      var h :| h in r.members && !r.members[h].leaving;
      var i :| 0 <= i < |m.subs| && m.subs[i].handle == h;
      assert m.subs[i] in m.subs;
    }
    if m.subs != [] {
      assert m.subs[0] in m.subs && m.subs[0].handle in r.members;
    }
    if m.subs == [] {
      forall h ensures h !in r.members {
        assert h in r.members ==> Listed(m.subs, h);
      }
      assert r.members.Keys == {};
    }
  }

  lemma AddMirrors(m: Machine, r: Ref, handle: int, waitForClose: bool, state: ConnState)
    requires Mirrors(m, r)
    ensures Mirrors(Machine(state, Add(m.subs, Subscriber(handle, waitForClose, false))),
                    Ref(state, if handle in r.members then r.members
                               else r.members[handle := Member(waitForClose, false)]))
  {
    ListedMember(m.subs, handle);
    var subs := Add(m.subs, Subscriber(handle, waitForClose, false));
    forall h | h in r.members || h == handle ensures Listed(subs, h) {
      ListedMember(m.subs, h);
      ListedMember(subs, h);
      if h == handle && !Listed(m.subs, handle) {
        assert Subscriber(handle, waitForClose, false) in subs;
      }
    }
  }

  lemma LeftMirrors(m: Machine, r: Ref, current: Subscriber, state: ConnState)
    requires Mirrors(m, r)
    ensures var subs := if current.waitForClose then Mark(m.subs, current.handle) else Remove(m.subs, current.handle);
      Mirrors(Machine(state, subs), Ref(state, Left(r.members, current)))
  {
    var left := Left(r.members, current);
    if current.waitForClose {
      var subs := Mark(m.subs, current.handle);
      forall h | h in left ensures Listed(subs, h) {
        var i :| 0 <= i < |m.subs| && m.subs[i].handle == h;
        assert subs[i].handle == h;
      }
      forall s | s in subs ensures s.handle in left && left[s.handle] == Member(s.waitForClose, s.inactive) {
        var i :| 0 <= i < |subs| && subs[i] == s;
        assert m.subs[i] in m.subs;
      }
    } else {
      RemoveMembers(m.subs, current.handle);
      var subs := Remove(m.subs, current.handle);
      forall h | h in left ensures Listed(subs, h) {
        ListedMember(m.subs, h);
        ListedMember(subs, h);
      }
    }
  }

  lemma {:induction false} RemoveMembers(subs: seq<Subscriber>, gone: int)
    ensures forall s :: s in Remove(subs, gone) <==> s in subs && s.handle != gone
  {
    if subs != [] {
      RemoveMembers(subs[1..], gone);
      assert forall s :: s in subs <==> s == subs[0] || s in subs[1..];
    }
  }

  lemma StayMirrors(m: Machine, r: Ref, state: ConnState)
    requires Mirrors(m, r)
    ensures Mirrors(Machine(state, Kept(m.subs, OnlyInactive, true)), Ref(state, Staying(r.members)))
  {
    KeptMembers(m.subs, OnlyInactive);
    var subs := Kept(m.subs, OnlyInactive, true);
    forall h | h in Staying(r.members) ensures Listed(subs, h) {
      ListedMember(m.subs, h);
      ListedMember(subs, h);
    }
  }

  lemma StepMirrors(m: Machine, e: Event, r: Ref)
    requires Mirrors(m, r)
    ensures Mirrors(Step(m, e).machine, RefNext(r, e))
  {
    MirrorsActive(m, r);
    KeptNobody(m.subs);
    match e
    case Subscribe(handle, waitForClose) => AddMirrors(m, r, handle, waitForClose, Step(m, e).machine.state);
    case Unsubscribe(current) =>
      if m.state != Released {
        LeftMirrors(m, r, current, m.state);
        var subs := if current.waitForClose then Mark(m.subs, current.handle) else Remove(m.subs, current.handle);
        MirrorsActive(Machine(m.state, subs), Ref(m.state, Left(r.members, current)));
      }
    case OnGranted =>
    case OnReleased => ReleaseMirrors(m, r);
    case OnDenied => ReleaseMirrors(m, r);
    case ModemRestart =>
  }

  lemma ReleaseMirrors(m: Machine, r: Ref)
    requires Mirrors(m, r)
    ensures Mirrors(OnReleaseDone(m).machine, AfterRelease(r))
  {
    StayMirrors(m, r, m.state);
    MirrorsActive(m, r);
    var kept := Kept(m.subs, OnlyInactive, true);
    MirrorsActive(Machine(m.state, kept), Ref(m.state, Staying(r.members)));
    StayingAgain(r.members);
  }

  lemma StayingAgain(members: map<int, Member>)
    ensures AnyStaying(Staying(members)) <==> AnyStaying(members)
  {
    if AnyStaying(members) {
      var h :| h in members && !members[h].leaving;
      assert h in Staying(members);
    }
  }

  /** Over every run the machine's list holds exactly the reference's members, with the flags they
      have there, and the two are in the same state. */
  lemma {:induction false} RunMirrors(es: seq<Event>)
    ensures Mirrors(Run(es), RefRun(es))
  {
    if es != [] {
      RunMirrors(es[..|es| - 1]);
      StepMirrors(Run(es[..|es| - 1]), es[|es| - 1], RefRun(es[..|es| - 1]));
    }
  }

  // ----- what everybody hears --------------------------------------------------------------------

  predicate To(o: Output, handle: int) { !o.DataConn? && o.handle == handle }

  /** The callbacks to one handle among what a machine sends. */
  function HeardBy(outputs: seq<Output>, handle: int): seq<Output> {
    if outputs == [] then []
    else (if To(outputs[0], handle) then [outputs[0]] else []) + HeardBy(outputs[1..], handle)
  }

  /** The messages to the framework among what a machine sends. */
  function HeardByFramework(outputs: seq<Output>): seq<Output> {
    if outputs == [] then []
    else (if outputs[0].DataConn? then [outputs[0]] else []) + HeardByFramework(outputs[1..])
  }

  lemma {:induction false} HeardAppend(a: seq<Output>, b: seq<Output>, handle: int)
    ensures HeardBy(a + b, handle) == HeardBy(a, handle) + HeardBy(b, handle)
  {
    if a == [] {
      assert a + b == b;
    } else {
      assert (a + b)[1..] == a[1..] + b;
      HeardAppend(a[1..], b, handle);
      Regroup(if To(a[0], handle) then [a[0]] else [], HeardBy(a[1..], handle), HeardBy(b, handle));
    }
  }

  lemma {:induction false} FrameworkAppend(a: seq<Output>, b: seq<Output>)
    ensures HeardByFramework(a + b) == HeardByFramework(a) + HeardByFramework(b)
  {
    if a == [] {
      assert a + b == b;
    } else {
      assert (a + b)[1..] == a[1..] + b;
      FrameworkAppend(a[1..], b);
      Regroup(if a[0].DataConn? then [a[0]] else [], HeardByFramework(a[1..]), HeardByFramework(b));
    }
  }

  /** A notice reaches a handle once, if it is listed and addressed. */
  lemma {:induction false} HeardNotices(subs: seq<Subscriber>, notice: Notice, audience: Audience, handle: int)
    requires Occurs(subs, handle) <= 1
    ensures HeardByFramework(Notices(subs, notice, audience)) == []
    ensures HeardBy(Notices(subs, notice, audience), handle)
      == if exists s :: s in subs && s.handle == handle && Addressed(audience, s) then [NoticeFor(notice, handle)]
         else []
  {
    if subs != [] {
      var first, rest := NoticeTo(subs[0], notice, audience), Notices(subs[1..], notice, audience);
      HeardNotices(subs[1..], notice, audience, handle);
      HeardAppend(first, rest, handle);
      FrameworkAppend(first, rest);
      assert forall s :: s in subs <==> s == subs[0] || s in subs[1..];
      if subs[0].handle == handle {
        OccursListed(subs[1..], handle);
        ListedMember(subs[1..], handle);
      }
    }
  }

  lemma MemberAddressed(m: Machine, r: Ref, handle: int, audience: Audience)
    requires Mirrors(m, r)
    ensures (exists s :: s in m.subs && s.handle == handle && Addressed(audience, s))
      <==> handle in r.members && Addressed(audience, Subscriber(handle, false, r.members[handle].leaving))
  {
    if handle in r.members {
      ListedMember(m.subs, handle);
    }
  }

  lemma NoticesHeard(m: Machine, r: Ref, notice: Notice, audience: Audience, handle: int)
    requires Mirrors(m, r) && Occurs(m.subs, handle) <= 1
    ensures HeardByFramework(Notices(m.subs, notice, audience)) == []
    ensures HeardBy(Notices(m.subs, notice, audience), handle)
      == if handle in r.members && Addressed(audience, Subscriber(handle, false, r.members[handle].leaving))
         then [NoticeFor(notice, handle)] else []
  {
    HeardNotices(m.subs, notice, audience, handle);
    MemberAddressed(m, r, handle, audience);
  }

  /** The step sends this handle, and the framework, what the reference says. */
  predicate Agrees(m: Machine, e: Event, r: Ref, handle: int) {
    HeardBy(Step(m, e).outputs, handle) == Hears(r, e, handle)
    && HeardByFramework(Step(m, e).outputs) == FrameworkHears(r, e)
  }

  lemma SubscribeHeard(m: Machine, handle: int, waitForClose: bool, r: Ref, h: int)
    requires Mirrors(m, r)
    ensures Agrees(m, Subscribe(handle, waitForClose), r, h)
  {
    OneHeard(AtlOpen(handle, true), h);
  }

  lemma GrantedHeard(m: Machine, r: Ref, handle: int)
    requires Mirrors(m, r) && Occurs(m.subs, handle) <= 1
    ensures Agrees(m, OnGranted, r, handle)
  {
    NoticesHeard(m, r, OpenGranted, OnlyActive, handle);
  }

  lemma ReleasedHeard(m: Machine, r: Ref, handle: int)
    requires Mirrors(m, r) && Occurs(m.subs, handle) <= 1
    ensures Agrees(m, OnReleased, r, handle)
  {
    if m.state == Acquired {
      NoticesHeard(m, r, Closed, Everyone, handle);
    } else if m.state == Releasing {
      ReleaseHeard(m, r, handle);
    }
  }

  lemma DeniedHeard(m: Machine, r: Ref, handle: int)
    requires Mirrors(m, r) && Occurs(m.subs, handle) <= 1
    ensures Agrees(m, OnDenied, r, handle)
  {
    if m.state == Pending {
      NoticesHeard(m, r, OpenDenied, Everyone, handle);
    } else if m.state == Releasing {
      ReleaseHeard(m, r, handle);
    }
  }

  lemma StepHeard(m: Machine, e: Event, r: Ref, handle: int)
    requires Inv(m) && Mirrors(m, r)
    ensures Agrees(m, e, r, handle)
  {
    assert Occurs(m.subs, handle) <= 1;
    match e
    case Subscribe(h, waitForClose) => SubscribeHeard(m, h, waitForClose, r, handle);
    case Unsubscribe(current) => UnsubscribeHeard(m, current, r, handle);
    case OnGranted => GrantedHeard(m, r, handle);
    case OnReleased => ReleasedHeard(m, r, handle);
    case OnDenied => DeniedHeard(m, r, handle);
    case ModemRestart =>
  }

  lemma OneHeard(o: Output, handle: int)
    ensures HeardBy([o], handle) == if To(o, handle) then [o] else []
    ensures HeardByFramework([o]) == if o.DataConn? then [o] else []
  {
    assert [o][1..] == [];
  }

  lemma UnsubscribeHeard(m: Machine, current: Subscriber, r: Ref, handle: int)
    requires Mirrors(m, r)
    ensures HeardBy(OnUnsubscribe(m, current).outputs, handle) == Hears(r, Unsubscribe(current), handle)
    ensures HeardByFramework(OnUnsubscribe(m, current).outputs) == FrameworkHears(r, Unsubscribe(current))
  {
    OneHeard(AtlClose(current.handle), handle);
    OneHeard(DataConn(false), handle);
    if m.state != Released {
      LeftMirrors(m, r, current, m.state);
      var subs := if current.waitForClose then Mark(m.subs, current.handle) else Remove(m.subs, current.handle);
      var notice := if current.waitForClose then [] else [AtlClose(current.handle)];
      MirrorsActive(Machine(m.state, subs), Ref(m.state, Left(r.members, current)));
      HeardAppend(notice, [DataConn(false)], handle);
      FrameworkAppend(notice, [DataConn(false)]);
    }
  }

  lemma ReleaseHeard(m: Machine, r: Ref, handle: int)
    requires Mirrors(m, r) && Occurs(m.subs, handle) <= 1
    ensures HeardBy(OnReleaseDone(m).outputs, handle)
      == if handle in r.members && r.members[handle].leaving then [AtlClose(handle)] else []
    ensures HeardByFramework(OnReleaseDone(m).outputs) == if AnyStaying(r.members) then [DataConn(true)] else []
  {
    NoticesHeard(m, r, Closed, OnlyInactive, handle);
    StayMirrors(m, r, m.state);
    StayingAgain(r.members);
    MirrorsActive(Machine(m.state, Kept(m.subs, OnlyInactive, true)), Ref(m.state, Staying(r.members)));
    HeardAppend(Notices(m.subs, Closed, OnlyInactive), [DataConn(true)], handle);
    FrameworkAppend(Notices(m.subs, Closed, OnlyInactive), [DataConn(true)]);
    OneHeard(DataConn(true), handle);
  }

  /** In every run and for every event, each handle hears exactly what the reference says, which of
      open-success, open-failure and close included, and so does the framework. */
  lemma EverybodyHears(es: seq<Event>, e: Event, handle: int)
    ensures HeardBy(Step(Run(es), e).outputs, handle) == Hears(RefRun(es), e, handle)
    ensures HeardByFramework(Step(Run(es), e).outputs) == FrameworkHears(RefRun(es), e)
  {
    RunInv(es);
    RunMirrors(es);
    StepHeard(Run(es), e, RefRun(es), handle);
  }

  // ----- in which order ------------------------------------------------------------------------------

  function Among(handles: seq<int>, keys: set<int>): seq<int> {
    if handles == [] then []
    else (if handles[0] in keys then [handles[0]] else []) + Among(handles[1..], keys)
  }

  /** The members in the order in which they joined. */
  function Order(es: seq<Event>): seq<int> {
    if es == [] then []
    else
      var before, e := es[..|es| - 1], es[|es| - 1];
      Among(Order(before), RefRun(es).members.Keys)
      + (if e.Subscribe? && e.handle !in RefRun(before).members then [e.handle] else [])
  }

  /** What these handles hear, one after the other. */
  function HeardInTurn(r: Ref, e: Event, handles: seq<int>): seq<Output> {
    if handles == [] then [] else Hears(r, e, handles[0]) + HeardInTurn(r, e, handles[1..])
  }

  /** Everything that is sent for an event, in order: what the handle that asks hears, or all members hear
      in turn, and then what the framework hears. */
  function Transcript(r: Ref, e: Event, order: seq<int>): seq<Output> {
    (match e
     case Subscribe(handle, _) => Hears(r, e, handle)
     case Unsubscribe(current) => Hears(r, e, current.handle)
     case _ => HeardInTurn(r, e, order))
    + FrameworkHears(r, e)
  }

  function Handles(subs: seq<Subscriber>): seq<int> {
    if subs == [] then [] else [subs[0].handle] + Handles(subs[1..])
  }

  lemma {:induction false} HandlesAppend(subs: seq<Subscriber>, last: Subscriber)
    ensures Handles(subs + [last]) == Handles(subs) + [last.handle]
  {
    if subs != [] {
      assert (subs + [last])[1..] == subs[1..] + [last];
      HandlesAppend(subs[1..], last);
    }
  }

  lemma {:induction false} AmongRemove(subs: seq<Subscriber>, gone: int, keys: set<int>)
    requires forall s :: s in subs ==> (s.handle in keys <==> s.handle != gone)
    ensures Handles(Remove(subs, gone)) == Among(Handles(subs), keys)
  {
    if subs != [] {
      assert forall s :: s in subs[1..] ==> s in subs;
      AmongRemove(subs[1..], gone, keys);
      var rest := Remove(subs[1..], gone);
      assert ([subs[0]] + rest)[1..] == rest && [] + rest == rest && subs[0] in subs;
    }
  }

  lemma {:induction false} AmongKept(subs: seq<Subscriber>, audience: Audience, keys: set<int>)
    requires forall s :: s in subs ==> (s.handle in keys <==> !Addressed(audience, s))
    ensures Handles(Kept(subs, audience, true)) == Among(Handles(subs), keys)
  {
    if subs != [] {
      assert forall s :: s in subs[1..] ==> s in subs;
      AmongKept(subs[1..], audience, keys);
      var rest := Kept(subs[1..], audience, true);
      assert ([subs[0]] + rest)[1..] == rest && [] + rest == rest && subs[0] in subs;
    }
  }

  lemma {:induction false} AmongAll(subs: seq<Subscriber>, keys: set<int>)
    requires forall s :: s in subs ==> s.handle in keys
    ensures Among(Handles(subs), keys) == Handles(subs)
  {
    if subs != [] {
      assert forall s :: s in subs[1..] ==> s in subs;
      AmongAll(subs[1..], keys);
    }
  }

  lemma {:induction false} HandlesMark(subs: seq<Subscriber>, marked: seq<Subscriber>)
    requires |marked| == |subs| && forall i :: 0 <= i < |subs| ==> marked[i].handle == subs[i].handle
    ensures Handles(marked) == Handles(subs)
  {
    if subs != [] {
      HandlesMark(subs[1..], marked[1..]);
    }
  }

  lemma JoinOrder(m: Machine, r: Ref, handle: int, waitForClose: bool)
    requires Mirrors(m, r)
    ensures Handles(Add(m.subs, Subscriber(handle, waitForClose, false)))
      == Among(Handles(m.subs), RefNext(r, Subscribe(handle, waitForClose)).members.Keys)
         + (if handle in r.members then [] else [handle])
  {
    ListedMember(m.subs, handle);
    HandlesAppend(m.subs, Subscriber(handle, waitForClose, false));
    AmongAll(m.subs, RefNext(r, Subscribe(handle, waitForClose)).members.Keys);
  }

  lemma LeaveOrder(m: Machine, r: Ref, current: Subscriber)
    requires Mirrors(m, r)
    ensures var subs := if current.waitForClose then Mark(m.subs, current.handle) else Remove(m.subs, current.handle);
      Handles(subs) == Among(Handles(m.subs), Left(r.members, current).Keys)
  {
    var keys := Left(r.members, current).Keys;
    if current.waitForClose {
      HandlesMark(m.subs, Mark(m.subs, current.handle));
      AmongAll(m.subs, keys);
    } else {
      AmongRemove(m.subs, current.handle, keys);
    }
  }

  lemma ReleaseOrder(m: Machine, r: Ref)
    requires Mirrors(m, r)
    ensures Handles(OnReleaseDone(m).machine.subs) == Among(Handles(m.subs), AfterRelease(r).members.Keys)
    ensures [] == Among(Handles(m.subs), {})
    ensures Handles(m.subs) == Among(Handles(m.subs), r.members.Keys)
  {
    AmongKept(m.subs, OnlyInactive, AfterRelease(r).members.Keys);
    AmongKept(m.subs, Everyone, {});
    KeptNobody(m.subs);
    AmongAll(m.subs, r.members.Keys);
  }

  lemma StepOrder(m: Machine, e: Event, r: Ref)
    requires Mirrors(m, r)
    ensures Handles(Step(m, e).machine.subs)
      == Among(Handles(m.subs), RefNext(r, e).members.Keys)
         + (if e.Subscribe? && e.handle !in r.members then [e.handle] else [])
  {
    match e
    case Subscribe(handle, waitForClose) => JoinOrder(m, r, handle, waitForClose);
    case Unsubscribe(current) =>
      LeaveOrder(m, r, current);
      AmongAll(m.subs, r.members.Keys);
    case OnGranted => AmongAll(m.subs, r.members.Keys);
    case _ => EndOrder(m, e, r);
  }

  lemma EndOrder(m: Machine, e: Event, r: Ref)
    requires Mirrors(m, r) && (e == OnReleased || e == OnDenied || e == ModemRestart)
    ensures Handles(Step(m, e).machine.subs) == Among(Handles(m.subs), RefNext(r, e).members.Keys)
  {
    var nobody: map<int, Member> := map[];
    assert nobody.Keys == {};
    KeptNobody(m.subs);
    if m.state == Releasing && e != ModemRestart {
      ReleaseOrder(m, r);
    } else if RefNext(r, e).members == nobody {
      ReleaseOrder(m, r);
    } else {
      AmongAll(m.subs, r.members.Keys);
    }
  }

  /** Over every run the list is in the order in which its members joined. */
  lemma {:induction false} RunOrder(es: seq<Event>)
    ensures Handles(Run(es).subs) == Order(es)
  {
    if es != [] {
      RunOrder(es[..|es| - 1]);
      RunMirrors(es[..|es| - 1]);
      StepOrder(Run(es[..|es| - 1]), es[|es| - 1], RefRun(es[..|es| - 1]));
    }
  }

  lemma {:induction false} NoticesInTurn(subs: seq<Subscriber>, notice: Notice, audience: Audience, r: Ref, e: Event)
    requires forall s :: s in subs ==> Hears(r, e, s.handle) == NoticeTo(s, notice, audience)
    ensures Notices(subs, notice, audience) == HeardInTurn(r, e, Handles(subs))
  {
    if subs != [] {
      assert forall s :: s in subs[1..] ==> s in subs;
      NoticesInTurn(subs[1..], notice, audience, r, e);
    }
  }

  lemma {:induction false} NobodyHears(subs: seq<Subscriber>, r: Ref, e: Event)
    requires forall s :: s in subs ==> Hears(r, e, s.handle) == []
    ensures HeardInTurn(r, e, Handles(subs)) == []
  {
    if subs != [] {
      assert forall s :: s in subs[1..] ==> s in subs;
      NobodyHears(subs[1..], r, e);
    }
  }

  lemma ReleaseTranscript(m: Machine, e: Event, r: Ref)
    requires Mirrors(m, r) && m.state == Releasing && (e == OnReleased || e == OnDenied)
    ensures OnReleaseDone(m).outputs == Transcript(r, e, Handles(m.subs))
  {
    NoticesInTurn(m.subs, Closed, OnlyInactive, r, e);
    StayMirrors(m, r, m.state);
    StayingAgain(r.members);
    MirrorsActive(Machine(m.state, Kept(m.subs, OnlyInactive, true)), Ref(m.state, Staying(r.members)));
  }

  lemma UnsubscribeTranscript(m: Machine, current: Subscriber, r: Ref)
    requires Mirrors(m, r)
    ensures OnUnsubscribe(m, current).outputs == Transcript(r, Unsubscribe(current), Handles(m.subs))
  {
    if m.state != Released {
      LeftMirrors(m, r, current, m.state);
      var subs := if current.waitForClose then Mark(m.subs, current.handle) else Remove(m.subs, current.handle);
      MirrorsActive(Machine(m.state, subs), Ref(m.state, Left(r.members, current)));
    }
  }

  lemma StepTranscript(m: Machine, e: Event, r: Ref)
    requires Mirrors(m, r)
    ensures Step(m, e).outputs == Transcript(r, e, Handles(m.subs))
  {
    match e
    case Subscribe(_, _) =>
    case Unsubscribe(current) => UnsubscribeTranscript(m, current, r);
    case OnGranted =>
      if m.state == Pending {
        NoticesInTurn(m.subs, OpenGranted, OnlyActive, r, e);
      } else {
        NobodyHears(m.subs, r, e);
      }
    case OnReleased =>
      if m.state == Acquired {
        NoticesInTurn(m.subs, Closed, Everyone, r, e);
      } else if m.state == Releasing {
        ReleaseTranscript(m, e, r);
      } else {
        NobodyHears(m.subs, r, e);
      }
    case OnDenied =>
      if m.state == Pending {
        NoticesInTurn(m.subs, OpenDenied, Everyone, r, e);
      } else if m.state == Releasing {
        ReleaseTranscript(m, e, r);
      } else {
        NobodyHears(m.subs, r, e);
      }
    case ModemRestart => NobodyHears(m.subs, r, e);
  }

  /** In every run and for every event, everything that is sent, and in which order: the members hear in
      the order in which they joined, and the framework last. */
  lemma RunTranscript(es: seq<Event>, e: Event)
    ensures Step(Run(es), e).outputs == Transcript(RefRun(es), e, Order(es))
  {
    RunMirrors(es);
    RunOrder(es);
    StepTranscript(Run(es), e, RefRun(es));
  }
}
