/** Network-initiated requests: one slot for normal and one for emergency requests, each with
    a thread that waits for the client's answer and disposes of the request. */
module Ni {
  import opened Basics

  datatype Response = Accept | Deny | NoResponse | Ignore

  datatype Slot = Slot(raw: Option<int>, reqId: nat, resp: Response, responded: bool)

  datatype State = State(session: Slot, sessionEs: Slot, counter: nat)

  datatype Output =
    | AskClient(reqId: nat)
    | Inform(resp: Response, data: int)
    | Free(data: int)

  /** Sections under a slot's lock, the slot check included, and a thread's exit are single steps. */
  datatype Event =
    | NotifyRequest(emergency: bool, data: int, hasClient: bool, informAccept: bool)
    | ClientResponse(hasClient: bool, reqId: nat, resp: Response)
    | ThreadExit(emergency: bool, timedOut: bool)

  datatype Result = Result(state: State, outputs: seq<Output>)

  const INITIAL := State(Slot(None, 0, NoResponse, false), Slot(None, 0, NoResponse, false), 0)

  function Answer(s: Slot, resp: Response): Slot { s.(resp := resp, responded := true) }

  /** An accepted emergency request makes a pending normal one be ignored. */
  function Overrule(s: Slot): Slot { if s.raw.Some? then Answer(s, Ignore) else s }

  function Take(s: Slot, data: int, reqId: nat): Slot { s.(raw := Some(data), reqId := reqId) }

  function Final(s: Slot, timedOut: bool): Response { if s.responded && !timedOut then s.resp else NoResponse }

  function Exit(s: Slot, timedOut: bool): Slot {
    Slot(None, 0, Final(s, timedOut), false)
  }

  function Disposal(s: Slot, timedOut: bool): seq<Output> {
    if s.raw.None? then []
    else if Final(s, timedOut) != Ignore then [Inform(Final(s, timedOut), s.raw.value)]
    else [Free(s.raw.value)]
  }

  function Next(s: State, e: Event): Result {
    match e
    case NotifyRequest(emergency, data, hasClient, informAccept) =>
      if !hasClient then
        if emergency && informAccept then Result(s.(session := Overrule(s.session)), [Inform(Accept, data)])
        else Result(s, [])
      else if s.sessionEs.raw.Some? || (!emergency && s.session.raw.Some?) then Result(s, [Free(data)])
      else if emergency then
        var reqId := s.counter + 1;
        Result(s.(sessionEs := Take(s.sessionEs, data, reqId), counter := reqId), [AskClient(reqId)])
      else
        var reqId := s.counter + 1;
        Result(s.(session := Take(s.session, data, reqId), counter := reqId), [AskClient(reqId)])
    case ClientResponse(hasClient, reqId, resp) =>
      if !hasClient then Result(s, [])
      else if reqId == s.sessionEs.reqId && s.sessionEs.raw.Some? then
        Result(s.(session := if resp == Accept then Overrule(s.session) else s.session,
                  sessionEs := Answer(s.sessionEs, resp)), [])
      else if reqId == s.session.reqId && s.session.raw.Some? then
        Result(s.(session := Answer(s.session, resp)), [])
      else Result(s, [])
    case ThreadExit(emergency, timedOut) =>
      if emergency then Result(s.(sessionEs := Exit(s.sessionEs, timedOut)), Disposal(s.sessionEs, timedOut))
      else Result(s.(session := Exit(s.session, timedOut)), Disposal(s.session, timedOut))
  }

  function Run(es: seq<Event>): State {
    if es == [] then INITIAL else Next(Run(es[..|es| - 1]), es[|es| - 1]).state
  }

  // ----- slots ---------------------------------------------------------------------------

  /** An empty slot carries no answer; a filled one has an id given out before; and when both
      are filled the normal request is the older one. */
  predicate Inv(s: State) {
    (s.session.raw.None? ==> !s.session.responded)
    && (s.sessionEs.raw.None? ==> !s.sessionEs.responded)
    && (s.session.raw.Some? ==> 1 <= s.session.reqId <= s.counter)
    && (s.sessionEs.raw.Some? ==> 1 <= s.sessionEs.reqId <= s.counter)
    && (s.session.raw.Some? && s.sessionEs.raw.Some? ==> s.session.reqId < s.sessionEs.reqId)
  }

  lemma {:induction false} RunInv(es: seq<Event>)
    ensures Inv(Run(es))
  {
    if es != [] {
      RunInv(es[..|es| - 1]);
    }
  }

  /** A normal request never waits beside an emergency request that was there before it. */
  lemma NormalRequestsGiveWay(es: seq<Event>, e: Event)
    ensures var s, s' := Run(es), Next(Run(es), e).state;
      (s.session.raw.None? && s'.session.raw.Some? ==> s'.sessionEs.raw.None?)
      && (s'.session.raw.Some? && s'.sessionEs.raw.Some? ==> s'.session.reqId < s'.sessionEs.reqId)
  {
    RunInv(es);
  }

  // ----- the ledger of requests --------------------------------------------------------------

  /** A request leaving its slot, with what became of it. */
  datatype Departure = Departure(reqId: nat, data: int, resp: Response)

  function Departures(s: State, e: Event): seq<Departure> {
    match e
    case ThreadExit(emergency, timedOut) =>
      var slot := if emergency then s.sessionEs else s.session;
      if slot.raw.None? then [] else [Departure(slot.reqId, slot.raw.value, Final(slot, timedOut))]
    case _ => []
  }

  function AllDepartures(es: seq<Event>): seq<Departure> {
    if es == [] then [] else AllDepartures(es[..|es| - 1]) + Departures(Run(es[..|es| - 1]), es[|es| - 1])
  }

  /** The data of the requests that took a slot, in order; request ids count them from 1. */
  function AllTaken(es: seq<Event>): seq<int> {
    if es == [] then []
    else
      var s, e := Run(es[..|es| - 1]), es[|es| - 1];
      AllTaken(es[..|es| - 1]) + (if e.NotifyRequest? && Takes(s, e) then [e.data] else [])
  }

  function Departed(ds: seq<Departure>, reqId: nat): nat {
    if ds == [] then 0 else (if ds[|ds| - 1].reqId == reqId then 1 else 0) + Departed(ds[..|ds| - 1], reqId)
  }

  function Pending(s: State, reqId: nat): nat {
    (if s.session.raw.Some? && s.session.reqId == reqId then 1 else 0)
    + (if s.sessionEs.raw.Some? && s.sessionEs.reqId == reqId then 1 else 0)
  }

  predicate Takes(s: State, e: Event) { Next(s, e).state.counter > s.counter }

  lemma StepPending(s: State, e: Event, reqId: nat)
    requires Inv(s)
    ensures Next(s, e).state.counter == s.counter + (if Takes(s, e) then 1 else 0)
    ensures Departed(Departures(s, e), reqId) + Pending(Next(s, e).state, reqId)
         == Pending(s, reqId) + (if Takes(s, e) && reqId == s.counter + 1 then 1 else 0)
  {
    if e.ThreadExit? {
      var ds := Departures(s, e);
      assert ds != [] ==> ds[..0] == [];
    }
  }

  lemma {:induction false} DepartedConcat(a: seq<Departure>, b: seq<Departure>, reqId: nat)
    ensures Departed(a + b, reqId) == Departed(a, reqId) + Departed(b, reqId)
  {
    if b == [] {
      assert a + b == a;
    } else {
      assert (a + b)[..|a + b| - 1] == a + b[..|b| - 1];
      DepartedConcat(a, b[..|b| - 1], reqId);
    }
  }

  /** Every request that takes a slot is at each moment either in that slot or has left it
      once; no other id ever leaves. */
  lemma {:induction false} DisposedExactlyOnce(es: seq<Event>, reqId: nat)
    ensures |AllTaken(es)| == Run(es).counter
    ensures Departed(AllDepartures(es), reqId) + Pending(Run(es), reqId)
         == if 1 <= reqId <= Run(es).counter then 1 else 0
  {
    if es != [] {
      var before, e := es[..|es| - 1], es[|es| - 1];
      DisposedExactlyOnce(before, reqId);
      RunInv(before);
      StepPending(Run(before), e, reqId);
      DepartedConcat(AllDepartures(before), Departures(Run(before), e), reqId);
    }
  }

  /** In its slot a request keeps the data it came with. */
  predicate Faithful(s: State, taken: seq<int>) {
    (s.session.raw.Some? ==> 1 <= s.session.reqId <= |taken| && s.session.raw.value == taken[s.session.reqId - 1])
    && (s.sessionEs.raw.Some? ==>
          1 <= s.sessionEs.reqId <= |taken| && s.sessionEs.raw.value == taken[s.sessionEs.reqId - 1])
  }

  lemma StepFaithful(s: State, e: Event, taken: seq<int>)
    requires Inv(s) && |taken| == s.counter && Faithful(s, taken)
    ensures var taken' := taken + (if e.NotifyRequest? && Takes(s, e) then [e.data] else []);
      |taken'| == Next(s, e).state.counter && Faithful(Next(s, e).state, taken')
    ensures forall d :: d in Departures(s, e) ==> 1 <= d.reqId <= |taken| && d.data == taken[d.reqId - 1]
  {
    StepPending(s, e, 0);
  }

  lemma {:induction false} RunFaithful(es: seq<Event>)
    ensures |AllTaken(es)| == Run(es).counter && Faithful(Run(es), AllTaken(es))
    ensures forall d :: d in AllDepartures(es) ==> 1 <= d.reqId <= |AllTaken(es)| && d.data == AllTaken(es)[d.reqId - 1]
  {
    if es != [] {
      RunFaithful(es[..|es| - 1]);
      RunInv(es[..|es| - 1]);
      StepFaithful(Run(es[..|es| - 1]), es[|es| - 1], AllTaken(es[..|es| - 1]));
    }
  }

  /** A departure is one message: a response carrying the request's own data, or, for IGNORE,
      one free of that data. */
  lemma DepartureIsOneMessage(es: seq<Event>, emergency: bool, timedOut: bool)
    ensures var s, e := Run(es), ThreadExit(emergency, timedOut);
      var ds := Departures(s, e);
      Next(s, e).outputs
        == if ds == [] then [] else [if ds[0].resp == Ignore then Free(ds[0].data) else Inform(ds[0].resp, ds[0].data)]
  {
  }

  // ----- where responses come from --------------------------------------------------------------

  /** A pending normal request is overruled: an emergency request is accepted, at once for want
      of a client or by the answer to it. */
  predicate Overrules(s: State, e: Event) {
    s.session.raw.Some?
    && match e
       case NotifyRequest(emergency, _, hasClient, informAccept) => !hasClient && emergency && informAccept
       case ClientResponse(hasClient, reqId, resp) =>
         hasClient && resp == Accept && s.sessionEs.raw.Some? && reqId == s.sessionEs.reqId
       case ThreadExit(_, _) => false
  }

  /** What one event answers, and to which pending request: the client's answer, or the IGNORE
      of an overruled one. */
  function Answers(s: State, e: Event): set<(nat, Response)> {
    (if e.ClientResponse? && e.hasClient && Pending(s, e.reqId) > 0 then {(e.reqId, e.resp)} else {})
    + (if Overrules(s, e) then {(s.session.reqId, Ignore)} else {})
  }

  function AllAnswers(es: seq<Event>): set<(nat, Response)> {
    if es == [] then {} else AllAnswers(es[..|es| - 1]) + Answers(Run(es[..|es| - 1]), es[|es| - 1])
  }

  predicate Sourced(s: Slot, answers: set<(nat, Response)>) {
    s.responded ==> (s.reqId, s.resp) in answers
  }

  /** A response never carries over to a later request: what a request leaves with, IGNORE
      included, is a timeout or was given to this very request while it was pending. */
  lemma {:induction false} NoCarryOver(es: seq<Event>)
    ensures Sourced(Run(es).session, AllAnswers(es)) && Sourced(Run(es).sessionEs, AllAnswers(es))
    ensures forall d :: d in AllDepartures(es) ==> d.resp == NoResponse || (d.reqId, d.resp) in AllAnswers(es)
  {
    if es != [] {
      NoCarryOver(es[..|es| - 1]);
      RunInv(es[..|es| - 1]);
    }
  }

  // ----- the classes -------------------------------------------------------------------------

  class NiSession {
    var rawRequest: Option<int>
    var reqID: nat
    var resp: Response
    var respRecvd: bool

    ghost function View(): Slot reads this { Slot(rawRequest, reqID, resp, respRecvd) }

    constructor ()
      ensures View() == Slot(None, 0, NoResponse, false)
    {
      rawRequest, reqID, resp, respRecvd := None, 0, NoResponse, false;
    }

    method Respond(response: Response)
      modifies this
      ensures View() == Answer(old(View()), response)
    {
      resp := response;
      respRecvd := true;
    }

    /** The end of `niThreadProc`; `reply` is what it hands to the response command. */
    method FinishThread(timedOut: bool) returns (outputs: seq<Output>)
      modifies this
      ensures View() == Exit(old(View()), timedOut) && outputs == Disposal(old(View()), timedOut)
    {
      if !respRecvd || timedOut {
        resp := NoResponse;
      }
      respRecvd := false;
      outputs := [];
      if rawRequest.Some? {
        if resp != Ignore {
          outputs := [Inform(resp, rawRequest.value)];
        } else {
          outputs := [Free(rawRequest.value)];
        }
        rawRequest := None;
      }
      reqID := 0;
    }
  }

  class NiControl {
    const session: NiSession
    const sessionEs: NiSession
    var reqIDCounter: nat
    var outputs: seq<Output>

    ghost predicate Valid() { session != sessionEs }

    ghost function View(): State reads this, session, sessionEs {
      State(session.View(), sessionEs.View(), reqIDCounter)
    }

    twostate predicate Did(e: Event) reads this, session, sessionEs {
      var r := Next(old(View()), e);
      View() == r.state && outputs == old(outputs) + r.outputs
    }

    constructor ()
      ensures Valid() && View() == INITIAL && outputs == [] && fresh(session) && fresh(sessionEs)
    {
      session := new NiSession();
      sessionEs := new NiSession();
      reqIDCounter, outputs := 0, [];
    }

    method RequestNiNotify(emergency: bool, data: int, hasClient: bool, informAccept: bool)
      requires Valid()
      modifies this, session, sessionEs
      ensures Did(NotifyRequest(emergency, data, hasClient, informAccept))
    {
      if !hasClient {
        if emergency && informAccept {
          outputs := outputs + [Inform(Accept, data)];
          if session.rawRequest.Some? {
            session.Respond(Ignore);
          }
        }
        return;
      }
      var pSession: NiSession? := null;
      if emergency {
        if sessionEs.rawRequest.Some? {
          outputs := outputs + [Free(data)];
        } else {
          pSession := sessionEs;
        }
      } else {
        if session.rawRequest.Some? || sessionEs.rawRequest.Some? {
          outputs := outputs + [Free(data)];
        } else {
          pSession := session;
        }
      }
      if pSession != null {
        reqIDCounter := reqIDCounter + 1;
        pSession.rawRequest := Some(data);
        pSession.reqID := reqIDCounter;
        outputs := outputs + [AskClient(reqIDCounter)];
      }
    }

    method GnssNiResponse(hasClient: bool, reqId: nat, response: Response)
      requires Valid()
      modifies session, sessionEs
      ensures Did(ClientResponse(hasClient, reqId, response))
    {
      if !hasClient {
        return;
      }
      var pSession: NiSession? := null;
      if reqId == sessionEs.reqID && sessionEs.rawRequest.Some? {
        pSession := sessionEs;
        if response == Accept && session.rawRequest.Some? {
          session.Respond(Ignore);
        }
      } else if reqId == session.reqID && session.rawRequest.Some? {
        pSession := session;
      }
      if pSession != null {
        pSession.Respond(response);
      }
    }

    method ThreadEnds(emergency: bool, timedOut: bool)
      requires Valid()
      modifies this, session, sessionEs
      ensures Did(ThreadExit(emergency, timedOut))
    {
      var pSession := if emergency then sessionEs else session;
      var sent := pSession.FinishThread(timedOut);
      outputs := outputs + sent;
    }
  }
}
