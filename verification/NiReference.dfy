/** Network-initiated requests told from their history: which request waits where, the last answer it
    was given, and what is sent to whom. */
module NiReference {
  import opened Basics
  import opened Ni

  /** An emergency request is let in where none waits, a normal one where nothing waits. */
  predicate LetIn(e: Event, normal: Option<nat>, emergency: Option<nat>)
    requires e.NotifyRequest?
  {
    e.hasClient && emergency == None && (e.emergency || normal == None)
  }

  /** The data of the requests that were let in, in order; ids count them from 1. */
  function Admissions(es: seq<Event>): seq<int> {
    if es == [] then []
    else
      var before, e := es[..|es| - 1], es[|es| - 1];
      var letIn := e.NotifyRequest? && LetIn(e, Waits(before, false), Waits(before, true));
      Admissions(before) + (if letIn then [e.data] else [])
  }

  /** The id of the request of this kind that waits. */
  function Waits(es: seq<Event>, emergency: bool): Option<nat> {
    if es == [] then None
    else
      var before, e := es[..|es| - 1], es[|es| - 1];
      if e.NotifyRequest? && e.emergency == emergency && LetIn(e, Waits(before, false), Waits(before, true)) then
        Some(|Admissions(before)| + 1)
      else if e.ThreadExit? && e.emergency == emergency then None
      else Waits(before, emergency)
  }

  predicate Admitted(es: seq<Event>, e: Event)
    requires e.NotifyRequest?
  {
    LetIn(e, Waits(es, false), Waits(es, true))
  }

  /** An emergency request is accepted: on the spot for want of a client, or by the client's answer. */
  predicate EmergencyAccepted(es: seq<Event>, e: Event) {
    match e
    case NotifyRequest(emergency, _, hasClient, informAccept) => !hasClient && emergency && informAccept
    case ClientResponse(hasClient, reqId, resp) => hasClient && resp == Accept && Waits(es, true) == Some(reqId)
    case ThreadExit(_, _) => false
  }

  /** The last answer this request was given while it waited: the client's, or the IGNORE of an accepted
      emergency request to a normal one. */
  function LastAnswer(es: seq<Event>, reqId: nat): Option<Response> {
    if es == [] then None
    else
      var before, e := es[..|es| - 1], es[|es| - 1];
      if Waits(before, false) == Some(reqId) && EmergencyAccepted(before, e) then Some(Ignore)
      else if e.ClientResponse? && e.hasClient && e.reqId == reqId
              && (Waits(before, true) == Some(reqId) || Waits(before, false) == Some(reqId)) then Some(e.resp)
      else LastAnswer(before, reqId)
  }

  /** What a request of these data leaves with. */
  function Farewell(data: int, answer: Option<Response>): Output {
    match answer
    case None => Inform(NoResponse, data)
    case Some(Ignore) => Free(data)
    case Some(resp) => Inform(resp, data)
  }

  function Data(es: seq<Event>, reqId: nat): int {
    if 1 <= reqId <= |Admissions(es)| then Admissions(es)[reqId - 1] else 0
  }

  /** What an event sends after these. */
  function Sent(es: seq<Event>, e: Event): seq<Output> {
    match e
    case NotifyRequest(emergency, data, hasClient, informAccept) =>
      if Admitted(es, e) then [AskClient(|Admissions(es)| + 1)]
      else if hasClient then [Free(data)]
      else if emergency && informAccept then [Inform(Accept, data)]
      else []
    case ClientResponse(_, _, _) => []
    case ThreadExit(emergency, timedOut) =>
      match Waits(es, emergency)
      case None => []
      case Some(reqId) => [Farewell(Data(es, reqId), if timedOut then None else LastAnswer(es, reqId))]
  }

  // ----- the slots hold this history -------------------------------------------------------------

  predicate Holds(s: Slot, es: seq<Event>, emergency: bool) {
    match Waits(es, emergency)
    case None => s.raw == None && !s.responded && s.reqId == 0
    case Some(reqId) =>
      1 <= reqId <= |Admissions(es)| && s.reqId == reqId && s.raw == Some(Admissions(es)[reqId - 1])
      && LastAnswer(es, reqId) == if s.responded then Some(s.resp) else None
  }

  lemma {:induction false} NeverAnswered(es: seq<Event>, reqId: nat)
    requires |Admissions(es)| < reqId
    ensures LastAnswer(es, reqId) == None && Waits(es, false) != Some(reqId) && Waits(es, true) != Some(reqId)
  {
    if es != [] {
      NeverAnswered(es[..|es| - 1], reqId);
    }
  }

  predicate HoldsBoth(s: State, es: seq<Event>) {
    s.counter == |Admissions(es)| && Holds(s.session, es, false) && Holds(s.sessionEs, es, true)
    && (Waits(es, false).Some? ==> Waits(es, false) != Waits(es, true))
  }

  lemma NotifyHolds(es: seq<Event>, s: State)
    requires es != [] && es[|es| - 1].NotifyRequest? && HoldsBoth(s, es[..|es| - 1])
    ensures HoldsBoth(Next(s, es[|es| - 1]).state, es)
  {
    NeverAnswered(es[..|es| - 1], s.counter + 1);
  }

  lemma AnswerHolds(es: seq<Event>, s: State)
    requires es != [] && es[|es| - 1].ClientResponse? && HoldsBoth(s, es[..|es| - 1])
    ensures HoldsBoth(Next(s, es[|es| - 1]).state, es)
  {
  }

  lemma ExitHolds(es: seq<Event>, s: State)
    requires es != [] && es[|es| - 1].ThreadExit? && HoldsBoth(s, es[..|es| - 1])
    ensures HoldsBoth(Next(s, es[|es| - 1]).state, es)
  {
  }

  /** Over every run the slots hold exactly the requests that wait, with their data, and the last answer
      each was given; ids are never given twice. */
  lemma {:induction false} RunHolds(es: seq<Event>)
    ensures HoldsBoth(Run(es), es)
  {
    if es != [] {
      var s := Run(es[..|es| - 1]);
      RunHolds(es[..|es| - 1]);
      match es[|es| - 1]
      case NotifyRequest(_, _, _, _) => NotifyHolds(es, s);
      case ClientResponse(_, _, _) => AnswerHolds(es, s);
      case ThreadExit(_, _) => ExitHolds(es, s);
    }
  }

  lemma NotifySends(es: seq<Event>, s: State, e: Event)
    requires HoldsBoth(s, es) && e.NotifyRequest?
    ensures Next(s, e).outputs == Sent(es, e)
  {
    assert s.session.raw == None <==> Waits(es, false) == None;
    assert s.sessionEs.raw == None <==> Waits(es, true) == None;
  }

  lemma ExitSends(es: seq<Event>, slot: Slot, emergency: bool, timedOut: bool)
    requires Holds(slot, es, emergency)
    ensures Disposal(slot, timedOut) == Sent(es, ThreadExit(emergency, timedOut))
  {
    if Waits(es, emergency) != None {
      var reqId := Waits(es, emergency).value;
      assert Data(es, reqId) == Admissions(es)[reqId - 1];
    }
  }

  /** After every run each event sends exactly what the history calls for: a request that is let in asks
      the client once, under the next id; another one is freed, or accepted on the spot; and a request
      leaves with the last answer it was given, or with NoResponse if there was none or it timed out. */
  lemma RunSends(es: seq<Event>, e: Event)
    ensures Next(Run(es), e).outputs == Sent(es, e)
  {
    RunHolds(es);
    match e
    case NotifyRequest(_, _, _, _) => NotifySends(es, Run(es), e);
    case ClientResponse(_, _, _) =>
    case ThreadExit(emergency, timedOut) =>
      ExitSends(es, if emergency then Run(es).sessionEs else Run(es).session, emergency, timedOut);
  }

  /** A departure carries the last answer; it says NoResponse exactly where the exit timed out, no answer
      was given, or NoResponse was the answer. */
  lemma LeavesWithLastAnswer(es: seq<Event>, emergency: bool, timedOut: bool, reqId: nat)
    requires Waits(es, emergency) == Some(reqId)
    ensures var ds, answer := Departures(Run(es), ThreadExit(emergency, timedOut)), LastAnswer(es, reqId);
      |ds| == 1 && ds[0].reqId == reqId && ds[0].data == Data(es, reqId)
      && (!timedOut && answer.Some? ==> ds[0].resp == answer.value)
      && (ds[0].resp == NoResponse <==> timedOut || answer == None || answer == Some(NoResponse))
  {
    RunHolds(es);
  }
}
