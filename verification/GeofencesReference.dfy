/** The geofence tables told from the history of each key. */
module GeofencesReference {
  import opened Geofences

  /** A key has no fence; or its fence is in the modem under this hardware id, and `led` says whether its
      client is still there; or a restart has asked the modem to add the fence, known as `was`, again. */
  datatype Life =
    | Absent
    | Held(hwId: nat, options: Options, info: Info, led: bool)
    | Asked(was: nat, options: Options, info: Info)

  function LifeOf(es: seq<Event>, k: Key): Life {
    if es == [] then Absent else Lives(LifeOf(es[..|es| - 1], k), es[|es| - 1], k)
  }

  /** What an event makes of a key's fence. A client that has gone no longer removes its fences; a fence
      that waits when the modem goes down again is lost. */
  function Lives(life: Life, e: Event, k: Key): Life {
    match e
    case Added(key, hwId, options, info) => if key == k then Held(hwId, options, info, true) else life
    case RemoveAnswered(hwId, ok) => if ok && life.Held? && life.hwId == hwId && life.led then Absent else life
    case ModifyAnswered(hwId, options, ok) =>
      if ok && life.Held? && life.hwId == hwId then Held(hwId, options, life.info, life.led) else life
    case ClientStopped(client) =>
      if life.Held? && k.client == client then Held(life.hwId, life.options, life.info, false) else life
    case ClientRemovalAnswered(hwId, ok) => if ok && life.Held? && life.hwId == hwId then Absent else life
    case EngineUp => if life.Held? then Asked(life.hwId, life.options, life.info) else Absent
    case Readded(was, hwId, _) =>
      if life.Asked? && life.was == was then Held(hwId, life.options, life.info, true) else life
    case NotReadded(was) => if life.Asked? && life.was == was then Absent else life
    case PauseAnswered(_, _) => life
    case ResumeAnswered(_, _) => life
  }

  predicate Carries(fences: Fences, h: nat, k: Key, options: Options, info: Info) {
    h in fences && fences[h].key == k && fences[h].options == options && fences[h].info == info
  }

  predicate Without(fences: Fences, k: Key) { forall h :: h in fences ==> fences[h].key != k }

  /** The tables, and what the restart still waits for, say this of the key. */
  predicate Shows(w: World, k: Key, life: Life) {
    match life
    case Absent => k !in w.table.ids && Without(w.table.fences, k) && Without(w.pending, k)
    case Held(hwId, options, info, led) =>
      Carries(w.table.fences, hwId, k, options, info) && Without(w.pending, k)
      && (k in w.table.ids <==> led) && (led ==> w.table.ids[k] == hwId)
    case Asked(was, options, info) =>
      Carries(w.pending, was, k, options, info) && Without(w.table.fences, k) && k !in w.table.ids
  }

  lemma AddedShows(w: World, e: Event, k: Key, life: Life)
    requires Inv(w) && Proper(w, e) && Shows(w, k, life) && e.Added?
    ensures Shows(Next(w, e), k, Lives(life, e, k))
  {
    assert Without(w.pending, e.key) by {
      assert forall h :: h in w.pending ==> w.pending[h].key in w.usedKeys;
    }
    assert Without(w.table.fences, e.key);
  }

  /** Changing flags or options of one fence. */
  lemma EditShows(w: World, w': World, h: nat, f: Fence, k: Key, life: Life)
    requires Shows(w, k, life) && h in w.table.fences
    requires f.key == w.table.fences[h].key && f.info == w.table.fences[h].info
    requires w'.table == w.table.(fences := w.table.fences[h := f]) && w'.pending == w.pending
    ensures Shows(w', k, if life.Held? && life.hwId == h then Held(h, f.options, life.info, life.led) else life)
  {
    assert Without(w.table.fences, k) ==> Without(w'.table.fences, k);
  }

  lemma FlagShows(w: World, e: Event, k: Key, life: Life)
    requires Inv(w) && Shows(w, k, life) && (e.PauseAnswered? || e.ResumeAnswered? || e.ModifyAnswered?)
    ensures Shows(Next(w, e), k, Lives(life, e, k))
  {
    if e.ok && e.hwId in w.table.fences {
      var f := w.table.fences[e.hwId];
      match e
      case PauseAnswered(hwId, _) => EditShows(w, Next(w, e), hwId, f.(paused := true), k, life);
      case ResumeAnswered(hwId, _) => EditShows(w, Next(w, e), hwId, f.(paused := false), k, life);
      case ModifyAnswered(hwId, options, _) => EditShows(w, Next(w, e), hwId, f.(options := options), k, life);
    }
  }

  lemma GoneShows(w: World, e: Event, k: Key, life: Life)
    requires Inv(w) && Proper(w, e) && Shows(w, k, life)
    requires e.RemoveAnswered? || e.ClientStopped? || e.ClientRemovalAnswered?
    ensures Shows(Next(w, e), k, Lives(life, e, k))
  {
  }

  lemma RestartShows(w: World, e: Event, k: Key, life: Life)
    requires Inv(w) && Proper(w, e) && Shows(w, k, life) && (e.EngineUp? || e.Readded? || e.NotReadded?)
    ensures Shows(Next(w, e), k, Lives(life, e, k))
  {
    if e.Readded? {
      var f := w.pending[e.was];
      assert e.hwId !in w.table.fences && f.key !in w.table.ids && Without(w.table.fences, f.key);
    }
  }

  /** Over every proper run the tables hold, for every key, exactly the fence that its history says: under
      its latest hardware id, with its latest options, led to unless its client has gone. */
  lemma {:induction false} RunShows(es: seq<Event>, k: Key)
    requires ProperRun(es)
    ensures Shows(Run(es), k, LifeOf(es, k))
  {
    if es != [] {
      var before, e := es[..|es| - 1], es[|es| - 1];
      RunShows(before, k);
      RunInv(before);
      var w, life := Run(before), LifeOf(before, k);
      match e
      case Added(_, _, _, _) => AddedShows(w, e, k, life);
      case RemoveAnswered(_, _) => GoneShows(w, e, k, life);
      case ClientStopped(_) => GoneShows(w, e, k, life);
      case ClientRemovalAnswered(_, _) => GoneShows(w, e, k, life);
      case PauseAnswered(_, _) => FlagShows(w, e, k, life);
      case ResumeAnswered(_, _) => FlagShows(w, e, k, life);
      case ModifyAnswered(_, _, _) => FlagShows(w, e, k, life);
      case EngineUp => RestartShows(w, e, k, life);
      case Readded(_, _, _) => RestartShows(w, e, k, life);
      case NotReadded(_) => RestartShows(w, e, k, life);
    }
  }

  /** A client that goes has exactly its own fences removed: those its history holds and leads to. */
  lemma RemovalsAreOwn(es: seq<Event>, client: int, h: nat)
    requires ProperRun(es)
    ensures h in IdsOf(Run(es).table, client)
      <==> exists k: Key :: k.client == client && LifeOf(es, k).Held? && LifeOf(es, k).led && LifeOf(es, k).hwId == h
  {
    var t := Run(es).table;
    if h in IdsOf(t, client) {
      var k :| k in t.ids && k.client == client && t.ids[k] == h;
      RunShows(es, k);
    }
    if k: Key :| k.client == client && LifeOf(es, k).Held? && LifeOf(es, k).led && LifeOf(es, k).hwId == h {
      RunShows(es, k);
    }
  }
}
