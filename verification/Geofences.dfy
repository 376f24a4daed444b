/** The two geofence tables, hardware id to fence and client key to hardware id. */
module Geofences {

  datatype Key = Key(client: int, id: nat)

  datatype Options = Options(breachMask: nat, responsiveness: nat, dwellTime: nat)

  datatype Info = Info(latitude: real, longitude: real, radius: real)

  datatype Fence = Fence(key: Key, options: Options, info: Info, paused: bool)

  type Fences = map<nat, Fence>
  type Ids = map<Key, nat>

  datatype Table = Table(fences: Fences, ids: Ids)

  // ----- the steps ------------------------------------------------------------------------

  function Save(t: Table, key: Key, hwId: nat, options: Options, info: Info): Table {
    Table(t.fences[hwId := Fence(key, options, info, false)], t.ids[key := hwId])
  }

  function Remove(t: Table, hwId: nat): Table {
    if hwId in t.fences && t.fences[hwId].key in t.ids
    then Table(t.fences - {hwId}, t.ids - {t.fences[hwId].key})
    else t
  }

  function SetPaused(t: Table, hwId: nat, paused: bool): Table {
    if hwId in t.fences then t.(fences := t.fences[hwId := t.fences[hwId].(paused := paused)]) else t
  }

  function Modify(t: Table, hwId: nat, options: Options): Table {
    if hwId in t.fences then t.(fences := t.fences[hwId := t.fences[hwId].(options := options)]) else t
  }

  function StopClient(t: Table, client: int): Table {
    t.(ids := map k | k in t.ids && k.client != client :: t.ids[k])
  }

  /** The hardware ids whose removal the modem is asked for when a client goes. */
  function IdsOf(t: Table, client: int): set<nat> {
    set k | k in t.ids && k.client == client :: t.ids[k]
  }

  predicate DistinctKeys(fences: Fences) {
    forall h, g :: h in fences && g in fences && h != g ==> fences[h].key != fences[g].key
  }

  /** What a restart saves for an old fence: everything but the paused flag. */
  function Renewed(f: Fence): Fence { f.(paused := false) }

  function Carriers(fences: Fences): set<Key> { set h | h in fences :: fences[h].key }

  // ----- runs -----------------------------------------------------------------------------

  /** `pending` holds the old fences that a restart has asked the modem to add again and that it has
      not answered for, `modemPaused` the hardware ids the modem has paused, `loose` those of stopped
      clients whose removal the modem has not confirmed; `usedHw` and `usedKeys` everything ever
      handed out. */
  datatype World = World(table: Table, pending: Fences, modemPaused: set<nat>, loose: set<nat>,
                         usedHw: set<nat>, usedKeys: set<Key>)

  /** Answers of the modem arrive as events of their own, at any later time; for a fence that was
      paused, `refused` is the answer to the request to pause it again. */
  datatype Event =
    | Added(key: Key, hwId: nat, options: Options, info: Info)
    | RemoveAnswered(hwId: nat, ok: bool)
    | PauseAnswered(hwId: nat, ok: bool)
    | ResumeAnswered(hwId: nat, ok: bool)
    | ModifyAnswered(hwId: nat, options: Options, ok: bool)
    | ClientStopped(client: int)
    | ClientRemovalAnswered(hwId: nat, ok: bool)
    | EngineUp
    | Readded(was: nat, hwId: nat, refused: bool)
    | NotReadded(was: nat)

  const INITIAL := World(Table(map[], map[]), map[], {}, {}, {}, {})

  /** The restart clears both tables and asks for the fences that were in them. Answers that the modem
      still owed when it went down never come. */
  function Cleared(t: Table): Table { if t.fences == map[] then t else Table(map[], map[]) }

  /** A fence that the modem took again, and whether the modem has it paused. */
  function Readd(w: World, f: Fence, hwId: nat, refused: bool): World {
    w.(table := Save(w.table, f.key, hwId, f.options, f.info),
       modemPaused := if f.paused && !refused then w.modemPaused + {hwId} else w.modemPaused - {hwId},
       usedHw := w.usedHw + {hwId})
  }

  function Next(w: World, e: Event): World {
    var t := w.table;
    match e
    case Added(key, hwId, options, info) =>
      w.(table := Save(t, key, hwId, options, info), modemPaused := w.modemPaused - {hwId},
         usedHw := w.usedHw + {hwId}, usedKeys := w.usedKeys + {key})
    case RemoveAnswered(hwId, ok) => w.(table := if ok then Remove(t, hwId) else t)
    case PauseAnswered(hwId, ok) =>
      if ok then w.(table := SetPaused(t, hwId, true), modemPaused := w.modemPaused + {hwId}) else w
    case ResumeAnswered(hwId, ok) =>
      if ok then w.(table := SetPaused(t, hwId, false), modemPaused := w.modemPaused - {hwId}) else w
    case ModifyAnswered(hwId, options, ok) => w.(table := if ok then Modify(t, hwId, options) else t)
    case ClientStopped(client) => w.(table := StopClient(t, client), loose := w.loose + IdsOf(t, client))
    case ClientRemovalAnswered(hwId, ok) =>
      w.(table := if ok then t.(fences := t.fences - {hwId}) else t)
    case EngineUp => w.(table := Cleared(t), pending := t.fences, modemPaused := {})
    case Readded(was, hwId, refused) =>
      if was in w.pending then Readd(w, w.pending[was], hwId, refused).(pending := w.pending - {was}) else w
    case NotReadded(was) => w.(pending := w.pending - {was})
  }

  /** Session ids are new, the modem never reuses a hardware id, and it answers only what it was
      asked. */
  predicate Proper(w: World, e: Event) {
    match e
    case Added(key, hwId, _, _) => hwId !in w.usedHw && key !in w.usedKeys
    case ClientRemovalAnswered(hwId, _) => hwId in w.loose
    case Readded(was, hwId, _) => was in w.pending && hwId !in w.usedHw
    case NotReadded(was) => was in w.pending
    case _ => true
  }

  function Run(es: seq<Event>): World {
    if es == [] then INITIAL else Next(Run(es[..|es| - 1]), es[|es| - 1])
  }

  predicate ProperRun(es: seq<Event>) {
    es == [] || (ProperRun(es[..|es| - 1]) && Proper(Run(es[..|es| - 1]), es[|es| - 1]))
  }

  // ----- the index -------------------------------------------------------------------------

  /** Every key leads to a fence that carries it. */
  predicate Forward(t: Table) {
    forall k :: k in t.ids ==> t.ids[k] in t.fences && t.fences[t.ids[k]].key == k
  }

  /** Every fence is led to by its key. */
  predicate Backward(t: Table) {
    forall h :: h in t.fences ==> t.fences[h].key in t.ids && t.ids[t.fences[h].key] == h
  }

  predicate Inv(w: World) {
    Forward(w.table)
    && DistinctKeys(w.table.fences)
    && (forall k :: k in w.table.ids ==> w.table.ids[k] !in w.loose)
    && (forall h :: h in w.table.fences ==>
          h in w.loose || (w.table.fences[h].key in w.table.ids && w.table.ids[w.table.fences[h].key] == h))
    && (forall h :: h in w.table.fences ==> h in w.usedHw && w.table.fences[h].key in w.usedKeys)
    && w.loose <= w.usedHw
    && PendingInv(w)
  }

  /** The keys that wait for the modem are distinct and not in the tables. */
  predicate PendingInv(w: World) {
    DistinctKeys(w.pending)
    && (forall h :: h in w.pending ==> w.pending[h].key in w.usedKeys)
    && (forall h, g :: h in w.pending && g in w.table.fences ==> w.pending[h].key != w.table.fences[g].key)
  }

  lemma RestartInv(w: World)
    requires Inv(w)
    ensures Inv(Next(w, EngineUp))
  {
  }

  lemma ReaddedInv(w: World, e: Event)
    requires Inv(w) && Proper(w, e) && e.Readded?
    ensures Inv(Next(w, e))
  {
    var f := w.pending[e.was];
    assert e.hwId !in w.table.fences && f.key !in w.table.ids;
  }

  lemma StopInv(w: World, client: int)
    requires Inv(w)
    ensures Inv(Next(w, ClientStopped(client)))
  {
    var w' := Next(w, ClientStopped(client));
    forall k | k in w'.table.ids ensures w'.table.ids[k] !in w'.loose {
      forall j | j in w.table.ids && j.client == client ensures w.table.ids[j] != w.table.ids[k] {
        assert w.table.fences[w.table.ids[j]].key == j;
      }
    }
    forall h | h in w'.table.fences
      ensures h in w'.loose
        || (w'.table.fences[h].key in w'.table.ids && w'.table.ids[w'.table.fences[h].key] == h)
    {
      var k := w.table.fences[h].key;
      if h !in w.loose && k.client == client {
        assert k in w.table.ids && w.table.ids[k] in IdsOf(w.table, client);
      }
    }
    forall h | h in IdsOf(w.table, client) ensures h in w.usedHw {
    }
  }

  lemma RemoveInv(w: World, hwId: nat, ok: bool)
    requires Inv(w)
    ensures Inv(Next(w, RemoveAnswered(hwId, ok)))
  {
  }

  lemma AddedInv(w: World, e: Event)
    requires Inv(w) && Proper(w, e) && e.Added?
    ensures Inv(Next(w, e))
  {
    assert e.hwId !in w.table.fences && e.key !in w.table.ids;
  }

  /** Changing flags or options of one fence. */
  lemma EditInv(w: World, h: nat, f: Fence, modemPaused: set<nat>)
    requires Inv(w) && h in w.table.fences && f.key == w.table.fences[h].key
    ensures Inv(w.(table := w.table.(fences := w.table.fences[h := f]), modemPaused := modemPaused))
  {
    var fences := w.table.fences[h := f];
    assert fences.Keys == w.table.fences.Keys;
    assert forall g :: g in fences ==> fences[g].key == w.table.fences[g].key;
  }

  lemma FlagInv(w: World, e: Event)
    requires Inv(w) && (e.PauseAnswered? || e.ResumeAnswered? || e.ModifyAnswered?)
    ensures Inv(Next(w, e))
  {
    if e.hwId in w.table.fences {
      var f := w.table.fences[e.hwId];
      match e
      case PauseAnswered(hwId, _) => EditInv(w, hwId, f.(paused := true), w.modemPaused + {hwId});
      case ResumeAnswered(hwId, _) => EditInv(w, hwId, f.(paused := false), w.modemPaused - {hwId});
      case ModifyAnswered(hwId, options, _) => EditInv(w, hwId, f.(options := options), w.modemPaused);
    }
  }

  lemma DropInv(w: World, e: Event)
    requires Inv(w) && Proper(w, e) && (e.ClientRemovalAnswered? || e.NotReadded?)
    ensures Inv(Next(w, e))
  {
  }

  lemma {:induction false} RunInv(es: seq<Event>)
    requires ProperRun(es)
    ensures Inv(Run(es))
  {
    if es != [] {
      var w, e := Run(es[..|es| - 1]), es[|es| - 1];
      RunInv(es[..|es| - 1]);
      match e
      case EngineUp => RestartInv(w);
      case Readded(_, _, _) => ReaddedInv(w, e);
      case ClientStopped(client) => StopInv(w, client);
      case RemoveAnswered(hwId, ok) => RemoveInv(w, hwId, ok);
      case Added(_, _, _, _) => AddedInv(w, e);
      case ClientRemovalAnswered(_, _) => DropInv(w, e);
      case NotReadded(_) => DropInv(w, e);
      case _ => FlagInv(w, e);
    }
  }

  /** In every reachable state each client key leads to a fence that holds the same key; and the
      two maps are exact inverses if and only if no fence waits for a client's removal. */
  lemma IndexExactIff(es: seq<Event>)
    requires ProperRun(es)
    ensures Forward(Run(es).table)
    ensures Backward(Run(es).table) <==> Run(es).table.fences.Keys !! Run(es).loose
  {
    RunInv(es);
  }

  // ----- restarts ------------------------------------------------------------------------------

  /** The modem takes fences again, and nothing else happens. */
  predicate OnlyReadded(fs: seq<Event>) { forall i :: 0 <= i < |fs| ==> fs[i].Readded? }

  lemma RunAppend(es: seq<Event>, fs: seq<Event>)
    requires fs != []
    ensures Run(es + fs) == Next(Run(es + fs[..|fs| - 1]), fs[|fs| - 1])
    ensures ProperRun(es + fs) <==>
      ProperRun(es + fs[..|fs| - 1]) && Proper(Run(es + fs[..|fs| - 1]), fs[|fs| - 1])
  {
    assert (es + fs)[..|es + fs| - 1] == es + fs[..|fs| - 1];
  }

  /** Answers take fences out of the waiting ones; the rest stays as it was. */
  lemma {:induction false} RefillPending(es: seq<Event>, fs: seq<Event>)
    requires ProperRun(es + fs) && OnlyReadded(fs)
    ensures ProperRun(es)
    ensures var p, p' := Run(es).pending, Run(es + fs).pending;
      forall h :: h in p' ==> h in p && p'[h] == p[h]
    ensures Run(es).usedHw <= Run(es + fs).usedHw && Run(es).loose == Run(es + fs).loose
  {
    if fs == [] {
      assert es + fs == es;
    } else {
      RunAppend(es, fs);
      RefillPending(es, fs[..|fs| - 1]);
    }
  }

  /** The new hardware id of a fence the modem has answered for. */
  predicate Back(w: World, w': World, h: nat)
    requires h in w.pending
  {
    var f := w.pending[h];
    f.key in w'.table.ids && w'.table.ids[f.key] in w'.table.fences && w'.table.ids[f.key] !in w.usedHw
    && w'.table.fences[w'.table.ids[f.key]] == Renewed(f)
  }

  /** An answered fence is in both tables under a new hardware id, equal to the old one except for
      the flag. */
  lemma {:induction false} RefillBack(es: seq<Event>, fs: seq<Event>, h: nat)
    requires ProperRun(es + fs) && OnlyReadded(fs) && h in Run(es).pending && h !in Run(es + fs).pending
    ensures Back(Run(es), Run(es + fs), h)
  {
    assert fs == [] ==> es + fs == es;
    if fs != [] {
      var before, e := fs[..|fs| - 1], fs[|fs| - 1];
      RunAppend(es, fs);
      RefillPending(es, before);
      RunInv(es + before);
      var w := Run(es + before);
      if h in w.pending {
        assert e.was == h;
      } else {
        RefillBack(es, before, h);
        var k := Run(es).pending[h].key;
        assert w.pending[e.was].key != k && e.hwId != w.table.ids[k];
      }
    }
  }

  lemma CarriersWithout(fences: Fences, h: nat)
    requires DistinctKeys(fences) && h in fences
    ensures Carriers(fences - {h}) == Carriers(fences) - {fences[h].key}
  {
    forall k ensures k in Carriers(fences - {h}) <==> k in Carriers(fences) && k != fences[h].key {
      if k in Carriers(fences) && k != fences[h].key {
        var g :| g in fences && fences[g].key == k;
        assert g in fences - {h};
      }
    }
  }

  lemma CarriersWith(fences: Fences, h: nat, f: Fence)
    requires h !in fences
    ensures Carriers(fences[h := f]) == Carriers(fences) + {f.key}
  {
    var more := fences[h := f];
    assert more[h] == f;
    forall k | k in Carriers(fences) ensures k in Carriers(more) {
      var g :| g in fences && fences[g].key == k;
      assert more[g].key == k;
    }
  }

  /** The keys after some answers: those there were, and those of the fences answered for. */
  lemma {:induction false} RefillKeys(es: seq<Event>, fs: seq<Event>, k: Key)
    requires ProperRun(es + fs) && OnlyReadded(fs)
    ensures k in Run(es + fs).table.ids
      <==> k in Run(es).table.ids || k in Carriers(Run(es).pending) - Carriers(Run(es + fs).pending)
  {
    if fs == [] {
      assert es + fs == es;
    } else {
      var before, e := fs[..|fs| - 1], fs[|fs| - 1];
      RunAppend(es, fs);
      RefillPending(es, before);
      RefillKeys(es, before, k);
      RunInv(es + before);
      var p := Run(es + before).pending;
      CarriersWithout(p, e.was);
    }
  }

  /** So after answers that began with empty tables every fence is led to by its key. */
  lemma {:induction false} RefillCarriers(es: seq<Event>, fs: seq<Event>)
    requires ProperRun(es + fs) && OnlyReadded(fs) && Carriers(Run(es).table.fences) == Run(es).table.ids.Keys
    ensures Carriers(Run(es + fs).table.fences) == Run(es + fs).table.ids.Keys
  {
    if fs == [] {
      assert es + fs == es;
    } else {
      var before, e := fs[..|fs| - 1], fs[|fs| - 1];
      RunAppend(es, fs);
      RefillPending(es, before);
      RefillCarriers(es, before);
      RunInv(es + before);
      var f := Run(es + before).pending[e.was];
      CarriersWith(Run(es + before).table.fences, e.hwId, Renewed(f));
    }
  }

  lemma RunSnoc(es: seq<Event>, e: Event)
    ensures Run(es + [e]) == Next(Run(es), e)
    ensures ProperRun(es + [e]) <==> ProperRun(es) && Proper(Run(es), e)
  {
    assert (es + [e])[..|es|] == es;
  }

  lemma ClearedKeys(es: seq<Event>)
    requires ProperRun(es)
    ensures Run(es + [EngineUp]).table.ids == map[] && Run(es + [EngineUp]).table.fences == map[]
    ensures Run(es + [EngineUp]).pending == Run(es).table.fences
  {
    RunInv(es);
    RunSnoc(es, EngineUp);
    if Run(es).table.fences == map[] {
      assert forall k :: k !in Run(es).table.ids;
    }
  }

  /** A restart that the modem has answered in full brings back exactly the keys of the fences that
      were in the table when it began. What an earlier restart was still waiting for is lost. */
  lemma RestartKeys(es: seq<Event>, fs: seq<Event>)
    requires ProperRun(es + [EngineUp] + fs) && OnlyReadded(fs) && Run(es + [EngineUp] + fs).pending == map[]
    ensures Run(es + [EngineUp] + fs).table.ids.Keys == Carriers(Run(es).table.fences)
    ensures Run(es + [EngineUp] + fs).table.ids.Keys !! Carriers(Run(es).pending)
  {
    RefillPending(es + [EngineUp], fs);
    RunSnoc(es, EngineUp);
    ClearedKeys(es);
    RunInv(es);
    assert Carriers(map[]) == {};
    forall k ensures k in Run(es + [EngineUp] + fs).table.ids <==> k in Carriers(Run(es).table.fences) {
      RefillKeys(es + [EngineUp], fs, k);
    }
  }

  /** The key leads to the same fence as before, unpaused, under a new hardware id. */
  predicate Survives(t: Table, t': Table, usedHw: set<nat>, k: Key) {
    k in t.ids && t.ids[k] in t.fences && k in t'.ids && t'.ids[k] in t'.fences
    && t'.ids[k] !in usedHw && t'.fences[t'.ids[k]] == t.fences[t.ids[k]].(paused := false)
  }

  /** A restart that the modem answers in full keeps every key, with its options and position, under a
      new hardware id; only the paused flag is lost. */
  lemma RestartPreserves(es: seq<Event>, fs: seq<Event>, k: Key)
    requires ProperRun(es + [EngineUp] + fs) && OnlyReadded(fs) && Run(es + [EngineUp] + fs).pending == map[]
    requires k in Run(es).table.ids
    ensures Survives(Run(es).table, Run(es + [EngineUp] + fs).table, Run(es).usedHw, k)
  {
    RefillPending(es + [EngineUp], fs);
    RunSnoc(es, EngineUp);
    ClearedKeys(es);
    RunInv(es);
    RefillBack(es + [EngineUp], fs, Run(es).table.ids[k]);
  }

  /** Such a restart keeps exactly the keys there were if and only if no fence waits for a client's
      removal; otherwise it brings keys of clients that have gone back. */
  lemma RestartKeysIff(es: seq<Event>, fs: seq<Event>)
    requires ProperRun(es + [EngineUp] + fs) && OnlyReadded(fs) && Run(es + [EngineUp] + fs).pending == map[]
    ensures Run(es + [EngineUp] + fs).table.ids.Keys == Run(es).table.ids.Keys
      <==> Run(es).table.fences.Keys !! Run(es).loose
  {
    RefillPending(es + [EngineUp], fs);
    RunSnoc(es, EngineUp);
    RestartKeys(es, fs);
    IndexExactIff(es);
    CarriersIff(es);
  }

  lemma CarriersIff(es: seq<Event>)
    requires ProperRun(es)
    ensures Carriers(Run(es).table.fences) == Run(es).table.ids.Keys <==> Backward(Run(es).table)
  {
    RunInv(es);
    var t := Run(es).table;
    forall k | k in t.ids ensures k in Carriers(t.fences) {
      assert t.fences[t.ids[k]].key == k;
    }
    if Carriers(t.fences) == t.ids.Keys {
      forall h | h in t.fences ensures t.fences[h].key in t.ids && t.ids[t.fences[h].key] == h {
        assert t.fences[h].key in Carriers(t.fences);
      }
    }
  }

  /** When the modem goes down again before it has answered for all fences, the next restart, answered
      in full, brings back exactly those it had answered for. */
  lemma SecondRestartKeys(es: seq<Event>, fs: seq<Event>, gs: seq<Event>)
    requires var once := es + [EngineUp] + fs;
      ProperRun(once + [EngineUp] + gs) && OnlyReadded(fs) && OnlyReadded(gs)
      && Run(once + [EngineUp] + gs).pending == map[]
    ensures var once := es + [EngineUp] + fs;
      Run(once + [EngineUp] + gs).table.ids.Keys
        == Carriers(Run(es).table.fences) - Carriers(Run(once).pending)
  {
    var once := es + [EngineUp] + fs;
    RefillPending(once + [EngineUp], gs);
    RunSnoc(once, EngineUp);
    RefillPending(es + [EngineUp], fs);
    RunSnoc(es, EngineUp);
    RestartKeys(once, gs);
    ClearedKeys(es);
    assert Carriers(map[]) == {};
    RefillCarriers(es + [EngineUp], fs);
    forall k ensures k in Run(once).table.ids
      <==> k in Carriers(Run(es).table.fences) - Carriers(Run(once).pending)
    {
      RefillKeys(es + [EngineUp], fs, k);
    }
  }

  /** A client that stops while a restart is under way is asked about nothing that waits: it has keys
      again after the answers exactly if some fence of its own was waiting. */
  lemma StoppedReturnsIff(es: seq<Event>, client: int, fs: seq<Event>)
    requires ProperRun(es + [ClientStopped(client)] + fs) && OnlyReadded(fs)
    requires Run(es + [ClientStopped(client)] + fs).pending == map[]
    ensures (exists k :: k in Run(es + [ClientStopped(client)] + fs).table.ids && k.client == client)
      <==> exists h :: h in Run(es).pending && Run(es).pending[h].key.client == client
  {
    var stopped := es + [ClientStopped(client)];
    RefillPending(stopped, fs);
    RunSnoc(es, ClientStopped(client));
    assert Carriers(map[]) == {};
    forall k ensures k in Run(stopped + fs).table.ids
      <==> k in Run(stopped).table.ids || k in Carriers(Run(es).pending)
    {
      RefillKeys(stopped, fs, k);
    }
    if h :| h in Run(es).pending && Run(es).pending[h].key.client == client {
      assert Run(es).pending[h].key in Carriers(Run(es).pending);
      assert Run(es).pending[h].key in Run(stopped + fs).table.ids;
    }
  }

  /** Client 7 adds a fence, which the modem knows as 1. */
  function OneFence(options: Options, info: Info): seq<Event> { [] + [Added(Key(7, 0), 1, options, info)] }

  lemma OneFenceRun(options: Options, info: Info)
    ensures var es := OneFence(options, info);
      ProperRun(es)
      && Run(es) == World(Table(map[1 := Fence(Key(7, 0), options, info, false)], map[Key(7, 0) := 1]), map[],
                          {}, {}, {1}, {Key(7, 0)})
  {
    RunSnoc([], Added(Key(7, 0), 1, options, info));
  }

  /** A run that brings a key back: the client stops, the modem restarts before it has answered the
      removal, and the key of the client that has gone is in the table again. */
  lemma GoneClientReturns(options: Options, info: Info)
    ensures var es := OneFence(options, info) + [ClientStopped(7)];
      var back := es + [EngineUp] + [Readded(1, 2, false)];
      ProperRun(back) && Run(es).table.ids == map[] && Run(back).table.ids == map[Key(7, 0) := 2]
  {
    var es := OneFence(options, info) + [ClientStopped(7)];
    OneFenceRun(options, info);
    RunSnoc(OneFence(options, info), ClientStopped(7));
    var t := Run(OneFence(options, info)).table;
    assert forall k :: k in t.ids ==> k.client == 7;
    assert StopClient(t, 7).ids == map[];
    RunSnoc(es, EngineUp);
    RunSnoc(es + [EngineUp], Readded(1, 2, false));
  }

  /** A run that loses a fence: the modem goes down again before it has answered for it. */
  lemma SecondRestartLosesFence(options: Options, info: Info)
    ensures var es := OneFence(options, info) + [EngineUp] + [EngineUp];
      ProperRun(es) && Run(es).table == Table(map[], map[]) && Run(es).pending == map[]
  {
    var once := OneFence(options, info) + [EngineUp];
    OneFenceRun(options, info);
    RunSnoc(OneFence(options, info), EngineUp);
    assert 1 in Run(OneFence(options, info)).table.fences;
    RunSnoc(once, EngineUp);
  }

  // ----- paused fences ------------------------------------------------------------------------

  /** What the client last asked for a fence: to run, or to be paused; then also how many modem
      restarts there were since, and whether the modem refused to pause it again after one. */
  datatype Ask = Running | Paused(restarts: nat, refused: bool)

  predicate Concerns(fences: Fences, hwId: nat, k: Key) { hwId in fences && fences[hwId].key == k }

  function LastAsk(es: seq<Event>, k: Key): Ask {
    if es == [] then Running
    else
      var w, ask := Run(es[..|es| - 1]), LastAsk(es[..|es| - 1], k);
      match es[|es| - 1]
      case Added(key, _, _, _) => if key == k then Running else ask
      case PauseAnswered(hwId, ok) => if ok && Concerns(w.table.fences, hwId, k) then Paused(0, false) else ask
      case ResumeAnswered(hwId, ok) => if ok && Concerns(w.table.fences, hwId, k) then Running else ask
      case EngineUp => if ask == Running then Running else Paused(ask.restarts + 1, ask.refused)
      case Readded(was, _, refused) =>
        if ask.Paused? && refused && Concerns(w.pending, was, k) then Paused(ask.restarts, true) else ask
      case _ => ask
  }

  /** The modem pauses a fence again at the first restart after the client asked for it, if it
      accepts; at the second the adapter has forgotten. */
  predicate Remembered(ask: Ask) { ask.Paused? && ask.restarts <= 1 && !ask.refused }

  /** What the flag and the modem's state say of a fence, given what was last asked for it. */
  predicate Reflects(w: World, h: nat, ask: Ask)
    requires h in w.table.fences
  {
    (w.table.fences[h].paused <==> ask.Paused? && ask.restarts == 0)
    && (h in w.modemPaused <==> Remembered(ask))
    && (ask.Paused? && ask.restarts == 0 ==> !ask.refused)
  }

  /** What the flag says of a fence that waits to be added again. */
  predicate Waits(w: World, h: nat, ask: Ask)
    requires h in w.pending
  {
    (w.pending[h].paused <==> ask.Paused? && ask.restarts == 1)
    && (ask.Paused? ==> ask.restarts >= 1 && (ask.restarts == 1 ==> !ask.refused))
  }

  lemma ReaddedReflects(es: seq<Event>, h: nat)
    requires es != [] && ProperRun(es) && es[|es| - 1].Readded? && h in Run(es).table.fences
    ensures var before, e := es[..|es| - 1], es[|es| - 1];
      var w, k := Run(before), Run(es).table.fences[h].key;
      if h == e.hwId then
        e.was in w.pending && w.pending[e.was].key == k
        && (Waits(w, e.was, LastAsk(before, k)) ==> Reflects(Run(es), h, LastAsk(es, k)))
      else
        h in w.table.fences && w.table.fences[h].key == k
        && (Reflects(w, h, LastAsk(before, k)) ==> Reflects(Run(es), h, LastAsk(es, k)))
  {
    RunInv(es[..|es| - 1]);
  }

  lemma AddedReflects(es: seq<Event>, h: nat)
    requires es != [] && ProperRun(es) && es[|es| - 1].Added? && h in Run(es).table.fences
    ensures var w, e := Run(es[..|es| - 1]), es[|es| - 1];
      if h == e.hwId then Reflects(Run(es), h, LastAsk(es, e.key))
      else h in w.table.fences && w.table.fences[h].key != e.key && Run(es).table.fences[h] == w.table.fences[h]
  {
    RunInv(es[..|es| - 1]);
  }

  /** The events that neither add fences nor restart the modem touch one fence at most. */
  lemma EditReflects(es: seq<Event>, h: nat)
    requires es != [] && ProperRun(es) && h in Run(es).table.fences
    requires var e := es[|es| - 1]; !e.EngineUp? && !e.Readded? && !e.Added?
    ensures var before, k := es[..|es| - 1], Run(es).table.fences[h].key;
      h in Run(before).table.fences && Run(before).table.fences[h].key == k
      && (Reflects(Run(before), h, LastAsk(before, k)) ==> Reflects(Run(es), h, LastAsk(es, k)))
  {
    RunInv(es[..|es| - 1]);
  }

  /** No event but a restart and its answers touches a fence that waits. */
  lemma WaitsOn(es: seq<Event>, h: nat)
    requires es != [] && ProperRun(es) && h in Run(es).pending && !es[|es| - 1].EngineUp?
    ensures var before, k := es[..|es| - 1], Run(es).pending[h].key;
      h in Run(before).pending && Run(before).pending[h].key == k
      && (Waits(Run(before), h, LastAsk(before, k)) ==> Waits(Run(es), h, LastAsk(es, k)))
  {
    RunInv(es[..|es| - 1]);
  }

  /** In every run a fence's flag says whether its pause has seen no restart, and the modem has it
      paused if it has seen at most one. */
  lemma {:induction false} RunReflects(es: seq<Event>, h: nat)
    requires ProperRun(es) && h in Run(es).table.fences
    ensures Reflects(Run(es), h, LastAsk(es, Run(es).table.fences[h].key))
    decreases |es|
  {
    if es != [] {
      var before, e := es[..|es| - 1], es[|es| - 1];
      if e.EngineUp? {
        assert false;
      } else if e.Readded? {
        ReaddedReflects(es, h);
        if h == e.hwId {
          RunWaits(before, e.was);
        } else {
          RunReflects(before, h);
        }
      } else if e.Added? {
        AddedReflects(es, h);
        if h != e.hwId {
          RunReflects(before, h);
        }
      } else {
        EditReflects(es, h);
        RunReflects(before, h);
      }
    }
  }

  lemma {:induction false} RunWaits(es: seq<Event>, h: nat)
    requires ProperRun(es) && h in Run(es).pending
    ensures Waits(Run(es), h, LastAsk(es, Run(es).pending[h].key))
    decreases |es|
  {
    if es != [] {
      var before := es[..|es| - 1];
      if es[|es| - 1].EngineUp? {
        RunReflects(before, h);
      } else {
        WaitsOn(es, h);
        RunWaits(before, h);
      }
    }
  }

  /** The modem agrees with what the client last asked for a fence, restarts or not, exactly
      unless that was a pause and there have been two restarts since, or the modem refused to
      pause the fence again. */
  lemma PauseAgreesIff(es: seq<Event>, h: nat)
    requires ProperRun(es) && h in Run(es).table.fences
    ensures var ask := LastAsk(es, Run(es).table.fences[h].key);
      (h in Run(es).modemPaused <==> ask.Paused?) <==> ask == Running || (ask.restarts < 2 && !ask.refused)
  {
    RunReflects(es, h);
  }

  function PausedFence(options: Options, info: Info): seq<Event> {
    OneFence(options, info) + [PauseAnswered(1, true)] + [EngineUp] + [Readded(1, 2, false)]
  }

  lemma FirstRestartRemembers(options: Options, info: Info)
    ensures var once := PausedFence(options, info);
      ProperRun(once) && LastAsk(once, Key(7, 0)) == Paused(1, false)
      && Run(once).table == Table(map[2 := Fence(Key(7, 0), options, info, false)], map[Key(7, 0) := 2])
      && Run(once).pending == map[] && Run(once).modemPaused == {2} && Run(once).usedHw == {1, 2}
  {
    var paused := OneFence(options, info) + [PauseAnswered(1, true)];
    OneFenceRun(options, info);
    RunSnoc(OneFence(options, info), PauseAnswered(1, true));
    RunSnoc(paused, EngineUp);
    RunSnoc(paused + [EngineUp], Readded(1, 2, false));
    assert paused[..1] == OneFence(options, info) && (paused + [EngineUp])[..2] == paused;
    assert PausedFence(options, info)[..3] == paused + [EngineUp];
    assert LastAsk(paused, Key(7, 0)) == Paused(0, false);
    assert LastAsk(paused + [EngineUp], Key(7, 0)) == Paused(1, false);
  }

  /** A run in which the second restart leaves a fence running that the client had paused. */
  lemma SecondRestartForgetsPause(options: Options, info: Info)
    ensures var once := PausedFence(options, info);
      var twice := once + [EngineUp] + [Readded(2, 3, false)];
      ProperRun(twice) && 2 in Run(once).modemPaused
      && LastAsk(twice, Key(7, 0)).Paused? && 3 in Run(twice).table.fences && 3 !in Run(twice).modemPaused
  {
    var once := PausedFence(options, info);
    FirstRestartRemembers(options, info);
    RunSnoc(once, EngineUp);
    RunSnoc(once + [EngineUp], Readded(2, 3, false));
    assert (once + [EngineUp])[..4] == once;
    assert (once + [EngineUp] + [Readded(2, 3, false)])[..5] == once + [EngineUp];
    assert LastAsk(once + [EngineUp], Key(7, 0)).Paused?;
  }

  // ----- breaches -----------------------------------------------------------------------------

  datatype ClientEntry = ClientEntry(client: int, hasBreachCallback: bool)

  datatype Notification = Notification(client: int, ids: seq<nat>)

  predicate OwnedBy(fences: Fences, hwId: nat, client: int) {
    hwId in fences && fences[hwId].key.client == client
  }

  /** The client's own ids of the breached fences, in input order. */
  function IdsFor(fences: Fences, hwIds: seq<nat>, client: int): seq<nat> {
    if hwIds == [] then []
    else IdsFor(fences, hwIds[..|hwIds| - 1], client)
         + (if OwnedBy(fences, hwIds[|hwIds| - 1], client) then [fences[hwIds[|hwIds| - 1]].key.id] else [])
  }

  function NotificationFor(fences: Fences, entry: ClientEntry, hwIds: seq<nat>): seq<Notification> {
    var ids := IdsFor(fences, hwIds, entry.client);
    if ids != [] && entry.hasBreachCallback then [Notification(entry.client, ids)] else []
  }

  function Notifications(fences: Fences, clients: seq<ClientEntry>, hwIds: seq<nat>): seq<Notification> {
    if clients == [] then []
    else Notifications(fences, clients[..|clients| - 1], hwIds)
         + NotificationFor(fences, clients[|clients| - 1], hwIds)
  }

  /** The positions in the input of the fences a client owns. */
  function Positions(fences: Fences, hwIds: seq<nat>, client: int): seq<nat> {
    if hwIds == [] then []
    else Positions(fences, hwIds[..|hwIds| - 1], client)
         + (if OwnedBy(fences, hwIds[|hwIds| - 1], client) then [|hwIds| - 1] else [])
  }

  /** What a client is told is, position by position, the ids of its own breached fences: all
      of them, each occurrence once, in input order, and no others. */
  lemma {:induction false} IdsForExact(fences: Fences, hwIds: seq<nat>, client: int)
    ensures var at, ids := Positions(fences, hwIds, client), IdsFor(fences, hwIds, client);
      |at| == |ids|
      && (forall j :: 0 <= j < |at| ==> at[j] < |hwIds|)
      && (forall j, k :: 0 <= j < k < |at| ==> at[j] < at[k])
      && (forall j :: 0 <= j < |at| ==> OwnedBy(fences, hwIds[at[j]], client) && ids[j] == fences[hwIds[at[j]]].key.id)
      && (forall i :: 0 <= i < |hwIds| && OwnedBy(fences, hwIds[i], client) ==> i in at)
  {
    if hwIds != [] {
      IdsForExact(fences, hwIds[..|hwIds| - 1], client);
      var before := Positions(fences, hwIds[..|hwIds| - 1], client);
      var at := Positions(fences, hwIds, client);
      forall i | 0 <= i < |hwIds| && OwnedBy(fences, hwIds[i], client) ensures i in at {
        if i == |hwIds| - 1 {
          assert at[|at| - 1] == i;
        } else {
          assert hwIds[..|hwIds| - 1][i] == hwIds[i] && i in before;
        }
      }
    }
  }

  predicate DistinctClients(clients: seq<ClientEntry>) {
    forall i, j :: 0 <= i < j < |clients| ==> clients[i].client != clients[j].client
  }

  /** A known fence whose owner is registered with a breach callback. */
  predicate Routed(fences: Fences, clients: seq<ClientEntry>, hwId: nat) {
    exists c :: 0 <= c < |clients| && clients[c].hasBreachCallback && OwnedBy(fences, hwId, clients[c].client)
  }

  function RoutedCount(fences: Fences, clients: seq<ClientEntry>, hwIds: seq<nat>): nat {
    if hwIds == [] then 0
    else RoutedCount(fences, clients, hwIds[..|hwIds| - 1])
         + (if Routed(fences, clients, hwIds[|hwIds| - 1]) then 1 else 0)
  }

  function Delivered(ns: seq<Notification>): nat {
    if ns == [] then 0 else Delivered(ns[..|ns| - 1]) + |ns[|ns| - 1].ids|
  }

  lemma {:induction false} DeliveredConcat(a: seq<Notification>, b: seq<Notification>)
    ensures Delivered(a + b) == Delivered(a) + Delivered(b)
  {
    if b == [] {
      assert a + b == a;
    } else {
      assert (a + b)[..|a + b| - 1] == a + b[..|b| - 1];
      DeliveredConcat(a, b[..|b| - 1]);
    }
  }

  lemma {:induction false} RoutedWithout(fences: Fences, clients: seq<ClientEntry>, hwIds: seq<nat>)
    requires clients != [] && DistinctClients(clients)
    ensures RoutedCount(fences, clients, hwIds)
         == RoutedCount(fences, clients[..|clients| - 1], hwIds)
            + (if clients[|clients| - 1].hasBreachCallback
               then |IdsFor(fences, hwIds, clients[|clients| - 1].client)| else 0)
  {
    if hwIds != [] {
      RoutedWithout(fences, clients, hwIds[..|hwIds| - 1]);
      var last, others, hwId := clients[|clients| - 1], clients[..|clients| - 1], hwIds[|hwIds| - 1];
      if c :| 0 <= c < |others| && others[c].hasBreachCallback && OwnedBy(fences, hwId, others[c].client) {
        assert clients[c] == others[c];
      }
      if c :| 0 <= c < |clients| - 1 && clients[c].hasBreachCallback && OwnedBy(fences, hwId, clients[c].client) {
        assert others[c] == clients[c];
      }
    }
  }

  /** The delivered counts of one breach sum to the number of occurrences with a known,
      registered owner that has a callback. */
  lemma {:induction false} DeliveredIsRouted(fences: Fences, clients: seq<ClientEntry>, hwIds: seq<nat>)
    requires DistinctClients(clients)
    ensures Delivered(Notifications(fences, clients, hwIds)) == RoutedCount(fences, clients, hwIds)
  {
    if clients == [] {
      NobodyRouted(fences, hwIds);
    } else {
      var others, last := clients[..|clients| - 1], clients[|clients| - 1];
      DeliveredIsRouted(fences, others, hwIds);
      RoutedWithout(fences, clients, hwIds);
      var ns := NotificationFor(fences, last, hwIds);
      DeliveredConcat(Notifications(fences, others, hwIds), ns);
      assert ns != [] ==> ns[..0] == [];
    }
  }

  lemma {:induction false} NobodyRouted(fences: Fences, hwIds: seq<nat>)
    ensures RoutedCount(fences, [], hwIds) == 0
  {
    if hwIds != [] {
      NobodyRouted(fences, hwIds[..|hwIds| - 1]);
    }
  }

  lemma {:induction false} NotifiedIff(fences: Fences, clients: seq<ClientEntry>, hwIds: seq<nat>, n: Notification)
    ensures n in Notifications(fences, clients, hwIds)
      <==> ClientEntry(n.client, true) in clients && n.ids != [] && n.ids == IdsFor(fences, hwIds, n.client)
  {
    if clients != [] {
      var others, last := clients[..|clients| - 1], clients[|clients| - 1];
      NotifiedIff(fences, others, hwIds, n);
      assert clients == others + [last];
    }
  }

  /** The notifications are exactly those to the registered clients with a callback and a breached
      fence, each with exactly that client's ids, and no client is notified twice. */
  lemma {:induction false} NotificationsExact(fences: Fences, clients: seq<ClientEntry>, hwIds: seq<nat>)
    requires DistinctClients(clients)
    ensures var ns := Notifications(fences, clients, hwIds);
      (forall i, j :: 0 <= i < j < |ns| ==> ns[i].client != ns[j].client)
      && (forall n :: n in ns
            <==> ClientEntry(n.client, true) in clients && n.ids != [] && n.ids == IdsFor(fences, hwIds, n.client))
  {
    if clients != [] {
      var others, last := clients[..|clients| - 1], clients[|clients| - 1];
      NotificationsExact(fences, others, hwIds);
      var before := Notifications(fences, others, hwIds);
      forall i | 0 <= i < |before| ensures before[i].client != last.client {
        assert before[i] in before;
        var c :| 0 <= c < |others| && others[c] == ClientEntry(before[i].client, true);
        assert clients[c] == others[c];
      }
    }
    forall n ensures n in Notifications(fences, clients, hwIds)
      <==> ClientEntry(n.client, true) in clients && n.ids != [] && n.ids == IdsFor(fences, hwIds, n.client)
    {
      NotifiedIff(fences, clients, hwIds, n);
    }
  }

  predicate Before(clients: seq<ClientEntry>, a: int, b: int) {
    exists p, q :: 0 <= p < q < |clients| && clients[p].client == a && clients[q].client == b
  }

  predicate InOrder(ns: seq<Notification>, clients: seq<ClientEntry>) {
    forall i, j :: 0 <= i < j < |ns| ==> Before(clients, ns[i].client, ns[j].client)
  }

  /** The clients are called in the order in which they are registered. */
  lemma {:induction false} NotificationsInOrder(fences: Fences, clients: seq<ClientEntry>, hwIds: seq<nat>)
    ensures InOrder(Notifications(fences, clients, hwIds), clients)
  {
    if clients != [] {
      var others := clients[..|clients| - 1];
      var ns, before := Notifications(fences, clients, hwIds), Notifications(fences, others, hwIds);
      NotificationsInOrder(fences, others, hwIds);
      forall i, j | 0 <= i < j < |ns| ensures Before(clients, ns[i].client, ns[j].client) {
        if j < |before| {
          assert ns[i] == before[i] && ns[j] == before[j];
          assert Before(others, before[i].client, before[j].client);
          var p, q :| 0 <= p < q < |others|
            && others[p].client == before[i].client && others[q].client == before[j].client;
          assert clients[p] == others[p] && clients[q] == others[q];
        } else {
          NotifiedIff(fences, others, hwIds, before[i]);
          var p :| 0 <= p < |others| && others[p] == ClientEntry(before[i].client, true);
          assert clients[p] == others[p];
        }
      }
    }
  }

  // ----- the class ----------------------------------------------------------------------------

  class GeofenceAdapter {
    var geofences: Fences
    var geofenceIds: Ids

    ghost function View(): Table reads this { Table(geofences, geofenceIds) }

    constructor ()
      ensures View() == INITIAL.table
    {
      geofences, geofenceIds := map[], map[];
    }

    method SaveGeofenceItem(key: Key, hwId: nat, options: Options, info: Info)
      modifies this
      ensures View() == Save(old(View()), key, hwId, options, info)
    {
      geofences := geofences[hwId := Fence(key, options, info, false)];
      geofenceIds := geofenceIds[key := hwId];
    }

    method RemoveGeofenceItem(hwId: nat)
      modifies this
      ensures View() == Remove(old(View()), hwId)
    {
      if hwId in geofences {
        var key := geofences[hwId].key;
        if key in geofenceIds {
          geofenceIds := geofenceIds - {key};
          geofences := geofences - {hwId};
        }
      }
    }

    method PauseGeofenceItem(hwId: nat)
      modifies this`geofences
      ensures View() == SetPaused(old(View()), hwId, true)
    {
      if hwId in geofences {
        geofences := geofences[hwId := geofences[hwId].(paused := true)];
      }
    }

    method ResumeGeofenceItem(hwId: nat)
      modifies this`geofences
      ensures View() == SetPaused(old(View()), hwId, false)
    {
      if hwId in geofences {
        geofences := geofences[hwId := geofences[hwId].(paused := false)];
      }
    }

    method ModifyGeofenceItem(hwId: nat, options: Options)
      modifies this`geofences
      ensures View() == Modify(old(View()), hwId, options)
    {
      if hwId in geofences {
        var fence := geofences[hwId];
        geofences := geofences[hwId := fence.(options := options)];
      }
    }

    method GetHwIdFromClient(key: Key) returns (found: bool, hwId: nat)
      ensures found == (key in geofenceIds) && (found ==> hwId == geofenceIds[key])
    {
      found := key in geofenceIds;
      hwId := if found then geofenceIds[key] else 0;
    }

    /** Erases the client's keys while walking the map; the removals are asked of the modem. */
    method StopClientSessions(client: int) returns (removals: set<nat>)
      modifies this`geofenceIds
      ensures View() == StopClient(old(View()), client) && removals == IdsOf(old(View()), client)
    {
      removals := {};
      ghost var ids := geofenceIds;
      var left := geofenceIds.Keys;
      while left != {}
        invariant left <= ids.Keys && geofences == old(geofences)
        invariant geofenceIds == map k | k in ids && (k in left || k.client != client) :: ids[k]
        invariant removals == set k | k in ids && k !in left && k.client == client :: ids[k]
        decreases |left|
      {
        var key :| key in left;
        left := left - {key};
        if key.client == client {
          removals := removals + {geofenceIds[key]};
          geofenceIds := geofenceIds - {key};
        }
      }
    }

    /** The answer to one of those removals. */
    method ClientRemovalDone(hwId: nat, ok: bool)
      modifies this`geofences
      ensures geofences == if ok then old(geofences) - {hwId} else old(geofences)
    {
      if ok && hwId in geofences {
        geofences := geofences - {hwId};
      }
    }

    /** Clears both tables and asks the modem for every fence again; `requests` are the requests, by
        old hardware id. */
    method RestartGeofences() returns (requests: Fences)
      modifies this
      ensures View() == Cleared(old(View())) && requests == old(geofences)
    {
      requests := map[];
      if geofences == map[] {
        return;
      }
      var oldGeofences := geofences;
      geofences, geofenceIds := map[], map[];
      var left := oldGeofences.Keys;
      while left != {}
        invariant left <= oldGeofences.Keys && geofences == map[] && geofenceIds == map[]
        invariant requests == map h | h in oldGeofences && h !in left :: oldGeofences[h]
        decreases |left|
      {
        var hwId :| hwId in left;
        requests := requests[hwId := oldGeofences[hwId]];
        left := left - {hwId};
      }
    }

    /** The answer to one of those requests; `pause` is the request to pause the fence again, made
        before it is saved. */
    method GeofenceReadded(fence: Fence, ok: bool, hwId: nat) returns (pause: bool)
      modifies this
      ensures View() == if ok then Save(old(View()), fence.key, hwId, fence.options, fence.info) else old(View())
      ensures pause == (ok && fence.paused)
    {
      pause := false;
      if ok {
        if fence.paused {
          pause := true;
        }
        SaveGeofenceItem(fence.key, hwId, fence.options, fence.info);
      }
    }

    /** For every client, fills a buffer with its ids and calls it if there are any. */
    method GeofenceBreach(clients: seq<ClientEntry>, hwIds: seq<nat>) returns (ns: seq<Notification>)
      ensures ns == Notifications(geofences, clients, hwIds)
    {
      ns := [];
      for c := 0 to |clients|
        invariant ns == Notifications(geofences, clients[..c], hwIds)
      {
        assert clients[..c + 1][..c] == clients[..c];
        var clientIds := new nat[|hwIds|];
        var index := FillClientIds(clients[c].client, hwIds, clientIds);
        if index > 0 && clients[c].hasBreachCallback {
          ns := ns + [Notification(clients[c].client, clientIds[..index])];
        }
      }
      assert clients[..|clients|] == clients;
    }

    method FillClientIds(client: int, hwIds: seq<nat>, clientIds: array<nat>) returns (index: nat)
      requires clientIds.Length == |hwIds|
      modifies clientIds
      ensures index <= |hwIds| && clientIds[..index] == IdsFor(geofences, hwIds, client)
    {
      index := 0;
      for i := 0 to |hwIds|
        invariant index <= i && clientIds[..index] == IdsFor(geofences, hwIds[..i], client)
      {
        assert hwIds[..i + 1][..i] == hwIds[..i];
        if hwIds[i] in geofences {
          var key := geofences[hwIds[i]].key;
          if key.client == client {
            clientIds[index] := key.id;
            index := index + 1;
          }
        }
      }
      assert hwIds[..|hwIds|] == hwIds;
    }
  }
}
