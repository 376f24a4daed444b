/** The OS observer's two subscription indexes and what it keeps registered with the framework. */
module Subscriptions {
  import opened Basics

  type Client = int
  type Item = int
  type Value = int

  // ----- maps to sets, with the operations of LocUnorderedSetMap ---------------------------------

  function Get<K, V>(m: map<K, set<V>>, k: K): set<V> { if k in m then m[k] else {} }

  /** Adds `v` to the set of every key in `keys`. */
  function AddAll<K, V>(m: map<K, set<V>>, keys: set<K>, v: V): map<K, set<V>> {
    map k | k in m.Keys + keys :: Get(m, k) + (if k in keys then {v} else {})
  }

  /** Removes `v` from the set of every key in `keys`, and the keys whose set becomes empty. */
  function Trim<K, V>(m: map<K, set<V>>, keys: set<K>, v: V): map<K, set<V>> {
    map k | k in m && !(k in keys && m[k] <= {v}) :: if k in keys then m[k] - {v} else m[k]
  }

  function Trimmed<K, V>(m: map<K, set<V>>, keys: set<K>, v: V): set<K> {
    set k | k in keys && k in m && m[k] <= {v}
  }

  /** `trimOrRemove` of one key: drops `vals` from its set, and the key if nothing is left. */
  function Drop<K, V>(m: map<K, set<V>>, k: K, vals: set<V>): map<K, set<V>> {
    if k !in m then m else if m[k] <= vals then m - {k} else m[k := m[k] - vals]
  }

  // ----- the steps -----------------------------------------------------------------------------

  /** The items the present subscription object was asked to subscribe to, and those it was asked for
      the data of, without those it was asked to unsubscribe from since. */
  datatype Framework = Framework(subscribed: set<Item>, requested: set<Item>) {
    function Watched(): set<Item> { subscribed + requested }
  }

  datatype Index = Index(clientToItems: map<Client, set<Item>>, itemToClients: map<Item, set<Client>>,
                         registered: Option<Framework>)

  datatype Event =
    | Subscribe(client: Client, items: set<Item>, toRequestData: bool)
    | UpdateSubscription(client: Client, items: set<Item>)
    | Unsubscribe(client: Client, items: set<Item>)
    | UnsubscribeAll(client: Client)
    | SetSubscriptionObj

  const INITIAL := Index(map[], map[], None)

  /** Without a subscription object nothing is asked. */
  function Subscribed(r: Option<Framework>, items: set<Item>): Option<Framework> {
    match r case None => None case Some(f) => Some(f.(subscribed := f.subscribed + items))
  }

  function Requested(r: Option<Framework>, items: set<Item>): Option<Framework> {
    match r case None => None case Some(f) => Some(f.(requested := f.requested + items))
  }

  function Unsubscribed(r: Option<Framework>, items: set<Item>): Option<Framework> {
    match r case None => None case Some(f) => Some(Framework(f.subscribed - items, f.requested - items))
  }

  lemma UnsubscribedNone(r: Option<Framework>)
    ensures Unsubscribed(r, {}) == r
  {
    if r.Some? {
      assert r.value.subscribed - {} == r.value.subscribed && r.value.requested - {} == r.value.requested;
    }
  }

  function OnSubscribe(x: Index, client: Client, items: set<Item>, toRequestData: bool): Index {
    Index(x.clientToItems[client := Get(x.clientToItems, client) + items],
          AddAll(x.itemToClients, items, client),
          if toRequestData then Requested(x.registered, items)
          else Subscribed(x.registered, items - x.itemToClients.Keys))
  }

  function OnUpdate(x: Index, client: Client, items: set<Item>): Index {
    var before := Get(x.clientToItems, client);
    var trimmed := Trim(x.itemToClients, before - items, client);
    Index(x.clientToItems[client := items],
          AddAll(trimmed, items - before, client),
          Unsubscribed(Subscribed(x.registered, (items - before) - trimmed.Keys),
                       Trimmed(x.itemToClients, before - items, client)))
  }

  /** Ends the client's subscription to `items`, all of which it has. */
  function OnLeave(x: Index, client: Client, items: set<Item>): Index {
    Index(Drop(x.clientToItems, client, items),
          Trim(x.itemToClients, items, client),
          Unsubscribed(x.registered, Trimmed(x.itemToClients, items, client)))
  }

  /** Requests with an empty list are ignored. */
  function Next(x: Index, e: Event): Index {
    match e
    case Subscribe(client, items, toRequestData) =>
      if items == {} then x else OnSubscribe(x, client, items, toRequestData)
    case UpdateSubscription(client, items) => if items == {} then x else OnUpdate(x, client, items)
    case Unsubscribe(client, items) =>
      if items == {} then x else OnLeave(x, client, Get(x.clientToItems, client) * items)
    case UnsubscribeAll(client) => OnLeave(x, client, Get(x.clientToItems, client))
    case SetSubscriptionObj => x.(registered := Some(Framework(x.itemToClients.Keys, x.itemToClients.Keys)))
  }

  function Run(es: seq<Event>): Index {
    if es == [] then INITIAL else Next(Run(es[..|es| - 1]), es[|es| - 1])
  }

  // ----- exact inverses ----------------------------------------------------------------------------

  predicate Rel<K, V>(m: map<K, set<V>>, k: K, v: V) { k in m && v in m[k] }

  predicate NoEmpty<K, V>(m: map<K, set<V>>) { forall k :: k in m ==> m[k] != {} }

  ghost predicate Inverse(x: Index) {
    NoEmpty(x.clientToItems) && NoEmpty(x.itemToClients)
    && forall c, i :: Rel(x.clientToItems, c, i) <==> Rel(x.itemToClients, i, c)
  }

  ghost predicate Good(x: Index) {
    Inverse(x) && (x.registered.Some? ==> x.registered.value.Watched() == x.itemToClients.Keys)
  }

  lemma RelAddAll<K, V>(m: map<K, set<V>>, keys: set<K>, added: V, k: K, v: V)
    ensures Rel(AddAll(m, keys, added), k, v) <==> Rel(m, k, v) || (k in keys && v == added)
  {
  }

  lemma RelTrim<K, V>(m: map<K, set<V>>, keys: set<K>, gone: V, k: K, v: V)
    ensures Rel(Trim(m, keys, gone), k, v) <==> Rel(m, k, v) && !(k in keys && v == gone)
  {
  }

  lemma NoEmptyTrim<K, V>(m: map<K, set<V>>, keys: set<K>, gone: V)
    requires NoEmpty(m)
    ensures NoEmpty(Trim(m, keys, gone))
    ensures Trim(m, keys, gone).Keys == m.Keys - Trimmed(m, keys, gone)
  {
    var t := Trim(m, keys, gone);
    forall k | k in t ensures t[k] != {} {
      if k in keys {
        var v :| v in m[k] && v != gone;
        assert v in t[k];
      }
    }
  }

  lemma SubscribeGood(x: Index, client: Client, items: set<Item>, toRequestData: bool)
    requires Good(x) && items != {}
    ensures Good(OnSubscribe(x, client, items, toRequestData))
  {
    var x' := OnSubscribe(x, client, items, toRequestData);
    forall c, i ensures Rel(x'.clientToItems, c, i) <==> Rel(x'.itemToClients, i, c) {
      RelAddAll(x.itemToClients, items, client, i, c);
      assert Rel(x.clientToItems, c, i) <==> Rel(x.itemToClients, i, c);
    }
    AddAllNoEmpty(x.itemToClients, items, client);
  }

  lemma AddAllNoEmpty<K, V>(m: map<K, set<V>>, keys: set<K>, v: V)
    requires NoEmpty(m)
    ensures NoEmpty(AddAll(m, keys, v)) && AddAll(m, keys, v).Keys == m.Keys + keys
  {
    var a := AddAll(m, keys, v);
    forall k | k in a ensures a[k] != {} {
      if k in keys {
        assert v in a[k];
      } else {
        assert m[k] <= a[k];
      }
    }
  }

  lemma UpdateGood(x: Index, client: Client, items: set<Item>)
    requires Good(x) && items != {}
    ensures Good(OnUpdate(x, client, items))
  {
    var x' := OnUpdate(x, client, items);
    var before := Get(x.clientToItems, client);
    var trimmed := Trim(x.itemToClients, before - items, client);
    forall c, i ensures Rel(x'.clientToItems, c, i) <==> Rel(x'.itemToClients, i, c) {
      RelTrim(x.itemToClients, before - items, client, i, c);
      RelAddAll(trimmed, items - before, client, i, c);
      assert Rel(x.clientToItems, c, i) <==> Rel(x.itemToClients, i, c);
    }
    NoEmptyTrim(x.itemToClients, before - items, client);
    AddAllNoEmpty(trimmed, items - before, client);
  }

  lemma LeaveGood(x: Index, client: Client, items: set<Item>)
    requires Good(x) && items <= Get(x.clientToItems, client)
    ensures Good(OnLeave(x, client, items))
  {
    var x' := OnLeave(x, client, items);
    forall c, i ensures Rel(x'.clientToItems, c, i) <==> Rel(x'.itemToClients, i, c) {
      RelTrim(x.itemToClients, items, client, i, c);
      assert Rel(x.clientToItems, c, i) <==> Rel(x.itemToClients, i, c);
    }
    NoEmptyTrim(x.itemToClients, items, client);
    if client in x'.clientToItems {
      var left := x.clientToItems[client] - items;
      assert left != {} by {
        assert !(x.clientToItems[client] <= items);
        assert forall i :: i in left <==> i in x.clientToItems[client] && i !in items;
      }
    }
  }

  /** Over every run the two indexes are exact inverses without empty entries, and what the framework
      was asked to subscribe to or for the data of is exactly the set of items somebody subscribes
      to. */
  lemma {:induction false} RunGood(es: seq<Event>)
    ensures Good(Run(es))
  {
    if es != [] {
      var x, e := Run(es[..|es| - 1]), es[|es| - 1];
      RunGood(es[..|es| - 1]);
      match e
      case Subscribe(client, items, toRequestData) =>
        if items != {} {
          SubscribeGood(x, client, items, toRequestData);
        }
      case UpdateSubscription(client, items) =>
        if items != {} {
          UpdateGood(x, client, items);
        }
      case Unsubscribe(client, items) => LeaveGood(x, client, Get(x.clientToItems, client) * items);
      case UnsubscribeAll(client) => LeaveGood(x, client, Get(x.clientToItems, client));
      case SetSubscriptionObj =>
    }
  }

  // ----- subscribed or only requested -------------------------------------------------------------

  /** Since somebody last began to subscribe to this item, a subscription object was set, or there was
      one then and that was not a request for data. */
  predicate AskedToSubscribe(es: seq<Event>, i: Item) {
    es != []
    && (var before, e := es[..|es| - 1], es[|es| - 1];
        i in Run(es).itemToClients
        && (e == SetSubscriptionObj
            || if i in Run(before).itemToClients then AskedToSubscribe(before, i)
               else Run(before).registered.Some? && !(e.Subscribe? && e.toRequestData)))
  }

  /** One event other than a new subscription object: a watched item stays subscribed or not, and a
      new one is subscribed unless its data is only requested. */
  lemma StepSubscribed(x: Index, e: Event, i: Item)
    requires Good(x) && x.registered.Some? && e != SetSubscriptionObj && i in Next(x, e).itemToClients
    ensures Next(x, e).registered.Some?
    ensures i in Next(x, e).registered.value.subscribed
      <==> if i in x.itemToClients then i in x.registered.value.subscribed else !(e.Subscribe? && e.toRequestData)
  {
    match e
    case Subscribe(client, items, _) =>
    case UpdateSubscription(client, items) =>
      if items != {} {
        var before := Get(x.clientToItems, client);
        NoEmptyTrim(x.itemToClients, before - items, client);
        assert i in items - before && i in x.itemToClients ==> client !in x.itemToClients[i] by {
          assert Rel(x.clientToItems, client, i) <==> Rel(x.itemToClients, i, client);
        }
      }
    case Unsubscribe(client, items) =>
    case UnsubscribeAll(client) =>
  }

  /** An item with subscribers is subscribed at the framework exactly then; otherwise the framework was
      only asked for its data, however many clients have subscribed to it since. */
  lemma {:induction false} SubscribedIff(es: seq<Event>, i: Item)
    requires Run(es).registered.Some? && i in Run(es).itemToClients
    ensures i in Run(es).registered.value.subscribed <==> AskedToSubscribe(es, i)
    ensures i !in Run(es).registered.value.subscribed ==> i in Run(es).registered.value.requested
  {
    RunGood(es);
    if es != [] {
      var before, e := es[..|es| - 1], es[|es| - 1];
      RunGood(before);
      if e != SetSubscriptionObj && Run(before).registered.Some? {
        StepSubscribed(Run(before), e, i);
        if i in Run(before).itemToClients {
          SubscribedIff(before, i);
        }
      }
    }
  }

  /** A run in which a plain subscription to an item is never passed on, because its data had been
      requested before. */
  lemma RequestHidesSubscription()
    ensures var es := [SetSubscriptionObj, Subscribe(1, {5}, true), Subscribe(2, {5}, false)];
      Rel(Run(es).itemToClients, 5, 2) && Run(es).registered == Some(Framework({}, {5}))
  {
    var one, two := [SetSubscriptionObj], [SetSubscriptionObj, Subscribe(1, {5}, true)];
    var es := [SetSubscriptionObj, Subscribe(1, {5}, true), Subscribe(2, {5}, false)];
    assert es[..2] == two && two[..1] == one && one[..0] == [];
    var nobody: map<Item, set<Client>> := map[];
    assert nobody.Keys == {};
    assert Run(one) == Index(map[], nobody, Some(Framework({}, {})));
    assert {} + {5} == {5};
    assert Run(two).registered == Some(Framework({}, {5})) && 5 in Run(two).itemToClients;
    var more := {5} - Run(two).itemToClients.Keys;
    assert more == {} && Run(two).registered.value.subscribed + more == {};
  }

  /** An update leaves the client with exactly the requested items, and other clients as they were. */
  lemma UpdateReplaces(es: seq<Event>, client: Client, items: set<Item>, c: Client, i: Item)
    requires items != {}
    ensures Rel(Next(Run(es), UpdateSubscription(client, items)).itemToClients, i, c)
      <==> if c == client then i in items else Rel(Run(es).itemToClients, i, c)
  {
    var x := Run(es);
    RunGood(es);
    UpdateGood(x, client, items);
    assert Rel(x.clientToItems, c, i) <==> Rel(x.itemToClients, i, c);
    var x' := OnUpdate(x, client, items);
    assert Rel(x'.clientToItems, c, i) <==> Rel(x'.itemToClients, i, c);
  }

  // ----- notification ---------------------------------------------------------------------------------

  /** A received data item; `handled` is whether the system status records it, `created` whether
      an item of its kind can be created for the cache. */
  datatype Datum = Datum(item: Item, value: Value, handled: bool, created: bool)

  predicate Updates(cache: map<Item, Value>, d: Datum) {
    d.handled && if d.item in cache then cache[d.item] != d.value else d.created
  }

  function Store(cache: map<Item, Value>, d: Datum): map<Item, Value> {
    if Updates(cache, d) then cache[d.item := d.value] else cache
  }

  function StoreAll(cache: map<Item, Value>, ds: seq<Datum>): map<Item, Value>
    decreases ds
  {
    if ds == [] then cache else StoreAll(Store(cache, ds[0]), ds[1..])
  }

  function UpdatedItems(cache: map<Item, Value>, ds: seq<Datum>): set<Item>
    decreases ds
  {
    if ds == [] then {}
    else (if Updates(cache, ds[0]) then {ds[0].item} else {}) + UpdatedItems(Store(cache, ds[0]), ds[1..])
  }

  /** One call of a client's `notify`, with the data items it is given. */
  datatype Delivery = Delivery(client: Client, content: map<Item, Value>)

  function Cached(cache: map<Item, Value>, items: set<Item>): map<Item, Value> {
    map i | i in items && i in cache :: cache[i]
  }

  /** What `sendCachedDataItems` hands to a client: one call, or none if nothing is cached. */
  function Response(cache: map<Item, Value>, client: Client, items: set<Item>): seq<Delivery> {
    var content := Cached(cache, items);
    if |content| == 0 then [] else [Delivery(client, content)]
  }

  lemma {:induction false} UpdatedAreCached(cache: map<Item, Value>, ds: seq<Datum>)
    ensures cache.Keys <= StoreAll(cache, ds).Keys
    ensures UpdatedItems(cache, ds) <= StoreAll(cache, ds).Keys
    decreases ds
  {
    if ds != [] {
      UpdatedAreCached(Store(cache, ds[0]), ds[1..]);
    }
  }

  predicate Called(deliveries: seq<Delivery>, client: Client) {
    exists k :: 0 <= k < |deliveries| && deliveries[k].client == client
  }

  predicate Interested(clientToItems: map<Client, set<Item>>, updated: set<Item>, client: Client) {
    exists i :: i in updated && Rel(clientToItems, client, i)
  }

  lemma InterestedOneMore(clientToItems: map<Client, set<Item>>, done: set<Item>, i: Item, c: Client)
    ensures Interested(clientToItems, done + {i}, c) <==> Interested(clientToItems, done, c) || Rel(clientToItems, c, i)
  {
    if Rel(clientToItems, c, i) {
      assert i in done + {i};
    }
    if k :| k in done && Rel(clientToItems, c, k) {
      assert k in done + {i};
    }
  }

  lemma CalledSnoc(sent: seq<Delivery>, d: Delivery)
    ensures forall c :: Called(sent + [d], c) <==> Called(sent, c) || c == d.client
  {
    forall c ensures Called(sent + [d], c) <==> Called(sent, c) || c == d.client {
      if k :| 0 <= k < |sent| && sent[k].client == c {
        assert (sent + [d])[k].client == c;
      }
      assert (sent + [d])[|sent|] == d;
    }
  }

  /** What one notification must bring about: every client that subscribes to an updated item
      is called once, with exactly the updated items it subscribes to; nobody else is called. */
  ghost predicate Exact(clientToItems: map<Client, set<Item>>, cache: map<Item, Value>, updated: set<Item>,
                        deliveries: seq<Delivery>)
  {
    (forall i, j :: 0 <= i < j < |deliveries| ==> deliveries[i].client != deliveries[j].client)
    && (forall c :: Called(deliveries, c) <==> Interested(clientToItems, updated, c))
    && forall k :: 0 <= k < |deliveries| ==>
         deliveries[k].content == Cached(cache, Get(clientToItems, deliveries[k].client) * updated)
  }

  /** Exactness leaves no freedom but the order: two exact outcomes bring every client the same. */
  lemma ExactIsUnique(clientToItems: map<Client, set<Item>>, cache: map<Item, Value>, updated: set<Item>,
                      a: seq<Delivery>, b: seq<Delivery>)
    requires Exact(clientToItems, cache, updated, a) && Exact(clientToItems, cache, updated, b)
    ensures forall d :: d in a <==> d in b
  {
    ExactIncluded(clientToItems, cache, updated, a, b);
    ExactIncluded(clientToItems, cache, updated, b, a);
  }

  lemma ExactIncluded(clientToItems: map<Client, set<Item>>, cache: map<Item, Value>, updated: set<Item>,
                      a: seq<Delivery>, b: seq<Delivery>)
    requires Exact(clientToItems, cache, updated, a) && Exact(clientToItems, cache, updated, b)
    ensures forall d :: d in a ==> d in b
  {
    forall d | d in a ensures d in b {
      var k :| 0 <= k < |a| && a[k] == d;
      assert Called(a, d.client) && Interested(clientToItems, updated, d.client) && Called(b, d.client);
      var l :| 0 <= l < |b| && b[l].client == d.client;
      assert b[l] == d;
    }
  }

  lemma NonEmpty(s: set<int>)
    requires s != {}
    ensures exists x :: x in s
  {
    assert (forall x :: x !in s) ==> s == {};
  }

  class SystemStatusOsObserver {
    var clientToDataItems: map<Client, set<Item>>
    var dataItemToClients: map<Item, set<Client>>
    var registered: Option<Framework>
    var dataItemCache: map<Item, Value>
    var deliveries: seq<Delivery>

    ghost function View(): Index reads this { Index(clientToDataItems, dataItemToClients, registered) }

    /** The client was given the cached ones of `items`, in one call, if there are any. */
    twostate predicate Sent(client: Client, items: set<Item>) reads this {
      dataItemCache == old(dataItemCache)
      && deliveries == old(deliveries) + Response(dataItemCache, client, items)
    }

    constructor ()
      ensures View() == INITIAL && dataItemCache == map[] && deliveries == []
    {
      clientToDataItems, dataItemToClients, registered := map[], map[], None;
      dataItemCache, deliveries := map[], [];
    }

    method FrameworkSubscribe(items: set<Item>)
      modifies this`registered
      ensures registered == Subscribed(old(registered), items)
    {
      if registered.Some? {
        registered := Some(registered.value.(subscribed := registered.value.subscribed + items));
      }
    }

    method FrameworkRequestData(items: set<Item>)
      modifies this`registered
      ensures registered == Requested(old(registered), items)
    {
      if registered.Some? {
        registered := Some(registered.value.(requested := registered.value.requested + items));
      }
    }

    method FrameworkUnsubscribe(items: set<Item>)
      modifies this`registered
      ensures registered == Unsubscribed(old(registered), items)
    {
      if registered.Some? {
        registered := Some(Framework(registered.value.subscribed - items, registered.value.requested - items));
      }
    }

    method SetSubscriptionObject()
      modifies this`registered
      ensures View() == Next(old(View()), SetSubscriptionObj)
    {
      registered := Some(Framework({}, {}));
      if dataItemToClients != map[] {
        FrameworkSubscribe(dataItemToClients.Keys);
        FrameworkRequestData(dataItemToClients.Keys);
      }
      assert {} + dataItemToClients.Keys == dataItemToClients.Keys;
      assert dataItemToClients == map[] ==> dataItemToClients.Keys == {};
    }

    method SubscribeRequest(client: Client, items: set<Item>, toRequestData: bool)
      modifies this
      ensures View() == Next(old(View()), Subscribe(client, items, toRequestData))
      ensures Sent(client, items)
    {
      if items == {} {
        return;
      }
      var toSubscribe := items - dataItemToClients.Keys;
      dataItemToClients := AddAll(dataItemToClients, items, client);
      clientToDataItems := clientToDataItems[client := Get(clientToDataItems, client) + items];
      SendCachedDataItems(items, client);
      if toRequestData {
        FrameworkRequestData(items);
      } else {
        FrameworkSubscribe(toSubscribe);
      }
    }

    method UpdateSubscriptionRequest(client: Client, items: set<Item>)
      modifies this
      ensures View() == Next(old(View()), Event.UpdateSubscription(client, items))
      ensures items != {} ==> Sent(client, items - Get(old(clientToDataItems), client))
      ensures items == {} ==> deliveries == old(deliveries) && dataItemCache == old(dataItemCache)
    {
      if items == {} {
        return;
      }
      var before := Get(clientToDataItems, client);
      clientToDataItems := clientToDataItems[client := items];
      var unused, added := before - items, items - before;
      var toUnsubscribe := Trimmed(dataItemToClients, unused, client);
      dataItemToClients := Trim(dataItemToClients, unused, client);
      var toSubscribe := added - dataItemToClients.Keys;
      dataItemToClients := AddAll(dataItemToClients, added, client);
      SendCachedDataItems(added, client);
      FrameworkSubscribe(toSubscribe);
      FrameworkUnsubscribe(toUnsubscribe);
    }

    method UnsubscribeRequest(client: Client, items: set<Item>)
      modifies this
      ensures View() == Next(old(View()), Event.Unsubscribe(client, items))
      ensures deliveries == old(deliveries) && dataItemCache == old(dataItemCache)
    {
      if items == {} {
        return;
      }
      var unused := Get(clientToDataItems, client) * items;
      clientToDataItems := Drop(clientToDataItems, client, unused);
      var toUnsubscribe := Trimmed(dataItemToClients, unused, client);
      dataItemToClients := Trim(dataItemToClients, unused, client);
      FrameworkUnsubscribe(toUnsubscribe);
    }

    method UnsubscribeAllRequest(client: Client)
      requires NoEmpty(clientToDataItems)
      modifies this
      ensures View() == Next(old(View()), Event.UnsubscribeAll(client))
      ensures deliveries == old(deliveries) && dataItemCache == old(dataItemCache)
    {
      var items := Get(clientToDataItems, client);
      if items != {} {
        clientToDataItems := clientToDataItems - {client};
        var toUnsubscribe := Trimmed(dataItemToClients, items, client);
        dataItemToClients := Trim(dataItemToClients, items, client);
        FrameworkUnsubscribe(toUnsubscribe);
      } else {
        assert Trim(dataItemToClients, {}, client) == dataItemToClients;
        assert Trimmed(dataItemToClients, {}, client) == {};
        UnsubscribedNone(registered);
      }
    }

    method SendCachedDataItems(items: set<Item>, client: Client)
      modifies this`deliveries
      ensures Sent(client, items)
    {
      var content: map<Item, Value> := map[];
      var left := items;
      while left != {}
        invariant left <= items && content == Cached(dataItemCache, items - left)
        invariant deliveries == old(deliveries)
        decreases |left|
      {
        NonEmpty(left);
        var i :| i in left;
        left := left - {i};
        if i in dataItemCache {
          content := content[i := dataItemCache[i]];
        }
      }
      assert items - left == items;
      if |content| > 0 {
        deliveries := deliveries + [Delivery(client, content)];
      }
    }

    method UpdateCache(d: Datum) returns (updated: bool)
      modifies this`dataItemCache
      ensures updated == Updates(old(dataItemCache), d) && dataItemCache == Store(old(dataItemCache), d)
    {
      updated := false;
      if d.handled {
        if d.item !in dataItemCache {
          if d.created {
            dataItemCache := dataItemCache[d.item := d.value];
            updated := true;
          }
        } else if dataItemCache[d.item] != d.value {
          dataItemCache := dataItemCache[d.item := d.value];
          updated := true;
        }
      }
    }

    /** Whatever order the sets are walked in. */
    method Notify(ds: seq<Datum>)
      requires Inverse(View())
      modifies this`dataItemCache, this`deliveries
      ensures dataItemCache == StoreAll(old(dataItemCache), ds)
      ensures |old(deliveries)| <= |deliveries| && deliveries[..|old(deliveries)|] == old(deliveries)
      ensures Exact(clientToDataItems, dataItemCache, UpdatedItems(old(dataItemCache), ds),
                    deliveries[|old(deliveries)|..])
    {
      var updated := RecordAll(ds);
      var clients := InterestedClients(updated);
      DeliverAll(clients, updated);
    }

    /** Calls every one of `clients` once. */
    method DeliverAll(clients: set<Client>, updated: set<Item>)
      requires updated <= dataItemCache.Keys
      requires forall c :: c in clients <==> Interested(clientToDataItems, updated, c)
      modifies this`deliveries
      ensures |old(deliveries)| <= |deliveries| && deliveries[..|old(deliveries)|] == old(deliveries)
      ensures Exact(clientToDataItems, dataItemCache, updated, deliveries[|old(deliveries)|..])
    {
      ghost var sent: seq<Delivery> := [];
      var left := clients;
      while left != {}
        invariant left <= clients && deliveries == old(deliveries) + sent
        invariant forall i, j :: 0 <= i < j < |sent| ==> sent[i].client != sent[j].client
        invariant forall c :: Called(sent, c) <==> c in clients - left
        invariant forall k :: 0 <= k < |sent| ==>
          sent[k].content == Cached(dataItemCache, Get(clientToDataItems, sent[k].client) * updated)
        decreases |left|
      {
        NonEmpty(left);
        var client :| client in left;
        var items := Get(clientToDataItems, client) * updated;
        assert Interested(clientToDataItems, updated, client) && !Called(sent, client);
        ghost var i :| i in updated && Rel(clientToDataItems, client, i);
        assert i in items && i in Cached(dataItemCache, items);
        SendCachedDataItems(items, client);
        CalledSnoc(sent, Delivery(client, Cached(dataItemCache, items)));
        sent := sent + [Delivery(client, Cached(dataItemCache, items))];
        left := left - {client};
      }
      assert deliveries[|old(deliveries)|..] == sent;
    }

    method RecordAll(ds: seq<Datum>) returns (updated: set<Item>)
      modifies this`dataItemCache
      ensures dataItemCache == StoreAll(old(dataItemCache), ds)
      ensures updated == UpdatedItems(old(dataItemCache), ds) && updated <= dataItemCache.Keys
    {
      updated := {};
      ghost var rest := ds;
      for n := 0 to |ds|
        invariant rest == ds[n..]
        invariant StoreAll(dataItemCache, rest) == StoreAll(old(dataItemCache), ds)
        invariant updated + UpdatedItems(dataItemCache, rest) == UpdatedItems(old(dataItemCache), ds)
      {
        var changed := UpdateCache(ds[n]);
        if changed {
          updated := updated + {ds[n].item};
        }
        rest := rest[1..];
      }
      UpdatedAreCached(old(dataItemCache), ds);
    }

    method InterestedClients(updated: set<Item>) returns (clients: set<Client>)
      requires Inverse(View())
      ensures forall c :: c in clients <==> Interested(clientToDataItems, updated, c)
    {
      clients := {};
      var left := updated;
      while left != {}
        invariant left <= updated
        invariant forall c :: c in clients <==> Interested(clientToDataItems, updated - left, c)
        decreases |left|
      {
        NonEmpty(left);
        var i :| i in left;
        ghost var done := updated - left;
        forall c ensures Interested(clientToDataItems, done + {i}, c)
          <==> Interested(clientToDataItems, done, c) || c in Get(dataItemToClients, i)
        {
          assert Rel(clientToDataItems, c, i) <==> Rel(dataItemToClients, i, c);
          InterestedOneMore(clientToDataItems, done, i, c);
        }
        clients := clients + Get(dataItemToClients, i);
        left := left - {i};
        assert updated - left == done + {i};
      }
      assert updated - left == updated;
    }
  }
}
