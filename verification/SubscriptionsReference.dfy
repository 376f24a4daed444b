/** Subscriptions told from their history, client by client and item by item: who subscribes to what,
    what the framework was asked for the data of, and what the cache remembers. */
module SubscriptionsReference {
  import opened Basics
  import opened Subscriptions

  /** The client subscribes to the item: it subscribed, or its latest update named the item, and it has
      not unsubscribed from it since. Updates with an empty list do nothing. */
  predicate Subscribes(es: seq<Event>, c: Client, i: Item) {
    es != []
    && (var before := Subscribes(es[..|es| - 1], c, i);
        match es[|es| - 1]
        case Subscribe(client, items, _) => before || (client == c && i in items)
        case UpdateSubscription(client, items) => if client == c && items != {} then i in items else before
        case Unsubscribe(client, items) => before && !(client == c && i in items)
        case UnsubscribeAll(client) => before && client != c
        case SetSubscriptionObj => before)
  }

  lemma SubscribeRelates(x: Index, e: Event, c: Client, i: Item)
    requires Good(x) && e.Subscribe?
    ensures Rel(Next(x, e).itemToClients, i, c) <==> Rel(x.itemToClients, i, c) || (e.client == c && i in e.items)
  {
    RelAddAll(x.itemToClients, e.items, e.client, i, c);
  }

  lemma UpdateRelates(x: Index, e: Event, c: Client, i: Item)
    requires Good(x) && e.UpdateSubscription?
    ensures Rel(Next(x, e).itemToClients, i, c)
      <==> if e.client == c && e.items != {} then i in e.items else Rel(x.itemToClients, i, c)
  {
    if e.items != {} {
      var before := Get(x.clientToItems, e.client);
      RelTrim(x.itemToClients, before - e.items, e.client, i, c);
      RelAddAll(Trim(x.itemToClients, before - e.items, e.client), e.items - before, e.client, i, c);
      assert Rel(x.clientToItems, c, i) <==> Rel(x.itemToClients, i, c);
    }
  }

  lemma LeaveRelates(x: Index, client: Client, named: set<Item>, c: Client, i: Item)
    requires Good(x)
    ensures Rel(OnLeave(x, client, Get(x.clientToItems, client) * named).itemToClients, i, c)
      <==> Rel(x.itemToClients, i, c) && !(client == c && i in named)
  {
    RelTrim(x.itemToClients, Get(x.clientToItems, client) * named, client, i, c);
    assert Rel(x.clientToItems, c, i) <==> Rel(x.itemToClients, i, c);
  }

  lemma LeaveAllRelates(x: Index, client: Client, c: Client, i: Item)
    requires Good(x)
    ensures Rel(OnLeave(x, client, Get(x.clientToItems, client)).itemToClients, i, c)
      <==> Rel(x.itemToClients, i, c) && client != c
  {
    RelTrim(x.itemToClients, Get(x.clientToItems, client), client, i, c);
    assert Rel(x.clientToItems, c, i) <==> Rel(x.itemToClients, i, c);
  }

  /** Over every run both maps hold exactly the pairs that the history says. */
  lemma {:induction false} RunRelates(es: seq<Event>, c: Client, i: Item)
    ensures Rel(Run(es).itemToClients, i, c) <==> Subscribes(es, c, i)
    ensures Rel(Run(es).clientToItems, c, i) <==> Subscribes(es, c, i)
  {
    RunGood(es);
    assert Rel(Run(es).clientToItems, c, i) <==> Rel(Run(es).itemToClients, i, c);
    if es != [] {
      var before, e := es[..|es| - 1], es[|es| - 1];
      RunGood(before);
      RunRelates(before, c, i);
      match e
      case Subscribe(_, _, _) => SubscribeRelates(Run(before), e, c, i);
      case UpdateSubscription(_, _) => UpdateRelates(Run(before), e, c, i);
      case Unsubscribe(client, items) => LeaveRelates(Run(before), client, items, c, i);
      case UnsubscribeAll(client) => LeaveAllRelates(Run(before), client, c, i);
      case SetSubscriptionObj =>
    }
  }

  // ----- the framework ------------------------------------------------------------------------------

  /** Somebody subscribes to the item. */
  ghost predicate Wanted(es: seq<Event>, i: Item) { exists c :: Subscribes(es, c, i) }

  lemma WantedIff(es: seq<Event>, i: Item)
    ensures i in Run(es).itemToClients <==> Wanted(es, i)
  {
    RunGood(es);
    if i in Run(es).itemToClients {
      NonEmpty(Run(es).itemToClients[i]);
      var c :| c in Run(es).itemToClients[i];
      RunRelates(es, c, i);
    }
    if c :| Subscribes(es, c, i) {
      RunRelates(es, c, i);
    }
  }

  /** Since somebody last began to subscribe to the item, a subscription object was set, or there was
      one when somebody asked for its data. */
  ghost predicate AskedForData(es: seq<Event>, i: Item) {
    es != [] && Wanted(es, i)
    && (var before, e := es[..|es| - 1], es[|es| - 1];
        e == SetSubscriptionObj
        || (e.Subscribe? && e.toRequestData && i in e.items && SetSubscriptionObj in before)
        || (Wanted(before, i) && AskedForData(before, i)))
  }

  lemma StepRequested(x: Index, e: Event, i: Item)
    requires Good(x) && x.registered.Some? && e != SetSubscriptionObj && i in Next(x, e).itemToClients
    ensures Next(x, e).registered.Some?
    ensures i in Next(x, e).registered.value.requested
      <==> i in x.registered.value.requested || (e.Subscribe? && e.toRequestData && i in e.items)
  {
    match e
    case Subscribe(_, _, _) =>
    case UpdateSubscription(client, items) =>
      if items != {} {
        NoEmptyTrim(x.itemToClients, Get(x.clientToItems, client) - items, client);
      }
    case Unsubscribe(client, items) =>
      NoEmptyTrim(x.itemToClients, Get(x.clientToItems, client) * items, client);
    case UnsubscribeAll(client) => NoEmptyTrim(x.itemToClients, Get(x.clientToItems, client), client);
  }

  /** There is a subscription object as soon as one was set. */
  lemma {:induction false} ObjectIff(es: seq<Event>)
    ensures Run(es).registered.Some? <==> SetSubscriptionObj in es
  {
    if es != [] {
      ObjectIff(es[..|es| - 1]);
      assert es == es[..|es| - 1] + [es[|es| - 1]];
    }
  }

  lemma NotWatched(es: seq<Event>, i: Item)
    requires Run(es).registered.Some? && i in Run(es).registered.value.requested
    ensures i in Run(es).itemToClients
  {
    RunGood(es);
    assert i in Run(es).registered.value.Watched();
  }

  /** The present object was asked for the data of exactly those items, and for none that nobody
      subscribes to. */
  lemma {:induction false} RequestedIff(es: seq<Event>, i: Item)
    requires Run(es).registered.Some?
    ensures i in Run(es).registered.value.requested <==> AskedForData(es, i)
  {
    WantedIff(es, i);
    if i !in Run(es).itemToClients {
      assert i !in Run(es).registered.value.requested by {
        if i in Run(es).registered.value.requested { NotWatched(es, i); }
      }
    } else if es != [] {
      var before, e := es[..|es| - 1], es[|es| - 1];
      ObjectIff(before);
      WantedIff(before, i);
      if e != SetSubscriptionObj {
        RequestedIff(before, i);
        assert Good(Run(before)) by { RunGood(before); }
        StepRequested(Run(before), e, i);
        if i in Run(before).registered.value.requested { NotWatched(before, i); }
      }
    }
  }

  // ----- the cache ----------------------------------------------------------------------------------

  function Lookup(cache: map<Item, Value>, i: Item): Option<Value> { if i in cache then Some(cache[i]) else None }

  /** A handled datum of the item is remembered, the first one only if it can be created. */
  function Learned(v: Option<Value>, d: Datum, i: Item): Option<Value> {
    if d.item == i && d.handled && (v.Some? || d.created) then Some(d.value) else v
  }

  function Remembered(v: Option<Value>, ds: seq<Datum>, i: Item): Option<Value> {
    if ds == [] then v else Learned(Remembered(v, ds[..|ds| - 1], i), ds[|ds| - 1], i)
  }

  /** Some datum brought a value other than the one remembered. */
  predicate Changed(v: Option<Value>, ds: seq<Datum>, i: Item) {
    ds != []
    && (Changed(v, ds[..|ds| - 1], i) || Remembered(v, ds, i) != Remembered(v, ds[..|ds| - 1], i))
  }

  lemma {:induction false} RememberedFront(v: Option<Value>, ds: seq<Datum>, i: Item)
    requires ds != []
    ensures var v' := Learned(v, ds[0], i);
      Remembered(v, ds, i) == Remembered(v', ds[1..], i)
      && (Changed(v, ds, i) <==> v' != v || Changed(v', ds[1..], i))
  {
    if |ds| == 1 {
      assert ds[1..] == [] && ds[..0] == [];
    } else {
      RememberedFront(v, ds[..|ds| - 1], i);
      assert ds[..|ds| - 1][1..] == ds[1..][..|ds| - 2];
    }
  }

  /** After a batch of data the cache holds, for each item, the last value it was handled with, and the
      updated items are exactly those whose value changed on the way. */
  lemma {:induction false} CacheRemembers(cache: map<Item, Value>, ds: seq<Datum>, i: Item)
    ensures Lookup(StoreAll(cache, ds), i) == Remembered(Lookup(cache, i), ds, i)
    ensures i in UpdatedItems(cache, ds) <==> Changed(Lookup(cache, i), ds, i)
    decreases ds
  {
    if ds != [] {
      CacheRemembers(Store(cache, ds[0]), ds[1..], i);
      RememberedFront(Lookup(cache, i), ds, i);
    }
  }

  /** The cached items among those asked for are sent in one call, and nothing if there are none. */
  lemma ResponseIsOneCall(cache: map<Item, Value>, client: Client, items: set<Item>)
    ensures var r := Response(cache, client, items);
      if forall i :: i in items ==> i !in cache then r == []
      else |r| == 1 && r[0].client == client
           && (forall i :: i in r[0].content <==> i in items && i in cache)
           && forall i :: i in r[0].content ==> r[0].content[i] == cache[i]
  {
    var content := Cached(cache, items);
    if i :| i in items && i in cache {
      assert i in content;
      assert content != map[];
    } else {
      forall i ensures i !in content {
        assert i in content ==> i in items && i in cache;
      }
      assert content.Keys == {};
    }
  }
}
