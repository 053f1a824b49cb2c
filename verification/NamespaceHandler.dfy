/** The handlers of a namespace's events: they register or tear down all its services. */
module NamespaceHandlers {
  import opened Types
  import opened Services
  import opened Batches
  import opened ServiceHandlers

  /** A passing service and the endpoints derived for it. */
  datatype Item = Item(service: string, endpoints: seq<Endpoint>)

  // ----- specification -----

  /** The events for one service: leaf first when deleting. `endpointKind` is sent for endpoints. */
  function ItemEvents(ns: string, kind: EventType, endpointKind: EventType, item: Item): seq<Event> {
    var own := if kind.Update? then [] else [Event(kind, ServiceObj(ns, item.service))];
    if kind.Delete? then Each(endpointKind, item.endpoints) + own else own + Each(endpointKind, item.endpoints)
  }

  function ItemsEvents(ns: string, kind: EventType, endpointKind: EventType, items: seq<Item>): seq<Event> {
    if items == [] then []
    else ItemsEvents(ns, kind, endpointKind, items[..|items| - 1]) + ItemEvents(ns, kind, endpointKind, items[|items| - 1])
  }

  function NamespaceEvents(ns: string, kind: EventType, endpointKind: EventType, items: seq<Item>): seq<Event> {
    var own := if kind.Update? then [] else [Event(kind, NamespaceObj(ns))];
    var inner := ItemsEvents(ns, kind, endpointKind, items);
    if kind.Delete? then inner + own else own + inner
  }

  /** `items` are the passing ones among the first `n` services, in order. */
  ghost predicate ItemsOf(opts: Options, services: seq<Service>, dns: nat -> Resolver, n: nat, items: seq<Item>)
    requires n <= |services|
  {
    if n == 0 then items == []
    else if !Passes(services[n - 1], opts, dns(n - 1)) then ItemsOf(opts, services, dns, n - 1, items)
    else
      && items != []
      && items[|items| - 1].service == services[n - 1].name
      && Derives(services[n - 1], opts, dns(n - 1), items[|items| - 1].endpoints)
      && ItemsOf(opts, services, dns, n - 1, items[..|items| - 1])
  }

  /** What is sent for the namespace; endpoints are always sent deletes. */
  ghost predicate NamespaceSends(opts: Options, ns: string, kind: EventType, services: Option<seq<Service>>,
        dns: nat -> Resolver, evs: seq<Event>) {
    if services.None? then evs == []
    else exists items ::
      ItemsOf(opts, services.value, dns, |services.value|, items) && evs == NamespaceEvents(ns, kind, Delete, items)
  }

  lemma ItemsOfNext(opts: Options, services: seq<Service>, dns: nat -> Resolver, n: nat, items: seq<Item>, item: Item)
    requires n < |services| && ItemsOf(opts, services, dns, n, items)
    requires item.service == services[n].name && Derives(services[n], opts, dns(n), item.endpoints)
    ensures ItemsOf(opts, services, dns, n + 1, items + [item])
  {
    assert (items + [item])[..|items|] == items;
  }

  lemma ItemsEventsNext(ns: string, kind: EventType, endpointKind: EventType, items: seq<Item>, item: Item)
    ensures ItemsEvents(ns, kind, endpointKind, items + [item]) ==
            ItemsEvents(ns, kind, endpointKind, items) + ItemEvents(ns, kind, endpointKind, item)
  {
    assert (items + [item])[..|items|] == items;
  }

  lemma SentAfter(before: seq<Event>, first: seq<Event>, second: seq<Event>)
    ensures before + first + second == before + (first + second)
    ensures before <= before + (first + second) && (before + (first + second))[|before|..] == first + second
  {
  }

  /** `items` are the passing ones among the first `n` services, and their events were sent since `before`. */
  ghost predicate SentFor(opts: Options, ns: string, kind: EventType, services: seq<Service>, dns: nat -> Resolver,
        n: nat, items: seq<Item>, before: seq<Event>, sent: seq<Event>)
    requires n <= |services|
  {
    ItemsOf(opts, services, dns, n, items) && sent == before + ItemsEvents(ns, kind, Delete, items)
  }

  lemma SentNext(opts: Options, ns: string, kind: EventType, services: seq<Service>, dns: nat -> Resolver,
        n: nat, items: seq<Item>, before: seq<Event>, sent: seq<Event>, item: Item)
    requires n < |services| && SentFor(opts, ns, kind, services, dns, n, items, before, sent)
    requires item.service == services[n].name && Derives(services[n], opts, dns(n), item.endpoints)
    ensures SentFor(opts, ns, kind, services, dns, n + 1, items + [item], before, sent + ItemEvents(ns, kind, Delete, item))
  {
    ItemsOfNext(opts, services, dns, n, items, item);
    ItemsEventsNext(ns, kind, Delete, items, item);
    SentAfter(before, ItemsEvents(ns, kind, Delete, items), ItemEvents(ns, kind, Delete, item));
  }

  // ----- the handler -----

  class NamespaceEventHandler {
    const opts: Options
    const eventsChan: EventsChan

    constructor (opts: Options, eventsChan: EventsChan)
      ensures this.opts == opts && this.eventsChan == eventsChan
    {
      this.opts, this.eventsChan := opts, eventsChan;
    }

    /** The events for one passing service; a deferred send runs last. */
    method SendItem(ns: string, kind: EventType, item: Item)
      modifies eventsChan
      ensures eventsChan.sent == old(eventsChan.sent) + ItemEvents(ns, kind, EventType.Delete, item)
    {
      if kind == EventType.Create {
        eventsChan.Send(Event(kind, ServiceObj(ns, item.service)));
      }
      eventsChan.SendEach(EventType.Delete, item.endpoints);
      if kind == EventType.Delete {
        eventsChan.Send(Event(kind, ServiceObj(ns, item.service)));
      }
    }

    method SendItems(ns: string, kind: EventType, services: seq<Service>, dns: nat -> Resolver)
      returns (ghost items: seq<Item>)
      modifies eventsChan
      ensures ItemsOf(opts, services, dns, |services|, items)
      ensures eventsChan.sent == old(eventsChan.sent) + ItemsEvents(ns, kind, EventType.Delete, items)
    {
      items := [];
      for i := 0 to |services|
        invariant SentFor(opts, ns, kind, services, dns, i, items, old(eventsChan.sent), eventsChan.sent)
      {
        var checkedService := CheckService(services[i], opts, dns(i));
        if !checkedService.passed {
          continue;
        }
        var item := Item(services[i].name, checkedService.endpoints);
        ghost var sent := eventsChan.sent;
        SendItem(ns, kind, item);
        SentNext(opts, ns, kind, services, dns, i, items, old(eventsChan.sent), sent, item);
        items := items + [item];
      }
    }

    /** `services` is the answer of listing the namespace's services, None when that failed. */
    method HandleUpdateEvent(ns: string, kind: EventType, services: Option<seq<Service>>, dns: nat -> Resolver)
      modifies eventsChan
      ensures old(eventsChan.sent) <= eventsChan.sent
      ensures NamespaceSends(opts, ns, kind, services, dns, eventsChan.Since(old(eventsChan.sent)))
    {
      ghost var before := eventsChan.sent;
      if services.None? {
        return;
      }
      if kind == EventType.Create {
        eventsChan.Send(Event(kind, NamespaceObj(ns)));
      }
      ghost var items := SendItems(ns, kind, services.value, dns);
      if kind == EventType.Delete {
        eventsChan.Send(Event(kind, NamespaceObj(ns)));
      }
      ghost var own, inner := [Event(kind, NamespaceObj(ns))], ItemsEvents(ns, kind, EventType.Delete, items);
      match kind
      case Create => SentAfter(before, own, inner);
      case Delete => SentAfter(before, inner, own);
      case Update => assert eventsChan.sent == before + inner;
    }

    method Update(ns: string, oldLabels: Meta, currLabels: Meta, services: Option<seq<Service>>, dns: nat -> Resolver)
      modifies eventsChan
      ensures old(eventsChan.sent) <= eventsChan.sent
      ensures
        var watchedBefore :=
          || ("operator.cnwan.io/watch" in oldLabels && oldLabels["operator.cnwan.io/watch"] == "enabled")
          || (opts.watchByDefault && ("operator.cnwan.io/watch" !in oldLabels || oldLabels["operator.cnwan.io/watch"] != "disabled"));
        var watchedNow :=
          || ("operator.cnwan.io/watch" in currLabels && currLabels["operator.cnwan.io/watch"] == "enabled")
          || (opts.watchByDefault && ("operator.cnwan.io/watch" !in currLabels || currLabels["operator.cnwan.io/watch"] != "disabled"));
        var sent := eventsChan.Since(old(eventsChan.sent));
        if watchedBefore == watchedNow || services.None? then sent == []
        else NamespaceSends(opts, ns, if watchedNow then EventType.Create else EventType.Delete, services, dns, sent)
    {
      CheckNsLabelsMeans(oldLabels, opts.watchByDefault);
      CheckNsLabelsMeans(currLabels, opts.watchByDefault);
      var watchNow := CheckNsLabels(currLabels, opts.watchByDefault);
      var watchedBefore := CheckNsLabels(oldLabels, opts.watchByDefault);
      if watchedBefore && watchNow {
        return;
      } else if watchedBefore && !watchNow {
        HandleUpdateEvent(ns, EventType.Delete, services, dns);
      } else if !watchedBefore && watchNow {
        HandleUpdateEvent(ns, EventType.Create, services, dns);
      }
    }

    method Delete(ns: string, labels: Meta, services: Option<seq<Service>>, dns: nat -> Resolver)
      modifies eventsChan
      ensures old(eventsChan.sent) <= eventsChan.sent
      ensures
        var sent := eventsChan.Since(old(eventsChan.sent));
        var watched :=
          || ("operator.cnwan.io/watch" in labels && labels["operator.cnwan.io/watch"] == "enabled")
          || (opts.watchByDefault && ("operator.cnwan.io/watch" !in labels || labels["operator.cnwan.io/watch"] != "disabled"));
        if watched && services.Some? then NamespaceSends(opts, ns, EventType.Delete, services, dns, sent)
        else sent == []
    {
      CheckNsLabelsMeans(labels, opts.watchByDefault);
      if !CheckNsLabels(labels, opts.watchByDefault) {
        return;
      }
      HandleUpdateEvent(ns, EventType.Delete, services, dns);
    }
  }
}
