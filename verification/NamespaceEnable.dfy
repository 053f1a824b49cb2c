/** What enabling a namespace does to the registry when every call succeeds. */
module NamespaceEnable {
  import opened Types
  import opened Registry
  import opened Meaning
  import opened Annotations
  import opened Services
  import opened Batches
  import opened NamespaceHandlers
  import opened NamespaceConvergence
  import opened ServiceRuns

  /** Within one service, endpoints of one name are one endpoint. */
  ghost predicate NamesConsistent(kind: EventType, items: seq<Item>) {
    forall i {:trigger items[i]} :: 0 <= i < |items| ==> OnePerName(Each(kind, items[i].endpoints))
  }

  /** The events for one service leave everything outside it alone. */
  lemma ItemFrame(c: Config, r: Registry, ns: string, kind: EventType, item: Item, k: Key)
    requires forall j :: 0 <= j < |item.endpoints| ==> item.endpoints[j].service == item.service
    requires k.NsKey? || k.ns != ns || k.svc != item.service
    ensures Lookup(Replay(c, ns, r, ItemEvents(ns, Create, kind, item)), k) == Lookup(r, k)
  {
    var first := Event(Create, ServiceObj(ns, item.service));
    var r1 := Replay(c, ns, r, [first]);
    ReplayAppend(c, ns, r, [first], Each(kind, item.endpoints));
    ReplayOne(c, ns, r, first);
    BatchMiss(c, ns, item.service, r1, Each(kind, item.endpoints), k);
  }

  /** The service is stored and its endpoints underwent `kind`. */
  ghost predicate ItemApplied(c: Config, r: Registry, r': Registry, ns: string, kind: EventType, item: Item) {
    var svcKey := SvcKey(ns, item.service);
    && Lookup(r', svcKey) == Some(Stored(c, Lookup(r, svcKey), ServiceObj(ns, item.service)))
    && forall j :: 0 <= j < |item.endpoints| ==>
         var k := EpKey(ns, item.service, item.endpoints[j].name);
         Lookup(r', k) == Effect(c, Event(kind, EndpointObj(item.endpoints[j])), Lookup(r, k))
  }

  /** The service and its endpoints, after the events for it. */
  lemma ItemEffect(c: Config, r: Registry, ns: string, kind: EventType, item: Item)
    requires NsKey(ns) in r && OnePerName(Each(kind, item.endpoints))
    requires forall j :: 0 <= j < |item.endpoints| ==> item.endpoints[j].service == item.service
    ensures ItemApplied(c, r, Replay(c, ns, r, ItemEvents(ns, Create, kind, item)), ns, kind, item)
  {
    var first := Event(Create, ServiceObj(ns, item.service));
    var evs := Each(kind, item.endpoints);
    var r1 := Replay(c, ns, r, [first]);
    ReplayAppend(c, ns, r, [first], evs);
    ReplayOne(c, ns, r, first);
    BatchMiss(c, ns, item.service, r1, evs, SvcKey(ns, item.service));
    forall j | 0 <= j < |item.endpoints|
      ensures var k := EpKey(ns, item.service, item.endpoints[j].name);
        Lookup(Replay(c, ns, r1, evs), k) == Effect(c, Event(kind, EndpointObj(item.endpoints[j])), Lookup(r, k))
    {
      BatchHit(c, ns, item.service, r1, evs, j);
    }
  }

  lemma {:induction false} ItemsFrame(c: Config, r: Registry, ns: string, kind: EventType, items: seq<Item>, k: Key)
    requires WellListed(items)
    requires k.NsKey? || k.ns != ns || !ListedService(items, k.svc)
    ensures Lookup(Replay(c, ns, r, ItemsEvents(ns, Create, kind, items)), k) == Lookup(r, k)
  {
    if items != [] {
      var before, item := items[..|items| - 1], items[|items| - 1];
      assert items == before + [item];
      ListedNext(before, item);
      ItemsFrame(c, r, ns, kind, before, k);
      ReplayAppend(c, ns, r, ItemsEvents(ns, Create, kind, before), ItemEvents(ns, Create, kind, item));
      ItemFrame(c, Replay(c, ns, r, ItemsEvents(ns, Create, kind, before)), ns, kind, item, k);
    }
  }

  lemma AppliedFromSame(c: Config, r: Registry, r1: Registry, r': Registry, ns: string, kind: EventType, item: Item)
    requires SameService(r, r1, ns, item.service) && ItemApplied(c, r1, r', ns, kind, item)
    ensures ItemApplied(c, r, r', ns, kind, item)
  {
    assert Lookup(r, SvcKey(ns, item.service)) == Lookup(r1, SvcKey(ns, item.service));
  }

  lemma AppliedToSame(c: Config, r: Registry, r1: Registry, r': Registry, ns: string, kind: EventType, item: Item)
    requires SameService(r1, r', ns, item.service) && ItemApplied(c, r, r1, ns, kind, item)
    ensures ItemApplied(c, r, r', ns, kind, item)
  {
    assert Lookup(r', SvcKey(ns, item.service)) == Lookup(r1, SvcKey(ns, item.service));
  }

  /** Service by service: listed ones are registered, their endpoints undergo `kind`. */
  lemma {:induction false} ItemsEffect(c: Config, r: Registry, ns: string, kind: EventType, items: seq<Item>, i: nat)
    requires NsKey(ns) in r && WellListed(items) && NamesConsistent(kind, items) && i < |items|
    ensures ItemApplied(c, r, Replay(c, ns, r, ItemsEvents(ns, Create, kind, items)), ns, kind, items[i])
  {
    var last := |items| - 1;
    NamesConsistentPrefix(kind, items);
    if i == last {
      LastItemEffect(c, r, ns, kind, items);
    } else {
      ItemsEffect(c, r, ns, kind, items[..last], i);
      assert items[..last][i] == items[i];
      EarlierItemEffect(c, r, ns, kind, items, items[i]);
    }
  }

  lemma LastItemEffect(c: Config, r: Registry, ns: string, kind: EventType, items: seq<Item>)
    requires NsKey(ns) in r && WellListed(items) && NamesConsistent(kind, items) && items != []
    ensures ItemApplied(c, r, Replay(c, ns, r, ItemsEvents(ns, Create, kind, items)), ns, kind, items[|items| - 1])
  {
    var before, item := items[..|items| - 1], items[|items| - 1];
    var r1 := Replay(c, ns, r, ItemsEvents(ns, Create, kind, before));
    var r2 := Replay(c, ns, r1, ItemEvents(ns, Create, kind, item));
    ReplayAppend(c, ns, r, ItemsEvents(ns, Create, kind, before), ItemEvents(ns, Create, kind, item));
    ItemsFrame(c, r, ns, kind, before, NsKey(ns));
    assert Lookup(r1, NsKey(ns)).Some?;
    ItemEffect(c, r1, ns, kind, item);
    assert !ListedService(before, item.service);
    forall k: Key | !k.NsKey? && k.ns == ns && k.svc == item.service ensures Lookup(r, k) == Lookup(r1, k) {
      ItemsFrame(c, r, ns, kind, before, k);
    }
    AppliedFromSame(c, r, r1, r2, ns, kind, item);
  }

  lemma EarlierItemEffect(c: Config, r: Registry, ns: string, kind: EventType, items: seq<Item>, earlier: Item)
    requires WellListed(items) && items != [] && earlier.service != items[|items| - 1].service
    requires ItemApplied(c, r, Replay(c, ns, r, ItemsEvents(ns, Create, kind, items[..|items| - 1])), ns, kind, earlier)
    ensures ItemApplied(c, r, Replay(c, ns, r, ItemsEvents(ns, Create, kind, items)), ns, kind, earlier)
  {
    var before, item := items[..|items| - 1], items[|items| - 1];
    var r1 := Replay(c, ns, r, ItemsEvents(ns, Create, kind, before));
    var r2 := Replay(c, ns, r1, ItemEvents(ns, Create, kind, item));
    ReplayAppend(c, ns, r, ItemsEvents(ns, Create, kind, before), ItemEvents(ns, Create, kind, item));
    forall k: Key | !k.NsKey? && k.ns == ns && k.svc == earlier.service ensures Lookup(r1, k) == Lookup(r2, k) {
      ItemFrame(c, r1, ns, kind, item, k);
    }
    AppliedToSame(c, r, r1, r2, ns, kind, earlier);
  }

  lemma NamesConsistentPrefix(kind: EventType, items: seq<Item>)
    requires NamesConsistent(kind, items) && items != []
    ensures NamesConsistent(kind, items[..|items| - 1])
  {
    var before := items[..|items| - 1];
    forall n | 0 <= n < |before| ensures OnePerName(Each(kind, before[n].endpoints)) {
      assert before[n] == items[n];
    }
  }

  /** The namespace is registered first, and the services' events leave it so. */
  lemma EnableFrame(c: Config, r: Registry, ns: string, kind: EventType, items: seq<Item>, k: Key)
    requires WellListed(items)
    requires k.NsKey? || k.ns != ns || !ListedService(items, k.svc)
    ensures Lookup(Replay(c, ns, r, NamespaceEvents(ns, Create, kind, items)), k) ==
      if k == NsKey(ns) then Some(Stored(c, Lookup(r, k), NamespaceObj(ns))) else Lookup(r, k)
  {
    var first := Event(Create, NamespaceObj(ns));
    ReplayAppend(c, ns, r, [first], ItemsEvents(ns, Create, kind, items));
    ReplayOne(c, ns, r, first);
    ItemsFrame(c, Replay(c, ns, r, [first]), ns, kind, items, k);
  }

  /**
   Enabling a namespace, from any registry: every listed service is registered and each listed
   endpoint undergoes an event of `kind`. The source sends deletes here.
   */
  lemma EnableReplay(c: Config, r: Registry, ns: string, kind: EventType, items: seq<Item>, i: nat)
    requires WellListed(items) && NamesConsistent(kind, items) && i < |items|
    ensures ItemApplied(c, r, Replay(c, ns, r, NamespaceEvents(ns, Create, kind, items)), ns, kind, items[i])
  {
    var first := Event(Create, NamespaceObj(ns));
    var r1 := Replay(c, ns, r, [first]);
    ReplayAppend(c, ns, r, [first], ItemsEvents(ns, Create, kind, items));
    ReplayOne(c, ns, r, first);
    ItemsEffect(c, r1, ns, kind, items, i);
    AppliedFromSame(c, r, r1, Replay(c, ns, r1, ItemsEvents(ns, Create, kind, items)), ns, kind, items[i]);
  }

  /** Every listed endpoint is registered with its own address, port and metadata. */
  ghost predicate EndpointsRegistered(c: Config, r: Registry, r': Registry, ns: string, items: seq<Item>) {
    forall i, j :: 0 <= i < |items| && 0 <= j < |items[i].endpoints| ==>
      var k := EpKey(ns, items[i].service, items[i].endpoints[j].name);
      Describes(c, Lookup(r, k), Lookup(r', k), items[i].endpoints[j])
  }

  // ----- as written -----

  /**
   What enabling as written leaves of each object: the namespace and the listed services are
   registered, and the listed endpoints deleted.
   */
  ghost function AfterEnable(c: Config, r: Registry, ns: string, items: seq<Item>, k: Key): Option<Entry> {
    match k
    case NsKey(n) => if n == ns then Some(Stored(c, Lookup(r, k), NamespaceObj(ns))) else Lookup(r, k)
    case SvcKey(n, svc) =>
      if n == ns && ListedService(items, svc) then Some(Stored(c, Lookup(r, k), ServiceObj(ns, svc))) else Lookup(r, k)
    case EpKey(n, svc, ep) =>
      if n == ns && OwnedEntry(Lookup(r, k)) && Listed(items, svc, ep) then None else Lookup(r, k)
  }

  /** What the events for one service make of `current`, stored under `k`. */
  ghost function AfterItem(c: Config, current: Option<Entry>, ns: string, item: Item, k: Key): Option<Entry> {
    if k == SvcKey(ns, item.service) then Some(Stored(c, current, ServiceObj(ns, item.service)))
    else if OwnedEntry(current) && exists j :: 0 <= j < |item.endpoints| && k == EpKey(ns, item.service, item.endpoints[j].name)
    then None else current
  }

  lemma AfterNextItem(c: Config, r: Registry, ns: string, before: seq<Item>, item: Item, k: Key)
    requires !k.NsKey? && !ListedService(before, item.service)
    ensures AfterItem(c, AfterEnable(c, r, ns, before, k), ns, item, k) == AfterEnable(c, r, ns, before + [item], k)
  {
    ListedNext(before, item);
    if k.EpKey? && k.svc == item.service {
      assert !Listed(before, k.svc, k.ep);
    }
  }

  lemma ItemAsWritten(c: Config, r: Registry, ns: string, item: Item, k: Key)
    requires NsKey(ns) in r
    requires forall j :: 0 <= j < |item.endpoints| ==> item.endpoints[j].service == item.service
    ensures Lookup(Replay(c, ns, r, ItemEvents(ns, Create, Delete, item)), k) == AfterItem(c, Lookup(r, k), ns, item, k)
  {
    var first := Event(Create, ServiceObj(ns, item.service));
    ReplayAppend(c, ns, r, [first], Each(Delete, item.endpoints));
    ReplayOne(c, ns, r, first);
    DeleteBatch(c, ns, item.service, Replay(c, ns, r, [first]), item.endpoints, k);
  }

  lemma {:induction false} ItemsAsWritten(c: Config, r: Registry, ns: string, items: seq<Item>, k: Key)
    requires NsKey(ns) in r && WellListed(items) && !k.NsKey?
    ensures Lookup(Replay(c, ns, r, ItemsEvents(ns, Create, Delete, items)), k) == AfterEnable(c, r, ns, items, k)
  {
    if items == [] {
      assert !(k.SvcKey? && ListedService(items, k.svc)) && !(k.EpKey? && Listed(items, k.svc, k.ep));
    } else {
      var before, item := items[..|items| - 1], items[|items| - 1];
      assert items == before + [item];
      ItemsAsWritten(c, r, ns, before, k);
      ReplayAppend(c, ns, r, ItemsEvents(ns, Create, Delete, before), ItemEvents(ns, Create, Delete, item));
      var r1 := Replay(c, ns, r, ItemsEvents(ns, Create, Delete, before));
      ItemsFrame(c, r, ns, Delete, before, NsKey(ns));
      assert NsKey(ns) in r1;
      ItemAsWritten(c, r1, ns, item, k);
      assert !ListedService(before, item.service);
      AfterNextItem(c, r, ns, before, item, k);
    }
  }

  /**
   Enabling as written, object by object and from any registry. Only the listed names count, so
   endpoints of one name may differ.
   */
  lemma EnableReplayAsWritten(c: Config, r: Registry, ns: string, items: seq<Item>, k: Key)
    requires WellListed(items)
    ensures Lookup(Replay(c, ns, r, NamespaceEvents(ns, Create, Delete, items)), k) == AfterEnable(c, r, ns, items, k)
  {
    if k.NsKey? {
      EnableFrame(c, r, ns, Delete, items, k);
    } else {
      var first := Event(Create, NamespaceObj(ns));
      ReplayAppend(c, ns, r, [first], ItemsEvents(ns, Create, Delete, items));
      ReplayOne(c, ns, r, first);
      ItemsAsWritten(c, Replay(c, ns, r, [first]), ns, items, k);
      AfterEnableSame(c, r, Replay(c, ns, r, [first]), ns, items, k);
    }
  }

  lemma AfterEnableSame(c: Config, a: Registry, b: Registry, ns: string, items: seq<Item>, k: Key)
    requires Lookup(a, k) == Lookup(b, k)
    ensures AfterEnable(c, a, ns, items, k) == AfterEnable(c, b, ns, items, k)
  {
  }

  /**
   As written, enabling leaves none of the listed endpoints the operator's: it removes those the
   operator owned and registers none. It registers all listed endpoints if and only if there are
   none.
   */
  lemma EnableAsWritten(c: Config, r: Registry, ns: string, items: seq<Item>)
    requires IsOwnedByOperator(c.persistent) && WellListed(items)
    ensures var r' := Replay(c, ns, r, NamespaceEvents(ns, Create, Delete, items));
      && (forall svc, ep :: Listed(items, svc, ep) ==> !OwnedEntry(Lookup(r', EpKey(ns, svc, ep))))
      && (EndpointsRegistered(c, r, r', ns, items) <==> NoEndpoints(items))
  {
    var r' := Replay(c, ns, r, NamespaceEvents(ns, Create, Delete, items));
    forall svc, ep | Listed(items, svc, ep) ensures !OwnedEntry(Lookup(r', EpKey(ns, svc, ep))) {
      EnableReplayAsWritten(c, r, ns, items, EpKey(ns, svc, ep));
    }
    if i :| 0 <= i < |items| && items[i].endpoints != [] {
      var k := EpKey(ns, items[i].service, items[i].endpoints[0].name);
      assert Listed(items, k.svc, k.ep);
      NotRegistered(c, r, r', k, items[i].endpoints[0]);
    }
  }

  ghost predicate NoEndpoints(items: seq<Item>) {
    forall i {:trigger items[i]} :: 0 <= i < |items| ==> items[i].endpoints == []
  }

  /** Repaired, with the handler's own event type for endpoints, everything listed is registered. */
  lemma RepairedEnableConverges(c: Config, r: Registry, ns: string, items: seq<Item>)
    requires WellListed(items) && NamesConsistent(Create, items)
    ensures var r' := Replay(c, ns, r, NamespaceEvents(ns, Create, Create, items));
      && NsKey(ns) in r' && (forall svc :: ListedService(items, svc) ==> SvcKey(ns, svc) in r')
      && EndpointsRegistered(c, r, r', ns, items)
  {
    EnableFrame(c, r, ns, Create, items, NsKey(ns));
    var r' := Replay(c, ns, r, NamespaceEvents(ns, Create, Create, items));
    forall svc | ListedService(items, svc) ensures SvcKey(ns, svc) in r' {
      var i :| 0 <= i < |items| && items[i].service == svc;
      EnableReplay(c, r, ns, Create, items, i);
    }
    forall i, j | 0 <= i < |items| && 0 <= j < |items[i].endpoints|
      ensures var k := EpKey(ns, items[i].service, items[i].endpoints[j].name);
        Describes(c, Lookup(r, k), Lookup(r', k), items[i].endpoints[j])
    {
      EnableReplay(c, r, ns, Create, items, i);
      var k := EpKey(ns, items[i].service, items[i].endpoints[j].name);
      DescribesStored(c, Lookup(r, k), Lookup(r', k), items[i].endpoints[j]);
    }
  }

  /** Without digest collisions the listed endpoints are consistently named. */
  lemma {:induction false} ItemsConsistent(opts: Options, services: seq<Service>, dns: nat -> Resolver,
        n: nat, kind: EventType, items: seq<Item>)
    requires n <= |services| && ItemsOf(opts, services, dns, n, items)
    requires forall i: nat :: i < n && Passes(services[i], opts, dns(i)) ==> CollisionFree(services[i], opts, dns(i))
    ensures NamesConsistent(kind, items)
  {
    if n > 0 {
      if !Passes(services[n - 1], opts, dns(n - 1)) {
        ItemsConsistent(opts, services, dns, n - 1, kind, items);
      } else {
        var last := |items| - 1;
        ItemsConsistent(opts, services, dns, n - 1, kind, items[..last]);
        EachSameEvents(services[n - 1], opts, dns(n - 1), kind, items[last].endpoints, items[last].endpoints);
        forall i | 0 <= i < |items| ensures OnePerName(Each(kind, items[i].endpoints)) {
          if i < last {
            assert items[..last][i] == items[i];
          }
        }
      }
    }
  }

  /** The same for the services Kubernetes reports: repaired, all their endpoints are registered. */
  lemma RepairedEnableHandler(c: Config, r: Registry, opts: Options, ns: string,
        services: seq<Service>, dns: nat -> Resolver, items: seq<Item>)
    requires DistinctNames(services) && ItemsOf(opts, services, dns, |services|, items)
    requires forall i: nat :: i < |services| && Passes(services[i], opts, dns(i)) ==> CollisionFree(services[i], opts, dns(i))
    ensures var r' := Replay(c, ns, r, NamespaceEvents(ns, Create, Create, items));
      && NsKey(ns) in r' && (forall svc :: Reported(opts, services, dns, |services|, svc) ==> SvcKey(ns, svc) in r')
      && AllRegistered(c, r, r', ns, opts, services, dns)
  {
    ItemsListServices(opts, services, dns, |services|, items);
    ItemsConsistent(opts, services, dns, |services|, Create, items);
    RepairedEnableConverges(c, r, ns, items);
    var r' := Replay(c, ns, r, NamespaceEvents(ns, Create, Create, items));
    forall i: nat, e | i < |services| && IsEndpointOf(services[i], opts, dns(i), e)
      ensures var k := EpKey(ns, services[i].name, e.name); Describes(c, Lookup(r, k), Lookup(r', k), e)
    {
      var l, j := ItemOfEndpoint(opts, services, dns, |services|, items, i, e);
    }
  }

  /** Where an endpoint of a reported service is listed. */
  lemma {:induction false} ItemOfEndpoint(opts: Options, services: seq<Service>, dns: nat -> Resolver,
        n: nat, items: seq<Item>, i: nat, e: Endpoint) returns (l: nat, j: nat)
    requires i < n <= |services| && ItemsOf(opts, services, dns, n, items) && IsEndpointOf(services[i], opts, dns(i), e)
    ensures l < |items| && items[l].service == services[i].name && j < |items[l].endpoints| && items[l].endpoints[j] == e
  {
    if i < n - 1 {
      if Passes(services[n - 1], opts, dns(n - 1)) {
        l, j := ItemOfEndpoint(opts, services, dns, n - 1, items[..|items| - 1], i, e);
        assert items[..|items| - 1][l] == items[l];
      } else {
        l, j := ItemOfEndpoint(opts, services, dns, n - 1, items, i, e);
      }
    } else {
      l := |items| - 1;
      DerivesExactly(services[i], opts, dns(i), items[l].endpoints, e);
      j :| 0 <= j < |items[l].endpoints| && items[l].endpoints[j] == e;
    }
  }

  /** Every endpoint of every reported service is registered with its own address, port and metadata. */
  ghost predicate AllRegistered(c: Config, r: Registry, r': Registry, ns: string, opts: Options,
        services: seq<Service>, dns: nat -> Resolver) {
    forall i: nat, e :: i < |services| && IsEndpointOf(services[i], opts, dns(i), e) ==>
      var k := EpKey(ns, services[i].name, e.name); Describes(c, Lookup(r, k), Lookup(r', k), e)
  }

  /**
   The namespace handler on gaining the watch label, as written: the namespace and every passing
   service are registered, and no endpoint of these services is the operator's afterwards. So all
   endpoints are registered if and only if no passing service has a port.
   */
  lemma EnableHandlerOutcome(c: Config, r: Registry, opts: Options, ns: string,
        services: seq<Service>, dns: nat -> Resolver, evs: seq<Event>)
    requires IsOwnedByOperator(c.persistent) && DistinctNames(services)
    requires NamespaceSends(opts, ns, Create, Some(services), dns, evs)
    ensures var r' := Replay(c, ns, r, evs);
      && NsKey(ns) in r'
      && (forall i: nat :: i < |services| && Passes(services[i], opts, dns(i)) ==> SvcKey(ns, services[i].name) in r')
      && (forall i: nat, ep :: i < |services| && ep in EndpointNames(services[i], opts, dns(i)) ==>
            !OwnedEntry(Lookup(r', EpKey(ns, services[i].name, ep))))
      && (AllRegistered(c, r, r', ns, opts, services, dns) <==>
          forall i: nat :: i < |services| && Passes(services[i], opts, dns(i)) ==> services[i].ports == [])
  {
    var items := EnabledItems(c, r, opts, ns, services, dns, evs);
    var r' := Replay(c, ns, r, evs);
    assert Lookup(r', NsKey(ns)).Some?;
    forall i: nat | i < |services| && Passes(services[i], opts, dns(i)) ensures SvcKey(ns, services[i].name) in r' {
      assert Reported(opts, services, dns, |services|, services[i].name);
      assert Lookup(r', SvcKey(ns, services[i].name)).Some?;
    }
    forall i: nat, ep | i < |services| && ep in EndpointNames(services[i], opts, dns(i))
      ensures !OwnedEntry(Lookup(r', EpKey(ns, services[i].name, ep)))
    {
      assert ReportedEndpoint(opts, services, dns, |services|, services[i].name, ep);
    }
    RegisteredIffNoPorts(c, r, r', ns, opts, services, dns);
  }

  lemma RegisteredIffNoPorts(c: Config, r: Registry, r': Registry, ns: string, opts: Options,
        services: seq<Service>, dns: nat -> Resolver)
    requires IsOwnedByOperator(c.persistent)
    requires forall i: nat, ep :: i < |services| && ep in EndpointNames(services[i], opts, dns(i)) ==>
      !OwnedEntry(Lookup(r', EpKey(ns, services[i].name, ep)))
    ensures AllRegistered(c, r, r', ns, opts, services, dns) <==>
      forall i: nat :: i < |services| && Passes(services[i], opts, dns(i)) ==> services[i].ports == []
  {
    if i: nat :| i < |services| && Passes(services[i], opts, dns(i)) && services[i].ports != [] {
      var e := SomeEndpoint(services[i], opts, dns(i));
      NotRegistered(c, r, r', EpKey(ns, services[i].name, e.name), e);
    } else {
      forall i: nat, e | i < |services| ensures !IsEndpointOf(services[i], opts, dns(i), e) {
        assert Passes(services[i], opts, dns(i)) ==> services[i].ports == [];
      }
    }
  }

  lemma NotRegistered(c: Config, r: Registry, r': Registry, k: Key, e: Endpoint)
    requires IsOwnedByOperator(c.persistent) && !OwnedEntry(Lookup(r', k))
    ensures !Describes(c, Lookup(r, k), Lookup(r', k), e)
  {
    if Describes(c, Lookup(r, k), Lookup(r', k), e) {
      DescribedIsOwned(c, Lookup(r, k), Lookup(r', k), e);
    }
  }

  /** The handler's output, and what it makes of each object. */
  lemma EnabledItems(c: Config, r: Registry, opts: Options, ns: string,
        services: seq<Service>, dns: nat -> Resolver, evs: seq<Event>) returns (items: seq<Item>)
    requires DistinctNames(services) && NamespaceSends(opts, ns, Create, Some(services), dns, evs)
    ensures forall k :: Lookup(Replay(c, ns, r, evs), k) == AfterEnable(c, r, ns, items, k)
    ensures forall svc :: ListedService(items, svc) <==> Reported(opts, services, dns, |services|, svc)
    ensures forall svc, ep :: Listed(items, svc, ep) <==> ReportedEndpoint(opts, services, dns, |services|, svc, ep)
  {
    items :| ItemsOf(opts, services, dns, |services|, items) && evs == NamespaceEvents(ns, Create, Delete, items);
    ItemsListServices(opts, services, dns, |services|, items);
    forall k ensures Lookup(Replay(c, ns, r, evs), k) == AfterEnable(c, r, ns, items, k) {
      EnableReplayAsWritten(c, r, ns, items, k);
    }
  }

  /** A passing service with a port has an endpoint. */
  lemma SomeEndpoint(s: Service, opts: Options, dns: Resolver) returns (e: Endpoint)
    requires Passes(s, opts, dns) && s.ports != []
    ensures IsEndpointOf(s, opts, dns, e) && e.name in EndpointNames(s, opts, dns)
  {
    var ip :| ip in IPsOf(s, dns).value;
    e := MakeEndpoint(s, Filtered(s.annotations, opts.annotations), opts.digest, ip, s.ports[0]);
  }

  /** Any two outputs of the handler enable the namespace alike. */
  lemma EnableOrderFree(c: Config, r: Registry, opts: Options, ns: string,
        services: seq<Service>, dns: nat -> Resolver, evs1: seq<Event>, evs2: seq<Event>)
    requires DistinctNames(services)
    requires NamespaceSends(opts, ns, Create, Some(services), dns, evs1)
    requires NamespaceSends(opts, ns, Create, Some(services), dns, evs2)
    ensures Replay(c, ns, r, evs1) == Replay(c, ns, r, evs2)
  {
    var a := EnabledItems(c, r, opts, ns, services, dns, evs1);
    var b := EnabledItems(c, r, opts, ns, services, dns, evs2);
    SameLookups(Replay(c, ns, r, evs1), Replay(c, ns, r, evs2));
  }
}
