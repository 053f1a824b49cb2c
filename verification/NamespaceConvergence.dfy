/** What tearing down or enabling a namespace does to the registry when every call succeeds. */
module NamespaceConvergence {
  import opened Types
  import opened Registry
  import opened Services
  import opened Batches
  import opened ServiceHandlers
  import opened NamespaceHandlers
  import opened ServiceRuns

  /** The names of the endpoints listed for `svc`. */
  ghost predicate Listed(items: seq<Item>, svc: string, ep: string) {
    exists i, j :: 0 <= i < |items| && items[i].service == svc && 0 <= j < |items[i].endpoints| && items[i].endpoints[j].name == ep
  }

  ghost predicate ListedService(items: seq<Item>, svc: string) {
    exists i :: 0 <= i < |items| && items[i].service == svc
  }

  /** Endpoints belong to the service they are listed for, and no service is listed twice. */
  ghost predicate WellListed(items: seq<Item>) {
    && (forall i, j :: 0 <= i < |items| && 0 <= j < |items[i].endpoints| ==> items[i].endpoints[j].service == items[i].service)
    && (forall i, j :: 0 <= i < j < |items| ==> items[i].service != items[j].service)
  }

  // ----- teardown -----

  /** An endpoint goes if it is listed and the operator's. */
  ghost predicate EndpointGoes(r: Registry, ns: string, items: seq<Item>, k: Key) {
    k.EpKey? && k.ns == ns && OwnedEntry(Lookup(r, k)) && Listed(items, k.svc, k.ep)
  }

  /** A service goes if it is listed, the operator's, and none of its endpoints stays. */
  ghost predicate ServiceGoes(r: Registry, ns: string, items: seq<Item>, k: Key) {
    && k.SvcKey? && k.ns == ns && OwnedEntry(Lookup(r, k)) && ListedService(items, k.svc)
    && forall x :: x in r && ParentOf(x) == Some(k) ==> EndpointGoes(r, ns, items, x)
  }

  /** The namespace goes if it is the operator's and none of its services stays. */
  ghost predicate NamespaceGoes(r: Registry, ns: string, items: seq<Item>, k: Key) {
    && k == NsKey(ns) && OwnedEntry(Lookup(r, k))
    && forall x :: x in r && ParentOf(x) == Some(k) ==> ServiceGoes(r, ns, items, x)
  }

  /** The registry without the listed services' objects that can go. */
  ghost function WithoutItems(r: Registry, ns: string, items: seq<Item>): Registry {
    map k | k in r && !EndpointGoes(r, ns, items, k) && !ServiceGoes(r, ns, items, k) :: r[k]
  }

  ghost function TornDown(r: Registry, ns: string, items: seq<Item>): Registry {
    map k | k in r && !EndpointGoes(r, ns, items, k) && !ServiceGoes(r, ns, items, k) && !NamespaceGoes(r, ns, items, k) :: r[k]
  }

  /** Tearing down one more service. */
  lemma OneItemGoes(c: Config, r: Registry, ns: string, before: seq<Item>, item: Item)
    requires WellListed(before + [item])
    ensures Replay(c, ns, WithoutItems(r, ns, before), ItemEvents(ns, Delete, Delete, item)) == WithoutItems(r, ns, before + [item])
  {
    var items := before + [item];
    var r0 := WithoutItems(r, ns, before);
    var last := Event(Delete, ServiceObj(ns, item.service));
    var svcKey := SvcKey(ns, item.service);
    ReplayAppend(c, ns, r0, Each(Delete, item.endpoints), [last]);
    var r1 := Replay(c, ns, r0, Each(Delete, item.endpoints));
    ReplayOne(c, ns, r1, last);
    var r2 := Perform(c, ns, r1, last, true);
    forall k ensures Lookup(r1, k) == if EndpointGoes(r, ns, items, k) then None else Lookup(r0, k) {
      EndpointsOfItemGo(c, r, ns, before, item, k);
    }
    ServiceOfItemGoes(r, ns, before, item, r1);
    forall k ensures Lookup(r2, k) == Lookup(WithoutItems(r, ns, items), k) {
      GoesMonotone(r, ns, before, item, k);
      if k != svcKey {
        OtherServices(r, ns, before, item, k);
        PerformFrame(c, ns, r1, last, true, k);
        assert Lookup(r1, k) == if EndpointGoes(r, ns, items, k) then None else Lookup(r0, k);
      } else {
        assert Lookup(r2, k) == if Deletable(r1, k) then None else Lookup(r1, k);
      }
    }
    SameLookups(r2, WithoutItems(r, ns, items));
  }

  /** The worker's guard on the service is the specification's condition. */
  lemma ServiceOfItemGoes(r: Registry, ns: string, before: seq<Item>, item: Item, r1: Registry)
    requires WellListed(before + [item])
    requires forall k :: Lookup(r1, k) == if EndpointGoes(r, ns, before + [item], k) then None else Lookup(WithoutItems(r, ns, before), k)
    ensures Lookup(r1, SvcKey(ns, item.service)) == Lookup(r, SvcKey(ns, item.service))
    ensures Deletable(r1, SvcKey(ns, item.service)) <==> ServiceGoes(r, ns, before + [item], SvcKey(ns, item.service))
  {
    var items := before + [item];
    assert items[|before|] == item;
    assert !ListedService(before, item.service) by {
      forall i | 0 <= i < |before| ensures before[i].service != item.service {
        assert items[i] == before[i];
      }
    }
    ChildrenOfItem(r, ns, before, item, r1);
    assert ListedService(items, item.service);
  }

  lemma GoesMonotone(r: Registry, ns: string, before: seq<Item>, item: Item, k: Key)
    ensures EndpointGoes(r, ns, before, k) ==> EndpointGoes(r, ns, before + [item], k)
  {
    var items := before + [item];
    if EndpointGoes(r, ns, before, k) {
      var i, j :| 0 <= i < |before| && before[i].service == k.svc && 0 <= j < |before[i].endpoints| && before[i].endpoints[j].name == k.ep;
      assert items[i] == before[i];
    }
  }

  lemma EndpointsOfItemGo(c: Config, r: Registry, ns: string, before: seq<Item>, item: Item, k: Key)
    requires WellListed(before + [item])
    ensures Lookup(Replay(c, ns, WithoutItems(r, ns, before), Each(Delete, item.endpoints)), k) ==
            if EndpointGoes(r, ns, before + [item], k) then None else Lookup(WithoutItems(r, ns, before), k)
  {
    var items := before + [item];
    var r0 := WithoutItems(r, ns, before);
    assert items[|before|] == item;
    DeleteBatch(c, ns, item.service, r0, item.endpoints, k);
    GoesMonotone(r, ns, before, item, k);
    if EndpointGoes(r, ns, items, k) && !EndpointGoes(r, ns, before, k) {
      var i, j :| 0 <= i < |items| && items[i].service == k.svc && 0 <= j < |items[i].endpoints| && items[i].endpoints[j].name == k.ep;
      assert k == EpKey(ns, item.service, item.endpoints[j].name);
    }
    if j :| 0 <= j < |item.endpoints| && k == EpKey(ns, item.service, item.endpoints[j].name) {
      assert items[|before|].endpoints[j].name == k.ep;
      assert Listed(items, k.svc, k.ep);
    }
  }

  lemma ChildrenOfItem(r: Registry, ns: string, before: seq<Item>, item: Item, r1: Registry)
    requires forall k :: Lookup(r1, k) == if EndpointGoes(r, ns, before + [item], k) then None else Lookup(WithoutItems(r, ns, before), k)
    ensures HasChildren(r1, SvcKey(ns, item.service)) <==>
            exists x :: x in r && ParentOf(x) == Some(SvcKey(ns, item.service)) && !EndpointGoes(r, ns, before + [item], x)
  {
    var svcKey := SvcKey(ns, item.service);
    if HasChildren(r1, svcKey) {
      var x :| x in r1 && ParentOf(x) == Some(svcKey);
      assert Lookup(r1, x).Some?;
    }
    if x :| x in r && ParentOf(x) == Some(svcKey) && !EndpointGoes(r, ns, before + [item], x) {
      GoesMonotone(r, ns, before, item, x);
      assert Lookup(r1, x).Some?;
    }
  }

  /** One more listed service decides nothing about the others. */
  lemma OtherServices(r: Registry, ns: string, before: seq<Item>, item: Item, k: Key)
    requires k != SvcKey(ns, item.service)
    ensures ServiceGoes(r, ns, before + [item], k) <==> ServiceGoes(r, ns, before, k)
  {
    var items := before + [item];
    assert items[|before|] == item && items[..|before|] == before;
    if k.SvcKey? && k.ns == ns {
      assert ListedService(items, k.svc) <==> ListedService(before, k.svc) by {
        if i :| 0 <= i < |items| && items[i].service == k.svc {
          assert before[i] == items[i];
        }
        if i :| 0 <= i < |before| && before[i].service == k.svc {
          assert before[i] == items[i];
        }
      }
      forall x | x in r && ParentOf(x) == Some(k)
        ensures EndpointGoes(r, ns, items, x) <==> EndpointGoes(r, ns, before, x)
      {
        GoesMonotone(r, ns, before, item, x);
        if EndpointGoes(r, ns, items, x) {
          var i, j :| 0 <= i < |items| && items[i].service == x.svc && 0 <= j < |items[i].endpoints| && items[i].endpoints[j].name == x.ep;
          assert before[i] == items[i];
        }
      }
    }
  }

  lemma {:induction false} ItemsGo(c: Config, r: Registry, ns: string, items: seq<Item>)
    requires WellListed(items)
    ensures Replay(c, ns, r, ItemsEvents(ns, Delete, Delete, items)) == WithoutItems(r, ns, items)
  {
    if items == [] {
      assert WithoutItems(r, ns, items) == r;
    } else {
      var before, item := items[..|items| - 1], items[|items| - 1];
      assert items == before + [item];
      ItemsGo(c, r, ns, before);
      ReplayAppend(c, ns, r, ItemsEvents(ns, Delete, Delete, before), ItemEvents(ns, Delete, Delete, item));
      OneItemGoes(c, r, ns, before, item);
    }
  }

  /**
   Leaf-first teardown. From any registry, the events for a namespace that is deleted or no longer
   watched remove exactly the listed endpoints the operator owns, the listed services it owns that
   are left without endpoints, and the namespace if it owns it and no service is left. All else,
   the ancestors of what stays included, is untouched.
   */
  lemma TeardownExact(c: Config, r: Registry, ns: string, items: seq<Item>)
    requires WellListed(items)
    ensures Replay(c, ns, r, NamespaceEvents(ns, Delete, Delete, items)) == TornDown(r, ns, items)
  {
    var inner, last := ItemsEvents(ns, Delete, Delete, items), Event(Delete, NamespaceObj(ns));
    ItemsGo(c, r, ns, items);
    ReplayAppend(c, ns, r, inner, [last]);
    var r1 := WithoutItems(r, ns, items);
    ReplayOne(c, ns, r1, last);
    TornDownLast(r, ns, items);
  }

  lemma TornDownLast(r: Registry, ns: string, items: seq<Item>)
    ensures var r1 := WithoutItems(r, ns, items);
      TornDown(r, ns, items) == if Deletable(r1, NsKey(ns)) then r1 - {NsKey(ns)} else r1
  {
    NamespaceOfItemsGoes(r, ns, items);
  }

  /** The worker's guard on the namespace is the specification's condition. */
  lemma NamespaceOfItemsGoes(r: Registry, ns: string, items: seq<Item>)
    ensures Deletable(WithoutItems(r, ns, items), NsKey(ns)) <==> NamespaceGoes(r, ns, items, NsKey(ns))
  {
    var r1, k := WithoutItems(r, ns, items), NsKey(ns);
    assert Lookup(r1, k) == Lookup(r, k);
    if x :| x in r && ParentOf(x) == Some(k) && !ServiceGoes(r, ns, items, x) {
      assert x in r1;
    }
    if HasChildren(r1, k) {
      var x :| x in r1 && ParentOf(x) == Some(k);
      assert x in r && !ServiceGoes(r, ns, items, x);
    }
  }

  /** If the operator owns the whole namespace and everything is listed, nothing of it is left. */
  lemma FullTeardown(c: Config, r: Registry, ns: string, items: seq<Item>)
    requires WellListed(items)
    requires forall k :: k in r && k.ns == ns ==> IsOwnedByOperator(r[k].meta)
    requires forall k :: k in r && k.ns == ns && k.SvcKey? ==> ListedService(items, k.svc)
    requires forall k :: k in r && k.ns == ns && k.EpKey? ==> Listed(items, k.svc, k.ep)
    ensures var r' := Replay(c, ns, r, NamespaceEvents(ns, Delete, Delete, items));
      Subtree(r', ns) == map[] && forall n :: n != ns ==> Subtree(r', n) == Subtree(r, n)
  {
    TeardownExact(c, r, ns, items);
    forall k | k in r && k.ns == ns && k.EpKey? ensures EndpointGoes(r, ns, items, k) {
    }
    forall k | k in r && k.ns == ns && k.SvcKey? ensures ServiceGoes(r, ns, items, k) {
      forall x | x in r && ParentOf(x) == Some(k) ensures EndpointGoes(r, ns, items, x) {
        assert x.ns == ns;
      }
    }
    SubtreesOfTornDown(r, ns, items);
  }

  lemma SubtreesOfTornDown(r: Registry, ns: string, items: seq<Item>)
    requires forall k :: k in r && k.ns == ns ==> IsOwnedByOperator(r[k].meta)
    requires forall k :: k in r && k.ns == ns && k.EpKey? ==> EndpointGoes(r, ns, items, k)
    requires forall k :: k in r && k.ns == ns && k.SvcKey? ==> ServiceGoes(r, ns, items, k)
    ensures Subtree(TornDown(r, ns, items), ns) == map[]
    ensures forall n :: n != ns ==> Subtree(TornDown(r, ns, items), n) == Subtree(r, n)
  {
    forall k | k in r && k.ns == ns ensures k !in TornDown(r, ns, items) {
      if k.NsKey? {
        forall x | x in r && ParentOf(x) == Some(k) ensures ServiceGoes(r, ns, items, x) {
          assert x.ns == ns && x.SvcKey?;
        }
      }
    }
  }

  // ----- from the services Kubernetes lists -----

  ghost predicate DistinctNames(services: seq<Service>) {
    forall i, j :: 0 <= i < j < |services| ==> services[i].name != services[j].name
  }

  /** Among the first `n` services Kubernetes reports, one called `svc` passes. */
  ghost predicate Reported(opts: Options, services: seq<Service>, dns: nat -> Resolver, n: nat, svc: string)
    requires n <= |services|
  {
    exists i: nat :: i < n && services[i].name == svc && Passes(services[i], opts, dns(i))
  }

  /** Among the first `n` services Kubernetes reports, one called `svc` has an endpoint called `ep`. */
  ghost predicate ReportedEndpoint(opts: Options, services: seq<Service>, dns: nat -> Resolver, n: nat, svc: string, ep: string)
    requires n <= |services|
  {
    exists i: nat :: i < n && services[i].name == svc && ep in EndpointNames(services[i], opts, dns(i))
  }

  lemma ReportedNext(opts: Options, services: seq<Service>, dns: nat -> Resolver, n: nat, svc: string)
    requires n < |services|
    ensures Reported(opts, services, dns, n + 1, svc) <==>
      Reported(opts, services, dns, n, svc) || (services[n].name == svc && Passes(services[n], opts, dns(n)))
  {
    if i: nat :| i < n + 1 && services[i].name == svc && Passes(services[i], opts, dns(i)) {
      assert i < n ==> Reported(opts, services, dns, n, svc);
    }
  }

  lemma ReportedEndpointNext(opts: Options, services: seq<Service>, dns: nat -> Resolver, n: nat, svc: string, ep: string)
    requires n < |services|
    ensures ReportedEndpoint(opts, services, dns, n + 1, svc, ep) <==>
      ReportedEndpoint(opts, services, dns, n, svc, ep) || (services[n].name == svc && ep in EndpointNames(services[n], opts, dns(n)))
  {
    if i: nat :| i < n + 1 && services[i].name == svc && ep in EndpointNames(services[i], opts, dns(i)) {
      assert i < n ==> ReportedEndpoint(opts, services, dns, n, svc, ep);
    }
  }

  /** Both, for all names. */
  lemma AllReportedNext(opts: Options, services: seq<Service>, dns: nat -> Resolver, n: nat)
    requires n < |services|
    ensures forall svc :: Reported(opts, services, dns, n + 1, svc) <==>
      Reported(opts, services, dns, n, svc) || (services[n].name == svc && Passes(services[n], opts, dns(n)))
    ensures forall svc, ep :: ReportedEndpoint(opts, services, dns, n + 1, svc, ep) <==>
      ReportedEndpoint(opts, services, dns, n, svc, ep) || (services[n].name == svc && ep in EndpointNames(services[n], opts, dns(n)))
  {
    forall svc
      ensures Reported(opts, services, dns, n + 1, svc) <==>
        Reported(opts, services, dns, n, svc) || (services[n].name == svc && Passes(services[n], opts, dns(n)))
    {
      ReportedNext(opts, services, dns, n, svc);
    }
    forall svc, ep
      ensures ReportedEndpoint(opts, services, dns, n + 1, svc, ep) <==>
        ReportedEndpoint(opts, services, dns, n, svc, ep) || (services[n].name == svc && ep in EndpointNames(services[n], opts, dns(n)))
    {
      ReportedEndpointNext(opts, services, dns, n, svc, ep);
    }
  }

  /** What is listed is what Kubernetes reports: the passing services and their endpoints' names. */
  lemma {:induction false} ItemsListServices(opts: Options, services: seq<Service>, dns: nat -> Resolver,
        n: nat, items: seq<Item>)
    requires n <= |services| && DistinctNames(services) && ItemsOf(opts, services, dns, n, items)
    ensures WellListed(items)
    ensures forall svc :: ListedService(items, svc) <==> Reported(opts, services, dns, n, svc)
    ensures forall svc, ep :: Listed(items, svc, ep) <==> ReportedEndpoint(opts, services, dns, n, svc, ep)
  {
    if n > 0 {
      AllReportedNext(opts, services, dns, n - 1);
      if !Passes(services[n - 1], opts, dns(n - 1)) {
        ItemsListServices(opts, services, dns, n - 1, items);
      } else {
        var before, item := items[..|items| - 1], items[|items| - 1];
        assert items == before + [item];
        ItemsListServices(opts, services, dns, n - 1, before);
        ItemListsService(opts, services[n - 1], dns(n - 1), item);
        ListedNext(before, item);
        assert !Reported(opts, services, dns, n - 1, item.service);
        assert WellListed(items) by {
          WellListedNext(before, item);
        }
      }
    }
  }

  lemma ItemListsService(opts: Options, s: Service, dns: Resolver, item: Item)
    requires item.service == s.name && Derives(s, opts, dns, item.endpoints)
    ensures forall j :: 0 <= j < |item.endpoints| ==> item.endpoints[j].service == s.name
    ensures forall ep :: ep in EndpointNames(s, opts, dns) <==> exists j :: 0 <= j < |item.endpoints| && item.endpoints[j].name == ep
  {
    DerivedMap(s, opts, dns, item.endpoints);
    var m := ByName(item.endpoints);
    forall j | 0 <= j < |item.endpoints| ensures item.endpoints[j].service == s.name && item.endpoints[j].name in m {
      DerivesExactly(s, opts, dns, item.endpoints, item.endpoints[j]);
      assert item.endpoints[j] in item.endpoints;
    }
    forall ep | ep in m ensures exists j :: 0 <= j < |item.endpoints| && item.endpoints[j].name == ep {
      ByNameIn(item.endpoints, ep);
      var j :| 0 <= j < |item.endpoints| && item.endpoints[j] == m[ep];
    }
  }

  lemma ListedNext(before: seq<Item>, item: Item)
    ensures forall svc :: ListedService(before + [item], svc) <==> ListedService(before, svc) || svc == item.service
    ensures forall svc, ep :: Listed(before + [item], svc, ep) <==>
      Listed(before, svc, ep) || (svc == item.service && exists j :: 0 <= j < |item.endpoints| && item.endpoints[j].name == ep)
  {
    var items := before + [item];
    assert items[|before|] == item;
    forall svc ensures ListedService(items, svc) <==> ListedService(before, svc) || svc == item.service {
      if i :| 0 <= i < |before| && before[i].service == svc {
        assert items[i] == before[i];
      }
      if i :| 0 <= i < |items| && items[i].service == svc {
        assert i < |before| ==> before[i] == items[i];
      }
    }
    forall svc, ep
      ensures Listed(items, svc, ep) <==>
        Listed(before, svc, ep) || (svc == item.service && exists j :: 0 <= j < |item.endpoints| && item.endpoints[j].name == ep)
    {
      if i, j :| 0 <= i < |before| && before[i].service == svc && 0 <= j < |before[i].endpoints| && before[i].endpoints[j].name == ep {
        assert items[i].endpoints[j].name == ep;
      }
      if svc == item.service {
        if j :| 0 <= j < |item.endpoints| && item.endpoints[j].name == ep {
          assert items[|before|].endpoints[j].name == ep;
        }
      }
      if i, j :| 0 <= i < |items| && items[i].service == svc && 0 <= j < |items[i].endpoints| && items[i].endpoints[j].name == ep {
        assert i < |before| ==> before[i] == items[i];
      }
    }
  }

  lemma WellListedNext(before: seq<Item>, item: Item)
    requires WellListed(before) && !ListedService(before, item.service)
    requires forall j :: 0 <= j < |item.endpoints| ==> item.endpoints[j].service == item.service
    ensures WellListed(before + [item])
  {
  }

  /**
   The namespace handler on delete or on losing the watch label: what it sends, for any order of
   the addresses, tears down exactly what Kubernetes' services account for.
   */
  lemma TeardownHandlerOutcome(c: Config, r: Registry, opts: Options, ns: string,
        services: seq<Service>, dns: nat -> Resolver, evs: seq<Event>) returns (items: seq<Item>)
    requires DistinctNames(services) && NamespaceSends(opts, ns, Delete, Some(services), dns, evs)
    ensures Replay(c, ns, r, evs) == TornDown(r, ns, items)
    ensures forall svc :: ListedService(items, svc) <==> Reported(opts, services, dns, |services|, svc)
    ensures forall svc, ep :: Listed(items, svc, ep) <==> ReportedEndpoint(opts, services, dns, |services|, svc, ep)
  {
    items :| ItemsOf(opts, services, dns, |services|, items) && evs == NamespaceEvents(ns, Delete, Delete, items);
    ItemsListServices(opts, services, dns, |services|, items);
    TeardownExact(c, r, ns, items);
  }

  /** Only what is listed counts, not the order: any two outputs of the handler tear down alike. */
  lemma TeardownOrderFree(c: Config, r: Registry, opts: Options, ns: string,
        services: seq<Service>, dns: nat -> Resolver, evs1: seq<Event>, evs2: seq<Event>)
    requires DistinctNames(services)
    requires NamespaceSends(opts, ns, Delete, Some(services), dns, evs1)
    requires NamespaceSends(opts, ns, Delete, Some(services), dns, evs2)
    ensures Replay(c, ns, r, evs1) == Replay(c, ns, r, evs2)
  {
    var a := TeardownHandlerOutcome(c, r, opts, ns, services, dns, evs1);
    var b := TeardownHandlerOutcome(c, r, opts, ns, services, dns, evs2);
    SameListedSameTeardown(r, ns, a, b);
  }

  lemma SameListedSameTeardown(r: Registry, ns: string, a: seq<Item>, b: seq<Item>)
    requires forall svc :: ListedService(a, svc) <==> ListedService(b, svc)
    requires forall svc, ep :: Listed(a, svc, ep) <==> Listed(b, svc, ep)
    ensures TornDown(r, ns, a) == TornDown(r, ns, b)
  {
    forall k ensures EndpointGoes(r, ns, a, k) <==> EndpointGoes(r, ns, b, k) {
    }
    forall k ensures ServiceGoes(r, ns, a, k) <==> ServiceGoes(r, ns, b, k) {
    }
    forall k ensures NamespaceGoes(r, ns, a, k) <==> NamespaceGoes(r, ns, b, k) {
    }
  }

  /**
   Deleting one service, from any registry: exactly its derived endpoints the operator owns go, and
   the service if the operator owns it and no endpoint is left.
   */
  lemma DeleteHandlerOutcome(c: Config, r: Registry, opts: Options, s: Service,
        labels: Option<Meta>, dns: Resolver, evs: seq<Event>) returns (item: Item)
    requires Watched(opts, labels) && DeleteSends(opts, s, labels, dns, evs)
    ensures item.service == s.name
    ensures forall ep :: ep in EndpointNames(s, opts, dns) <==> Listed([item], s.name, ep)
    ensures Replay(c, s.namespace, r, evs) == WithoutItems(r, s.namespace, [item])
  {
    var eps := [];
    if Passes(s, opts, dns) {
      eps :| Derives(s, opts, dns, eps) && evs == DeleteEvents(s.namespace, s.name, eps);
      ItemListsService(opts, s, dns, Item(s.name, eps));
    }
    item := Item(s.name, eps);
    OneItem(s.namespace, item);
    assert evs == ItemEvents(s.namespace, Delete, Delete, item);
    ItemsGo(c, r, s.namespace, [item]);
  }

  lemma OneItem(ns: string, item: Item)
    ensures ItemsEvents(ns, Delete, Delete, [item]) == ItemEvents(ns, Delete, Delete, item)
    ensures forall ep :: Listed([item], item.service, ep) <==> exists j :: 0 <= j < |item.endpoints| && item.endpoints[j].name == ep
  {
    var items := [item];
    assert items[..0] == [] && items[0] == item;
    forall ep | exists j :: 0 <= j < |item.endpoints| && item.endpoints[j].name == ep ensures Listed(items, item.service, ep) {
      var j :| 0 <= j < |item.endpoints| && item.endpoints[j].name == ep;
      assert items[0].endpoints[j].name == ep;
    }
  }
}
