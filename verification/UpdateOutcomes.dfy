/** What the service handlers make of the registry in each of their cases, all calls succeeding. */
module UpdateOutcomes {
  import opened Types
  import opened Registry
  import opened Services
  import opened ServiceHandlers
  import opened ServiceRuns
  import opened NamespaceHandlers
  import opened NamespaceConvergence

  /** All endpoints of the service that stay are the other ones, or somebody else's. */
  ghost predicate NoneStays(r: Registry, ns: string, svc: string, names: set<string>) {
    forall ep {:trigger EpKey(ns, svc, ep)} :: EpKey(ns, svc, ep) in r ==>
      ep in names && OwnedEntry(Lookup(r, EpKey(ns, svc, ep)))
  }

  /**
   `r'` is `r` without the service's endpoints called as in `names` that the operator owns, and
   without the service if the operator owns it and no endpoint is left. All else is as before.
   */
  ghost predicate Unregistered(r: Registry, r': Registry, ns: string, svc: string, names: set<string>) {
    forall k: Key ::
      Lookup(r', k) ==
      if k.EpKey? && k.ns == ns && k.svc == svc && k.ep in names && OwnedEntry(Lookup(r, k)) then None
      else if k == SvcKey(ns, svc) && OwnedEntry(Lookup(r, k)) && NoneStays(r, ns, svc, names) then None
      else Lookup(r, k)
  }

  lemma OneItemGoesMeans(r: Registry, ns: string, item: Item, names: set<string>)
    requires forall ep :: ep in names <==> Listed([item], item.service, ep)
    ensures Unregistered(r, WithoutItems(r, ns, [item]), ns, item.service, names)
  {
    var svc, r' := item.service, WithoutItems(r, ns, [item]);
    assert [item][0] == item;
    forall k: Key ensures EndpointGoes(r, ns, [item], k) <==>
      k.EpKey? && k.ns == ns && k.svc == svc && k.ep in names && OwnedEntry(Lookup(r, k))
    {
      EndpointOfItemGoesMeans(r, ns, item, names, k);
    }
    forall k: Key ensures ServiceGoes(r, ns, [item], k) <==>
      k == SvcKey(ns, svc) && OwnedEntry(Lookup(r, k)) && NoneStays(r, ns, svc, names)
    {
      ServiceOfItemGoesMeans(r, ns, item, names, k);
    }
  }

  lemma EndpointOfItemGoesMeans(r: Registry, ns: string, item: Item, names: set<string>, k: Key)
    requires forall ep :: ep in names <==> Listed([item], item.service, ep)
    ensures EndpointGoes(r, ns, [item], k) <==>
      k.EpKey? && k.ns == ns && k.svc == item.service && k.ep in names && OwnedEntry(Lookup(r, k))
  {
    if k.EpKey? && Listed([item], k.svc, k.ep) {
      assert k.svc == item.service;
    }
  }

  lemma ServiceOfItemGoesMeans(r: Registry, ns: string, item: Item, names: set<string>, k: Key)
    requires forall ep :: ep in names <==> Listed([item], item.service, ep)
    ensures ServiceGoes(r, ns, [item], k) <==>
      k == SvcKey(ns, item.service) && OwnedEntry(Lookup(r, k)) && NoneStays(r, ns, item.service, names)
  {
    assert [item][0] == item;
    assert ListedService([item], item.service);
    if k == SvcKey(ns, item.service) {
      forall ep {:trigger EpKey(ns, item.service, ep)}
        ensures EndpointGoes(r, ns, [item], EpKey(ns, item.service, ep)) <==>
          ep in names && OwnedEntry(Lookup(r, EpKey(ns, item.service, ep)))
      {
        EndpointOfItemGoesMeans(r, ns, item, names, EpKey(ns, item.service, ep));
      }
      if NoneStays(r, ns, item.service, names) {
        forall x | x in r && ParentOf(x) == Some(k) ensures EndpointGoes(r, ns, [item], x) {
          assert x == EpKey(ns, item.service, x.ep);
        }
      }
    }
  }

  /** A service handler's delete events, for the service's endpoints as now resolved. */
  lemma DeleteOutcome(c: Config, r: Registry, opts: Options, s: Service, labels: Option<Meta>, dns: Resolver, evs: seq<Event>)
    requires DeleteSends(opts, s, labels, dns, evs)
    ensures Watched(opts, labels) ==>
      Unregistered(r, Replay(c, s.namespace, r, evs), s.namespace, s.name, EndpointNames(s, opts, dns))
    ensures !Watched(opts, labels) ==> Replay(c, s.namespace, r, evs) == r
  {
    if Watched(opts, labels) {
      var item := DeleteHandlerOutcome(c, r, opts, s, labels, dns, evs);
      OneItemGoesMeans(r, s.namespace, item, EndpointNames(s, opts, dns));
    }
  }

  /** A service handler's create events. */
  lemma CreateOutcome(c: Config, r: Registry, opts: Options, s: Service, labels: Option<Meta>, dns: Resolver, evs: seq<Event>)
    requires CreateSends(opts, s, labels, dns, evs)
    ensures Watched(opts, labels) && Passes(s, opts, dns) && CollisionFree(s, opts, dns) ==>
      Registered(c, r, Replay(c, s.namespace, r, evs), opts, s, dns)
    ensures !Watched(opts, labels) || !Passes(s, opts, dns) ==> Replay(c, s.namespace, r, evs) == r
  {
    if Watched(opts, labels) && Passes(s, opts, dns) && CollisionFree(s, opts, dns) {
      CreateHandlerOutcome(c, r, opts, s, labels, dns, evs);
    }
  }

  /** `r'` is what the update of a service makes of `r`, case by case. */
  ghost predicate UpdateApplied(c: Config, r: Registry, r': Registry, opts: Options, prev: Service, curr: Service,
        labels: Option<Meta>, oldDns: Resolver, currDns: Resolver) {
    var ns, svc := curr.namespace, curr.name;
    if !Watched(opts, labels) || (curr.deleting && prev.deleting) then r' == r
    else if curr.deleting then Unregistered(r, r', ns, svc, EndpointNames(curr, opts, currDns))
    else
      match (Passes(prev, opts, oldDns), Passes(curr, opts, currDns))
      case (false, false) => r' == r
      case (true, false) => Unregistered(r, r', ns, svc, EndpointNames(prev, opts, oldDns))
      case (false, true) => CollisionFree(curr, opts, currDns) ==> Registered(c, r, r', opts, curr, currDns)
      case (true, true) =>
        HoldsService(r, prev, opts, oldDns) ==>
          && HoldsCommon(r', ns, svc, EndpointNames(prev, opts, oldDns), EndpointNames(curr, opts, currDns))
          && UpToDateService(c, r', r, curr, opts, currDns)
          && (HoldsService(r', curr, opts, currDns) <==> EndpointNames(curr, opts, currDns) <= EndpointNames(prev, opts, oldDns))
  }

  /** Every case of the update handler. */
  lemma UpdateOutcome(c: Config, r: Registry, opts: Options, prev: Service, curr: Service,
        labels: Option<Meta>, oldDns: Resolver, currDns: Resolver, evs: seq<Event>)
    requires IsOwnedByOperator(c.persistent) && prev.name == curr.name && prev.namespace == curr.namespace
    requires UpdateSends(opts, prev, curr, labels, oldDns, currDns, evs)
    ensures UpdateApplied(c, r, Replay(c, curr.namespace, r, evs), opts, prev, curr, labels, oldDns, currDns)
  {
    if curr.deleting {
      if !prev.deleting {
        DeleteOutcome(c, r, opts, curr, labels, currDns, evs);
      }
    } else if Watched(opts, labels) {
      if Passes(prev, opts, oldDns) && Passes(curr, opts, currDns) {
        if HoldsService(r, prev, opts, oldDns) {
          UpdateHandlerOutcome(c, r, opts, prev, curr, oldDns, currDns, evs);
        }
      } else if Passes(prev, opts, oldDns) {
        DeleteOutcome(c, r, opts, prev, labels, oldDns, evs);
      } else if Passes(curr, opts, currDns) {
        CreateOutcome(c, r, opts, curr, labels, currDns, evs);
      }
    }
  }
}
