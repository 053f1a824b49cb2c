/**
 From Kubernetes to the registry and nothing in between: between two moments at which the operator is
 at rest it received what one handler sent, and the registry changed accordingly.
 */
module Arrival {
  import opened Types
  import opened Registry
  import opened Meaning
  import opened Machine
  import opened Interleaving
  import opened Annotations
  import opened Naming
  import opened Services
  import opened Batches
  import opened ServiceHandlers
  import opened ServiceConvergence
  import opened ServiceRuns
  import opened NamespaceHandlers
  import opened NamespaceConvergence
  import opened NamespaceEnable
  import opened UpdateOutcomes
  import opened EndToEnd

  /** Everything received was processed, with all calls successful. */
  ghost predicate AtRest(s: State) {
    Quiet(s) && forall g :: 0 <= g < |s.gens| ==> AllOk(s.gens[g].processed)
  }

  lemma {:induction false} AllProcessedOk(gens: seq<Worker>, n: string)
    requires forall g :: 0 <= g < |gens| ==> AllOk(gens[g].processed)
    ensures AllOk(ProcessedBy(gens, n))
  {
    if gens != [] {
      AllProcessedOk(gens[..|gens| - 1], n);
      assert AllOk(gens[|gens| - 1].processed);
    }
  }

  // ----- routing -----

  ghost predicate RoutedTo(ns: string, evs: seq<Event>) {
    forall i :: 0 <= i < |evs| ==> NamespaceNameOf(evs[i]) == ns
  }

  lemma {:induction false} ByNamespaceAppend(a: seq<Event>, b: seq<Event>, n: string)
    ensures ByNamespace(a + b, n) == ByNamespace(a, n) + ByNamespace(b, n)
  {
    if b == [] {
      assert a + b == a;
    } else {
      ByNamespaceAppend(a, b[..|b| - 1], n);
      assert (a + b)[..|a + b| - 1] == a + b[..|b| - 1];
    }
  }

  lemma {:induction false} RoutedByNamespace(ns: string, evs: seq<Event>, n: string)
    requires RoutedTo(ns, evs)
    ensures ByNamespace(evs, n) == if n == ns then evs else []
  {
    if evs != [] {
      RoutedByNamespace(ns, evs[..|evs| - 1], n);
      assert evs == evs[..|evs| - 1] + [evs[|evs| - 1]];
    }
  }

  lemma {:induction false} ReplayElsewhere(c: Config, ns: string, r: Registry, evs: seq<Event>, n: string)
    requires n != ns
    ensures Subtree(Replay(c, ns, r, evs), n) == Subtree(r, n)
  {
    if evs != [] {
      ReplayElsewhere(c, ns, r, evs[..|evs| - 1], n);
      PerformSubtree(c, ns, Replay(c, ns, r, evs[..|evs| - 1]), evs[|evs| - 1], true, n);
    }
  }

  lemma {:induction false} OrderlyRunAppend(c: Config, s: State, a: seq<Action>, b: seq<Action>)
    requires IsOrderlyRun(c, s, a) && IsRun(c, s, a) && IsOrderlyRun(c, After(c, s, a), b)
    ensures IsOrderlyRun(c, s, a + b) && IsRun(c, s, a + b)
    ensures IsRun(c, After(c, s, a), b) && After(c, s, a + b) == After(c, After(c, s, a), b)
    decreases |a|
  {
    if a == [] {
      assert a + b == b;
      OrderlyRunIsRun(c, s, b);
    } else {
      assert (a + b)[0] == a[0] && (a + b)[1..] == a[1..] + b;
      OrderlyRunAppend(c, Next(c, s, a[0]), a[1..], b);
    }
  }

  /** An orderly run from a registry, first to a state at rest and then to another. */
  ghost predicate FromRestToRest(c: Config, r0: Registry, acts: seq<Action>, more: seq<Action>) {
    && IsOrderlyRun(c, Initial(r0), acts) && IsRun(c, Initial(r0), acts) && AtRest(After(c, Initial(r0), acts))
    && var s := After(c, Initial(r0), acts);
       IsOrderlyRun(c, s, more) && IsRun(c, s, more) && AtRest(After(c, s, more))
  }

  /** What was received in between, if all of one namespace, is replayed on the registry there was. */
  lemma RestToRest(c: Config, r0: Registry, acts: seq<Action>, more: seq<Action>, ns: string, evs: seq<Event>)
    requires FromRestToRest(c, r0, acts, more) && RoutedTo(ns, evs)
    requires var s := After(c, Initial(r0), acts); After(c, s, more).received == s.received + evs
    ensures var s := After(c, Initial(r0), acts); After(c, s, more).reg == Replay(c, ns, s.reg, evs)
  {
    var s := After(c, Initial(r0), acts);
    var s' := After(c, s, more);
    OrderlyRunAppend(c, Initial(r0), acts, more);
    forall k ensures Lookup(s'.reg, k) == Lookup(Replay(c, ns, s.reg, evs), k) {
      SettledRegistry(c, r0, acts, k);
      SettledRegistry(c, r0, acts + more, k);
      AllProcessedOk(s.gens, k.ns);
      AllProcessedOk(s'.gens, k.ns);
      ByNamespaceAppend(s.received, evs, k.ns);
      RoutedByNamespace(ns, evs, k.ns);
      RestToRestOf(c, r0, acts, ns, evs, k);
    }
    SameLookups(s'.reg, Replay(c, ns, s.reg, evs));
  }

  /** For one object: what the first part of the run left, and then `evs`. */
  lemma RestToRestOf(c: Config, r0: Registry, acts: seq<Action>, ns: string, evs: seq<Event>, k: Key)
    requires IsOrderlyRun(c, Initial(r0), acts) && IsRun(c, Initial(r0), acts) && AtRest(After(c, Initial(r0), acts))
    ensures var s := After(c, Initial(r0), acts);
      Lookup(Replay(c, ns, s.reg, evs), k) ==
      Lookup(Replay(c, k.ns, r0, ByNamespace(s.received, k.ns) + if k.ns == ns then evs else []), k)
  {
    var s := After(c, Initial(r0), acts);
    var before := ByNamespace(s.received, k.ns);
    var r := Replay(c, k.ns, r0, before);
    AllProcessedOk(s.gens, k.ns);
    QuietRunProcessedAll(c, r0, acts, k.ns);
    ReplaySubtree(c, k.ns, r0, before);
    assert Subtree(s.reg, k.ns) == Subtree(r, k.ns);
    if k.ns == ns {
      ReplayAppend(c, ns, r0, before, evs);
      ReplaySubtree(c, ns, s.reg, evs);
      ReplaySubtree(c, ns, r, evs);
      SubtreeFacts(Replay(c, ns, s.reg, evs), ns, k);
      SubtreeFacts(Replay(c, ns, r, evs), ns, k);
    } else {
      assert before + [] == before;
      ReplayElsewhere(c, ns, s.reg, evs, k.ns);
      SubtreeFacts(Replay(c, ns, s.reg, evs), k.ns, k);
      SubtreeFacts(r, k.ns, k);
    }
  }

  // ----- what the handlers send is routed to the namespace it is about -----

  lemma DerivedRouted(s: Service, opts: Options, dns: Resolver, kind: EventType, eps: seq<Endpoint>)
    requires Derives(s, opts, dns, eps)
    ensures RoutedTo(s.namespace, Each(kind, eps))
  {
    forall i | 0 <= i < |eps| ensures eps[i].namespace == s.namespace {
      DerivesExactly(s, opts, dns, eps, eps[i]);
    }
  }

  lemma CreateRouted(opts: Options, s: Service, labels: Option<Meta>, dns: Resolver, evs: seq<Event>)
    requires CreateSends(opts, s, labels, dns, evs)
    ensures RoutedTo(s.namespace, evs)
  {
    if Watched(opts, labels) && Passes(s, opts, dns) {
      var eps :| Derives(s, opts, dns, eps) && evs == CreateEvents(s.namespace, s.name, eps);
      DerivedRouted(s, opts, dns, Create, eps);
    }
  }

  lemma DeleteRouted(opts: Options, s: Service, labels: Option<Meta>, dns: Resolver, evs: seq<Event>)
    requires DeleteSends(opts, s, labels, dns, evs)
    ensures RoutedTo(s.namespace, evs)
  {
    if Watched(opts, labels) && Passes(s, opts, dns) {
      var eps :| Derives(s, opts, dns, eps) && evs == DeleteEvents(s.namespace, s.name, eps);
      DerivedRouted(s, opts, dns, Delete, eps);
    }
  }

  lemma MapRouted(s: Service, opts: Options, dns: Resolver, eps: seq<Endpoint>)
    requires Derives(s, opts, dns, eps)
    ensures forall n :: n in ByName(eps) ==> ByName(eps)[n].namespace == s.namespace
  {
    forall n | n in ByName(eps) ensures ByName(eps)[n].namespace == s.namespace {
      ByNameIn(eps, n);
      DerivesExactly(s, opts, dns, eps, ByName(eps)[n]);
    }
  }

  lemma DiffRouted(opts: Options, prev: Service, curr: Service, oldDns: Resolver, currDns: Resolver, evs: seq<Event>)
    requires DiffSends(opts, prev, curr, oldDns, currDns, evs) && prev.namespace == curr.namespace
    ensures RoutedTo(curr.namespace, evs)
  {
    var a, b, o, k :|
      && Derives(prev, opts, oldDns, a) && Derives(curr, opts, currDns, b)
      && Lists(o, ByName(a).Keys) && Lists(k, ByName(b).Keys)
      && evs == UpdateEvents(curr.namespace, curr.name, o, ByName(a), k, ByName(b), ByName(b));
    MapRouted(prev, opts, oldDns, a);
    MapRouted(curr, opts, currDns, b);
    UpdateEventsRouted(curr.namespace, curr.name, o, ByName(a), k, ByName(b));
  }

  lemma UpdateEventsRouted(ns: string, svc: string, o: seq<string>, olds: Endpoints, k: seq<string>, currs: Endpoints)
    requires (forall n :: n in o ==> n in olds) && (forall n :: n in k ==> n in currs)
    requires (forall n :: n in olds ==> olds[n].namespace == ns) && (forall n :: n in currs ==> currs[n].namespace == ns)
    ensures RoutedTo(ns, UpdateEvents(ns, svc, o, olds, k, currs, currs))
  {
    var evs, diff := UpdateEvents(ns, svc, o, olds, k, currs, currs), DiffEvents(o, olds, currs);
    NothingNewSent(k, currs);
    assert evs == CreateEvents(ns, svc, []) + diff;
    forall i | 0 <= i < |diff| ensures NamespaceNameOf(diff[i]) == ns {
      assert o[i] in o;
    }
  }

  lemma UpdateRouted(opts: Options, prev: Service, curr: Service, labels: Option<Meta>,
        oldDns: Resolver, currDns: Resolver, evs: seq<Event>)
    requires UpdateSends(opts, prev, curr, labels, oldDns, currDns, evs) && prev.namespace == curr.namespace
    ensures RoutedTo(curr.namespace, evs)
  {
    if curr.deleting {
      if !prev.deleting {
        DeleteRouted(opts, curr, labels, currDns, evs);
      }
    } else if Watched(opts, labels) {
      if Passes(prev, opts, oldDns) && Passes(curr, opts, currDns) {
        DiffRouted(opts, prev, curr, oldDns, currDns, evs);
      } else if Passes(prev, opts, oldDns) {
        DeleteRouted(opts, prev, labels, oldDns, evs);
      } else if Passes(curr, opts, currDns) {
        CreateRouted(opts, curr, labels, currDns, evs);
      }
    }
  }

  ghost predicate EndpointsRouted(ns: string, items: seq<Item>) {
    forall i {:trigger items[i]} :: 0 <= i < |items| ==> RoutedTo(ns, Each(Delete, items[i].endpoints))
  }

  lemma {:induction false} ItemsOfRouted(opts: Options, ns: string, services: seq<Service>, dns: nat -> Resolver,
        n: nat, items: seq<Item>)
    requires n <= |services| && ItemsOf(opts, services, dns, n, items)
    requires forall i :: 0 <= i < |services| ==> services[i].namespace == ns
    ensures EndpointsRouted(ns, items)
  {
    if n > 0 {
      if !Passes(services[n - 1], opts, dns(n - 1)) {
        ItemsOfRouted(opts, ns, services, dns, n - 1, items);
      } else {
        var last := |items| - 1;
        ItemsOfRouted(opts, ns, services, dns, n - 1, items[..last]);
        DerivedRouted(services[n - 1], opts, dns(n - 1), Delete, items[last].endpoints);
        forall i | 0 <= i < |items| ensures RoutedTo(ns, Each(Delete, items[i].endpoints)) {
          assert i < last ==> items[..last][i] == items[i];
        }
      }
    }
  }

  lemma {:induction false} ItemsRouted(ns: string, kind: EventType, items: seq<Item>)
    requires EndpointsRouted(ns, items)
    ensures RoutedTo(ns, ItemsEvents(ns, kind, Delete, items))
  {
    if items != [] {
      var before, item := items[..|items| - 1], items[|items| - 1];
      EndpointsRoutedPrefix(ns, items);
      ItemsRouted(ns, kind, before);
      ItemRouted(ns, kind, item);
      RoutedConcat(ns, ItemsEvents(ns, kind, Delete, before), ItemEvents(ns, kind, Delete, item));
    }
  }

  lemma EndpointsRoutedPrefix(ns: string, items: seq<Item>)
    requires EndpointsRouted(ns, items) && items != []
    ensures EndpointsRouted(ns, items[..|items| - 1]) && RoutedTo(ns, Each(Delete, items[|items| - 1].endpoints))
  {
    var before := items[..|items| - 1];
    forall i | 0 <= i < |before| ensures RoutedTo(ns, Each(Delete, before[i].endpoints)) {
      assert before[i] == items[i];
    }
  }

  lemma RoutedConcat(ns: string, a: seq<Event>, b: seq<Event>)
    requires RoutedTo(ns, a) && RoutedTo(ns, b)
    ensures RoutedTo(ns, a + b)
  {
  }

  lemma ItemRouted(ns: string, kind: EventType, item: Item)
    requires RoutedTo(ns, Each(Delete, item.endpoints))
    ensures RoutedTo(ns, ItemEvents(ns, kind, Delete, item))
  {
    var own := if kind.Update? then [] else [Event(kind, ServiceObj(ns, item.service))];
    RoutedConcat(ns, Each(Delete, item.endpoints), own);
    RoutedConcat(ns, own, Each(Delete, item.endpoints));
  }

  lemma NamespaceRouted(opts: Options, ns: string, kind: EventType, services: Option<seq<Service>>, dns: nat -> Resolver, evs: seq<Event>)
    requires NamespaceSends(opts, ns, kind, services, dns, evs)
    requires services.Some? ==> forall i :: 0 <= i < |services.value| ==> services.value[i].namespace == ns
    ensures RoutedTo(ns, evs)
  {
    if services.Some? {
      var items: seq<Item> :| ItemsOf(opts, services.value, dns, |services.value|, items) && evs == NamespaceEvents(ns, kind, Delete, items);
      ItemsOfRouted(opts, ns, services.value, dns, |services.value|, items);
      ItemsRouted(ns, kind, items);
      var own := if kind.Update? then [] else [Event(kind, NamespaceObj(ns))];
      RoutedConcat(ns, own, ItemsEvents(ns, kind, Delete, items));
      RoutedConcat(ns, ItemsEvents(ns, kind, Delete, items), own);
    }
  }

  // ----- the theorems -----

  /**
   A new service of a watched namespace that passes. Whatever was received and registered before,
   once the create handler's events have settled the namespace, the service and an endpoint for each
   address and port are registered under their keys; an endpoint's name is the service's name and the
   digest of "address:port". If digests tell the endpoints apart, each has its own address and port,
   all persistent metadata, and under all other keys the service's annotations that are kept.
   */
  lemma CreateArrives(c: Config, r0: Registry, acts: seq<Action>, more: seq<Action>, opts: Options, s: Service,
        labels: Option<Meta>, dns: Resolver, evs: seq<Event>)
    requires FromRestToRest(c, r0, acts, more) && CreateSends(opts, s, labels, dns, evs)
    requires var s1 := After(c, Initial(r0), acts); After(c, s1, more).received == s1.received + evs
    requires Watched(opts, labels) && Passes(s, opts, dns)
    ensures var r := After(c, After(c, Initial(r0), acts), more).reg;
      && NsKey(s.namespace) in r && SvcKey(s.namespace, s.name) in r
      && forall ip, port :: HasAddress(s, dns, ip) && port in s.ports ==>
           var k := EpKey(s.namespace, s.name, s.name + "-" + opts.digest(ip + ":" + Decimal(port)));
           && k in r
           && (CollisionFree(s, opts, dns) ==>
                 && r[k].Instance? && r[k].address == ip && r[k].port == port
                 && (forall key :: key in c.persistent ==> key in r[k].meta && r[k].meta[key] == c.persistent[key])
                 && (forall key :: key in s.annotations && Kept(key, opts.annotations) && key !in c.persistent ==>
                       key in r[k].meta && r[k].meta[key] == s.annotations[key]))
  {
    CreateRouted(opts, s, labels, dns, evs);
    RestToRest(c, r0, acts, more, s.namespace, evs);
    var r0', r := After(c, Initial(r0), acts).reg, After(c, After(c, Initial(r0), acts), more).reg;
    CreatedKeys(c, r0', opts, s, labels, dns, evs);
    forall ip, port | HasAddress(s, dns, ip) && port in s.ports && CollisionFree(s, opts, dns)
      ensures var k := EpKey(s.namespace, s.name, s.name + "-" + opts.digest(ip + ":" + Decimal(port)));
        && k in r && r[k].Instance? && r[k].address == ip && r[k].port == port
        && (forall key :: key in c.persistent ==> key in r[k].meta && r[k].meta[key] == c.persistent[key])
        && (forall key :: key in s.annotations && Kept(key, opts.annotations) && key !in c.persistent ==>
              key in r[k].meta && r[k].meta[key] == s.annotations[key])
    {
      CreateHandlerOutcome(c, r0', opts, s, labels, dns, evs);
      CreatedEntry(c, r0', r, opts, s, dns, ip, port);
    }
  }

  lemma CreatedEntry(c: Config, r: Registry, r': Registry, opts: Options, s: Service, dns: Resolver, ip: string, port: int)
    requires Registered(c, r, r', opts, s, dns) && Passes(s, opts, dns) && HasAddress(s, dns, ip) && port in s.ports
    ensures var k := EpKey(s.namespace, s.name, s.name + "-" + opts.digest(ip + ":" + Decimal(port)));
      && k in r' && r'[k].Instance? && r'[k].address == ip && r'[k].port == port
      && (forall key :: key in c.persistent ==> key in r'[k].meta && r'[k].meta[key] == c.persistent[key])
      && (forall key :: key in s.annotations && Kept(key, opts.annotations) && key !in c.persistent ==>
            key in r'[k].meta && r'[k].meta[key] == s.annotations[key])
  {
    var e := EndpointAt(s, opts, dns, ip, port);
    var k := EpKey(s.namespace, s.name, e.name);
    assert Describes(c, Lookup(r, k), Lookup(r', k), e);
  }

  /** The endpoint for an address and a port. */
  lemma EndpointAt(s: Service, opts: Options, dns: Resolver, ip: string, port: int) returns (e: Endpoint)
    requires Passes(s, opts, dns) && HasAddress(s, dns, ip) && port in s.ports
    ensures IsEndpointOf(s, opts, dns, e)
    ensures e.name == s.name + "-" + opts.digest(ip + ":" + Decimal(port)) && e.address == ip && e.port == port
    ensures e.metadata == Filtered(s.annotations, opts.annotations)
  {
    IPsOfMeans(s, dns);
    e := MakeEndpoint(s, Filtered(s.annotations, opts.annotations), opts.digest, ip, port);
  }

  /** Even if digests collide, each endpoint's name is registered. */
  lemma CreatedKeys(c: Config, r: Registry, opts: Options, s: Service, labels: Option<Meta>, dns: Resolver, evs: seq<Event>)
    requires CreateSends(opts, s, labels, dns, evs) && Watched(opts, labels) && Passes(s, opts, dns)
    ensures var r' := Replay(c, s.namespace, r, evs);
      && NsKey(s.namespace) in r' && SvcKey(s.namespace, s.name) in r'
      && forall ip, port :: HasAddress(s, dns, ip) && port in s.ports ==>
           EpKey(s.namespace, s.name, s.name + "-" + opts.digest(ip + ":" + Decimal(port))) in r'
  {
    var eps: seq<Endpoint> :| Derives(s, opts, dns, eps) && evs == CreateEvents(s.namespace, s.name, eps);
    var r1 := WithParents(c, r, s.namespace, s.name);
    assert evs == CreateEvents(s.namespace, s.name, []) + Each(Create, eps);
    ParentsReplay(c, r, s.namespace, s.name, Each(Create, eps));
    forall i | 0 <= i < |eps| ensures eps[i].service == s.name {
      DerivesExactly(s, opts, dns, eps, eps[i]);
    }
    BatchMiss(c, s.namespace, s.name, r1, Each(Create, eps), NsKey(s.namespace));
    BatchMiss(c, s.namespace, s.name, r1, Each(Create, eps), SvcKey(s.namespace, s.name));
    assert Lookup(r1, NsKey(s.namespace)).Some? && Lookup(r1, SvcKey(s.namespace, s.name)).Some?;
    forall ip, port | HasAddress(s, dns, ip) && port in s.ports
      ensures EpKey(s.namespace, s.name, s.name + "-" + opts.digest(ip + ":" + Decimal(port))) in
              Replay(c, s.namespace, r1, Each(Create, eps))
    {
      var e := EndpointAt(s, opts, dns, ip, port);
      DerivesExactly(s, opts, dns, eps, e);
      var i :| 0 <= i < |eps| && eps[i] == e;
      CreateBatchIn(c, s.namespace, s.name, r1, eps, i);
    }
  }

  lemma {:induction false} CreateBatchIn(c: Config, ns: string, svc: string, r: Registry, eps: seq<Endpoint>, i: nat)
    requires SvcKey(ns, svc) in r && i < |eps| && forall j :: 0 <= j < |eps| ==> eps[j].service == svc
    ensures EpKey(ns, svc, eps[i].name) in Replay(c, ns, r, Each(Create, eps))
  {
    var evs, last := Each(Create, eps), |eps| - 1;
    BatchMiss(c, ns, svc, r, evs[..last], SvcKey(ns, svc));
    assert Lookup(Replay(c, ns, r, evs[..last]), SvcKey(ns, svc)).Some?;
    if eps[i].name != eps[last].name {
      CreateBatchIn(c, ns, svc, r, eps[..last], i);
      assert evs[..last] == Each(Create, eps[..last]);
    }
  }

  /** An update of a service, in each of its cases. */
  lemma UpdateArrives(c: Config, r0: Registry, acts: seq<Action>, more: seq<Action>, opts: Options, prev: Service,
        curr: Service, labels: Option<Meta>, oldDns: Resolver, currDns: Resolver, evs: seq<Event>)
    requires FromRestToRest(c, r0, acts, more) && UpdateSends(opts, prev, curr, labels, oldDns, currDns, evs)
    requires var s1 := After(c, Initial(r0), acts); After(c, s1, more).received == s1.received + evs
    requires IsOwnedByOperator(c.persistent) && prev.name == curr.name && prev.namespace == curr.namespace
    ensures var s1 := After(c, Initial(r0), acts);
      UpdateApplied(c, s1.reg, After(c, s1, more).reg, opts, prev, curr, labels, oldDns, currDns)
  {
    UpdateRouted(opts, prev, curr, labels, oldDns, currDns, evs);
    RestToRest(c, r0, acts, more, curr.namespace, evs);
    UpdateOutcome(c, After(c, Initial(r0), acts).reg, opts, prev, curr, labels, oldDns, currDns, evs);
  }

  /** The deletion of a service. */
  lemma DeleteArrives(c: Config, r0: Registry, acts: seq<Action>, more: seq<Action>, opts: Options, s: Service,
        labels: Option<Meta>, dns: Resolver, evs: seq<Event>)
    requires FromRestToRest(c, r0, acts, more) && DeleteSends(opts, s, labels, dns, evs) && Watched(opts, labels)
    requires var s1 := After(c, Initial(r0), acts); After(c, s1, more).received == s1.received + evs
    ensures var s1 := After(c, Initial(r0), acts);
      Unregistered(s1.reg, After(c, s1, more).reg, s.namespace, s.name, EndpointNames(s, opts, dns))
  {
    DeleteRouted(opts, s, labels, dns, evs);
    RestToRest(c, r0, acts, more, s.namespace, evs);
    DeleteOutcome(c, After(c, Initial(r0), acts).reg, opts, s, labels, dns, evs);
  }

  /**
   The end of a namespace, deleted or no longer watched, after whatever history. Once settled, none
   of the endpoints Kubernetes reports is the operator's; a reported service that is still there is
   somebody else's or has endpoints; and so is the namespace, or it has services.
   */
  lemma TeardownArrives(c: Config, r0: Registry, acts: seq<Action>, opts: Options, ns: string,
        services: seq<Service>, dns: nat -> Resolver, history: seq<Event>, evs: seq<Event>)
    requires IsOrderlyRun(c, Initial(r0), acts) && IsRun(c, Initial(r0), acts) && AtRest(After(c, Initial(r0), acts))
    requires NamespaceSends(opts, ns, Delete, Some(services), dns, evs) && DistinctNames(services)
    requires forall i :: 0 <= i < |services| ==> services[i].namespace == ns
    requires After(c, Initial(r0), acts).received == history + evs
    ensures var r := After(c, Initial(r0), acts).reg;
      && (forall svc, ep :: ReportedEndpoint(opts, services, dns, |services|, svc, ep) && EpKey(ns, svc, ep) in r ==>
            var m := r[EpKey(ns, svc, ep)].meta; "owner" !in m || m["owner"] != "cnwan-operator")
      && (forall svc :: Reported(opts, services, dns, |services|, svc) && SvcKey(ns, svc) in r ==>
            var m := r[SvcKey(ns, svc)].meta;
            "owner" !in m || m["owner"] != "cnwan-operator" || exists ep {:trigger EpKey(ns, svc, ep)} :: EpKey(ns, svc, ep) in r)
      && (NsKey(ns) in r ==>
            var m := r[NsKey(ns)].meta;
            "owner" !in m || m["owner"] != "cnwan-operator" || exists svc {:trigger SvcKey(ns, svc)} :: SvcKey(ns, svc) in r)
  {
    NamespaceRouted(opts, ns, Delete, Some(services), dns, evs);
    ByNamespaceAppend(history, evs, ns);
    RoutedByNamespace(ns, evs, ns);
    AllProcessedOk(After(c, Initial(r0), acts).gens, ns);
    var before := ByNamespace(history, ns);
    var items := TeardownEndToEnd(c, r0, acts, opts, ns, services, dns, before, evs);
    ReportedLeaves(Replay(c, ns, r0, before), After(c, Initial(r0), acts).reg, opts, ns, services, dns, items);
  }

  lemma ReportedLeaves(r0: Registry, r: Registry, opts: Options, ns: string, services: seq<Service>, dns: nat -> Resolver,
        items: seq<Item>)
    requires Subtree(r, ns) == Subtree(TornDown(r0, ns, items), ns)
    requires forall svc :: ListedService(items, svc) <==> Reported(opts, services, dns, |services|, svc)
    requires forall svc, ep :: Listed(items, svc, ep) <==> ReportedEndpoint(opts, services, dns, |services|, svc, ep)
    ensures forall svc, ep :: ReportedEndpoint(opts, services, dns, |services|, svc, ep) && EpKey(ns, svc, ep) in r ==>
      var m := r[EpKey(ns, svc, ep)].meta; "owner" !in m || m["owner"] != "cnwan-operator"
    ensures forall svc :: Reported(opts, services, dns, |services|, svc) && SvcKey(ns, svc) in r ==>
      var m := r[SvcKey(ns, svc)].meta;
      "owner" !in m || m["owner"] != "cnwan-operator" || exists ep {:trigger EpKey(ns, svc, ep)} :: EpKey(ns, svc, ep) in r
    ensures NsKey(ns) in r ==>
      var m := r[NsKey(ns)].meta;
      "owner" !in m || m["owner"] != "cnwan-operator" || exists svc {:trigger SvcKey(ns, svc)} :: SvcKey(ns, svc) in r
  {
    TornDownLeaves(r0, r, ns, items);
  }

  /** What a teardown leaves. */
  lemma TornDownLeaves(r0: Registry, r: Registry, ns: string, items: seq<Item>)
    requires Subtree(r, ns) == Subtree(TornDown(r0, ns, items), ns)
    ensures forall svc, ep :: Listed(items, svc, ep) ==> !OwnedEntry(Lookup(r, EpKey(ns, svc, ep)))
    ensures forall svc :: ListedService(items, svc) && OwnedEntry(Lookup(r, SvcKey(ns, svc))) ==>
      exists ep {:trigger EpKey(ns, svc, ep)} :: EpKey(ns, svc, ep) in r
    ensures OwnedEntry(Lookup(r, NsKey(ns))) ==> exists svc {:trigger SvcKey(ns, svc)} :: SvcKey(ns, svc) in r
  {
    forall k: Key | k.ns == ns ensures Lookup(r, k) == Lookup(TornDown(r0, ns, items), k) {
      SubtreeFacts(r, ns, k);
      SubtreeFacts(TornDown(r0, ns, items), ns, k);
    }
    forall svc | ListedService(items, svc) && OwnedEntry(Lookup(r, SvcKey(ns, svc)))
      ensures exists ep {:trigger EpKey(ns, svc, ep)} :: EpKey(ns, svc, ep) in r
    {
      var x := EndpointStays(r0, ns, items, SvcKey(ns, svc));
      assert Lookup(r, x) == Lookup(TornDown(r0, ns, items), x);
      assert x == EpKey(ns, svc, x.ep);
    }
    if OwnedEntry(Lookup(r, NsKey(ns))) {
      var x :| x in r0 && ParentOf(x) == Some(NsKey(ns)) && !ServiceGoes(r0, ns, items, x);
      assert Lookup(r, x) == Lookup(TornDown(r0, ns, items), x);
      assert x == SvcKey(ns, x.svc);
    }
  }

  lemma EndpointStays(r0: Registry, ns: string, items: seq<Item>, k: Key) returns (x: Key)
    requires k.SvcKey? && k.ns == ns && ListedService(items, k.svc) && OwnedEntry(Lookup(TornDown(r0, ns, items), k))
    ensures x in TornDown(r0, ns, items) && x.EpKey? && x.ns == ns && x.svc == k.svc
  {
    assert Lookup(r0, k) == Lookup(TornDown(r0, ns, items), k) && !ServiceGoes(r0, ns, items, k);
    x :| x in r0 && ParentOf(x) == Some(k) && !EndpointGoes(r0, ns, items, x);
  }

  /** The end of a namespace from rest to rest: exactly what may go is gone, in the whole registry. */
  lemma TeardownExactlyArrives(c: Config, r0: Registry, acts: seq<Action>, more: seq<Action>, opts: Options, ns: string,
        services: seq<Service>, dns: nat -> Resolver, evs: seq<Event>) returns (items: seq<Item>)
    requires FromRestToRest(c, r0, acts, more) && NamespaceSends(opts, ns, Delete, Some(services), dns, evs)
    requires var s1 := After(c, Initial(r0), acts); After(c, s1, more).received == s1.received + evs
    requires DistinctNames(services) && forall i :: 0 <= i < |services| ==> services[i].namespace == ns
    ensures forall svc :: ListedService(items, svc) <==> Reported(opts, services, dns, |services|, svc)
    ensures forall svc, ep :: Listed(items, svc, ep) <==> ReportedEndpoint(opts, services, dns, |services|, svc, ep)
    ensures var s1 := After(c, Initial(r0), acts); After(c, s1, more).reg == TornDown(s1.reg, ns, items)
  {
    NamespaceRouted(opts, ns, Delete, Some(services), dns, evs);
    RestToRest(c, r0, acts, more, ns, evs);
    items := TeardownHandlerOutcome(c, After(c, Initial(r0), acts).reg, opts, ns, services, dns, evs);
  }

  /**
   A namespace that is now watched, as the source is written: it and the passing services are
   registered, and the operator has none of their endpoints.
   */
  lemma EnableArrives(c: Config, r0: Registry, acts: seq<Action>, more: seq<Action>, opts: Options, ns: string,
        services: seq<Service>, dns: nat -> Resolver, evs: seq<Event>)
    requires FromRestToRest(c, r0, acts, more) && NamespaceSends(opts, ns, Create, Some(services), dns, evs)
    requires var s1 := After(c, Initial(r0), acts); After(c, s1, more).received == s1.received + evs
    requires IsOwnedByOperator(c.persistent)
    requires DistinctNames(services) && forall i :: 0 <= i < |services| ==> services[i].namespace == ns
    ensures var r := After(c, After(c, Initial(r0), acts), more).reg;
      && NsKey(ns) in r
      && (forall i: nat :: i < |services| && Passes(services[i], opts, dns(i)) ==> SvcKey(ns, services[i].name) in r)
      && (forall i: nat, ep :: i < |services| && ep in EndpointNames(services[i], opts, dns(i)) && EpKey(ns, services[i].name, ep) in r ==>
            var m := r[EpKey(ns, services[i].name, ep)].meta; "owner" !in m || m["owner"] != "cnwan-operator")
  {
    NamespaceRouted(opts, ns, Create, Some(services), dns, evs);
    RestToRest(c, r0, acts, more, ns, evs);
    EnableHandlerOutcome(c, After(c, Initial(r0), acts).reg, opts, ns, services, dns, evs);
  }
}
