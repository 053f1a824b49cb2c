/** The handlers of services end to end: from what Kubernetes reports to the registry. */
module ServiceRuns {
  import opened Types
  import opened Registry
  import opened Meaning
  import opened Annotations
  import opened Services
  import opened Batches
  import opened ServiceHandlers
  import opened ServiceConvergence

  lemma DerivedMap(s: Service, opts: Options, dns: Resolver, eps: seq<Endpoint>)
    requires Derives(s, opts, dns, eps)
    ensures EndpointMap(ByName(eps), s.name)
    ensures ByName(eps).Keys == EndpointNames(s, opts, dns)
  {
    forall n ensures n in ByName(eps) <==> n in EndpointNames(s, opts, dns)
             ensures n in ByName(eps) ==> ByName(eps)[n].service == s.name
    {
      if n in ByName(eps) {
        ByNameIn(eps, n);
        DerivesExactly(s, opts, dns, eps, ByName(eps)[n]);
      }
      if n in EndpointNames(s, opts, dns) {
        var ip, port :| ip in IPsOf(s, dns).value && port in s.ports && n == EndpointName(s, opts.digest, ip, port);
        DerivesExactly(s, opts, dns, eps, MakeEndpoint(s, Filtered(s.annotations, opts.annotations), opts.digest, ip, port));
      }
    }
  }

  /** The registry's endpoints of the service are exactly those Kubernetes reports, by name. */
  ghost predicate HoldsService(r: Registry, s: Service, opts: Options, dns: Resolver) {
    HoldsExactly(r, s.namespace, s.name, EndpointNames(s, opts, dns))
  }

  /** Each registered endpoint of the service has the address, port and metadata Kubernetes reports. */
  ghost predicate UpToDateService(c: Config, r': Registry, r: Registry, s: Service, opts: Options, dns: Resolver) {
    forall n {:trigger EpKey(s.namespace, s.name, n)} :: EpKey(s.namespace, s.name, n) in r' ==>
      exists e ::
        && IsEndpointOf(s, opts, dns, e) && e.name == n
        && Describes(c, Lookup(r, EpKey(s.namespace, s.name, n)), Lookup(r', EpKey(s.namespace, s.name, n)), e)
  }

  /** The registered endpoints of the service are those called as in both sets. */
  ghost predicate HoldsCommon(r: Registry, ns: string, svc: string, a: set<string>, b: set<string>) {
    forall n {:trigger EpKey(ns, svc, n)} :: EpKey(ns, svc, n) in r <==> n in a && n in b
  }

  /**
   The update handler as written: from the old endpoints it leaves the current ones whose names
   were old, as Kubernetes now reports them. So it brings the registry from the old to the current
   endpoints if and only if no current endpoint has a new name.
   */
  lemma UpdateHandlerOutcome(c: Config, r: Registry, opts: Options, prev: Service,
        curr: Service, oldDns: Resolver, currDns: Resolver, evs: seq<Event>)
    requires IsOwnedByOperator(c.persistent) && prev.name == curr.name && prev.namespace == curr.namespace
    requires DiffSends(opts, prev, curr, oldDns, currDns, evs) && HoldsService(r, prev, opts, oldDns)
    ensures var r' := Replay(c, curr.namespace, r, evs);
      && HoldsCommon(r', curr.namespace, curr.name, EndpointNames(prev, opts, oldDns), EndpointNames(curr, opts, currDns))
      && UpToDateService(c, r', r, curr, opts, currDns)
      && (HoldsService(r', curr, opts, currDns) <==> EndpointNames(curr, opts, currDns) <= EndpointNames(prev, opts, oldDns))
  {
    var olds, currs := DiffOutcome(c, r, opts, prev, curr, oldDns, currDns, evs);
    var r' := Replay(c, curr.namespace, r, evs);
    UpdatedNames(c, r, r', curr.namespace, curr.name, olds, currs);
    forall n {:trigger EpKey(curr.namespace, curr.name, n)} | EpKey(curr.namespace, curr.name, n) in r'
      ensures IsEndpointOf(curr, opts, currDns, currs[n]) && currs[n].name == n
    {
      assert n in olds && n in currs;
    }
  }

  /** What an update makes of a registry that holds exactly the old endpoints. */
  lemma UpdatedNames(c: Config, r: Registry, r': Registry, ns: string, svc: string,
        olds: Endpoints, currs: Endpoints)
    requires IsOwnedByOperator(c.persistent) && HoldsExactly(r, ns, svc, olds.Keys)
    requires Updated(c, r, r', ns, svc, olds, currs)
    ensures HoldsCommon(r', ns, svc, olds.Keys, currs.Keys) && UpToDate(c, r', r, ns, svc, currs)
    ensures HoldsExactly(r', ns, svc, currs.Keys) <==> currs.Keys <= olds.Keys
  {
    forall n {:trigger EpKey(ns, svc, n)}
      ensures Lookup(r', EpKey(ns, svc, n)) == AfterUpdate(c, olds, currs, currs, n, Lookup(r, EpKey(ns, svc, n)))
    {
      assert AfterUpdateOf(c, r, ns, svc, olds, currs, currs, EpKey(ns, svc, n)) ==
             AfterUpdate(c, olds, currs, currs, n, Lookup(r, EpKey(ns, svc, n)));
    }
    StoredIsUpToDate(c, r', r, ns, svc, currs);
    if HoldsExactly(r', ns, svc, currs.Keys) {
      forall n | n in currs.Keys ensures n in olds.Keys {
        assert EpKey(ns, svc, n) in r';
      }
    }
  }

  // ----- order insensitivity -----

  /**
   Both versions pass: whatever orders the maps and address sets are iterated in, there is one
   outcome. Of the old endpoints only the names count.
   */
  lemma DiffOrderFree(c: Config, r: Registry, opts: Options, prev: Service,
        curr: Service, oldDns: Resolver, currDns: Resolver, evs1: seq<Event>, evs2: seq<Event>)
    requires prev.name == curr.name && CollisionFree(curr, opts, currDns)
    requires DiffSends(opts, prev, curr, oldDns, currDns, evs1) && DiffSends(opts, prev, curr, oldDns, currDns, evs2)
    ensures Replay(c, curr.namespace, r, evs1) == Replay(c, curr.namespace, r, evs2)
  {
    var olds, currs := DiffOutcome(c, r, opts, prev, curr, oldDns, currDns, evs1);
    var olds', currs' := DiffOutcome(c, r, opts, prev, curr, oldDns, currDns, evs2);
    EndpointsUnique(curr, opts, currDns, currs, currs');
    SameUpdate(c, r, Replay(c, curr.namespace, r, evs1), Replay(c, curr.namespace, r, evs2),
               curr.namespace, curr.name, olds, olds', currs);
  }

  /** `m` holds endpoints of the service under their names, one for each name. */
  ghost predicate EndpointsOf(s: Service, opts: Options, dns: Resolver, m: Endpoints) {
    && m.Keys == EndpointNames(s, opts, dns)
    && forall n :: n in m ==> m[n].name == n && IsEndpointOf(s, opts, dns, m[n])
  }

  /** Without collisions there is one such map. */
  lemma EndpointsUnique(s: Service, opts: Options, dns: Resolver, m: Endpoints, m': Endpoints)
    requires CollisionFree(s, opts, dns) && EndpointsOf(s, opts, dns, m) && EndpointsOf(s, opts, dns, m')
    ensures m == m'
  {
    assert m.Keys == m'.Keys;
    forall n | n in m ensures m[n] == m'[n] {
      NamesAreLossless(s, opts, dns, m[n], m'[n]);
    }
  }

  /** `r'` is what an update from `olds` to `currs` makes of `r`. */
  ghost predicate Updated(c: Config, r: Registry, r': Registry, ns: string, svc: string, olds: Endpoints, currs: Endpoints) {
    forall key :: Lookup(r', key) == AfterUpdateOf(c, r, ns, svc, olds, currs, currs, key)
  }

  lemma SameUpdate(c: Config, r: Registry, r1: Registry, r2: Registry, ns: string, svc: string,
        olds: Endpoints, olds': Endpoints, currs: Endpoints)
    requires olds.Keys == olds'.Keys
    requires Updated(c, r, r1, ns, svc, olds, currs) && Updated(c, r, r2, ns, svc, olds', currs)
    ensures r1 == r2
  {
    SameLookups(r1, r2);
  }

  /** The maps of endpoints behind an output of the update handler, and what it makes of each object. */
  lemma DiffOutcome(c: Config, r: Registry, opts: Options, prev: Service, curr: Service,
        oldDns: Resolver, currDns: Resolver, evs: seq<Event>) returns (olds: Endpoints, currs: Endpoints)
    requires prev.name == curr.name && DiffSends(opts, prev, curr, oldDns, currDns, evs)
    ensures olds.Keys == EndpointNames(prev, opts, oldDns) && EndpointsOf(curr, opts, currDns, currs)
    ensures Updated(c, r, Replay(c, curr.namespace, r, evs), curr.namespace, curr.name, olds, currs)
  {
    var a, b, o, k :|
      && Derives(prev, opts, oldDns, a) && Derives(curr, opts, currDns, b)
      && Lists(o, ByName(a).Keys) && Lists(k, ByName(b).Keys)
      && evs == UpdateEvents(curr.namespace, curr.name, o, ByName(a), k, ByName(b), ByName(b));
    olds, currs := ByName(a), ByName(b);
    DerivedMap(prev, opts, oldDns, a);
    DerivedMap(curr, opts, currDns, b);
    DerivedEndpoints(curr, opts, currDns, b);
    forall key
      ensures Lookup(Replay(c, curr.namespace, r, evs), key) == AfterUpdateOf(c, r, curr.namespace, curr.name, olds, currs, currs, key)
    {
      UpdateReplay(c, r, curr.namespace, curr.name, o, olds, k, currs, currs, key);
    }
  }

  lemma DerivedEndpoints(s: Service, opts: Options, dns: Resolver, eps: seq<Endpoint>)
    requires Derives(s, opts, dns, eps)
    ensures EndpointsOf(s, opts, dns, ByName(eps))
  {
    DerivedMap(s, opts, dns, eps);
    forall n | n in ByName(eps) ensures IsEndpointOf(s, opts, dns, ByName(eps)[n]) {
      ByNameIn(eps, n);
      DerivesExactly(s, opts, dns, eps, ByName(eps)[n]);
    }
  }

  /** Whatever orders Go iterates in, any two outputs the update handler may produce have one outcome. */
  lemma UpdateOrderFree(c: Config, r: Registry, opts: Options, prev: Service, curr: Service,
        labels: Option<Meta>, oldDns: Resolver, currDns: Resolver, evs1: seq<Event>, evs2: seq<Event>)
    requires prev.name == curr.name
    requires !curr.deleting && Passes(curr, opts, currDns) ==> CollisionFree(curr, opts, currDns)
    requires UpdateSends(opts, prev, curr, labels, oldDns, currDns, evs1)
    requires UpdateSends(opts, prev, curr, labels, oldDns, currDns, evs2)
    ensures Replay(c, curr.namespace, r, evs1) == Replay(c, curr.namespace, r, evs2)
  {
    if curr.deleting {
      if !prev.deleting {
        DeleteOrderFree(c, curr.namespace, r, opts, curr, labels, currDns, evs1, evs2);
      }
    } else if Watched(opts, labels) {
      if Passes(curr, opts, currDns) {
        if Passes(prev, opts, oldDns) {
          DiffOrderFree(c, r, opts, prev, curr, oldDns, currDns, evs1, evs2);
        } else {
          CreateOrderFree(c, r, opts, curr, labels, currDns, evs1, evs2);
        }
      } else if Passes(prev, opts, oldDns) {
        DeleteOrderFree(c, curr.namespace, r, opts, prev, labels, oldDns, evs1, evs2);
      }
    }
  }

  /** Deletes go by name: no two outputs of the delete handler differ in their outcome. */
  lemma DeleteOrderFree(c: Config, ns: string, r: Registry, opts: Options, s: Service,
        labels: Option<Meta>, dns: Resolver, evs1: seq<Event>, evs2: seq<Event>)
    requires DeleteSends(opts, s, labels, dns, evs1) && DeleteSends(opts, s, labels, dns, evs2)
    ensures Replay(c, ns, r, evs1) == Replay(c, ns, r, evs2)
  {
    if Watched(opts, labels) && Passes(s, opts, dns) {
      var a :| Derives(s, opts, dns, a) && evs1 == DeleteEvents(s.namespace, s.name, a);
      var b :| Derives(s, opts, dns, b) && evs2 == DeleteEvents(s.namespace, s.name, b);
      forall e: Endpoint ensures e in a <==> e in b
               ensures e in a ==> e.service == s.name
      {
        DerivesExactly(s, opts, dns, a, e);
        DerivesExactly(s, opts, dns, b, e);
      }
      SameEndpointsDeleted(c, ns, s.name, r, a, b);
      var last := [Event(Delete, ServiceObj(s.namespace, s.name))];
      ReplayAppend(c, ns, r, Each(Delete, a), last);
      ReplayAppend(c, ns, r, Each(Delete, b), last);
    }
  }

  lemma SameEndpointsDeleted(c: Config, ns: string, svc: string, r: Registry,
        a: seq<Endpoint>, b: seq<Endpoint>)
    requires forall e :: e in a <==> e in b
    requires forall e: Endpoint :: e in a ==> e.service == svc
    ensures Replay(c, ns, r, Each(Delete, a)) == Replay(c, ns, r, Each(Delete, b))
  {
    forall k ensures Lookup(Replay(c, ns, r, Each(Delete, a)), k) == Lookup(Replay(c, ns, r, Each(Delete, b)), k) {
      DeleteBatch(c, ns, svc, r, a, k);
      DeleteBatch(c, ns, svc, r, b, k);
      NamedAlike(ns, svc, a, b, k);
      NamedAlike(ns, svc, b, a, k);
    }
    SameLookups(Replay(c, ns, r, Each(Delete, a)), Replay(c, ns, r, Each(Delete, b)));
  }

  lemma NamedAlike(ns: string, svc: string, a: seq<Endpoint>, b: seq<Endpoint>, k: Key)
    requires forall e :: e in a ==> e in b
    ensures (exists i :: 0 <= i < |a| && k == EpKey(ns, svc, a[i].name)) ==>
            (exists i :: 0 <= i < |b| && k == EpKey(ns, svc, b[i].name))
  {
    if i :| 0 <= i < |a| && k == EpKey(ns, svc, a[i].name) {
      assert a[i] in a;
      var j :| 0 <= j < |b| && b[j] == a[i];
    }
  }

  /** The same events, for two derivations of one service. */
  lemma EachSameEvents(s: Service, opts: Options, dns: Resolver, kind: EventType,
        a: seq<Endpoint>, b: seq<Endpoint>)
    requires Derives(s, opts, dns, a) && Derives(s, opts, dns, b) && CollisionFree(s, opts, dns)
    ensures OfService(s.name, Each(kind, a)) && OnePerName(Each(kind, a))
    ensures forall ev :: ev in Each(kind, a) <==> ev in Each(kind, b)
  {
    forall e: Endpoint ensures e in a <==> e in b
             ensures e in a ==> e.service == s.name
    {
      DerivesExactly(s, opts, dns, a, e);
      DerivesExactly(s, opts, dns, b, e);
    }
    forall i, j | 0 <= i < |a| && 0 <= j < |a| && a[i].name == a[j].name ensures a[i] == a[j] {
      DerivesExactly(s, opts, dns, a, a[i]);
      DerivesExactly(s, opts, dns, a, a[j]);
      NamesAreLossless(s, opts, dns, a[i], a[j]);
    }
    forall ev ensures ev in Each(kind, a) <==> ev in Each(kind, b) {
      EachContains(kind, a, ev);
      EachContains(kind, b, ev);
    }
  }

  lemma EachContains(kind: EventType, eps: seq<Endpoint>, ev: Event)
    ensures ev in Each(kind, eps) <==> ev.obj.EndpointObj? && ev.kind == kind && ev.obj.endpoint in eps
  {
    if ev.obj.EndpointObj? && ev.kind == kind && ev.obj.endpoint in eps {
      var i :| 0 <= i < |eps| && eps[i] == ev.obj.endpoint;
      assert Each(kind, eps)[i] == ev;
    }
  }

  /** Whatever order the addresses come in, registering a service has one outcome. */
  lemma CreateOrderFree(c: Config, r: Registry, opts: Options, s: Service,
        labels: Option<Meta>, dns: Resolver, evs1: seq<Event>, evs2: seq<Event>)
    requires CollisionFree(s, opts, dns)
    requires CreateSends(opts, s, labels, dns, evs1) && CreateSends(opts, s, labels, dns, evs2)
    ensures Replay(c, s.namespace, r, evs1) == Replay(c, s.namespace, r, evs2)
  {
    if Watched(opts, labels) && Passes(s, opts, dns) {
      var a :| Derives(s, opts, dns, a) && evs1 == CreateEvents(s.namespace, s.name, a);
      var b :| Derives(s, opts, dns, b) && evs2 == CreateEvents(s.namespace, s.name, b);
      EachSameEvents(s, opts, dns, Create, a, b);
      assert evs1 == CreateEvents(s.namespace, s.name, []) + Each(Create, a);
      assert evs2 == CreateEvents(s.namespace, s.name, []) + Each(Create, b);
      ParentsReplay(c, r, s.namespace, s.name, Each(Create, a));
      ParentsReplay(c, r, s.namespace, s.name, Each(Create, b));
      BatchOrderFree(c, s.namespace, s.name, WithParents(c, r, s.namespace, s.name), Each(Create, a), Each(Create, b));
    }
  }

  /**
   Registering a passing service, from any registry: its namespace, the service and each of its
   endpoints are registered, an endpoint with its own address, port and metadata; all else stays.
   */
  lemma CreateHandlerOutcome(c: Config, r: Registry, opts: Options, s: Service,
        labels: Option<Meta>, dns: Resolver, evs: seq<Event>)
    requires CollisionFree(s, opts, dns) && Watched(opts, labels) && Passes(s, opts, dns)
    requires CreateSends(opts, s, labels, dns, evs)
    ensures Registered(c, r, Replay(c, s.namespace, r, evs), opts, s, dns)
  {
    var eps: seq<Endpoint> :| Derives(s, opts, dns, eps) && evs == CreateEvents(s.namespace, s.name, eps);
    var r1 := WithParents(c, r, s.namespace, s.name);
    assert evs == CreateEvents(s.namespace, s.name, []) + Each(Create, eps);
    ParentsReplay(c, r, s.namespace, s.name, Each(Create, eps));
    AllCreated(c, r1, opts, s, dns, eps);
    RegisteredBelow(c, r, Replay(c, s.namespace, r, evs), opts, s, dns);
  }

  /** Once the parents are there, what is left to say concerns the endpoints. */
  lemma RegisteredBelow(c: Config, r: Registry, r': Registry, opts: Options, s: Service, dns: Resolver)
    requires EndpointsStored(c, WithParents(c, r, s.namespace, s.name), r', opts, s, dns)
    ensures Registered(c, r, r', opts, s, dns)
  {
    var ns, svc := s.namespace, s.name;
    var r1 := WithParents(c, r, ns, svc);
    ParentsDescribed(c, r, ns, svc);
    assert Lookup(r', NsKey(ns)) == Lookup(r1, NsKey(ns)) && Lookup(r', SvcKey(ns, svc)) == Lookup(r1, SvcKey(ns, svc));
    forall e | IsEndpointOf(s, opts, dns, e)
      ensures var k := EpKey(ns, svc, e.name); Describes(c, Lookup(r, k), Lookup(r', k), e)
    {
      var k := EpKey(ns, svc, e.name);
      assert Lookup(r1, k) == Lookup(r, k);
      DescribesStored(c, Lookup(r, k), Lookup(r', k), e);
    }
  }

  ghost predicate EndpointsStored(c: Config, r: Registry, r': Registry, opts: Options, s: Service, dns: Resolver) {
    && (forall e :: IsEndpointOf(s, opts, dns, e) ==>
          var k := EpKey(s.namespace, s.name, e.name); Lookup(r', k) == Some(Stored(c, Lookup(r, k), EndpointObj(e))))
    && (forall k: Key :: (k.EpKey? && k.ns == s.namespace && k.svc == s.name ==> k.ep !in EndpointNames(s, opts, dns)) ==>
          Lookup(r', k) == Lookup(r, k))
  }

  /** `r'` is `r` with the service registered. */
  ghost predicate Registered(c: Config, r: Registry, r': Registry, opts: Options, s: Service, dns: Resolver) {
    var ns, svc := s.namespace, s.name;
    && DescribesGroup(c, Lookup(r, NsKey(ns)), Lookup(r', NsKey(ns)))
    && DescribesGroup(c, Lookup(r, SvcKey(ns, svc)), Lookup(r', SvcKey(ns, svc)))
    && (forall e :: IsEndpointOf(s, opts, dns, e) ==>
          var k := EpKey(ns, svc, e.name); Describes(c, Lookup(r, k), Lookup(r', k), e))
    && (forall k: Key ::
          k != NsKey(ns) && k != SvcKey(ns, svc) && !(k.EpKey? && k.ns == ns && k.svc == svc && k.ep in EndpointNames(s, opts, dns)) ==>
            Lookup(r', k) == Lookup(r, k))
  }

  lemma ParentsDescribed(c: Config, r: Registry, ns: string, svc: string)
    ensures var r' := WithParents(c, r, ns, svc);
      && DescribesGroup(c, Lookup(r, NsKey(ns)), Lookup(r', NsKey(ns)))
      && DescribesGroup(c, Lookup(r, SvcKey(ns, svc)), Lookup(r', SvcKey(ns, svc)))
  {
    var r' := WithParents(c, r, ns, svc);
    DescribesGroupStored(c, Lookup(r, NsKey(ns)), Lookup(r', NsKey(ns)), NamespaceObj(ns));
    DescribesGroupStored(c, Lookup(r, SvcKey(ns, svc)), Lookup(r', SvcKey(ns, svc)), ServiceObj(ns, svc));
  }

  lemma AllCreated(c: Config, r: Registry, opts: Options, s: Service, dns: Resolver, eps: seq<Endpoint>)
    requires Derives(s, opts, dns, eps) && CollisionFree(s, opts, dns) && SvcKey(s.namespace, s.name) in r
    ensures EndpointsStored(c, r, Replay(c, s.namespace, r, Each(Create, eps)), opts, s, dns)
  {
    forall e | IsEndpointOf(s, opts, dns, e)
      ensures Lookup(Replay(c, s.namespace, r, Each(Create, eps)), EpKey(s.namespace, s.name, e.name)) ==
              Some(Stored(c, Lookup(r, EpKey(s.namespace, s.name, e.name)), EndpointObj(e)))
    {
      CreatedEndpoint(c, r, opts, s, dns, eps, e);
    }
    forall k: Key | k.EpKey? && k.ns == s.namespace && k.svc == s.name ==> k.ep !in EndpointNames(s, opts, dns)
      ensures Lookup(Replay(c, s.namespace, r, Each(Create, eps)), k) == Lookup(r, k)
    {
      NotCreated(c, r, opts, s, dns, eps, k);
    }
  }

  lemma CreatedEndpoint(c: Config, r: Registry, opts: Options, s: Service, dns: Resolver,
        eps: seq<Endpoint>, e: Endpoint)
    requires Derives(s, opts, dns, eps) && CollisionFree(s, opts, dns) && IsEndpointOf(s, opts, dns, e)
    requires SvcKey(s.namespace, s.name) in r
    ensures var k := EpKey(s.namespace, s.name, e.name);
      Lookup(Replay(c, s.namespace, r, Each(Create, eps)), k) == Some(Stored(c, Lookup(r, k), EndpointObj(e)))
  {
    EachSameEvents(s, opts, dns, Create, eps, eps);
    DerivesExactly(s, opts, dns, eps, e);
    var i :| 0 <= i < |eps| && eps[i] == e;
    BatchHit(c, s.namespace, s.name, r, Each(Create, eps), i);
  }

  lemma NotCreated(c: Config, r: Registry, opts: Options, s: Service, dns: Resolver,
        eps: seq<Endpoint>, k: Key)
    requires Derives(s, opts, dns, eps)
    requires k.EpKey? && k.ns == s.namespace && k.svc == s.name ==> k.ep !in EndpointNames(s, opts, dns)
    ensures Lookup(Replay(c, s.namespace, r, Each(Create, eps)), k) == Lookup(r, k)
  {
    DerivedMap(s, opts, dns, eps);
    forall i | 0 <= i < |eps| ensures eps[i].service == s.name && k != EpKey(s.namespace, s.name, eps[i].name) {
      DerivesExactly(s, opts, dns, eps, eps[i]);
      assert eps[i].name in ByName(eps);
    }
    BatchMiss(c, s.namespace, s.name, r, Each(Create, eps), k);
  }

  // ----- round trip -----

  lemma CreateThenDeleteEndpoints(c: Config, r: Registry, ns: string, svc: string,
        a: seq<Endpoint>, b: seq<Endpoint>)
    requires IsOwnedByOperator(c.persistent) && SvcKey(ns, svc) in r
    requires forall n {:trigger EpKey(ns, svc, n)} :: EpKey(ns, svc, n) !in r
    requires forall e :: e in a <==> e in b
    requires forall e: Endpoint :: e in a ==> e.service == svc
    ensures Replay(c, ns, r, Each(Create, a) + Each(Delete, b)) == r
  {
    ReplayAppend(c, ns, r, Each(Create, a), Each(Delete, b));
    var r1 := Replay(c, ns, r, Each(Create, a));
    var r2 := Replay(c, ns, r1, Each(Delete, b));
    forall k ensures Lookup(r2, k) == Lookup(r, k) {
      forall i | 0 <= i < |b| ensures b[i].service == svc {
        assert b[i] in b;
      }
      DeleteBatch(c, ns, svc, r1, b, k);
      if i :| 0 <= i < |b| && k == EpKey(ns, svc, b[i].name) {
        assert b[i] in b;
        var j :| 0 <= j < |a| && a[j] == b[i];
        CreateBatch(c, ns, svc, r, a, j);
      } else {
        forall j | 0 <= j < |a| ensures k != EpKey(ns, svc, a[j].name) {
          assert a[j] in a;
          var i :| 0 <= i < |b| && b[i] == a[j];
        }
        BatchMiss(c, ns, svc, r, Each(Create, a), k);
      }
    }
    SameLookups(r2, r);
  }

  /**
   Creating a service that is not in the registry and deleting it again, its hostnames resolving
   alike both times, restores the registry, but for the namespace which stays registered.
   */
  lemma CreateDeleteRoundTrip(c: Config, r: Registry, opts: Options, s: Service,
        labels: Option<Meta>, dns1: Resolver, dns2: Resolver, created: seq<Event>, deleted: seq<Event>)
    requires IsOwnedByOperator(c.persistent) && NoOrphans(r) && SvcKey(s.namespace, s.name) !in r
    requires Watched(opts, labels) && Passes(s, opts, dns1) && IPsOf(s, dns1) == IPsOf(s, dns2)
    requires CreateSends(opts, s, labels, dns1, created) && DeleteSends(opts, s, labels, dns2, deleted)
    ensures Replay(c, s.namespace, r, created + deleted) ==
            r[NsKey(s.namespace) := Stored(c, Lookup(r, NsKey(s.namespace)), NamespaceObj(s.namespace))]
  {
    var ns, svc := s.namespace, s.name;
    var a :| Derives(s, opts, dns1, a) && created == CreateEvents(ns, svc, a);
    var b :| Derives(s, opts, dns2, b) && deleted == DeleteEvents(ns, svc, b);
    forall e: Endpoint ensures e in a <==> e in b
             ensures e in a ==> e.service == svc
    {
      DerivesExactly(s, opts, dns1, a, e);
      DerivesExactly(s, opts, dns2, b, e);
    }
    CreateThenDelete(c, r, ns, svc, a, b);
  }

  lemma CreateThenDelete(c: Config, r: Registry, ns: string, svc: string, a: seq<Endpoint>,
        b: seq<Endpoint>)
    requires IsOwnedByOperator(c.persistent) && NoOrphans(r) && SvcKey(ns, svc) !in r
    requires forall e :: e in a <==> e in b
    requires forall e: Endpoint :: e in a ==> e.service == svc
    ensures Replay(c, ns, r, CreateEvents(ns, svc, a) + DeleteEvents(ns, svc, b)) ==
            r[NsKey(ns) := Stored(c, Lookup(r, NsKey(ns)), NamespaceObj(ns))]
  {
    var last := Event(Delete, ServiceObj(ns, svc));
    var middle := Each(Create, a) + Each(Delete, b);
    assert CreateEvents(ns, svc, a) + DeleteEvents(ns, svc, b) == CreateEvents(ns, svc, []) + (middle + [last]) by {
      CreateDeleteEvents(ns, svc, a, b);
    }
    ParentsReplay(c, r, ns, svc, middle + [last]);
    var r1 := WithParents(c, r, ns, svc);
    NothingBelow(c, r, ns, svc);
    CreateThenDeleteEndpoints(c, r1, ns, svc, a, b);
    ReplayAppend(c, ns, r1, middle, [last]);
    ReplayOne(c, ns, r1, last);
    ServiceGoesAgain(c, r, ns, svc);
  }

  lemma CreateDeleteEvents(ns: string, svc: string, a: seq<Endpoint>, b: seq<Endpoint>)
    ensures CreateEvents(ns, svc, a) + DeleteEvents(ns, svc, b) ==
            CreateEvents(ns, svc, []) + (Each(Create, a) + Each(Delete, b) + [Event(Delete, ServiceObj(ns, svc))])
  {
    assert CreateEvents(ns, svc, a) == CreateEvents(ns, svc, []) + Each(Create, a);
  }

  /** A service that was absent has no endpoints. */
  lemma NothingBelow(c: Config, r: Registry, ns: string, svc: string)
    requires NoOrphans(r) && SvcKey(ns, svc) !in r
    ensures forall n {:trigger EpKey(ns, svc, n)} :: EpKey(ns, svc, n) !in WithParents(c, r, ns, svc)
    ensures !HasChildren(WithParents(c, r, ns, svc), SvcKey(ns, svc))
  {
    forall n {:trigger EpKey(ns, svc, n)} ensures EpKey(ns, svc, n) !in r {
      assert EpKey(ns, svc, n) in r ==> HasParent(r, EpKey(ns, svc, n));
    }
    forall x | x in WithParents(c, r, ns, svc) ensures ParentOf(x) != Some(SvcKey(ns, svc)) {
      assert x.EpKey? ==> x == EpKey(x.ns, x.svc, x.ep);
    }
  }

  lemma ServiceGoesAgain(c: Config, r: Registry, ns: string, svc: string)
    requires IsOwnedByOperator(c.persistent) && SvcKey(ns, svc) !in r
    requires !HasChildren(WithParents(c, r, ns, svc), SvcKey(ns, svc))
    ensures Perform(c, ns, WithParents(c, r, ns, svc), Event(Delete, ServiceObj(ns, svc)), true) ==
            r[NsKey(ns) := Stored(c, Lookup(r, NsKey(ns)), NamespaceObj(ns))]
  {
    assert WithParents(c, r, ns, svc) - {SvcKey(ns, svc)} == r[NsKey(ns) := Stored(c, Lookup(r, NsKey(ns)), NamespaceObj(ns))];
  }
}
