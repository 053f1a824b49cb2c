/** What the handlers of a worker do, in the registry's own terms. */
module Meaning {
  import opened Types
  import opened Registry

  // ----- what an entry holds -----

  /**
   The metadata of an object registered with `own` metadata where `before` was stored. The persistent
   ones win over its own, and its own over those stored before, which only a merging library keeps.
   */
  ghost predicate Carries(c: Config, before: Option<Entry>, own: Meta, meta: Meta) {
    && (forall k :: k in c.persistent ==> k in meta && meta[k] == c.persistent[k])
    && (forall k :: k in own && k !in c.persistent ==> k in meta && meta[k] == own[k])
    && (forall k :: k in meta && k !in c.persistent && k !in own ==>
          c.mode.Merge? && before.Some? && k in before.value.meta && meta[k] == before.value.meta[k])
    && (c.mode.Merge? && before.Some? ==> before.value.meta.Keys <= meta.Keys)
  }

  /** `now` is endpoint `e`, registered where `before` was stored. */
  ghost predicate Describes(c: Config, before: Option<Entry>, now: Option<Entry>, e: Endpoint) {
    && now.Some? && now.value.Instance?
    && now.value.address == e.address && now.value.port == e.port
    && Carries(c, before, e.metadata, now.value.meta)
  }

  /** `now` is a namespace or a service, registered where `before` was stored. */
  ghost predicate DescribesGroup(c: Config, before: Option<Entry>, now: Option<Entry>) {
    now.Some? && now.value.Group? && Carries(c, before, map[], now.value.meta)
  }

  lemma CarriesOne(c: Config, before: Option<Entry>, own: Meta, a: Meta, b: Meta)
    requires Carries(c, before, own, a) && Carries(c, before, own, b)
    ensures a == b
  {
    forall k ensures k in a <==> k in b
             ensures k in a ==> a[k] == b[k]
    {
      assert k in a ==> k in c.persistent || k in own || (before.Some? && k in before.value.meta.Keys);
      assert k in b ==> k in c.persistent || k in own || (before.Some? && k in before.value.meta.Keys);
    }
  }

  /** That says it all: there is one such entry, the one that is stored. */
  lemma DescribesStored(c: Config, before: Option<Entry>, now: Option<Entry>, e: Endpoint)
    ensures Describes(c, before, now, e) <==> now == Some(Stored(c, before, EndpointObj(e)))
  {
    var stored := Stored(c, before, EndpointObj(e));
    assert Carries(c, before, e.metadata, stored.meta);
    if Describes(c, before, now, e) {
      CarriesOne(c, before, e.metadata, now.value.meta, stored.meta);
    }
  }

  lemma DescribesGroupStored(c: Config, before: Option<Entry>, now: Option<Entry>, obj: Object)
    requires obj.NamespaceObj? || obj.ServiceObj?
    ensures DescribesGroup(c, before, now) <==> now == Some(Stored(c, before, obj))
  {
    var stored := Stored(c, before, obj);
    assert Carries(c, before, map[], stored.meta);
    if DescribesGroup(c, before, now) {
      CarriesOne(c, before, map[], now.value.meta, stored.meta);
    }
  }

  lemma DescribedIsOwned(c: Config, before: Option<Entry>, now: Option<Entry>, e: Endpoint)
    requires IsOwnedByOperator(c.persistent) && Describes(c, before, now, e)
    ensures OwnedEntry(now)
  {
  }

  // ----- registering, when the call succeeds -----

  /**
   An endpoint whose service is there ends up with its own address and port. Its metadata have the
   persistent ones, its own under all other keys, and nothing else but what a merging library keeps.
   */
  lemma RegisterEndpointMeans(c: Config, ns: string, r: Registry, kind: EventType, e: Endpoint)
    requires kind.Create? || kind.Update?
    ensures var k := EpKey(ns, e.service, e.name); var r' := Perform(c, ns, r, Event(kind, EndpointObj(e)), true);
      && (SvcKey(ns, e.service) !in r ==> r' == r)
      && (forall other :: other != k ==> Lookup(r', other) == Lookup(r, other))
      && (SvcKey(ns, e.service) in r ==>
            && k in r' && r'[k].Instance? && r'[k].address == e.address && r'[k].port == e.port
            && (forall key :: key in c.persistent ==> key in r'[k].meta && r'[k].meta[key] == c.persistent[key])
            && (forall key :: key in e.metadata && key !in c.persistent ==> key in r'[k].meta && r'[k].meta[key] == e.metadata[key])
            && (forall key :: key in r'[k].meta && key !in c.persistent && key !in e.metadata ==>
                  c.mode == Merge && k in r && key in r[k].meta && r'[k].meta[key] == r[k].meta[key])
            && (forall key :: c.mode == Merge && k in r && key in r[k].meta ==> key in r'[k].meta))
  {
  }

  /** A service whose namespace is there ends up with the persistent metadata. */
  lemma RegisterServiceMeans(c: Config, ns: string, r: Registry, kind: EventType, namespace: string, svc: string)
    requires kind.Create? || kind.Update?
    ensures var k := SvcKey(ns, svc); var r' := Perform(c, ns, r, Event(kind, ServiceObj(namespace, svc)), true);
      && (NsKey(ns) !in r ==> r' == r)
      && (forall other :: other != k ==> Lookup(r', other) == Lookup(r, other))
      && (NsKey(ns) in r ==>
            && k in r' && r'[k].Group?
            && (forall key :: key in c.persistent ==> key in r'[k].meta && r'[k].meta[key] == c.persistent[key])
            && (forall key :: key in r'[k].meta && key !in c.persistent ==>
                  c.mode == Merge && k in r && key in r[k].meta && r'[k].meta[key] == r[k].meta[key])
            && (forall key :: c.mode == Merge && k in r && key in r[k].meta ==> key in r'[k].meta))
  {
  }

  /** So does a namespace. */
  lemma RegisterNamespaceMeans(c: Config, ns: string, r: Registry, kind: EventType, name: string)
    requires kind.Create? || kind.Update?
    ensures var k := NsKey(ns); var r' := Perform(c, ns, r, Event(kind, NamespaceObj(name)), true);
      && (forall other :: other != k ==> Lookup(r', other) == Lookup(r, other))
      && k in r' && r'[k].Group?
      && (forall key :: key in c.persistent ==> key in r'[k].meta && r'[k].meta[key] == c.persistent[key])
      && (forall key :: key in r'[k].meta && key !in c.persistent ==>
            c.mode == Merge && k in r && key in r[k].meta && r'[k].meta[key] == r[k].meta[key])
      && (forall key :: c.mode == Merge && k in r && key in r[k].meta ==> key in r'[k].meta)
  {
  }

  /** The same, in short. */
  lemma RegisterDescribes(c: Config, ns: string, r: Registry, ev: Event)
    requires !ev.kind.Delete?
    ensures var r' := Perform(c, ns, r, ev, true);
      match ev.obj
      case NamespaceObj(_) => DescribesGroup(c, Lookup(r, NsKey(ns)), Lookup(r', NsKey(ns)))
      case ServiceObj(_, svc) =>
        NsKey(ns) in r ==> DescribesGroup(c, Lookup(r, SvcKey(ns, svc)), Lookup(r', SvcKey(ns, svc)))
      case EndpointObj(e) =>
        SvcKey(ns, e.service) in r ==>
          Describes(c, Lookup(r, EpKey(ns, e.service, e.name)), Lookup(r', EpKey(ns, e.service, e.name)), e)
      case UnknownObj => r' == r
  {
    match ev.obj
    case NamespaceObj(_) =>
      DescribesGroupStored(c, Lookup(r, NsKey(ns)), Some(Stored(c, Lookup(r, NsKey(ns)), ev.obj)), ev.obj);
    case ServiceObj(_, svc) =>
      var before := Lookup(r, SvcKey(ns, svc));
      DescribesGroupStored(c, before, Some(Stored(c, before, ev.obj)), ev.obj);
    case EndpointObj(e) =>
      var before := Lookup(r, EpKey(ns, e.service, e.name));
      DescribesStored(c, before, Some(Stored(c, before, ev.obj)), e);
    case UnknownObj =>
  }

  // ----- deleting, when all calls succeed -----

  /** An endpoint goes iff its owner is the operator; nothing else changes. */
  lemma DeleteEndpointMeans(c: Config, ns: string, r: Registry, e: Endpoint)
    ensures var k := EpKey(ns, e.service, e.name); var r' := Perform(c, ns, r, Event(Delete, EndpointObj(e)), true);
      && (forall other :: other != k ==> Lookup(r', other) == Lookup(r, other))
      && (k in r' ==> k in r && r'[k] == r[k])
      && (k in r ==> (k !in r' <==> "owner" in r[k].meta && r[k].meta["owner"] == "cnwan-operator"))
  {
  }

  /** A service goes iff its owner is the operator and it has no endpoint. */
  lemma DeleteServiceMeans(c: Config, ns: string, r: Registry, namespace: string, svc: string)
    ensures var k := SvcKey(ns, svc); var r' := Perform(c, ns, r, Event(Delete, ServiceObj(namespace, svc)), true);
      && (forall other :: other != k ==> Lookup(r', other) == Lookup(r, other))
      && (k in r' ==> k in r && r'[k] == r[k])
      && (k in r ==> (k !in r' <==>
            && "owner" in r[k].meta && r[k].meta["owner"] == "cnwan-operator"
            && forall ep {:trigger EpKey(ns, svc, ep)} :: EpKey(ns, svc, ep) !in r))
  {
    ChildrenOfService(r, ns, svc);
  }

  /** A namespace goes iff its owner is the operator and it has no service. */
  lemma DeleteNamespaceMeans(c: Config, ns: string, r: Registry, name: string)
    ensures var k := NsKey(ns); var r' := Perform(c, ns, r, Event(Delete, NamespaceObj(name)), true);
      && (forall other :: other != k ==> Lookup(r', other) == Lookup(r, other))
      && (k in r' ==> k in r && r'[k] == r[k])
      && (k in r ==> (k !in r' <==>
            && "owner" in r[k].meta && r[k].meta["owner"] == "cnwan-operator"
            && forall svc {:trigger SvcKey(ns, svc)} :: SvcKey(ns, svc) !in r))
  {
    ChildrenOfNamespace(r, ns);
  }

  lemma ChildrenOfService(r: Registry, ns: string, svc: string)
    ensures HasChildren(r, SvcKey(ns, svc)) <==> exists ep {:trigger EpKey(ns, svc, ep)} :: EpKey(ns, svc, ep) in r
  {
    if x :| x in r && ParentOf(x) == Some(SvcKey(ns, svc)) {
      assert x == EpKey(ns, svc, x.ep);
    }
    if ep :| EpKey(ns, svc, ep) in r {
      assert ParentOf(EpKey(ns, svc, ep)) == Some(SvcKey(ns, svc));
    }
  }

  lemma ChildrenOfNamespace(r: Registry, ns: string)
    ensures HasChildren(r, NsKey(ns)) <==> exists svc {:trigger SvcKey(ns, svc)} :: SvcKey(ns, svc) in r
  {
    if x :| x in r && ParentOf(x) == Some(NsKey(ns)) {
      assert x == SvcKey(ns, x.svc);
    }
    if svc :| SvcKey(ns, svc) in r {
      assert ParentOf(SvcKey(ns, svc)) == Some(NsKey(ns));
    }
  }

  /** No orphans: each endpoint's service and each service's namespace are there. */
  lemma NoOrphansMeans(r: Registry)
    ensures NoOrphans(r) <==>
      && (forall ns, svc, ep {:trigger EpKey(ns, svc, ep)} :: EpKey(ns, svc, ep) in r ==> SvcKey(ns, svc) in r)
      && (forall ns, svc {:trigger SvcKey(ns, svc)} :: SvcKey(ns, svc) in r ==> NsKey(ns) in r)
  {
    if NoOrphans(r) {
      forall ns, svc, ep {:trigger EpKey(ns, svc, ep)} | EpKey(ns, svc, ep) in r ensures SvcKey(ns, svc) in r {
        assert HasParent(r, EpKey(ns, svc, ep));
      }
      forall ns, svc {:trigger SvcKey(ns, svc)} | SvcKey(ns, svc) in r ensures NsKey(ns) in r {
        assert HasParent(r, SvcKey(ns, svc));
      }
    } else {
      var k :| k in r && !HasParent(r, k);
      assert k.EpKey? ==> k == EpKey(k.ns, k.svc, k.ep);
      assert k.SvcKey? ==> k == SvcKey(k.ns, k.svc);
    }
  }
}
