/** Events for one service do not disturb another: what a service comes to depends on its own events. */
module Locality {
  import opened Types
  import opened Registry

  /** `all` is an interleaving of `a` and `b`, each in its order. */
  ghost predicate IsMerge(all: seq<Event>, a: seq<Event>, b: seq<Event>) {
    if all == [] then a == [] && b == []
    else
      var before, last := all[..|all| - 1], all[|all| - 1];
      || (a != [] && a[|a| - 1] == last && IsMerge(before, a[..|a| - 1], b))
      || (b != [] && b[|b| - 1] == last && IsMerge(before, a, b[..|b| - 1]))
  }

  predicate DeletesNamespace(ev: Event) {
    ev.kind.Delete? && ev.obj.NamespaceObj?
  }

  /** The event is not for `svc`, and does not remove its namespace. */
  predicate Elsewhere(svc: string, ev: Event) {
    && !DeletesNamespace(ev)
    && (ev.obj.ServiceObj? ==> ev.obj.name != svc)
    && (ev.obj.EndpointObj? ==> ev.obj.endpoint.service != svc)
  }

  lemma KeepsNamespace(c: Config, ns: string, r: Registry, ev: Event)
    requires !DeletesNamespace(ev) && NsKey(ns) in r
    ensures NsKey(ns) in Perform(c, ns, r, ev, true)
  {
  }

  lemma ElsewhereKeeps(c: Config, ns: string, svc: string, r: Registry, ev: Event)
    requires Elsewhere(svc, ev)
    ensures SameService(r, Perform(c, ns, r, ev, true), ns, svc)
  {
    forall k: Key | !k.NsKey? && k.ns == ns && k.svc == svc ensures Lookup(r, k) == Lookup(Perform(c, ns, r, ev, true), k) {
      PerformFrame(c, ns, r, ev, true, k);
    }
  }

  /** An event has the same effect on a service in registries that agree on it. */
  lemma OwnStep(c: Config, ns: string, svc: string, a: Registry, b: Registry, ev: Event)
    requires SameService(a, b, ns, svc) && NsKey(ns) in a && NsKey(ns) in b
    ensures SameService(Perform(c, ns, a, ev, true), Perform(c, ns, b, ev, true), ns, svc)
  {
    if !ev.obj.UnknownObj? {
      var t := Target(ns, ev.obj);
      SameChildren(a, b, ns, svc);
      assert Lookup(a, SvcKey(ns, svc)) == Lookup(b, SvcKey(ns, svc));
      forall k: Key | !k.NsKey? && k.ns == ns && k.svc == svc
        ensures Lookup(Perform(c, ns, a, ev, true), k) == Lookup(Perform(c, ns, b, ev, true), k)
      {
        if k == t {
          assert HasParent(a, k) == HasParent(b, k);
        } else {
          PerformFrame(c, ns, a, ev, true, k);
          PerformFrame(c, ns, b, ev, true, k);
        }
      }
    }
  }

  lemma SameChildren(a: Registry, b: Registry, ns: string, svc: string)
    requires SameService(a, b, ns, svc)
    ensures HasChildren(a, SvcKey(ns, svc)) == HasChildren(b, SvcKey(ns, svc))
  {
    if x :| x in a && ParentOf(x) == Some(SvcKey(ns, svc)) {
      assert Lookup(a, x) == Lookup(b, x);
    }
    if x :| x in b && ParentOf(x) == Some(SvcKey(ns, svc)) {
      assert Lookup(a, x) == Lookup(b, x);
    }
  }

  /**
   However the events of a service are interleaved with events for other services, or that register
   the namespace, they do to the service what they do alone. The namespace has to be there, or to
   be registered first.
   */
  lemma {:induction false} ServiceLocality(c: Config, ns: string, svc: string, r: Registry,
        all: seq<Event>, own: seq<Event>, others: seq<Event>)
    requires IsMerge(all, own, others)
    requires forall i :: 0 <= i < |others| ==> Elsewhere(svc, others[i])
    requires forall i :: 0 <= i < |own| ==> !DeletesNamespace(own[i])
    requires NsKey(ns) in r || (own != [] ==> own[0].kind.Create? && own[0].obj.NamespaceObj?)
    ensures SameService(Replay(c, ns, r, own), Replay(c, ns, r, all), ns, svc)
    ensures own != [] || NsKey(ns) in r ==> NsKey(ns) in Replay(c, ns, r, own) && NsKey(ns) in Replay(c, ns, r, all)
  {
    if all != [] {
      var before, last := all[..|all| - 1], all[|all| - 1];
      if own != [] && own[|own| - 1] == last && IsMerge(before, own[..|own| - 1], others) {
        var own' := own[..|own| - 1];
        ServiceLocality(c, ns, svc, r, before, own', others);
        var ra, rb := Replay(c, ns, r, own'), Replay(c, ns, r, before);
        if own' == [] && NsKey(ns) !in r {
          assert last == own[0];
          NamespaceFirst(c, ns, svc, ra, rb, last);
        } else {
          OwnStep(c, ns, svc, ra, rb, last);
          KeepsNamespace(c, ns, ra, last);
          KeepsNamespace(c, ns, rb, last);
        }
      } else {
        var others' := others[..|others| - 1];
        ServiceLocality(c, ns, svc, r, before, own, others');
        ElsewhereKeeps(c, ns, svc, Replay(c, ns, r, before), last);
        if own != [] || NsKey(ns) in r {
          KeepsNamespace(c, ns, Replay(c, ns, r, before), last);
        }
      }
    }
  }

  /** Registering the namespace leaves the service alone. */
  lemma NamespaceFirst(c: Config, ns: string, svc: string, a: Registry, b: Registry, ev: Event)
    requires SameService(a, b, ns, svc) && ev.kind.Create? && ev.obj.NamespaceObj?
    ensures var a', b' := Perform(c, ns, a, ev, true), Perform(c, ns, b, ev, true);
      SameService(a', b', ns, svc) && NsKey(ns) in a' && NsKey(ns) in b'
  {
  }
}
