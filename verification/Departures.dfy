/** Concrete inputs on which the source, as written, does not do what it is for. */
module Departures {
  import opened Types
  import opened Registry
  import opened Annotations
  import opened Naming
  import opened Services
  import opened ServiceHandlers
  import opened ServiceRuns
  import opened NamespaceHandlers
  import opened NamespaceConvergence
  import opened NamespaceEnable
  import Etcd

  const IP := "10.0.0.1"

  /** A load balancer with one annotation and one address. */
  function Web(ports: seq<int>): Service {
    Service("default", "web", LOAD_BALANCER, map["team" := "a"], [IP], [], ports, false)
  }

  /** All annotations are kept and all namespaces watched. */
  function KeepAll(digest: Digest): Options {
    Options(["*/*"], true, digest)
  }

  lemma WebPasses(digest: Digest, dns: Resolver, ports: seq<int>)
    ensures Filtered(Web(ports).annotations, KeepAll(digest).annotations) == Web(ports).annotations
    ensures Passes(Web(ports), KeepAll(digest), dns) && IPsOf(Web(ports), dns) == Some({IP})
  {
    var s, opts := Web(ports), KeepAll(digest);
    assert opts.annotations[0] == "*/*";
    assert Matches("team", opts.annotations[0]) && Kept("team", opts.annotations);
    assert "team" in Filtered(s.annotations, opts.annotations);
    assert IPsUpTo(s, dns, 0) == {IP};
  }

  /** The service's endpoints: one per port. */
  function WebEndpoints(digest: Digest, ports: seq<int>): seq<Endpoint> {
    EndpointsFor(Web(ports), Web(ports).annotations, digest, [IP], |ports|)
  }

  lemma WebDerives(digest: Digest, dns: Resolver, ports: seq<int>)
    ensures Derives(Web(ports), KeepAll(digest), dns, WebEndpoints(digest, ports))
  {
    WebPasses(digest, dns, ports);
    assert Lists([IP], {IP});
  }

  lemma WebNames(digest: Digest, dns: Resolver, ports: seq<int>)
    ensures EndpointNames(Web(ports), KeepAll(digest), dns) == set p | p in ports :: EndpointName(Web(ports), digest, IP, p)
  {
    WebPasses(digest, dns, ports);
  }

  /** A registry that holds the service with the endpoint of port 80, all the operator's. */
  function WebRegistry(owned: Meta, digest: Digest): Registry {
    map[NsKey("default") := Group(owned), SvcKey("default", "web") := Group(owned),
        EpKey("default", "web", EndpointName(Web([80]), digest, IP, 80)) := Instance(owned, IP, 80)]
  }

  /** Lists the keys of a map, in some order. */
  lemma {:induction false} SomeOrder(all: set<string>) returns (xs: seq<string>)
    ensures Lists(xs, all)
    decreases all
  {
    if all == {} {
      xs := [];
    } else {
      var x :| x in all;
      var rest := SomeOrder(all - {x});
      xs := rest + [x];
    }
  }

  /** The service gains port 81: the update handler's output leaves its new endpoint unregistered. */
  lemma UpdateMissesNewEndpoint(c: Config, digest: Digest, dns: Resolver) returns (evs: seq<Event>)
    requires IsOwnedByOperator(c.persistent) && digest(Address(IP, 80)) != digest(Address(IP, 81))
    ensures var prev, curr, opts, r := Web([80]), Web([80, 81]), KeepAll(digest), WebRegistry(c.persistent, digest);
      && UpdateSends(opts, prev, curr, Some(map[]), dns, dns, evs) && HoldsService(r, prev, opts, dns)
      && NewName(digest) in EndpointNames(curr, opts, dns)
      && EpKey("default", "web", NewName(digest)) !in Replay(c, "default", r, evs)
  {
    var r := WebRegistry(c.persistent, digest);
    evs := WebUpdate(digest, dns);
    WebUpdateSent(digest, dns, evs);
    WebHeld(c, digest, dns);
    NewNameIsNew(digest, dns);
    UpdateHandlerOutcome(c, r, KeepAll(digest), Web([80]), Web([80, 81]), dns, dns, evs);
    assert HoldsCommon(Replay(c, "default", r, evs), "default", "web",
      EndpointNames(Web([80]), KeepAll(digest), dns), EndpointNames(Web([80, 81]), KeepAll(digest), dns));
  }

  /** The name of the endpoint for port 81. */
  function NewName(digest: Digest): string {
    EndpointName(Web([80, 81]), digest, IP, 81)
  }

  lemma WebUpdateSent(digest: Digest, dns: Resolver, evs: seq<Event>)
    requires DiffSends(KeepAll(digest), Web([80]), Web([80, 81]), dns, dns, evs)
    ensures UpdateSends(KeepAll(digest), Web([80]), Web([80, 81]), Some(map[]), dns, dns, evs)
  {
    WebPasses(digest, dns, [80]);
    WebPasses(digest, dns, [80, 81]);
    assert Watched(KeepAll(digest), Some(map[]));
  }

  lemma WebHeld(c: Config, digest: Digest, dns: Resolver)
    requires IsOwnedByOperator(c.persistent)
    ensures HoldsService(WebRegistry(c.persistent, digest), Web([80]), KeepAll(digest), dns)
  {
    WebNames(digest, dns, [80]);
  }

  lemma NewNameIsNew(digest: Digest, dns: Resolver)
    requires digest(Address(IP, 80)) != digest(Address(IP, 81))
    ensures NewName(digest) in EndpointNames(Web([80, 81]), KeepAll(digest), dns)
    ensures NewName(digest) !in EndpointNames(Web([80]), KeepAll(digest), dns)
  {
    WebNames(digest, dns, [80]);
    WebNames(digest, dns, [80, 81]);
    NamesDiffer(digest);
    assert 81 in Web([80, 81]).ports;
  }

  lemma NamesDiffer(digest: Digest)
    requires digest(Address(IP, 80)) != digest(Address(IP, 81))
    ensures EndpointName(Web([80]), digest, IP, 80) != NewName(digest)
  {
    var a, b := EndpointName(Web([80]), digest, IP, 80), NewName(digest);
    assert a[4..] == digest(Address(IP, 80)) && b[4..] == digest(Address(IP, 81));
  }

  /** What the update handler may send. */
  lemma WebUpdate(digest: Digest, dns: Resolver) returns (evs: seq<Event>)
    ensures DiffSends(KeepAll(digest), Web([80]), Web([80, 81]), dns, dns, evs)
  {
    var a, b := WebEndpoints(digest, [80]), WebEndpoints(digest, [80, 81]);
    WebDerives(digest, dns, [80]);
    WebDerives(digest, dns, [80, 81]);
    var o := SomeOrder(ByName(a).Keys);
    var k := SomeOrder(ByName(b).Keys);
    evs := UpdateEvents("default", "web", o, ByName(a), k, ByName(b), ByName(b));
  }

  /** The namespace gains the watch label: the handler's output leaves the service without its endpoint. */
  lemma EnableMissesEndpoint(c: Config, digest: Digest, dns: nat -> Resolver) returns (evs: seq<Event>)
    requires IsOwnedByOperator(c.persistent)
    ensures var s, opts := Web([80]), KeepAll(digest);
      && NamespaceSends(opts, "default", Create, Some([s]), dns, evs)
      && EndpointName(s, digest, IP, 80) in EndpointNames(s, opts, dns(0))
      && SvcKey("default", "web") in Replay(c, "default", map[], evs)
      && EpKey("default", "web", EndpointName(s, digest, IP, 80)) !in Replay(c, "default", map[], evs)
  {
    evs := WebEnable(digest, dns);
    WebNames(digest, dns(0), [80]);
    assert 80 in Web([80]).ports;
    var items := EnabledItems(c, map[], KeepAll(digest), "default", [Web([80])], dns, evs);
    WebEnabled(c, digest, dns, items, Replay(c, "default", map[], evs));
  }

  /** What the namespace handler may send. */
  lemma WebEnable(digest: Digest, dns: nat -> Resolver) returns (evs: seq<Event>)
    ensures NamespaceSends(KeepAll(digest), "default", Create, Some([Web([80])]), dns, evs)
  {
    var services, item := [Web([80])], Item("web", WebEndpoints(digest, [80]));
    WebDerives(digest, dns(0), [80]);
    ItemsOfNext(KeepAll(digest), services, dns, 0, [], item);
    assert ItemsOf(KeepAll(digest), services, dns, 1, [] + [item]);
    evs := NamespaceEvents("default", Create, Delete, [] + [item]);
  }

  lemma WebEnabled(c: Config, digest: Digest, dns: nat -> Resolver, items: seq<Item>, r': Registry)
    requires forall k :: Lookup(r', k) == AfterEnable(c, map[], "default", items, k)
    requires forall svc :: ListedService(items, svc) <==> Reported(KeepAll(digest), [Web([80])], dns, 1, svc)
    ensures SvcKey("default", "web") in r' && forall ep :: EpKey("default", "web", ep) !in r'
  {
    WebPasses(digest, dns(0), [80]);
    assert [Web([80])][0].name == "web";
    assert ListedService(items, "web");
    assert Lookup(r', SvcKey("default", "web")).Some?;
    forall ep ensures EpKey("default", "web", ep) !in r' {
      assert Lookup(r', EpKey("default", "web", ep)) == None;
    }
  }

  /** One host with ports 1, 2 and 1 again: the parsed settings keep all three. */
  lemma EtcdKeepsDuplicate(host: string) returns (s: Etcd.EtcdSettings)
    requires host != ""
    ensures var one, two := Etcd.EtcdEndpoint(host, Some(1)), Etcd.EtcdEndpoint(host, Some(2));
      s.endpoints == [one, two, one] && Etcd.Parsed(s) == Etcd.Ok(s)
  {
    var addrs := [Etcd.Address(host, 1), Etcd.Address(host, 2), Etcd.Address(host, 1)];
    Etcd.DefaultedEntries(addrs);
    BackAgain(addrs[0], addrs[1]);
    s := Etcd.EtcdSettings(Etcd.AUTH_NOTHING, None, Etcd.Entries(addrs));
  }

  lemma BackAgain(a: Etcd.Address, b: Etcd.Address)
    requires a.host == b.host && a.port != b.port
    ensures Etcd.Dedup([a, b, a]) == [a, b, a]
  {
    TwoPorts(a, b);
    assert [a, b] + [a] == [a, b, a] && [a] + [b] == [a, b];
    Etcd.DedupNext([a, b], a);
    Etcd.LastPortNext([a], b, a.host);
  }

  lemma TwoPorts(a: Etcd.Address, b: Etcd.Address)
    requires a.host == b.host && a.port != b.port
    ensures Etcd.Dedup([a, b]) == [a, b]
  {
    assert [a] + [b] == [a, b] && [] + [a] == [a];
    Etcd.DedupNext([a], b);
    Etcd.LastPortNext([], a, a.host);
    Etcd.DedupNext([], a);
    assert Etcd.LastPort([], a.host) == None && Etcd.Dedup([]) == [];
  }
}
