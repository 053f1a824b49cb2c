/** From a Kubernetes service to the endpoints to register for it. */
module Services {
  import opened Types
  import opened Annotations
  import opened Naming

  /** A load balancer's ingress point; either field may be empty. */
  datatype Ingress = Ingress(ip: string, hostname: string)

  datatype Service = Service(
    namespace: string, name: string, serviceType: string, annotations: Meta,
    externalIPs: seq<string>, ingress: seq<Ingress>, ports: seq<int>, deleting: bool)

  const LOAD_BALANCER := "LoadBalancer"

  const WATCH_LABEL := "operator.cnwan.io/watch"
  const WATCH_ENABLED := "enabled"
  const WATCH_DISABLED := "disabled"

  /** What looking up the hostname of the i-th ingress point gives, after all attempts. */
  type Resolver = (nat, string) -> Option<seq<string>>

  /** The ten hexadecimal digits kept of a hash. */
  type Digest = string -> string

  /** What the controllers are configured with. */
  datatype Options = Options(annotations: seq<string>, watchByDefault: bool, digest: Digest)

  function CheckNsLabels(labels: Meta, watchAllByDefault: bool): bool {
    var watch := if WATCH_LABEL in labels then labels[WATCH_LABEL] else "";
    if watch == WATCH_ENABLED then true
    else if watch == WATCH_DISABLED then false
    else watchAllByDefault
  }

  /** The label decides; without it, or with any other value, the setting does. */
  lemma CheckNsLabelsMeans(labels: Meta, watchAllByDefault: bool)
    ensures CheckNsLabels(labels, watchAllByDefault) <==>
      || ("operator.cnwan.io/watch" in labels && labels["operator.cnwan.io/watch"] == "enabled")
      || (watchAllByDefault && ("operator.cnwan.io/watch" !in labels || labels["operator.cnwan.io/watch"] != "disabled"))
  {
  }

  /** `xs` lists the elements of `all`, each once, in some order. */
  ghost predicate Lists(xs: seq<string>, all: set<string>) {
    (forall x :: x in xs <==> x in all) && (forall i, j :: 0 <= i < j < |xs| ==> xs[i] != xs[j])
  }

  // ----- addresses -----

  ghost predicate Unresolved(s: Service, dns: Resolver, i: nat)
    requires i < |s.ingress|
  {
    s.ingress[i].hostname != "" && dns(i, s.ingress[i].hostname).None?
  }

  function IngressIPs(ing: Ingress, resolved: Option<seq<string>>): set<string> {
    (if ing.ip != "" then {ing.ip} else {}) +
    (if ing.hostname != "" && resolved.Some? then set ip | ip in resolved.value else {})
  }

  /** The addresses given by the external IPs and the first `n` ingress points. */
  function IPsUpTo(s: Service, dns: Resolver, n: nat): set<string>
    requires n <= |s.ingress|
  {
    if n == 0 then set ip | ip in s.externalIPs
    else IPsUpTo(s, dns, n - 1) + IngressIPs(s.ingress[n - 1], dns(n - 1, s.ingress[n - 1].hostname))
  }

  /** All addresses of a service; None when a hostname could not be resolved. */
  ghost function IPsOf(s: Service, dns: Resolver): Option<set<string>> {
    if exists i: nat :: i < |s.ingress| && Unresolved(s, dns, i) then None
    else Some(IPsUpTo(s, dns, |s.ingress|))
  }

  /** `ip` is the i-th ingress point's address, or among the answers for its hostname. */
  ghost predicate FromIngress(s: Service, dns: Resolver, i: nat, ip: string)
    requires i < |s.ingress|
  {
    var ing := s.ingress[i];
    || (ing.ip != "" && ip == ing.ip)
    || (ing.hostname != "" && dns(i, ing.hostname).Some? && ip in dns(i, ing.hostname).value)
  }

  ghost predicate HasAddress(s: Service, dns: Resolver, ip: string) {
    ip in s.externalIPs || exists i: nat :: i < |s.ingress| && FromIngress(s, dns, i, ip)
  }

  /** An address is external, an ingress address, or the answer for an ingress hostname. */
  lemma {:induction false} IPsUpToContains(s: Service, dns: Resolver, n: nat, ip: string)
    requires n <= |s.ingress|
    ensures ip in IPsUpTo(s, dns, n) <==> ip in s.externalIPs || exists i: nat :: i < n && FromIngress(s, dns, i, ip)
  {
    if n > 0 {
      IPsUpToContains(s, dns, n - 1, ip);
      assert ip in IngressIPs(s.ingress[n - 1], dns(n - 1, s.ingress[n - 1].hostname)) <==> FromIngress(s, dns, n - 1, ip);
      if i: nat :| i < n && FromIngress(s, dns, i, ip) {
        assert i < n - 1 || i == n - 1;
      }
    }
  }

  lemma IngressMeans(s: Service, dns: Resolver, ip: string)
    ensures HasAddress(s, dns, ip) <==>
      || ip in s.externalIPs
      || (exists i: nat :: i < |s.ingress| && s.ingress[i].ip == ip != "")
      || (exists i: nat :: i < |s.ingress| && s.ingress[i].hostname != "" &&
            dns(i, s.ingress[i].hostname).Some? && ip in dns(i, s.ingress[i].hostname).value)
  {
    if i: nat :| i < |s.ingress| && s.ingress[i].ip == ip != "" {
      assert FromIngress(s, dns, i, ip);
    }
    if i: nat :| i < |s.ingress| && s.ingress[i].hostname != "" && dns(i, s.ingress[i].hostname).Some? && ip in dns(i, s.ingress[i].hostname).value {
      assert FromIngress(s, dns, i, ip);
    }
  }

  /** There is no result iff some ingress hostname does not resolve. */
  lemma IPsOfMeans(s: Service, dns: Resolver)
    ensures IPsOf(s, dns).None? <==>
      exists i: nat :: i < |s.ingress| && s.ingress[i].hostname != "" && dns(i, s.ingress[i].hostname).None?
    ensures IPsOf(s, dns).Some? ==> forall ip :: ip in IPsOf(s, dns).value <==> HasAddress(s, dns, ip)
  {
    if i: nat :| i < |s.ingress| && s.ingress[i].hostname != "" && dns(i, s.ingress[i].hostname).None? {
      assert Unresolved(s, dns, i);
    }
    forall ip
      ensures ip in IPsUpTo(s, dns, |s.ingress|) <==> HasAddress(s, dns, ip)
    {
      IPsUpToContains(s, dns, |s.ingress|, ip);
    }
  }

  /** The same, spelled out. */
  lemma AddressesMean(s: Service, dns: Resolver)
    ensures IPsOf(s, dns).None? <==>
      exists i: nat :: i < |s.ingress| && s.ingress[i].hostname != "" && dns(i, s.ingress[i].hostname).None?
    ensures IPsOf(s, dns).Some? ==> forall ip :: ip in IPsOf(s, dns).value <==>
      || ip in s.externalIPs
      || (exists i: nat :: i < |s.ingress| && s.ingress[i].ip == ip != "")
      || (exists i: nat :: i < |s.ingress| && s.ingress[i].hostname != "" &&
            dns(i, s.ingress[i].hostname).Some? && ip in dns(i, s.ingress[i].hostname).value)
  {
    IPsOfMeans(s, dns);
    if IPsOf(s, dns).Some? {
      forall ip
        ensures ip in IPsOf(s, dns).value <==>
          || ip in s.externalIPs
          || (exists i: nat :: i < |s.ingress| && s.ingress[i].ip == ip != "")
          || (exists i: nat :: i < |s.ingress| && s.ingress[i].hostname != "" &&
                dns(i, s.ingress[i].hostname).Some? && ip in dns(i, s.ingress[i].hostname).value)
      {
        IngressMeans(s, dns, ip);
      }
    }
  }

  /** Lists a set in whatever order the map iteration gives. */
  method KeysInSomeOrder(all: set<string>) returns (xs: seq<string>)
    ensures Lists(xs, all)
  {
    xs := [];
    var rest := all;
    while rest != {}
      invariant rest <= all && Lists(xs, all - rest)
      decreases rest
    {
      var x :| x in rest;
      rest := rest - {x};
      xs := xs + [x];
    }
  }

  method GetIPsFromService(service: Service, dns: Resolver) returns (ips: seq<string>, err: bool)
    ensures err <==>
      exists i: nat :: i < |service.ingress| && service.ingress[i].hostname != "" && dns(i, service.ingress[i].hostname).None?
    ensures err ==> ips == []
    ensures !err ==>
      forall ip :: ip in ips <==>
        || ip in service.externalIPs
        || (exists i: nat :: i < |service.ingress| && service.ingress[i].ip == ip != "")
        || (exists i: nat :: i < |service.ingress| && service.ingress[i].hostname != "" &&
              dns(i, service.ingress[i].hostname).Some? && ip in dns(i, service.ingress[i].hostname).value)
    ensures forall i, j :: 0 <= i < j < |ips| ==> ips[i] != ips[j]
    ensures err <==> IPsOf(service, dns).None?
    ensures !err ==> Lists(ips, IPsOf(service, dns).value)
  {
    var known;
    known, err := CollectIPs(service, dns);
    ips := [];
    if !err {
      ips := KeysInSomeOrder(known);
    }
    AddressesMean(service, dns);
  }

  /** The loops over external addresses and ingress points. */
  method CollectIPs(service: Service, dns: Resolver) returns (ipsMap: set<string>, err: bool)
    ensures err <==> IPsOf(service, dns).None?
    ensures !err ==> ipsMap == IPsOf(service, dns).value
  {
    ipsMap, err := {}, false;
    for i := 0 to |service.externalIPs|
      invariant ipsMap == set ip | ip in service.externalIPs[..i]
    {
      ipsMap := ipsMap + {service.externalIPs[i]};
    }
    assert service.externalIPs[..|service.externalIPs|] == service.externalIPs;
    for i := 0 to |service.ingress|
      invariant ipsMap == IPsUpTo(service, dns, i)
      invariant forall j: nat :: j < i ==> !Unresolved(service, dns, j)
    {
      var ing := service.ingress[i];
      if ing.ip != "" {
        ipsMap := ipsMap + {ing.ip};
      }
      if ing.hostname != "" {
        var resolvedIPs := dns(i, ing.hostname);
        if resolvedIPs.None? {
          assert Unresolved(service, dns, i);
          return {}, true;
        }
        ghost var before := ipsMap;
        for j := 0 to |resolvedIPs.value|
          invariant ipsMap == before + set ip | ip in resolvedIPs.value[..j]
        {
          ipsMap := ipsMap + {resolvedIPs.value[j]};
        }
        assert resolvedIPs.value[..|resolvedIPs.value|] == resolvedIPs.value;
      }
    }
  }

  // ----- endpoints -----

  function EndpointName(s: Service, digest: Digest, ip: string, port: int): string {
    s.name + "-" + digest(Address(ip, port))
  }

  function MakeEndpoint(s: Service, kept: Meta, digest: Digest, ip: string, port: int): Endpoint {
    Endpoint(s.namespace, s.name, EndpointName(s, digest, ip, port), ip, port, kept)
  }

  /** One endpoint per address for each of the first `n` ports, port after port. */
  function EndpointsFor(s: Service, kept: Meta, digest: Digest, ips: seq<string>, n: nat): seq<Endpoint>
    requires n <= |s.ports|
  {
    if n == 0 then []
    else
      EndpointsFor(s, kept, digest, ips, n - 1) +
      seq(|ips|, i requires 0 <= i < |ips| => MakeEndpoint(s, kept, digest, ips[i], s.ports[n - 1]))
  }

  ghost predicate Passes(s: Service, opts: Options, dns: Resolver) {
    && s.serviceType == LOAD_BALANCER
    && Filtered(s.annotations, opts.annotations) != map[]
    && IPsOf(s, dns).Some? && IPsOf(s, dns).value != {}
  }

  /** `eps` are the endpoints of a passing service, for some order of its addresses. */
  ghost predicate Derives(s: Service, opts: Options, dns: Resolver, eps: seq<Endpoint>) {
    && Passes(s, opts, dns)
    && exists ips ::
         && Lists(ips, IPsOf(s, dns).value)
         && eps == EndpointsFor(s, Filtered(s.annotations, opts.annotations), opts.digest, ips, |s.ports|)
  }

  /** The endpoints of a service, as a set: ports times distinct addresses. */
  ghost predicate IsEndpointOf(s: Service, opts: Options, dns: Resolver, e: Endpoint) {
    && Passes(s, opts, dns)
    && exists ip, port ::
         && ip in IPsOf(s, dns).value && port in s.ports
         && e == MakeEndpoint(s, Filtered(s.annotations, opts.annotations), opts.digest, ip, port)
  }

  /** An endpoint, field by field. */
  lemma IsEndpointOfMeans(s: Service, opts: Options, dns: Resolver, e: Endpoint)
    ensures IsEndpointOf(s, opts, dns, e) <==>
      && Passes(s, opts, dns)
      && e.namespace == s.namespace && e.service == s.name
      && e.name == s.name + "-" + opts.digest(e.address + ":" + Decimal(e.port))
      && HasAddress(s, dns, e.address)
      && e.port in s.ports
      && (forall k :: k in e.metadata <==> k in s.annotations && Kept(k, opts.annotations))
      && (forall k :: k in e.metadata && k in s.annotations ==> e.metadata[k] == s.annotations[k])
  {
    IPsOfMeans(s, dns);
    var kept := Filtered(s.annotations, opts.annotations);
    if && (forall k :: k in e.metadata <==> k in s.annotations && Kept(k, opts.annotations))
       && (forall k :: k in e.metadata && k in s.annotations ==> e.metadata[k] == s.annotations[k])
    {
      assert e.metadata == kept;
    }
    if Passes(s, opts, dns) {
      assert e == MakeEndpoint(s, kept, opts.digest, e.address, e.port) <==>
        && e.namespace == s.namespace && e.service == s.name && e.metadata == kept
        && e.name == EndpointName(s, opts.digest, e.address, e.port);
    }
  }

  /** A load balancer with an annotation that is kept, whose ingress hostnames resolve, and an address. */
  lemma PassesMeans(s: Service, opts: Options, dns: Resolver)
    ensures Passes(s, opts, dns) <==>
      && s.serviceType == "LoadBalancer"
      && (exists k :: k in s.annotations && Kept(k, opts.annotations))
      && (forall i: nat :: i < |s.ingress| && s.ingress[i].hostname != "" ==> dns(i, s.ingress[i].hostname).Some?)
      && (exists ip :: HasAddress(s, dns, ip))
  {
    SomeKept(s.annotations, opts.annotations);
    AllResolve(s, dns);
    if IPsOf(s, dns).Some? {
      SomeAddress(s, dns);
    }
  }

  lemma SomeKept(annotations: Meta, filter: seq<string>)
    ensures Filtered(annotations, filter) != map[] <==> exists k :: k in annotations && Kept(k, filter)
  {
    if k :| k in annotations && Kept(k, filter) {
      assert k in Filtered(annotations, filter);
    }
    if Filtered(annotations, filter) != map[] {
      var k :| k in Filtered(annotations, filter);
    }
  }

  lemma AllResolve(s: Service, dns: Resolver)
    ensures IPsOf(s, dns).Some? <==>
      forall i: nat :: i < |s.ingress| && s.ingress[i].hostname != "" ==> dns(i, s.ingress[i].hostname).Some?
  {
    IPsOfMeans(s, dns);
    if IPsOf(s, dns).Some? {
      forall i: nat | i < |s.ingress| && s.ingress[i].hostname != "" ensures dns(i, s.ingress[i].hostname).Some? {
        assert !(dns(i, s.ingress[i].hostname).None?);
      }
    }
  }

  lemma SomeAddress(s: Service, dns: Resolver)
    requires IPsOf(s, dns).Some?
    ensures IPsOf(s, dns).value != {} <==>
      exists ip :: HasAddress(s, dns, ip)
  {
    IPsOfMeans(s, dns);
    if ip :| HasAddress(s, dns, ip) {
      assert ip in IPsOf(s, dns).value;
    }
    if IPsOf(s, dns).value != {} {
      var ip :| ip in IPsOf(s, dns).value;
      assert HasAddress(s, dns, ip);
    }
  }

  /** The names of a service's endpoints. */
  ghost function EndpointNames(s: Service, opts: Options, dns: Resolver): set<string> {
    if Passes(s, opts, dns) then
      set ip, port | ip in IPsOf(s, dns).value && port in s.ports :: EndpointName(s, opts.digest, ip, port)
    else {}
  }

  datatype CheckServiceResult = CheckServiceResult(passed: bool, reason: string, err: bool, endpoints: seq<Endpoint>)

  method CheckService(service: Service, opts: Options, dns: Resolver) returns (result: CheckServiceResult)
    ensures result.passed <==> Passes(service, opts, dns)
    ensures if result.passed then Derives(service, opts, dns, result.endpoints) else result.endpoints == []
    ensures result.err <==>
      && service.serviceType == LOAD_BALANCER
      && Filtered(service.annotations, opts.annotations) != map[]
      && IPsOf(service, dns).None?
  {
    if service.serviceType != LOAD_BALANCER {
      return CheckServiceResult(false, "not a LoadBalancer", false, []);
    }
    var annotations := FilterAnnotations(service.annotations, opts.annotations);
    if |annotations| == 0 {
      return CheckServiceResult(false, "no valid annotations", false, []);
    }
    var ips, err := GetIPsFromService(service, dns);
    if |ips| == 0 {
      assert !err ==> forall ip :: ip in IPsOf(service, dns).value ==> ip in ips;
      return CheckServiceResult(false, "no valid hostnames/ips found", err, []);
    }
    assert ips[0] in IPsOf(service, dns).value;
    var endpoints := DeriveEndpoints(service, annotations, opts.digest, ips);
    result := CheckServiceResult(true, "", false, endpoints);
  }

  /** The loops over ports and addresses. */
  method DeriveEndpoints(service: Service, annotations: Meta, digest: Digest, ips: seq<string>)
    returns (endpoints: seq<Endpoint>)
    ensures endpoints == EndpointsFor(service, annotations, digest, ips, |service.ports|)
  {
    endpoints := [];
    for p := 0 to |service.ports|
      invariant endpoints == EndpointsFor(service, annotations, digest, ips, p)
    {
      ghost var before := endpoints;
      for i := 0 to |ips|
        invariant endpoints == before +
          seq(i, j requires 0 <= j < i => MakeEndpoint(service, annotations, digest, ips[j], service.ports[p]))
      {
        endpoints := endpoints + [MakeEndpoint(service, annotations, digest, ips[i], service.ports[p])];
      }
    }
  }

  lemma {:induction false} EndpointsForContain(s: Service, kept: Meta, digest: Digest, ips: seq<string>,
        n: nat, e: Endpoint)
    requires n <= |s.ports|
    ensures e in EndpointsFor(s, kept, digest, ips, n) <==>
      exists ip, port :: ip in ips && port in s.ports[..n] && e == MakeEndpoint(s, kept, digest, ip, port)
  {
    if n > 0 {
      EndpointsForContain(s, kept, digest, ips, n - 1, e);
      var last := seq(|ips|, i requires 0 <= i < |ips| => MakeEndpoint(s, kept, digest, ips[i], s.ports[n - 1]));
      assert EndpointsFor(s, kept, digest, ips, n) == EndpointsFor(s, kept, digest, ips, n - 1) + last;
      assert s.ports[..n] == s.ports[..n - 1] + [s.ports[n - 1]];
      if e in last {
        var i :| 0 <= i < |last| && last[i] == e;
        assert ips[i] in ips && s.ports[n - 1] in s.ports[..n];
      }
      if ip, port :| ip in ips && port in s.ports[..n] && e == MakeEndpoint(s, kept, digest, ip, port) {
        if port !in s.ports[..n - 1] {
          var i :| 0 <= i < |ips| && ips[i] == ip;
          assert last[i] == e;
        }
      }
    }
  }

  /** Whatever order the addresses came in, the endpoints are the same set. */
  lemma DerivesExactly(s: Service, opts: Options, dns: Resolver, eps: seq<Endpoint>, e: Endpoint)
    requires Derives(s, opts, dns, eps)
    ensures e in eps <==> IsEndpointOf(s, opts, dns, e)
    ensures e in eps ==> e.namespace == s.namespace && e.service == s.name
  {
    var kept := Filtered(s.annotations, opts.annotations);
    var ips :| Lists(ips, IPsOf(s, dns).value) && eps == EndpointsFor(s, kept, opts.digest, ips, |s.ports|);
    assert s.ports[..|s.ports|] == s.ports;
    EndpointsForContain(s, kept, opts.digest, ips, |s.ports|, e);
  }

  // ----- by name -----

  type Endpoints = map<string, Endpoint>

  /** The map built by storing each endpoint under its name: the last of a name wins. */
  function ByName(eps: seq<Endpoint>): (m: Endpoints)
    ensures forall n :: n in m ==> m[n].name == n
    ensures forall e :: e in eps ==> e.name in m
  {
    if eps == [] then map[]
    else ByName(eps[..|eps| - 1])[eps[|eps| - 1].name := eps[|eps| - 1]]
  }

  /** Under each name stands the last endpoint of that name. */
  lemma {:induction false} LastOfNameWins(eps: seq<Endpoint>, i: nat)
    requires i < |eps| && forall j :: i < j < |eps| ==> eps[j].name != eps[i].name
    ensures eps[i].name in ByName(eps) && ByName(eps)[eps[i].name] == eps[i]
  {
    if i < |eps| - 1 {
      LastOfNameWins(eps[..|eps| - 1], i);
    }
  }

  lemma {:induction false} ByNameIn(eps: seq<Endpoint>, n: string)
    requires n in ByName(eps)
    ensures ByName(eps)[n] in eps
  {
    if eps[|eps| - 1].name != n {
      ByNameIn(eps[..|eps| - 1], n);
    }
  }

  method GetEndpointsMapFromSlice(endpoints: seq<Endpoint>) returns (epMap: Endpoints)
    ensures epMap == ByName(endpoints)
  {
    epMap := map[];
    for i := 0 to |endpoints|
      invariant epMap == ByName(endpoints[..i])
    {
      assert endpoints[..i + 1][..i] == endpoints[..i];
      epMap := epMap[endpoints[i].name := endpoints[i]];
    }
    assert endpoints[..|endpoints|] == endpoints;
  }

  /** No two different addresses of the service have the same digest. */
  ghost predicate CollisionFree(s: Service, opts: Options, dns: Resolver) {
    forall ip1, port1, ip2, port2 ::
      IPsOf(s, dns).Some? && ip1 in IPsOf(s, dns).value && ip2 in IPsOf(s, dns).value &&
      port1 in s.ports && port2 in s.ports &&
      opts.digest(Address(ip1, port1)) == opts.digest(Address(ip2, port2)) ==>
      Address(ip1, port1) == Address(ip2, port2)
  }

  /** Naming is lossless: without collisions, endpoints of one name are one endpoint. */
  lemma NamesAreLossless(s: Service, opts: Options, dns: Resolver, e1: Endpoint, e2: Endpoint)
    requires CollisionFree(s, opts, dns) && IsEndpointOf(s, opts, dns, e1) && IsEndpointOf(s, opts, dns, e2)
    ensures e1.name == e2.name <==> e1.address == e2.address && e1.port == e2.port
    ensures e1.name == e2.name <==> e1 == e2
  {
    var kept := Filtered(s.annotations, opts.annotations);
    var ip1, port1 :| ip1 in IPsOf(s, dns).value && port1 in s.ports && e1 == MakeEndpoint(s, kept, opts.digest, ip1, port1);
    var ip2, port2 :| ip2 in IPsOf(s, dns).value && port2 in s.ports && e2 == MakeEndpoint(s, kept, opts.digest, ip2, port2);
    if e1.name == e2.name {
      var n := |s.name| + 1;
      assert e1.name[n..] == opts.digest(Address(ip1, port1)) && e2.name[n..] == opts.digest(Address(ip2, port2));
      AddressInjective(ip1, port1, ip2, port2);
    }
  }

  /**
   Without collisions the map by name holds every endpoint, ports times distinct addresses, each
   under its own name: nothing is overwritten, whatever the order.
   */
  lemma ByNameIsExact(s: Service, opts: Options, dns: Resolver, eps: seq<Endpoint>, e: Endpoint)
    requires Derives(s, opts, dns, eps) && CollisionFree(s, opts, dns)
    ensures IsEndpointOf(s, opts, dns, e) <==> e.name in ByName(eps) && ByName(eps)[e.name] == e
  {
    DerivesExactly(s, opts, dns, eps, e);
    if e.name in ByName(eps) {
      ByNameIn(eps, e.name);
    }
    if e.name in ByName(eps) && e in eps {
      DerivesExactly(s, opts, dns, eps, ByName(eps)[e.name]);
      NamesAreLossless(s, opts, dns, e, ByName(eps)[e.name]);
    }
  }

  /** Two derivations of one service, in any two orders, have the same map by name. */
  lemma ByNameOrderFree(s: Service, opts: Options, dns: Resolver, a: seq<Endpoint>, b: seq<Endpoint>)
    requires Derives(s, opts, dns, a) && Derives(s, opts, dns, b) && CollisionFree(s, opts, dns)
    ensures ByName(a) == ByName(b)
  {
    forall n ensures n in ByName(a) <==> n in ByName(b)
             ensures n in ByName(a) ==> ByName(a)[n] == ByName(b)[n]
    {
      if n in ByName(a) {
        ByNameIsExact(s, opts, dns, a, ByName(a)[n]);
        ByNameIsExact(s, opts, dns, b, ByName(a)[n]);
      }
      if n in ByName(b) {
        ByNameIsExact(s, opts, dns, a, ByName(b)[n]);
        ByNameIsExact(s, opts, dns, b, ByName(b)[n]);
      }
    }
  }
}
