/** Normalisation of the etcd endpoints of the settings. */
module Etcd {
  import opened Types

  datatype EtcdEndpoint = EtcdEndpoint(host: string, port: Option<int>)

  datatype EtcdSettings = EtcdSettings(authentication: string, prefix: Option<string>, endpoints: seq<EtcdEndpoint>)

  datatype Result = Ok(settings: EtcdSettings) | Err(error: string)

  const AUTH_NOTHING := ""
  const AUTH_USERNAME_PASSWORD := "WithUsernameAndPassword"
  const AUTH_TLS := "WithTLS"
  const DEFAULT_PORT := 2379

  // ----- specification -----

  datatype Address = Address(host: string, port: int)

  function PortOf(e: EtcdEndpoint): int {
    if e.port.Some? then e.port.value else DEFAULT_PORT
  }

  /** The entries with a host, with their ports filled in. */
  function Defaulted(endpoints: seq<EtcdEndpoint>): seq<Address> {
    if endpoints == [] then []
    else
      var last := endpoints[|endpoints| - 1];
      Defaulted(endpoints[..|endpoints| - 1]) + if last.host == "" then [] else [Address(last.host, PortOf(last))]
  }

  /** The port of the last entry for `host`. */
  function LastPort(addrs: seq<Address>, host: string): Option<int> {
    if addrs == [] then None
    else if addrs[|addrs| - 1].host == host then Some(addrs[|addrs| - 1].port)
    else LastPort(addrs[..|addrs| - 1], host)
  }

  /** Drops the entries that repeat the port last given for their host. */
  function Dedup(addrs: seq<Address>): seq<Address> {
    if addrs == [] then []
    else
      var last := addrs[|addrs| - 1];
      Dedup(addrs[..|addrs| - 1]) + if LastPort(addrs[..|addrs| - 1], last.host) == Some(last.port) then [] else [last]
  }

  function Entries(addrs: seq<Address>): (es: seq<EtcdEndpoint>)
    ensures |es| == |addrs|
  {
    seq(|addrs|, i requires 0 <= i < |addrs| => EtcdEndpoint(addrs[i].host, Some(addrs[i].port)))
  }

  function Parsed(s: EtcdSettings): Result {
    if s.endpoints == [] then Err("no etcd endpoints provided")
    else if s.authentication != AUTH_NOTHING && s.authentication != AUTH_USERNAME_PASSWORD && s.authentication != AUTH_TLS then
      Err("unrecognized authentication method for etcd")
    else if s.authentication == AUTH_TLS then Err("etcd authentication with TLS is not supported yet")
    else Ok(s.(endpoints := Entries(Dedup(Defaulted(s.endpoints)))))
  }

  // ----- the loop -----

  method ParseEtcdSettings(settings: EtcdSettings) returns (result: Result)
    ensures result == Parsed(settings)
  {
    if |settings.endpoints| == 0 {
      return Err("no etcd endpoints provided");
    }
    if settings.authentication != AUTH_NOTHING && settings.authentication != AUTH_USERNAME_PASSWORD &&
       settings.authentication != AUTH_TLS {
      return Err("unrecognized authentication method for etcd");
    }
    if settings.authentication == AUTH_TLS {
      return Err("etcd authentication with TLS is not supported yet");
    }
    var endpoints := NormaliseEndpoints(settings.endpoints);
    result := Ok(EtcdSettings(settings.authentication, settings.prefix, endpoints));
  }

  method NormaliseEndpoints(given: seq<EtcdEndpoint>) returns (endpoints: seq<EtcdEndpoint>)
    ensures endpoints == Entries(Dedup(Defaulted(given)))
  {
    endpoints := [];
    var dups: map<string, int> := map[];
    ghost var done: seq<Address> := [];
    for i := 0 to |given|
      invariant done == Defaulted(given[..i])
      invariant endpoints == Entries(Dedup(done))
      invariant forall h :: LastPort(done, h) == if h in dups then Some(dups[h]) else None
    {
      var endp := given[i];
      DefaultedNext(given[..i], endp);
      assert given[..i + 1] == given[..i] + [endp];
      if |endp.host| == 0 {
        continue;
      }
      var port := DEFAULT_PORT;
      if endp.port.Some? {
        port := endp.port.value;
      }
      ghost var address := Address(endp.host, port);
      ghost var before := done;
      done := done + [address];
      DedupNext(before, address);
      forall h ensures LastPort(done, h) == if address.host == h then Some(port) else LastPort(before, h) {
        LastPortNext(before, address, h);
      }
      if endp.host in dups && dups[endp.host] == port {
        assert Dedup(done) == Dedup(before);
        continue;
      }
      EntriesNext(Dedup(before), address);
      endpoints := endpoints + [EtcdEndpoint(endp.host, Some(port))];
      dups := dups[endp.host := port];
    }
    assert given[..|given|] == given;
  }

  lemma DefaultedNext(before: seq<EtcdEndpoint>, e: EtcdEndpoint)
    ensures Defaulted(before + [e]) == Defaulted(before) + if e.host == "" then [] else [Address(e.host, PortOf(e))]
  {
    assert (before + [e])[..|before|] == before;
  }

  lemma EntriesNext(addrs: seq<Address>, a: Address)
    ensures Entries(addrs + [a]) == Entries(addrs) + [EtcdEndpoint(a.host, Some(a.port))]
  {
  }

  // ----- what is kept -----

  /** `xs` is `ys` with some entries left out, in the same order. */
  predicate IsSubsequence(xs: seq<Address>, ys: seq<Address>) {
    if xs == [] then true
    else if ys == [] then false
    else if xs[|xs| - 1] == ys[|ys| - 1] && IsSubsequence(xs[..|xs| - 1], ys[..|ys| - 1]) then true
    else IsSubsequence(xs, ys[..|ys| - 1])
  }

  lemma LastPortNext(before: seq<Address>, last: Address, host: string)
    ensures LastPort(before + [last], host) == if last.host == host then Some(last.port) else LastPort(before, host)
  {
    assert (before + [last])[..|before|] == before;
  }

  lemma DedupNext(before: seq<Address>, last: Address)
    ensures Dedup(before + [last]) ==
            Dedup(before) + if LastPort(before, last.host) == Some(last.port) then [] else [last]
  {
    assert (before + [last])[..|before|] == before;
  }

  lemma {:induction false} LastPortOfDedup(addrs: seq<Address>, host: string)
    ensures LastPort(Dedup(addrs), host) == LastPort(addrs, host)
  {
    if addrs != [] {
      var before, last := addrs[..|addrs| - 1], addrs[|addrs| - 1];
      LastPortOfDedup(before, host);
      LastPortNext(Dedup(before), last, host);
      assert Dedup(before) + [] == Dedup(before);
    }
  }

  lemma {:induction false} LastPortIsThere(addrs: seq<Address>, host: string)
    requires LastPort(addrs, host).Some?
    ensures Address(host, LastPort(addrs, host).value) in addrs
  {
    if addrs[|addrs| - 1].host != host {
      LastPortIsThere(addrs[..|addrs| - 1], host);
    } else {
      assert addrs[|addrs| - 1] == Address(host, LastPort(addrs, host).value);
    }
  }

  /** The result lists the given addresses, all of them, in their order, and nothing else. */
  lemma {:induction false} DedupKeeps(addrs: seq<Address>)
    ensures IsSubsequence(Dedup(addrs), addrs)
    ensures forall a :: a in Dedup(addrs) <==> a in addrs
  {
    if addrs != [] {
      var before, last := addrs[..|addrs| - 1], addrs[|addrs| - 1];
      DedupKeeps(before);
      var keep := LastPort(before, last.host) != Some(last.port);
      if !keep {
        LastPortIsThere(before, last.host);
      }
      KeepsNext(Dedup(before), addrs, keep);
    }
  }

  /** No kept entry repeats the port last kept for its host. */
  lemma {:induction false} DedupKeepsChanges(addrs: seq<Address>, j: nat)
    requires j < |Dedup(addrs)|
    ensures LastPort(Dedup(addrs)[..j], Dedup(addrs)[j].host) != Some(Dedup(addrs)[j].port)
  {
    var before, last := addrs[..|addrs| - 1], addrs[|addrs| - 1];
    var kept := Dedup(before);
    if j < |kept| {
      DedupKeepsChanges(before, j);
      assert Dedup(addrs)[..j] == kept[..j];
    } else {
      LastPortOfDedup(before, last.host);
      assert Dedup(addrs)[..j] == kept;
    }
  }

  /** Hence dropping again drops nothing. */
  lemma {:induction false} DedupIdempotent(addrs: seq<Address>)
    ensures Dedup(Dedup(addrs)) == Dedup(addrs)
  {
    if addrs != [] {
      var before, last := addrs[..|addrs| - 1], addrs[|addrs| - 1];
      DedupIdempotent(before);
      LastPortOfDedup(before, last.host);
      DedupNext(Dedup(before), last);
      assert Dedup(before) + [] == Dedup(before);
    }
  }

  /** Parsing the settings it produced again changes nothing, unless no entry had a host. */
  lemma ReparseIff(s: EtcdSettings)
    requires Parsed(s).Ok?
    ensures Parsed(Parsed(s).settings) == Parsed(s) <==> Defaulted(s.endpoints) != []
  {
    var addrs := Defaulted(s.endpoints);
    var kept := Dedup(addrs);
    DedupIdempotent(addrs);
    DedupKeeps(addrs);
    DefaultedHosts(s.endpoints);
    forall i | 0 <= i < |kept| ensures kept[i].host != "" {
      assert kept[i] in addrs;
    }
    DefaultedEntries(kept);
    if addrs != [] {
      assert addrs[0] in kept;
    }
    assert Parsed(s).settings.endpoints == Entries(kept);
  }

  lemma {:induction false} DefaultedHosts(es: seq<EtcdEndpoint>)
    ensures forall a :: a in Defaulted(es) ==> a.host != ""
  {
    if es != [] {
      DefaultedHosts(es[..|es| - 1]);
    }
  }

  lemma {:induction false} DefaultedEntries(addrs: seq<Address>)
    ensures (forall i :: 0 <= i < |addrs| ==> addrs[i].host != "") ==> Defaulted(Entries(addrs)) == addrs
  {
    if addrs != [] {
      DefaultedEntries(addrs[..|addrs| - 1]);
      assert Entries(addrs)[..|addrs| - 1] == Entries(addrs[..|addrs| - 1]);
      assert addrs == addrs[..|addrs| - 1] + [addrs[|addrs| - 1]];
    }
  }

  /** What counts are the entries with a host, on their own port or else on 2379. */
  lemma {:induction false} DefaultedMeans(es: seq<EtcdEndpoint>, a: Address)
    ensures a in Defaulted(es) <==>
      exists i :: 0 <= i < |es| && es[i].host == a.host != "" && (es[i].port == Some(a.port) || (es[i].port == None && a.port == 2379))
  {
    if es != [] {
      var before, last := es[..|es| - 1], es[|es| - 1];
      DefaultedMeans(before, a);
      assert es == before + [last];
      assert es[|before|] == last;
      forall i | 0 <= i < |before| ensures es[i] == before[i] {
      }
    }
  }

  /**
   Settings parse iff they have an entry and ask for no authentication or for username and password;
   TLS is known and refused. The result keeps both other settings, and has each given address with its port filled in.
   */
  lemma ParsedMeans(s: EtcdSettings)
    ensures Parsed(s).Ok? <==> s.endpoints != [] && (s.authentication == "" || s.authentication == "WithUsernameAndPassword")
    ensures s.endpoints == [] ==> Parsed(s) == Err("no etcd endpoints provided")
    ensures s.endpoints != [] && s.authentication == "WithTLS" ==>
      Parsed(s) == Err("etcd authentication with TLS is not supported yet")
    ensures Parsed(s).Ok? ==>
      var r := Parsed(s).settings;
      && r.authentication == s.authentication && r.prefix == s.prefix
      && (forall i :: 0 <= i < |r.endpoints| ==> r.endpoints[i].host != "" && r.endpoints[i].port.Some?)
      && (forall host, port :: EtcdEndpoint(host, Some(port)) in r.endpoints <==> Address(host, port) in Defaulted(s.endpoints))
  {
    if Parsed(s).Ok? {
      var kept := Dedup(Defaulted(s.endpoints));
      DedupKeeps(Defaulted(s.endpoints));
      DefaultedHosts(s.endpoints);
      assert Parsed(s).settings.endpoints == Entries(kept);
      forall i | 0 <= i < |kept| ensures kept[i].host != "" {
        assert kept[i] in kept;
      }
      forall host, port ensures EtcdEndpoint(host, Some(port)) in Entries(kept) <==> Address(host, port) in kept {
        EntriesContain(kept, host, port);
      }
    }
  }

  lemma EntriesContain(addrs: seq<Address>, host: string, port: int)
    ensures EtcdEndpoint(host, Some(port)) in Entries(addrs) <==> Address(host, port) in addrs
  {
    if Address(host, port) in addrs {
      var i :| 0 <= i < |addrs| && addrs[i] == Address(host, port);
      assert Entries(addrs)[i] == EtcdEndpoint(host, Some(port));
    }
  }

  // ----- duplicates -----

  predicate NoDuplicates(addrs: seq<Address>) {
    forall i, j :: 0 <= i < j < |addrs| ==> addrs[i] != addrs[j]
  }

  /** At `k` the host of `i` has another port, and at `j` it is back at the first. */
  ghost predicate Returns(addrs: seq<Address>, i: int, k: int, j: int) {
    0 <= i < k < j < |addrs| && addrs[i] == addrs[j] && addrs[k].host == addrs[i].host && addrs[k] != addrs[i]
  }

  /** No host goes back to an earlier port after another one. */
  ghost predicate NeverReturns(addrs: seq<Address>) {
    forall i, k, j :: !Returns(addrs, i, k, j)
  }

  lemma {:induction false} LastPortPosition(addrs: seq<Address>, host: string) returns (l: nat)
    requires LastPort(addrs, host).Some?
    ensures l < |addrs| && addrs[l] == Address(host, LastPort(addrs, host).value)
    ensures forall i :: l < i < |addrs| ==> addrs[i].host != host
  {
    if addrs[|addrs| - 1].host == host {
      l := |addrs| - 1;
    } else {
      l := LastPortPosition(addrs[..|addrs| - 1], host);
    }
  }

  lemma {:induction false} LastPortOfMember(addrs: seq<Address>, i: nat)
    requires i < |addrs|
    ensures LastPort(addrs, addrs[i].host).Some?
  {
    if addrs[|addrs| - 1].host != addrs[i].host {
      LastPortOfMember(addrs[..|addrs| - 1], i);
    }
  }

  lemma RepeatReturnsNot(before: seq<Address>, last: Address, l: nat)
    requires l < |before| && before[l] == last && forall i :: l < i < |before| ==> before[i].host != last.host
    ensures NeverReturns(before) ==> NeverReturns(before + [last])
  {
    var all := before + [last];
    if NeverReturns(before) {
      forall i, k, j ensures !Returns(all, i, k, j) {
        assert !Returns(before, i, k, j) && !Returns(before, i, k, l);
      }
    }
  }

  lemma NoDuplicatesNext(kept: seq<Address>, last: Address)
    ensures NoDuplicates(kept + [last]) <==> NoDuplicates(kept) && last !in kept
  {
    var all := kept + [last];
    if NoDuplicates(all) {
      forall i, j | 0 <= i < j < |kept| ensures kept[i] != kept[j] {
        assert all[i] == kept[i] && all[j] == kept[j];
      }
      forall i | 0 <= i < |kept| ensures kept[i] != last {
        assert all[i] == kept[i] && all[|kept|] == last;
      }
    }
  }

  lemma NeverReturnsPrefix(before: seq<Address>, last: Address)
    requires NeverReturns(before + [last])
    ensures NeverReturns(before)
  {
    forall i, k, j ensures !Returns(before, i, k, j) {
      assert !Returns(before + [last], i, k, j);
    }
  }

  /** A further entry keeps the property iff it is new or repeats its host's last port. */
  lemma NeverReturnsNext(before: seq<Address>, last: Address)
    ensures NeverReturns(before + [last]) <==>
            NeverReturns(before) && (last in before ==> LastPort(before, last.host) == Some(last.port))
  {
    var all := before + [last];
    if NeverReturns(all) {
      NeverReturnsPrefix(before, last);
    }
    if last in before {
      var i :| 0 <= i < |before| && before[i] == last;
      LastPortOfMember(before, i);
      var l := LastPortPosition(before, last.host);
      if before[l] == last {
        RepeatReturnsNot(before, last, l);
      } else {
        assert Returns(all, i, l, |before|);
      }
    } else if NeverReturns(before) {
      forall i, k, j ensures !Returns(all, i, k, j) {
        assert !Returns(before, i, k, j);
        assert 0 <= i < |before| ==> all[i] in before;
      }
    }
  }

  /**
   Only the last port of a host is remembered: the result is free of duplicates if and only if no
   host goes back to an earlier port.
   */
  lemma {:induction false} DuplicateFreeIff(addrs: seq<Address>)
    ensures NoDuplicates(Dedup(addrs)) <==> NeverReturns(addrs)
  {
    if addrs != [] {
      var before, last := addrs[..|addrs| - 1], addrs[|addrs| - 1];
      DuplicateFreeIff(before);
      DedupKeeps(before);
      assert addrs == before + [last];
      NeverReturnsNext(before, last);
      if LastPort(before, last.host) == Some(last.port) {
        assert Dedup(before) + [] == Dedup(before);
      } else {
        NoDuplicatesNext(Dedup(before), last);
      }
    }
  }

  // ----- the repair -----

  /** Repaired: drops the entries given before, remembering all ports of a host. */
  function DedupAll(addrs: seq<Address>): seq<Address> {
    if addrs == [] then []
    else
      var before, last := addrs[..|addrs| - 1], addrs[|addrs| - 1];
      DedupAll(before) + if last in before then [] else [last]
  }

  lemma {:induction false} RepairedKeeps(addrs: seq<Address>)
    ensures IsSubsequence(DedupAll(addrs), addrs)
    ensures forall a :: a in DedupAll(addrs) <==> a in addrs
  {
    if addrs != [] {
      var before, last := addrs[..|addrs| - 1], addrs[|addrs| - 1];
      RepairedKeeps(before);
      KeepsNext(DedupAll(before), addrs, last !in before);
    }
  }

  /** Repaired, the result never has duplicates, and still lists the given addresses in their order. */
  lemma {:induction false} RepairedDedup(addrs: seq<Address>)
    ensures NoDuplicates(DedupAll(addrs)) && IsSubsequence(DedupAll(addrs), addrs)
    ensures forall a :: a in DedupAll(addrs) <==> a in addrs
  {
    RepairedKeeps(addrs);
    if addrs != [] {
      var before, last := addrs[..|addrs| - 1], addrs[|addrs| - 1];
      RepairedDedup(before);
      if last !in before {
        NoDuplicatesNext(DedupAll(before), last);
      }
    }
  }

  /** The last entry is kept, or it is one of those given before. */
  lemma KeepsNext(kept: seq<Address>, all: seq<Address>, keep: bool)
    requires all != [] && IsSubsequence(kept, all[..|all| - 1]) && forall a :: a in kept <==> a in all[..|all| - 1]
    requires keep || all[|all| - 1] in all[..|all| - 1]
    ensures var kept' := kept + if keep then [all[|all| - 1]] else [];
      IsSubsequence(kept', all) && forall a :: a in kept' <==> a in all
  {
    var before, last := all[..|all| - 1], all[|all| - 1];
    assert all == before + [last] && kept + [] == kept;
    SubsequenceNext(kept, before, last);
  }

  lemma SubsequenceNext(xs: seq<Address>, ys: seq<Address>, last: Address)
    requires IsSubsequence(xs, ys)
    ensures IsSubsequence(xs, ys + [last]) && IsSubsequence(xs + [last], ys + [last])
  {
    assert (ys + [last])[..|ys|] == ys && (xs + [last])[..|xs|] == xs;
  }

  /** The source does what the repair does exactly if no host goes back to an earlier port. */
  lemma RepairedAgreesIff(addrs: seq<Address>)
    ensures Dedup(addrs) == DedupAll(addrs) <==> NeverReturns(addrs)
  {
    RepairedDedup(addrs);
    DuplicateFreeIff(addrs);
    if NeverReturns(addrs) {
      AgreesIfNeverReturns(addrs);
    }
  }

  lemma {:induction false} AgreesIfNeverReturns(addrs: seq<Address>)
    requires NeverReturns(addrs)
    ensures Dedup(addrs) == DedupAll(addrs)
  {
    if addrs != [] {
      var before, last := addrs[..|addrs| - 1], addrs[|addrs| - 1];
      assert addrs == before + [last];
      NeverReturnsNext(before, last);
      AgreesIfNeverReturns(before);
      if LastPort(before, last.host) == Some(last.port) {
        LastPortIsThere(before, last.host);
      }
    }
  }
}
