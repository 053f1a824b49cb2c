/** What a batch of endpoint events of one service does to the registry when every call succeeds. */
module Batches {
  import opened Types
  import opened Registry

  /** The events that do `kind` to each of `eps`, in order. */
  function Each(kind: EventType, eps: seq<Endpoint>): (evs: seq<Event>)
    ensures |evs| == |eps|
    ensures forall i :: 0 <= i < |eps| ==> evs[i] == Event(kind, EndpointObj(eps[i]))
  {
    seq(|eps|, i requires 0 <= i < |eps| => Event(kind, EndpointObj(eps[i])))
  }

  /** `evs` concern endpoints of service `svc` only. */
  ghost predicate OfService(svc: string, evs: seq<Event>) {
    forall i {:trigger evs[i]} :: 0 <= i < |evs| ==> evs[i].obj.EndpointObj? && evs[i].obj.endpoint.service == svc
  }

  /** Events for one endpoint are the same event. */
  ghost predicate OnePerName(evs: seq<Event>) {
    forall i, j {:trigger evs[i], evs[j]} ::
      0 <= i < |evs| && 0 <= j < |evs| && SameEndpointName(evs[i], evs[j]) ==> evs[i] == evs[j]
  }

  predicate SameEndpointName(a: Event, b: Event) {
    a.obj.EndpointObj? && b.obj.EndpointObj? && a.obj.endpoint.name == b.obj.endpoint.name
  }

  /** What becomes of an endpoint under an event for it, its service being there. */
  function Effect(c: Config, ev: Event, current: Option<Entry>): Option<Entry>
    requires !ev.obj.UnknownObj?
  {
    if ev.kind.Delete? then if OwnedEntry(current) then None else current
    else Some(Stored(c, current, ev.obj))
  }

  /** Handling an event twice is handling it once. */
  lemma EffectIdempotent(c: Config, ev: Event, current: Option<Entry>)
    requires !ev.obj.UnknownObj?
    ensures Effect(c, ev, Effect(c, ev, current)) == Effect(c, ev, current)
  {
    if !ev.kind.Delete? {
      var once := Stored(c, current, ev.obj);
      var twice := Stored(c, Some(once), ev.obj);
      assert once.meta == twice.meta;
    }
  }

  lemma SameLookups(a: Registry, b: Registry)
    requires forall k :: Lookup(a, k) == Lookup(b, k)
    ensures a == b
  {
    forall k ensures k in a <==> k in b
             ensures k in a ==> a[k] == b[k]
    {
      assert Lookup(a, k) == Lookup(b, k);
    }
  }

  /** Objects no event of the batch is for stay as they are. */
  lemma {:induction false} BatchMiss(c: Config, ns: string, svc: string, r: Registry, evs: seq<Event>, k: Key)
    requires OfService(svc, evs)
    requires forall i :: 0 <= i < |evs| ==> k != EpKey(ns, svc, evs[i].obj.endpoint.name)
    ensures Lookup(Replay(c, ns, r, evs), k) == Lookup(r, k)
  {
    if evs != [] {
      var last := |evs| - 1;
      assert OfService(svc, evs[..last]);
      assert forall i :: 0 <= i < last ==> k != EpKey(ns, svc, evs[..last][i].obj.endpoint.name);
      BatchMiss(c, ns, svc, r, evs[..last], k);
      PerformFrame(c, ns, Replay(c, ns, r, evs[..last]), evs[last], true, k);
    }
  }

  /** An endpoint undergoes the effect of its event exactly once, wherever in the batch it stands. */
  lemma {:induction false} BatchHit(c: Config, ns: string, svc: string, r: Registry, evs: seq<Event>, i: nat)
    requires SvcKey(ns, svc) in r && OfService(svc, evs) && OnePerName(evs) && i < |evs|
    ensures var k := EpKey(ns, svc, evs[i].obj.endpoint.name);
      Lookup(Replay(c, ns, r, evs), k) == Effect(c, evs[i], Lookup(r, k))
  {
    var last := |evs| - 1;
    var k := EpKey(ns, svc, evs[i].obj.endpoint.name);
    var before := evs[..last];
    assert OfService(svc, before) && OnePerName(before);
    var r1 := Replay(c, ns, r, before);
    BatchMiss(c, ns, svc, r, before, SvcKey(ns, svc));
    assert SvcKey(ns, svc) in r1;
    assert i < last ==> before[i] == evs[i];
    if j :| 0 <= j < last && before[j].obj.endpoint.name == k.ep {
      BatchHit(c, ns, svc, r, before, j);
      assert before[j] == evs[j] == evs[i];
      EffectIdempotent(c, evs[i], Lookup(r, k));
    } else {
      BatchMiss(c, ns, svc, r, before, k);
    }
    if evs[last].obj.endpoint.name == k.ep {
      assert evs[last] == evs[i];
    } else {
      PerformFrame(c, ns, r1, evs[last], true, k);
    }
  }

  /**
   Order insensitivity: two batches with the same events, in any order and with any repetitions,
   leave the same registry.
   */
  lemma BatchOrderFree(c: Config, ns: string, svc: string, r: Registry, a: seq<Event>, b: seq<Event>)
    requires SvcKey(ns, svc) in r && OfService(svc, a) && OnePerName(a)
    requires forall ev :: ev in a <==> ev in b
    ensures Replay(c, ns, r, a) == Replay(c, ns, r, b)
  {
    assert OfService(svc, b) && OnePerName(b) by {
      forall i | 0 <= i < |b| ensures b[i] in a {
        assert b[i] in b;
      }
    }
    var ra, rb := Replay(c, ns, r, a), Replay(c, ns, r, b);
    forall k ensures Lookup(ra, k) == Lookup(rb, k) {
      if i :| 0 <= i < |a| && k == EpKey(ns, svc, a[i].obj.endpoint.name) {
        assert a[i] in a;
        var j :| 0 <= j < |b| && b[j] == a[i];
        BatchHit(c, ns, svc, r, a, i);
        BatchHit(c, ns, svc, r, b, j);
      } else {
        forall j | 0 <= j < |b| ensures k != EpKey(ns, svc, b[j].obj.endpoint.name) {
          assert b[j] in b;
          var i :| 0 <= i < |a| && a[i] == b[j];
        }
        BatchMiss(c, ns, svc, r, a, k);
        BatchMiss(c, ns, svc, r, b, k);
      }
    }
    SameLookups(ra, rb);
  }

  // ----- batches that may give one name to several endpoints -----

  /** Every endpoint of a batch of creations is there in the end, owned by the operator. */
  lemma {:induction false} CreateBatch(c: Config, ns: string, svc: string, r: Registry, eps: seq<Endpoint>, i: nat)
    requires SvcKey(ns, svc) in r && forall j :: 0 <= j < |eps| ==> eps[j].service == svc
    requires IsOwnedByOperator(c.persistent) && i < |eps|
    ensures OwnedEntry(Lookup(Replay(c, ns, r, Each(Create, eps)), EpKey(ns, svc, eps[i].name)))
  {
    var evs := Each(Create, eps);
    var last := |eps| - 1;
    var r1 := Replay(c, ns, r, evs[..last]);
    BatchMiss(c, ns, svc, r, evs[..last], SvcKey(ns, svc));
    assert SvcKey(ns, svc) in r1;
    if eps[i].name != eps[last].name {
      CreateBatch(c, ns, svc, r, eps[..last], i);
      assert evs[..last] == Each(Create, eps[..last]);
      PerformFrame(c, ns, r1, evs[last], true, EpKey(ns, svc, eps[i].name));
    }
  }

  /** Deleting endpoints removes exactly those of their names that the operator owns. */
  lemma {:induction false} DeleteBatch(c: Config, ns: string, svc: string, r: Registry, eps: seq<Endpoint>, k: Key)
    requires forall i :: 0 <= i < |eps| ==> eps[i].service == svc
    ensures Lookup(Replay(c, ns, r, Each(Delete, eps)), k) ==
      if OwnedEntry(Lookup(r, k)) && exists i :: 0 <= i < |eps| && k == EpKey(ns, svc, eps[i].name)
      then None else Lookup(r, k)
  {
    if eps != [] {
      var last := |eps| - 1;
      DeleteBatch(c, ns, svc, r, eps[..last], k);
      var evs := Each(Delete, eps);
      assert evs[..last] == Each(Delete, eps[..last]);
      if i :| 0 <= i < |eps| && k == EpKey(ns, svc, eps[i].name) {
        assert i < last ==> eps[..last][i] == eps[i];
      }
    }
  }
}
