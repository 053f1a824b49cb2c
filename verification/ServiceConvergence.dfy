/**
 What the events of the service handler do to the registry, when every call succeeds: the handler's
 output put together with the worker's handlers.
 */
module ServiceConvergence {
  import opened Types
  import opened Registry
  import opened Meaning
  import opened Services
  import opened Batches
  import opened ServiceHandlers

  // ----- the parents -----

  /** The registry once the namespace and the service are registered. */
  function WithParents(c: Config, r: Registry, ns: string, svc: string): Registry {
    var nsObj, svcObj := NamespaceObj(ns), ServiceObj(ns, svc);
    var r1 := r[NsKey(ns) := Stored(c, Lookup(r, NsKey(ns)), nsObj)];
    r1[SvcKey(ns, svc) := Stored(c, Lookup(r, SvcKey(ns, svc)), svcObj)]
  }

  lemma ParentsReplay(c: Config, r: Registry, ns: string, svc: string, evs: seq<Event>)
    ensures Replay(c, ns, r, CreateEvents(ns, svc, []) + evs) == Replay(c, ns, WithParents(c, r, ns, svc), evs)
  {
    var first, second := Event(Create, NamespaceObj(ns)), Event(Create, ServiceObj(ns, svc));
    assert CreateEvents(ns, svc, []) == [first] + [second];
    ReplayAppend(c, ns, r, CreateEvents(ns, svc, []), evs);
    ReplayAppend(c, ns, r, [first], [second]);
    ReplayOne(c, ns, r, first);
    ReplayOne(c, ns, Replay(c, ns, r, [first]), second);
  }

  // ----- updates -----

  /** What an update leaves of the endpoint called `name`; `known` is what the guard consults. */
  function AfterUpdate(c: Config, olds: Endpoints, currs: Endpoints, known: Endpoints, name: string,
        before: Option<Entry>): Option<Entry> {
    if name in currs && (name in olds || name !in known) then Some(Stored(c, before, EndpointObj(currs[name])))
    else if name in olds && name !in currs && OwnedEntry(before) then None
    else before
  }

  /** The map of a service's endpoints by name. */
  ghost predicate EndpointMap(m: Endpoints, svc: string) {
    forall n :: n in m ==> m[n].name == n && m[n].service == svc
  }

  /** The endpoint `n` is created by the second loop iff it is listed and not known. */
  lemma {:induction false} NewEventsContain(k: seq<string>, currs: Endpoints, known: Endpoints, svc: string)
    requires EndpointMap(currs, svc) && forall n :: n in k ==> n in currs
    ensures forall ev :: ev in NewEvents(k, currs, known) <==>
      exists n :: n in k && n !in known && ev == Event(Create, EndpointObj(currs[n]))
  {
    if k != [] {
      var last := |k| - 1;
      NewEventsContain(k[..last], currs, known, svc);
      assert k == k[..last] + [k[last]];
    }
  }

  /** The events for endpoints that an update sends, for given orders of the two maps. */
  function EndpointEvents(o: seq<string>, olds: Endpoints, k: seq<string>, currs: Endpoints,
        known: Endpoints): seq<Event>
    requires (forall n :: n in o ==> n in olds) && (forall n :: n in k ==> n in currs)
  {
    DiffEvents(o, olds, currs) + NewEvents(k, currs, known)
  }

  /** Which events an update sends does not depend on the orders; `known` is what the guard consults. */
  ghost predicate InUpdate(ev: Event, olds: Endpoints, currs: Endpoints, known: Endpoints) {
    || (exists n :: n in olds && n in currs && ev == Event(Update, EndpointObj(currs[n])))
    || (exists n :: n in olds && n !in currs && ev == Event(Delete, EndpointObj(olds[n])))
    || (exists n :: n in currs && n !in known && ev == Event(Create, EndpointObj(currs[n])))
  }

  lemma EndpointEventsContain(svc: string, o: seq<string>, olds: Endpoints, k: seq<string>,
        currs: Endpoints, known: Endpoints, ev: Event)
    requires EndpointMap(olds, svc) && EndpointMap(currs, svc)
    requires Lists(o, olds.Keys) && Lists(k, currs.Keys)
    ensures ev in EndpointEvents(o, olds, k, currs, known) <==> InUpdate(ev, olds, currs, known)
  {
    NewEventsContain(k, currs, known, svc);
    var diff := DiffEvents(o, olds, currs);
    if ev in diff {
      var i :| 0 <= i < |diff| && diff[i] == ev;
      assert o[i] in olds;
    }
    forall n | n in olds && ev == (if n in currs then Event(Update, EndpointObj(currs[n])) else Event(Delete, EndpointObj(olds[n])))
      ensures ev in diff
    {
      assert n in o;
      var i :| 0 <= i < |o| && o[i] == n;
      assert diff[i] == ev;
    }
  }

  /** Each name is touched once: by the first loop if it is old, by the second only if it is not. */
  ghost predicate GuardSound(olds: Endpoints, currs: Endpoints, known: Endpoints) {
    forall n :: n in olds && n in currs ==> n in known
  }

  lemma EndpointEventsBatch(svc: string, o: seq<string>, olds: Endpoints, k: seq<string>,
        currs: Endpoints, known: Endpoints)
    requires EndpointMap(olds, svc) && EndpointMap(currs, svc) && GuardSound(olds, currs, known)
    requires Lists(o, olds.Keys) && Lists(k, currs.Keys)
    ensures OfService(svc, EndpointEvents(o, olds, k, currs, known))
    ensures OnePerName(EndpointEvents(o, olds, k, currs, known))
  {
    var evs := EndpointEvents(o, olds, k, currs, known);
    forall i | 0 <= i < |evs| ensures InUpdate(evs[i], olds, currs, known) {
      EndpointEventsContain(svc, o, olds, k, currs, known, evs[i]);
    }
  }

  lemma UpdateAfterParents(c: Config, r: Registry, ns: string, svc: string, o: seq<string>,
        olds: Endpoints, k: seq<string>, currs: Endpoints, known: Endpoints)
    requires (forall n :: n in o ==> n in olds) && (forall n :: n in k ==> n in currs)
    ensures Replay(c, ns, r, UpdateEvents(ns, svc, o, olds, k, currs, known)) ==
            Replay(c, ns, WithParents(c, r, ns, svc), EndpointEvents(o, olds, k, currs, known))
  {
    var evs := EndpointEvents(o, olds, k, currs, known);
    assert UpdateEvents(ns, svc, o, olds, k, currs, known) == CreateEvents(ns, svc, []) + evs;
    ParentsReplay(c, r, ns, svc, evs);
  }

  /** What an update leaves of each object of the registry. */
  function AfterUpdateOf(c: Config, r: Registry, ns: string, svc: string, olds: Endpoints, currs: Endpoints,
        known: Endpoints, key: Key): Option<Entry>
  {
    match key
    case NsKey(n) => if n == ns then Some(Stored(c, Lookup(r, key), NamespaceObj(ns))) else Lookup(r, key)
    case SvcKey(n, s) => if n == ns && s == svc then Some(Stored(c, Lookup(r, key), ServiceObj(ns, svc))) else Lookup(r, key)
    case EpKey(n, s, e) =>
      if n == ns && s == svc then AfterUpdate(c, olds, currs, known, e, Lookup(r, key)) else Lookup(r, key)
  }

  /**
   An update, object by object, from any registry, and for whatever orders Go iterated in. With
   `known` the current endpoints this is the source's guard.
   */
  lemma UpdateReplay(c: Config, r: Registry, ns: string, svc: string, o: seq<string>,
        olds: Endpoints, k: seq<string>, currs: Endpoints, known: Endpoints, key: Key)
    requires EndpointMap(olds, svc) && EndpointMap(currs, svc) && GuardSound(olds, currs, known)
    requires Lists(o, olds.Keys) && Lists(k, currs.Keys)
    ensures Lookup(Replay(c, ns, r, UpdateEvents(ns, svc, o, olds, k, currs, known)), key) ==
            AfterUpdateOf(c, r, ns, svc, olds, currs, known, key)
  {
    var r1 := WithParents(c, r, ns, svc);
    UpdateAfterParents(c, r, ns, svc, o, olds, k, currs, known);
    if key.EpKey? && key.ns == ns && key.svc == svc {
      UpdateReplayEndpoint(c, r1, ns, svc, o, olds, k, currs, known, key.ep);
    } else {
      UpdateReplayOther(c, r1, ns, svc, o, olds, k, currs, known, key);
    }
  }

  lemma UpdateReplayOther(c: Config, r: Registry, ns: string, svc: string, o: seq<string>,
        olds: Endpoints, k: seq<string>, currs: Endpoints, known: Endpoints, key: Key)
    requires EndpointMap(olds, svc) && EndpointMap(currs, svc) && GuardSound(olds, currs, known)
    requires Lists(o, olds.Keys) && Lists(k, currs.Keys)
    requires !(key.EpKey? && key.ns == ns && key.svc == svc)
    ensures Lookup(Replay(c, ns, r, EndpointEvents(o, olds, k, currs, known)), key) == Lookup(r, key)
  {
    EndpointEventsBatch(svc, o, olds, k, currs, known);
    BatchMiss(c, ns, svc, r, EndpointEvents(o, olds, k, currs, known), key);
  }

  lemma UpdateReplayEndpoint(c: Config, r: Registry, ns: string, svc: string,
        o: seq<string>, olds: Endpoints, k: seq<string>, currs: Endpoints, known: Endpoints, name: string)
    requires EndpointMap(olds, svc) && EndpointMap(currs, svc) && GuardSound(olds, currs, known)
    requires Lists(o, olds.Keys) && Lists(k, currs.Keys) && SvcKey(ns, svc) in r
    ensures var key := EpKey(ns, svc, name);
      Lookup(Replay(c, ns, r, EndpointEvents(o, olds, k, currs, known)), key) == AfterUpdate(c, olds, currs, known, name, Lookup(r, key))
  {
    var evs := EndpointEvents(o, olds, k, currs, known);
    EndpointEventsBatch(svc, o, olds, k, currs, known);
    if name in olds || (name in currs && name !in known) {
      var ev := if name in currs then Event(if name in olds then Update else Create, EndpointObj(currs[name]))
                else Event(Delete, EndpointObj(olds[name]));
      EndpointEventsContain(svc, o, olds, k, currs, known, ev);
      var i :| 0 <= i < |evs| && evs[i] == ev;
      BatchHit(c, ns, svc, r, evs, i);
    } else {
      forall i | 0 <= i < |evs| ensures evs[i].obj.endpoint.name != name {
        EndpointEventsContain(svc, o, olds, k, currs, known, evs[i]);
      }
      BatchMiss(c, ns, svc, r, evs, EpKey(ns, svc, name));
    }
  }

  /** The registry's endpoints of `svc` are exactly those called as in `names`, all the operator's. */
  ghost predicate HoldsExactly(r: Registry, ns: string, svc: string, names: set<string>) {
    forall n {:trigger EpKey(ns, svc, n)} ::
      (EpKey(ns, svc, n) in r <==> n in names) && (n in names ==> OwnedEntry(Lookup(r, EpKey(ns, svc, n))))
  }

  /** Each endpoint of `eps` is stored with its own address, port and metadata. */
  ghost predicate UpToDate(c: Config, r: Registry, r0: Registry, ns: string, svc: string, eps: Endpoints) {
    forall n {:trigger EpKey(ns, svc, n)} :: n in eps && EpKey(ns, svc, n) in r ==>
      Describes(c, Lookup(r0, EpKey(ns, svc, n)), Lookup(r, EpKey(ns, svc, n)), eps[n])
  }

  lemma StoredIsUpToDate(c: Config, r: Registry, r0: Registry, ns: string, svc: string, eps: Endpoints)
    requires forall n {:trigger EpKey(ns, svc, n)} :: n in eps && EpKey(ns, svc, n) in r ==>
      r[EpKey(ns, svc, n)] == Stored(c, Lookup(r0, EpKey(ns, svc, n)), EndpointObj(eps[n]))
    ensures UpToDate(c, r, r0, ns, svc, eps)
  {
    forall n {:trigger EpKey(ns, svc, n)} | n in eps && EpKey(ns, svc, n) in r
      ensures Describes(c, Lookup(r0, EpKey(ns, svc, n)), Lookup(r, EpKey(ns, svc, n)), eps[n])
    {
      DescribesStored(c, Lookup(r0, EpKey(ns, svc, n)), Lookup(r, EpKey(ns, svc, n)), eps[n]);
    }
  }

  /**
   Update convergence, as the source is written. From a registry that holds exactly the old
   endpoints, an update ends with exactly the current endpoints whose names were old; so it
   converges to the current ones if and only if none of them is new.
   */
  lemma UpdateConvergesIffNothingNew(c: Config, r: Registry, ns: string, svc: string,
        o: seq<string>, olds: Endpoints, k: seq<string>, currs: Endpoints)
    requires IsOwnedByOperator(c.persistent)
    requires EndpointMap(olds, svc) && EndpointMap(currs, svc) && HoldsExactly(r, ns, svc, olds.Keys)
    requires Lists(o, olds.Keys) && Lists(k, currs.Keys)
    ensures var r' := Replay(c, ns, r, UpdateEvents(ns, svc, o, olds, k, currs, currs));
      && UpToDate(c, r', r, ns, svc, currs)
      && (forall n {:trigger EpKey(ns, svc, n)} :: EpKey(ns, svc, n) in r' <==> n in olds && n in currs)
      && (HoldsExactly(r', ns, svc, currs.Keys) <==> currs.Keys <= olds.Keys)
  {
    var r' := Replay(c, ns, r, UpdateEvents(ns, svc, o, olds, k, currs, currs));
    forall n ensures Lookup(r', EpKey(ns, svc, n)) == AfterUpdate(c, olds, currs, currs, n, Lookup(r, EpKey(ns, svc, n))) {
      UpdateReplay(c, r, ns, svc, o, olds, k, currs, currs, EpKey(ns, svc, n));
    }
    StoredIsUpToDate(c, r', r, ns, svc, currs);
    if HoldsExactly(r', ns, svc, currs.Keys) {
      forall n | n in currs.Keys ensures n in olds.Keys {
        assert EpKey(ns, svc, n) in r';
      }
    }
  }

  /** The second loop looks its names up in the map it iterates: it never sends anything. */
  lemma {:induction false} NothingNewSent(k: seq<string>, currs: Endpoints)
    requires forall n :: n in k ==> n in currs
    ensures NewEvents(k, currs, currs) == []
  {
    if k != [] {
      NothingNewSent(k[..|k| - 1], currs);
      assert k[|k| - 1] in k;
    }
  }

  /** Repaired, with the guard on the old endpoints, an update always converges. */
  lemma RepairedUpdateConverges(c: Config, r: Registry, ns: string, svc: string,
        o: seq<string>, olds: Endpoints, k: seq<string>, currs: Endpoints)
    requires IsOwnedByOperator(c.persistent)
    requires EndpointMap(olds, svc) && EndpointMap(currs, svc) && HoldsExactly(r, ns, svc, olds.Keys)
    requires Lists(o, olds.Keys) && Lists(k, currs.Keys)
    ensures var r' := Replay(c, ns, r, UpdateEvents(ns, svc, o, olds, k, currs, olds));
      HoldsExactly(r', ns, svc, currs.Keys) && UpToDate(c, r', r, ns, svc, currs)
  {
    var r' := Replay(c, ns, r, UpdateEvents(ns, svc, o, olds, k, currs, olds));
    forall n ensures Lookup(r', EpKey(ns, svc, n)) == AfterUpdate(c, olds, currs, olds, n, Lookup(r, EpKey(ns, svc, n))) {
      UpdateReplay(c, r, ns, svc, o, olds, k, currs, olds, EpKey(ns, svc, n));
    }
    StoredIsUpToDate(c, r', r, ns, svc, currs);
  }
}
