/**
 The service registry seen through its client library. The library itself is not part of this
 repository, so this module states what is assumed of it:
 - registering is an upsert that fails when the parent object is missing;
 - metadata given twice in one call are merged and the later one wins; whether the metadata
   already stored survive is left open (`RegisterMode`);
 - deregistering removes that one object.
 */
module Registry {
  import opened Types

  /** The three levels of the hierarchy, as the keys of one flat map. */
  datatype Key =
    | NsKey(ns: string)
    | SvcKey(ns: string, svc: string)
    | EpKey(ns: string, svc: string, ep: string)

  datatype Entry =
    | Group(meta: Meta)
    | Instance(meta: Meta, address: string, port: int)

  type Registry = map<Key, Entry>

  datatype RegisterMode = Replace | Merge

  /** `persistent` is the metadata the operator stores with every object. */
  datatype Config = Config(persistent: Meta, mode: RegisterMode)

  function ParentOf(k: Key): Option<Key> {
    match k
    case NsKey(_) => None
    case SvcKey(ns, _) => Some(NsKey(ns))
    case EpKey(ns, svc, _) => Some(SvcKey(ns, svc))
  }

  predicate HasParent(r: Registry, k: Key) {
    ParentOf(k).None? || ParentOf(k).value in r
  }

  predicate HasChildren(r: Registry, k: Key) {
    exists x | x in r :: ParentOf(x) == Some(k)
  }

  ghost predicate NoOrphans(r: Registry) {
    forall k :: k in r ==> HasParent(r, k)
  }

  function Lookup(r: Registry, k: Key): Option<Entry> {
    if k in r then Some(r[k]) else None
  }

  predicate OwnedEntry(e: Option<Entry>) {
    e.Some? && IsOwnedByOperator(e.value.meta)
  }

  /** The object a worker of namespace `ns` addresses when it handles `obj`. */
  function Target(ns: string, obj: Object): Key
    requires !obj.UnknownObj?
  {
    match obj
    case NamespaceObj(_) => NsKey(ns)
    case ServiceObj(_, name) => SvcKey(ns, name)
    case EndpointObj(e) => EpKey(ns, e.service, e.name)
  }

  /** What registering `obj` stores where `current` was stored before. */
  function Stored(c: Config, current: Option<Entry>, obj: Object): Entry
    requires !obj.UnknownObj?
  {
    var kept := if c.mode.Merge? && current.Some? then current.value.meta else map[];
    match obj
    case EndpointObj(e) => Instance(kept + e.metadata + c.persistent, e.address, e.port)
    case _ => Group(kept + c.persistent)
  }

  function Register(c: Config, r: Registry, k: Key, obj: Object): Registry
    requires !obj.UnknownObj?
  {
    if HasParent(r, k) then r[k := Stored(c, Lookup(r, k), obj)] else r
  }

  /** The guard a delete handler establishes before it deregisters `k`. */
  predicate Deletable(r: Registry, k: Key) {
    OwnedEntry(Lookup(r, k)) && (k.EpKey? || !HasChildren(r, k))
  }

  /**
   One event handled in one go by the worker of `ns`: the specification of the handlers.
   `ok` says whether every remote call the handler made succeeded.
   */
  function Perform(c: Config, ns: string, r: Registry, ev: Event, ok: bool): Registry {
    if !ok || ev.obj.UnknownObj? then r
    else
      var k := Target(ns, ev.obj);
      if ev.kind.Delete? then if Deletable(r, k) then r - {k} else r
      else Register(c, r, k, ev.obj)
  }

  /** An event a worker has finished with, and whether all its calls succeeded. */
  datatype Done = Done(ev: Event, ok: bool)

  function EventsOf(log: seq<Done>): (evs: seq<Event>)
    ensures |evs| == |log|
    ensures forall i :: 0 <= i < |log| ==> evs[i] == log[i].ev
  {
    seq(|log|, i requires 0 <= i < |log| => log[i].ev)
  }

  ghost predicate AllOk(log: seq<Done>) {
    forall i :: 0 <= i < |log| ==> log[i].ok
  }

  /** The registry a sequential worker leaves after `log`. */
  function Fold(c: Config, ns: string, r: Registry, log: seq<Done>): Registry {
    if log == [] then r
    else
      var last := log[|log| - 1];
      Perform(c, ns, Fold(c, ns, r, log[..|log| - 1]), last.ev, last.ok)
  }

  /** The same when every call succeeds. */
  function Replay(c: Config, ns: string, r: Registry, evs: seq<Event>): Registry {
    if evs == [] then r
    else Perform(c, ns, Replay(c, ns, r, evs[..|evs| - 1]), evs[|evs| - 1], true)
  }

  /** The part of the registry that belongs to namespace `n`. */
  function Subtree(r: Registry, n: string): Registry {
    map k | k in r && k.ns == n :: r[k]
  }

  /** The two registries agree on a service and its endpoints. */
  ghost predicate SameService(a: Registry, b: Registry, ns: string, svc: string) {
    forall k: Key :: !k.NsKey? && k.ns == ns && k.svc == svc ==> Lookup(a, k) == Lookup(b, k)
  }

  // ----- what one handler keeps -----

  /** A handler touches its own object only; which others exist decides nothing but the guard. */
  lemma PerformFrame(c: Config, ns: string, r: Registry, ev: Event, ok: bool, k: Key)
    requires ev.obj.UnknownObj? || k != Target(ns, ev.obj)
    ensures Lookup(Perform(c, ns, r, ev, ok), k) == Lookup(r, k)
  {
  }

  lemma PerformKeepsNoOrphans(c: Config, ns: string, r: Registry, ev: Event, ok: bool)
    requires NoOrphans(r)
    ensures NoOrphans(Perform(c, ns, r, ev, ok))
  {
    var r' := Perform(c, ns, r, ev, ok);
    forall k | k in r' ensures HasParent(r', k) {
      if k in r {
        assert HasParent(r, k);
      }
    }
  }

  lemma SubtreeFacts(r: Registry, n: string, k: Key)
    requires k.ns == n
    ensures Lookup(Subtree(r, n), k) == Lookup(r, k)
    ensures HasParent(Subtree(r, n), k) == HasParent(r, k)
    ensures HasChildren(Subtree(r, n), k) == HasChildren(r, k)
  {
    if HasChildren(r, k) {
      var x :| x in r && ParentOf(x) == Some(k);
      assert x in Subtree(r, n);
    }
  }

  /** Handling an event of `ns` commutes with looking at one namespace only. */
  lemma PerformSubtree(c: Config, ns: string, r: Registry, ev: Event, ok: bool, n: string)
    ensures Subtree(Perform(c, ns, r, ev, ok), n) ==
            if n == ns then Perform(c, ns, Subtree(r, n), ev, ok) else Subtree(r, n)
  {
    if !ev.obj.UnknownObj? {
      SubtreeFacts(r, ns, Target(ns, ev.obj));
    }
  }

  lemma {:induction false} FoldAppend(c: Config, ns: string, r: Registry, a: seq<Done>, b: seq<Done>)
    ensures Fold(c, ns, r, a + b) == Fold(c, ns, Fold(c, ns, r, a), b)
  {
    if b == [] {
      assert a + b == a;
    } else {
      FoldAppend(c, ns, r, a, b[..|b| - 1]);
      assert (a + b)[..|a + b| - 1] == a + b[..|b| - 1];
    }
  }

  lemma {:induction false} ReplayAppend(c: Config, ns: string, r: Registry, a: seq<Event>, b: seq<Event>)
    ensures Replay(c, ns, r, a + b) == Replay(c, ns, Replay(c, ns, r, a), b)
  {
    if b == [] {
      assert a + b == a;
    } else {
      ReplayAppend(c, ns, r, a, b[..|b| - 1]);
      assert (a + b)[..|a + b| - 1] == a + b[..|b| - 1];
    }
  }

  lemma ReplayOne(c: Config, ns: string, r: Registry, ev: Event)
    ensures Replay(c, ns, r, [ev]) == Perform(c, ns, r, ev, true)
  {
    assert [ev][..0] == [];
    assert Replay(c, ns, r, [ev][..0]) == r;
  }

  lemma {:induction false} AllOkIsReplay(c: Config, ns: string, r: Registry, log: seq<Done>)
    requires AllOk(log)
    ensures Fold(c, ns, r, log) == Replay(c, ns, r, EventsOf(log))
  {
    if log != [] {
      AllOkIsReplay(c, ns, r, log[..|log| - 1]);
      assert EventsOf(log)[..|log| - 1] == EventsOf(log[..|log| - 1]);
    }
  }
}
