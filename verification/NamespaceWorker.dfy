/** The worker of one namespace and its handlers, as they update a remote registry. */
module NamespaceWorkers {
  import opened Types
  import opened Registry
  import opened WorkerSteps
  import opened Meaning

  datatype Answer = Failed | Empty | First(key: Key)

  /**
   The client library. Every call may fail; a writing call may also report an error after it has
   taken effect. With `reliable` no call fails, except registering below a missing parent. `calls`
   records of each call whether it was answered or, for a writing call, took effect.
   */
  class RegistryClient {
    var objects: Registry
    ghost var calls: seq<bool>
    const mode: RegisterMode
    const reliable: bool

    constructor (objects: Registry, mode: RegisterMode, reliable: bool)
      ensures this.objects == objects && this.mode == mode && this.reliable == reliable && calls == []
    {
      this.objects, this.mode, this.reliable := objects, mode, reliable;
      calls := [];
    }

    method Get(k: Key) returns (e: Option<Entry>, ghost answered: bool)
      modifies this`calls
      ensures calls == old(calls) + [answered]
      ensures e == if answered then Lookup(objects, k) else None
      ensures reliable ==> answered
    {
      var failed := *;
      answered := reliable || !failed;
      e := None;
      if reliable || !failed {
        e := Lookup(objects, k);
      }
      calls := calls + [answered];
    }

    method ListChildren(k: Key) returns (l: Answer)
      modifies this`calls
      ensures calls == old(calls) + [!l.Failed?]
      ensures l.Empty? ==> !HasChildren(objects, k)
      ensures l.First? ==> l.key in objects && ParentOf(l.key) == Some(k)
      ensures reliable ==> !l.Failed?
    {
      var failed := *;
      if !reliable && failed {
        l := Failed;
      } else if HasChildren(objects, k) {
        var x :| x in objects && ParentOf(x) == Some(k);
        l := First(x);
      } else {
        l := Empty;
      }
      calls := calls + [!l.Failed?];
    }

    method RegisterObject(persistent: Meta, k: Key, obj: Object) returns (err: bool, ghost took: bool)
      requires !obj.UnknownObj?
      modifies this
      ensures calls == old(calls) + [took]
      ensures objects == if took then Register(Config(persistent, mode), old(objects), k, obj) else old(objects)
      ensures !err ==> took && HasParent(old(objects), k)
      ensures reliable ==> took
    {
      err := *;
      var applied := *;
      applied := reliable || applied || !err;
      took := applied;
      if applied {
        err := err || !HasParent(objects, k);
        objects := Register(Config(persistent, mode), objects, k, obj);
      }
      calls := calls + [took];
    }

    method Deregister(k: Key) returns (err: bool, ghost took: bool)
      modifies this
      ensures calls == old(calls) + [took]
      ensures objects == if took then old(objects) - {k} else old(objects)
      ensures !err ==> took
      ensures reliable ==> took
    {
      err := *;
      var applied := *;
      applied := reliable || applied || !err;
      took := applied;
      if applied {
        objects := objects - {k};
      }
      calls := calls + [took];
    }
  }

  /**
   A handler of `ev`, from `before` to `after`, made the calls `made`: these are the steps of the
   handler one by one, and together they are the guarded operation, a success iff each call was.
   */
  ghost predicate Handled(c: Config, ns: string, ev: Event, before: Registry, made: seq<bool>, after: Registry) {
    && Calls(c, ns, ev, FirstStep(ev), before, made) == (Finished, after)
    && CallsMade(c, ns, ev, FirstStep(ev), before, made) == |made|
    && after == Perform(c, ns, before, ev, AllTrue(made))
  }

  lemma HandledBy(c: Config, ns: string, ev: Event, before: Registry, made: seq<bool>, after: Registry)
    requires Calls(c, ns, ev, FirstStep(ev), before, made) == (Finished, after)
    requires CallsMade(c, ns, ev, FirstStep(ev), before, made) == |made|
    ensures Handled(c, ns, ev, before, made, after)
  {
    var more := made + [true, true, true];
    CallsRefinePerform(c, ns, ev, FirstStep(ev), before, more);
    CallsPrefix(c, ns, ev, FirstStep(ev), before, made, more);
    assert more[..|made|] == made;
  }

  lemma {:induction false} CallsPrefix(c: Config, ns: string, ev: Event, step: Step, r: Registry, made: seq<bool>, more: seq<bool>)
    requires made <= more && (!step.Finished? ==> !ev.obj.UnknownObj?)
    requires Calls(c, ns, ev, step, r, made).0.Finished?
    ensures Calls(c, ns, ev, step, r, more) == Calls(c, ns, ev, step, r, made)
    ensures CallsMade(c, ns, ev, step, r, more) == CallsMade(c, ns, ev, step, r, made)
    decreases |made|
  {
    if !step.Finished? {
      var (step', r') := Call(c, ns, ev, step, r, made[0]);
      assert made[1..] <= more[1..];
      CallsPrefix(c, ns, ev, step', r', made[1..], more[1..]);
    }
  }

  /** One more call. */
  lemma {:induction false} CallsAppend(c: Config, ns: string, ev: Event, step: Step, r: Registry, made: seq<bool>, ok: bool)
    requires !step.Finished? ==> !ev.obj.UnknownObj?
    requires CallsMade(c, ns, ev, step, r, made) == |made| && !Calls(c, ns, ev, step, r, made).0.Finished?
    ensures !ev.obj.UnknownObj?
    ensures var (s1, r1) := Calls(c, ns, ev, step, r, made);
      Calls(c, ns, ev, step, r, made + [ok]) == Call(c, ns, ev, s1, r1, ok)
    ensures CallsMade(c, ns, ev, step, r, made + [ok]) == |made| + 1
    decreases |made|
  {
    var (step', r') := Call(c, ns, ev, step, r, (made + [ok])[0]);
    if made == [] {
      assert (made + [ok])[1..] == [];
    } else {
      assert (made + [ok])[1..] == made[1..] + [ok];
      CallsAppend(c, ns, ev, step', r', made[1..], ok);
    }
  }

  class NamespaceWorker {
    const name: string
    const client: RegistryClient
    const persistentMeta: Meta
    var eventsChan: seq<Event>

    constructor (name: string, client: RegistryClient, persistentMeta: Meta)
      ensures this.name == name && this.client == client && this.persistentMeta == persistentMeta
      ensures eventsChan == []
    {
      this.name, this.client, this.persistentMeta := name, client, persistentMeta;
      eventsChan := [];
    }

    ghost function Conf(): Config {
      Config(persistentMeta, client.mode)
    }

    /** With a reliable client every call succeeds. */
    ghost predicate Made(before: seq<bool>, made: seq<bool>)
      reads client
    {
      client.calls == before + made && (client.reliable ==> AllTrue(made))
    }

    method HandleCreateUpdate(ev: Event) returns (ghost made: seq<bool>)
      requires !ev.kind.Delete?
      modifies client
      ensures Made(old(client.calls), made)
      ensures Handled(Conf(), name, ev, old(client.objects), made, client.objects)
      ensures AllTrue(made) && ev.obj.NamespaceObj? ==>
        DescribesGroup(Conf(), Lookup(old(client.objects), NsKey(name)), Lookup(client.objects, NsKey(name)))
      ensures AllTrue(made) && ev.obj.ServiceObj? && NsKey(name) in old(client.objects) ==>
        var k := SvcKey(name, ev.obj.name); DescribesGroup(Conf(), Lookup(old(client.objects), k), Lookup(client.objects, k))
      ensures AllTrue(made) && ev.obj.EndpointObj? && SvcKey(name, ev.obj.endpoint.service) in old(client.objects) ==>
        var e := ev.obj.endpoint; var k := EpKey(name, e.service, e.name);
        Describes(Conf(), Lookup(old(client.objects), k), Lookup(client.objects, k), e)
    {
      made := [];
      if ev.obj.UnknownObj? {
        return;
      }
      var err;
      ghost var took;
      match ev.obj {
        case NamespaceObj(_) =>
          err, took := client.RegisterObject(persistentMeta, NsKey(name), ev.obj);
        case ServiceObj(_, service) =>
          err, took := client.RegisterObject(persistentMeta, SvcKey(name, service), ev.obj);
        case EndpointObj(e) =>
          err, took := client.RegisterObject(persistentMeta, EpKey(name, e.service, e.name), ev.obj);
      }
      CallsAppend(Conf(), name, ev, FirstStep(ev), old(client.objects), [], took);
      made := [] + [took];
      HandledBy(Conf(), name, ev, old(client.objects), made, client.objects);
      RegisterDescribes(Conf(), name, old(client.objects), ev);
    }

    method HandleDeleteEndpoint(endpoint: Endpoint) returns (ghost made: seq<bool>)
      modifies client
      ensures Made(old(client.calls), made)
      ensures Handled(Conf(), name, Event(Delete, EndpointObj(endpoint)), old(client.objects), made, client.objects)
      ensures var k := EpKey(name, endpoint.service, endpoint.name); var r := old(client.objects);
        AllTrue(made) && k in r ==>
          (k !in client.objects <==> "owner" in r[k].meta && r[k].meta["owner"] == "cnwan-operator")
    {
      DeleteEndpointMeans(Conf(), name, client.objects, endpoint);
      ghost var ev := Event(Delete, EndpointObj(endpoint));
      var eop := EpKey(name, endpoint.service, endpoint.name);
      var ep, answered := client.Get(eop);
      CallsAppend(Conf(), name, ev, FirstStep(ev), client.objects, [], answered);
      made := [] + [answered];
      if ep.None? || !IsOwnedByOperator(ep.value.meta) {
        HandledBy(Conf(), name, ev, old(client.objects), made, client.objects);
        return;
      }
      var err, took := client.Deregister(eop);
      CallsAppend(Conf(), name, ev, FirstStep(ev), old(client.objects), made, took);
      made := made + [took];
      HandledBy(Conf(), name, ev, old(client.objects), made, client.objects);
    }

    method HandleDeleteService(namespace: string, service: string) returns (ghost made: seq<bool>)
      modifies client
      ensures Made(old(client.calls), made)
      ensures Handled(Conf(), name, Event(Delete, ServiceObj(namespace, service)), old(client.objects), made, client.objects)
      ensures var k := SvcKey(name, service); var r := old(client.objects);
        AllTrue(made) && k in r ==>
          (k !in client.objects <==>
            && "owner" in r[k].meta && r[k].meta["owner"] == "cnwan-operator"
            && forall ep {:trigger EpKey(name, service, ep)} :: EpKey(name, service, ep) !in r)
    {
      DeleteServiceMeans(Conf(), name, client.objects, namespace, service);
      made := DeleteIfEmpty(Event(Delete, ServiceObj(namespace, service)), SvcKey(name, service));
    }

    method HandleDeleteNamespace(namespace: string) returns (ghost made: seq<bool>)
      modifies client
      ensures Made(old(client.calls), made)
      ensures Handled(Conf(), name, Event(Delete, NamespaceObj(namespace)), old(client.objects), made, client.objects)
      ensures var k := NsKey(name); var r := old(client.objects);
        AllTrue(made) && k in r ==>
          (k !in client.objects <==>
            && "owner" in r[k].meta && r[k].meta["owner"] == "cnwan-operator"
            && forall svc {:trigger SvcKey(name, svc)} :: SvcKey(name, svc) !in r)
    {
      DeleteNamespaceMeans(Conf(), name, client.objects, namespace);
      made := DeleteIfEmpty(Event(Delete, NamespaceObj(namespace)), NsKey(name));
    }

    /** What deleting a service and deleting a namespace have in common. */
    method DeleteIfEmpty(ghost ev: Event, k: Key) returns (ghost made: seq<bool>)
      requires ev.kind.Delete? && !ev.obj.UnknownObj? && Target(name, ev.obj) == k && !k.EpKey?
      modifies client
      ensures Made(old(client.calls), made)
      ensures Handled(Conf(), name, ev, old(client.objects), made, client.objects)
    {
      var e, answered := client.Get(k);
      CallsAppend(Conf(), name, ev, FirstStep(ev), client.objects, [], answered);
      made := [] + [answered];
      if e.None? || !IsOwnedByOperator(e.value.meta) {
        HandledBy(Conf(), name, ev, old(client.objects), made, client.objects);
        return;
      }
      var first := client.ListChildren(k);
      CallsAppend(Conf(), name, ev, FirstStep(ev), client.objects, made, !first.Failed?);
      made := made + [!first.Failed?];
      if !first.Empty? {
        HandledBy(Conf(), name, ev, old(client.objects), made, client.objects);
        return;
      }
      var err, took := client.Deregister(k);
      CallsAppend(Conf(), name, ev, FirstStep(ev), old(client.objects), made, took);
      made := made + [took];
      HandledBy(Conf(), name, ev, old(client.objects), made, client.objects);
    }

    method HandleEvent(ev: Event) returns (ghost made: seq<bool>)
      modifies client
      ensures Made(old(client.calls), made)
      ensures Handled(Conf(), name, ev, old(client.objects), made, client.objects)
    {
      made := [];
      match ev.kind
      case Create => made := HandleCreateUpdate(ev);
      case Update => made := HandleCreateUpdate(ev);
      case Delete =>
        match ev.obj
        case NamespaceObj(namespace) => made := HandleDeleteNamespace(namespace);
        case ServiceObj(namespace, service) => made := HandleDeleteService(namespace, service);
        case EndpointObj(endpoint) => made := HandleDeleteEndpoint(endpoint);
        case UnknownObj =>
    }

    /**
     The worker's loop, up to the point where it exits or blocks on an empty queue. When stop was
     requested while events are queued, either branch of the select may be taken. Each event's
     outcome is that of the calls made for it.
     */
    method HandleNamespacedEvents(stopRequested: bool) returns (ghost log: seq<Done>, ghost made: seq<seq<bool>>)
      modifies this`eventsChan, client
      ensures old(eventsChan) == EventsOf(log) + eventsChan
      ensures client.objects == Fold(Conf(), name, old(client.objects), log)
      ensures !stopRequested ==> eventsChan == []
      ensures Outcomes(log, made) && client.calls == old(client.calls) + Flat(made)
      ensures client.reliable ==> AllOk(log)
    {
      log, made := [], [];
      assert client.calls == old(client.calls) + Flat(made);
      while true
        invariant old(eventsChan) == EventsOf(log) + eventsChan
        invariant Logged(Conf(), name, old(client.objects), log, made, client.objects)
        invariant client.calls == old(client.calls) + Flat(made)
        invariant client.reliable ==> AllOk(log)
        decreases |eventsChan|
      {
        var stopFirst := *;
        if eventsChan == [] || (stopRequested && stopFirst) {
          return;
        }
        ghost var queue, objects, calls := eventsChan, client.objects, client.calls;
        var event := eventsChan[0];
        eventsChan := eventsChan[1..];
        ghost var its := HandleEvent(event);
        QueueNext(old(eventsChan), log, Done(event, AllTrue(its)), queue);
        LogNext(Conf(), name, old(client.objects), log, made, objects, event, its);
        CallsNext(old(client.calls), made, its);
        log, made := log + [Done(event, AllTrue(its))], made + [its];
      }
    }
  }

  /** The registry is the fold of the log, each outcome being that of the calls made for the event. */
  ghost predicate Logged(c: Config, ns: string, before: Registry, log: seq<Done>, made: seq<seq<bool>>, after: Registry) {
    Outcomes(log, made) && after == Fold(c, ns, before, log)
  }

  /** The calls made for the events of a log, one event after the other. */
  ghost function Flat(made: seq<seq<bool>>): seq<bool> {
    if made == [] then [] else Flat(made[..|made| - 1]) + made[|made| - 1]
  }

  ghost predicate Outcomes(log: seq<Done>, made: seq<seq<bool>>) {
    |made| == |log| && forall i :: 0 <= i < |log| ==> log[i].ok == AllTrue(made[i])
  }

  /** One more event handled. */
  lemma LogNext(c: Config, ns: string, before: Registry, log: seq<Done>, made: seq<seq<bool>>, r: Registry, ev: Event, its: seq<bool>)
    requires Logged(c, ns, before, log, made, r)
    ensures Logged(c, ns, before, log + [Done(ev, AllTrue(its))], made + [its], Perform(c, ns, r, ev, AllTrue(its)))
    ensures AllOk(log) && AllTrue(its) ==> AllOk(log + [Done(ev, AllTrue(its))])
  {
    var log' := log + [Done(ev, AllTrue(its))];
    assert log'[..|log|] == log && log'[|log|] == Done(ev, AllTrue(its));
  }

  lemma QueueNext(all: seq<Event>, log: seq<Done>, d: Done, queue: seq<Event>)
    requires all == EventsOf(log) + queue && queue != [] && d.ev == queue[0]
    ensures all == EventsOf(log + [d]) + queue[1..]
  {
    assert EventsOf(log + [d]) == EventsOf(log) + [d.ev];
  }

  lemma CallsNext(before: seq<bool>, made: seq<seq<bool>>, its: seq<bool>)
    ensures before + Flat(made) + its == before + Flat(made + [its])
  {
    assert (made + [its])[..|made|] == made;
  }
}
