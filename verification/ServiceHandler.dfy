/** The handlers of a service's create, update and delete events, and what they send. */
module ServiceHandlers {
  import opened Types
  import opened Services
  import opened Batches

  /** The channel to the dispatcher, as everything sent on it so far. */
  class EventsChan {
    var sent: seq<Event>

    constructor ()
      ensures sent == []
    {
      sent := [];
    }

    /** What was sent since `before`. */
    ghost function Since(before: seq<Event>): seq<Event>
      reads this
    {
      if |before| <= |sent| then sent[|before|..] else []
    }

    method Send(ev: Event)
      modifies this
      ensures sent == old(sent) + [ev]
    {
      sent := sent + [ev];
    }

    /** Sends `kind` for each endpoint, in order. */
    method SendEach(kind: EventType, eps: seq<Endpoint>)
      modifies this
      ensures sent == old(sent) + Each(kind, eps)
    {
      for i := 0 to |eps|
        invariant sent == old(sent) + Each(kind, eps)[..i]
      {
        Send(Event(kind, EndpointObj(eps[i])));
      }
    }
  }

  // ----- specification -----

  function CreateEvents(ns: string, svc: string, eps: seq<Endpoint>): seq<Event> {
    [Event(Create, NamespaceObj(ns)), Event(Create, ServiceObj(ns, svc))] + Each(Create, eps)
  }

  function DeleteEvents(ns: string, svc: string, eps: seq<Endpoint>): seq<Event> {
    Each(Delete, eps) + [Event(Delete, ServiceObj(ns, svc))]
  }

  /** For each old name, a delete or an update to the current endpoint of that name. */
  function DiffEvents(order: seq<string>, olds: Endpoints, currs: Endpoints): (evs: seq<Event>)
    requires forall n :: n in order ==> n in olds
    ensures |evs| == |order|
  {
    seq(|order|, i requires 0 <= i < |order| =>
      if order[i] in currs then Event(Update, EndpointObj(currs[order[i]]))
      else Event(Delete, EndpointObj(olds[order[i]])))
  }

  /** A create for each current endpoint whose name is not in `known`. */
  function NewEvents(order: seq<string>, currs: Endpoints, known: Endpoints): seq<Event>
    requires forall n :: n in order ==> n in currs
  {
    if order == [] then []
    else
      var n := order[|order| - 1];
      NewEvents(order[..|order| - 1], currs, known) +
      if n in known then [] else [Event(Create, EndpointObj(currs[n]))]
  }

  /** The events of an update between two passing services, with the guard on the names `known`. */
  function UpdateEvents(ns: string, svc: string, o: seq<string>, olds: Endpoints, k: seq<string>,
        currs: Endpoints, known: Endpoints): seq<Event>
    requires forall n :: n in o ==> n in olds
    requires forall n :: n in k ==> n in currs
  {
    CreateEvents(ns, svc, []) + DiffEvents(o, olds, currs) + NewEvents(k, currs, known)
  }

  /** The parent namespace was found and is watched. */
  predicate Watched(opts: Options, labels: Option<Meta>) {
    labels.Some? && CheckNsLabels(labels.value, opts.watchByDefault)
  }

  /** A namespace is watched by its label or, without a label that decides, by default. */
  lemma WatchedMeans(opts: Options, labels: Option<Meta>)
    ensures Watched(opts, labels) <==>
      && labels.Some?
      && (|| ("operator.cnwan.io/watch" in labels.value && labels.value["operator.cnwan.io/watch"] == "enabled")
          || (opts.watchByDefault &&
              ("operator.cnwan.io/watch" !in labels.value || labels.value["operator.cnwan.io/watch"] != "disabled")))
  {
  }

  ghost predicate CreateSends(opts: Options, s: Service, labels: Option<Meta>, dns: Resolver, evs: seq<Event>) {
    if Watched(opts, labels) && Passes(s, opts, dns)
    then exists eps :: Derives(s, opts, dns, eps) && evs == CreateEvents(s.namespace, s.name, eps)
    else evs == []
  }

  ghost predicate DeleteSends(opts: Options, s: Service, labels: Option<Meta>, dns: Resolver, evs: seq<Event>) {
    if !Watched(opts, labels) then evs == []
    else if !Passes(s, opts, dns) then evs == DeleteEvents(s.namespace, s.name, [])
    else exists eps :: Derives(s, opts, dns, eps) && evs == DeleteEvents(s.namespace, s.name, eps)
  }

  /** Both versions pass: `evs` for some order of addresses and of both maps. */
  ghost predicate DiffSends(opts: Options, prev: Service, curr: Service, oldDns: Resolver, currDns: Resolver,
        evs: seq<Event>) {
    exists oldEps, currEps, o, k ::
      && Derives(prev, opts, oldDns, oldEps) && Derives(curr, opts, currDns, currEps)
      && Lists(o, ByName(oldEps).Keys) && Lists(k, ByName(currEps).Keys)
      && evs == UpdateEvents(curr.namespace, curr.name, o, ByName(oldEps), k, ByName(currEps), ByName(currEps))
  }

  ghost predicate UpdateSends(opts: Options, prev: Service, curr: Service, labels: Option<Meta>,
        oldDns: Resolver, currDns: Resolver, evs: seq<Event>) {
    if curr.deleting then
      if prev.deleting then evs == [] else DeleteSends(opts, curr, labels, currDns, evs)
    else if !Watched(opts, labels) then evs == []
    else
      match (Passes(prev, opts, oldDns), Passes(curr, opts, currDns))
      case (false, false) => evs == []
      case (true, false) => exists eps :: Derives(prev, opts, oldDns, eps) && evs == DeleteEvents(prev.namespace, prev.name, eps)
      case (false, true) => CreateSends(opts, curr, labels, currDns, evs)
      case (true, true) => DiffSends(opts, prev, curr, oldDns, currDns, evs)
  }

  lemma AppendAssociates(a: seq<Event>, b: seq<Event>, c: seq<Event>, d: seq<Event>)
    ensures a + b + c + d == a + (b + c + d)
  {
  }

  // ----- the handler -----

  class ServiceEventHandler {
    const opts: Options
    const eventsChan: EventsChan

    constructor (opts: Options, eventsChan: EventsChan)
      ensures this.opts == opts && this.eventsChan == eventsChan
    {
      this.opts, this.eventsChan := opts, eventsChan;
    }

    method SendCreate(service: Service, endpoints: seq<Endpoint>)
      modifies eventsChan
      ensures eventsChan.sent == old(eventsChan.sent) + CreateEvents(service.namespace, service.name, endpoints)
    {
      eventsChan.Send(Event(EventType.Create, NamespaceObj(service.namespace)));
      eventsChan.Send(Event(EventType.Create, ServiceObj(service.namespace, service.name)));
      eventsChan.SendEach(EventType.Create, endpoints);
    }

    method SendDelete(service: Service, endpoints: seq<Endpoint>)
      modifies eventsChan
      ensures eventsChan.sent == old(eventsChan.sent) + DeleteEvents(service.namespace, service.name, endpoints)
    {
      eventsChan.SendEach(EventType.Delete, endpoints);
      eventsChan.Send(Event(EventType.Delete, ServiceObj(service.namespace, service.name)));
    }

    method Create(service: Service, labels: Option<Meta>, dns: Resolver)
      modifies eventsChan
      ensures old(eventsChan.sent) <= eventsChan.sent
      ensures CreateSends(opts, service, labels, dns, eventsChan.Since(old(eventsChan.sent)))
      ensures labels == None ==> eventsChan.sent == old(eventsChan.sent)
      ensures labels.Some? && "operator.cnwan.io/watch" in labels.value && labels.value["operator.cnwan.io/watch"] == "disabled" ==>
        eventsChan.sent == old(eventsChan.sent)
      ensures labels.Some? && "operator.cnwan.io/watch" !in labels.value && !opts.watchByDefault ==>
        eventsChan.sent == old(eventsChan.sent)
    {
      WatchedMeans(opts, labels);
      if !Watched(opts, labels) {
        return;
      }
      var checkedService := CheckService(service, opts, dns);
      if !checkedService.passed {
        return;
      }
      ghost var before := eventsChan.sent;
      SendCreate(service, checkedService.endpoints);
      assert eventsChan.Since(before) == CreateEvents(service.namespace, service.name, checkedService.endpoints);
    }

    method HandleDelete(service: Service, labels: Option<Meta>, dns: Resolver)
      modifies eventsChan
      ensures old(eventsChan.sent) <= eventsChan.sent
      ensures DeleteSends(opts, service, labels, dns, eventsChan.Since(old(eventsChan.sent)))
      ensures labels == None ==> eventsChan.sent == old(eventsChan.sent)
      ensures labels.Some? && "operator.cnwan.io/watch" in labels.value && labels.value["operator.cnwan.io/watch"] == "disabled" ==>
        eventsChan.sent == old(eventsChan.sent)
      ensures labels.Some? && "operator.cnwan.io/watch" !in labels.value && !opts.watchByDefault ==>
        eventsChan.sent == old(eventsChan.sent)
    {
      WatchedMeans(opts, labels);
      if !Watched(opts, labels) {
        return;
      }
      var checkedService := CheckService(service, opts, dns);
      ghost var before := eventsChan.sent;
      SendDelete(service, checkedService.endpoints);
      assert eventsChan.Since(before) == DeleteEvents(service.namespace, service.name, checkedService.endpoints);
    }

    /**
     The two loops over the endpoint maps, each in the order Go happens to iterate. The second one
     creates the endpoints whose names are not in `known`.
     */
    method SendDiff(oldEndpoints: Endpoints, currEndpoints: Endpoints, known: Endpoints)
      returns (ghost o: seq<string>, ghost k: seq<string>)
      modifies eventsChan
      ensures Lists(o, oldEndpoints.Keys) && Lists(k, currEndpoints.Keys)
      ensures eventsChan.sent ==
              old(eventsChan.sent) + DiffEvents(o, oldEndpoints, currEndpoints) + NewEvents(k, currEndpoints, known)
    {
      var oldNames := KeysInSomeOrder(oldEndpoints.Keys);
      o := oldNames;
      for i := 0 to |oldNames|
        invariant eventsChan.sent == old(eventsChan.sent) + DiffEvents(oldNames[..i], oldEndpoints, currEndpoints)
      {
        assert oldNames[..i + 1] == oldNames[..i] + [oldNames[i]];
        if oldNames[i] !in currEndpoints {
          eventsChan.Send(Event(EventType.Delete, EndpointObj(oldEndpoints[oldNames[i]])));
        } else {
          eventsChan.Send(Event(EventType.Update, EndpointObj(currEndpoints[oldNames[i]])));
        }
      }
      assert oldNames[..|oldNames|] == oldNames;
      ghost var middle := eventsChan.sent;
      var currNames := KeysInSomeOrder(currEndpoints.Keys);
      k := currNames;
      for i := 0 to |currNames|
        invariant eventsChan.sent == middle + NewEvents(currNames[..i], currEndpoints, known)
      {
        assert currNames[..i + 1][..i] == currNames[..i];
        if currNames[i] !in known {
          eventsChan.Send(Event(EventType.Create, EndpointObj(currEndpoints[currNames[i]])));
        }
      }
      assert currNames[..|currNames|] == currNames;
    }

    /** Both versions of the service pass: make sure it is registered, then send what changed. */
    method SendChanges(curr: Service, oldEps: seq<Endpoint>, currEps: seq<Endpoint>)
      returns (ghost o: seq<string>, ghost k: seq<string>)
      modifies eventsChan
      ensures Lists(o, ByName(oldEps).Keys) && Lists(k, ByName(currEps).Keys)
      ensures eventsChan.sent == old(eventsChan.sent) +
              UpdateEvents(curr.namespace, curr.name, o, ByName(oldEps), k, ByName(currEps), ByName(currEps))
    {
      SendCreate(curr, []);
      var oldEndpoints := GetEndpointsMapFromSlice(oldEps);
      var currEndpoints := GetEndpointsMapFromSlice(currEps);
      // The names looked up are those of the very map that is iterated, as in the source.
      o, k := SendDiff(oldEndpoints, currEndpoints, currEndpoints);
      AppendAssociates(old(eventsChan.sent), CreateEvents(curr.namespace, curr.name, []),
                       DiffEvents(o, oldEndpoints, currEndpoints), NewEvents(k, currEndpoints, currEndpoints));
    }

    method Update(prev: Service, curr: Service, labels: Option<Meta>, oldDns: Resolver, currDns: Resolver)
      modifies eventsChan
      ensures old(eventsChan.sent) <= eventsChan.sent
      ensures UpdateSends(opts, prev, curr, labels, oldDns, currDns, eventsChan.Since(old(eventsChan.sent)))
    {
      if curr.deleting {
        if prev.deleting {
          return;
        }
        HandleDelete(curr, labels, currDns);
        return;
      }
      if !Watched(opts, labels) {
        return;
      }
      UpdateWatched(prev, curr, labels, oldDns, currDns);
    }

    /** The rest of `Update`, for a service in a watched namespace that is not being deleted. */
    method UpdateWatched(prev: Service, curr: Service, ghost labels: Option<Meta>, oldDns: Resolver, currDns: Resolver)
      requires !curr.deleting && Watched(opts, labels)
      modifies eventsChan
      ensures old(eventsChan.sent) <= eventsChan.sent
      ensures UpdateSends(opts, prev, curr, labels, oldDns, currDns, eventsChan.Since(old(eventsChan.sent)))
    {
      ghost var before := eventsChan.sent;
      var currChecked := CheckService(curr, opts, currDns);
      var oldChecked := CheckService(prev, opts, oldDns);
      if !oldChecked.passed && !currChecked.passed {
        return;
      }
      if oldChecked.passed && !currChecked.passed {
        SendDelete(prev, oldChecked.endpoints);
        assert eventsChan.Since(before) == DeleteEvents(prev.namespace, prev.name, oldChecked.endpoints);
        return;
      }
      if !oldChecked.passed && currChecked.passed {
        SendCreate(curr, currChecked.endpoints);
        assert eventsChan.Since(before) == CreateEvents(curr.namespace, curr.name, currChecked.endpoints);
        return;
      }
      ghost var o, k := SendChanges(curr, oldChecked.endpoints, currChecked.endpoints);
      ghost var evs := eventsChan.Since(before);
      assert evs == UpdateEvents(curr.namespace, curr.name, o, ByName(oldChecked.endpoints),
                                 k, ByName(currChecked.endpoints), ByName(currChecked.endpoints));
      assert DiffSends(opts, prev, curr, oldDns, currDns, evs);
    }
  }
}
