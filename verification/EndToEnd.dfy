/**
 All layers together: what a handler sent, dispatched to the workers and processed under any orderly
 schedule, brings the registry to what the handler is for.
 */
module EndToEnd {
  import opened Types
  import opened Registry
  import opened WorkerSteps
  import opened Machine
  import opened Interleaving
  import opened Locality
  import opened Services
  import opened ServiceHandlers
  import opened ServiceConvergence
  import opened ServiceRuns
  import opened NamespaceHandlers
  import opened NamespaceConvergence

  lemma {:induction false} ReplaySubtree(c: Config, ns: string, r: Registry, evs: seq<Event>)
    ensures Subtree(Replay(c, ns, r, evs), ns) == Replay(c, ns, Subtree(r, ns), evs)
  {
    if evs != [] {
      var before := evs[..|evs| - 1];
      ReplaySubtree(c, ns, r, before);
      PerformSubtree(c, ns, Replay(c, ns, r, before), evs[|evs| - 1], true, ns);
    }
  }

  /** Everything came to rest and every call for `ns` succeeded. */
  ghost predicate Settled(s: State, ns: string) {
    Quiet(s) && AllOk(ProcessedBy(s.gens, ns))
  }

  /** Each object is what handling its namespace's received events in order makes of it. */
  lemma SettledRegistry(c: Config, r0: Registry, acts: seq<Action>, k: Key)
    requires IsOrderlyRun(c, Initial(r0), acts)
    ensures IsRun(c, Initial(r0), acts)
    ensures var s := After(c, Initial(r0), acts);
      Settled(s, k.ns) ==> Lookup(s.reg, k) == Lookup(Replay(c, k.ns, r0, ByNamespace(s.received, k.ns)), k)
  {
    QuietRunProcessedAll(c, r0, acts, k.ns);
    var s := After(c, Initial(r0), acts);
    ReplaySubtree(c, k.ns, r0, ByNamespace(s.received, k.ns));
    SubtreeFacts(s.reg, k.ns, k);
    SubtreeFacts(Replay(c, k.ns, r0, ByNamespace(s.received, k.ns)), k.ns, k);
  }

  /** After `history`, the received events are those of `own`, interleaved with `others`. */
  ghost predicate Follows(received: seq<Event>, history: seq<Event>, own: seq<Event>, others: seq<Event>) {
    history <= received && IsMerge(received[|history|..], own, others)
  }

  /** Once settled, a service is what its own events made of it, whatever else was going on. */
  lemma SettledService(c: Config, r0: Registry, acts: seq<Action>, ns: string, svc: string,
        history: seq<Event>, own: seq<Event>, others: seq<Event>)
    requires IsOrderlyRun(c, Initial(r0), acts)
    requires forall i :: 0 <= i < |others| ==> Elsewhere(svc, others[i])
    requires forall i :: 0 <= i < |own| ==> !DeletesNamespace(own[i])
    requires NsKey(ns) in Replay(c, ns, r0, history) || (own != [] ==> own[0].kind.Create? && own[0].obj.NamespaceObj?)
    ensures IsRun(c, Initial(r0), acts)
    ensures var s := After(c, Initial(r0), acts);
      Settled(s, ns) && Follows(ByNamespace(s.received, ns), history, own, others) ==>
        SameService(Replay(c, ns, Replay(c, ns, r0, history), own), s.reg, ns, svc)
  {
    OrderlyRunIsRun(c, Initial(r0), acts);
    var s := After(c, Initial(r0), acts);
    var received := ByNamespace(s.received, ns);
    if Settled(s, ns) && Follows(received, history, own, others) {
      var all := received[|history|..];
      assert received == history + all;
      ReplayAppend(c, ns, r0, history, all);
      ServiceLocality(c, ns, svc, Replay(c, ns, r0, history), all, own, others);
      forall k: Key | !k.NsKey? && k.ns == ns && k.svc == svc
        ensures Lookup(Replay(c, ns, Replay(c, ns, r0, history), own), k) == Lookup(s.reg, k)
      {
        SettledRegistry(c, r0, acts, k);
      }
    }
  }

  /**
   A service's update through the whole operator. Let the registry hold the old endpoints of the
   service once some `history` of its namespace was handled, and let the update's events be
   interleaved with events for other services. Once settled, the registry holds the current
   endpoints whose names were old, with their current address, port and metadata; these are all
   current endpoints if and only if none of them has a new name.
   */
  lemma UpdateEndToEnd(c: Config, r0: Registry, acts: seq<Action>, opts: Options,
        prev: Service, curr: Service, oldDns: Resolver, currDns: Resolver,
        history: seq<Event>, evs: seq<Event>, others: seq<Event>)
    requires IsOwnedByOperator(c.persistent) && prev.name == curr.name && prev.namespace == curr.namespace
    requires HoldsService(Replay(c, curr.namespace, r0, history), prev, opts, oldDns)
    requires DiffSends(opts, prev, curr, oldDns, currDns, evs)
    requires forall i :: 0 <= i < |others| ==> Elsewhere(curr.name, others[i])
    requires IsOrderlyRun(c, Initial(r0), acts)
    ensures IsRun(c, Initial(r0), acts)
    ensures var s := After(c, Initial(r0), acts);
      Settled(s, curr.namespace) && Follows(ByNamespace(s.received, curr.namespace), history, evs, others) ==>
        && HoldsCommon(s.reg, curr.namespace, curr.name, EndpointNames(prev, opts, oldDns), EndpointNames(curr, opts, currDns))
        && UpToDateService(c, s.reg, Replay(c, curr.namespace, r0, history), curr, opts, currDns)
        && (HoldsService(s.reg, curr, opts, currDns) <==> EndpointNames(curr, opts, currDns) <= EndpointNames(prev, opts, oldDns))
  {
    var ns, svc := curr.namespace, curr.name;
    var before := Replay(c, ns, r0, history);
    DiffStartsWithNamespace(opts, prev, curr, oldDns, currDns, evs);
    SettledService(c, r0, acts, ns, svc, history, evs, others);
    UpdateHandlerOutcome(c, before, opts, prev, curr, oldDns, currDns, evs);
    var s := After(c, Initial(r0), acts);
    if Settled(s, ns) && Follows(ByNamespace(s.received, ns), history, evs, others) {
      SameOutcome(c, Replay(c, ns, before, evs), s.reg, before, curr, opts, currDns,
                  EndpointNames(prev, opts, oldDns), EndpointNames(curr, opts, currDns));
    }
  }

  lemma DiffStartsWithNamespace(opts: Options, prev: Service, curr: Service, oldDns: Resolver,
        currDns: Resolver, evs: seq<Event>)
    requires DiffSends(opts, prev, curr, oldDns, currDns, evs) && prev.name == curr.name
    ensures evs != [] && evs[0].kind.Create? && evs[0].obj.NamespaceObj?
    ensures forall i :: 0 <= i < |evs| ==> !DeletesNamespace(evs[i])
  {
    var a, b, o, k :|
      && Derives(prev, opts, oldDns, a) && Derives(curr, opts, currDns, b)
      && Lists(o, ByName(a).Keys) && Lists(k, ByName(b).Keys)
      && evs == UpdateEvents(curr.namespace, curr.name, o, ByName(a), k, ByName(b), ByName(b));
    UpdateStartsWithNamespace(curr.namespace, curr.name, o, ByName(a), k, ByName(b));
  }

  lemma UpdateStartsWithNamespace(ns: string, svc: string, o: seq<string>, olds: Endpoints, k: seq<string>, currs: Endpoints)
    requires (forall n :: n in o ==> n in olds) && (forall n :: n in k ==> n in currs)
    ensures var evs := UpdateEvents(ns, svc, o, olds, k, currs, currs);
      && evs != [] && evs[0].kind.Create? && evs[0].obj.NamespaceObj?
      && forall i :: 0 <= i < |evs| ==> !DeletesNamespace(evs[i])
  {
    var evs := UpdateEvents(ns, svc, o, olds, k, currs, currs);
    NothingNewSent(k, currs);
    assert evs == CreateEvents(ns, svc, []) + DiffEvents(o, olds, currs);
    forall i | 0 <= i < |evs| ensures !DeletesNamespace(evs[i]) {
      assert i >= 2 ==> evs[i] == DiffEvents(o, olds, currs)[i - 2];
    }
  }

  /** The outcome of an update is about its service only. */
  lemma SameOutcome(c: Config, a: Registry, b: Registry, before: Registry, s: Service, opts: Options,
        dns: Resolver, olds: set<string>, currs: set<string>)
    requires SameService(a, b, s.namespace, s.name)
    ensures HoldsCommon(a, s.namespace, s.name, olds, currs) ==> HoldsCommon(b, s.namespace, s.name, olds, currs)
    ensures UpToDateService(c, a, before, s, opts, dns) ==> UpToDateService(c, b, before, s, opts, dns)
    ensures HoldsService(a, s, opts, dns) <==> HoldsService(b, s, opts, dns)
  {
    forall n {:trigger EpKey(s.namespace, s.name, n)}
      ensures Lookup(a, EpKey(s.namespace, s.name, n)) == Lookup(b, EpKey(s.namespace, s.name, n))
    {
    }
  }

  /**
   Tearing down a namespace through the whole operator, after any history: once settled, exactly the
   endpoints Kubernetes' services account for are gone, where the operator owned them, and what they
   left empty.
   */
  lemma TeardownEndToEnd(c: Config, r0: Registry, acts: seq<Action>, opts: Options, ns: string,
        services: seq<Service>, dns: nat -> Resolver, history: seq<Event>, evs: seq<Event>) returns (items: seq<Item>)
    requires DistinctNames(services) && NamespaceSends(opts, ns, Delete, Some(services), dns, evs)
    requires IsOrderlyRun(c, Initial(r0), acts)
    ensures IsRun(c, Initial(r0), acts)
    ensures forall svc :: ListedService(items, svc) <==> Reported(opts, services, dns, |services|, svc)
    ensures forall svc, ep :: Listed(items, svc, ep) <==> ReportedEndpoint(opts, services, dns, |services|, svc, ep)
    ensures var s := After(c, Initial(r0), acts);
      Settled(s, ns) && ByNamespace(s.received, ns) == history + evs ==>
        Subtree(s.reg, ns) == Subtree(TornDown(Replay(c, ns, r0, history), ns, items), ns)
  {
    QuietRunProcessedAll(c, r0, acts, ns);
    ReplaySubtree(c, ns, r0, history + evs);
    ReplayAppend(c, ns, r0, history, evs);
    items := TeardownHandlerOutcome(c, Replay(c, ns, r0, history), opts, ns, services, dns, evs);
  }

  // ----- settling is possible -----

  lemma {:induction false} OrderlyAppend(c: Config, s: State, acts: seq<Action>, a: Action)
    requires IsOrderlyRun(c, s, acts) && IsRun(c, s, acts)
    requires Enabled(After(c, s, acts), a) && Orderly(After(c, s, acts), a)
    ensures IsOrderlyRun(c, s, acts + [a]) && IsRun(c, s, acts + [a])
    ensures After(c, s, acts + [a]) == Next(c, After(c, s, acts), a)
    decreases |acts|
  {
    if acts == [] {
      assert acts + [a] == [a] && [a][1..] == [];
      assert After(c, s, [a]) == After(c, Next(c, s, a), []);
    } else {
      assert (acts + [a])[0] == acts[0] && (acts + [a])[1..] == acts[1..] + [a];
      OrderlyAppend(c, Next(c, s, acts[0]), acts[1..], a);
    }
  }

  /** The state when the only worker has processed all of `evs`, each at time 0 and with success. */
  function Served(c: Config, r0: Registry, ns: string, evs: seq<Event>): State {
    var log := seq(|evs|, i requires 0 <= i < |evs| => Done(evs[i], true));
    State(Replay(c, ns, r0, evs), [Worker(ns, [], None, evs, log, false, true)], map[ns := Slot(0, Some(0), 1)],
          1, Selecting, false, 0, evs)
  }

  /** The worker finishes the job it holds, all calls succeeding. */
  lemma {:induction false} FinishJob(c: Config, r0: Registry, before: seq<Action>) returns (acts: seq<Action>)
    requires IsOrderlyRun(c, Initial(r0), before) && IsRun(c, Initial(r0), before)
    requires var s := After(c, Initial(r0), before);
      |s.gens| == 1 && Handling(s, 0) && JobChecked(s.gens[0], s.reg)
    ensures IsOrderlyRun(c, Initial(r0), acts) && IsRun(c, Initial(r0), acts)
    ensures var s := After(c, Initial(r0), before); var w := s.gens[0];
      After(c, Initial(r0), acts) ==
        s.(reg := Perform(c, w.ns, s.reg, w.busy.value.ev, true),
           gens := [w.(busy := None, processed := w.processed + [Done(w.busy.value.ev, true)])])
    decreases CallsLeft(After(c, Initial(r0), before).gens[0].busy.value.step)
  {
    var s := After(c, Initial(r0), before);
    var job := s.gens[0].busy.value;
    CallRefinesPerform(c, s.gens[0].ns, job.ev, job.step, s.reg, true);
    OrderlyAppend(c, Initial(r0), before, MakeCall(0, true));
    acts := before + [MakeCall(0, true)];
    if After(c, Initial(r0), acts).gens[0].busy.Some? {
      acts := FinishJob(c, r0, acts);
    }
  }

  /** The only worker, if any, is idle. */
  ghost predicate Resting(s: State, ns: string) {
    && s.pc.Selecting? && s.now == 0
    && (s.gens == [] ==> s.workers == map[])
    && (s.gens != [] ==>
          && |s.gens| == 1 && s.workers == map[ns := Slot(0, Some(0), 1)]
          && s.gens[0].live && s.gens[0].busy.None? && s.gens[0].queue == [])
  }

  /** The state once `ev` was received, dispatched and taken by the first worker. */
  function Taken(s: State, ns: string, ev: Event): State {
    var w := if s.gens == [] then Worker(ns, [], None, [], [], false, true) else s.gens[0];
    s.(gens := [w.(busy := Some(Job(ev, FirstStep(ev), 0)), sent := w.sent + [ev])],
       workers := map[ns := Slot(0, Some(0), 1)], waitGroup := if s.gens == [] then s.waitGroup + 1 else s.waitGroup,
       received := s.received + [ev])
  }

  lemma TakenByNext(c: Config, s: State, ns: string, ev: Event)
    requires Resting(s, ns) && NamespaceNameOf(ev) == ns != ""
    ensures Enabled(Next(c, s, Receive(ev)), GetOrCreate)
    ensures ReachesTaken(c, Next(c, Next(c, s, Receive(ev)), GetOrCreate), Taken(s, ns, ev))
  {
    var w := if s.gens == [] then Worker(ns, [], None, [], [], false, true) else s.gens[0];
    var s2 := Next(c, Next(c, s, Receive(ev)), GetOrCreate);
    assert s2.gens == [w] && Mapped(s2, ns) && s2.workers[ns].gen == 0;
    var s3 := Next(c, s2, Send);
    assert w.queue + [ev] == [ev];
    assert s3.gens == [w.(queue := [ev], sent := w.sent + [ev])];
    var s4 := Next(c, s3, SetLastEvent);
    assert s4.workers == map[ns := Slot(0, Some(0), 1)];
    assert [ev][1..] == [];
  }

  /** Sending, recording the time and taking the event lead from `s` to `end`. */
  predicate ReachesTaken(c: Config, s: State, end: State) {
    && Enabled(s, Send)
    && Enabled(Next(c, s, Send), SetLastEvent)
    && Enabled(Next(c, Next(c, s, Send), SetLastEvent), Take(0))
    && Next(c, Next(c, Next(c, s, Send), SetLastEvent), Take(0)) == end
  }

  lemma TakeOne(c: Config, r0: Registry, before: seq<Action>, ns: string, ev: Event)
    returns (acts: seq<Action>)
    requires IsOrderlyRun(c, Initial(r0), before) && IsRun(c, Initial(r0), before) && NamespaceNameOf(ev) == ns != ""
    requires Resting(After(c, Initial(r0), before), ns)
    ensures IsOrderlyRun(c, Initial(r0), acts) && IsRun(c, Initial(r0), acts)
    ensures After(c, Initial(r0), acts) == Taken(After(c, Initial(r0), before), ns, ev)
  {
    TakenByNext(c, After(c, Initial(r0), before), ns, ev);
    OrderlyAppend(c, Initial(r0), before, Receive(ev));
    acts := before + [Receive(ev)];
    OrderlyAppend(c, Initial(r0), acts, GetOrCreate);
    acts := acts + [GetOrCreate];
    OrderlyAppend(c, Initial(r0), acts, Send);
    acts := acts + [Send];
    OrderlyAppend(c, Initial(r0), acts, SetLastEvent);
    acts := acts + [SetLastEvent];
    OrderlyAppend(c, Initial(r0), acts, Take(0));
    acts := acts + [Take(0)];
  }

  /** Every sequence of events of a namespace can be received, processed and settled in an orderly run. */
  lemma {:induction false} CanSettle(c: Config, r0: Registry, ns: string, evs: seq<Event>) returns (acts: seq<Action>)
    requires ns != "" && evs != [] && forall i :: 0 <= i < |evs| ==> NamespaceNameOf(evs[i]) == ns
    ensures IsOrderlyRun(c, Initial(r0), acts) && IsRun(c, Initial(r0), acts)
    ensures After(c, Initial(r0), acts) == Served(c, r0, ns, evs)
    ensures Settled(Served(c, r0, ns, evs), ns)
  {
    var last := |evs| - 1;
    acts := [];
    if last > 0 {
      acts := CanSettle(c, r0, ns, evs[..last]);
    }
    acts := ServeOne(c, r0, acts, ns, evs[..last], evs[last]);
    assert evs == evs[..last] + [evs[last]];
    ServedIsSettled(c, r0, ns, evs);
  }

  /** From the state that served `served`, or the initial one, to the state that also served `ev`. */
  lemma ServeOne(c: Config, r0: Registry, before: seq<Action>, ns: string,
        served: seq<Event>, ev: Event)
    returns (acts: seq<Action>)
    requires IsOrderlyRun(c, Initial(r0), before) && IsRun(c, Initial(r0), before) && NamespaceNameOf(ev) == ns != ""
    requires After(c, Initial(r0), before) == if served == [] then Initial(r0) else Served(c, r0, ns, served)
    ensures IsOrderlyRun(c, Initial(r0), acts) && IsRun(c, Initial(r0), acts)
    ensures After(c, Initial(r0), acts) == Served(c, r0, ns, served + [ev])
  {
    acts := TakeOne(c, r0, before, ns, ev);
    var s := After(c, Initial(r0), acts);
    assert JobChecked(s.gens[0], s.reg) && Handling(s, 0);
    acts := FinishJob(c, r0, acts);
    var log := Served(c, r0, ns, served + [ev]).gens[0].processed;
    assert (served + [ev])[..|served|] == served;
    var end := After(c, Initial(r0), acts);
    assert end.gens[0].processed == log && end.gens[0].sent == served + [ev];
    assert end.reg == Replay(c, ns, r0, served + [ev]) && end.received == served + [ev];
    assert end.gens == Served(c, r0, ns, served + [ev]).gens;
  }

  lemma ServedIsSettled(c: Config, r0: Registry, ns: string, evs: seq<Event>)
    ensures Settled(Served(c, r0, ns, evs), ns)
  {
    var gens := Served(c, r0, ns, evs).gens;
    assert gens[..0] == [];
    assert ProcessedBy(gens, ns) == ProcessedBy(gens[..0], ns) + gens[0].processed == gens[0].processed;
  }
}
