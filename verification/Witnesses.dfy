/** Runs that reach the states the theorems of the other modules exclude by their conditions. */
module Witnesses {
  import opened Types
  import opened Registry
  import opened WorkerSteps
  import opened Machine
  import opened Lifecycle
  import opened Shutdown
  import opened Reaping

  /** The stuck dispatcher is reachable: fill a queue, cancel, let the worker exit first. */
  lemma StuckReachable(c: Config, r: Registry, n: string, evs: seq<Event>, ev: Event)
    returns (acts: seq<Action>)
    requires n != "" && |evs| == QUEUE_SIZE && NamespaceNameOf(ev) == n
    requires forall i :: 0 <= i < |evs| ==> NamespaceNameOf(evs[i]) == n
    ensures IsTimelyRun(c, Initial(r), acts) && IsRun(c, Initial(r), acts)
    ensures Stuck(After(c, Initial(r), acts))
  {
    acts := Flood(c, r, n, evs);
    Extend(c, Initial(r), acts, Receive(ev));
    acts := acts + [Receive(ev)];
    Extend(c, Initial(r), acts, GetOrCreate);
    acts := acts + [GetOrCreate];
    Extend(c, Initial(r), acts, CancelMain);
    acts := acts + [CancelMain];
    Extend(c, Initial(r), acts, Exit(0));
    acts := acts + [Exit(0)];
  }

  /** A queue does hold 25 events, and then a send blocks. */
  lemma QueueFillsUp(c: Config, r: Registry, n: string, evs: seq<Event>, ev: Event) returns (acts: seq<Action>)
    requires n != "" && |evs| == 25 && NamespaceNameOf(ev) == n
    requires forall i :: 0 <= i < |evs| ==> NamespaceNameOf(evs[i]) == n
    ensures IsTimelyRun(c, Initial(r), acts) && IsRun(c, Initial(r), acts)
    ensures var s := After(c, Initial(r), acts);
      && |s.gens| == 1 && s.gens[0].live && s.gens[0].queue == evs
      && s.pc == Sending(ev) && !Enabled(s, Send)
  {
    acts := Flood(c, r, n, evs);
    Extend(c, Initial(r), acts, Receive(ev));
    acts := acts + [Receive(ev)];
    Extend(c, Initial(r), acts, GetOrCreate);
    acts := acts + [GetOrCreate];
  }

  /**
   Cancelling stops neither side at once: with the main context cancelled the dispatcher may still
   receive and send an event, and a worker may still take and handle it.
   */
  lemma HandledAfterCancel(c: Config, r: Registry, n: string, ev: Event) returns (acts: seq<Action>)
    requires NamespaceNameOf(ev) == n != "" && !ev.kind.Delete?
    ensures IsTimelyRun(c, Initial(r), acts) && IsRun(c, Initial(r), acts) && acts != [] && acts[0] == CancelMain
    ensures var s := After(c, Initial(r), acts); |s.gens| == 1 && s.gens[0].processed == [Done(ev, true)]
  {
    Extend(c, Initial(r), [], CancelMain);
    acts := [] + [CancelMain];
    var s := After(c, Initial(r), acts);
    DispatchOne(c, s, n, ev);
    TimelyAppend(c, Initial(r), acts, DispatchSteps(ev));
    acts := acts + DispatchSteps(ev);
    assert After(c, Initial(r), acts).gens[0].queue == [ev];
    Extend(c, Initial(r), acts, Take(0));
    acts := acts + [Take(0)];
    Extend(c, Initial(r), acts, MakeCall(0, true));
    acts := acts + [MakeCall(0, true)];
  }

  /** So may a worker that was reaped: it can handle all it has queued before it exits. */
  lemma ReapedWorkerDrains(c: Config, r: Registry, n: string, evs: seq<Event>) returns (acts: seq<Action>)
    requires n != "" && |evs| == 7 && forall i :: 0 <= i < |evs| ==> NamespaceNameOf(evs[i]) == n
    ensures IsTimelyRun(c, Initial(r), acts) && IsRun(c, Initial(r), acts)
    ensures var s := After(c, Initial(r), acts);
      s.workers == map[] && |s.gens| == 1 && s.gens[0].canc && |s.gens[0].processed| == 7 && Backlog(s.gens[0]) == 0
  {
    acts := LargeBacklogReapedBusy(c, r, n, evs);
    assert NamespaceNameOf(evs[5]) == n && NamespaceNameOf(evs[6..][0]) == n;
    Extend(c, Initial(r), acts, CleanUp);
    acts := acts + [CleanUp];
    Extend(c, Initial(r), acts, MakeCall(0, false));
    acts := acts + [MakeCall(0, false)];
    Extend(c, Initial(r), acts, Take(0));
    acts := acts + [Take(0)];
    Extend(c, Initial(r), acts, MakeCall(0, false));
    acts := acts + [MakeCall(0, false)];
  }

  /** The dispatcher may return while a worker it reaped is still handling an event. */
  lemma ReturnsWithWorkerRunning(c: Config, r: Registry, n: string, evs: seq<Event>)
    returns (acts: seq<Action>)
    requires n != "" && |evs| == 6 && forall i :: 0 <= i < |evs| ==> NamespaceNameOf(evs[i]) == n
    ensures IsTimelyRun(c, Initial(r), acts) && IsRun(c, Initial(r), acts)
    ensures var s := After(c, Initial(r), acts);
      s.pc.Returned? && |s.gens| == 1 && s.gens[0].live && InFlight(s.gens[0]) == [evs[5]]
  {
    acts := LargeBacklogReapedBusy(c, r, n, evs);
    Extend(c, Initial(r), acts, CleanUp);
    acts := acts + [CleanUp];
    assert After(c, Initial(r), acts).workers == map[];
    Extend(c, Initial(r), acts, CancelMain);
    acts := acts + [CancelMain];
    Extend(c, Initial(r), acts, BeginShutdown);
    acts := acts + [BeginShutdown];
  }

  /** A registry with one owned service without endpoints. */
  function OneService(owned: Meta, n: string, svc: string): Registry {
    map[NsKey(n) := Group(owned), SvcKey(n, svc) := Group(owned)]
  }

  /** With five minutes worked off, the worker has checked the service and is about to deregister it. */
  lemma AboutToDeregister(c: Config, n: string, svc: string, evs: seq<Event>)
    returns (acts: seq<Action>)
    requires IsOwnedByOperator(c.persistent) && n != "" && |evs| == 6
    requires forall i :: 0 <= i < |evs| ==> NamespaceNameOf(evs[i]) == n
    requires evs[5] == Event(Delete, ServiceObj(n, svc))
    ensures var r := OneService(c.persistent, n, svc);
      && IsTimelyRun(c, Initial(r), acts) && IsRun(c, Initial(r), acts)
      && var s := After(c, Initial(r), acts);
         && s.pc.Selecting? && s.workers == map[n := Slot(0, Some(0), 6)] && s.now == 5 * MINUTE
         && s.reg == r && |s.gens| == 1
         && s.gens[0].live && s.gens[0].ns == n
         && s.gens[0].busy == Some(Job(evs[5], Deregistering, 5 * MINUTE))
  {
    var r := OneService(c.persistent, n, svc);
    acts := WorkOff(c, r, n, evs, 5);
    assert !HasChildren(r, SvcKey(n, svc));
    Extend(c, Initial(r), acts, MakeCall(0, true));
    acts := acts + [MakeCall(0, true)];
    Extend(c, Initial(r), acts, MakeCall(0, true));
    acts := acts + [MakeCall(0, true)];
  }

  /** The worker is reaped then. */
  lemma ReapedBeforeDeregister(c: Config, n: string, svc: string, evs: seq<Event>)
    returns (acts: seq<Action>)
    requires IsOwnedByOperator(c.persistent) && n != "" && |evs| == 6
    requires forall i :: 0 <= i < |evs| ==> NamespaceNameOf(evs[i]) == n
    requires evs[5] == Event(Delete, ServiceObj(n, svc))
    ensures var r := OneService(c.persistent, n, svc);
      && IsTimelyRun(c, Initial(r), acts) && IsRun(c, Initial(r), acts)
      && var s := After(c, Initial(r), acts);
         && s.pc.Selecting? && s.workers == map[] && s.reg == r && |s.gens| == 1
         && s.gens[0].live && s.gens[0].ns == n
         && s.gens[0].busy == Some(Job(evs[5], Deregistering, 5 * MINUTE))
  {
    var r := OneService(c.persistent, n, svc);
    acts := AboutToDeregister(c, n, svc, evs);
    Extend(c, Initial(r), acts, Tick(MAXIMUM_IDLE + 1));
    acts := acts + [Tick(MAXIMUM_IDLE + 1)];
    Extend(c, Initial(r), acts, CleanUp);
    acts := acts + [CleanUp];
  }

  /**
   Orderliness is needed. The reaped worker has seen the service empty and is about to deregister
   it; the next worker registers an endpoint in between; the endpoint is left without a service.
   */
  lemma OverlapMakesOrphan(c: Config, e: Endpoint, evs: seq<Event>)
    returns (acts: seq<Action>)
    requires IsOwnedByOperator(c.persistent) && e.namespace != "" && |evs| == 6
    requires forall i :: 0 <= i < |evs| ==> NamespaceNameOf(evs[i]) == e.namespace
    requires evs[5] == Event(Delete, ServiceObj(e.namespace, e.service))
    ensures var r := OneService(c.persistent, e.namespace, e.service);
      && NoOrphans(r)
      && IsTimelyRun(c, Initial(r), acts) && IsRun(c, Initial(r), acts)
      && !NoOrphans(After(c, Initial(r), acts).reg)
  {
    var r := OneService(c.persistent, e.namespace, e.service);
    var k := EpKey(e.namespace, e.service, e.name);
    acts := ReapedBeforeDeregister(c, e.namespace, e.service, evs);
    acts := SecondWorker(c, r, acts, e);
    Extend(c, Initial(r), acts, MakeCall(0, true));
    acts := acts + [MakeCall(0, true)];
    assert k in After(c, Initial(r), acts).reg && !HasParent(After(c, Initial(r), acts).reg, k);
  }

  /** With its first worker reaped, the namespace gets a second one, which registers `e`. */
  lemma SecondWorker(c: Config, r: Registry, before: seq<Action>, e: Endpoint)
    returns (acts: seq<Action>)
    requires e.namespace != "" && IsTimelyRun(c, Initial(r), before) && IsRun(c, Initial(r), before)
    requires var s := After(c, Initial(r), before);
      && s.pc.Selecting? && |s.gens| == 1 && s.workers == map[]
      && SvcKey(e.namespace, e.service) in s.reg && EpKey(e.namespace, e.service, e.name) !in s.reg
    ensures IsTimelyRun(c, Initial(r), acts) && IsRun(c, Initial(r), acts)
    ensures var s, s' := After(c, Initial(r), before), After(c, Initial(r), acts);
      && |s'.gens| == 2 && s'.gens[0] == s.gens[0]
      && EpKey(e.namespace, e.service, e.name) in s'.reg && s'.reg.Keys == s.reg.Keys + {EpKey(e.namespace, e.service, e.name)}
  {
    var s := After(c, Initial(r), before);
    var ev := Event(Create, EndpointObj(e));
    DispatchOne(c, s, e.namespace, ev);
    TimelyAppend(c, Initial(r), before, DispatchSteps(ev));
    acts := before + DispatchSteps(ev);
    assert After(c, Initial(r), acts).gens[1].queue == [ev];
    Extend(c, Initial(r), acts, Take(1));
    acts := acts + [Take(1)];
    Extend(c, Initial(r), acts, MakeCall(1, true));
    acts := acts + [MakeCall(1, true)];
  }
}
