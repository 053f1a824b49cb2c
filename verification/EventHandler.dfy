/**
 The dispatcher as the object it is, one method per case of its loop, against functions on what
 its map of workers holds; and the state machine's steps against the same functions.
 */
module EventHandlers {
  import opened Types
  import opened Registry
  import opened Machine
  import opened Lifecycle
  import opened NamespaceWorkers

  // ----- specification -----

  datatype WorkerView = WorkerView(queue: seq<Event>, cancelled: bool, lastEvent: Option<int>)

  datatype DispatcherView = DispatcherView(workers: map<string, WorkerView>, waitGroup: int)

  function WithWorker(v: DispatcherView, n: string): DispatcherView {
    if n in v.workers then v
    else DispatcherView(v.workers[n := WorkerView([], false, None)], v.waitGroup + 1)
  }

  function WithSent(v: DispatcherView, n: string, ev: Event): DispatcherView
    requires n in v.workers
  {
    v.(workers := v.workers[n := v.workers[n].(queue := v.workers[n].queue + [ev])])
  }

  function WithLastEvent(v: DispatcherView, n: string, now: int): DispatcherView
    requires n in v.workers
  {
    v.(workers := v.workers[n := v.workers[n].(lastEvent := Some(now))])
  }

  function WithoutIdle(v: DispatcherView, now: int): DispatcherView {
    v.(workers := map n | n in v.workers && !IdleTooLong(v.workers[n].lastEvent, now) :: v.workers[n])
  }

  function AllCancelled(v: DispatcherView): DispatcherView {
    v.(workers := map n | n in v.workers :: v.workers[n].(cancelled := true))
  }

  /** The dispatcher's map of workers in a state of the machine. */
  function ViewOf(s: State): DispatcherView {
    DispatcherView(
      map n | n in s.workers && Mapped(s, n) ::
        WorkerView(s.gens[s.workers[n].gen].queue, s.gens[s.workers[n].gen].canc, s.workers[n].lastEvent),
      s.waitGroup)
  }

  /** Every entry of the map names an existing worker of its namespace. */
  ghost predicate Filed(s: State) {
    forall n :: n in s.workers ==> Mapped(s, n) && s.gens[s.workers[n].gen].ns == n
  }

  lemma InvFiled(s: State)
    requires Inv(s)
    ensures Filed(s)
  {
    forall n | n in s.workers ensures Mapped(s, n) && s.gens[s.workers[n].gen].ns == n {
      assert SlotOk(s, n);
    }
  }

  // Each step of the machine's dispatcher does to the map what the method for it does.

  lemma GetOrCreateView(c: Config, s: State)
    requires Filed(s) && Enabled(s, GetOrCreate)
    ensures ViewOf(Next(c, s, GetOrCreate)) == WithWorker(ViewOf(s), NamespaceNameOf(s.pc.ev))
  {
    var n := NamespaceNameOf(s.pc.ev);
    if n !in s.workers {
      NewWorkerView(s, Next(c, s, GetOrCreate), n);
    }
  }

  lemma NewWorkerView(s: State, s': State, n: string)
    requires Filed(s) && n !in s.workers && s'.waitGroup == s.waitGroup + 1
    requires s'.gens == s.gens + [Worker(n, [], None, [], [], false, true)] && s'.workers == s.workers[n := Slot(|s.gens|, None, 0)]
    ensures ViewOf(s') == WithWorker(ViewOf(s), n)
  {
    var v, v' := WithWorker(ViewOf(s), n), ViewOf(s');
    forall m ensures m in v.workers <==> m in v'.workers
             ensures m in v.workers ==> v.workers[m] == v'.workers[m]
    {
      assert m in s.workers ==> Mapped(s, m) && s'.gens[s.workers[m].gen] == s.gens[s.workers[m].gen];
    }
    assert v.workers == v'.workers;
  }

  lemma SendView(c: Config, s: State)
    requires Filed(s) && Enabled(s, Send)
    ensures NamespaceNameOf(s.pc.ev) in ViewOf(s).workers
    ensures ViewOf(Next(c, s, Send)) == WithSent(ViewOf(s), NamespaceNameOf(s.pc.ev), s.pc.ev)
  {
  }

  lemma SetLastEventView(c: Config, s: State)
    requires Filed(s) && Enabled(s, SetLastEvent)
    ensures s.pc.name in ViewOf(s).workers
    ensures ViewOf(Next(c, s, SetLastEvent)) == WithLastEvent(ViewOf(s), s.pc.name, s.now)
  {
  }

  lemma CleanUpView(c: Config, s: State)
    requires Filed(s) && Enabled(s, CleanUp)
    ensures ViewOf(Next(c, s, CleanUp)) == WithoutIdle(ViewOf(s), s.now)
  {
  }

  lemma BeginShutdownView(c: Config, s: State)
    requires Filed(s) && Enabled(s, BeginShutdown)
    ensures ViewOf(Next(c, s, BeginShutdown)) == AllCancelled(ViewOf(s))
    ensures Next(c, s, BeginShutdown).pc.Returned? <==> ViewOf(s).workers == map[]
  {
  }

  /** What a step of the dispatcher does to the map in state `s`, in the terms of the methods. */
  function StepView(s: State, a: Action): DispatcherView
    requires Enabled(s, a) && (a.Send? ==> NamespaceNameOf(s.pc.ev) in ViewOf(s).workers)
    requires a.SetLastEvent? ==> s.pc.name in ViewOf(s).workers
  {
    match a
    case GetOrCreate => WithWorker(ViewOf(s), NamespaceNameOf(s.pc.ev))
    case Send => WithSent(ViewOf(s), NamespaceNameOf(s.pc.ev), s.pc.ev)
    case SetLastEvent => WithLastEvent(ViewOf(s), s.pc.name, s.now)
    case CleanUp => WithoutIdle(ViewOf(s), s.now)
    case BeginShutdown => AllCancelled(ViewOf(s))
    case _ => ViewOf(s)
  }

  /**
   In every reachable state each step that is not a worker's does to the dispatcher's map what the
   method for that case of the loop is specified to do, and returns at once iff the method does.
   */
  lemma DispatcherRefines(c: Config, r: Registry, acts: seq<Action>, a: Action)
    requires IsRun(c, Initial(r), acts) && Enabled(After(c, Initial(r), acts), a)
    requires !a.Take? && !a.MakeCall? && !a.Exit?
    ensures var s := After(c, Initial(r), acts);
      && (a.Send? ==> NamespaceNameOf(s.pc.ev) in ViewOf(s).workers)
      && (a.SetLastEvent? ==> s.pc.name in ViewOf(s).workers)
      && ViewOf(Next(c, s, a)) == StepView(s, a)
      && (a.BeginShutdown? ==> (Next(c, s, a).pc.Returned? <==> ViewOf(s).workers == map[]))
  {
    InitialInv(r);
    InvRun(c, Initial(r), acts);
    var s := After(c, Initial(r), acts);
    InvFiled(s);
    match a
    case GetOrCreate => GetOrCreateView(c, s);
    case Send => SendView(c, s);
    case SetLastEvent => SetLastEventView(c, s);
    case CleanUp => CleanUpView(c, s);
    case BeginShutdown => BeginShutdownView(c, s);
    case _ =>
  }

  // ----- the object -----

  class NamespaceWorkerData {
    const worker: NamespaceWorker
    var cancelled: bool
    var lastEvent: Option<int>

    constructor (worker: NamespaceWorker)
      ensures this.worker == worker && !cancelled && lastEvent == None
    {
      this.worker, cancelled, lastEvent := worker, false, None;
    }
  }

  /** `d` is the worker of `n` and holds `v`, apart from having been cancelled since. */
  ghost predicate Shows(d: NamespaceWorkerData, n: string, v: WorkerView, since: bool)
    reads d, d.worker
  {
    && d.worker.name == n
    && d.worker.eventsChan == v.queue
    && d.cancelled == (v.cancelled || since)
    && d.lastEvent == v.lastEvent
  }

  class EventHandler {
    const client: RegistryClient
    const persistentMeta: Meta
    var workers: map<string, NamespaceWorkerData>
    var waitGroup: int
    ghost var view: DispatcherView

    ghost function Objects(): set<object>
      reads this
    {
      (set n | n in workers :: workers[n] as object) + (set n | n in workers :: workers[n].worker as object)
    }

    /** `view` is what the map holds; a worker is filed under its own name. */
    ghost predicate Valid()
      reads this, Objects()
    {
      && waitGroup == view.waitGroup
      && workers.Keys == view.workers.Keys
      && forall n :: n in workers ==> Shows(workers[n], n, view.workers[n], false)
    }

    constructor (client: RegistryClient, persistentMeta: Meta)
      ensures Valid() && view == DispatcherView(map[], 0)
      ensures this.client == client && this.persistentMeta == persistentMeta
    {
      this.client, this.persistentMeta := client, persistentMeta;
      workers, waitGroup := map[], 0;
      view := DispatcherView(map[], 0);
    }

    method GetOrCreateNamespaceWorker(name: string) returns (nsWorker: NamespaceWorkerData)
      requires Valid()
      modifies this
      ensures Valid() && fresh(Objects() - old(Objects()))
      ensures view == WithWorker(old(view), name)
      ensures name in workers && nsWorker == workers[name]
      ensures name !in old(workers) ==>
        && nsWorker.worker.client == client && nsWorker.worker.persistentMeta == persistentMeta
    {
      if name in workers {
        return workers[name];
      }
      var worker := new NamespaceWorker(name, client, persistentMeta);
      nsWorker := new NamespaceWorkerData(worker);
      workers := workers[name := nsWorker];
      waitGroup := waitGroup + 1;
      view := WithWorker(view, name);
    }

    /**
     The case of a received event. When the worker's queue is full the send blocks: the method
     returns there with `blocked` set, and `CompleteSend` is what follows once there is room.
     */
    method HandleEvent(event: Event, now: int) returns (blocked: bool)
      requires Valid()
      modifies this, Objects()
      ensures Valid() && fresh(Objects() - old(Objects()))
      ensures
        var n := match event.obj
                 case NamespaceObj(name) => name
                 case ServiceObj(namespace, _) => namespace
                 case EndpointObj(endpoint) => endpoint.namespace
                 case UnknownObj => "";
        var looked := WithWorker(old(view), n);
        if n == "" then !blocked && view == old(view)
        else if |looked.workers[n].queue| >= QUEUE_SIZE then blocked && view == looked
        else !blocked && view == WithLastEvent(WithSent(looked, n, event), n, now)
    {
      blocked := false;
      var namespaceName := NamespaceNameOf(event);
      if namespaceName == "" {
        return;
      }
      var nsWorker := GetOrCreateNamespaceWorker(namespaceName);
      if |nsWorker.worker.eventsChan| >= QUEUE_SIZE {
        return true;
      }
      CompleteSend(namespaceName, event, now);
    }

    /** The rest of that case, from the moment the worker's queue has room: send, then set the time. */
    method CompleteSend(name: string, event: Event, now: int)
      requires Valid() && name in workers && |view.workers[name].queue| < QUEUE_SIZE
      modifies this`view, workers[name], workers[name].worker`eventsChan
      ensures Valid() && view == WithLastEvent(WithSent(old(view), name, event), name, now)
    {
      Enqueue(name, event);
      Stamp(name, now);
    }

    method Enqueue(name: string, event: Event)
      requires Valid() && name in workers
      modifies this`view, workers[name].worker`eventsChan
      ensures Valid() && view == WithSent(old(view), name, event)
    {
      var nsWorker := workers[name].worker;
      nsWorker.eventsChan := nsWorker.eventsChan + [event];
      view := WithSent(view, name, event);
    }

    method Stamp(name: string, now: int)
      requires Valid() && name in workers
      modifies this`view, workers[name]
      ensures Valid() && view == WithLastEvent(old(view), name, now)
    {
      workers[name].lastEvent := Some(now);
      view := WithLastEvent(view, name, now);
    }

    /** Cancels the workers idle for too long and collects them. Go visits the map in any order. */
    method CancelIdle(now: int) returns (toRemove: set<string>)
      requires Valid()
      modifies Objects()
      ensures toRemove == set n | n in workers && IdleTooLong(view.workers[n].lastEvent, now)
      ensures forall n :: n in workers ==> Shows(workers[n], n, view.workers[n], n in toRemove)
    {
      var all := workers;
      var rest := all.Keys;
      toRemove := {};
      while rest != {}
        invariant rest <= all.Keys
        invariant toRemove == set n | n in all && n !in rest && IdleTooLong(view.workers[n].lastEvent, now)
        invariant forall n :: n in all ==> Shows(all[n], n, view.workers[n], n in toRemove)
        decreases rest
        modifies Objects()
      {
        var name :| name in rest;
        rest := rest - {name};
        var worker := all[name];
        if worker.lastEvent.None? || now - worker.lastEvent.value > MAXIMUM_IDLE {
          worker.cancelled := true;
          toRemove := toRemove + {name};
        }
      }
    }

    /** The case of the clean-up ticker: what is left is what was not idle, the rest is cancelled. */
    method RemoveIdleWorkers(now: int)
      requires Valid()
      modifies this`workers, this`view, Objects()
      ensures Valid() && view == WithoutIdle(old(view), now)
      ensures forall n :: n in workers <==>
        && n in old(view).workers && old(view).workers[n].lastEvent.Some?
        && now - old(view).workers[n].lastEvent.value <= 300_000_000_000
      ensures forall n :: n in old(workers) ==> if n in workers then workers[n] == old(workers)[n] else old(workers)[n].cancelled
    {
      var toRemove := CancelIdle(now);
      ghost var all, kept := workers, WithoutIdle(view, now);
      forall n | n in all ensures if n in toRemove then all[n].cancelled else Shows(all[n], n, kept.workers[n], false) {
        assert Shows(all[n], n, view.workers[n], n in toRemove);
      }
      workers := workers - toRemove;
      view := kept;
    }

    /** The case of the cancelled main context, up to where the dispatcher waits or returns. */
    method PropagateCancel() returns (returned: bool)
      requires Valid()
      modifies this`view, Objects()
      ensures Valid() && view == AllCancelled(old(view))
      ensures returned <==> old(view).workers == map[]
    {
      returned := workers == map[];
      assert returned <==> view.workers.Keys == {};
      CancelAll();
      view := AllCancelled(view);
    }

    /** The loop over the map, in any order. */
    method CancelAll()
      requires Valid()
      modifies Objects()
      ensures forall n :: n in workers ==> Shows(workers[n], n, AllCancelled(view).workers[n], false)
    {
      var all := workers;
      var rest := all.Keys;
      while rest != {}
        invariant rest <= all.Keys
        invariant forall n :: n in all ==> Shows(all[n], n, view.workers[n], n !in rest)
        decreases rest
        modifies Objects()
      {
        var name :| name in rest;
        rest := rest - {name};
        all[name].cancelled := true;
      }
      forall n | n in all ensures Shows(all[n], n, AllCancelled(view).workers[n], false) {
        assert Shows(all[n], n, view.workers[n], n !in rest);
      }
    }
  }
}
