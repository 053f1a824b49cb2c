/**
 What every step of the machine keeps: which workers exist and which may still run, and where
 every received event is.
 */
module Lifecycle {
  import opened Types
  import opened Registry
  import opened WorkerSteps
  import opened Machine

  function LiveCount(gens: seq<Worker>): nat {
    if gens == [] then 0
    else LiveCount(gens[..|gens| - 1]) + if gens[|gens| - 1].live then 1 else 0
  }

  /** The events sent to the workers of `n`, generation after generation. */
  function SentTo(gens: seq<Worker>, n: string): seq<Event> {
    if gens == [] then []
    else
      SentTo(gens[..|gens| - 1], n) + if gens[|gens| - 1].ns == n then gens[|gens| - 1].sent else []
  }

  /** The received event that no worker was sent yet. */
  function Pending(pc: Dispatcher): seq<Event> {
    match pc
    case Holding(ev) => [ev]
    case Sending(ev) => [ev]
    case _ => []
  }

  function InFlight(w: Worker): seq<Event> {
    if w.busy.Some? then [w.busy.value.ev] else []
  }

  /** Every event sent to `w` was processed, is being handled or is queued: in that order. */
  ghost predicate Conserved(w: Worker) {
    w.sent == EventsOf(w.processed) + InFlight(w) + w.queue
  }

  ghost predicate WorkerOk(w: Worker) {
    && w.ns != ""
    && |w.queue| <= QUEUE_SIZE
    && Conserved(w)
    && (forall i :: 0 <= i < |w.sent| ==> NamespaceNameOf(w.sent[i]) == w.ns)
    && (w.busy.Some? ==> w.live && !w.busy.value.step.Finished?)
  }

  ghost predicate Latest(gens: seq<Worker>, g: nat) {
    g < |gens| && forall i :: g < i < |gens| ==> gens[i].ns != gens[g].ns
  }

  /** The dispatcher is between looking up the worker of `n` and recording its last event. */
  predicate Targeted(s: State, n: string) {
    (s.pc.Sending? && NamespaceNameOf(s.pc.ev) == n) || s.pc == Stamping(n)
  }

  ghost predicate SlotOk(s: State, n: string)
    requires n in s.workers
  {
    var g := s.workers[n].gen;
    && Latest(s.gens, g)
    && s.gens[g].ns == n
    && (s.gens[g].canc ==> s.pc.Waiting? || s.pc.Returned?)
    && (s.workers[n].lastEvent.None? ==> Targeted(s, n))
  }

  ghost predicate DispatcherOk(s: State) {
    match s.pc
    case Holding(ev) => NamespaceNameOf(ev) != ""
    case Sending(ev) => NamespaceNameOf(ev) != "" && NamespaceNameOf(ev) in s.workers
    case Stamping(n) => n in s.workers
    case Waiting => s.mainDone && forall g :: 0 <= g < |s.gens| ==> s.gens[g].canc
    case Returned => s.mainDone
    case _ => true
  }

  ghost predicate WorkersOk(gens: seq<Worker>) {
    forall g {:trigger WorkerOk(gens[g])} :: 0 <= g < |gens| ==> WorkerOk(gens[g])
  }

  ghost predicate SlotsOk(s: State) {
    forall n {:trigger SlotOk(s, n)} :: n in s.workers ==> SlotOk(s, n)
  }

  /** A worker nobody cancelled is the one the dispatcher's map holds for its namespace. */
  ghost predicate UncancelledMapped(s: State) {
    forall g :: 0 <= g < |s.gens| && !s.gens[g].canc ==>
      s.gens[g].ns in s.workers && s.workers[s.gens[g].ns].gen == g
  }

  ghost predicate ExitedWereStopped(s: State) {
    forall g :: 0 <= g < |s.gens| && !s.gens[g].live ==> StopRequested(s, g)
  }

  /** Per namespace, the received events were sent in order or are still with the dispatcher. */
  ghost predicate Delivered(s: State) {
    forall n :: ByNamespace(s.received, n) == SentTo(s.gens, n) + ByNamespace(Pending(s.pc), n)
  }

  ghost predicate Inv(s: State) {
    && s.waitGroup == LiveCount(s.gens)
    && WorkersOk(s.gens)
    && SlotsOk(s)
    && UncancelledMapped(s)
    && ExitedWereStopped(s)
    && DispatcherOk(s)
    && Delivered(s)
  }

  // ----- sequences of generations -----

  lemma {:induction false} LiveCountUpdate(gens: seq<Worker>, g: nat, w: Worker)
    requires g < |gens|
    ensures LiveCount(gens[g := w]) ==
            LiveCount(gens) - (if gens[g].live then 1 else 0) + if w.live then 1 else 0
  {
    var last := |gens| - 1;
    if g == last {
      assert gens[g := w][..last] == gens[..last];
    } else {
      LiveCountUpdate(gens[..last], g, w);
      assert gens[g := w][..last] == gens[..last][g := w];
    }
  }

  lemma {:induction false} LiveCountSame(a: seq<Worker>, b: seq<Worker>)
    requires |a| == |b| && forall g :: 0 <= g < |a| ==> a[g].live == b[g].live
    ensures LiveCount(a) == LiveCount(b)
  {
    if a != [] {
      LiveCountSame(a[..|a| - 1], b[..|b| - 1]);
    }
  }

  lemma {:induction false} LiveCountPositive(gens: seq<Worker>, g: nat)
    requires g < |gens| && gens[g].live
    ensures LiveCount(gens) > 0
  {
    if g < |gens| - 1 {
      LiveCountPositive(gens[..|gens| - 1], g);
    }
  }

  lemma {:induction false} SentToSame(a: seq<Worker>, b: seq<Worker>, n: string)
    requires |a| == |b| && forall g :: 0 <= g < |a| ==> a[g].ns == b[g].ns && a[g].sent == b[g].sent
    ensures SentTo(a, n) == SentTo(b, n)
  {
    if a != [] {
      SentToSame(a[..|a| - 1], b[..|b| - 1], n);
    }
  }

  lemma LatestPrefix(gens: seq<Worker>, g: nat)
    requires Latest(gens, g) && g < |gens| - 1
    ensures Latest(gens[..|gens| - 1], g) && gens[|gens| - 1].ns != gens[g].ns
  {
    var before := gens[..|gens| - 1];
    forall i | g < i < |before| ensures before[i].ns != before[g].ns {
      assert before[i] == gens[i];
    }
  }

  /** What the latest worker of a namespace is sent comes after everything sent before. */
  lemma {:induction false} SentToLatest(gens: seq<Worker>, g: nat, w: Worker, ev: Event, n: string)
    requires Latest(gens, g) && w.ns == gens[g].ns && w.sent == gens[g].sent + [ev]
    ensures SentTo(gens[g := w], n) == SentTo(gens, n) + if w.ns == n then [ev] else []
  {
    var last := |gens| - 1;
    if g == last {
      assert gens[g := w][..last] == gens[..last];
    } else {
      LatestPrefix(gens, g);
      SentToLatest(gens[..last], g, w, ev, n);
      assert gens[g := w][..last] == gens[..last][g := w];
    }
  }

  // ----- the steps -----

  /** The slots stay in order while names, cancellations and the dispatcher's targets do. */
  lemma SlotsKept(s: State, s': State)
    requires SlotsOk(s)
    requires |s'.gens| == |s.gens| && s'.workers.Keys <= s.workers.Keys
    requires forall g :: 0 <= g < |s.gens| ==> s'.gens[g].ns == s.gens[g].ns
    requires forall n :: n in s'.workers ==>
      var g := s.workers[n].gen;
      && s'.workers[n].gen == g
      && (g < |s.gens| && s'.gens[g].canc ==> s.gens[g].canc || s'.pc.Waiting?)
      && (s'.workers[n].lastEvent.None? ==>
            s.workers[n].lastEvent.None? &&
            (Targeted(s, n) ==> Targeted(s', n)))
    requires s.pc.Waiting? || s.pc.Returned? ==> s'.pc.Waiting? || s'.pc.Returned?
    ensures SlotsOk(s')
  {
    forall n | n in s'.workers ensures SlotOk(s', n) {
      assert SlotOk(s, n);
    }
  }

  lemma WorkersUpdated(gens: seq<Worker>, g: nat, w: Worker)
    requires WorkersOk(gens) && g < |gens| && WorkerOk(w)
    ensures WorkersOk(gens[g := w])
  {
    var gens' := gens[g := w];
    forall i | 0 <= i < |gens'| ensures WorkerOk(gens'[i]) {
      assert WorkerOk(gens[i]);
    }
  }

  lemma NewWorkerDelivered(s: State, w: Worker, pc: Dispatcher)
    requires Delivered(s) && w.sent == [] && Pending(pc) == Pending(s.pc)
    ensures Delivered(s.(gens := s.gens + [w], pc := pc))
  {
    var gens := s.gens + [w];
    assert gens[..|s.gens|] == s.gens;
    forall n ensures SentTo(gens, n) == SentTo(s.gens, n) {
    }
  }

  lemma NewWorkerSlots(s: State, s': State, n: string)
    requires SlotsOk(s) && !s.pc.Waiting? && !s.pc.Returned? && !s.pc.Sending? && !s.pc.Stamping?
    requires n !in s.workers && s'.workers == s.workers[n := Slot(|s.gens|, None, 0)]
    requires |s'.gens| == |s.gens| + 1 && s'.gens[..|s.gens|] == s.gens
    requires s'.gens[|s.gens|].ns == n && !s'.gens[|s.gens|].canc && Targeted(s', n)
    ensures SlotsOk(s')
  {
    forall m | m in s'.workers ensures SlotOk(s', m) {
      if m != n {
        assert SlotOk(s, m);
        var g := s.workers[m].gen;
        assert s'.gens[g] == s.gens[g];
        forall i | g < i < |s'.gens| ensures s'.gens[i].ns != m {
          assert i < |s.gens| ==> s'.gens[i] == s.gens[i];
        }
      }
    }
  }

  lemma NewWorkerOk(gens: seq<Worker>, w: Worker)
    requires WorkersOk(gens) && WorkerOk(w)
    ensures WorkersOk(gens + [w])
  {
    var gens' := gens + [w];
    forall g | 0 <= g < |gens'| ensures WorkerOk(gens'[g]) {
      if g < |gens| {
        assert WorkerOk(gens[g]);
      }
    }
  }

  lemma NewWorkerMapped(s: State, s': State, w: Worker)
    requires UncancelledMapped(s) && ExitedWereStopped(s) && w.live && !w.canc
    requires w.ns !in s.workers && s'.workers == s.workers[w.ns := Slot(|s.gens|, None, 0)]
    requires s'.gens == s.gens + [w] && s'.mainDone == s.mainDone
    ensures UncancelledMapped(s') && ExitedWereStopped(s') && LiveCount(s'.gens) == LiveCount(s.gens) + 1
  {
    assert s'.gens[..|s.gens|] == s.gens;
    forall g | 0 <= g < |s'.gens| && !s'.gens[g].canc
      ensures s'.gens[g].ns in s'.workers && s'.workers[s'.gens[g].ns].gen == g
    {
      assert g < |s.gens| ==> s'.gens[g] == s.gens[g];
    }
    forall g | 0 <= g < |s'.gens| && !s'.gens[g].live ensures StopRequested(s', g) {
      assert g < |s.gens| ==> s'.gens[g] == s.gens[g] && StopRequested(s, g);
    }
  }

  lemma InvGetOrCreate(c: Config, s: State)
    requires Inv(s) && Enabled(s, GetOrCreate)
    ensures Inv(Next(c, s, GetOrCreate))
  {
    var s' := Next(c, s, GetOrCreate);
    var n := NamespaceNameOf(s.pc.ev);
    if n !in s.workers {
      var w := Worker(n, [], None, [], [], false, true);
      assert s'.gens == s.gens + [w] && s'.gens[..|s.gens|] == s.gens;
      NewWorkerDelivered(s, w, s'.pc);
      NewWorkerOk(s.gens, w);
      NewWorkerSlots(s, s', n);
      NewWorkerMapped(s, s', w);
    } else {
      SlotsKept(s, s');
    }
  }

  lemma SingleByNamespace(ev: Event, n: string)
    ensures ByNamespace([ev], n) == if NamespaceNameOf(ev) == n then [ev] else []
  {
    assert [ev][..0] == [];
  }

  lemma SendDelivered(s: State, g: nat, w: Worker, n: string)
    requires Delivered(s) && s.pc.Sending? && Latest(s.gens, g)
    requires w.ns == s.gens[g].ns == NamespaceNameOf(s.pc.ev) && w.sent == s.gens[g].sent + [s.pc.ev]
    ensures Delivered(s.(gens := s.gens[g := w], pc := Stamping(n)))
  {
    forall m ensures ByNamespace(s.received, m) == SentTo(s.gens[g := w], m) {
      SentToLatest(s.gens, g, w, s.pc.ev, m);
      SingleByNamespace(s.pc.ev, m);
    }
  }

  lemma SendOk(w: Worker, ev: Event)
    requires WorkerOk(w) && |w.queue| < QUEUE_SIZE && NamespaceNameOf(ev) == w.ns
    ensures WorkerOk(w.(queue := w.queue + [ev], sent := w.sent + [ev]))
  {
  }

  lemma InvSend(c: Config, s: State)
    requires Inv(s) && Enabled(s, Send)
    ensures Inv(Next(c, s, Send))
  {
    var s' := Next(c, s, Send);
    var n := NamespaceNameOf(s.pc.ev);
    var g := s.workers[n].gen;
    assert SlotOk(s, n) && WorkerOk(s.gens[g]);
    SendOk(s.gens[g], s.pc.ev);
    LiveCountUpdate(s.gens, g, s'.gens[g]);
    WorkersUpdated(s.gens, g, s'.gens[g]);
    SendDelivered(s, g, s'.gens[g], n);
    SlotsKept(s, s');
  }

  /** Cancelling only raises flags. */
  lemma CancelledFacts(s: State, names: set<string>)
    requires WorkersOk(s.gens)
    ensures var gens := Cancelled(s, names);
            && LiveCount(gens) == LiveCount(s.gens)
            && (forall n :: SentTo(gens, n) == SentTo(s.gens, n))
            && WorkersOk(gens)
  {
    var gens := Cancelled(s, names);
    LiveCountSame(gens, s.gens);
    forall n ensures SentTo(gens, n) == SentTo(s.gens, n) {
      SentToSame(gens, s.gens, n);
    }
    forall g | 0 <= g < |gens| ensures WorkerOk(gens[g]) {
      assert WorkerOk(s.gens[g]);
    }
  }

  lemma InvCleanUp(c: Config, s: State)
    requires Inv(s) && Enabled(s, CleanUp)
    ensures Inv(Next(c, s, CleanUp))
  {
    CancelledFacts(s, IdleNames(s));
    forall n | n in s.workers ensures s.workers[n].gen < |s.gens| && s.gens[s.workers[n].gen].ns == n {
      assert SlotOk(s, n);
    }
    SlotsKept(s, Next(c, s, CleanUp));
  }

  lemma InvBeginShutdown(c: Config, s: State)
    requires Inv(s) && Enabled(s, BeginShutdown)
    ensures Inv(Next(c, s, BeginShutdown))
  {
    if s.workers != map[] {
      CancelledFacts(s, s.workers.Keys);
    }
    SlotsKept(s, Next(c, s, BeginShutdown));
  }

  /** A step of worker `g` that leaves its name and what it was sent alone. */
  lemma InvWorkerStep(s: State, s': State, g: nat)
    requires Inv(s) && g < |s.gens| && |s'.gens| == |s.gens|
    requires s' == s.(reg := s'.reg, gens := s.gens[g := s'.gens[g]], waitGroup := s'.waitGroup)
    requires WorkerOk(s'.gens[g]) && s.gens[g].live
    requires var w, w' := s.gens[g], s'.gens[g]; w'.ns == w.ns && w'.sent == w.sent && w'.canc == w.canc
    requires s'.gens[g].live || StopRequested(s, g)
    requires s'.waitGroup == s.waitGroup - if s'.gens[g].live then 0 else 1
    ensures Inv(s')
  {
    LiveCountUpdate(s.gens, g, s'.gens[g]);
    WorkersUpdated(s.gens, g, s'.gens[g]);
    forall n ensures SentTo(s'.gens, n) == SentTo(s.gens, n) {
      SentToSame(s'.gens, s.gens, n);
    }
    SlotsKept(s, s');
  }

  lemma TakeOk(w: Worker, now: int)
    requires WorkerOk(w) && w.live && w.busy.None? && w.queue != []
    ensures WorkerOk(w.(busy := Some(Job(w.queue[0], FirstStep(w.queue[0]), now)), queue := w.queue[1..]))
  {
    assert w.queue == [w.queue[0]] + w.queue[1..];
    assert w.sent[|w.processed|] == w.queue[0];
  }

  lemma InvTake(c: Config, s: State, g: nat)
    requires Inv(s) && Enabled(s, Take(g))
    ensures Inv(Next(c, s, Take(g)))
  {
    assert WorkerOk(s.gens[g]);
    TakeOk(s.gens[g], s.now);
    InvWorkerStep(s, Next(c, s, Take(g)), g);
  }

  lemma InvMakeCall(c: Config, s: State, g: nat, ok: bool)
    requires Inv(s) && Enabled(s, MakeCall(g, ok))
    ensures Inv(Next(c, s, MakeCall(g, ok)))
  {
    var s' := Next(c, s, MakeCall(g, ok));
    var w, w' := s.gens[g], s'.gens[g];
    assert WorkerOk(w);
    if w'.busy.None? {
      assert EventsOf(w'.processed) == EventsOf(w.processed) + InFlight(w);
    }
    InvWorkerStep(s, s', g);
  }

  lemma ReceiveDelivered(s: State, ev: Event)
    requires Delivered(s) && s.pc.Selecting?
    ensures Delivered(s.(pc := Holding(ev), received := s.received + [ev]))
  {
    var received := s.received + [ev];
    assert received[..|s.received|] == s.received;
    forall n ensures ByNamespace(received, n) == SentTo(s.gens, n) + ByNamespace([ev], n) {
      SingleByNamespace(ev, n);
    }
  }

  lemma InvReceive(c: Config, s: State, ev: Event)
    requires Inv(s) && Enabled(s, Receive(ev))
    ensures Inv(Next(c, s, Receive(ev)))
  {
    var s' := Next(c, s, Receive(ev));
    if s' != s {
      ReceiveDelivered(s, ev);
      SlotsKept(s, s');
    }
  }

  lemma InvStep(c: Config, s: State, a: Action)
    requires Inv(s) && Enabled(s, a)
    ensures Inv(Next(c, s, a))
  {
    match a
    case Receive(ev) => InvReceive(c, s, ev);
    case GetOrCreate => InvGetOrCreate(c, s);
    case Send => InvSend(c, s);
    case CleanUp => InvCleanUp(c, s);
    case BeginShutdown => InvBeginShutdown(c, s);
    case Take(g) => InvTake(c, s, g);
    case MakeCall(g, ok) => InvMakeCall(c, s, g, ok);
    case Exit(g) =>
      assert WorkerOk(s.gens[g]);
      InvWorkerStep(s, Next(c, s, a), g);
    case _ => SlotsKept(s, Next(c, s, a));
  }

  lemma {:induction false} InvRun(c: Config, s: State, acts: seq<Action>)
    requires Inv(s) && IsRun(c, s, acts)
    ensures Inv(After(c, s, acts))
    decreases |acts|
  {
    if acts != [] {
      InvStep(c, s, acts[0]);
      InvRun(c, Next(c, s, acts[0]), acts[1..]);
    }
  }

  // ----- the theorems -----

  function LiveWorkers(gens: seq<Worker>): set<nat> {
    set g: nat | g < |gens| && gens[g].live
  }

  lemma {:induction false} LiveCountIsCardinality(gens: seq<Worker>)
    ensures LiveCount(gens) == |LiveWorkers(gens)|
  {
    if gens != [] {
      var last := |gens| - 1;
      LiveCountIsCardinality(gens[..last]);
      var before := LiveWorkers(gens[..last]);
      assert LiveWorkers(gens) == if gens[last].live then before + {last} else before;
    }
  }

  lemma InitialInv(r: Registry)
    ensures Inv(Initial(r))
  {
  }

  /**
   In every reachable state the wait group counts the live workers, a live worker is in the map
   or cancelled, a namespace has at most one uncancelled worker, and a queue holds at most 25
   events, all of the worker's own namespace.
   */
  lemma WorkerLifecycle(c: Config, r: Registry, acts: seq<Action>)
    requires IsRun(c, Initial(r), acts)
    ensures var s := After(c, Initial(r), acts);
      && s.waitGroup == |LiveWorkers(s.gens)|
      && (forall g :: 0 <= g < |s.gens| && s.gens[g].live ==>
            s.gens[g].canc || (s.gens[g].ns in s.workers && s.workers[s.gens[g].ns].gen == g))
      && (forall g, h :: 0 <= g < |s.gens| && 0 <= h < |s.gens| && s.gens[g].ns == s.gens[h].ns ==>
            s.gens[g].canc || s.gens[h].canc || g == h)
      && (forall g, ev :: 0 <= g < |s.gens| && ev in s.gens[g].queue ==> NamespaceNameOf(ev) == s.gens[g].ns)
      && (forall g :: 0 <= g < |s.gens| ==> |s.gens[g].queue| <= 25)
  {
    InitialInv(r);
    InvRun(c, Initial(r), acts);
    var s := After(c, Initial(r), acts);
    LiveCountIsCardinality(s.gens);
    forall g | 0 <= g < |s.gens| ensures |s.gens[g].queue| <= 25 {
      assert WorkerOk(s.gens[g]);
    }
    forall g, ev | 0 <= g < |s.gens| && ev in s.gens[g].queue ensures NamespaceNameOf(ev) == s.gens[g].ns {
      QueueRouted(s.gens[g], ev);
    }
  }

  lemma QueueRouted(w: Worker, ev: Event)
    requires WorkerOk(w) && ev in w.queue
    ensures NamespaceNameOf(ev) == w.ns
  {
    var i :| 0 <= i < |w.queue| && w.queue[i] == ev;
    var k := |w.processed| + |InFlight(w)|;
    assert w.sent[k + i] == w.queue[i];
  }

  /**
   The clean-up takes out and cancels exactly the workers whose last event, if ever set, is more than
   five minutes (in nanoseconds) ago; no other worker changes.
   */
  lemma CleanUpMeans(c: Config, s: State)
    requires Inv(s) && Enabled(s, CleanUp)
    ensures var s' := Next(c, s, CleanUp);
      && (forall n :: n in s'.workers <==>
            n in s.workers && s.workers[n].lastEvent.Some? && s.now - s.workers[n].lastEvent.value <= 300_000_000_000)
      && (forall n :: n in s'.workers ==> s'.workers[n] == s.workers[n])
      && |s'.gens| == |s.gens|
      && (forall n :: n in s.workers && n !in s'.workers ==> s.workers[n].gen < |s.gens| && s'.gens[s.workers[n].gen].canc)
      && (forall g :: 0 <= g < |s.gens| && (forall n :: n in s.workers && n !in s'.workers ==> s.workers[n].gen != g) ==>
            s'.gens[g] == s.gens[g])
  {
    forall n | n in s.workers ensures s.workers[n].gen < |s.gens| && s.gens[s.workers[n].gen].ns == n {
      assert SlotOk(s, n);
    }
  }

  /** What an exited worker left in its queue. */
  function Lost(w: Worker): seq<Event> {
    if w.live then [] else w.queue
  }

  /** What a running worker still has in its queue. */
  function Queued(w: Worker): seq<Event> {
    if w.live then w.queue else []
  }

  /**
   Conservation and order. Per namespace, what was received is what its generations were sent,
   in order, followed by what the dispatcher still holds; what a generation was sent is what it
   processed, what it is handling, and what is queued or lost with it, in order. Only a worker
   that was asked to stop loses anything.
   */
  lemma EventConservation(c: Config, r: Registry, acts: seq<Action>, n: string)
    requires IsRun(c, Initial(r), acts)
    ensures var s := After(c, Initial(r), acts);
      && ByNamespace(s.received, n) == SentTo(s.gens, n) + ByNamespace(Pending(s.pc), n)
      && (forall g :: 0 <= g < |s.gens| ==>
            && s.gens[g].sent ==
               EventsOf(s.gens[g].processed) + InFlight(s.gens[g]) + Queued(s.gens[g]) + Lost(s.gens[g])
            && (Lost(s.gens[g]) != [] ==> StopRequested(s, g) && InFlight(s.gens[g]) == []))
  {
    InitialInv(r);
    InvRun(c, Initial(r), acts);
    var s := After(c, Initial(r), acts);
    forall g | 0 <= g < |s.gens|
      ensures s.gens[g].sent ==
              EventsOf(s.gens[g].processed) + InFlight(s.gens[g]) + Queued(s.gens[g]) + Lost(s.gens[g])
      ensures Lost(s.gens[g]) != [] ==> StopRequested(s, g) && InFlight(s.gens[g]) == []
    {
      assert WorkerOk(s.gens[g]);
    }
  }
}
