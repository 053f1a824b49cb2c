/**
 However the workers interleave, each namespace's part of the registry is what one worker handling
 its events one after the other would have left: as long as a reaped worker has exited before its
 namespace gets a new one.
 */
module Interleaving {
  import opened Types
  import opened Registry
  import opened Meaning
  import opened WorkerSteps
  import opened Machine
  import opened Lifecycle

  /** A new worker is created only when no older one of its namespace still runs. */
  ghost predicate Orderly(s: State, a: Action) {
    a.GetOrCreate? && s.pc.Holding? && NamespaceNameOf(s.pc.ev) !in s.workers ==>
      forall g :: 0 <= g < |s.gens| && s.gens[g].live ==> s.gens[g].ns != NamespaceNameOf(s.pc.ev)
  }

  ghost predicate IsOrderlyRun(c: Config, s: State, acts: seq<Action>)
    decreases |acts|
  {
    acts == [] || (Enabled(s, acts[0]) && Orderly(s, acts[0]) && IsOrderlyRun(c, Next(c, s, acts[0]), acts[1..]))
  }

  lemma {:induction false} OrderlyRunIsRun(c: Config, s: State, acts: seq<Action>)
    requires IsOrderlyRun(c, s, acts)
    ensures IsRun(c, s, acts)
    decreases |acts|
  {
    if acts != [] {
      OrderlyRunIsRun(c, Next(c, s, acts[0]), acts[1..]);
    }
  }

  /** What the workers of `n` processed, generation after generation. */
  function ProcessedBy(gens: seq<Worker>, n: string): seq<Done> {
    if gens == [] then []
    else
      ProcessedBy(gens[..|gens| - 1], n) +
      if gens[|gens| - 1].ns == n then gens[|gens| - 1].processed else []
  }

  ghost predicate LiveIsLatest(gens: seq<Worker>) {
    forall g {:trigger gens[g].live} :: 0 <= g < |gens| && gens[g].live ==> Latest(gens, g)
  }

  ghost predicate JobChecked(w: Worker, r: Registry) {
    w.busy.Some? ==> Checked(w.ns, w.busy.value.ev, w.busy.value.step, r)
  }

  ghost predicate JobsChecked(s: State) {
    forall g {:trigger JobChecked(s.gens[g], s.reg)} :: 0 <= g < |s.gens| ==> JobChecked(s.gens[g], s.reg)
  }

  /** Namespace by namespace, the registry is the fold of what was processed. */
  ghost predicate Folded(c: Config, r0: Registry, s: State) {
    forall n :: Subtree(s.reg, n) == Fold(c, n, Subtree(r0, n), ProcessedBy(s.gens, n))
  }

  ghost predicate Refines(c: Config, r0: Registry, s: State) {
    LiveIsLatest(s.gens) && JobsChecked(s) && Folded(c, r0, s) && (NoOrphans(r0) ==> NoOrphans(s.reg))
  }

  ghost predicate Serial(c: Config, r0: Registry, s: State) {
    Inv(s) && Refines(c, r0, s)
  }

  lemma {:induction false} ProcessedSame(a: seq<Worker>, b: seq<Worker>, n: string)
    requires |a| == |b| && forall g :: 0 <= g < |a| ==> a[g].ns == b[g].ns && a[g].processed == b[g].processed
    ensures ProcessedBy(a, n) == ProcessedBy(b, n)
  {
    if a != [] {
      ProcessedSame(a[..|a| - 1], b[..|b| - 1], n);
    }
  }

  lemma {:induction false} ProcessedLatest(gens: seq<Worker>, g: nat, w: Worker, d: Done, n: string)
    requires Latest(gens, g) && w.ns == gens[g].ns && w.processed == gens[g].processed + [d]
    ensures ProcessedBy(gens[g := w], n) == ProcessedBy(gens, n) + if w.ns == n then [d] else []
  {
    var last := |gens| - 1;
    if g == last {
      assert gens[g := w][..last] == gens[..last];
    } else {
      LatestPrefix(gens, g);
      ProcessedLatest(gens[..last], g, w, d, n);
      assert gens[g := w][..last] == gens[..last][g := w];
    }
  }

  /** What a handler has checked depends on its own namespace only. */
  lemma CheckedSubtree(ns: string, ev: Event, step: Step, r: Registry, r': Registry)
    requires Checked(ns, ev, step, r) && Subtree(r, ns) == Subtree(r', ns)
    ensures Checked(ns, ev, step, r')
  {
    if !ev.obj.UnknownObj? {
      var k := Target(ns, ev.obj);
      SubtreeFacts(r, ns, k);
      SubtreeFacts(r', ns, k);
    }
  }

  /** Such steps are all but taking an event, calling the registry and creating a worker. */
  lemma QuietStep(c: Config, s: State, a: Action)
    requires Enabled(s, a) && !a.Take? && !a.MakeCall? && (a.GetOrCreate? ==> NamespaceNameOf(s.pc.ev) in s.workers)
    ensures var s' := Next(c, s, a);
      && s'.reg == s.reg && |s'.gens| == |s.gens|
      && forall g :: 0 <= g < |s.gens| ==>
           var w, w' := s.gens[g], s'.gens[g];
           w'.ns == w.ns && w'.busy == w.busy && w'.processed == w.processed && (w'.live ==> w.live)
  {
  }

  /** Steps that change neither the registry nor any worker's name, job or processed events. */
  lemma SerialQuiet(c: Config, r0: Registry, s: State, s': State)
    requires Refines(c, r0, s) && s'.reg == s.reg && |s'.gens| == |s.gens|
    requires forall g :: 0 <= g < |s.gens| ==>
      var w, w' := s.gens[g], s'.gens[g];
      w'.ns == w.ns && w'.busy == w.busy && w'.processed == w.processed && (w'.live ==> w.live)
    ensures Refines(c, r0, s')
  {
    forall g | 0 <= g < |s'.gens| ensures JobChecked(s'.gens[g], s'.reg) {
      assert JobChecked(s.gens[g], s.reg);
    }
    forall n ensures ProcessedBy(s'.gens, n) == ProcessedBy(s.gens, n) {
      ProcessedSame(s'.gens, s.gens, n);
    }
    forall g | 0 <= g < |s'.gens| && s'.gens[g].live ensures Latest(s'.gens, g) {
      assert s.gens[g].live;
      assert Latest(s.gens, g);
    }
  }

  lemma SerialCreate(c: Config, r0: Registry, s: State)
    requires Refines(c, r0, s) && Enabled(s, GetOrCreate) && Orderly(s, GetOrCreate)
    requires NamespaceNameOf(s.pc.ev) !in s.workers
    ensures Refines(c, r0, Next(c, s, GetOrCreate))
  {
    var s' := Next(c, s, GetOrCreate);
    var w := Worker(NamespaceNameOf(s.pc.ev), [], None, [], [], false, true);
    assert s'.gens == s.gens + [w];
    forall g | 0 <= g < |s'.gens| ensures JobChecked(s'.gens[g], s'.reg) {
      if g < |s.gens| {
        assert JobChecked(s.gens[g], s.reg);
      }
    }
    NewWorkerLatest(s.gens, w);
    forall n ensures Subtree(s'.reg, n) == Fold(c, n, Subtree(r0, n), ProcessedBy(s'.gens, n)) {
      NewWorkerProcessed(s.gens, w, n);
    }
  }

  lemma NewWorkerLatest(gens: seq<Worker>, w: Worker)
    requires LiveIsLatest(gens) && forall g :: 0 <= g < |gens| && gens[g].live ==> gens[g].ns != w.ns
    ensures LiveIsLatest(gens + [w])
  {
    var gens' := gens + [w];
    forall g | 0 <= g < |gens'| && gens'[g].live ensures Latest(gens', g) {
      if g < |gens| {
        assert gens[g].live;
        assert Latest(gens, g);
        forall i | g < i < |gens'| ensures gens'[i].ns != gens'[g].ns {
          assert i < |gens| ==> gens'[i] == gens[i];
        }
      }
    }
  }

  lemma NewWorkerProcessed(gens: seq<Worker>, w: Worker, n: string)
    requires w.processed == []
    ensures ProcessedBy(gens + [w], n) == ProcessedBy(gens, n)
  {
    assert (gens + [w])[..|gens|] == gens;
  }

  lemma SerialTake(c: Config, r0: Registry, s: State, g: nat)
    requires Refines(c, r0, s) && Enabled(s, Take(g))
    ensures Refines(c, r0, Next(c, s, Take(g)))
  {
    var s' := Next(c, s, Take(g));
    forall h | 0 <= h < |s'.gens| ensures JobChecked(s'.gens[h], s'.reg) {
      assert JobChecked(s.gens[h], s.reg);
    }
    forall n ensures ProcessedBy(s'.gens, n) == ProcessedBy(s.gens, n) {
      ProcessedSame(s'.gens, s.gens, n);
    }
    forall h | 0 <= h < |s'.gens| && s'.gens[h].live ensures Latest(s'.gens, h) {
      assert s.gens[h].live;
      assert Latest(s.gens, h);
    }
  }

  /** The registry after a call of worker `g`, seen from each namespace. */
  lemma CallSubtrees(c: Config, s: State, g: nat, ok: bool, n: string)
    requires Enabled(s, MakeCall(g, ok)) && JobChecked(s.gens[g], s.reg)
    ensures var s' := Next(c, s, MakeCall(g, ok)); var w := s.gens[g];
      Subtree(s'.reg, n) ==
      if n == w.ns && s'.gens[g].busy.None? then Perform(c, n, Subtree(s.reg, n), w.busy.value.ev, ok)
      else Subtree(s.reg, n)
  {
    var w := s.gens[g];
    CallRefinesPerform(c, w.ns, w.busy.value.ev, w.busy.value.step, s.reg, ok);
    PerformSubtree(c, w.ns, s.reg, w.busy.value.ev, ok, n);
  }

  lemma SerialCallFolded(c: Config, r0: Registry, s: State, g: nat, ok: bool, n: string)
    requires Serial(c, r0, s) && Enabled(s, MakeCall(g, ok))
    ensures var s' := Next(c, s, MakeCall(g, ok));
      Subtree(s'.reg, n) == Fold(c, n, Subtree(r0, n), ProcessedBy(s'.gens, n))
  {
    var s' := Next(c, s, MakeCall(g, ok));
    var w := s.gens[g];
    assert JobChecked(w, s.reg) && Latest(s.gens, g);
    CallSubtrees(c, s, g, ok, n);
    var log := ProcessedBy(s.gens, n);
    if s'.gens[g].busy.None? {
      var d := Done(w.busy.value.ev, ok);
      ProcessedLatest(s.gens, g, s'.gens[g], d, n);
      assert s'.gens == s.gens[g := s'.gens[g]];
      assert (log + [d])[..|log|] == log && log + [] == log;
    } else {
      ProcessedSame(s'.gens, s.gens, n);
    }
  }

  lemma SerialCallJobs(c: Config, r0: Registry, s: State, g: nat, ok: bool, h: nat)
    requires Serial(c, r0, s) && Enabled(s, MakeCall(g, ok)) && h < |s.gens|
    ensures var s' := Next(c, s, MakeCall(g, ok)); JobChecked(s'.gens[h], s'.reg)
  {
    var s' := Next(c, s, MakeCall(g, ok));
    var w, x := s.gens[g], s.gens[h];
    assert JobChecked(w, s.reg) && JobChecked(x, s.reg) && WorkerOk(x);
    if h == g {
      CallRefinesPerform(c, w.ns, w.busy.value.ev, w.busy.value.step, s.reg, ok);
    } else if x.busy.Some? {
      assert Latest(s.gens, g) && Latest(s.gens, h);
      CallSubtrees(c, s, g, ok, x.ns);
      CheckedSubtree(x.ns, x.busy.value.ev, x.busy.value.step, s.reg, s'.reg);
    }
  }

  lemma SerialCall(c: Config, r0: Registry, s: State, g: nat, ok: bool)
    requires Serial(c, r0, s) && Enabled(s, MakeCall(g, ok))
    ensures Refines(c, r0, Next(c, s, MakeCall(g, ok)))
  {
    var s' := Next(c, s, MakeCall(g, ok));
    forall h | 0 <= h < |s'.gens| ensures JobChecked(s'.gens[h], s'.reg) {
      SerialCallJobs(c, r0, s, g, ok, h);
    }
    forall n ensures Subtree(s'.reg, n) == Fold(c, n, Subtree(r0, n), ProcessedBy(s'.gens, n)) {
      SerialCallFolded(c, r0, s, g, ok, n);
    }
    forall h | 0 <= h < |s'.gens| && s'.gens[h].live ensures Latest(s'.gens, h) {
      assert s.gens[h].live;
      assert Latest(s.gens, h);
    }
    var w := s.gens[g];
    assert JobChecked(w, s.reg);
    CallRefinesPerform(c, w.ns, w.busy.value.ev, w.busy.value.step, s.reg, ok);
    if NoOrphans(s.reg) {
      PerformKeepsNoOrphans(c, w.ns, s.reg, w.busy.value.ev, ok);
    }
  }

  lemma SerialStep(c: Config, r0: Registry, s: State, a: Action)
    requires Serial(c, r0, s) && Enabled(s, a) && Orderly(s, a)
    ensures Serial(c, r0, Next(c, s, a))
  {
    InvStep(c, s, a);
    if a.Take? {
      SerialTake(c, r0, s, a.g);
    } else if a.MakeCall? {
      SerialCall(c, r0, s, a.g, a.ok);
    } else if a.GetOrCreate? && NamespaceNameOf(s.pc.ev) !in s.workers {
      SerialCreate(c, r0, s);
    } else {
      QuietStep(c, s, a);
      SerialQuiet(c, r0, s, Next(c, s, a));
    }
  }

  lemma {:induction false} SerialRun(c: Config, r0: Registry, s: State, acts: seq<Action>)
    requires Serial(c, r0, s) && IsOrderlyRun(c, s, acts)
    ensures IsRun(c, s, acts) && Serial(c, r0, After(c, s, acts))
    decreases |acts|
  {
    if acts != [] {
      SerialStep(c, r0, s, acts[0]);
      SerialRun(c, r0, Next(c, s, acts[0]), acts[1..]);
    }
  }

  // ----- the theorems -----

  /**
   Interleaving refinement. After an orderly run, whatever the schedule and whichever calls
   failed, the part of the registry under each namespace is the fold, over what its workers
   processed, of the handlers done in one go.
   */
  lemma InterleavingRefinesFold(c: Config, r0: Registry, acts: seq<Action>, n: string)
    requires IsOrderlyRun(c, Initial(r0), acts)
    ensures IsRun(c, Initial(r0), acts)
    ensures var s := After(c, Initial(r0), acts);
      Subtree(s.reg, n) == Fold(c, n, Subtree(r0, n), ProcessedBy(s.gens, n))
  {
    InitialInv(r0);
    SerialRun(c, r0, Initial(r0), acts);
  }

  /** Every registry an orderly run reaches has every endpoint's service and service's namespace. */
  lemma NoOrphansReachable(c: Config, r0: Registry, acts: seq<Action>)
    requires NoOrphans(r0) && IsOrderlyRun(c, Initial(r0), acts)
    ensures IsRun(c, Initial(r0), acts)
    ensures var r := After(c, Initial(r0), acts).reg;
      && (forall ns, svc, ep {:trigger EpKey(ns, svc, ep)} :: EpKey(ns, svc, ep) in r ==> SvcKey(ns, svc) in r)
      && (forall ns, svc {:trigger SvcKey(ns, svc)} :: SvcKey(ns, svc) in r ==> NsKey(ns) in r)
  {
    InitialInv(r0);
    SerialRun(c, r0, Initial(r0), acts);
    NoOrphansMeans(After(c, Initial(r0), acts).reg);
  }

  /**
   The one way to lose a parent: from a registry without orphans a step makes one if and only if it
   deregisters an object that has children at that moment.
   */
  lemma OrphanStepIff(c: Config, s: State, a: Action)
    requires Enabled(s, a) && NoOrphans(s.reg)
    ensures !NoOrphans(Next(c, s, a).reg) <==>
      && a.MakeCall? && a.ok && s.gens[a.g].busy.value.step.Deregistering?
      && HasChildren(s.reg, Target(s.gens[a.g].ns, s.gens[a.g].busy.value.ev.obj))
  {
    var r' := Next(c, s, a).reg;
    if a.MakeCall? {
      var job := s.gens[a.g].busy.value;
      if !job.step.Finished? {
        var k := Target(s.gens[a.g].ns, job.ev.obj);
        if job.step.Deregistering? && a.ok && HasChildren(s.reg, k) {
          var x :| x in s.reg && ParentOf(x) == Some(k);
          assert x in r' && !HasParent(r', x);
        } else {
          forall x | x in r' ensures HasParent(r', x) {
            assert x in s.reg ==> HasParent(s.reg, x);
          }
        }
      }
    }
  }

  /** Events of all generations in dispatch order, each generation's lost tail left out. */
  function KeptOf(gens: seq<Worker>, n: string): seq<Event> {
    if gens == [] then []
    else
      var w := gens[|gens| - 1];
      KeptOf(gens[..|gens| - 1], n) +
      if w.ns == n then w.sent[..if |w.processed| <= |w.sent| then |w.processed| else 0] else []
  }

  /** Processing follows dispatch order: what each generation processed begins what it was sent. */
  lemma {:induction false} ProcessedInDispatchOrder(gens: seq<Worker>, n: string)
    requires WorkersOk(gens)
    ensures EventsOf(ProcessedBy(gens, n)) == KeptOf(gens, n)
  {
    if gens != [] {
      var w := gens[|gens| - 1];
      var before := gens[..|gens| - 1];
      assert WorkersOk(before) by {
        forall g | 0 <= g < |before| ensures WorkerOk(before[g]) {
          assert WorkerOk(gens[g]);
        }
      }
      ProcessedInDispatchOrder(before, n);
      assert WorkerOk(gens[|gens| - 1]);
      assert w.sent[..|w.processed|] == EventsOf(w.processed);
      assert EventsOf(ProcessedBy(before, n) + w.processed) == EventsOf(ProcessedBy(before, n)) + EventsOf(w.processed);
      assert EventsOf(ProcessedBy(before, n) + []) == EventsOf(ProcessedBy(before, n)) + [];
    }
  }

  /** Nothing is queued, in flight, pending or lost. */
  ghost predicate Quiet(s: State) {
    Pending(s.pc) == [] && forall g :: 0 <= g < |s.gens| ==> Backlog(s.gens[g]) == 0
  }

  /**
   When everything has come to rest, what was processed is what was received: the registry is the
   fold of the received events themselves.
   */
  lemma QuietRunProcessedAll(c: Config, r0: Registry, acts: seq<Action>, n: string)
    requires IsOrderlyRun(c, Initial(r0), acts)
    ensures IsRun(c, Initial(r0), acts)
    ensures var s := After(c, Initial(r0), acts);
      Quiet(s) ==>
        && EventsOf(ProcessedBy(s.gens, n)) == ByNamespace(s.received, n)
        && (AllOk(ProcessedBy(s.gens, n)) ==>
              Subtree(s.reg, n) == Replay(c, n, Subtree(r0, n), ByNamespace(s.received, n)))
  {
    InitialInv(r0);
    SerialRun(c, r0, Initial(r0), acts);
    var s := After(c, Initial(r0), acts);
    if Quiet(s) {
      AllProcessed(s.gens, n);
      if AllOk(ProcessedBy(s.gens, n)) {
        AllOkIsReplay(c, n, Subtree(r0, n), ProcessedBy(s.gens, n));
      }
    }
  }

  lemma {:induction false} AllProcessed(gens: seq<Worker>, n: string)
    requires WorkersOk(gens) && forall g :: 0 <= g < |gens| ==> Backlog(gens[g]) == 0
    ensures EventsOf(ProcessedBy(gens, n)) == SentTo(gens, n)
  {
    if gens != [] {
      var w := gens[|gens| - 1];
      var before := gens[..|gens| - 1];
      assert WorkersOk(before) by {
        forall g | 0 <= g < |before| ensures WorkerOk(before[g]) {
          assert WorkerOk(gens[g]);
        }
      }
      AllProcessed(before, n);
      assert WorkerOk(gens[|gens| - 1]) && Backlog(gens[|gens| - 1]) == 0;
      assert w.sent == EventsOf(w.processed);
      assert EventsOf(ProcessedBy(before, n) + w.processed) == EventsOf(ProcessedBy(before, n)) + EventsOf(w.processed);
      assert EventsOf(ProcessedBy(before, n) + []) == EventsOf(ProcessedBy(before, n)) + [];
    }
  }
}
