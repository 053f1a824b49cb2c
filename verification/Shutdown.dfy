/** How the dispatcher ends, and how it may not. */
module Shutdown {
  import opened Types
  import opened Registry
  import opened WorkerSteps
  import opened Machine
  import opened Lifecycle

  /** What worker `w` still has to do before it is gone. */
  function WorkOf(w: Worker): nat {
    if !w.live then 0
    else 1 + 4 * |w.queue| + if w.busy.Some? then CallsLeft(w.busy.value.step) else 0
  }

  function Work(gens: seq<Worker>): nat {
    if gens == [] then 0 else Work(gens[..|gens| - 1]) + WorkOf(gens[|gens| - 1])
  }

  lemma {:induction false} WorkUpdate(gens: seq<Worker>, g: nat, w: Worker)
    requires g < |gens|
    ensures Work(gens[g := w]) == Work(gens) - WorkOf(gens[g]) + WorkOf(w)
  {
    var last := |gens| - 1;
    if g == last {
      assert gens[g := w][..last] == gens[..last];
    } else {
      WorkUpdate(gens[..last], g, w);
      assert gens[g := w][..last] == gens[..last][g := w];
    }
  }

  /** The dispatcher has taken its cancel branch. */
  predicate ShuttingDown(s: State) {
    (s.pc.Waiting? || s.pc.Returned?) && s.mainDone
  }

  predicate IsWorkerAction(a: Action) {
    a.Take? || a.MakeCall? || a.Exit?
  }

  function WorkerActions(acts: seq<Action>): nat {
    if acts == [] then 0 else (if IsWorkerAction(acts[0]) then 1 else 0) + WorkerActions(acts[1..])
  }

  lemma ShutdownStep(c: Config, s: State, a: Action)
    requires Inv(s) && ShuttingDown(s) && Enabled(s, a)
    ensures var s' := Next(c, s, a);
      ShuttingDown(s') && (if IsWorkerAction(a) then Work(s'.gens) < Work(s.gens) else s'.gens == s.gens)
  {
    if IsWorkerAction(a) {
      var g := a.g;
      var w' := Next(c, s, a).gens[g];
      assert WorkerOk(s.gens[g]);
      LessWork(c, s, a);
      assert Next(c, s, a).gens == s.gens[g := w'];
      WorkUpdate(s.gens, g, w');
    }
  }

  /** A step of a worker leaves it less to do. */
  lemma LessWork(c: Config, s: State, a: Action)
    requires IsWorkerAction(a) && Enabled(s, a) && WorkerOk(s.gens[a.g])
    ensures WorkOf(Next(c, s, a).gens[a.g]) < WorkOf(s.gens[a.g])
  {
  }

  /** A live worker that was asked to stop can always take a step. */
  lemma LiveWorkerCanStep(s: State, g: nat) returns (a: Action)
    requires Inv(s) && Alive(s, g) && StopRequested(s, g)
    ensures IsWorkerAction(a) && Enabled(s, a)
  {
    assert WorkerOk(s.gens[g]);
    if s.gens[g].busy.None? {
      a := Exit(g);
    } else {
      JobHasObject(s, g);
      a := MakeCall(g, false);
    }
  }

  /** An event a worker handles is routed, so it has an object. */
  lemma JobHasObject(s: State, g: nat)
    requires Inv(s) && g < |s.gens| && s.gens[g].busy.Some?
    ensures Handling(s, g)
  {
    var w := s.gens[g];
    assert WorkerOk(w);
    assert w.sent[|w.processed|] == w.busy.value.ev;
  }

  lemma {:induction false} SomeLive(gens: seq<Worker>) returns (g: nat)
    requires LiveCount(gens) > 0
    ensures g < |gens| && gens[g].live
  {
    if gens[|gens| - 1].live {
      g := |gens| - 1;
    } else {
      g := SomeLive(gens[..|gens| - 1]);
    }
  }

  /**
   Shutting down terminates: however the workers' steps interleave, and even though a cancelled
   worker may keep taking queued events, they can make at most `Work` steps in all, and when none
   can make a step the wait group is at zero.
   */
  lemma {:induction false} ShutdownTerminates(c: Config, s: State, acts: seq<Action>)
    requires Inv(s) && ShuttingDown(s) && IsRun(c, s, acts)
    ensures var s' := After(c, s, acts);
      && ShuttingDown(s')
      && Work(s'.gens) + WorkerActions(acts) <= Work(s.gens)
      && ((forall a :: IsWorkerAction(a) ==> !Enabled(s', a)) ==> s'.waitGroup == 0)
    decreases |acts|
  {
    if acts == [] {
      if s.waitGroup > 0 {
        var g := SomeLive(s.gens);
        var a := LiveWorkerCanStep(s, g);
      }
    } else {
      InvStep(c, s, acts[0]);
      ShutdownStep(c, s, acts[0]);
      ShutdownTerminates(c, Next(c, s, acts[0]), acts[1..]);
    }
  }

  /** From every state of the shutdown, some run of workers' steps brings the wait group to zero. */
  lemma {:induction false} ShutdownReachesZero(c: Config, s: State) returns (acts: seq<Action>)
    requires Inv(s) && ShuttingDown(s)
    ensures IsRun(c, s, acts) && After(c, s, acts).waitGroup == 0
    ensures forall i :: 0 <= i < |acts| ==> IsWorkerAction(acts[i])
    decreases Work(s.gens)
  {
    if s.waitGroup > 0 {
      var g := SomeLive(s.gens);
      var a := LiveWorkerCanStep(s, g);
      InvStep(c, s, a);
      ShutdownStep(c, s, a);
      var rest := ShutdownReachesZero(c, Next(c, s, a));
      acts := [a] + rest;
      assert acts[1..] == rest;
    } else {
      assert LiveCount(s.gens) == 0;
      acts := [];
    }
  }

  /**
   The dispatcher returns with every worker gone, except exactly when it finds its map empty while
   the wait group is not at zero: then it returns at once. The workers it leaves behind were all
   cancelled and taken out of the map before.
   */
  lemma ReturnsCleanly(c: Config, r: Registry, acts: seq<Action>, a: Action)
    requires IsRun(c, Initial(r), acts) && Enabled(After(c, Initial(r), acts), a)
    requires !After(c, Initial(r), acts).pc.Returned? && Next(c, After(c, Initial(r), acts), a).pc.Returned?
    ensures var s := After(c, Initial(r), acts); var s' := Next(c, s, a);
      && (LiveWorkers(s'.gens) != {} <==> s.pc.Selecting? && s.workers == map[] && s.waitGroup != 0)
      && forall g :: 0 <= g < |s'.gens| && s'.gens[g].live ==> s'.gens[g].canc && s'.gens[g].ns !in s'.workers
  {
    InitialInv(r);
    InvRun(c, Initial(r), acts);
    var s := After(c, Initial(r), acts);
    LiveCountIsCardinality(s.gens);
    forall g | 0 <= g < |s.gens| && s.gens[g].live ensures g in LiveWorkers(s.gens) && s.waitGroup != 0 {
      LiveCountPositive(s.gens, g);
    }
  }

  // ----- a blocked send -----

  /** The dispatcher sends to the full queue of a worker whose goroutine has exited. */
  predicate Stuck(s: State) {
    && s.pc.Sending?
    && Mapped(s, NamespaceNameOf(s.pc.ev))
    && var w := s.gens[s.workers[NamespaceNameOf(s.pc.ev)].gen];
       !w.live && |w.queue| >= QUEUE_SIZE
  }

  lemma {:induction false} StuckForever(c: Config, s: State, acts: seq<Action>)
    requires Stuck(s) && IsRun(c, s, acts)
    ensures Stuck(After(c, s, acts)) && After(c, s, acts).pc == s.pc
    decreases |acts|
  {
    if acts != [] {
      StuckForever(c, Next(c, s, acts[0]), acts[1..]);
    }
  }

  /** Steps the worker a send is blocked on needs to make room: first its job, then one event. */
  function StepsToRoom(s: State): nat {
    if s.pc.Sending? && Mapped(s, NamespaceNameOf(s.pc.ev)) then
      var w := s.gens[s.workers[NamespaceNameOf(s.pc.ev)].gen];
      if |w.queue| < QUEUE_SIZE then 0
      else 1 + if w.busy.Some? then CallsLeft(w.busy.value.step) else 0
    else 0
  }

  /** The worker a send is blocked on makes room within four steps of its own. */
  lemma {:induction false} MakesRoom(c: Config, s: State) returns (acts: seq<Action>)
    requires Inv(s) && s.pc.Sending? && !Stuck(s)
    ensures |acts| <= StepsToRoom(s) <= 4 && IsRun(c, s, acts) && Enabled(After(c, s, acts), Send)
    ensures forall i :: 0 <= i < |acts| ==> IsWorkerAction(acts[i])
    decreases StepsToRoom(s)
  {
    var n := NamespaceNameOf(s.pc.ev);
    assert SlotOk(s, n);
    var g := s.workers[n].gen;
    var w := s.gens[g];
    assert WorkerOk(w);
    if |w.queue| < QUEUE_SIZE {
      acts := [];
    } else {
      var a;
      if w.busy.Some? {
        JobHasObject(s, g);
        a := MakeCall(g, false);
      } else {
        a := Take(g);
      }
      InvStep(c, s, a);
      var rest := MakesRoom(c, Next(c, s, a));
      acts := [a] + rest;
      assert acts[1..] == rest;
    }
  }

  /**
   A blocked send can go through after some steps of its worker exactly when the dispatcher is
   not stuck; and until the main context is cancelled it is not: the worker it sends to is live
   and nobody asked it to stop.
   */
  lemma BlockedSendProgress(c: Config, r: Registry, acts: seq<Action>)
    requires IsRun(c, Initial(r), acts) && After(c, Initial(r), acts).pc.Sending?
    ensures var s := After(c, Initial(r), acts);
      && (Stuck(s) <==> forall more :: IsRun(c, s, more) ==> After(c, s, more).pc == s.pc)
      && Mapped(s, NamespaceNameOf(s.pc.ev))
      && (!s.mainDone ==>
            var g := s.workers[NamespaceNameOf(s.pc.ev)].gen;
            Alive(s, g) && !StopRequested(s, g) && !Stuck(s))
  {
    InitialInv(r);
    InvRun(c, Initial(r), acts);
    var s := After(c, Initial(r), acts);
    assert SlotOk(s, NamespaceNameOf(s.pc.ev));
    if Stuck(s) {
      forall more | IsRun(c, s, more) ensures After(c, s, more).pc == s.pc {
        StuckForever(c, s, more);
      }
    } else {
      var more := MakesRoom(c, s);
      var s' := After(c, s, more);
      assert IsRun(c, s', [Send]) by {
        assert [Send][1..] == [];
      }
      RunAppend(c, s, more, [Send]);
      assert After(c, s', [Send]) == Next(c, s', Send) by {
        assert [Send][1..] == [];
      }
      assert After(c, s, more + [Send]).pc != s.pc;
    }
  }
}
