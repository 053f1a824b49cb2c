/** Whose objects a run may remove: this holds for every run, overlapping workers included. */
module Ownership {
  import opened Types
  import opened Registry
  import opened WorkerSteps
  import opened Machine
  import opened Lifecycle
  import opened Interleaving

  /** `k` was registered by a processed create or update event. */
  ghost predicate RegisteredIn(w: Worker, k: Key) {
    exists i :: 0 <= i < |w.processed| && Registers(w.ns, w.processed[i], k)
  }

  predicate Registers(ns: string, d: Done, k: Key) {
    d.ok && !d.ev.kind.Delete? && !d.ev.obj.UnknownObj? && Target(ns, d.ev.obj) == k
  }

  ghost predicate Registered(s: State, k: Key) {
    RegisteredByAny(s.gens, k)
  }

  ghost predicate RegisteredByAny(gens: seq<Worker>, k: Key) {
    exists g :: 0 <= g < |gens| && RegisteredIn(gens[g], k)
  }

  /** Past its ownership check, a handler only faces an object of the operator, or none. */
  ghost predicate PastCheck(w: Worker, r: Registry) {
    w.busy.Some? && !w.busy.value.step.Finished? ==>
      && !w.busy.value.ev.obj.UnknownObj?
      && (w.busy.value.step.Registering? <==> !w.busy.value.ev.kind.Delete?)
      && (w.busy.value.step.Listing? || w.busy.value.step.Deregistering? ==>
            var k := Target(w.ns, w.busy.value.ev.obj); k in r ==> IsOwnedByOperator(r[k].meta))
  }

  ghost predicate AllPastCheck(s: State) {
    forall g {:trigger PastCheck(s.gens[g], s.reg)} :: 0 <= g < |s.gens| ==> PastCheck(s.gens[g], s.reg)
  }

  /** What was there at the start and not owned is untouched, unless it was registered since. */
  ghost predicate ForeignKept(r0: Registry, s: State) {
    forall k {:trigger k in r0} :: k in r0 && !IsOwnedByOperator(r0[k].meta) ==>
      Lookup(s.reg, k) == Lookup(r0, k) || Registered(s, k)
  }

  lemma RegisteredStays(c: Config, s: State, a: Action, k: Key)
    requires Enabled(s, a) && Registered(s, k)
    ensures Registered(Next(c, s, a), k)
  {
    var s' := Next(c, s, a);
    var g :| 0 <= g < |s.gens| && RegisteredIn(s.gens[g], k);
    ProcessedGrows(c, s, a, g);
    RegisteredInMore(s.gens[g], s'.gens[g], k);
  }

  lemma ProcessedGrows(c: Config, s: State, a: Action, g: nat)
    requires Enabled(s, a) && g < |s.gens|
    ensures g < |Next(c, s, a).gens| && Next(c, s, a).gens[g].ns == s.gens[g].ns
    ensures s.gens[g].processed <= Next(c, s, a).gens[g].processed
  {
  }

  lemma RegisteredInMore(w: Worker, w': Worker, k: Key)
    requires RegisteredIn(w, k) && w'.ns == w.ns && w.processed <= w'.processed
    ensures RegisteredIn(w', k)
  {
    var i :| 0 <= i < |w.processed| && Registers(w.ns, w.processed[i], k);
    assert Registers(w'.ns, w'.processed[i], k);
  }

  /** What a call does to the registry: it stores an object with the owner set, or removes one. */
  lemma CallOwnership(c: Config, w: Worker, r: Registry, ok: bool, k: Key)
    requires IsOwnedByOperator(c.persistent) && w.busy.Some? && !w.busy.value.step.Finished? && PastCheck(w, r)
    ensures var (step, r') := Call(c, w.ns, w.busy.value.ev, w.busy.value.step, r, ok);
      Lookup(r', k) != Lookup(r, k) ==>
        && k == Target(w.ns, w.busy.value.ev.obj)
        && (if k in r' then IsOwnedByOperator(r'[k].meta) && step.Finished? && ok && !w.busy.value.ev.kind.Delete?
            else IsOwnedByOperator(r[k].meta))
  {
  }

  lemma PastCheckStep(c: Config, s: State, a: Action, g: nat)
    requires IsOwnedByOperator(c.persistent) && WorkersOk(s.gens) && Enabled(s, a) && AllPastCheck(s)
    requires g < |Next(c, s, a).gens|
    ensures var s' := Next(c, s, a); PastCheck(s'.gens[g], s'.reg)
  {
    var s' := Next(c, s, a);
    if g < |s.gens| {
      assert PastCheck(s.gens[g], s.reg);
      if a.MakeCall? {
        PastCheckCall(c, s, a.g, a.ok, g);
      } else if a != Take(g) {
        assert s'.gens[g].ns == s.gens[g].ns && s'.gens[g].busy == s.gens[g].busy;
      }
    }
  }

  lemma PastCheckCall(c: Config, s: State, h: nat, ok: bool, g: nat)
    requires IsOwnedByOperator(c.persistent) && WorkersOk(s.gens) && Enabled(s, MakeCall(h, ok)) && AllPastCheck(s)
    requires g < |s.gens|
    ensures var s' := Next(c, s, MakeCall(h, ok)); PastCheck(s'.gens[g], s'.reg)
  {
    assert PastCheck(s.gens[g], s.reg) && WorkerOk(s.gens[g]);
    assert PastCheck(s.gens[h], s.reg) && WorkerOk(s.gens[h]);
    if s.gens[g].busy.Some? {
      CallOwnership(c, s.gens[h], s.reg, ok, Target(s.gens[g].ns, s.gens[g].busy.value.ev.obj));
    }
  }

  lemma ForeignKeptStep(c: Config, r0: Registry, s: State, a: Action, k: Key)
    requires IsOwnedByOperator(c.persistent) && Inv(s) && Enabled(s, a) && AllPastCheck(s) && ForeignKept(r0, s)
    requires k in r0 && !IsOwnedByOperator(r0[k].meta)
    ensures var s' := Next(c, s, a); Lookup(s'.reg, k) == Lookup(r0, k) || Registered(s', k)
  {
    var s' := Next(c, s, a);
    if Registered(s, k) {
      RegisteredStays(c, s, a, k);
    } else if a.MakeCall? {
      var w := s.gens[a.g];
      assert PastCheck(w, s.reg) && WorkerOk(w);
      CallOwnership(c, w, s.reg, a.ok, k);
      if Lookup(s'.reg, k) != Lookup(s.reg, k) {
        var w' := s'.gens[a.g];
        assert Registers(w'.ns, w'.processed[|w.processed|], k);
        assert RegisteredIn(w', k);
      }
    }
  }

  lemma {:induction false} OwnershipRun(c: Config, r0: Registry, s: State, acts: seq<Action>)
    requires IsOwnedByOperator(c.persistent) && Inv(s) && AllPastCheck(s) && ForeignKept(r0, s) && IsRun(c, s, acts)
    ensures var s' := After(c, s, acts); Inv(s') && AllPastCheck(s') && ForeignKept(r0, s')
    decreases |acts|
  {
    if acts != [] {
      var s' := Next(c, s, acts[0]);
      InvStep(c, s, acts[0]);
      forall g | 0 <= g < |s'.gens| ensures PastCheck(s'.gens[g], s'.reg) {
        PastCheckStep(c, s, acts[0], g);
      }
      forall k | k in r0 && !IsOwnedByOperator(r0[k].meta)
        ensures Lookup(s'.reg, k) == Lookup(r0, k) || Registered(s', k)
      {
        ForeignKeptStep(c, r0, s, acts[0], k);
      }
      OwnershipRun(c, r0, s', acts[1..]);
    }
  }

  /**
   Whatever the schedule: an object somebody else owns at the start is still there, as it was,
   unless some worker processed a create or update event for that very object.
   */
  lemma ForeignObjectsSurvive(c: Config, r0: Registry, acts: seq<Action>, k: Key)
    requires "owner" in c.persistent && c.persistent["owner"] == "cnwan-operator" && IsRun(c, Initial(r0), acts)
    requires k in r0 && ("owner" !in r0[k].meta || r0[k].meta["owner"] != "cnwan-operator")
    ensures var s := After(c, Initial(r0), acts); Lookup(s.reg, k) == Lookup(r0, k) || Registered(s, k)
  {
    InitialInv(r0);
    OwnershipRun(c, r0, Initial(r0), acts);
  }

  /** Every object a step of a run removes is, at that moment, the operator's. */
  lemma OnlyOwnedRemoved(c: Config, r0: Registry, acts: seq<Action>, a: Action, k: Key)
    requires "owner" in c.persistent && c.persistent["owner"] == "cnwan-operator" && IsRun(c, Initial(r0), acts)
    requires var s := After(c, Initial(r0), acts); Enabled(s, a) && k in s.reg && k !in Next(c, s, a).reg
    ensures var s := After(c, Initial(r0), acts); "owner" in s.reg[k].meta && s.reg[k].meta["owner"] == "cnwan-operator"
  {
    InitialInv(r0);
    OwnershipRun(c, r0, Initial(r0), acts);
    var s := After(c, Initial(r0), acts);
    if a.MakeCall? {
      var w := s.gens[a.g];
      assert PastCheck(w, s.reg) && WorkerOk(w);
      CallOwnership(c, w, s.reg, a.ok, k);
    }
  }

  // ----- registering has no ownership check -----

  ghost predicate RegisteredBy(ns: string, log: seq<Done>, k: Key) {
    exists i :: 0 <= i < |log| && Registers(ns, log[i], k)
  }

  /** An object that was somebody else's: untouched until it is registered, never his again after. */
  lemma {:induction false} FoldTakesOver(c: Config, ns: string, r: Registry, log: seq<Done>, k: Key)
    requires IsOwnedByOperator(c.persistent) && NoOrphans(r) && k in r && !IsOwnedByOperator(r[k].meta)
    ensures var r' := Fold(c, ns, r, log);
      && NoOrphans(r')
      && if RegisteredBy(ns, log, k) then k in r' ==> IsOwnedByOperator(r'[k].meta) else Lookup(r', k) == Lookup(r, k)
  {
    if log != [] {
      var before, last := log[..|log| - 1], log[|log| - 1];
      FoldTakesOver(c, ns, r, before, k);
      RegisteredByNext(ns, before, last, k);
      assert log == before + [last];
      PerformKeepsNoOrphans(c, ns, Fold(c, ns, r, before), last.ev, last.ok);
    }
  }

  lemma RegisteredByNext(ns: string, before: seq<Done>, last: Done, k: Key)
    ensures RegisteredBy(ns, before + [last], k) <==> RegisteredBy(ns, before, k) || Registers(ns, last, k)
  {
    var log := before + [last];
    assert log[|before|] == last;
    if i :| 0 <= i < |before| && Registers(ns, before[i], k) {
      assert log[i] == before[i];
    }
  }

  /** A namespace's objects are registered by its own workers, of whatever generation. */
  lemma {:induction false} RegisteredByWorkers(gens: seq<Worker>, k: Key)
    ensures RegisteredBy(k.ns, ProcessedBy(gens, k.ns), k) <==> RegisteredByAny(gens, k)
  {
    if gens != [] {
      var before, last := gens[..|gens| - 1], gens[|gens| - 1];
      RegisteredByWorkers(before, k);
      RegisteredByLast(before, last, k);
      assert gens == before + [last];
      if last.ns == k.ns {
        RegisteredByAppend(k.ns, ProcessedBy(before, k.ns), last.processed, k);
      } else {
        assert ProcessedBy(before, k.ns) + [] == ProcessedBy(before, k.ns);
        assert !RegisteredIn(last, k);
      }
    }
  }

  lemma RegisteredByLast(before: seq<Worker>, last: Worker, k: Key)
    ensures RegisteredByAny(before + [last], k) <==> RegisteredByAny(before, k) || RegisteredIn(last, k)
  {
    var gens := before + [last];
    assert gens[|before|] == last;
    if g :| 0 <= g < |before| && RegisteredIn(before[g], k) {
      assert gens[g] == before[g];
    }
    if g :| 0 <= g < |gens| && RegisteredIn(gens[g], k) {
      assert g < |before| ==> before[g] == gens[g];
    }
  }

  lemma RegisteredByAppend(ns: string, a: seq<Done>, b: seq<Done>, k: Key)
    ensures RegisteredBy(ns, a + b, k) <==> RegisteredBy(ns, a, k) || RegisteredBy(ns, b, k)
  {
    var log := a + b;
    if i :| 0 <= i < |a| && Registers(ns, a[i], k) {
      assert log[i] == a[i];
    }
    if i :| 0 <= i < |b| && Registers(ns, b[i], k) {
      assert log[|a| + i] == b[i];
    }
    if i :| 0 <= i < |log| && Registers(ns, log[i], k) {
      assert log[i] == if i < |a| then a[i] else b[i - |a|];
    }
  }

  lemma SubtreeKeepsNoOrphans(r: Registry, n: string)
    requires NoOrphans(r)
    ensures NoOrphans(Subtree(r, n))
  {
    forall k | k in Subtree(r, n) ensures HasParent(Subtree(r, n), k) {
      assert HasParent(r, k);
      SubtreeFacts(r, n, k);
    }
  }

  /**
   Objects of others are not skipped. In every orderly run an object somebody else owns at the
   start is as it was if and only if no create or update event for it was processed; and once one
   was, the object is the operator's or gone.
   */
  lemma ForeignKeptIffNotRegistered(c: Config, r0: Registry, acts: seq<Action>, k: Key)
    requires "owner" in c.persistent && c.persistent["owner"] == "cnwan-operator" && NoOrphans(r0) && IsOrderlyRun(c, Initial(r0), acts)
    requires k in r0 && ("owner" !in r0[k].meta || r0[k].meta["owner"] != "cnwan-operator")
    ensures IsRun(c, Initial(r0), acts)
    ensures var s := After(c, Initial(r0), acts);
      && (Lookup(s.reg, k) == Lookup(r0, k) <==> !Registered(s, k))
      && (Registered(s, k) && k in s.reg ==> "owner" in s.reg[k].meta && s.reg[k].meta["owner"] == "cnwan-operator")
  {
    InterleavingRefinesFold(c, r0, acts, k.ns);
    var s := After(c, Initial(r0), acts);
    var log := ProcessedBy(s.gens, k.ns);
    SubtreeKeepsNoOrphans(r0, k.ns);
    SubtreeFacts(r0, k.ns, k);
    SubtreeFacts(s.reg, k.ns, k);
    FoldTakesOver(c, k.ns, Subtree(r0, k.ns), log, k);
    RegisteredByWorkers(s.gens, k);
  }

  /**
   A delete event alone does nothing to somebody else's object; a create event before it lets it be
   removed, exactly if nothing is below it.
   */
  lemma UnguardedRegisterTakesOver(c: Config, r: Registry, ns: string, obj: Object)
    requires IsOwnedByOperator(c.persistent) && NoOrphans(r) && !obj.UnknownObj?
    requires Target(ns, obj) in r && !IsOwnedByOperator(r[Target(ns, obj)].meta)
    ensures var k := Target(ns, obj);
      && Replay(c, ns, r, [Event(Delete, obj)]) == r
      && (k !in Replay(c, ns, r, [Event(Create, obj), Event(Delete, obj)]) <==> k.EpKey? || !HasChildren(r, k))
  {
    var k := Target(ns, obj);
    var created, deleted := Event(Create, obj), Event(Delete, obj);
    ReplayOne(c, ns, r, deleted);
    ReplayOne(c, ns, r, created);
    assert [created, deleted][..1] == [created];
    assert HasParent(r, k);
    var r1 := Replay(c, ns, r, [created]);
    assert r1 == Register(c, r, k, obj) && IsOwnedByOperator(r1[k].meta);
    if HasChildren(r, k) {
      var x :| x in r && ParentOf(x) == Some(k);
      assert x in r1;
    }
    if HasChildren(r1, k) {
      var x :| x in r1 && ParentOf(x) == Some(k);
      assert x in r;
    }
  }

  /** The repair: like `Perform`, but objects of others are skipped, as the documentation says. */
  function PerformSkipping(c: Config, ns: string, r: Registry, ev: Event, ok: bool): Registry {
    if ev.obj.UnknownObj? then r
    else
      var k := Target(ns, ev.obj);
      if k in r && !IsOwnedByOperator(r[k].meta) then r else Perform(c, ns, r, ev, ok)
  }

  function FoldSkipping(c: Config, ns: string, r: Registry, log: seq<Done>): Registry {
    if log == [] then r
    else
      var last := log[|log| - 1];
      PerformSkipping(c, ns, FoldSkipping(c, ns, r, log[..|log| - 1]), last.ev, last.ok)
  }

  /**
   Repaired, no log of events changes an object of somebody else; and where nothing is somebody
   else's, the repair changes nothing.
   */
  lemma {:induction false} RepairedRegisterSkips(c: Config, ns: string, r: Registry, log: seq<Done>, k: Key)
    requires IsOwnedByOperator(c.persistent)
    ensures k in r && !IsOwnedByOperator(r[k].meta) ==> Lookup(FoldSkipping(c, ns, r, log), k) == Lookup(r, k)
    ensures (forall x :: x in r ==> IsOwnedByOperator(r[x].meta)) ==>
      && FoldSkipping(c, ns, r, log) == Fold(c, ns, r, log)
      && forall x :: x in Fold(c, ns, r, log) ==> IsOwnedByOperator(Fold(c, ns, r, log)[x].meta)
  {
    if log != [] {
      RepairedRegisterSkips(c, ns, r, log[..|log| - 1], k);
    }
  }
}
