/**
 A worker's handlers, one remote call at a time. Deleting is check-then-act: get the object,
 check its owner, check that it is empty, deregister it; other workers may run in between.
 */
module WorkerSteps {
  import opened Types
  import opened Registry

  /** The remote call a handler makes next. */
  datatype Step = Registering | Getting | Listing | Deregistering | Finished

  function FirstStep(ev: Event): Step {
    if ev.obj.UnknownObj? then Finished
    else if ev.kind.Delete? then Getting
    else Registering
  }

  /**
   The effect of the next call and the step after it. For a reading call, `ok` says that it was
   answered; for a writing call, that it took effect.
   */
  function Call(c: Config, ns: string, ev: Event, step: Step, r: Registry, ok: bool): (Step, Registry)
    requires !step.Finished? ==> !ev.obj.UnknownObj?
  {
    if step.Finished? then (Finished, r)
    else
      var k := Target(ns, ev.obj);
      match step
      case Registering => (Finished, if ok then Register(c, r, k, ev.obj) else r)
      case Getting =>
        if !ok || k !in r || !IsOwnedByOperator(r[k].meta) then (Finished, r)
        else if k.EpKey? then (Deregistering, r)
        else (Listing, r)
      case Listing => if !ok || HasChildren(r, k) then (Finished, r) else (Deregistering, r)
      case Deregistering => (Finished, if ok then r - {k} else r)
  }

  /** At most this many calls remain. */
  function CallsLeft(step: Step): nat {
    match step
    case Getting => 3
    case Listing => 2
    case _ => 1
  }

  /** What the handler of `ev` has already checked when it stands at `step`. */
  ghost predicate Checked(ns: string, ev: Event, step: Step, r: Registry) {
    (!step.Finished? ==> !ev.obj.UnknownObj?) &&
    match step
    case Registering => !ev.kind.Delete?
    case Getting => ev.kind.Delete?
    case Listing => ev.kind.Delete? && OwnedEntry(Lookup(r, Target(ns, ev.obj))) && !Target(ns, ev.obj).EpKey?
    case Deregistering => ev.kind.Delete? && Deletable(r, Target(ns, ev.obj))
    case Finished => ev.obj.UnknownObj?
  }

  /**
   One call, while what was checked still holds: either the handler goes on with more checked
   and the registry as it was, or it ends having done exactly what `Perform` does in one go.
   */
  lemma CallRefinesPerform(c: Config, ns: string, ev: Event, step: Step, r: Registry, ok: bool)
    requires Checked(ns, ev, step, r)
    ensures var (step', r') := Call(c, ns, ev, step, r, ok);
            if step'.Finished? then r' == Perform(c, ns, r, ev, ok)
            else r' == r && Checked(ns, ev, step', r) && CallsLeft(step') < CallsLeft(step)
  {
  }

  /** The effect of the calls `oks` made one after the other, with nobody else writing. */
  function Calls(c: Config, ns: string, ev: Event, step: Step, r: Registry, oks: seq<bool>): (Step, Registry)
    requires !step.Finished? ==> !ev.obj.UnknownObj?
    decreases |oks|
  {
    if oks == [] || step.Finished? then (step, r)
    else
      var (step', r') := Call(c, ns, ev, step, r, oks[0]);
      Calls(c, ns, ev, step', r', oks[1..])
  }

  /** How many calls the handler makes when they go as in `oks`. */
  function CallsMade(c: Config, ns: string, ev: Event, step: Step, r: Registry, oks: seq<bool>): (n: nat)
    requires !step.Finished? ==> !ev.obj.UnknownObj?
    ensures n <= |oks|
    decreases |oks|
  {
    if oks == [] || step.Finished? then 0
    else
      var (step', r') := Call(c, ns, ev, step, r, oks[0]);
      1 + CallsMade(c, ns, ev, step', r', oks[1..])
  }

  predicate AllTrue(oks: seq<bool>) {
    forall i :: 0 <= i < |oks| ==> oks[i]
  }

  /**
   A handler that runs to its end without interference is atomic: it is `Perform`, and its outcome
   is a success iff each of the calls it made was.
   */
  lemma {:induction false} CallsRefinePerform(c: Config, ns: string, ev: Event, step: Step, r: Registry, oks: seq<bool>)
    requires Checked(ns, ev, step, r) && |oks| >= CallsLeft(step)
    ensures var (step', r') := Calls(c, ns, ev, step, r, oks);
      step'.Finished? && r' == Perform(c, ns, r, ev, AllTrue(oks[..CallsMade(c, ns, ev, step, r, oks)]))
    decreases |oks|
  {
    if !step.Finished? {
      CallRefinesPerform(c, ns, ev, step, r, oks[0]);
      var (step', r') := Call(c, ns, ev, step, r, oks[0]);
      var made := CallsMade(c, ns, ev, step', r', oks[1..]);
      assert oks[..1 + made] == [oks[0]] + oks[1..][..made];
      AllTrueNext(oks[0], oks[1..][..made]);
      if step'.Finished? {
        assert made == 0;
      } else {
        CallsRefinePerform(c, ns, ev, step', r', oks[1..]);
        assert oks[0];
      }
    }
  }

  lemma AllTrueNext(ok: bool, rest: seq<bool>)
    ensures AllTrue([ok] + rest) <==> ok && AllTrue(rest)
  {
    if AllTrue([ok] + rest) {
      assert ([ok] + rest)[0] == ok;
      forall i | 0 <= i < |rest| ensures rest[i] {
        assert ([ok] + rest)[i + 1] == rest[i];
      }
    }
  }
}
