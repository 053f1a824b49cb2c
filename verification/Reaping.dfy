/** When reaping an idle worker loses nothing, and when it does. */
module Reaping {
  import opened Types
  import opened Registry
  import opened WorkerSteps
  import opened Machine
  import opened Lifecycle

  /**
   The clock does not run ahead of the workers: a handler ends within the minute its calls are
   given, and a free worker takes the next queued event at once.
   */
  ghost predicate Timely(s: State, a: Action) {
    a.Tick? ==>
      forall g :: 0 <= g < |s.gens| && s.gens[g].live ==>
        var w := s.gens[g];
        if w.busy.Some? then a.to <= w.busy.value.since + MINUTE
        else w.queue != [] ==> a.to == s.now
  }

  ghost predicate IsTimelyRun(c: Config, s: State, acts: seq<Action>)
    decreases |acts|
  {
    acts == [] || (Enabled(s, acts[0]) && Timely(s, acts[0]) && IsTimelyRun(c, Next(c, s, acts[0]), acts[1..]))
  }

  lemma {:induction false} TimelyRunIsRun(c: Config, s: State, acts: seq<Action>)
    requires IsTimelyRun(c, s, acts)
    ensures IsRun(c, s, acts)
    decreases |acts|
  {
    if acts != [] {
      TimelyRunIsRun(c, Next(c, s, acts[0]), acts[1..]);
    }
  }

  lemma {:induction false} TimelyAppend(c: Config, s: State, a: seq<Action>, b: seq<Action>)
    requires IsTimelyRun(c, s, a) && IsRun(c, s, a) && IsTimelyRun(c, After(c, s, a), b)
    ensures IsTimelyRun(c, s, a + b) && IsRun(c, s, a + b)
    ensures IsRun(c, After(c, s, a), b) && After(c, s, a + b) == After(c, After(c, s, a), b)
    decreases |a|
  {
    if a == [] {
      assert a + b == b;
      TimelyRunIsRun(c, s, b);
    } else {
      assert (a + b)[0] == a[0] && (a + b)[1..] == a[1..] + b;
      TimelyAppend(c, Next(c, s, a[0]), a[1..], b);
    }
  }

  ghost predicate JobInTime(w: Worker, now: int) {
    w.busy.Some? ==> w.busy.value.since <= now <= w.busy.value.since + MINUTE
  }

  /** The worker will be done with its backlog one minute per event after it was recorded. */
  ghost predicate OnSchedule(w: Worker, slot: Slot, now: int) {
    slot.lastEvent.Some? ==>
      var done := slot.lastEvent.value + slot.backlog * MINUTE;
      if w.busy.Some? then w.busy.value.since + (1 + |w.queue|) * MINUTE <= done
      else w.queue != [] ==> now + |w.queue| * MINUTE <= done
  }

  ghost predicate JobsInTime(s: State) {
    forall g {:trigger JobInTime(s.gens[g], s.now)} :: 0 <= g < |s.gens| && s.gens[g].live ==>
      JobInTime(s.gens[g], s.now)
  }

  ghost predicate SlotInTime(s: State, n: string)
    requires n in s.workers
  {
    Alive(s, s.workers[n].gen) && s.pc != Stamping(n) ==>
      OnSchedule(s.gens[s.workers[n].gen], s.workers[n], s.now)
  }

  ghost predicate SlotsInTime(s: State) {
    forall n {:trigger SlotInTime(s, n)} :: n in s.workers ==> SlotInTime(s, n)
  }

  lemma OneMoreMinute(q: int)
    ensures (1 + q) * MINUTE == q * MINUTE + MINUTE
  {
  }

  /** Nothing that matters to the schedule of `n` changed. */
  lemma SameWorkerInTime(s: State, s': State, n: string)
    requires n in s.workers && SlotInTime(s, n) && n in s'.workers && s'.workers[n] == s.workers[n] && s'.now == s.now
    requires Alive(s', s.workers[n].gen) ==>
      Alive(s, s.workers[n].gen) &&
      var w, w' := s.gens[s.workers[n].gen], s'.gens[s.workers[n].gen];
      w'.busy == w.busy && w'.queue == w.queue
    requires s.pc == Stamping(n) ==> s'.pc == s.pc
    ensures SlotInTime(s', n)
  {
  }

  lemma TakeInTime(w: Worker, slot: Slot, now: int)
    requires w.busy.None? && w.queue != [] && OnSchedule(w, slot, now)
    ensures OnSchedule(w.(busy := Some(Job(w.queue[0], FirstStep(w.queue[0]), now)), queue := w.queue[1..]), slot, now)
  {
  }

  lemma CallInTime(w: Worker, w': Worker, slot: Slot, now: int)
    requires w.busy.Some? && JobInTime(w, now) && OnSchedule(w, slot, now) && w'.queue == w.queue
    requires w'.busy.Some? ==> w'.busy.value.since == w.busy.value.since
    ensures OnSchedule(w', slot, now)
  {
    OneMoreMinute(|w.queue|);
  }

  /** What is in flight began before now, so it is done a minute per event after now. */
  lemma StampInTime(w: Worker, slot: Slot, now: int)
    requires JobInTime(w, now) && slot.lastEvent == Some(now) && slot.backlog == Backlog(w)
    ensures OnSchedule(w, slot, now)
  {
  }

  /** A step of worker `g`. */
  lemma WorkerStepInTime(c: Config, s: State, a: Action, g: nat, n: string)
    requires Enabled(s, a) && (a == Take(g) || (a.MakeCall? && a.g == g))
    requires JobsInTime(s) && n in s.workers && SlotInTime(s, n)
    ensures SlotInTime(Next(c, s, a), n)
  {
    var s' := Next(c, s, a);
    if s.workers[n].gen != g {
      SameWorkerInTime(s, s', n);
    } else if s.pc != Stamping(n) {
      var w, slot := s.gens[g], s.workers[n];
      assert JobInTime(w, s.now);
      if a.Take? {
        TakeInTime(w, slot, s.now);
      } else {
        CallInTime(w, s'.gens[g], slot, s.now);
      }
    }
  }

  lemma SlotStaysInTime(c: Config, s: State, a: Action, n: string)
    requires SlotsOk(s) && Enabled(s, a) && Timely(s, a) && JobsInTime(s) && SlotsInTime(s)
    requires n in s.workers && n in Next(c, s, a).workers
    ensures SlotInTime(Next(c, s, a), n)
  {
    var s' := Next(c, s, a);
    assert SlotInTime(s, n) && SlotOk(s, n);
    var g := s.workers[n].gen;
    match a
    case Take(h) => WorkerStepInTime(c, s, a, h, n);
    case MakeCall(h, _) => WorkerStepInTime(c, s, a, h, n);
    case Tick(to) =>
      if s.gens[g].live {
        assert s'.gens[g] == s.gens[g] && s'.workers[n] == s.workers[n];
      }
    case SetLastEvent =>
      if s.pc == Stamping(n) {
        if s.gens[g].live {
          assert JobInTime(s.gens[g], s.now);
          StampInTime(s.gens[g], s'.workers[n], s.now);
        }
      } else {
        SameWorkerInTime(s, s', n);
      }
    case Send =>
      assert SlotOk(s, NamespaceNameOf(s.pc.ev));
      if NamespaceNameOf(s.pc.ev) != n {
        SameWorkerInTime(s, s', n);
      }
    case _ => SameWorkerInTime(s, s', n);
  }

  lemma TimelyStep(c: Config, s: State, a: Action)
    requires Inv(s) && Enabled(s, a) && Timely(s, a) && JobsInTime(s) && SlotsInTime(s)
    ensures JobsInTime(Next(c, s, a)) && SlotsInTime(Next(c, s, a))
  {
    var s' := Next(c, s, a);
    forall g | 0 <= g < |s'.gens| && s'.gens[g].live ensures JobInTime(s'.gens[g], s'.now) {
      if g < |s.gens| {
        assert JobInTime(s.gens[g], s.now);
      }
    }
    forall n | n in s'.workers ensures SlotInTime(s', n) {
      if n in s.workers {
        SlotStaysInTime(c, s, a, n);
      }
    }
  }

  lemma {:induction false} TimelyRun(c: Config, s: State, acts: seq<Action>)
    requires Inv(s) && JobsInTime(s) && SlotsInTime(s) && IsTimelyRun(c, s, acts)
    ensures IsRun(c, s, acts)
    ensures var s' := After(c, s, acts); Inv(s') && JobsInTime(s') && SlotsInTime(s')
    decreases |acts|
  {
    if acts != [] {
      InvStep(c, s, acts[0]);
      TimelyStep(c, s, acts[0]);
      TimelyRun(c, Next(c, s, acts[0]), acts[1..]);
    }
  }

  /**
   Reaping drops nothing when the backlog was small: in every timely run, a worker the clean-up
   is about to cancel, and whose backlog was at most five when its last event was recorded, has
   nothing queued and nothing in flight.
   */
  lemma SmallBacklogReapedEmpty(c: Config, r: Registry, acts: seq<Action>, n: string)
    requires IsTimelyRun(c, Initial(r), acts)
    ensures IsRun(c, Initial(r), acts)
    ensures var s := After(c, Initial(r), acts);
      s.pc.Selecting? && !s.mainDone && n in IdleNames(s) && s.workers[n].backlog <= 5 ==>
        Alive(s, s.workers[n].gen) && Backlog(s.gens[s.workers[n].gen]) == 0
  {
    InitialInv(r);
    TimelyRun(c, Initial(r), acts);
    var s := After(c, Initial(r), acts);
    if s.pc.Selecting? && !s.mainDone && n in IdleNames(s) && s.workers[n].backlog <= 5 {
      assert SlotInTime(s, n) && SlotOk(s, n);
      assert JobInTime(s.gens[s.workers[n].gen], s.now);
    }
  }

  // ----- runs that show what can go wrong -----

  /** The state after `evs`, all of namespace `n`, were dispatched at time 0 to its first worker. */
  function Flooded(r: Registry, n: string, evs: seq<Event>): State {
    State(r, [Worker(n, evs, None, evs, [], false, true)], map[n := Slot(0, Some(0), |evs|)],
          1, Selecting, false, 0, evs)
  }

  lemma DispatchOne(c: Config, s: State, n: string, ev: Event)
    requires s.pc.Selecting? && NamespaceNameOf(ev) == n != ""
    requires n in s.workers ==> Mapped(s, n) && |s.gens[s.workers[n].gen].queue| < QUEUE_SIZE
    ensures IsTimelyRun(c, s, DispatchSteps(ev)) && IsRun(c, s, DispatchSteps(ev))
    ensures
      var s0 := if n in s.workers then s
                else s.(gens := s.gens + [Worker(n, [], None, [], [], false, true)],
                        workers := s.workers[n := Slot(|s.gens|, None, 0)], waitGroup := s.waitGroup + 1);
      var g := s0.workers[n].gen;
      var w := s0.gens[g];
      var w' := w.(queue := w.queue + [ev], sent := w.sent + [ev]);
      After(c, s, DispatchSteps(ev)) ==
        s0.(gens := s0.gens[g := w'], workers := s0.workers[n := Slot(g, Some(s.now), Backlog(w'))],
            received := s.received + [ev])
  {
    var acts := DispatchSteps(ev);
    var s1 := Next(c, s, Receive(ev));
    var s2 := Next(c, s1, GetOrCreate);
    assert Enabled(s2, Send);
    var s3 := Next(c, s2, Send);
    assert Enabled(s3, SetLastEvent);
    var s4 := Next(c, s3, SetLastEvent);
    assert acts[1..][1..][1..] == [SetLastEvent] && acts[1..][1..] == [Send, SetLastEvent];
    assert acts[1..] == [GetOrCreate, Send, SetLastEvent];
    assert [SetLastEvent][1..] == [];
    assert IsTimelyRun(c, s3, [SetLastEvent]) && IsRun(c, s3, [SetLastEvent]) && After(c, s3, [SetLastEvent]) == s4;
    assert IsTimelyRun(c, s2, acts[1..][1..]) && IsRun(c, s2, acts[1..][1..]) && After(c, s2, acts[1..][1..]) == s4;
    assert IsTimelyRun(c, s1, acts[1..]) && IsRun(c, s1, acts[1..]) && After(c, s1, acts[1..]) == s4;
  }

  /** Dispatching the last of `evs`. */
  lemma FloodOne(c: Config, r: Registry, n: string, evs: seq<Event>)
    requires n != "" && 0 < |evs| <= QUEUE_SIZE && NamespaceNameOf(evs[|evs| - 1]) == n
    ensures var s := if |evs| == 1 then Initial(r) else Flooded(r, n, evs[..|evs| - 1]);
      var acts := DispatchSteps(evs[|evs| - 1]);
      IsTimelyRun(c, s, acts) && IsRun(c, s, acts) && After(c, s, acts) == Flooded(r, n, evs)
  {
    var last := |evs| - 1;
    var s := if last == 0 then Initial(r) else Flooded(r, n, evs[..last]);
    DispatchOne(c, s, n, evs[last]);
    assert evs == evs[..last] + [evs[last]];
    var w := Worker(n, evs, None, evs, [], false, true);
    assert After(c, s, DispatchSteps(evs[last])).gens == [w];
  }

  lemma {:induction false} Flood(c: Config, r: Registry, n: string, evs: seq<Event>) returns (acts: seq<Action>)
    requires n != "" && 0 < |evs| <= QUEUE_SIZE && forall i :: 0 <= i < |evs| ==> NamespaceNameOf(evs[i]) == n
    ensures IsTimelyRun(c, Initial(r), acts) && IsRun(c, Initial(r), acts)
    ensures After(c, Initial(r), acts) == Flooded(r, n, evs)
  {
    var last := |evs| - 1;
    var before, s := [], Initial(r);
    if last > 0 {
      before := Flood(c, r, n, evs[..last]);
      s := Flooded(r, n, evs[..last]);
    }
    FloodOne(c, r, n, evs);
    acts := before + DispatchSteps(evs[last]);
    TimelyAppend(c, Initial(r), before, DispatchSteps(evs[last]));
  }

  /** A timely run can be extended by one timely action. */
  lemma Extend(c: Config, s: State, acts: seq<Action>, a: Action)
    requires IsTimelyRun(c, s, acts) && IsRun(c, s, acts)
    requires Enabled(After(c, s, acts), a) && Timely(After(c, s, acts), a)
    ensures IsTimelyRun(c, s, acts + [a]) && IsRun(c, s, acts + [a])
    ensures After(c, s, acts + [a]) == Next(c, After(c, s, acts), a)
  {
    var t := After(c, s, acts);
    assert [a][1..] == [];
    assert IsTimelyRun(c, t, [a]) && IsRun(c, t, [a]);
    assert After(c, t, [a]) == After(c, Next(c, t, a), []);
    TimelyAppend(c, s, acts, [a]);
  }

  /**
   The state when the first `k` of `evs` failed after a minute each and the next one was just taken;
   the dispatcher recorded the last event at time 0, with all of `evs` still to do.
   */
  function InWork(r: Registry, n: string, evs: seq<Event>, k: nat): State
    requires k < |evs|
  {
    var failed := seq(k, i requires 0 <= i < k => Done(evs[i], false));
    var job := Job(evs[k], FirstStep(evs[k]), k * MINUTE);
    Flooded(r, n, evs).(gens := [Worker(n, evs[k + 1..], Some(job), evs, failed, false, true)], now := k * MINUTE)
  }

  /**
   The first of `evs` is taken at once. So the backlog when the last event is recorded may be one
   more than a queue holds.
   */
  lemma {:induction false} Start(c: Config, r: Registry, n: string, evs: seq<Event>) returns (acts: seq<Action>)
    requires n != "" && 0 < |evs| <= QUEUE_SIZE + 1 && forall i :: 0 <= i < |evs| ==> NamespaceNameOf(evs[i]) == n
    ensures IsTimelyRun(c, Initial(r), acts) && IsRun(c, Initial(r), acts)
    ensures After(c, Initial(r), acts) == InWork(r, n, evs, 0)
  {
    if |evs| <= QUEUE_SIZE {
      acts := Flood(c, r, n, evs);
      Extend(c, Initial(r), acts, Take(0));
      acts := acts + [Take(0)];
      assert After(c, Initial(r), acts).gens[0] == InWork(r, n, evs, 0).gens[0];
    } else {
      var before, ev := evs[..QUEUE_SIZE], evs[QUEUE_SIZE];
      acts := Start(c, r, n, before);
      OneMoreDispatched(c, r, n, before, ev);
      TimelyAppend(c, Initial(r), acts, DispatchSteps(ev));
      acts := acts + DispatchSteps(ev);
      assert evs == before + [ev];
    }
  }

  lemma OneMoreDispatched(c: Config, r: Registry, n: string, before: seq<Event>, ev: Event)
    requires n != "" && NamespaceNameOf(ev) == n && |before| == QUEUE_SIZE
    ensures var s, acts := InWork(r, n, before, 0), DispatchSteps(ev);
      IsTimelyRun(c, s, acts) && IsRun(c, s, acts) && After(c, s, acts) == InWork(r, n, before + [ev], 0)
  {
    var s := InWork(r, n, before, 0);
    DispatchOne(c, s, n, ev);
    var w := InWork(r, n, before + [ev], 0).gens[0];
    assert s.gens[0].queue + [ev] == w.queue && s.gens[0].processed == w.processed;
    assert (before + [ev])[0] == before[0];
    assert After(c, s, DispatchSteps(ev)).gens == [w];
  }

  /** The handler in flight fails after its minute, and the next event is taken. */
  lemma NextInWork(c: Config, r: Registry, n: string, evs: seq<Event>, k: nat)
    requires k + 1 < |evs| && NamespaceNameOf(evs[k]) == n != ""
    ensures WorksOff(c, InWork(r, n, evs, k), (k + 1) * MINUTE, InWork(r, n, evs, k + 1))
  {
    var s, s' := InWork(r, n, evs, k), InWork(r, n, evs, k + 1);
    OneMoreMinute(k);
    var s2 := Next(c, Next(c, s, Tick((k + 1) * MINUTE)), MakeCall(0, false));
    assert s2.gens[0].processed == s'.gens[0].processed;
    assert evs[k + 1..][0] == evs[k + 1] && evs[k + 1..][1..] == evs[k + 2..];
    assert Next(c, s2, Take(0)).gens == s'.gens;
  }

  /** Time passes until `to`, the handler in flight fails, the next event is taken: from `s` to `end`. */
  ghost predicate WorksOff(c: Config, s: State, to: int, end: State) {
    && Enabled(s, Tick(to)) && Timely(s, Tick(to))
    && var s1 := Next(c, s, Tick(to));
       && Enabled(s1, MakeCall(0, false))
       && var s2 := Next(c, s1, MakeCall(0, false));
          Enabled(s2, Take(0)) && Next(c, s2, Take(0)) == end
  }

  function WorkSteps(to: int): seq<Action> {
    [Tick(to), MakeCall(0, false), Take(0)]
  }

  lemma WorksOffRun(c: Config, s: State, to: int, end: State)
    requires WorksOff(c, s, to, end)
    ensures IsTimelyRun(c, s, WorkSteps(to)) && IsRun(c, s, WorkSteps(to)) && After(c, s, WorkSteps(to)) == end
  {
    var acts := WorkSteps(to);
    var s1 := Next(c, s, Tick(to));
    var s2 := Next(c, s1, MakeCall(0, false));
    assert acts[1..][1..] == [Take(0)] && acts[1..] == [MakeCall(0, false), Take(0)];
    assert [Take(0)][1..] == [];
    assert IsTimelyRun(c, s2, [Take(0)]) && IsRun(c, s2, [Take(0)]) && After(c, s2, [Take(0)]) == end;
    assert IsTimelyRun(c, s1, acts[1..]) && IsRun(c, s1, acts[1..]) && After(c, s1, acts[1..]) == end;
  }

  lemma WorkOne(c: Config, s: State, before: seq<Action>, to: int, end: State) returns (acts: seq<Action>)
    requires IsTimelyRun(c, s, before) && IsRun(c, s, before) && WorksOff(c, After(c, s, before), to, end)
    ensures IsTimelyRun(c, s, acts) && IsRun(c, s, acts) && After(c, s, acts) == end
  {
    WorksOffRun(c, After(c, s, before), to, end);
    TimelyAppend(c, s, before, WorkSteps(to));
    acts := before + WorkSteps(to);
  }

  lemma WorkOneMore(c: Config, s: State, before: seq<Action>, r: Registry, n: string, evs: seq<Event>, k: nat)
    returns (acts: seq<Action>)
    requires k + 1 < |evs| && NamespaceNameOf(evs[k]) == n != ""
    requires IsTimelyRun(c, s, before) && IsRun(c, s, before) && After(c, s, before) == InWork(r, n, evs, k)
    ensures IsTimelyRun(c, s, acts) && IsRun(c, s, acts) && After(c, s, acts) == InWork(r, n, evs, k + 1)
  {
    NextInWork(c, r, n, evs, k);
    acts := WorkOne(c, s, before, (k + 1) * MINUTE, InWork(r, n, evs, k + 1));
  }

  lemma {:induction false} WorkOff(c: Config, r: Registry, n: string, evs: seq<Event>, k: nat)
    returns (acts: seq<Action>)
    requires n != "" && k < |evs| <= QUEUE_SIZE + 1
    requires forall i :: 0 <= i < |evs| ==> NamespaceNameOf(evs[i]) == n
    ensures IsTimelyRun(c, Initial(r), acts) && IsRun(c, Initial(r), acts)
    ensures After(c, Initial(r), acts) == InWork(r, n, evs, k)
  {
    if k == 0 {
      acts := Start(c, r, n, evs);
    } else {
      var before := WorkOff(c, r, n, evs, k - 1);
      acts := WorkOneMore(c, Initial(r), before, r, n, evs, k - 1);
    }
  }

  /** The state when the sixth of `evs` is in flight and the worker has been idle for too long. */
  function Overdue(r: Registry, n: string, evs: seq<Event>): State
    requires 6 <= |evs|
  {
    InWork(r, n, evs, 5).(now := MAXIMUM_IDLE + 1)
  }

  /**
   Five is the exact bound: for every recorded backlog from six up to the largest there can be, a
   full queue and one event in flight, there is a timely run in which the worker is about to be
   reaped with the rest of it undone.
   */
  lemma LargeBacklogReapedBusy(c: Config, r: Registry, n: string, evs: seq<Event>)
    returns (acts: seq<Action>)
    requires n != "" && 6 <= |evs| <= QUEUE_SIZE + 1
    requires forall i :: 0 <= i < |evs| ==> NamespaceNameOf(evs[i]) == n
    ensures IsTimelyRun(c, Initial(r), acts) && IsRun(c, Initial(r), acts)
    ensures var s := After(c, Initial(r), acts);
      && s == Overdue(r, n, evs)
      && s.pc.Selecting? && !s.mainDone && n in IdleNames(s) && s.workers[n].backlog == |evs|
      && Backlog(s.gens[s.workers[n].gen]) == |evs| - 5
  {
    acts := WorkOff(c, r, n, evs, 5);
    Extend(c, Initial(r), acts, Tick(MAXIMUM_IDLE + 1));
    acts := acts + [Tick(MAXIMUM_IDLE + 1)];
  }

  /** No larger backlog is ever recorded. */
  lemma BacklogBound(c: Config, r: Registry, acts: seq<Action>, n: string)
    requires IsRun(c, Initial(r), acts)
    ensures var s := After(c, Initial(r), acts); n in s.workers ==> s.workers[n].backlog <= QUEUE_SIZE + 1
  {
    InitialInv(r);
    BacklogRun(c, Initial(r), acts);
  }

  ghost predicate BacklogsBounded(s: State) {
    forall n :: n in s.workers ==> s.workers[n].backlog <= QUEUE_SIZE + 1
  }

  lemma {:induction false} BacklogRun(c: Config, s: State, acts: seq<Action>)
    requires Inv(s) && BacklogsBounded(s) && IsRun(c, s, acts)
    ensures BacklogsBounded(After(c, s, acts))
    decreases |acts|
  {
    if acts != [] {
      InvStep(c, s, acts[0]);
      BacklogStep(c, s, acts[0]);
      BacklogRun(c, Next(c, s, acts[0]), acts[1..]);
    }
  }

  lemma BacklogStep(c: Config, s: State, a: Action)
    requires WorkersOk(s.gens) && BacklogsBounded(s) && Enabled(s, a)
    ensures BacklogsBounded(Next(c, s, a))
  {
    if a.SetLastEvent? {
      assert WorkerOk(s.gens[s.workers[s.pc.name].gen]);
    }
  }

  /** Reaped with such a backlog, the worker may exit and lose all but its first six events. */
  lemma LargeBacklogLosesEvents(c: Config, r: Registry, n: string, evs: seq<Event>)
    returns (acts: seq<Action>)
    requires n != "" && 6 <= |evs| <= QUEUE_SIZE + 1
    requires forall i :: 0 <= i < |evs| ==> NamespaceNameOf(evs[i]) == n
    ensures IsTimelyRun(c, Initial(r), acts) && IsRun(c, Initial(r), acts)
    ensures var s := After(c, Initial(r), acts);
      !s.mainDone && |s.gens| == 1 && Lost(s.gens[0]) == evs[6..]
  {
    acts := LargeBacklogReapedBusy(c, r, n, evs);
    assert NamespaceNameOf(evs[5]) == n;
    Extend(c, Initial(r), acts, CleanUp);
    acts := acts + [CleanUp];
    Extend(c, Initial(r), acts, MakeCall(0, false));
    acts := acts + [MakeCall(0, false)];
    Extend(c, Initial(r), acts, Exit(0));
    acts := acts + [Exit(0)];
  }
}
