/**
 The dispatcher, its workers and the registry as one state machine. An action is one step of one
 goroutine, of the clock or of the outside world; a run is a sequence of enabled actions.
 */
module Machine {
  import opened Types
  import opened Registry
  import opened WorkerSteps

  const QUEUE_SIZE := 25
  const MINUTE := 60_000_000_000 // durations and instants are in nanoseconds
  const MAXIMUM_IDLE := 5 * MINUTE

  /** The event a worker is handling, the handler's next call and when it took the event. */
  datatype Job = Job(ev: Event, step: Step, since: int)

  /**
   One generation of a namespace's worker. `sent` and `processed` record its history; `canc`
   says that its own context was cancelled, `live` that its goroutine still runs.
   */
  datatype Worker = Worker(
    ns: string, queue: seq<Event>, busy: Option<Job>,
    sent: seq<Event>, processed: seq<Done>, canc: bool, live: bool)

  /**
   An entry of the dispatcher's map of workers. `lastEvent` is None until it is first set (Go's
   zero time); `backlog` records what the worker still had to do at that moment.
   */
  datatype Slot = Slot(gen: nat, lastEvent: Option<int>, backlog: nat)

  /** Where the dispatcher's loop stands. */
  datatype Dispatcher =
    | Selecting
    | Holding(ev: Event)      // received, worker not looked up yet
    | Sending(ev: Event)      // blocked on the worker's queue
    | Stamping(name: string)  // sent, last event not set yet
    | Waiting                 // cancelled all workers, waits for them
    | Returned

  datatype State = State(
    reg: Registry, gens: seq<Worker>, workers: map<string, Slot>, waitGroup: int,
    pc: Dispatcher, mainDone: bool, now: int, received: seq<Event>)

  datatype Action =
    | Receive(ev: Event)
    | GetOrCreate
    | Send
    | SetLastEvent
    | CleanUp
    | BeginShutdown
    | EndWait
    | CancelMain
    | Tick(to: int)
    | Take(g: nat)
    | MakeCall(g: nat, ok: bool)
    | Exit(g: nat)

  function Initial(r: Registry): State {
    State(r, [], map[], 0, Selecting, false, 0, [])
  }

  function Backlog(w: Worker): nat {
    |w.queue| + if w.busy.Some? then 1 else 0
  }

  /** The context of a worker is done: its own, or the main one it derives from. */
  predicate StopRequested(s: State, g: nat)
    requires g < |s.gens|
  {
    s.gens[g].canc || s.mainDone
  }

  predicate IdleTooLong(lastEvent: Option<int>, now: int) {
    lastEvent.None? || now - lastEvent.value > MAXIMUM_IDLE
  }

  predicate Mapped(s: State, n: string) {
    n in s.workers && s.workers[n].gen < |s.gens|
  }

  predicate Alive(s: State, g: nat) {
    g < |s.gens| && s.gens[g].live
  }

  /** A busy handler has an object to work on, unless it has nothing to do. */
  predicate Handling(s: State, g: nat) {
    Alive(s, g) && s.gens[g].busy.Some? &&
    (!s.gens[g].busy.value.step.Finished? ==> !s.gens[g].busy.value.ev.obj.UnknownObj?)
  }

  predicate Enabled(s: State, a: Action) {
    match a
    case Receive(_) => s.pc.Selecting?
    case GetOrCreate => s.pc.Holding?
    case Send =>
      s.pc.Sending? && Mapped(s, NamespaceNameOf(s.pc.ev)) &&
      |s.gens[s.workers[NamespaceNameOf(s.pc.ev)].gen].queue| < QUEUE_SIZE
    case SetLastEvent => s.pc.Stamping? && Mapped(s, s.pc.name)
    case CleanUp => s.pc.Selecting?
    case BeginShutdown => s.pc.Selecting? && s.mainDone
    case EndWait => s.pc.Waiting? && s.waitGroup == 0
    case CancelMain => !s.mainDone
    case Tick(to) => s.now <= to
    case Take(g) => Alive(s, g) && s.gens[g].busy.None? && s.gens[g].queue != []
    case MakeCall(g, _) => Handling(s, g)
    case Exit(g) => Alive(s, g) && s.gens[g].busy.None? && StopRequested(s, g)
  }

  /** Cancels the mapped workers whose namespace is in `names`. */
  function Cancelled(s: State, names: set<string>): (gens: seq<Worker>)
    ensures |gens| == |s.gens|
  {
    seq(|s.gens|, g requires 0 <= g < |s.gens| =>
      var w := s.gens[g];
      if w.ns in names && w.ns in s.workers && s.workers[w.ns].gen == g then w.(canc := true) else w)
  }

  function IdleNames(s: State): set<string> {
    set n | n in s.workers && IdleTooLong(s.workers[n].lastEvent, s.now)
  }

  function DoGetOrCreate(s: State): State
    requires s.pc.Holding?
  {
    var n := NamespaceNameOf(s.pc.ev);
    if n in s.workers then s.(pc := Sending(s.pc.ev))
    else
      s.(gens := s.gens + [Worker(n, [], None, [], [], false, true)],
         workers := s.workers[n := Slot(|s.gens|, None, 0)],
         waitGroup := s.waitGroup + 1,
         pc := Sending(s.pc.ev))
  }

  function DoSend(s: State): State
    requires Enabled(s, Send)
  {
    var n := NamespaceNameOf(s.pc.ev);
    var g := s.workers[n].gen;
    var w := s.gens[g];
    s.(gens := s.gens[g := w.(queue := w.queue + [s.pc.ev], sent := w.sent + [s.pc.ev])], pc := Stamping(n))
  }

  function DoSetLastEvent(s: State): State
    requires Enabled(s, SetLastEvent)
  {
    var slot := s.workers[s.pc.name];
    s.(workers := s.workers[s.pc.name := Slot(slot.gen, Some(s.now), Backlog(s.gens[slot.gen]))], pc := Selecting)
  }

  function DoTake(s: State, g: nat): State
    requires Enabled(s, Take(g))
  {
    var w := s.gens[g];
    s.(gens := s.gens[g := w.(busy := Some(Job(w.queue[0], FirstStep(w.queue[0]), s.now)), queue := w.queue[1..])])
  }

  function DoCall(c: Config, s: State, g: nat, ok: bool): State
    requires Enabled(s, MakeCall(g, ok))
  {
    var w := s.gens[g];
    var job := w.busy.value;
    var (step, r) := Call(c, w.ns, job.ev, job.step, s.reg, ok);
    var w' := if step.Finished? then w.(busy := None, processed := w.processed + [Done(job.ev, ok)])
              else w.(busy := Some(job.(step := step)));
    s.(reg := r, gens := s.gens[g := w'])
  }

  function Next(c: Config, s: State, a: Action): State
    requires Enabled(s, a)
  {
    match a
    case Receive(ev) =>
      if NamespaceNameOf(ev) == "" then s else s.(pc := Holding(ev), received := s.received + [ev])
    case GetOrCreate => DoGetOrCreate(s)
    case Send => DoSend(s)
    case SetLastEvent => DoSetLastEvent(s)
    case CleanUp => s.(gens := Cancelled(s, IdleNames(s)), workers := s.workers - IdleNames(s))
    case BeginShutdown =>
      if s.workers == map[] then s.(pc := Returned)
      else s.(gens := Cancelled(s, s.workers.Keys), pc := Waiting)
    case EndWait => s.(pc := Returned)
    case CancelMain => s.(mainDone := true)
    case Tick(to) => s.(now := to)
    case Take(g) => DoTake(s, g)
    case MakeCall(g, ok) => DoCall(c, s, g, ok)
    case Exit(g) => s.(gens := s.gens[g := s.gens[g].(live := false)], waitGroup := s.waitGroup - 1)
  }

  /** The dispatcher's steps for an event that is not skipped. */
  function DispatchSteps(ev: Event): seq<Action> {
    [Receive(ev), GetOrCreate, Send, SetLastEvent]
  }

  /** `acts` is a run from `s`. */
  ghost predicate IsRun(c: Config, s: State, acts: seq<Action>)
    decreases |acts|
  {
    acts == [] || (Enabled(s, acts[0]) && IsRun(c, Next(c, s, acts[0]), acts[1..]))
  }

  ghost function After(c: Config, s: State, acts: seq<Action>): State
    requires IsRun(c, s, acts)
    decreases |acts|
  {
    if acts == [] then s else After(c, Next(c, s, acts[0]), acts[1..])
  }

  lemma {:induction false} RunAppend(c: Config, s: State, a: seq<Action>, b: seq<Action>)
    requires IsRun(c, s, a) && IsRun(c, After(c, s, a), b)
    ensures IsRun(c, s, a + b) && After(c, s, a + b) == After(c, After(c, s, a), b)
    decreases |a|
  {
    if a == [] {
      assert a + b == b;
    } else {
      assert (a + b)[0] == a[0] && (a + b)[1..] == a[1..] + b;
      RunAppend(c, Next(c, s, a[0]), a[1..], b);
    }
  }
}
