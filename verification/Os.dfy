/**
  The whole simulator as interleaved threads: any number of CPU loops, the loader, the timer barrier
  and the shared scheduler. Each event is one atomic action of one thread: one locked region, one
  access to a shared variable, or one blocking call.
 */
module Os {

  import opened Mlq
  import Timer

  /** One line of the configuration: when to load, at which priority, and how many instructions. */
  datatype ProcSpec = ProcSpec(start: nat, prio: nat, size: nat)

  datatype Config = Config(timeSlot: nat, cpus: nat, procs: seq<ProcSpec>)

  ghost predicate ValidConfig(cfg: Config) {
    cfg.cpus >= 1 && forall x :: 0 <= x < |cfg.procs| ==> cfg.procs[x].prio < MAX_PRIO
  }

  /** The next action of a CPU loop. */
  datatype CpuPc =
    | Loop      // at the head of the loop, about to inspect `proc`
    | Freeing   // finished process charged, about to free it
    | Charging  // process put back, about to charge its queue
    | Getting   // about to call get_proc
    | NeedSlot  // process in hand, about to call get_slot
    | ReadDone  // no process, about to read `done`
    | Dispatch  // about to run one instruction
    | Ending    // about to call next_slot
    | Stopping  // about to detach, or detached

  datatype Cpu = Cpu(pc: CpuPc, proc: Option<nat>, timeLeft: int, useTime: int, remaining: int)

  datatype LoaderPc = Check | Added | Closing

  datatype Loader = Loader(pc: LoaderPc, i: nat)

  /** Where a process is; kept beside the state to phrase conservation, never read by a thread. */
  datatype Place = Unloaded | Queued | InHand(cpu: nat) | Freed | Dropped

  /**
    `place`, `lastRun` (the time of a process's last instruction, -1 if none), `consumed` (the time
    units each queue has used since the last refill) and `credit` (some work was done since the clock
    last moved) are history: no thread reads them.
   */
  datatype History = History(place: seq<Place>, lastRun: seq<int>, consumed: seq<int>, credit: bool)

  datatype State = State(
    bar: Timer.Barrier, ready: Ready<nat>, cpus: seq<Cpu>, loader: Loader,
    done: bool, pcs: seq<nat>, hist: History)

  datatype Event = Tick | Wake(dev: nat) | CpuStep(cpu: nat) | LoaderStep | StopTimer

  const IDLE := Cpu(Loop, None, 0, 0, 0)

  function Zeros(): (z: seq<int>)
    ensures |z| == MAX_PRIO && forall i :: 0 <= i < MAX_PRIO ==> z[i] == 0
  {
    seq(MAX_PRIO, _ => 0)
  }

  function Init(cfg: Config): State {
    State(
      Timer.Init(cfg.cpus + 1), Ready(seq(MAX_PRIO, _ => []), FullSlots()), seq(cfg.cpus, _ => IDLE),
      Loader(Check, 0), false, seq(|cfg.procs|, _ => 0),
      History(seq(|cfg.procs|, _ => Unloaded), seq(|cfg.procs|, _ => -1), Zeros(), false))
  }

  /** Indices are in range, and a program counter says whether the thread has a process. */
  ghost predicate CpuTyped(cfg: Config, u: Cpu) {
    && (u.proc.Some? ==> u.proc.value < |cfg.procs|)
    && (u.pc in {Freeing, Charging, NeedSlot, Dispatch} ==> u.proc.Some?)
    && (u.pc in {Getting, ReadDone, Stopping} ==> u.proc.None?)
  }

  ghost predicate Typed(cfg: Config, s: State) {
    && ValidConfig(cfg)
    && |s.cpus| == cfg.cpus && |s.bar.devs| == cfg.cpus + 1
    && Shape(s.ready) && |s.pcs| == |cfg.procs|
    && |s.hist.place| == |cfg.procs| && |s.hist.lastRun| == |cfg.procs| && |s.hist.consumed| == MAX_PRIO
    && s.loader.i <= |cfg.procs|
    && (forall q, x :: 0 <= q < MAX_PRIO && x in s.ready.queues[q] ==> x < |cfg.procs|)
    && (forall c :: 0 <= c < |s.cpus| ==> CpuTyped(cfg, s.cpus[c]))
  }

  /** A device thread may act unless it is waiting inside next_slot or has detached. */
  predicate Awake(s: State, d: nat) {
    d < |s.bar.devs| && s.bar.devs[d].phase == Timer.Working
  }

  predicate Enabled(cfg: Config, s: State, e: Event) {
    match e
    case Tick => Timer.Enabled(s.bar, Timer.Tick)
    case Wake(d) => Timer.Enabled(s.bar, Timer.Resume(d))
    case CpuStep(c) => c < cfg.cpus && Awake(s, c)
    case LoaderStep => Awake(s, cfg.cpus)
    case StopTimer => Timer.Enabled(s.bar, Timer.StopTimer)
  }

  // ---------------------------------------------------------------------------------------------
  // Actions
  // ---------------------------------------------------------------------------------------------

  function PrioOf(cfg: Config, x: nat): (p: nat)
    requires x < |cfg.procs|
  {
    cfg.procs[x].prio
  }

  /** Inserts at the tail of the process's own queue; a full queue loses it. */
  ghost function Insert(cfg: Config, s: State, x: nat): (s': State)
    requires Typed(cfg, s) && x < |cfg.procs|
    ensures Typed(cfg, s')
  {
    var q := s.ready.queues[PrioOf(cfg, x)];
    var q' := Enqueue(q, x);
    s.(ready := s.ready.(queues := s.ready.queues[PrioOf(cfg, x) := q']),
       hist := s.hist.(place := s.hist.place[x := if x in q' then Queued else Dropped]))
  }

  ghost function Charge(cfg: Config, s: State, c: nat): (s': State)
    requires Typed(cfg, s) && c < |s.cpus| && s.cpus[c].proc.Some?
    ensures Typed(cfg, s')
  {
    var p := PrioOf(cfg, s.cpus[c].proc.value);
    s.(ready := s.ready.(slot := s.ready.slot[p := s.ready.slot[p] - s.cpus[c].useTime]))
  }

  ghost function SetCpu(s: State, c: nat, u: Cpu): (s': State)
    requires c < |s.cpus|
  {
    s.(cpus := s.cpus[c := u])
  }

  /** get_proc: takes what the selection rule picks, or notes that there was nothing. */
  ghost function GetProc(cfg: Config, s: State, c: nat): (s': State)
    requires Typed(cfg, s) && c < |s.cpus|
    ensures Typed(cfg, s')
  {
    var r := Select(s.ready);
    match r.picked
    case None => SetCpu(s, c, s.cpus[c].(pc := ReadDone, proc := None))
    case Some(x) =>
      SelectOnlyRemoves(s.ready);
      SetCpu(
        s.(ready := r.after,
           hist := s.hist.(place := s.hist.place[x := InHand(c)],
                           consumed := if r.reset then Zeros() else s.hist.consumed)),
        c, s.cpus[c].(pc := NeedSlot, proc := Some(x)))
  }

  /** Run one instruction; a new quantum is set first when the old one is used up. */
  ghost function RunProc(cfg: Config, s: State, c: nat): (s': State)
    requires Typed(cfg, s) && c < |s.cpus| && s.cpus[c].pc == Dispatch
    ensures Typed(cfg, s')
  {
    var u := s.cpus[c];
    var x := u.proc.value;
    var p := PrioOf(cfg, x);
    var timeLeft := if u.timeLeft != 0 then u.timeLeft
                    else if cfg.timeSlot < u.remaining then cfg.timeSlot else u.remaining;
    var useTime := if u.timeLeft != 0 then u.useTime else 0;
    SetCpu(
      s.(pcs := s.pcs[x := if s.pcs[x] < cfg.procs[x].size then s.pcs[x] + 1 else s.pcs[x]],
         hist := s.hist.(lastRun := s.hist.lastRun[x := s.bar.time],
                         consumed := s.hist.consumed[p := s.hist.consumed[p] + 1],
                         credit := true)),
      c, u.(pc := Ending, timeLeft := timeLeft - 1, useTime := useTime + 1))
  }

  /** The head of the loop: what happens next depends on the process in hand and its quantum. */
  ghost function Inspect(cfg: Config, s: State, c: nat): (s': State)
    requires Typed(cfg, s) && c < |s.cpus| && s.cpus[c].pc == Loop
    ensures Typed(cfg, s')
  {
    var u := s.cpus[c];
    match u.proc
    case None => GetProc(cfg, s, c)
    case Some(x) =>
      if s.pcs[x] == cfg.procs[x].size then SetCpu(Charge(cfg, s, c), c, u.(pc := Freeing))
      else if u.timeLeft == 0 then SetCpu(Insert(cfg, s, x), c, u.(pc := Charging))
      else SetCpu(s, c, u.(pc := Dispatch))
  }

  ghost function CpuAction(cfg: Config, s: State, c: nat): (s': State)
    requires Typed(cfg, s) && Enabled(cfg, s, CpuStep(c))
    ensures Typed(cfg, s')
  {
    var u := s.cpus[c];
    match u.pc
    case Loop => Inspect(cfg, s, c)
    case Freeing =>
      SetCpu(s.(hist := s.hist.(place := s.hist.place[u.proc.value := Freed])), c,
             u.(pc := Getting, proc := None, timeLeft := 0, useTime := 0))
    case Charging => SetCpu(Charge(cfg, s, c), c, u.(pc := Getting, proc := None))
    case Getting => GetProc(cfg, s, c)
    case NeedSlot =>
      SetCpu(s, c, u.(pc := Dispatch, remaining := s.ready.slot[PrioOf(cfg, u.proc.value)]))
    case ReadDone => SetCpu(s, c, u.(pc := if s.done then Stopping else Ending))
    case Dispatch => RunProc(cfg, s, c)
    case Ending => SetCpu(s.(bar := Timer.Next(s.bar, Timer.EndSlot(c))), c, u.(pc := Loop))
    case Stopping => s.(bar := Timer.Next(s.bar, Timer.Detach(c)))
  }

  ghost function LoaderAction(cfg: Config, s: State): (s': State)
    requires Typed(cfg, s) && Enabled(cfg, s, LoaderStep)
    ensures Typed(cfg, s')
  {
    var l := s.loader;
    match l.pc
    case Check =>
      if l.i == |cfg.procs| then
        s.(done := true, loader := l.(pc := Closing), hist := s.hist.(credit := true))
      else if s.bar.time < cfg.procs[l.i].start then
        s.(bar := Timer.Next(s.bar, Timer.EndSlot(cfg.cpus)))
      else
        var s1 := Insert(cfg, s, l.i);
        s1.(loader := Loader(Added, l.i + 1), hist := s1.hist.(credit := true))
    case Added => s.(bar := Timer.Next(s.bar, Timer.EndSlot(cfg.cpus)), loader := l.(pc := Check))
    case Closing => s.(bar := Timer.Next(s.bar, Timer.Detach(cfg.cpus)))
  }

  ghost function Next(cfg: Config, s: State, e: Event): (s': State)
    requires Typed(cfg, s) && Enabled(cfg, s, e)
    ensures Typed(cfg, s')
  {
    match e
    case Tick =>
      s.(bar := Timer.Next(s.bar, Timer.Tick),
         hist := s.hist.(credit := s.hist.credit && !Timer.Advances(s.bar, Timer.Tick)))
    case Wake(d) => s.(bar := Timer.Next(s.bar, Timer.Resume(d)))
    case CpuStep(c) => CpuAction(cfg, s, c)
    case LoaderStep => LoaderAction(cfg, s)
    case StopTimer => s.(bar := Timer.Next(s.bar, Timer.StopTimer))
  }

  // ---------------------------------------------------------------------------------------------
  // Runs
  // ---------------------------------------------------------------------------------------------

  ghost predicate ValidRun(cfg: Config, s: State, es: seq<Event>)
    requires Typed(cfg, s)
    decreases |es|
  {
    es == [] || (Enabled(cfg, s, es[0]) && ValidRun(cfg, Next(cfg, s, es[0]), es[1..]))
  }

  ghost function After(cfg: Config, s: State, es: seq<Event>): (s': State)
    requires Typed(cfg, s) && ValidRun(cfg, s, es)
    ensures Typed(cfg, s')
    decreases |es|
  {
    if es == [] then s else After(cfg, Next(cfg, s, es[0]), es[1..])
  }

  lemma InitTyped(cfg: Config)
    requires ValidConfig(cfg)
    ensures Typed(cfg, Init(cfg))
  {}
}
