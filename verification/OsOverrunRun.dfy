/** A schedule, from start-up, on which one CPU charges a queue between another's get_proc and get_slot. */
module OsOverrunRun {

  import opened Mlq
  import opened Os
  import opened OsInvariant
  import opened OsShutdown
  import opened OsTermination
  import opened OsBudget
  import opened OsOverrun
  import Timer

  /** Two CPUs, a time slot of 1, and two processes of the lowest priority, whose budget is 1. */
  function Pair(size: nat): Config {
    Config(1, 2, [ProcSpec(0, 139, 1), ProcSpec(0, 139, size)])
  }

  /** Only the queue of the lowest priority is in use. */
  function Only(queue: seq<nat>, slot: int): (m: Ready<nat>)
    ensures Shape(m) && m.queues[139] == queue && m.slot[139] == slot
    ensures forall q :: 0 <= q < 139 ==> m.queues[q] == [] && m.slot[q] == MAX_PRIO - q
  {
    Ready(seq(MAX_PRIO, q => if q == 139 then queue else []), FullSlots()[139 := slot])
  }

  lemma SelectOnly(queue: seq<nat>, slot: int)
    ensures queue == [] ==> Select(Only(queue, slot)) == Selection(Only(queue, slot), None, false)
    ensures queue != [] && slot > 0 ==>
      Select(Only(queue, slot)) == Selection(Only(queue[1..], slot), Some(queue[0]), false)
  {
    var m := Only(queue, slot);
    if queue == [] {
      assert AllEmpty(m);
    } else if slot > 0 {
      var r := Selection(Only(queue[1..], slot), Some(queue[0]), false);
      assert r.after.queues == m.queues[139 := queue[1..]] && r.after.slot == m.slot;
      assert Serves(m, r, 139);
      SimpleRuleIsUnique(m, r, Select(m));
    }
  }

  lemma OneStep(cfg: Config, s: State, e: Event)
    requires Typed(cfg, s) && Enabled(cfg, s, e)
    ensures ValidRun(cfg, s, [e]) && After(cfg, s, [e]) == Next(cfg, s, e)
  {
    hide Next, Enabled, Typed;
    var s' := Next(cfg, s, e);
    assert [e][1..] == [];
    assert ValidRun(cfg, s', []) && After(cfg, s', []) == s';
  }

  lemma Go(cfg: Config, es: seq<Event>, s: State, e: Event) returns (es': seq<Event>, s': State)
    requires Reaches(cfg, es, s) && Typed(cfg, s) && Enabled(cfg, s, e)
    ensures Reaches(cfg, es', s') && Typed(cfg, s') && s' == Next(cfg, s, e)
  {
    s', es' := Next(cfg, s, e), es + [e];
    OneStep(cfg, s, e);
    ReachesOn(cfg, es, s, [e]);
  }

  /** What a thread can see of a state, apart from the timer. */
  datatype Scene = Scene(devs: seq<Timer.Device>, ready: Ready<nat>, cpus: seq<Cpu>, loader: Loader, pcs: seq<nat>)

  ghost predicate Shows(size: nat, es: seq<Event>, s: State, time: nat, pc: Timer.TimerPc, v: Scene) {
    && Reaches(Pair(size), es, s) && Typed(Pair(size), s)
    && s.bar == Timer.Barrier(v.devs, time, pc, false)
    && s.ready == v.ready && s.cpus == v.cpus && s.loader == v.loader && !s.done && s.pcs == v.pcs
  }

  predicate CpuAt(v: Scene, c: nat, u: Cpu) {
    |v.cpus| == 2 && |v.devs| == 3 && |v.pcs| == 2 && c < 2 && v.cpus[c] == u && v.devs[c].phase == Timer.Working
  }

  /** get_proc takes the head of the one queue in use, or finds nothing. */
  lemma Take(size: nat, es: seq<Event>, s: State, time: nat, v: Scene, c: nat, queue: seq<nat>, slot: int)
    returns (es': seq<Event>, s': State)
    requires Shows(size, es, s, time, Timer.Gather(0, 0), v) && CpuAt(v, c, IDLE) && v.ready == Only(queue, slot)
    requires queue == [] || slot > 0
    ensures Shows(size, es', s', time, Timer.Gather(0, 0),
                  if queue == [] then v.(cpus := v.cpus[c := IDLE.(pc := ReadDone)])
                  else v.(ready := Only(queue[1..], slot),
                          cpus := v.cpus[c := IDLE.(pc := NeedSlot, proc := Some(queue[0]))]))
  {
    SelectOnly(queue, slot);
    es', s' := Go(Pair(size), es, s, CpuStep(c));
  }

  /** get_slot reads the budget. */
  lemma ReadSlot(size: nat, es: seq<Event>, s: State, time: nat, v: Scene, c: nat, u: Cpu)
    returns (es': seq<Event>, s': State)
    requires Shows(size, es, s, time, Timer.Gather(0, 0), v) && CpuAt(v, c, u) && u.pc == NeedSlot
    ensures Shows(size, es', s', time, Timer.Gather(0, 0),
                  v.(cpus := v.cpus[c := u.(pc := Dispatch, remaining := v.ready.slot[139])]))
  {
    es', s' := Go(Pair(size), es, s, CpuStep(c));
  }

  /** The first instruction of a process, on a quantum of at most 1. */
  lemma RunFirst(size: nat, es: seq<Event>, s: State, time: nat, v: Scene, c: nat, u: Cpu)
    returns (es': seq<Event>, s': State)
    requires Shows(size, es, s, time, Timer.Gather(0, 0), v) && CpuAt(v, c, u) && size > 0
    requires u.pc == Dispatch && u.timeLeft == 0 && u.remaining <= 1 && v.pcs[u.proc.value] == 0
    ensures Shows(size, es', s', time, Timer.Gather(0, 0),
                  v.(cpus := v.cpus[c := u.(pc := Ending, timeLeft := u.remaining - 1, useTime := 1)],
                     pcs := v.pcs[u.proc.value := 1]))
  {
    es', s' := Go(Pair(size), es, s, CpuStep(c));
  }

  /** A CPU with nothing to do, or done with its instruction, ends its slot. */
  lemma EndSlot(size: nat, es: seq<Event>, s: State, time: nat, v: Scene, c: nat, u: Cpu)
    returns (es': seq<Event>, s': State)
    requires Shows(size, es, s, time, Timer.Gather(0, 0), v) && CpuAt(v, c, u) && u.pc in {Ending, ReadDone}
    ensures Shows(size, es', s', time, Timer.Gather(0, 0),
                  if u.pc == ReadDone then v.(cpus := v.cpus[c := u.(pc := Ending)])
                  else v.(cpus := v.cpus[c := u.(pc := Loop)],
                          devs := v.devs[c := Timer.Device(true, v.devs[c].fsh, Timer.Waiting, v.devs[c].slots + 1)]))
  {
    es', s' := Go(Pair(size), es, s, CpuStep(c));
  }

  /** A process that has ended is charged to its queue. */
  lemma ChargeEnded(
      size: nat, es: seq<Event>, s: State, time: nat, v: Scene, c: nat, u: Cpu, queue: seq<nat>, slot: int)
    returns (es': seq<Event>, s': State)
    requires Shows(size, es, s, time, Timer.Gather(0, 0), v) && CpuAt(v, c, u) && v.ready == Only(queue, slot)
    requires u.pc == Loop && u.proc == Some(0) && v.pcs[0] == 1
    ensures Shows(size, es', s', time, Timer.Gather(0, 0),
                  v.(ready := Only(queue, slot - u.useTime), cpus := v.cpus[c := u.(pc := Freeing)]))
  {
    assert s.pcs[0] == Pair(size).procs[0].size && PrioOf(Pair(size), 0) == 139;
    es', s' := Go(Pair(size), es, s, CpuStep(c));
    assert s'.ready.slot == Only(queue, slot).slot[139 := slot - u.useTime] == Only(queue, slot - u.useTime).slot;
  }

  /** The loader adds the next process. */
  lemma Load(size: nat, es: seq<Event>, s: State, time: nat, v: Scene, i: nat, slot: int)
    returns (es': seq<Event>, s': State)
    requires Shows(size, es, s, time, Timer.Gather(0, 0), v) && v.ready == Only([], slot)
    requires v.loader == Loader(Check, i)
    requires |v.devs| == 3 && v.devs[2].phase == Timer.Working && i < 2
    ensures Shows(size, es', s', time, Timer.Gather(0, 0), v.(ready := Only([i], slot), loader := Loader(Added, i + 1)))
  {
    assert PrioOf(Pair(size), i) == 139 && Pair(size).procs[i].start == 0 && Enqueue([], i) == [i];
    es', s' := Go(Pair(size), es, s, LoaderStep);
    assert s'.ready.queues == Only([], slot).queues[139 := [i]] == Only([i], slot).queues;
  }

  lemma LoaderEndsSlot(size: nat, es: seq<Event>, s: State, time: nat, v: Scene)
    returns (es': seq<Event>, s': State)
    requires Shows(size, es, s, time, Timer.Gather(0, 0), v) && v.loader.pc == Added
    requires |v.devs| == 3 && v.devs[2].phase == Timer.Working
    ensures Shows(size, es', s', time, Timer.Gather(0, 0),
                  v.(loader := v.loader.(pc := Check),
                     devs := v.devs[2 := Timer.Device(true, v.devs[2].fsh, Timer.Waiting, v.devs[2].slots + 1)]))
  {
    es', s' := Go(Pair(size), es, s, LoaderStep);
  }

  /** A step of the barrier that no other part takes notice of. */
  lemma TimerGoes(
      size: nat, es: seq<Event>, s: State, time: nat, pc: Timer.TimerPc, v: Scene, e: Event, b: Timer.Barrier)
    returns (es': seq<Event>, s': State)
    requires Shows(size, es, s, time, pc, v) && !b.stop
    requires match e
             case Tick => Timer.Enabled(s.bar, Timer.Tick) && b == Timer.Next(s.bar, Timer.Tick)
             case Wake(d) => Timer.Enabled(s.bar, Timer.Resume(d)) && b == Timer.Next(s.bar, Timer.Resume(d))
             case _ => false
    ensures s'.bar == b && Shows(size, es', s', b.time, b.pc, v.(devs := b.devs))
  {
    es', s' := Go(Pair(size), es, s, e);
  }

  // ---------------------------------------------------------------------------------------------
  // The schedule
  // ---------------------------------------------------------------------------------------------

  function Works(slots: nat): Timer.Device { Timer.Device(false, false, Timer.Working, slots) }

  function Ended(slots: nat): Timer.Device { Timer.Device(true, false, Timer.Waiting, slots) }

  function Released(slots: nat): Timer.Device { Timer.Device(false, false, Timer.Waiting, slots) }

  /** In the first slot CPU 0 takes and runs the first process. */
  lemma FirstProcess(size: nat) returns (es: seq<Event>, s: State)
    requires size > 0
    ensures Shows(size, es, s, 0, Timer.Gather(0, 0),
                  Scene([Ended(1), Works(0), Ended(1)], Only([], 1),
                        [Cpu(Loop, Some(0), 0, 1, 1), IDLE], Loader(Check, 1), [1, 0]))
  {
    InitTyped(Pair(size));
    es, s := [], Init(Pair(size));
    assert s.ready == Only([], 1);
    var v := Scene([Works(0), Works(0), Works(0)], Only([], 1), [IDLE, IDLE], Loader(Check, 0), [0, 0]);
    assert Shows(size, es, s, 0, Timer.Gather(0, 0), v);
    hide Shows, Only;
    es, s := Load(size, es, s, 0, v, 0, 1);
    v := v.(ready := Only([0], 1), loader := Loader(Added, 1));
    es, s := LoaderEndsSlot(size, es, s, 0, v);
    v := v.(loader := Loader(Check, 1), devs := [Works(0), Works(0), Ended(1)]);
    es, s := Take(size, es, s, 0, v, 0, [0], 1);
    v := v.(ready := Only([], 1), cpus := [Cpu(NeedSlot, Some(0), 0, 0, 0), IDLE]);
    es, s := ReadSlot(size, es, s, 0, v, 0, v.cpus[0]);
    v := v.(cpus := [Cpu(Dispatch, Some(0), 0, 0, 1), IDLE]);
    es, s := RunFirst(size, es, s, 0, v, 0, v.cpus[0]);
    v := v.(cpus := [Cpu(Ending, Some(0), 0, 1, 1), IDLE], pcs := [1, 0]);
    es, s := EndSlot(size, es, s, 0, v, 0, v.cpus[0]);
  }

  /** CPU 1 finds nothing and ends its slot. */
  lemma FirstSlot(size: nat) returns (es: seq<Event>, s: State)
    requires size > 0
    ensures Shows(size, es, s, 0, Timer.Gather(0, 0),
                  Scene([Ended(1), Ended(1), Ended(1)], Only([], 1),
                        [Cpu(Loop, Some(0), 0, 1, 1), IDLE], Loader(Check, 1), [1, 0]))
  {
    es, s := FirstProcess(size);
    hide Shows, Only;
    var u := Cpu(Loop, Some(0), 0, 1, 1);
    var v := Scene([Ended(1), Works(0), Ended(1)], Only([], 1), [u, IDLE], Loader(Check, 1), [1, 0]);
    es, s := Take(size, es, s, 0, v, 1, [], 1);
    v := v.(cpus := [u, IDLE.(pc := ReadDone)]);
    es, s := EndSlot(size, es, s, 0, v, 1, v.cpus[1]);
    v := v.(cpus := [u, IDLE.(pc := Ending)]);
    es, s := EndSlot(size, es, s, 0, v, 1, v.cpus[1]);
    v := v.(cpus := [u, IDLE], devs := [Ended(1), Ended(1), Ended(1)]);
  }

  /** The barrier as it gathers three devices, moves the clock, releases them and lets them resume. */
  function Round(i: nat): Timer.Barrier {
    var e, r, w := Ended(1), Released(1), Works(1);
    if i <= 3 then Timer.Barrier([e, e, e], 0, Timer.Gather(i, 0), false)
    else if i == 4 then Timer.Barrier([e, e, e], 1, Timer.Release(0), false)
    else if i == 5 then Timer.Barrier([r, e, e], 1, Timer.Release(1), false)
    else if i == 6 then Timer.Barrier([r, r, e], 1, Timer.Release(2), false)
    else if i == 7 then Timer.Barrier([r, r, r], 1, Timer.Release(3), false)
    else if i == 8 then Timer.Barrier([r, r, r], 1, Timer.Gather(0, 0), false)
    else if i == 9 then Timer.Barrier([w, r, r], 1, Timer.Gather(0, 0), false)
    else if i == 10 then Timer.Barrier([w, w, r], 1, Timer.Gather(0, 0), false)
    else Timer.Barrier([w, w, w], 1, Timer.Gather(0, 0), false)
  }

  lemma RoundGoes(i: nat)
    requires i < 11
    ensures !Round(i).stop
    ensures i < 8 ==> Timer.Enabled(Round(i), Timer.Tick) && Timer.Next(Round(i), Timer.Tick) == Round(i + 1)
    ensures i >= 8 ==> Timer.Enabled(Round(i), Timer.Resume(i - 8))
                       && Timer.Next(Round(i), Timer.Resume(i - 8)) == Round(i + 1)
  {}

  /** The clock moves once, and every thread goes on. */
  lemma ClockMoves(size: nat, es: seq<Event>, s: State, v: Scene) returns (es': seq<Event>, s': State)
    requires Shows(size, es, s, 0, Timer.Gather(0, 0), v) && v.devs == [Ended(1), Ended(1), Ended(1)]
    ensures Shows(size, es', s', 1, Timer.Gather(0, 0), v.(devs := [Works(1), Works(1), Works(1)]))
  {
    assert s.bar == Round(0);
    assert Round(11) == Timer.Barrier([Works(1), Works(1), Works(1)], 1, Timer.Gather(0, 0), false);
    hide Shows, Round, Pair;
    es', s' := es, s;
    var b := Round(0);
    var w := v;
    for i := 0 to 11
      invariant Shows(size, es', s', b.time, b.pc, w) && w == v.(devs := b.devs) && s'.bar == b == Round(i)
    {
      RoundGoes(i);
      es', s' := TimerGoes(size, es', s', b.time, b.pc, w, if i < 8 then Tick else Wake(i - 8), Round(i + 1));
      b := Round(i + 1);
      w := v.(devs := b.devs);
    }
  }

  /** In the second slot the other process is loaded while CPU 0 still holds the first, which has ended. */
  lemma SecondLoads(size: nat) returns (es: seq<Event>, s: State)
    requires size > 0
    ensures Shows(size, es, s, 1, Timer.Gather(0, 0),
                  Scene([Works(1), Works(1), Works(1)], Only([1], 1), [Cpu(Loop, Some(0), 0, 1, 1), IDLE],
                        Loader(Added, 2), [1, 0]))
  {
    es, s := FirstSlot(size);
    hide Shows, Only;
    var v := Scene([Ended(1), Ended(1), Ended(1)], Only([], 1), [Cpu(Loop, Some(0), 0, 1, 1), IDLE],
                   Loader(Check, 1), [1, 0]);
    es, s := ClockMoves(size, es, s, v);
    v := v.(devs := [Works(1), Works(1), Works(1)]);
    es, s := Load(size, es, s, 1, v, 1, 1);
  }

  /** CPU 1 takes the second process before CPU 0 charges the first, and reads a budget of 0. */
  lemma SecondProcess(size: nat) returns (es: seq<Event>, s: State)
    requires size > 0
    ensures Shows(size, es, s, 1, Timer.Gather(0, 0),
                  Scene([Works(1), Works(1), Works(1)], Only([], 0),
                        [Cpu(Freeing, Some(0), 0, 1, 1), Cpu(Ending, Some(1), -1, 1, 0)], Loader(Added, 2), [1, 1]))
  {
    es, s := SecondLoads(size);
    hide Shows, Only;
    var u := Cpu(Loop, Some(0), 0, 1, 1);
    var v := Scene([Works(1), Works(1), Works(1)], Only([1], 1), [u, IDLE], Loader(Added, 2), [1, 0]);
    es, s := Take(size, es, s, 1, v, 1, [1], 1);
    v := v.(ready := Only([], 1), cpus := [u, Cpu(NeedSlot, Some(1), 0, 0, 0)]);
    es, s := ChargeEnded(size, es, s, 1, v, 0, u, [], 1);
    v := v.(ready := Only([], 0), cpus := [u.(pc := Freeing), v.cpus[1]]);
    es, s := ReadSlot(size, es, s, 1, v, 1, v.cpus[1]);
    v := v.(cpus := [u.(pc := Freeing), Cpu(Dispatch, Some(1), 0, 0, 0)]);
    es, s := RunFirst(size, es, s, 1, v, 1, v.cpus[1]);
  }

  /** When nothing more can happen, no process is on any CPU. */
  lemma EndedIsIdle(cfg: Config, s: State, d: nat, x: nat)
    requires Good(cfg, s) && Earns(cfg, s) && forall e :: !Enabled(cfg, s, e)
    ensures !Overruns(cfg, s, d, x)
  {
    if !(Timer.AllFinished(s.bar) && s.bar.pc.Exited?) { NeverStuck(cfg, s); }
    if d < cfg.cpus { assert CpuOk(s, d); }
  }

  /**
    On an unpaired schedule no bound holds: with two CPUs, a time slot of 1 and two processes, a queue
    can be overdrawn by as much as the second process is long, though it started when its queue still
    had a budget. Some get_slot of the schedule read a budget that was not positive.
   */
  lemma NoBoundUnpaired(bound: nat) returns (cfg: Config, es: seq<Event>, s: State)
    ensures Reaches(cfg, es, s) && cfg.cpus == 2 && cfg.timeSlot == 1 && |cfg.procs| == 2
    ensures s.ready.slot[139] + bound < 0
    ensures bound >= 1 ==> !PositiveReads(cfg, Init(cfg), es) && !PairedRun(cfg, Init(cfg), es)
  {
    var size := bound + 2;
    cfg := Pair(size);
    var es0, s0 := SecondProcess(size);
    ReachedIsGood(cfg, es0, s0);
    var rest := RunOnFrom(cfg, es0, s0);
    EndedIsIdle(cfg, After(cfg, s0, rest), 1, 1);
    var before, t := OverrunIsCharged(cfg, s0, rest, 1, 1);
    ReachesOn(cfg, es0, s0, before);
    ReachedIsGood(cfg, es0 + before, t);
    ReachedIsCapped(cfg, es0 + before, t);
    es, s := Go(cfg, es0 + before, t, CpuStep(1));
    ChargeBudget(cfg, t, 1);
    assert ChargesNext(cfg, t, 1, 139);
    if bound >= 1 {
      if PositiveReads(cfg, Init(cfg), es) { DebtIsBounded(cfg, es, s, 139); }
      if PairedRun(cfg, Init(cfg), es) { PairingSuffices(cfg, es, s); }
    }
  }

  lemma ReachedIsCapped(cfg: Config, es: seq<Event>, s: State)
    requires Reaches(cfg, es, s)
    ensures Capped(cfg, s)
  {
    InitGood(cfg);
    RunCapped(cfg, Init(cfg), es);
  }

  lemma RunOnFrom(cfg: Config, es: seq<Event>, s: State) returns (rest: seq<Event>)
    requires Reaches(cfg, es, s) && Good(cfg, s)
    ensures ValidRun(cfg, s, rest) && Good(cfg, After(cfg, s, rest)) && Earns(cfg, After(cfg, s, rest))
    ensures forall e :: !Enabled(cfg, After(cfg, s, rest), e)
  {
    InitGood(cfg);
    InitEarns(cfg);
    RunEarns(cfg, Init(cfg), es);
    rest := RunOn(cfg, s);
    RunEarns(cfg, s, rest);
  }
}
