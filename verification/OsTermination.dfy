/**
  Every schedule ends. The measure counts the work left (instructions, loads, waiting for start times)
  and, within one time slot, the actions each thread still has before it sleeps.
 */
module OsTermination {

  import opened Mlq
  import opened Os
  import opened OsInvariant
  import opened OsConservation
  import opened OsSlots
  import opened OsShutdown
  import opened Sums
  import Timer

  // ---------------------------------------------------------------------------------------------
  // Work left
  // ---------------------------------------------------------------------------------------------

  /** Instructions to go, and one more for a process that has never had a slot. */
  ghost function WorkOf(cfg: Config, s: State, x: nat): int
    requires Typed(cfg, s) && x < |cfg.procs|
  {
    cfg.procs[x].size - s.pcs[x] + if s.hist.lastRun[x] < 0 then 1 else 0
  }

  ghost function Works(cfg: Config, s: State): (w: seq<int>)
    requires Typed(cfg, s)
    ensures |w| == |cfg.procs| && forall x :: 0 <= x < |cfg.procs| ==> w[x] == WorkOf(cfg, s, x)
  {
    seq(|cfg.procs|, x requires 0 <= x < |cfg.procs| => WorkOf(cfg, s, x))
  }

  ghost function LastStart(cfg: Config): (t: int)
    ensures t >= 0 && forall x :: 0 <= x < |cfg.procs| ==> cfg.procs[x].start <= t
  {
    var starts: seq<int> := seq(|cfg.procs|, x requires 0 <= x < |cfg.procs| => cfg.procs[x].start);
    var m := MaxOf(starts);
    assert forall x :: 0 <= x < |cfg.procs| ==> cfg.procs[x].start == starts[x] <= m;
    if m < 0 then 0 else m
  }

  ghost function WorkLeft(cfg: Config, s: State): int
    requires Typed(cfg, s)
  {
    Sum(Works(cfg, s))
       + (if s.bar.time < LastStart(cfg) then LastStart(cfg) - s.bar.time else 0)
       + (|cfg.procs| - s.loader.i)
       + (if s.done then 0 else 1)
  }

  /** Work done in the current slot counts until the clock next moves. */
  ghost function Progress(cfg: Config, s: State): int
    requires Typed(cfg, s)
  {
    2 * WorkLeft(cfg, s) + if s.hist.credit then 1 else 0
  }

  // ---------------------------------------------------------------------------------------------
  // Actions left in this slot
  // ---------------------------------------------------------------------------------------------

  ghost function CpuRank(s: State, c: nat): (r: int)
    requires c < |s.cpus| && c < |s.bar.devs|
    ensures 0 <= r <= 10
  {
    var v := s.bar.devs[c];
    match v.phase
    case Finished => 0
    case Waiting => if v.slots == s.bar.time then 10 else 0
    case Working =>
      match s.cpus[c].pc
      case Loop => 9
      case Freeing => 8
      case Charging => 8
      case Getting => 7
      case NeedSlot => 6
      case ReadDone => 6
      case Dispatch => 5
      case Ending => 2
      case Stopping => 1
  }

  ghost function CpuRanks(cfg: Config, s: State): (r: seq<int>)
    requires Typed(cfg, s)
    ensures |r| == cfg.cpus && forall c :: 0 <= c < cfg.cpus ==> r[c] == CpuRank(s, c)
  {
    seq(cfg.cpus, c requires 0 <= c < cfg.cpus => CpuRank(s, c))
  }

  ghost function LoaderRank(cfg: Config, s: State): (r: int)
    requires Typed(cfg, s)
    ensures 0 <= r <= 4
  {
    var v := s.bar.devs[cfg.cpus];
    match v.phase
    case Finished => 0
    case Waiting => if v.slots == s.bar.time then 4 else 0
    case Working =>
      match s.loader.pc
      case Check => 3
      case Added => 2
      case Closing => 1
  }

  ghost function TimerRank(b: Timer.Barrier): int {
    match b.pc
    case Gather(i, _) => |b.devs| - i + 1
    case Release(i) => 2 * |b.devs| + 3 - i
    case Exited => 0
  }

  ghost function Actions(cfg: Config, s: State): int
    requires Typed(cfg, s)
  {
    Sum(CpuRanks(cfg, s)) + LoaderRank(cfg, s) + TimerRank(s.bar) + if s.bar.stop then 0 else 1
  }

  ghost function MaxActions(cfg: Config): nat {
    10 * cfg.cpus + 4 + (2 * (cfg.cpus + 1) + 3) + 1
  }

  lemma ActionsBound(cfg: Config, s: State)
    requires Inv(cfg, s)
    ensures 0 <= Actions(cfg, s) <= MaxActions(cfg)
  {
    SumBounds(CpuRanks(cfg, s), 0, 10);
  }

  lemma WorkBound(cfg: Config, s: State)
    requires Inv(cfg, s)
    ensures 0 <= WorkLeft(cfg, s)
  {
    SumBounds(Works(cfg, s), 0, MaxOf(Works(cfg, s)));
  }

  // ---------------------------------------------------------------------------------------------
  // No slot passes without work
  // ---------------------------------------------------------------------------------------------

  /** A process that may be dispatched still has an instruction to run, or has never had its slot. */
  ghost predicate FreshOk(cfg: Config, s: State, x: nat)
    requires Typed(cfg, s) && x < |cfg.procs|
  {
    match s.hist.place[x]
    case Unloaded => s.hist.lastRun[x] < 0
    case Queued => s.pcs[x] < cfg.procs[x].size || s.hist.lastRun[x] < 0
    case InHand(c) => c < |s.cpus| && s.cpus[c].pc in {NeedSlot, Dispatch} ==>
        s.pcs[x] < cfg.procs[x].size || s.hist.lastRun[x] < 0
    case _ => true
  }

  ghost predicate Earns(cfg: Config, s: State) {
    && Typed(cfg, s)
    && (forall x :: 0 <= x < |cfg.procs| ==> FreshOk(cfg, s, x))
    && (forall c :: 0 <= c < cfg.cpus && Spent(s, c) ==> s.hist.credit || !s.done)
    && (s.loader.pc == Added ==> s.hist.credit)
    && (s.bar.devs[cfg.cpus].phase == Timer.Waiting && s.bar.devs[cfg.cpus].slots == s.bar.time + 1 ==>
          s.hist.credit || s.bar.time < LastStart(cfg))
  }

  lemma InitEarns(cfg: Config)
    requires ValidConfig(cfg)
    ensures Earns(cfg, Init(cfg))
  {}

  lemma CpuFresh(cfg: Config, s: State, c: nat, x: nat)
    requires Good(cfg, s) && Earns(cfg, s) && Enabled(cfg, s, CpuStep(c)) && x < |cfg.procs|
    ensures FreshOk(cfg, CpuAction(cfg, s, c), x)
  {
    hide Slots, Served, QueuesOk, FitsQueues;
    CpuFrame(cfg, s, c);
    CpuMovesPc(cfg, s, c);
    CpuRecords(cfg, s, c);
    PlaceMoves(cfg, s, c, x);
    assert FreshOk(cfg, s, x);
    assert s.cpus[c].proc.Some? ==> Owns(s.cpus[c], s.cpus[c].proc.value) || s.cpus[c].pc in {Freeing, Charging};
    hide CpuAction;
  }

  lemma CpuEarns(cfg: Config, s: State, c: nat, d: nat)
    requires Good(cfg, s) && Earns(cfg, s) && Enabled(cfg, s, CpuStep(c)) && d < cfg.cpus
    ensures var s' := CpuAction(cfg, s, c);
            && (s'.hist.credit <==> s.hist.credit || s.cpus[c].pc == Dispatch)
            && (Spent(s', d) ==> s'.hist.credit || !s'.done)
  {
    hide Places, Slots, Served;
    CpuFrame(cfg, s, c);
    assert CpuOk(s, d);
    assert s.cpus[c].pc == Ending ==> Spent(s, c);
    assert d != c && Spent(CpuAction(cfg, s, c), d) ==> Spent(s, d);
  }

  lemma CpusEarn(cfg: Config, s: State, c: nat)
    requires Good(cfg, s) && Earns(cfg, s) && Enabled(cfg, s, CpuStep(c))
    ensures Earns(cfg, CpuAction(cfg, s, c))
  {
    CpuFrame(cfg, s, c);
    forall x | 0 <= x < |cfg.procs| ensures FreshOk(cfg, CpuAction(cfg, s, c), x) { CpuFresh(cfg, s, c, x); }
    forall d | 0 <= d < cfg.cpus
      ensures Spent(CpuAction(cfg, s, c), d) ==> CpuAction(cfg, s, c).hist.credit || !s.done
    {
      CpuEarns(cfg, s, c, d);
    }
    CpuEarns(cfg, s, c, c);
  }

  lemma NextEarns(cfg: Config, s: State, e: Event)
    requires Good(cfg, s) && Earns(cfg, s) && Enabled(cfg, s, e)
    ensures Earns(cfg, Next(cfg, s, e))
  {
    if e.CpuStep? { CpusEarn(cfg, s, e.cpu); } else { OtherEarns(cfg, s, e); }
  }

  lemma OtherEarns(cfg: Config, s: State, e: Event)
    requires Good(cfg, s) && Earns(cfg, s) && Enabled(cfg, s, e) && !e.CpuStep?
    ensures Earns(cfg, Next(cfg, s, e))
  {
    hide Slots, QueuesOk, HandsOk, Served;
    var s' := Next(cfg, s, e);
    assert Timer.DeviceOk(s.bar, cfg.cpus);
    forall x | 0 <= x < |cfg.procs| ensures FreshOk(cfg, s', x) { assert FreshOk(cfg, s, x); }
    forall c | 0 <= c < cfg.cpus && Spent(s', c) ensures s'.hist.credit || !s'.done {
      assert Timer.DeviceOk(s.bar, c) && CpuOk(s, c);
      assert Spent(s, c);
    }
  }

  // ---------------------------------------------------------------------------------------------
  // The measure decreases
  // ---------------------------------------------------------------------------------------------

  /** Lexicographic: progress first, then actions left in the slot. */
  ghost predicate Lower(cfg: Config, s': State, s: State)
    requires Typed(cfg, s) && Typed(cfg, s')
  {
    || Progress(cfg, s') < Progress(cfg, s)
    || (Progress(cfg, s') == Progress(cfg, s) && Actions(cfg, s') < Actions(cfg, s))
  }

  lemma RunLowers(cfg: Config, s: State, c: nat)
    requires Good(cfg, s) && Earns(cfg, s) && Enabled(cfg, s, CpuStep(c)) && s.cpus[c].pc == Dispatch
    ensures Lower(cfg, CpuAction(cfg, s, c), s)
  {
    var s', x := CpuAction(cfg, s, c), s.cpus[c].proc.value;
    assert Owns(s.cpus[c], x) && FreshOk(cfg, s, x);
    var w, w' := Works(cfg, s), Works(cfg, s');
    assert w' == w[x := w'[x]];
    SumUpdate(w, x, w'[x]);
  }

  lemma CpuRankDrops(cfg: Config, s: State, c: nat)
    requires Inv(cfg, s) && Enabled(cfg, s, CpuStep(c)) && s.cpus[c].pc != Dispatch
    ensures CpuRank(CpuAction(cfg, s, c), c) < CpuRank(s, c)
    ensures CpuAction(cfg, s, c).hist.lastRun == s.hist.lastRun
  {
    CpuRecords(cfg, s, c);
    assert Timer.DeviceOk(s.bar, c) && CpuOk(s, c);
    hide LoaderOk;
  }

  lemma CpuLowers(cfg: Config, s: State, c: nat)
    requires Good(cfg, s) && Earns(cfg, s) && Enabled(cfg, s, CpuStep(c)) && s.cpus[c].pc != Dispatch
    ensures Lower(cfg, CpuAction(cfg, s, c), s)
  {
    hide Places, Slots, Served;
    var s' := CpuAction(cfg, s, c);
    CpuFrame(cfg, s, c);
    CpuMovesPc(cfg, s, c);
    CpuEarns(cfg, s, c, c);
    CpuRankDrops(cfg, s, c);
    assert Works(cfg, s') == Works(cfg, s);
    var r, r' := CpuRanks(cfg, s), CpuRanks(cfg, s');
    assert r' == r[c := r'[c]];
    SumUpdate(r, c, r'[c]);
  }

  lemma LoaderLowers(cfg: Config, s: State)
    requires Good(cfg, s) && Earns(cfg, s) && Enabled(cfg, s, LoaderStep)
    ensures Lower(cfg, LoaderAction(cfg, s), s)
  {
    hide Places, Slots, Served;
    var s' := LoaderAction(cfg, s);
    assert Timer.DeviceOk(s.bar, cfg.cpus);
    assert Works(cfg, s') == Works(cfg, s);
    assert CpuRanks(cfg, s') == CpuRanks(cfg, s);
  }

  /** Some thread worked in the slot that closes, or the loader is still waiting for a start time. */
  lemma ClockLowers(cfg: Config, s: State)
    requires Good(cfg, s) && Earns(cfg, s) && Enabled(cfg, s, Tick) && Timer.Advances(s.bar, Timer.Tick)
    ensures Lower(cfg, Next(cfg, s, Tick), s)
  {
    var d :| 0 <= d < |s.bar.devs| && !s.bar.devs[d].fsh;
    assert Timer.DeviceOk(s.bar, d) && Timer.DeviceOk(s.bar, cfg.cpus);
    if d < cfg.cpus { assert Spent(s, d); }
    assert Works(cfg, Next(cfg, s, Tick)) == Works(cfg, s);
  }

  lemma TimerLowers(cfg: Config, s: State, e: Event)
    requires Good(cfg, s) && Earns(cfg, s) && Enabled(cfg, s, e)
    requires e.StopTimer? || (e == Tick && !Timer.Advances(s.bar, Timer.Tick))
    ensures Lower(cfg, Next(cfg, s, e), s)
  {
    var s' := Next(cfg, s, e);
    assert Works(cfg, s') == Works(cfg, s);
    assert CpuRanks(cfg, s') == CpuRanks(cfg, s);
  }

  lemma WakeLowers(cfg: Config, s: State, d: nat)
    requires Good(cfg, s) && Earns(cfg, s) && Enabled(cfg, s, Wake(d))
    ensures Lower(cfg, Next(cfg, s, Wake(d)), s)
  {
    var s' := Next(cfg, s, Wake(d));
    assert Works(cfg, s') == Works(cfg, s);
    assert Timer.DeviceOk(s.bar, d);
    var r, r' := CpuRanks(cfg, s), CpuRanks(cfg, s');
    if d < cfg.cpus {
      assert CpuOk(s, d);
      assert r' == r[d := r'[d]];
      SumUpdate(r, d, r'[d]);
    } else {
      assert r' == r;
    }
  }

  lemma NextLowers(cfg: Config, s: State, e: Event)
    requires Good(cfg, s) && Earns(cfg, s) && Enabled(cfg, s, e)
    ensures Lower(cfg, Next(cfg, s, e), s)
  {
    match e
    case Tick =>
      if Timer.Advances(s.bar, Timer.Tick) { ClockLowers(cfg, s); } else { TimerLowers(cfg, s, e); }
    case Wake(d) => WakeLowers(cfg, s, d);
    case CpuStep(c) => if s.cpus[c].pc == Dispatch { RunLowers(cfg, s, c); } else { CpuLowers(cfg, s, c); }
    case LoaderStep => LoaderLowers(cfg, s);
    case StopTimer => TimerLowers(cfg, s, e);
  }

  // ---------------------------------------------------------------------------------------------
  // Main results
  // ---------------------------------------------------------------------------------------------

  /** How many more events any schedule can have from here. */
  ghost function Budget(cfg: Config, s: State): int
    requires Typed(cfg, s)
  {
    Progress(cfg, s) * (MaxActions(cfg) + 1) + Actions(cfg, s)
  }

  lemma LexIsOneNumber(p: int, p': int, a: int, a': int, m: nat)
    requires 0 <= a <= m && 0 <= a' <= m
    requires p' < p || (p' == p && a' < a)
    ensures p' * (m + 1) + a' < p * (m + 1) + a
  {
    if p' < p { assert p' * (m + 1) <= (p - 1) * (m + 1) == p * (m + 1) - (m + 1); }
  }

  lemma NextLowersBudget(cfg: Config, s: State, e: Event)
    requires Good(cfg, s) && Earns(cfg, s) && Enabled(cfg, s, e)
    ensures Budget(cfg, Next(cfg, s, e)) < Budget(cfg, s)
  {
    var s', m := Next(cfg, s, e), MaxActions(cfg);
    NextInv(cfg, s, e);
    NextLowers(cfg, s, e);
    ActionsBound(cfg, s);
    ActionsBound(cfg, s');
    LexIsOneNumber(Progress(cfg, s), Progress(cfg, s'), Actions(cfg, s), Actions(cfg, s'), m);
  }

  lemma BudgetNotNegative(cfg: Config, s: State)
    requires Inv(cfg, s)
    ensures 0 <= Budget(cfg, s)
  {
    ActionsBound(cfg, s);
    WorkBound(cfg, s);
    assert 0 <= Progress(cfg, s) * (MaxActions(cfg) + 1);
  }

  lemma {:induction false} RunLengthBounded(cfg: Config, s: State, es: seq<Event>)
    requires Good(cfg, s) && Earns(cfg, s) && ValidRun(cfg, s, es)
    ensures |es| <= Budget(cfg, s)
    decreases |es|
  {
    BudgetNotNegative(cfg, s);
    if es == [] {
    } else {
      NextGood(cfg, s, es[0]);
      NextEarns(cfg, s, es[0]);
      NextLowersBudget(cfg, s, es[0]);
      RunLengthBounded(cfg, Next(cfg, s, es[0]), es[1..]);
    }
  }

  /** No schedule, fair or not, keeps the simulator going for ever. */
  lemma EveryRunEnds(cfg: Config, es: seq<Event>, s: State)
    requires Reaches(cfg, es, s)
    ensures |es| <= Budget(cfg, Init(cfg))
  {
    InitGood(cfg);
    InitEarns(cfg);
    RunLengthBounded(cfg, Init(cfg), es);
  }

  /** Until every thread has stopped, some thread can act. */
  lemma NeverStuck(cfg: Config, s: State)
    requires Good(cfg, s) && !(Timer.AllFinished(s.bar) && s.bar.pc.Exited?)
    ensures exists e :: Enabled(cfg, s, e)
  {
    if Timer.AllFinished(s.bar) {
      assert s.bar.pc.Gather? && s.bar.pc.next < |s.bar.devs| ==> Timer.DeviceOk(s.bar, s.bar.pc.next);
      assert Enabled(cfg, s, Tick);
    } else {
      Timer.BarrierNeverStuck(s.bar);
      if !Enabled(cfg, s, Tick) {
        var d: nat :| Timer.Enabled(s.bar, Timer.EndSlot(d)) || Timer.Enabled(s.bar, Timer.Resume(d));
        assert Enabled(cfg, s, Wake(d)) || Enabled(cfg, s, LoaderStep) || Enabled(cfg, s, CpuStep(d));
      }
    }
  }

  /**
    A schedule that can go no further has stopped every thread and run every process to its end, except
    those that a full queue turned away.
   */
  lemma EveryRunFinishesTheWork(cfg: Config, es: seq<Event>, s: State)
    requires Reaches(cfg, es, s) && forall e :: !Enabled(cfg, s, e)
    ensures Timer.AllFinished(s.bar) && s.bar.pc.Exited? && AllEmpty(s.ready)
    ensures forall x :: 0 <= x < |cfg.procs| ==> Completed(cfg, s, x) || s.hist.place[x] == Dropped
    ensures FitsQueues(cfg) ==> forall x :: 0 <= x < |cfg.procs| ==> Completed(cfg, s, x)
  {
    ReachedIsGood(cfg, es, s);
    if !(Timer.AllFinished(s.bar) && s.bar.pc.Exited?) { NeverStuck(cfg, s); }
    NoLostWork(cfg, es, s);
  }
}
