/**
  What a CPU has done since it last woke: no CPU ends a slot idle while, at each of its steps in that slot,
  some process was ready; and none stops without having found nothing.
 */
module OsTrace {

  import opened Mlq
  import opened Os
  import opened OsInvariant
  import opened OsShutdown
  import opened OsSlots
  import Timer

  // ---------------------------------------------------------------------------------------------
  // Since a CPU last woke
  // ---------------------------------------------------------------------------------------------

  /** Between these states CPU `c` has run one instruction of its process, if that had one left. */
  ghost predicate Runs(cfg: Config, s: State, s': State, c: nat)
    requires Typed(cfg, s) && Typed(cfg, s')
  {
    && c < cfg.cpus && s.cpus[c].proc.Some?
    && var x := s.cpus[c].proc.value;
       && s'.hist.lastRun[x] == s.bar.time
       && s'.pcs[x] == if s.pcs[x] < cfg.procs[x].size then s.pcs[x] + 1 else s.pcs[x]
  }

  predicate NothingReady(s: State) {
    forall q :: 0 <= q < |s.ready.queues| ==> s.ready.queues[q] == []
  }

  /** Whether, at some step of the CPU since its last wake, it ran an instruction, or every ready queue was empty. */
  datatype Record = Record(ran: bool, idle: bool)

  ghost function Note(cfg: Config, s: State, e: Event, c: nat, r: Record): Record
    requires Typed(cfg, s) && Enabled(cfg, s, e)
  {
    if e == Wake(c) then Record(false, false)
    else if e == CpuStep(c) then Record(r.ran || Runs(cfg, s, Next(cfg, s, e), c), r.idle || NothingReady(s))
    else r
  }

  ghost function SinceWake(cfg: Config, s: State, es: seq<Event>, c: nat, r: Record): Record
    requires Typed(cfg, s) && ValidRun(cfg, s, es)
    decreases |es|
  {
    if es == [] then r else SinceWake(cfg, Next(cfg, s, es[0]), es[1..], c, Note(cfg, s, es[0], c, r))
  }

  const NOTHING_YET := Record(false, false)

  /** What a CPU's program counter says about that, until the clock moves. */
  ghost predicate Accounted(s: State, c: nat, r: Record) {
    && c < |s.cpus|
    && (s.cpus[c].pc in {ReadDone, Stopping} ==> r.idle)
    && (Spent(s, c) ==> r.ran || r.idle)
  }

  // ---------------------------------------------------------------------------------------------
  // One step
  // ---------------------------------------------------------------------------------------------

  lemma NothingPicked(s: State)
    requires Shape(s.ready) && Select(s.ready).picked.None?
    ensures NothingReady(s)
  {}

  lemma GetLeads(cfg: Config, s: State, c: nat)
    requires Typed(cfg, s) && c < cfg.cpus
    ensures var s' := GetProc(cfg, s, c);
            && s'.cpus[c].pc in {ReadDone, NeedSlot} && (s'.cpus[c].pc == ReadDone ==> NothingReady(s))
            && s'.bar == s.bar
  {
    if Select(s.ready).picked.None? { NothingPicked(s); }
  }

  lemma RunRuns(cfg: Config, s: State, c: nat)
    requires Typed(cfg, s) && Enabled(cfg, s, CpuStep(c)) && s.cpus[c].pc == Dispatch
    ensures Runs(cfg, s, CpuAction(cfg, s, c), c) && CpuAction(cfg, s, c).cpus[c].pc == Ending
  {}

  lemma BusyLeads(cfg: Config, s: State, c: nat)
    requires Typed(cfg, s) && Enabled(cfg, s, CpuStep(c)) && s.cpus[c].proc.Some? && s.cpus[c].pc != Dispatch
    ensures var s' := CpuAction(cfg, s, c);
            s'.cpus[c].pc !in {ReadDone, Stopping} && (Spent(s', c) ==> Spent(s, c))
  {
    assert CpuTyped(cfg, s.cpus[c]) && s.bar.devs[c].phase == Timer.Working;
    assert s.cpus[c].pc in {Loop, Freeing, Charging, NeedSlot, Ending};
    hide Insert;
  }

  lemma IdleLeads(cfg: Config, s: State, c: nat)
    requires Typed(cfg, s) && Enabled(cfg, s, CpuStep(c)) && s.cpus[c].proc.None?
    ensures var s' := CpuAction(cfg, s, c);
            && (s'.cpus[c].pc == ReadDone ==> NothingReady(s))
            && (s'.cpus[c].pc == Stopping ==> s.cpus[c].pc in {ReadDone, Stopping})
            && (Spent(s', c) ==> Spent(s, c) || s.cpus[c].pc == ReadDone)
  {
    GetLeads(cfg, s, c);
    hide GetProc, NothingReady;
  }

  /** Where one step of its own leads a CPU. */
  lemma OwnAccounted(cfg: Config, s: State, c: nat, r: Record)
    requires Inv(cfg, s) && Enabled(cfg, s, CpuStep(c)) && Accounted(s, c, r)
    ensures Accounted(CpuAction(cfg, s, c), c, Note(cfg, s, CpuStep(c), c, r))
  {
    assert Next(cfg, s, CpuStep(c)) == CpuAction(cfg, s, c);
    hide Next, CpuAction, Runs, LoaderOk, NothingReady, Spent;
    if s.cpus[c].pc == Dispatch {
      RunRuns(cfg, s, c);
    } else if s.cpus[c].proc.Some? {
      BusyLeads(cfg, s, c);
    } else {
      IdleLeads(cfg, s, c);
    }
  }

  /** What others do makes no CPU spent, nor moves its program counter. A CPU that wakes is at its loop. */
  lemma OthersLeave(cfg: Config, s: State, e: Event, c: nat)
    requires Inv(cfg, s) && Enabled(cfg, s, e) && c < cfg.cpus && e != CpuStep(c)
    ensures Next(cfg, s, e).cpus[c] == s.cpus[c] && (Spent(Next(cfg, s, e), c) ==> Spent(s, c))
    ensures e == Wake(c) ==> s.cpus[c].pc == Loop && !Spent(Next(cfg, s, e), c)
  {
    assert CpuOk(s, c) && Timer.DeviceOk(s.bar, c);
    if e.CpuStep? { CpuFrame(cfg, s, e.cpu); }
  }

  lemma NextAccounted(cfg: Config, s: State, e: Event, c: nat, r: Record)
    requires Inv(cfg, s) && Enabled(cfg, s, e) && c < cfg.cpus && Accounted(s, c, r)
    ensures Accounted(Next(cfg, s, e), c, Note(cfg, s, e, c, r))
  {
    if e == CpuStep(c) {
      OwnAccounted(cfg, s, c, r);
    } else {
      OthersLeave(cfg, s, e, c);
      hide Next, Spent;
    }
  }

  lemma {:induction false} RunAccounted(cfg: Config, s: State, es: seq<Event>, c: nat, r: Record)
    requires Good(cfg, s) && ValidRun(cfg, s, es) && c < cfg.cpus && Accounted(s, c, r)
    ensures Accounted(After(cfg, s, es), c, SinceWake(cfg, s, es, c, r))
    decreases |es|
  {
    hide Slots, Served, Accounted, Note;
    if es == [] {
    } else {
      NextGood(cfg, s, es[0]);
      NextAccounted(cfg, s, es[0], c, r);
      RunAccounted(cfg, Next(cfg, s, es[0]), es[1..], c, Note(cfg, s, es[0], c, r));
    }
  }

  // ---------------------------------------------------------------------------------------------
  // Main results
  // ---------------------------------------------------------------------------------------------

  lemma ReachedIsAccounted(cfg: Config, es: seq<Event>, s: State, c: nat)
    requires Reaches(cfg, es, s) && c < cfg.cpus
    ensures Good(cfg, s) && Accounted(s, c, SinceWake(cfg, Init(cfg), es, c, NOTHING_YET))
  {
    InitGood(cfg);
    ReachedIsGood(cfg, es, s);
    assert Accounted(Init(cfg), c, NOTHING_YET);
    RunAccounted(cfg, Init(cfg), es, c, NOTHING_YET);
  }

  /**
    When a CPU ends a slot, it has run an instruction since it last woke, or at one of its own steps since then
    every ready queue was empty. When it stops for good, the latter, and the loader was done.
   */
  lemma NoSlotIsWasted(cfg: Config, es: seq<Event>, s: State, c: nat)
    requires Reaches(cfg, es, s) && c < cfg.cpus && Enabled(cfg, s, CpuStep(c))
    ensures var v, v' := s.bar.devs[c], Next(cfg, s, CpuStep(c)).bar.devs[c];
            var r := SinceWake(cfg, Init(cfg), es, c, NOTHING_YET);
            && (v'.slots != v.slots ==> r.ran || r.idle)
            && (v'.fsh != v.fsh ==> s.done && r.idle)
  {
    ReachedIsAccounted(cfg, es, s, c);
    EndsSlot(cfg, s, c);
    hide Good, Next, Spent, Init, SinceWake;
  }

  lemma EndsSlot(cfg: Config, s: State, c: nat)
    requires Inv(cfg, s) && c < cfg.cpus && Enabled(cfg, s, CpuStep(c))
    ensures var v, v' := s.bar.devs[c], Next(cfg, s, CpuStep(c)).bar.devs[c];
            && (v'.slots != v.slots ==> Spent(s, c)) && (v'.fsh != v.fsh ==> s.done && s.cpus[c].pc == Stopping)
  {
    assert CpuOk(s, c) && Timer.DeviceOk(s.bar, c);
  }

  /** When the clock moves, every CPU that has not stopped has run an instruction in the slot, or found nothing. */
  lemma NoSlotPassesIdle(cfg: Config, es: seq<Event>, s: State, c: nat)
    requires Reaches(cfg, es, s) && c < cfg.cpus && Enabled(cfg, s, Tick) && Next(cfg, s, Tick).bar.time != s.bar.time
    requires s.bar.devs[c].phase != Timer.Finished
    ensures var r := SinceWake(cfg, Init(cfg), es, c, NOTHING_YET); r.ran || r.idle
  {
    ReachedIsAccounted(cfg, es, s, c);
    assert Timer.DeviceOk(s.bar, c);
  }

  /** So no slot passes without an instruction on a CPU that finds a process ready at each of its steps. */
  lemma ReadyProcessesRun(cfg: Config, es: seq<Event>, s: State, c: nat)
    requires Reaches(cfg, es, s) && c < cfg.cpus && Enabled(cfg, s, Tick) && Next(cfg, s, Tick).bar.time != s.bar.time
    requires s.bar.devs[c].phase != Timer.Finished && !SinceWake(cfg, Init(cfg), es, c, NOTHING_YET).idle
    ensures SinceWake(cfg, Init(cfg), es, c, NOTHING_YET).ran
  {
    NoSlotPassesIdle(cfg, es, s, c);
  }
}
