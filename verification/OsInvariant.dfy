/**
  What every step of the simulator keeps about the threads themselves: who may be waiting where, and
  what each program counter implies.
 */
module OsInvariant {

  import opened Os
  import Timer

  ghost predicate CpuOk(s: State, c: nat)
    requires c < |s.cpus| && c < |s.bar.devs|
  {
    var u := s.cpus[c];
    && (s.bar.devs[c].phase == Timer.Waiting ==> u.pc == Loop)
    && (s.bar.devs[c].phase == Timer.Finished ==> u.pc == Stopping)
    && (u.proc.None? || u.pc in {NeedSlot, Charging} ==> u.timeLeft == 0)
    && (u.pc == Stopping ==> s.done)
  }

  ghost predicate LoaderOk(cfg: Config, s: State)
    requires Typed(cfg, s)
  {
    var v := s.bar.devs[cfg.cpus];
    && (v.phase == Timer.Waiting ==> s.loader.pc == Check)
    && (v.phase == Timer.Finished ==> s.loader.pc == Closing)
    && (s.done <==> s.loader.pc == Closing)
    && (s.done ==> s.loader.i == |cfg.procs| && v.slots <= s.bar.time)
  }

  ghost predicate Inv(cfg: Config, s: State) {
    && Typed(cfg, s)
    && Timer.Inv(s.bar)
    && (forall c :: 0 <= c < cfg.cpus ==> CpuOk(s, c))
    && LoaderOk(cfg, s)
    && (forall x :: 0 <= x < |cfg.procs| ==> s.pcs[x] <= cfg.procs[x].size)
  }

  lemma InitInv(cfg: Config)
    requires ValidConfig(cfg)
    ensures Inv(cfg, Init(cfg))
  {}

  /** Every event leaves the barrier alone or is one legal step of it. */
  lemma ProjectsToBarrier(cfg: Config, s: State, e: Event)
    requires Typed(cfg, s) && Timer.Inv(s.bar) && Enabled(cfg, s, e)
    ensures Timer.Inv(Next(cfg, s, e).bar)
  {
    match e
    case Tick => Timer.NextInv(s.bar, Timer.Tick);
    case Wake(d) => Timer.NextInv(s.bar, Timer.Resume(d));
    case CpuStep(c) =>
      Timer.NextInv(s.bar, if s.cpus[c].pc == Ending then Timer.EndSlot(c) else Timer.Detach(c));
    case LoaderStep =>
      Timer.NextInv(s.bar, if s.loader.pc == Closing then Timer.Detach(cfg.cpus) else Timer.EndSlot(cfg.cpus));
    case StopTimer => Timer.NextInv(s.bar, Timer.StopTimer);
  }

  /** Threads wait for nothing but the barrier: at work they may act in any order, released they may wake. */
  lemma ThreadsActFreely(cfg: Config, s: State, d: nat)
    requires Inv(cfg, s) && d < |s.bar.devs|
    ensures s.bar.devs[d].phase == Timer.Working ==> Enabled(cfg, s, if d < cfg.cpus then CpuStep(d) else LoaderStep)
    ensures s.bar.devs[d].phase == Timer.Waiting && !s.bar.devs[d].done ==> Enabled(cfg, s, Wake(d))
    ensures Timer.AllFinished(s.bar) && !s.bar.stop ==> Enabled(cfg, s, StopTimer)
  {
    assert Timer.DeviceOk(s.bar, d);
    Timer.DevicesActFreely(s.bar, d);
  }

  /** A CPU action touches no other CPU, no other device, not the loader and not the clock. */
  lemma CpuFrame(cfg: Config, s: State, c: nat)
    requires Typed(cfg, s) && Enabled(cfg, s, CpuStep(c))
    ensures var s' := CpuAction(cfg, s, c);
            && s'.cpus == s.cpus[c := s'.cpus[c]]
            && s'.bar == s.bar.(devs := s.bar.devs[c := s'.bar.devs[c]])
            && s'.loader == s.loader && s'.done == s.done
  {}

  lemma CpuSelfOk(cfg: Config, s: State, c: nat)
    requires Inv(cfg, s) && Enabled(cfg, s, CpuStep(c))
    ensures CpuOk(CpuAction(cfg, s, c), c)
  {
    assert CpuOk(s, c);
  }

  /** Program counters of processes: only the process being run moves, by one, and never past its end. */
  lemma CpuMovesPc(cfg: Config, s: State, c: nat)
    requires Typed(cfg, s) && Enabled(cfg, s, CpuStep(c))
    ensures var s' := CpuAction(cfg, s, c);
            if s.cpus[c].pc == Dispatch then
              var x := s.cpus[c].proc.value;
              s'.pcs == s.pcs[x := if s.pcs[x] < cfg.procs[x].size then s.pcs[x] + 1 else s.pcs[x]]
            else
              s'.pcs == s.pcs
  {}

  /** A process stays ready on its CPU only with its quantum still to come or an instruction left; runs are recorded. */
  lemma CpuRecords(cfg: Config, s: State, c: nat)
    requires Typed(cfg, s) && Enabled(cfg, s, CpuStep(c))
    ensures var s', u, u' := CpuAction(cfg, s, c), s.cpus[c], CpuAction(cfg, s, c).cpus[c];
            && s'.hist.lastRun ==
                 (if u.pc == Dispatch then s.hist.lastRun[u.proc.value := s.bar.time] else s.hist.lastRun)
            && (u'.pc in {NeedSlot, Dispatch} && u.proc.Some? ==>
                  u'.proc == u.proc && (u.pc == NeedSlot || s.pcs[u.proc.value] != cfg.procs[u.proc.value].size))
            && (u.pc == Dispatch ==> u'.pc == Ending && u'.proc == u.proc)
  {}

  lemma CpuInv(cfg: Config, s: State, c: nat)
    requires Inv(cfg, s) && Enabled(cfg, s, CpuStep(c))
    ensures Inv(cfg, CpuAction(cfg, s, c))
  {
    ProjectsToBarrier(cfg, s, CpuStep(c));
    CpuFrame(cfg, s, c);
    CpuSelfOk(cfg, s, c);
    CpuMovesPc(cfg, s, c);
    assert Typed(cfg, Next(cfg, s, CpuStep(c)));
    forall d | 0 <= d < cfg.cpus && d != c ensures CpuOk(CpuAction(cfg, s, c), d) {
      assert CpuOk(s, d);
    }
  }

  lemma OtherInv(cfg: Config, s: State, e: Event)
    requires Inv(cfg, s) && Enabled(cfg, s, e) && !e.CpuStep?
    ensures Inv(cfg, Next(cfg, s, e))
  {
    ProjectsToBarrier(cfg, s, e);
    var s' := Next(cfg, s, e);
    forall c | 0 <= c < cfg.cpus ensures CpuOk(s', c) {
      assert CpuOk(s, c);
    }
    assert Timer.DeviceOk(s.bar, cfg.cpus);
  }

  lemma NextInv(cfg: Config, s: State, e: Event)
    requires Inv(cfg, s) && Enabled(cfg, s, e)
    ensures Inv(cfg, Next(cfg, s, e))
  {
    if e.CpuStep? { CpuInv(cfg, s, e.cpu); } else { OtherInv(cfg, s, e); }
  }
}
