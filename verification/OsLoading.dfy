/** When the loader adds each process: at its start time, but never two in one slot. */
module OsLoading {

  import opened Os
  import opened OsInvariant
  import opened OsShutdown
  import Timer

  /** The first slot in which the loader can add process `i`: the one after the process before it. */
  function Due(cfg: Config, i: nat): nat
    requires i <= |cfg.procs|
    decreases i, 0
  {
    if i == 0 then 0 else LoadTime(cfg, i - 1) + 1
  }

  /** The slot in which it does: not before the process's start time. */
  function LoadTime(cfg: Config, i: nat): nat
    requires i < |cfg.procs|
    decreases i, 1
  {
    if cfg.procs[i].start <= Due(cfg, i) then Due(cfg, i) else cfg.procs[i].start
  }

  lemma {:induction false} LoadTimeGrows(cfg: Config, x: nat, i: nat)
    requires x < i <= |cfg.procs|
    ensures cfg.procs[x].start <= LoadTime(cfg, x) < Due(cfg, i)
    decreases i
  {
    if x == i - 1 {
    } else {
      LoadTimeGrows(cfg, x, i - 1);
    }
  }

  /** The slot that the loader is in, or will wake to, is between those two. */
  ghost predicate Punctual(cfg: Config, s: State)
    requires Typed(cfg, s)
  {
    var slot, i := s.bar.devs[cfg.cpus].slots, s.loader.i;
    && Due(cfg, i) <= s.bar.time + 1
    && match s.loader.pc
       case Check => Due(cfg, i) <= slot <= if i < |cfg.procs| then LoadTime(cfg, i) else Due(cfg, i)
       case Added => i > 0 && slot == LoadTime(cfg, i - 1)
       case Closing => true
  }

  lemma NextPunctual(cfg: Config, s: State, e: Event)
    requires Inv(cfg, s) && Enabled(cfg, s, e) && Punctual(cfg, s)
    ensures Punctual(cfg, Next(cfg, s, e))
  {
    if e == LoaderStep { LoaderPunctual(cfg, s); } else { OthersPunctual(cfg, s, e); }
  }

  lemma LoaderPunctual(cfg: Config, s: State)
    requires Inv(cfg, s) && Enabled(cfg, s, LoaderStep) && Punctual(cfg, s)
    ensures Punctual(cfg, LoaderAction(cfg, s))
  {
    assert Timer.DeviceOk(s.bar, cfg.cpus);
    hide Insert;
  }

  lemma OthersPunctual(cfg: Config, s: State, e: Event)
    requires Inv(cfg, s) && Enabled(cfg, s, e) && Punctual(cfg, s) && e != LoaderStep
    ensures Punctual(cfg, Next(cfg, s, e))
  {
    hide LoaderAction, CpuAction, LoadTime, Due;
    assert Timer.DeviceOk(s.bar, cfg.cpus);
    if e.CpuStep? { CpuFrame(cfg, s, e.cpu); }
  }

  lemma {:induction false} RunPunctual(cfg: Config, s: State, es: seq<Event>)
    requires Inv(cfg, s) && ValidRun(cfg, s, es) && Punctual(cfg, s)
    ensures Inv(cfg, After(cfg, s, es)) && Punctual(cfg, After(cfg, s, es))
    decreases |es|
  {
    if es == [] {
    } else {
      NextInv(cfg, s, es[0]);
      NextPunctual(cfg, s, es[0]);
      RunPunctual(cfg, Next(cfg, s, es[0]), es[1..]);
    }
  }

  /** Processes are added in order, each at exactly its time; the loader is done in the slot after the last. */
  lemma LoadsOnTime(cfg: Config, es: seq<Event>, s: State, e: Event)
    requires Reaches(cfg, es, s) && Enabled(cfg, s, e)
    ensures var s', i := Next(cfg, s, e), s.loader.i;
            && (s'.loader.i != i ==> i < |cfg.procs| && s'.loader.i == i + 1 && s.bar.time == LoadTime(cfg, i))
            && (s'.done != s.done ==> s'.done && i == |cfg.procs| && s.bar.time == Due(cfg, i))
  {
    ReachedIsGood(cfg, es, s);
    InitInv(cfg);
    RunPunctual(cfg, Init(cfg), es);
    assert Timer.DeviceOk(s.bar, cfg.cpus);
    if e.CpuStep? { CpuFrame(cfg, s, e.cpu); }
  }

  /** No process is loaded before its start time. */
  lemma NotBeforeStart(cfg: Config, es: seq<Event>, s: State, x: nat)
    requires Reaches(cfg, es, s) && x < s.loader.i
    ensures x < |cfg.procs| && cfg.procs[x].start <= LoadTime(cfg, x) <= s.bar.time
  {
    InitInv(cfg);
    RunPunctual(cfg, Init(cfg), es);
    LoadTimeGrows(cfg, x, s.loader.i);
  }
}
