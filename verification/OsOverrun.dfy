/**
  What follows when a get_slot reads a budget that is used up: the process keeps its CPU to its end and
  is charged for all of it, and such a schedule exists from start-up.
 */
module OsOverrun {

  import opened Mlq
  import opened Os
  import opened OsInvariant
  import opened OsConservation
  import opened OsShutdown
  import opened OsTermination
  import opened OsBudget

  // ---------------------------------------------------------------------------------------------
  // Run to completion
  // ---------------------------------------------------------------------------------------------

  /** CPU `d` runs process `x`, and the quantum has gone past zero. */
  ghost predicate Overruns(cfg: Config, s: State, d: nat, x: nat) {
    && Typed(cfg, s) && d < cfg.cpus && x < |cfg.procs|
    && s.cpus[d].proc == Some(x) && s.cpus[d].timeLeft < 0
    && (s.cpus[d].pc in {Ending, Loop} || (s.cpus[d].pc == Dispatch && s.pcs[x] < cfg.procs[x].size))
  }

  /** The process has ended, and the CPU is about to charge its queue. */
  ghost predicate Over(cfg: Config, s: State, e: Event, d: nat, x: nat)
    requires Typed(cfg, s) && x < |cfg.procs| && d < |s.cpus|
  {
    e == CpuStep(d) && s.cpus[d].pc == Loop && s.pcs[x] == cfg.procs[x].size
  }

  /** A quantum that is not positive overruns from its first instruction. */
  lemma BadGrantOverruns(cfg: Config, s: State, d: nat)
    requires Inv(cfg, s) && Enabled(cfg, s, CpuStep(d)) && Starts(s.cpus[d]) && Grant(cfg, s.cpus[d].remaining) <= 0
    ensures Overruns(cfg, Next(cfg, s, CpuStep(d)), d, s.cpus[d].proc.value)
  {}

  /** Whoever acts, the process stays on its CPU, and its use grows with its program counter. */
  lemma OverrunStep(cfg: Config, s: State, e: Event, d: nat, x: nat)
    requires Good(cfg, s) && Enabled(cfg, s, e) && Overruns(cfg, s, d, x) && !Over(cfg, s, e, d, x)
    ensures var s' := Next(cfg, s, e);
            Overruns(cfg, s', d, x) && s'.cpus[d].useTime - s'.pcs[x] == s.cpus[d].useTime - s.pcs[x]
  {
    if e.CpuStep? {
      if e.cpu == d { OwnOverrun(cfg, s, d, x); } else { OtherOverrun(cfg, s, e.cpu, d, x); }
    }
  }

  lemma OwnOverrun(cfg: Config, s: State, d: nat, x: nat)
    requires Inv(cfg, s) && Enabled(cfg, s, CpuStep(d)) && Overruns(cfg, s, d, x) && !Over(cfg, s, CpuStep(d), d, x)
    ensures var s' := CpuAction(cfg, s, d);
            Overruns(cfg, s', d, x) && s'.cpus[d].useTime - s'.pcs[x] == s.cpus[d].useTime - s.pcs[x]
  {}

  lemma OtherOverrun(cfg: Config, s: State, c: nat, d: nat, x: nat)
    requires Good(cfg, s) && Enabled(cfg, s, CpuStep(c)) && Overruns(cfg, s, d, x) && c != d
    ensures var s' := CpuAction(cfg, s, c);
            Typed(cfg, s') && s'.cpus[d] == s.cpus[d] && s'.pcs[x] == s.pcs[x]
  {
    hide Served, QueuesOk, EndsOk, CpuAction;
    CpuFrame(cfg, s, c);
    CpuMovesPc(cfg, s, c);
    assert Owns(s.cpus[d], x);
    if s.cpus[c].pc == Dispatch {
      assert Owns(s.cpus[c], s.cpus[c].proc.value);
      assert s.hist.place[x] == InHand(d);
    }
  }

  /**
    Run to completion: as long as the process has instructions left it keeps its CPU, and its use of the
    time has grown by every instruction it has run.
   */
  lemma {:induction false} RunsToCompletion(cfg: Config, s: State, es: seq<Event>, d: nat, x: nat)
    requires Good(cfg, s) && ValidRun(cfg, s, es) && Overruns(cfg, s, d, x)
    ensures var s' := After(cfg, s, es);
            s'.pcs[x] < cfg.procs[x].size ==>
              Overruns(cfg, s', d, x) && s'.cpus[d].useTime - s'.pcs[x] == s.cpus[d].useTime - s.pcs[x]
    decreases |es|
  {
    if es == [] {
    } else if Over(cfg, s, es[0], d, x) {
      NextGood(cfg, s, es[0]);
      EndedStays(cfg, Next(cfg, s, es[0]), es[1..], x);
    } else {
      NextGood(cfg, s, es[0]);
      OverrunStep(cfg, s, es[0], d, x);
      RunsToCompletion(cfg, Next(cfg, s, es[0]), es[1..], d, x);
    }
  }

  lemma StepEnded(cfg: Config, s: State, e: Event, x: nat)
    requires Good(cfg, s) && Enabled(cfg, s, e) && x < |cfg.procs| && s.pcs[x] == cfg.procs[x].size
    ensures Next(cfg, s, e).pcs[x] == cfg.procs[x].size
  {
    if e.CpuStep? { CpuMovesPc(cfg, s, e.cpu); }
  }

  lemma {:induction false} EndedStays(cfg: Config, s: State, es: seq<Event>, x: nat)
    requires Good(cfg, s) && ValidRun(cfg, s, es) && x < |cfg.procs| && s.pcs[x] == cfg.procs[x].size
    ensures After(cfg, s, es).pcs[x] == cfg.procs[x].size
    decreases |es|
  {
    if es == [] {
    } else {
      NextGood(cfg, s, es[0]);
      StepEnded(cfg, s, es[0], x);
      EndedStays(cfg, Next(cfg, s, es[0]), es[1..], x);
    }
  }

  /** The moment at which a process that overran, and no longer does, was charged for all of its use. */
  lemma {:induction false} OverrunIsCharged(cfg: Config, s: State, es: seq<Event>, d: nat, x: nat)
    returns (before: seq<Event>, t: State)
    requires Good(cfg, s) && ValidRun(cfg, s, es) && Overruns(cfg, s, d, x) && !Overruns(cfg, After(cfg, s, es), d, x)
    ensures ValidRun(cfg, s, before) && t == After(cfg, s, before) && Enabled(cfg, t, CpuStep(d))
    ensures Over(cfg, t, CpuStep(d), d, x) && t.cpus[d].proc == Some(x)
    ensures t.cpus[d].useTime == s.cpus[d].useTime + cfg.procs[x].size - s.pcs[x]
    decreases |es|
  {
    if Over(cfg, s, es[0], d, x) {
      before, t := [], s;
    } else {
      var s1 := Next(cfg, s, es[0]);
      NextGood(cfg, s, es[0]);
      OverrunStep(cfg, s, es[0], d, x);
      var rest;
      rest, t := OverrunIsCharged(cfg, s1, es[1..], d, x);
      before := [es[0]] + rest;
      assert before[1..] == rest;
    }
  }

  // ---------------------------------------------------------------------------------------------
  // Schedules put together
  // ---------------------------------------------------------------------------------------------

  lemma {:induction false} RunConcat(cfg: Config, s: State, es: seq<Event>, more: seq<Event>)
    requires Typed(cfg, s) && ValidRun(cfg, s, es) && ValidRun(cfg, After(cfg, s, es), more)
    ensures ValidRun(cfg, s, es + more) && After(cfg, s, es + more) == After(cfg, After(cfg, s, es), more)
    decreases |es|
  {
    hide Next, Enabled, Typed;
    if es == [] {
      assert es + more == more;
    } else {
      RunConcat(cfg, Next(cfg, s, es[0]), es[1..], more);
      assert (es + more)[1..] == es[1..] + more;
    }
  }

  lemma ReachesOn(cfg: Config, es: seq<Event>, s: State, more: seq<Event>)
    requires Reaches(cfg, es, s) && ValidRun(cfg, s, more)
    ensures Reaches(cfg, es + more, After(cfg, s, more))
  {
    RunConcat(cfg, Init(cfg), es, more);
  }

  lemma {:induction false} RunEarns(cfg: Config, s: State, es: seq<Event>)
    requires Good(cfg, s) && Earns(cfg, s) && ValidRun(cfg, s, es)
    ensures Earns(cfg, After(cfg, s, es))
    decreases |es|
  {
    if es == [] {
    } else {
      NextGood(cfg, s, es[0]);
      NextEarns(cfg, s, es[0]);
      RunEarns(cfg, Next(cfg, s, es[0]), es[1..]);
    }
  }

  /** Any state can be run on until no thread can act. */
  lemma {:induction false} RunOn(cfg: Config, s: State) returns (es: seq<Event>)
    requires Good(cfg, s) && Earns(cfg, s)
    ensures ValidRun(cfg, s, es) && Good(cfg, After(cfg, s, es)) && forall e :: !Enabled(cfg, After(cfg, s, es), e)
    decreases Budget(cfg, s)
  {
    BudgetNotNegative(cfg, s);
    if e :| Enabled(cfg, s, e) {
      NextGood(cfg, s, e);
      NextEarns(cfg, s, e);
      NextLowersBudget(cfg, s, e);
      BudgetNotNegative(cfg, Next(cfg, s, e));
      var rest := RunOn(cfg, Next(cfg, s, e));
      es := [e] + rest;
      assert es[1..] == rest;
    } else {
      es := [];
    }
  }

  // ---------------------------------------------------------------------------------------------
  // Budgets from above
  // ---------------------------------------------------------------------------------------------

  /** On every schedule, paired or not. */
  ghost predicate Capped(cfg: Config, s: State)
    requires Typed(cfg, s)
  {
    && (forall q :: 0 <= q < MAX_PRIO ==> s.ready.slot[q] <= MAX_PRIO - q)
    && (forall c :: 0 <= c < cfg.cpus ==> 0 <= s.cpus[c].useTime)
  }

  lemma NextCapped(cfg: Config, s: State, e: Event)
    requires Good(cfg, s) && Enabled(cfg, s, e) && Capped(cfg, s)
    ensures Capped(cfg, Next(cfg, s, e))
  {
    if e.CpuStep? {
      CpuFrame(cfg, s, e.cpu);
      if s.cpus[e.cpu].proc.None? { IdleBudget(cfg, s, e.cpu); } else { ChargeBudget(cfg, s, e.cpu); }
      UseTimeGrows(cfg, s, e.cpu);
    }
  }

  lemma UseTimeGrows(cfg: Config, s: State, c: nat)
    requires Typed(cfg, s) && Enabled(cfg, s, CpuStep(c)) && 0 <= s.cpus[c].useTime
    ensures 0 <= CpuAction(cfg, s, c).cpus[c].useTime
  {}

  lemma {:induction false} RunCapped(cfg: Config, s: State, es: seq<Event>)
    requires Good(cfg, s) && ValidRun(cfg, s, es) && Capped(cfg, s)
    ensures Capped(cfg, After(cfg, s, es))
    decreases |es|
  {
    if es == [] {
    } else {
      NextGood(cfg, s, es[0]);
      NextCapped(cfg, s, es[0]);
      RunCapped(cfg, Next(cfg, s, es[0]), es[1..]);
    }
  }
}
