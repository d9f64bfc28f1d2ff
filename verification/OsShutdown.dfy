/**
  No work is lost at shutdown. `get_proc` and the read of `done` are separate actions, and a CPU may
  stop on an empty answer that is out of date; the barrier is what makes this harmless.
 */
module OsShutdown {

  import opened Mlq
  import opened Seqs
  import opened Os
  import opened OsInvariant
  import opened OsConservation
  import opened OsSlots
  import Timer

  /** The loader has added everything and the clock has moved since. */
  ghost predicate Quiet(cfg: Config, s: State)
    requires Typed(cfg, s)
  {
    s.loader.i == |cfg.procs| && s.loader.pc != Added && s.bar.devs[cfg.cpus].slots <= s.bar.time
  }

  /** Will look at the ready queues again before it can stop. */
  predicate Live(s: State, c: nat) {
    c < |s.cpus| && s.cpus[c].pc !in {ReadDone, Stopping}
  }

  ghost predicate Served(cfg: Config, s: State) {
    && Typed(cfg, s)
    && (Quiet(cfg, s) && !AllEmpty(s.ready) ==> exists c :: Live(s, c))
  }

  /** When the clock moves before shutdown, every CPU is asleep between slots. */
  lemma ClockFindsAllLive(cfg: Config, s: State)
    requires Inv(cfg, s) && Enabled(cfg, s, Tick) && Timer.Advances(s.bar, Timer.Tick)
    requires !Quiet(cfg, s)
    ensures Live(Next(cfg, s, Tick), 0)
  {
    assert Timer.DeviceOk(s.bar, 0) && CpuOk(s, 0);
  }

  lemma CpuServed(cfg: Config, s: State, c: nat)
    requires Inv(cfg, s) && Served(cfg, s) && Enabled(cfg, s, CpuStep(c))
    ensures Served(cfg, CpuAction(cfg, s, c))
  {
    CpuFrame(cfg, s, c);
    var s' := CpuAction(cfg, s, c);
    if Quiet(cfg, s') && !AllEmpty(s'.ready) && !Live(s', c) {
      assert s'.ready.queues == s.ready.queues && !Live(s, c);
      var d :| Live(s, d);
      assert Live(s', d);
    }
  }

  lemma NextServed(cfg: Config, s: State, e: Event)
    requires Inv(cfg, s) && Served(cfg, s) && Enabled(cfg, s, e)
    ensures Served(cfg, Next(cfg, s, e))
  {
    if e.CpuStep? {
      CpuServed(cfg, s, e.cpu);
    } else {
      var s' := Next(cfg, s, e);
      assert Timer.DeviceOk(s.bar, cfg.cpus);
      assert forall c :: Live(s', c) <==> Live(s, c);
      if e == Tick && Timer.Advances(s.bar, Timer.Tick) && !Quiet(cfg, s) { ClockFindsAllLive(cfg, s); }
    }
  }

  // ---------------------------------------------------------------------------------------------
  // All invariants over all runs
  // ---------------------------------------------------------------------------------------------

  ghost predicate Good(cfg: Config, s: State) {
    Inv(cfg, s) && Places(cfg, s) && Slots(cfg, s) && Served(cfg, s)
  }

  lemma InitGood(cfg: Config)
    requires ValidConfig(cfg)
    ensures Good(cfg, Init(cfg))
  {}

  lemma NextGood(cfg: Config, s: State, e: Event)
    requires Good(cfg, s) && Enabled(cfg, s, e)
    ensures Good(cfg, Next(cfg, s, e))
  {
    NextInv(cfg, s, e);
    NextPlaces(cfg, s, e);
    NextSlots(cfg, s, e);
    NextServed(cfg, s, e);
  }

  lemma {:induction false} RunGood(cfg: Config, s: State, es: seq<Event>)
    requires Good(cfg, s) && ValidRun(cfg, s, es)
    ensures Good(cfg, After(cfg, s, es))
    decreases |es|
  {
    if es == [] {
    } else {
      NextGood(cfg, s, es[0]);
      RunGood(cfg, Next(cfg, s, es[0]), es[1..]);
    }
  }

  /** The state a schedule leads to from start-up. */
  ghost predicate Reaches(cfg: Config, es: seq<Event>, s: State) {
    ValidConfig(cfg) && Typed(cfg, Init(cfg)) && ValidRun(cfg, Init(cfg), es) && s == After(cfg, Init(cfg), es)
  }

  lemma ReachedIsGood(cfg: Config, es: seq<Event>, s: State)
    requires Reaches(cfg, es, s)
    ensures Good(cfg, s)
  {
    InitGood(cfg);
    RunGood(cfg, Init(cfg), es);
  }

  // ---------------------------------------------------------------------------------------------
  // Main results
  // ---------------------------------------------------------------------------------------------

  ghost predicate Completed(cfg: Config, s: State, x: nat)
    requires Typed(cfg, s) && x < |cfg.procs|
  {
    s.hist.place[x] == Freed && s.pcs[x] == cfg.procs[x].size
  }

  /**
    Once the loader and every CPU have stopped, nothing is queued and every process has run to its end,
    except those that a full queue turned away; with at most ten of each priority there are none.
   */
  lemma NoLostWork(cfg: Config, es: seq<Event>, s: State)
    requires Reaches(cfg, es, s) && Timer.AllFinished(s.bar)
    ensures AllEmpty(s.ready)
    ensures forall x :: 0 <= x < |cfg.procs| ==> Completed(cfg, s, x) || s.hist.place[x] == Dropped
    ensures FitsQueues(cfg) ==> forall x :: 0 <= x < |cfg.procs| ==> Completed(cfg, s, x)
  {
    ReachedIsGood(cfg, es, s);
    forall c | 0 <= c < cfg.cpus ensures !Live(s, c) && s.cpus[c].proc.None? {
      assert CpuOk(s, c);
    }
    assert s.bar.devs[cfg.cpus].phase == Timer.Finished;
    forall x | 0 <= x < |cfg.procs| ensures Completed(cfg, s, x) || s.hist.place[x] == Dropped {
      var q := PrioOf(cfg, x);
      assert QueueOk(cfg, s, q);
      assert s.hist.place[x].InHand? ==> Owns(s.cpus[s.hist.place[x].cpu], x);
    }
  }

  /**
    A loaded process is in exactly one of its own ready queue, the hands of one CPU, the freed ones, and
    those that a full queue turned away.
   */
  lemma ExactlyOnePlace(cfg: Config, es: seq<Event>, s: State, x: nat)
    requires Reaches(cfg, es, s) && x < s.loader.i
    ensures var queued := exists q :: 0 <= q < MAX_PRIO && x in s.ready.queues[q];
            var owned := exists c :: 0 <= c < cfg.cpus && Owns(s.cpus[c], x);
            var freed, dropped := s.hist.place[x] == Freed, s.hist.place[x] == Dropped;
            && (queued || owned || freed || dropped) && !(freed && dropped)
            && !(queued && owned) && !(queued && (freed || dropped)) && !(owned && (freed || dropped))
    ensures forall q :: 0 <= q < MAX_PRIO && x in s.ready.queues[q] ==>
                          q == PrioOf(cfg, x) && multiset(s.ready.queues[q])[x] == 1
    ensures forall c, d | 0 <= c < cfg.cpus && 0 <= d < cfg.cpus ::
              Owns(s.cpus[c], x) && Owns(s.cpus[d], x) ==> c == d
    ensures s.hist.place[x] == Freed ==> s.pcs[x] == cfg.procs[x].size
    ensures FitsQueues(cfg) ==> s.hist.place[x] != Dropped
  {
    ReachedIsGood(cfg, es, s);
    forall q | 0 <= q < MAX_PRIO
      ensures x in s.ready.queues[q] <==> s.hist.place[x] == Queued && q == PrioOf(cfg, x)
      ensures x in s.ready.queues[q] ==> multiset(s.ready.queues[q])[x] == 1
    {
      assert QueueOk(cfg, s, q);
      if x in s.ready.queues[q] { NoDupOnce(s.ready.queues[q], x); }
    }
    match s.hist.place[x]
    case Queued => assert x in s.ready.queues[PrioOf(cfg, x)];
    case InHand(c) => assert Owns(s.cpus[c], x);
    case _ =>
  }

  lemma {:induction false} NoDupOnce<T>(s: seq<T>, x: T)
    requires NoDup(s) && x in s
    ensures multiset(s)[x] == 1
    decreases |s|
  {
    assert s == [s[0]] + s[1..];
    if x == s[0] {
    } else {
      NoDupOnce(s[1..], x);
    }
  }

  /** The CPU that has put a process back may still read it when it charges the queue: nobody has freed it. */
  lemma NotFreedBeforeCharged(cfg: Config, es: seq<Event>, s: State, c: nat)
    requires Reaches(cfg, es, s) && c < cfg.cpus && s.cpus[c].pc == Charging
    ensures s.hist.place[s.cpus[c].proc.value] != Freed
    ensures forall d :: 0 <= d < cfg.cpus && s.cpus[d].pc == Freeing ==> s.cpus[d].proc != s.cpus[c].proc
  {
    ReachedIsGood(cfg, es, s);
    assert ChargeOk(cfg, s, c);
    forall d | 0 <= d < cfg.cpus && s.cpus[d].pc == Freeing ensures s.cpus[d].proc != s.cpus[c].proc {
      assert CpuOk(s, d) && Owns(s.cpus[d], s.cpus[d].proc.value);
    }
  }

  lemma StepRunGrows(cfg: Config, s: State, e: Event, x: nat)
    requires Good(cfg, s) && Enabled(cfg, s, e) && x < |cfg.procs|
    ensures s.hist.lastRun[x] <= Next(cfg, s, e).hist.lastRun[x]
  {
    assert RunOk(s, x);
  }

  lemma {:induction false} LastRunGrows(cfg: Config, s: State, es: seq<Event>, x: nat)
    requires Good(cfg, s) && ValidRun(cfg, s, es) && x < |cfg.procs|
    ensures s.hist.lastRun[x] <= After(cfg, s, es).hist.lastRun[x]
    decreases |es|
  {
    if es == [] {
    } else {
      StepRunGrows(cfg, s, es[0], x);
      NextGood(cfg, s, es[0]);
      LastRunGrows(cfg, Next(cfg, s, es[0]), es[1..], x);
    }
  }

  /** The process about to execute an instruction on CPU `c`. */
  ghost predicate AboutToRun(cfg: Config, s: State, c: nat, x: nat) {
    Enabled(cfg, s, CpuStep(c)) && c < |s.cpus| && s.cpus[c].pc == Dispatch && s.cpus[c].proc == Some(x)
  }

  lemma RunIsRecorded(cfg: Config, s: State, c: nat, x: nat)
    requires Typed(cfg, s) && AboutToRun(cfg, s, c, x)
    ensures x < |cfg.procs| && Next(cfg, s, CpuStep(c)).hist.lastRun[x] == s.bar.time
  {}

  lemma RunIsNew(cfg: Config, s: State, c: nat, x: nat)
    requires Good(cfg, s) && AboutToRun(cfg, s, c, x)
    ensures x < |s.hist.lastRun| && s.hist.lastRun[x] < s.bar.time
  {
    assert RunOk(s, x) && Owns(s.cpus[c], x) && CpuOk(s, c);
  }

  /** Two instructions of one process, on whatever CPUs, are executed at different times. */
  lemma OneInstructionPerSlot(
      cfg: Config, es: seq<Event>, s: State, c: nat, between: seq<Event>, s': State, c': nat, x: nat)
    requires Reaches(cfg, es, s) && AboutToRun(cfg, s, c, x)
    requires ValidRun(cfg, Next(cfg, s, CpuStep(c)), between)
    requires s' == After(cfg, Next(cfg, s, CpuStep(c)), between) && AboutToRun(cfg, s', c', x)
    ensures s.bar.time < s'.bar.time
  {
    ReachedIsGood(cfg, es, s);
    NextGood(cfg, s, CpuStep(c));
    RunIsRecorded(cfg, s, c, x);
    hide Next, Inv, Places, Slots, Served, Reaches;
    var s1 := Next(cfg, s, CpuStep(c));
    LastRunGrows(cfg, s1, between, x);
    RunGood(cfg, s1, between);
    RunIsNew(cfg, s', c', x);
  }
}
