/**
  Slot budgets with several CPUs. `get_proc` and `get_slot` are two actions; as long as every get_slot
  reads a positive budget, a queue can only be overdrawn by the quanta the other CPUs hold. That is so
  if nobody charges a queue between another CPU's two actions.
 */
module OsBudget {

  import opened Mlq
  import opened Os
  import opened OsInvariant
  import opened OsConservation
  import opened OsShutdown
  import opened Sums

  /** The next action of CPU `c` is to charge queue `q`. */
  ghost predicate ChargesNext(cfg: Config, s: State, c: nat, q: nat)
    requires Typed(cfg, s) && c < |s.cpus|
  {
    var u := s.cpus[c];
    && u.proc.Some? && PrioOf(cfg, u.proc.value) == q
    && (u.pc == Charging || (u.pc == Loop && s.pcs[u.proc.value] == cfg.procs[u.proc.value].size))
  }

  ghost predicate NeedsSlotOf(cfg: Config, s: State, c: nat, q: nat)
    requires Typed(cfg, s) && c < |s.cpus|
  {
    s.cpus[c].pc == NeedSlot && PrioOf(cfg, s.cpus[c].proc.value) == q
  }

  /** No charge falls between another CPU's get_proc and get_slot on the same queue. */
  ghost predicate Paired(cfg: Config, s: State, e: Event)
    requires Typed(cfg, s) && Enabled(cfg, s, e)
  {
    e.CpuStep? ==>
      forall d, q :: 0 <= d < cfg.cpus && d != e.cpu && NeedsSlotOf(cfg, s, d, q) ==> !ChargesNext(cfg, s, e.cpu, q)
  }

  ghost predicate PairedRun(cfg: Config, s: State, es: seq<Event>)
    requires Typed(cfg, s) && ValidRun(cfg, s, es)
    decreases |es|
  {
    es != [] ==> Paired(cfg, s, es[0]) && PairedRun(cfg, Next(cfg, s, es[0]), es[1..])
  }

  /** If this event is a get_slot, it reads a positive budget. */
  ghost predicate ReadsPositive(cfg: Config, s: State, e: Event)
    requires Typed(cfg, s) && Enabled(cfg, s, e)
  {
    e.CpuStep? && s.cpus[e.cpu].pc == NeedSlot ==> s.ready.slot[PrioOf(cfg, s.cpus[e.cpu].proc.value)] >= 1
  }

  ghost predicate PositiveReads(cfg: Config, s: State, es: seq<Event>)
    requires Typed(cfg, s) && ValidRun(cfg, s, es)
    decreases |es|
  {
    es != [] ==> ReadsPositive(cfg, s, es[0]) && PositiveReads(cfg, Next(cfg, s, es[0]), es[1..])
  }

  // ---------------------------------------------------------------------------------------------
  // Quanta granted and not yet charged
  // ---------------------------------------------------------------------------------------------

  function Grant(cfg: Config, remaining: int): int {
    if cfg.timeSlot < remaining then cfg.timeSlot else remaining
  }

  /** What CPU `u` may use, or has used without being charged, out of queue `q`. */
  function Quantum(cfg: Config, u: Cpu, q: nat): int {
    if u.proc.None? || u.proc.value >= |cfg.procs| || cfg.procs[u.proc.value].prio != q then 0
    else if u.pc in {NeedSlot, Freeing} then 0
    else if u.pc == Dispatch && u.timeLeft == 0 then Grant(cfg, u.remaining)
    else u.timeLeft + u.useTime
  }

  ghost function Quanta(cfg: Config, s: State, q: nat): (o: seq<int>)
    requires Typed(cfg, s)
    ensures |o| == cfg.cpus && forall c :: 0 <= c < cfg.cpus ==> o[c] == Quantum(cfg, s.cpus[c], q)
  {
    seq(cfg.cpus, c requires 0 <= c < cfg.cpus => Quantum(cfg, s.cpus[c], q))
  }

  ghost predicate QuantumOk(cfg: Config, s: State, c: nat)
    requires Typed(cfg, s) && c < cfg.cpus
  {
    var u := s.cpus[c];
    && (u.pc == Dispatch && u.timeLeft == 0 ==> u.remaining >= 1)
    && (u.proc.Some? && u.pc !in {NeedSlot, Freeing} && !(u.pc == Dispatch && u.timeLeft == 0) ==>
          0 <= u.timeLeft && 1 <= u.useTime && u.timeLeft + u.useTime <= cfg.timeSlot)
  }

  ghost predicate DebtOk(cfg: Config, s: State, q: nat)
    requires Typed(cfg, s) && q < MAX_PRIO
  {
    -((cfg.cpus - 1) * cfg.timeSlot) + Sum(Quanta(cfg, s, q)) <= s.ready.slot[q] <= MAX_PRIO - q
  }

  ghost predicate Budgets(cfg: Config, s: State) {
    && Typed(cfg, s) && cfg.timeSlot >= 1
    && (forall c :: 0 <= c < cfg.cpus ==> QuantumOk(cfg, s, c))
    && (forall q :: 0 <= q < MAX_PRIO ==> DebtOk(cfg, s, q))
  }

  lemma InitBudgets(cfg: Config)
    requires ValidConfig(cfg) && cfg.timeSlot >= 1
    ensures Budgets(cfg, Init(cfg))
  {
    InitTyped(cfg);
    forall q | 0 <= q < MAX_PRIO ensures DebtOk(cfg, Init(cfg), q) {
      SumBounds(Quanta(cfg, Init(cfg), q), 0, 0);
      assert (cfg.cpus - 1) * cfg.timeSlot >= 0;
    }
  }

  lemma QuantumBound(cfg: Config, s: State, c: nat, q: nat)
    requires Budgets(cfg, s) && c < cfg.cpus
    ensures 0 <= Quantum(cfg, s.cpus[c], q) <= cfg.timeSlot
  {
    assert QuantumOk(cfg, s, c);
  }

  /** The other CPUs together hold at most one time slot each. */
  lemma OthersBound(cfg: Config, s: State, c: nat, q: nat)
    requires Budgets(cfg, s) && c < cfg.cpus
    ensures Sum(Quanta(cfg, s, q)) - Quantum(cfg, s.cpus[c], q) <= (cfg.cpus - 1) * cfg.timeSlot
  {
    var o := Quanta(cfg, s, q);
    forall d | 0 <= d < cfg.cpus ensures 0 <= o[d] <= cfg.timeSlot { QuantumBound(cfg, s, d, q); }
    SumUpdate(o, c, cfg.timeSlot);
    SumBounds(o[c := cfg.timeSlot], 0, cfg.timeSlot);
    assert cfg.timeSlot * cfg.cpus - cfg.timeSlot == (cfg.cpus - 1) * cfg.timeSlot;
  }

  // ---------------------------------------------------------------------------------------------
  // Preservation
  // ---------------------------------------------------------------------------------------------

  /** A CPU that takes a process finds its queue with budget left; budgets change only by a refill. */
  lemma GetBudget(cfg: Config, s: State, c: nat)
    requires Good(cfg, s) && c < cfg.cpus && s.cpus[c].proc.None?
    ensures var s' := GetProc(cfg, s, c);
            && (s'.ready.slot == s.ready.slot || s'.ready.slot == FullSlots())
            && (s'.cpus[c].pc == NeedSlot ==> s'.ready.slot[PrioOf(cfg, s'.cpus[c].proc.value)] >= 1)
  {
    if Select(s.ready).picked.Some? {
      var i := ServedPrio(s.ready);
      assert Serves(s.ready, Select(s.ready), i) && QueueOk(cfg, s, i);
      SelectOnlyRemoves(s.ready);
    }
  }

  /** Any other action changes a budget only by charging what was used. */
  lemma ChargeBudget(cfg: Config, s: State, c: nat)
    requires Good(cfg, s) && Enabled(cfg, s, CpuStep(c)) && s.cpus[c].proc.Some?
    ensures var s' := CpuAction(cfg, s, c);
            var q := PrioOf(cfg, s.cpus[c].proc.value);
            s'.ready.slot == if ChargesNext(cfg, s, c, q) then s.ready.slot[q := s.ready.slot[q] - s.cpus[c].useTime]
                             else s.ready.slot
  {}

  lemma IdleBudget(cfg: Config, s: State, c: nat)
    requires Good(cfg, s) && Enabled(cfg, s, CpuStep(c)) && s.cpus[c].proc.None?
    ensures var s' := CpuAction(cfg, s, c);
            && (s'.ready.slot == s.ready.slot || s'.ready.slot == FullSlots())
            && (s'.cpus[c].proc.None? || s'.cpus[c].pc == NeedSlot)
  {}

  lemma BusyQuantum(cfg: Config, s: State, c: nat)
    requires Good(cfg, s) && Budgets(cfg, s) && Enabled(cfg, s, CpuStep(c)) && s.cpus[c].proc.Some?
    requires ReadsPositive(cfg, s, CpuStep(c))
    ensures QuantumOk(cfg, CpuAction(cfg, s, c), c)
  {
    assert QuantumOk(cfg, s, c) && CpuOk(s, c);
  }

  lemma CpuQuantum(cfg: Config, s: State, c: nat)
    requires Good(cfg, s) && Budgets(cfg, s) && Enabled(cfg, s, CpuStep(c)) && ReadsPositive(cfg, s, CpuStep(c))
    ensures QuantumOk(cfg, CpuAction(cfg, s, c), c)
  {
    if s.cpus[c].proc.None? { IdleBudget(cfg, s, c); } else { BusyQuantum(cfg, s, c); }
  }

  /** What the CPU holds of a queue: kept, handed over with the charge, or freshly granted from the budget. */
  lemma BusyHolds(cfg: Config, s: State, c: nat, q: nat)
    requires Good(cfg, s) && Budgets(cfg, s) && Enabled(cfg, s, CpuStep(c)) && s.cpus[c].proc.Some?
    ensures var held, held' := Quantum(cfg, s.cpus[c], q), Quantum(cfg, CpuAction(cfg, s, c).cpus[c], q);
            if ChargesNext(cfg, s, c, q) then held' == 0 && s.cpus[c].useTime <= held
            else held' == held || (NeedsSlotOf(cfg, s, c, q)
                                   && held' <= s.ready.slot[PrioOf(cfg, s.cpus[c].proc.value)])
    ensures 0 <= s.cpus[c].useTime || !ChargesNext(cfg, s, c, q)
  {
    hide Places, Served, LoaderOk;
    assert QuantumOk(cfg, s, c) && CpuOk(s, c);
  }

  /** On each queue, budget less quanta only grows, except that a fresh grant is covered by the budget itself. */
  lemma CpuLedger(cfg: Config, s: State, c: nat, q: nat)
    requires Good(cfg, s) && Budgets(cfg, s) && Enabled(cfg, s, CpuStep(c)) && q < MAX_PRIO
    ensures var s' := CpuAction(cfg, s, c);
            var held, held' := Quantum(cfg, s.cpus[c], q), Quantum(cfg, s'.cpus[c], q);
            && s'.ready.slot[q] <= MAX_PRIO - q
            && (s.ready.slot[q] - held <= s'.ready.slot[q] - held' || held' <= s'.ready.slot[q])
  {
    assert DebtOk(cfg, s, q);
    if s.cpus[c].proc.None? {
      IdleBudget(cfg, s, c);
    } else {
      ChargeBudget(cfg, s, c);
      BusyHolds(cfg, s, c, q);
    }
  }

  lemma CpuDebt(cfg: Config, s: State, c: nat, q: nat)
    requires Good(cfg, s) && Budgets(cfg, s) && Enabled(cfg, s, CpuStep(c)) && q < MAX_PRIO
    ensures DebtOk(cfg, CpuAction(cfg, s, c), q)
  {
    var s' := CpuAction(cfg, s, c);
    CpuFrame(cfg, s, c);
    CpuLedger(cfg, s, c, q);
    OthersBound(cfg, s, c, q);
    assert DebtOk(cfg, s, q);
    var o, o' := Quanta(cfg, s, q), Quanta(cfg, s', q);
    assert o' == o[c := o'[c]];
    SumUpdate(o, c, o'[c]);
  }

  lemma NextBudgets(cfg: Config, s: State, e: Event)
    requires Good(cfg, s) && Budgets(cfg, s) && Enabled(cfg, s, e) && ReadsPositive(cfg, s, e)
    ensures Budgets(cfg, Next(cfg, s, e))
  {
    var s' := Next(cfg, s, e);
    forall d | 0 <= d < cfg.cpus ensures QuantumOk(cfg, s', d) {
      assert QuantumOk(cfg, s, d);
      if e.CpuStep? { if d == e.cpu { CpuQuantum(cfg, s, d); } else { CpuFrame(cfg, s, e.cpu); } }
    }
    forall q | 0 <= q < MAX_PRIO ensures DebtOk(cfg, s', q) {
      assert DebtOk(cfg, s, q);
      if e.CpuStep? { CpuDebt(cfg, s, e.cpu, q); } else { assert Quanta(cfg, s', q) == Quanta(cfg, s, q); }
    }
  }

  lemma {:induction false} RunBudgets(cfg: Config, s: State, es: seq<Event>)
    requires Good(cfg, s) && Budgets(cfg, s) && ValidRun(cfg, s, es) && PositiveReads(cfg, s, es)
    ensures Budgets(cfg, After(cfg, s, es))
    decreases |es|
  {
    if es == [] {
    } else {
      NextGood(cfg, s, es[0]);
      NextBudgets(cfg, s, es[0]);
      RunBudgets(cfg, Next(cfg, s, es[0]), es[1..]);
    }
  }

  // ---------------------------------------------------------------------------------------------
  // Pairing
  // ---------------------------------------------------------------------------------------------

  /** A CPU about to call get_slot will read a positive budget. */
  ghost predicate SlotReady(cfg: Config, s: State)
    requires Typed(cfg, s)
  {
    forall c :: 0 <= c < cfg.cpus && s.cpus[c].pc == NeedSlot ==>
      s.ready.slot[PrioOf(cfg, s.cpus[c].proc.value)] >= 1
  }

  /** Pairing protects a CPU that has taken a process and not yet read the budget. */
  lemma NextReady(cfg: Config, s: State, e: Event)
    requires Good(cfg, s) && SlotReady(cfg, s) && Enabled(cfg, s, e) && Paired(cfg, s, e)
    ensures SlotReady(cfg, Next(cfg, s, e))
  {
    hide Inv, Places, Served;
    if e.CpuStep? {
      var c := e.cpu;
      CpuFrame(cfg, s, c);
      if s.cpus[c].proc.Some? {
        ChargeBudget(cfg, s, c);
      } else {
        IdleBudget(cfg, s, c);
        if s.cpus[c].pc in {Loop, Getting} { GetBudget(cfg, s, c); }
      }
      forall d | 0 <= d < cfg.cpus && d != c && s.cpus[d].pc == NeedSlot
        ensures NeedsSlotOf(cfg, s, d, PrioOf(cfg, s.cpus[d].proc.value))
      {}
    }
  }

  lemma {:induction false} PairedReadsPositive(cfg: Config, s: State, es: seq<Event>)
    requires Good(cfg, s) && SlotReady(cfg, s) && ValidRun(cfg, s, es) && PairedRun(cfg, s, es)
    ensures PositiveReads(cfg, s, es) && SlotReady(cfg, After(cfg, s, es))
    decreases |es|
  {
    if es == [] {
    } else {
      NextGood(cfg, s, es[0]);
      NextReady(cfg, s, es[0]);
      PairedReadsPositive(cfg, Next(cfg, s, es[0]), es[1..]);
    }
  }

  lemma {:induction false} OneCpuIsPaired(cfg: Config, s: State, es: seq<Event>)
    requires Typed(cfg, s) && cfg.cpus == 1 && ValidRun(cfg, s, es)
    ensures PairedRun(cfg, s, es)
    decreases |es|
  {
    if es == [] {
    } else {
      OneCpuIsPaired(cfg, Next(cfg, s, es[0]), es[1..]);
    }
  }

  // ---------------------------------------------------------------------------------------------
  // Quanta handed out
  // ---------------------------------------------------------------------------------------------

  /** The CPU is about to start a quantum out of the budget it has read. */
  predicate Starts(u: Cpu) {
    u.pc == Dispatch && u.timeLeft == 0
  }

  /** If this event starts a quantum, the quantum is positive. */
  ghost predicate GrantsPositive(cfg: Config, s: State, e: Event)
    requires Typed(cfg, s) && Enabled(cfg, s, e)
  {
    e.CpuStep? && Starts(s.cpus[e.cpu]) ==> Grant(cfg, s.cpus[e.cpu].remaining) >= 1
  }

  ghost predicate PositiveGrants(cfg: Config, s: State, es: seq<Event>)
    requires Typed(cfg, s) && ValidRun(cfg, s, es)
    decreases |es|
  {
    es != [] ==> GrantsPositive(cfg, s, es[0]) && PositiveGrants(cfg, Next(cfg, s, es[0]), es[1..])
  }

  /** Every quantum read and about to start is positive. */
  ghost predicate PendingPositive(cfg: Config, s: State) {
    forall c :: 0 <= c < |s.cpus| && Starts(s.cpus[c]) ==> Grant(cfg, s.cpus[c].remaining) >= 1
  }

  lemma StepGrants(cfg: Config, s: State, e: Event)
    requires Inv(cfg, s) && Enabled(cfg, s, e) && cfg.timeSlot >= 1
    ensures ReadsPositive(cfg, s, e) && PendingPositive(cfg, s)
            <==> GrantsPositive(cfg, s, e) && PendingPositive(cfg, Next(cfg, s, e))
  {
    var s' := Next(cfg, s, e);
    if e.CpuStep? {
      CpuFrame(cfg, s, e.cpu);
      assert CpuOk(s, e.cpu);
      forall c | 0 <= c < |s.cpus| && c != e.cpu ensures s'.cpus[c] == s.cpus[c] {}
      StepStarts(cfg, s, e.cpu);
    } else {
      assert s'.cpus == s.cpus;
    }
  }

  /** A CPU comes to start a quantum only by reading a budget. */
  lemma StepStarts(cfg: Config, s: State, c: nat)
    requires Inv(cfg, s) && Enabled(cfg, s, CpuStep(c))
    ensures var u, u' := s.cpus[c], CpuAction(cfg, s, c).cpus[c];
            && (Starts(u') <==> u.pc == NeedSlot)
            && (u.pc == NeedSlot ==> u'.remaining == s.ready.slot[PrioOf(cfg, u.proc.value)])
  {
    assert CpuOk(s, c);
  }

  lemma {:induction false} RunGrants(cfg: Config, s: State, es: seq<Event>)
    requires Inv(cfg, s) && ValidRun(cfg, s, es) && cfg.timeSlot >= 1
    ensures PositiveReads(cfg, s, es) && PendingPositive(cfg, s)
            <==> PositiveGrants(cfg, s, es) && PendingPositive(cfg, After(cfg, s, es))
    decreases |es|
  {
    if es == [] {
    } else {
      NextInv(cfg, s, es[0]);
      StepGrants(cfg, s, es[0]);
      RunGrants(cfg, Next(cfg, s, es[0]), es[1..]);
    }
  }

  // ---------------------------------------------------------------------------------------------
  // Main results
  // ---------------------------------------------------------------------------------------------

  /**
    On any schedule, every quantum handed out, started or about to start, is positive exactly if every
    get_slot reads a positive budget.
   */
  lemma QuantaPositiveIffReadsPositive(cfg: Config, es: seq<Event>, s: State)
    requires Reaches(cfg, es, s) && cfg.timeSlot >= 1
    ensures PositiveGrants(cfg, Init(cfg), es) && PendingPositive(cfg, s) <==> PositiveReads(cfg, Init(cfg), es)
  {
    InitGood(cfg);
    RunGrants(cfg, Init(cfg), es);
  }

  /** With get_proc and get_slot paired, every get_slot reads a positive budget. */
  lemma PairingSuffices(cfg: Config, es: seq<Event>, s: State)
    requires Reaches(cfg, es, s) && PairedRun(cfg, Init(cfg), es)
    ensures PositiveReads(cfg, Init(cfg), es)
  {
    InitGood(cfg);
    PairedReadsPositive(cfg, Init(cfg), es);
  }

  /** A queue is overdrawn by at most one time slot for every CPU but one, and never above its weight. */
  lemma DebtIsBounded(cfg: Config, es: seq<Event>, s: State, q: nat)
    requires Reaches(cfg, es, s) && PositiveReads(cfg, Init(cfg), es) && cfg.timeSlot >= 1 && q < MAX_PRIO
    ensures s.ready.slot[q] - Sum(Quanta(cfg, s, q)) >= -((cfg.cpus - 1) * cfg.timeSlot)
    ensures -((cfg.cpus - 1) * cfg.timeSlot) <= s.ready.slot[q] <= MAX_PRIO - q
  {
    InitGood(cfg);
    InitBudgets(cfg);
    RunBudgets(cfg, Init(cfg), es);
    assert DebtOk(cfg, s, q);
    forall c | 0 <= c < cfg.cpus ensures 0 <= Quanta(cfg, s, q)[c] <= cfg.timeSlot { QuantumBound(cfg, s, c, q); }
    SumBounds(Quanta(cfg, s, q), 0, cfg.timeSlot);
  }

  /** With one CPU no budget is ever negative, on any schedule. */
  lemma OneCpuNeverOverdraws(cfg: Config, es: seq<Event>, s: State, q: nat)
    requires Reaches(cfg, es, s) && cfg.cpus == 1 && cfg.timeSlot >= 1 && q < MAX_PRIO
    ensures 0 <= s.ready.slot[q] <= MAX_PRIO - q
    ensures Quantum(cfg, s.cpus[0], q) <= s.ready.slot[q]
  {
    OneCpuIsPaired(cfg, Init(cfg), es);
    PairingSuffices(cfg, es, s);
    DebtIsBounded(cfg, es, s, q);
    assert Quanta(cfg, s, q) == [Quantum(cfg, s.cpus[0], q)];
  }
}
