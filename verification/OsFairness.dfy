/** How long a queued process can wait, and how the time between two refills is shared, on any number of CPUs. */
module OsFairness {

  import opened Mlq
  import opened Os
  import opened OsInvariant
  import opened OsConservation
  import opened OsShutdown
  import opened OsBudget
  import opened Sums

  /** The total budget of one cycle: the sum of MAX_PRIO - i over all priorities. */
  const CYCLE: nat := 9870

  ghost function FullFrom(k: nat): seq<int>
    requires k <= MAX_PRIO
  {
    FullSlots()[k..]
  }

  lemma {:induction false} FullSum(k: nat)
    requires k <= MAX_PRIO
    ensures 2 * Sum(FullFrom(k)) == (MAX_PRIO - k) * (MAX_PRIO - k + 1)
    decreases MAX_PRIO - k
  {
    if k == MAX_PRIO {
    } else {
      assert FullFrom(k)[0] == MAX_PRIO - k && FullFrom(k)[1..] == FullFrom(k + 1);
      FullSum(k + 1);
    }
  }

  lemma FullSumIsCycle()
    ensures Sum(FullSlots()) == CYCLE
  {
    FullSum(0);
    assert FullFrom(0) == FullSlots();
  }

  lemma {:induction false} SumMonotone(a: seq<int>, b: seq<int>)
    requires |a| == |b| && forall i :: 0 <= i < |a| ==> a[i] <= b[i]
    ensures Sum(a) <= Sum(b)
    decreases |a|
  {
    if a == [] {
    } else {
      SumMonotone(a[1..], b[1..]);
    }
  }

  // ---------------------------------------------------------------------------------------------
  // Schedules on which every get_slot reads a positive budget
  // ---------------------------------------------------------------------------------------------

  ghost predicate Steady(cfg: Config, s: State) {
    Good(cfg, s) && Budgets(cfg, s)
  }

  lemma NextSteady(cfg: Config, s: State, e: Event)
    requires Steady(cfg, s) && Enabled(cfg, s, e) && ReadsPositive(cfg, s, e)
    ensures Steady(cfg, Next(cfg, s, e))
  {
    NextGood(cfg, s, e);
    NextBudgets(cfg, s, e);
  }

  lemma ReachedIsSteady(cfg: Config, es: seq<Event>, s: State)
    requires Reaches(cfg, es, s) && PositiveReads(cfg, Init(cfg), es) && cfg.timeSlot >= 1
    ensures Steady(cfg, s) && Steady(cfg, Init(cfg))
  {
    ReachedIsGood(cfg, es, s);
    InitGood(cfg);
    InitBudgets(cfg);
    RunBudgets(cfg, Init(cfg), es);
  }

  /** By how much a budget can be overdrawn: one time slot for every CPU but one. */
  function Debt(cfg: Config): int { (cfg.cpus - 1) * cfg.timeSlot }

  lemma SlotsInRange(cfg: Config, s: State, q: nat)
    requires Budgets(cfg, s) && q < MAX_PRIO
    ensures 0 <= Sum(Quanta(cfg, s, q)) && -Debt(cfg) + Sum(Quanta(cfg, s, q)) <= s.ready.slot[q] <= MAX_PRIO - q
    ensures 0 <= Debt(cfg)
  {
    assert DebtOk(cfg, s, q);
    forall c | 0 <= c < cfg.cpus ensures 0 <= Quanta(cfg, s, q)[c] { QuantumBound(cfg, s, c, q); }
    SumNonNegative(Quanta(cfg, s, q));
    DebtNonNegative(cfg.cpus - 1, cfg.timeSlot);
  }

  lemma DebtNonNegative(others: nat, timeSlot: nat)
    ensures 0 <= others * timeSlot
  {}

  /** The process, if any, that this event takes from its ready queue. */
  ghost function Taken(cfg: Config, s: State, e: Event): Option<nat>
    requires Typed(cfg, s) && Enabled(cfg, s, e)
  {
    if e.CpuStep? && s.cpus[e.cpu].proc.None? && s.cpus[e.cpu].pc in {Loop, Getting}
    then Select(s.ready).picked else None
  }

  ghost function Dispatches(cfg: Config, s: State, es: seq<Event>): nat
    requires Typed(cfg, s) && ValidRun(cfg, s, es)
    decreases |es|
  {
    if es == [] then 0
    else (if Taken(cfg, s, es[0]).Some? then 1 else 0) + Dispatches(cfg, Next(cfg, s, es[0]), es[1..])
  }

  ghost predicate NeverTaken(cfg: Config, s: State, es: seq<Event>, x: nat)
    requires Typed(cfg, s) && ValidRun(cfg, s, es)
    decreases |es|
  {
    es != [] ==> Taken(cfg, s, es[0]) != Some(x) && NeverTaken(cfg, Next(cfg, s, es[0]), es[1..], x)
  }

  ghost predicate WaitsAt(s: State, p: nat, k: nat, x: nat) {
    p < |s.ready.queues| && k < |s.ready.queues[p]| && s.ready.queues[p][k] == x
  }

  // ---------------------------------------------------------------------------------------------
  // The waiting measure
  // ---------------------------------------------------------------------------------------------

  /** The CPU has a process whose use of its slot has not been charged yet; the charge will be at least 1. */
  predicate Uncharged(u: Cpu) {
    u.proc.Some? && u.pc != Freeing
  }

  predicate UnchargedOn(cfg: Config, u: Cpu, p: nat) {
    Uncharged(u) && u.proc.value < |cfg.procs| && PrioOf(cfg, u.proc.value) == p
  }

  function Mark(b: bool): int { if b then 1 else 0 }

  ghost function Marks(s: State): (m: seq<int>)
    ensures |m| == |s.cpus| && forall c :: 0 <= c < |m| ==> m[c] == Mark(Uncharged(s.cpus[c]))
  {
    seq(|s.cpus|, c requires 0 <= c < |s.cpus| => Mark(Uncharged(s.cpus[c])))
  }

  ghost function MarksOn(cfg: Config, s: State, p: nat): (m: seq<int>)
    ensures |m| == |s.cpus| && forall c :: 0 <= c < |m| ==> m[c] == Mark(UnchargedOn(cfg, s.cpus[c], p))
  {
    seq(|s.cpus|, c requires 0 <= c < |s.cpus| => Mark(UnchargedOn(cfg, s.cpus[c], p)))
  }

  /** Budget left in this cycle, each charge to come counted as one. */
  ghost function BudgetLeft(s: State): int {
    Sum(s.ready.slot) - Sum(Marks(s))
  }

  /**
    Bounds the takes and refills that can come before the turn of a process at index `k` of queue `p`: two for
    each process before it, one for each charge to come, and one if the queue's share is used up.
   */
  ghost function Turns(cfg: Config, s: State, p: nat, k: nat): int
    requires Typed(cfg, s) && p < MAX_PRIO
  {
    2 * k + Sum(MarksOn(cfg, s, p)) + Mark(s.ready.slot[p] <= 0)
  }

  /** A refill adds less than this to the budget left. */
  function Span(cfg: Config): int { CYCLE + MAX_PRIO * Debt(cfg) }

  ghost function Wait(cfg: Config, s: State, p: nat, k: nat): int
    requires Typed(cfg, s) && p < MAX_PRIO
  {
    Span(cfg) * Turns(cfg, s, p, k) + BudgetLeft(s)
  }

  lemma SumWithin(slot: seq<int>, low: int)
    requires |slot| == MAX_PRIO && forall q :: 0 <= q < MAX_PRIO ==> low <= slot[q] <= MAX_PRIO - q
    ensures low * MAX_PRIO <= Sum(slot) <= CYCLE
  {
    SumMonotone(slot, FullSlots());
    FullSumIsCycle();
    SumBounds(slot, low, MAX_PRIO);
  }

  lemma BudgetLeftBounds(cfg: Config, s: State)
    requires Budgets(cfg, s)
    ensures 0 <= Sum(Marks(s)) <= cfg.cpus && 0 <= Debt(cfg)
    ensures -(MAX_PRIO * Debt(cfg)) <= Sum(s.ready.slot) <= CYCLE
  {
    SlotsInRange(cfg, s, 0);
    forall q | 0 <= q < MAX_PRIO ensures -Debt(cfg) <= s.ready.slot[q] <= MAX_PRIO - q { SlotsInRange(cfg, s, q); }
    SumWithin(s.ready.slot, -Debt(cfg));
    SumBounds(Marks(s), 0, 1);
  }

  lemma TurnsBounds(cfg: Config, s: State, p: nat, k: nat)
    requires Typed(cfg, s) && p < MAX_PRIO
    ensures 2 * k <= Turns(cfg, s, p, k) <= 2 * k + cfg.cpus + 1
  {
    SumBounds(MarksOn(cfg, s, p), 0, 1);
  }

  /** The effect of taking a process on the budgets and on the one queue it comes from. */
  lemma TakeEffect(cfg: Config, s: State, c: nat, p: nat, k: nat, x: nat)
    requires Good(cfg, s) && WaitsAt(s, p, k, x) && c < cfg.cpus && s.cpus[c].proc.None?
    requires Select(s.ready).picked.Some? && Select(s.ready).picked != Some(x)
    ensures var s', q, reset := GetProc(cfg, s, c), ServedPrio(s.ready), Select(s.ready).reset;
            && (q == p ==> k > 0)
            && WaitsAt(s', p, if q == p then k - 1 else k, x)
            && s'.cpus == s.cpus[c := s'.cpus[c]]
            && Uncharged(s'.cpus[c])
            && (forall i :: 0 <= i < MAX_PRIO ==> (UnchargedOn(cfg, s'.cpus[c], i) <==> i == q))
            && s'.ready.slot == (if reset then FullSlots() else s.ready.slot)
            && (reset ==> s.ready.slot[p] <= 0)
  {
    var r, q := Select(s.ready), ServedPrio(s.ready);
    assert Serves(s.ready, r, q) && QueueOk(cfg, s, q);
    SelectOnlyRemoves(s.ready);
    if r.reset { assert !Eligible(s.ready, p); }
  }

  /** What a change of one CPU does to the counts. */
  lemma MarksChange(cfg: Config, s: State, s': State, c: nat, p: nat)
    requires c < |s.cpus| && |s'.cpus| == |s.cpus| && s'.cpus == s.cpus[c := s'.cpus[c]]
    ensures Sum(Marks(s')) == Sum(Marks(s)) - Mark(Uncharged(s.cpus[c])) + Mark(Uncharged(s'.cpus[c]))
    ensures Sum(MarksOn(cfg, s', p)) ==
            Sum(MarksOn(cfg, s, p)) - Mark(UnchargedOn(cfg, s.cpus[c], p)) + Mark(UnchargedOn(cfg, s'.cpus[c], p))
  {
    SumUpdate(Marks(s), c, Mark(Uncharged(s'.cpus[c])));
    assert Marks(s') == Marks(s)[c := Mark(Uncharged(s'.cpus[c]))];
    SumUpdate(MarksOn(cfg, s, p), c, Mark(UnchargedOn(cfg, s'.cpus[c], p)));
    assert MarksOn(cfg, s', p) == MarksOn(cfg, s, p)[c := Mark(UnchargedOn(cfg, s'.cpus[c], p))];
  }

  lemma WaitDrops(span: int, turns: int, turns': int, b: int, b': int)
    requires span >= 0
    requires (turns' <= turns && b' < b) || (turns' <= turns - 1 && b' < b + span)
    ensures span * turns' + b' < span * turns + b
  {
    if turns' <= turns - 1 {
      assert span * turns' <= span * (turns - 1) == span * turns - span;
    } else {
      assert turns' == turns;
    }
  }

  /** Taking another process uses up one unit of budget, or one turn. */
  lemma TakeCounts(cfg: Config, s: State, c: nat, p: nat, k: nat, x: nat) returns (k': nat)
    requires Steady(cfg, s) && WaitsAt(s, p, k, x) && c < cfg.cpus && s.cpus[c].proc.None?
    requires Select(s.ready).picked.Some? && Select(s.ready).picked != Some(x)
    ensures p < MAX_PRIO && WaitsAt(GetProc(cfg, s, c), p, k', x) && Span(cfg) >= 0
    ensures var s' := GetProc(cfg, s, c);
            || (Turns(cfg, s', p, k') <= Turns(cfg, s, p, k) && BudgetLeft(s') < BudgetLeft(s))
            || (Turns(cfg, s', p, k') <= Turns(cfg, s, p, k) - 1 && BudgetLeft(s') < BudgetLeft(s) + Span(cfg))
  {
    var s' := GetProc(cfg, s, c);
    TakeEffect(cfg, s, c, p, k, x);
    MarksChange(cfg, s, s', c, p);
    BudgetLeftBounds(cfg, s);
    FullSumIsCycle();
    k' := if ServedPrio(s.ready) == p then k - 1 else k;
    assert Turns(cfg, s, p, k) == 2 * k + Sum(MarksOn(cfg, s, p)) + Mark(s.ready.slot[p] <= 0);
    assert Turns(cfg, s', p, k') == 2 * k' + Sum(MarksOn(cfg, s', p)) + Mark(s'.ready.slot[p] <= 0);
    hide Steady, Good, Budgets, GetProc, Select, Marks, MarksOn, Debt, WaitsAt, Uncharged, Turns;
  }

  /** So it brings the waiting one closer. */
  lemma TakeShortensWait(cfg: Config, s: State, c: nat, p: nat, k: nat, x: nat) returns (k': nat)
    requires Steady(cfg, s) && WaitsAt(s, p, k, x) && c < cfg.cpus && s.cpus[c].proc.None?
    requires Select(s.ready).picked.Some? && Select(s.ready).picked != Some(x)
    ensures p < MAX_PRIO && WaitsAt(GetProc(cfg, s, c), p, k', x)
    ensures Wait(cfg, GetProc(cfg, s, c), p, k') < Wait(cfg, s, p, k)
  {
    k' := TakeCounts(cfg, s, c, p, k, x);
    var s' := GetProc(cfg, s, c);
    hide Steady, GetProc, Turns, BudgetLeft, Span, WaitsAt;
    WaitDrops(Span(cfg), Turns(cfg, s, p, k), Turns(cfg, s', p, k'), BudgetLeft(s), BudgetLeft(s'));
  }

  lemma SumKept(span: int, turns: int, turns': int, b: int, b': int)
    requires span >= 0 && turns' <= turns && b' <= b
    ensures span * turns' + b' <= span * turns + b
  {
    assert span * turns' <= span * turns;
  }

  /** A charge is at least 1, so it takes from the budget left no less than it was counted for. */
  lemma ChargeKeepsWait(cfg: Config, s: State, c: nat, p: nat, k: nat)
    requires Steady(cfg, s) && p < MAX_PRIO && Enabled(cfg, s, CpuStep(c)) && s.cpus[c].proc.Some?
    ensures Wait(cfg, CpuAction(cfg, s, c), p, k) <= Wait(cfg, s, p, k)
  {
    var s', u, q := CpuAction(cfg, s, c), s.cpus[c], PrioOf(cfg, s.cpus[c].proc.value);
    ChargeBudget(cfg, s, c);
    ChargeMarks(cfg, s, c, p);
    CpuFrame(cfg, s, c);
    MarksChange(cfg, s, s', c, p);
    BudgetLeftBounds(cfg, s);
    hide Steady, Good, Budgets, CpuAction, Marks, MarksOn, Debt;
    if ChargesNext(cfg, s, c, q) { SumUpdate(s.ready.slot, q, s.ready.slot[q] - u.useTime); }
    SumKept(Span(cfg), Turns(cfg, s, p, k), Turns(cfg, s', p, k), BudgetLeft(s), BudgetLeft(s'));
  }

  lemma ChargeMarks(cfg: Config, s: State, c: nat, p: nat)
    requires Steady(cfg, s) && p < MAX_PRIO && Enabled(cfg, s, CpuStep(c)) && s.cpus[c].proc.Some?
    ensures var u, u', q := s.cpus[c], CpuAction(cfg, s, c).cpus[c], PrioOf(cfg, s.cpus[c].proc.value);
            if ChargesNext(cfg, s, c, q) then Uncharged(u) && !Uncharged(u') && u.useTime >= 1
            else (Uncharged(u') <==> Uncharged(u)) && (UnchargedOn(cfg, u', p) <==> UnchargedOn(cfg, u, p))
  {
    hide Places, Served, LoaderOk;
    assert QuantumOk(cfg, s, c) && CpuOk(s, c);
  }

  /** Queues only grow at the tail in an event that takes no process. */
  lemma WaitsOn(cfg: Config, s: State, e: Event, p: nat, k: nat, x: nat)
    requires Typed(cfg, s) && Enabled(cfg, s, e) && WaitsAt(s, p, k, x) && Taken(cfg, s, e).None?
    ensures WaitsAt(Next(cfg, s, e), p, k, x)
  {
    hide CpuAction;
    if e.CpuStep? { CpuWaitsOn(cfg, s, e.cpu, p, k, x); }
  }

  lemma CpuWaitsOn(cfg: Config, s: State, c: nat, p: nat, k: nat, x: nat)
    requires Typed(cfg, s) && Enabled(cfg, s, CpuStep(c)) && WaitsAt(s, p, k, x) && Taken(cfg, s, CpuStep(c)).None?
    ensures WaitsAt(CpuAction(cfg, s, c), p, k, x)
  {}

  /** Events other than a take never lengthen the wait. */
  lemma QuietStepKeepsWait(cfg: Config, s: State, e: Event, p: nat, k: nat)
    requires Steady(cfg, s) && Enabled(cfg, s, e) && p < MAX_PRIO && Taken(cfg, s, e).None?
    ensures Wait(cfg, Next(cfg, s, e), p, k) <= Wait(cfg, s, p, k)
  {
    if e.CpuStep? {
      if s.cpus[e.cpu].proc.Some? { ChargeKeepsWait(cfg, s, e.cpu, p, k); } else { IdleKeepsWait(cfg, s, e.cpu, p, k); }
    } else {
      SameWait(cfg, s, Next(cfg, s, e), p, k);
    }
  }

  lemma SameWait(cfg: Config, s: State, s': State, p: nat, k: nat)
    requires Typed(cfg, s) && Typed(cfg, s') && p < MAX_PRIO && s'.cpus == s.cpus && s'.ready.slot == s.ready.slot
    ensures Wait(cfg, s', p, k) == Wait(cfg, s, p, k)
  {
    assert Marks(s') == Marks(s) && MarksOn(cfg, s', p) == MarksOn(cfg, s, p);
  }

  lemma IdleKeepsWait(cfg: Config, s: State, c: nat, p: nat, k: nat)
    requires Typed(cfg, s) && Enabled(cfg, s, CpuStep(c)) && p < MAX_PRIO
    requires s.cpus[c].proc.None? && Taken(cfg, s, CpuStep(c)).None?
    ensures Wait(cfg, CpuAction(cfg, s, c), p, k) == Wait(cfg, s, p, k)
  {
    var s' := CpuAction(cfg, s, c);
    CpuFrame(cfg, s, c);
    MarksChange(cfg, s, s', c, p);
    assert s'.ready.slot == s.ready.slot && s'.cpus[c].proc.None?;
  }

  /** Along any such schedule the measure drops by at least one with every dispatch of another process. */
  lemma {:induction false} WaitCountsDispatches(cfg: Config, s: State, es: seq<Event>, p: nat, k: nat, x: nat)
    returns (k': nat)
    requires Steady(cfg, s) && ValidRun(cfg, s, es) && PositiveReads(cfg, s, es)
    requires WaitsAt(s, p, k, x) && NeverTaken(cfg, s, es, x)
    ensures p < MAX_PRIO && Steady(cfg, After(cfg, s, es)) && WaitsAt(After(cfg, s, es), p, k', x)
    ensures Dispatches(cfg, s, es) <= Wait(cfg, s, p, k) - Wait(cfg, After(cfg, s, es), p, k')
    decreases |es|
  {
    hide Inv, Places, Served, Budgets, Wait;
    if es == [] {
      k' := k;
    } else {
      var e, s' := es[0], Next(cfg, s, es[0]);
      k' := k;
      if Taken(cfg, s, e).Some? {
        k' := TakeShortensWait(cfg, s, e.cpu, p, k, x);
      } else {
        WaitsOn(cfg, s, e, p, k, x);
        QuietStepKeepsWait(cfg, s, e, p, k);
      }
      NextSteady(cfg, s, e);
      k' := WaitCountsDispatches(cfg, s', es[1..], p, k', x);
    }
  }

  function MostTurns(cfg: Config, k: nat): int { Span(cfg) * (2 * k + cfg.cpus + 1) }

  lemma WaitRange(cfg: Config, s: State, p: nat, k: nat)
    requires Steady(cfg, s) && p < MAX_PRIO
    ensures -(MAX_PRIO * Debt(cfg)) - cfg.cpus <= Wait(cfg, s, p, k) <= MostTurns(cfg, k) + CYCLE
  {
    BudgetLeftBounds(cfg, s);
    TurnsBounds(cfg, s, p, k);
    assert -(MAX_PRIO * Debt(cfg)) - cfg.cpus <= BudgetLeft(s) <= CYCLE;
    hide Steady, Turns, Debt, BudgetLeft;
    Scaled(Span(cfg), Turns(cfg, s, p, k), 2 * k + cfg.cpus + 1);
  }

  lemma Scaled(span: int, turns: int, most: int)
    requires 0 <= span && 0 <= turns <= most
    ensures 0 <= span * turns <= span * most
  {}

  /**
    Bounded waiting on any number of CPUs: while every get_slot reads a positive budget, and whatever is
    loaded meanwhile, a process at index `k` of its queue is taken within this many dispatches.
   */
  function WaitBound(cfg: Config, k: nat): int {
    MostTurns(cfg, k) + Span(cfg) + cfg.cpus
  }

  lemma BoundedWaiting(cfg: Config, es: seq<Event>, s: State, later: seq<Event>, p: nat, k: nat, x: nat)
    requires Reaches(cfg, es, s) && PositiveReads(cfg, Init(cfg), es) && cfg.timeSlot >= 1
    requires WaitsAt(s, p, k, x) && ValidRun(cfg, s, later) && PositiveReads(cfg, s, later)
    requires Dispatches(cfg, s, later) > WaitBound(cfg, k)
    ensures !NeverTaken(cfg, s, later, x)
  {
    ReachedIsSteady(cfg, es, s);
    hide Steady, Reaches, WaitBound;
    if NeverTaken(cfg, s, later, x) { DispatchesBounded(cfg, s, later, p, k, x); }
  }

  lemma DispatchesBounded(cfg: Config, s: State, later: seq<Event>, p: nat, k: nat, x: nat)
    requires Steady(cfg, s) && ValidRun(cfg, s, later) && PositiveReads(cfg, s, later)
    requires WaitsAt(s, p, k, x) && NeverTaken(cfg, s, later, x)
    ensures Dispatches(cfg, s, later) <= WaitBound(cfg, k)
  {
    var k' := WaitCountsDispatches(cfg, s, later, p, k, x);
    WaitRange(cfg, s, p, k);
    WaitRange(cfg, After(cfg, s, later), p, k');
    hide Steady, Wait, Debt, MostTurns;
  }

  // ---------------------------------------------------------------------------------------------
  // One CPU
  // ---------------------------------------------------------------------------------------------

  ghost predicate Single(cfg: Config, s: State) {
    Steady(cfg, s) && SlotReady(cfg, s) && cfg.cpus == 1
  }

  /** On one CPU every schedule is of that kind. */
  lemma OneCpuIsSteady(cfg: Config, s: State, es: seq<Event>)
    requires Single(cfg, s) && ValidRun(cfg, s, es)
    ensures PositiveReads(cfg, s, es) && Single(cfg, After(cfg, s, es))
  {
    OneCpuIsPaired(cfg, s, es);
    PairedReadsPositive(cfg, s, es);
    RunBudgets(cfg, s, es);
    RunGood(cfg, s, es);
  }

  lemma ReachedIsSingle(cfg: Config, es: seq<Event>, s: State)
    requires Reaches(cfg, es, s) && cfg.cpus == 1 && cfg.timeSlot >= 1
    ensures Single(cfg, s) && PositiveReads(cfg, Init(cfg), es)
  {
    InitGood(cfg);
    InitBudgets(cfg);
    OneCpuIsSteady(cfg, Init(cfg), es);
  }

  /** A process that will be charged has left its queue some budget for the charge. */
  lemma ChargeIsCovered(cfg: Config, s: State, q: nat)
    requires Single(cfg, s) && q < MAX_PRIO
    ensures Debt(cfg) == 0 && 0 <= s.ready.slot[q] <= MAX_PRIO - q
    ensures UnchargedOn(cfg, s.cpus[0], q) ==> 1 <= s.ready.slot[q]
  {
    SlotsInRange(cfg, s, q);
    assert QuantumOk(cfg, s, 0) && (cfg.cpus - 1) * cfg.timeSlot == 0;
    var h := Quantum(cfg, s.cpus[0], q);
    assert Quanta(cfg, s, q) == [h] && Sum([h]) == h;
  }

  lemma OneCpuWait(cfg: Config, s: State, p: nat, k: nat)
    requires Single(cfg, s) && p < MAX_PRIO
    ensures 0 <= Wait(cfg, s, p, k) < (k + 1) * 2 * CYCLE
  {
    var slot, u := s.ready.slot, s.cpus[0];
    forall q | 0 <= q < MAX_PRIO ensures 0 <= slot[q] <= MAX_PRIO - q { ChargeIsCovered(cfg, s, q); }
    ChargeIsCovered(cfg, s, p);
    SumWithin(slot, 0);
    assert Sum(Marks(s)) == Mark(Uncharged(u)) by { assert Marks(s) == [Mark(Uncharged(u))]; }
    assert Sum(MarksOn(cfg, s, p)) == Mark(UnchargedOn(cfg, u, p)) by {
      assert MarksOn(cfg, s, p) == [Mark(UnchargedOn(cfg, u, p))];
    }
    assert Span(cfg) == CYCLE;
    if Uncharged(u) {
      var q := PrioOf(cfg, u.proc.value);
      ChargeIsCovered(cfg, s, q);
      SumUpdate(slot, q, 0);
      SumWithin(slot[q := 0], 0);
    } else if slot[p] <= 0 {
      SumUpdate(slot, p, MAX_PRIO - p);
      SumWithin(slot[p := MAX_PRIO - p], 0);
    }
  }

  /** On one CPU it is taken within (k + 1) * 2 * CYCLE dispatches, on any schedule. */
  lemma BoundedWaitingOnOneCpu(cfg: Config, es: seq<Event>, s: State, later: seq<Event>, p: nat, k: nat, x: nat)
    requires Reaches(cfg, es, s) && cfg.cpus == 1 && cfg.timeSlot >= 1
    requires WaitsAt(s, p, k, x) && ValidRun(cfg, s, later)
    requires Dispatches(cfg, s, later) >= (k + 1) * 2 * CYCLE
    ensures !NeverTaken(cfg, s, later, x)
  {
    ReachedIsSingle(cfg, es, s);
    OneCpuIsSteady(cfg, s, later);
    if NeverTaken(cfg, s, later, x) {
      var k' := WaitCountsDispatches(cfg, s, later, p, k, x);
      OneCpuWait(cfg, s, p, k);
      OneCpuWait(cfg, After(cfg, s, later), p, k');
    }
  }

  // ---------------------------------------------------------------------------------------------
  // Shares of a cycle
  // ---------------------------------------------------------------------------------------------

  /** Time units a CPU has used out of queue `q` and not yet been charged. */
  function Used(cfg: Config, u: Cpu, q: nat): int {
    if UnchargedOn(cfg, u, q) && u.pc != NeedSlot && !(u.pc == Dispatch && u.timeLeft == 0) then u.useTime else 0
  }

  ghost function Unpaid(cfg: Config, s: State, q: nat): (o: seq<int>)
    ensures |o| == |s.cpus| && forall c :: 0 <= c < |o| ==> o[c] == Used(cfg, s.cpus[c], q)
  {
    seq(|s.cpus|, c requires 0 <= c < |s.cpus| => Used(cfg, s.cpus[c], q))
  }

  /** What a queue has used since the refill and what is left of its budget, less what is still unpaid. */
  ghost function Balance(cfg: Config, s: State, q: nat): int
    requires Typed(cfg, s) && q < MAX_PRIO
  {
    s.ready.slot[q] + s.hist.consumed[q] - Sum(Unpaid(cfg, s, q))
  }

  /** The balance is the queue's weight, less at most what the other CPUs had not paid at the refill. */
  ghost predicate BalanceOk(cfg: Config, s: State, q: nat)
    requires Typed(cfg, s) && q < MAX_PRIO
  {
    MAX_PRIO - q - Debt(cfg) <= Balance(cfg, s, q) <= MAX_PRIO - q
  }

  lemma UnpaidBounds(cfg: Config, s: State, q: nat)
    requires Budgets(cfg, s)
    ensures 0 <= Sum(Unpaid(cfg, s, q)) <= Sum(Quanta(cfg, s, q))
  {
    forall c | 0 <= c < cfg.cpus ensures 0 <= Unpaid(cfg, s, q)[c] <= Quanta(cfg, s, q)[c] {
      assert QuantumOk(cfg, s, c);
    }
    SumBounds(Zero(cfg.cpus), 0, 0);
    SumMonotone(Zero(cfg.cpus), Unpaid(cfg, s, q));
    SumMonotone(Unpaid(cfg, s, q), Quanta(cfg, s, q));
  }

  function Zero(n: nat): (z: seq<int>)
    ensures |z| == n && forall i :: 0 <= i < n ==> z[i] == 0
  {
    seq(n, _ => 0)
  }

  lemma TakeBalance(cfg: Config, s: State, c: nat, q: nat)
    requires Steady(cfg, s) && c < cfg.cpus && q < MAX_PRIO && s.cpus[c].proc.None? && BalanceOk(cfg, s, q)
    ensures BalanceOk(cfg, GetProc(cfg, s, c), q)
  {
    var s' := GetProc(cfg, s, c);
    TakeUnpaid(cfg, s, c, q);
    UnpaidBounds(cfg, s, q);
    OthersBound(cfg, s, c, q);
    hide Good, Budgets, Quanta, Unpaid, GetProc;
  }

  /** Taking a process pays nothing; the budget and what was used stay, or both start afresh. */
  lemma TakeUnpaid(cfg: Config, s: State, c: nat, q: nat)
    requires Typed(cfg, s) && c < cfg.cpus && q < MAX_PRIO && s.cpus[c].proc.None?
    ensures var s' := GetProc(cfg, s, c);
            && Unpaid(cfg, s', q) == Unpaid(cfg, s, q) && Quantum(cfg, s.cpus[c], q) == 0
            && ((s'.ready.slot[q] == s.ready.slot[q] && s'.hist.consumed[q] == s.hist.consumed[q])
                || (s'.ready.slot[q] == MAX_PRIO - q && s'.hist.consumed[q] == 0))
  {
    var s' := GetProc(cfg, s, c);
    assert s'.cpus == s.cpus[c := s'.cpus[c]];
    assert forall d :: 0 <= d < |s.cpus| ==> Used(cfg, s'.cpus[d], q) == Used(cfg, s.cpus[d], q);
  }

  lemma BusyBalance(cfg: Config, s: State, c: nat, q: nat)
    requires Steady(cfg, s) && q < MAX_PRIO && Enabled(cfg, s, CpuStep(c)) && s.cpus[c].proc.Some?
    ensures Balance(cfg, CpuAction(cfg, s, c), q) == Balance(cfg, s, q)
  {
    var s' := CpuAction(cfg, s, c);
    BusyUse(cfg, s, c, q);
    CpuFrame(cfg, s, c);
    hide Steady, CpuAction, Used;
    SumUpdate(Unpaid(cfg, s, q), c, Used(cfg, s'.cpus[c], q));
    assert Unpaid(cfg, s', q) == Unpaid(cfg, s, q)[c := Used(cfg, s'.cpus[c], q)];
  }

  lemma BusyUse(cfg: Config, s: State, c: nat, q: nat)
    requires Steady(cfg, s) && q < MAX_PRIO && Enabled(cfg, s, CpuStep(c)) && s.cpus[c].proc.Some?
    ensures var s' := CpuAction(cfg, s, c);
            s'.ready.slot[q] + s'.hist.consumed[q] - Used(cfg, s'.cpus[c], q) ==
            s.ready.slot[q] + s.hist.consumed[q] - Used(cfg, s.cpus[c], q)
  {
    hide Places, Served, LoaderOk;
    ChargeBudget(cfg, s, c);
    assert CpuOk(s, c);
  }

  lemma NextBalance(cfg: Config, s: State, e: Event, q: nat)
    requires Steady(cfg, s) && Enabled(cfg, s, e) && q < MAX_PRIO && BalanceOk(cfg, s, q)
    ensures BalanceOk(cfg, Next(cfg, s, e), q)
  {
    if e.CpuStep? {
      var c := e.cpu;
      if s.cpus[c].proc.Some? { BusyBalance(cfg, s, c, q); }
      else if s.cpus[c].pc in {Loop, Getting} { TakeBalance(cfg, s, c, q); }
      else {
        assert Unpaid(cfg, CpuAction(cfg, s, c), q) == Unpaid(cfg, s, q);
      }
    } else {
      assert Unpaid(cfg, Next(cfg, s, e), q) == Unpaid(cfg, s, q);
    }
  }

  lemma {:induction false} RunBalance(cfg: Config, s: State, es: seq<Event>, q: nat)
    requires Steady(cfg, s) && ValidRun(cfg, s, es) && PositiveReads(cfg, s, es) && q < MAX_PRIO && BalanceOk(cfg, s, q)
    ensures BalanceOk(cfg, After(cfg, s, es), q)
    decreases |es|
  {
    if es == [] {
    } else {
      NextSteady(cfg, s, es[0]);
      NextBalance(cfg, s, es[0], q);
      RunBalance(cfg, Next(cfg, s, es[0]), es[1..], q);
    }
  }

  /**
    Since the last refill queue `q` has used at most its weight and one time slot for every CPU but one; when
    the next refill comes, it has used its weight less at most as much, if any process is still queued there.
   */
  lemma WeightedCycle(cfg: Config, es: seq<Event>, s: State, q: nat)
    requires Reaches(cfg, es, s) && PositiveReads(cfg, Init(cfg), es) && cfg.timeSlot >= 1 && q < MAX_PRIO
    ensures s.hist.consumed[q] <= MAX_PRIO - q + (cfg.cpus - 1) * cfg.timeSlot
    ensures Select(s.ready).reset && s.ready.queues[q] != [] ==>
              MAX_PRIO - q - (cfg.cpus - 1) * cfg.timeSlot <= s.hist.consumed[q]
  {
    ReachedIsSteady(cfg, es, s);
    SlotsInRange(cfg, Init(cfg), q);
    SumBounds(Unpaid(cfg, Init(cfg), q), 0, 0);
    RunBalance(cfg, Init(cfg), es, q);
    SlotsInRange(cfg, s, q);
    UnpaidBounds(cfg, s, q);
    if Select(s.ready).reset {
      assert Serves(s.ready, Select(s.ready), ServedPrio(s.ready));
      assert !Eligible(s.ready, q);
    }
  }

  /** On one CPU, on any schedule, it has then used exactly its weight. */
  lemma WeightedCycleOnOneCpu(cfg: Config, es: seq<Event>, s: State, q: nat)
    requires Reaches(cfg, es, s) && cfg.cpus == 1 && cfg.timeSlot >= 1 && q < MAX_PRIO
    ensures s.hist.consumed[q] <= MAX_PRIO - q
    ensures Select(s.ready).reset && s.ready.queues[q] != [] ==> s.hist.consumed[q] == MAX_PRIO - q
  {
    ReachedIsSingle(cfg, es, s);
    WeightedCycle(cfg, es, s, q);
    assert (cfg.cpus - 1) * cfg.timeSlot == 0;
  }
}
