/**
  One instruction per time slot, and no process freed while the CPU that put it back still uses it.
  Both rest on the barrier: a CPU that has run its process in this slot sleeps until all have ended it.
 */
module OsSlots {

  import opened Mlq
  import opened Os
  import opened OsInvariant
  import opened OsConservation
  import Timer

  /** The CPU has run its process in the current slot and cannot act on it again before the clock moves. */
  ghost predicate Spent(s: State, c: nat) {
    && c < |s.cpus| && c < |s.bar.devs|
    && (s.cpus[c].pc == Ending
        || (s.bar.devs[c].phase == Timer.Waiting && s.bar.devs[c].slots == s.bar.time + 1))
  }

  ghost predicate RunOk(s: State, x: nat)
    requires x < |s.hist.lastRun| && x < |s.hist.place|
  {
    && s.hist.lastRun[x] <= s.bar.time
    && (s.hist.lastRun[x] == s.bar.time ==> s.hist.place[x].InHand? && Spent(s, s.hist.place[x].cpu))
  }

  /** A process put back but not yet charged is queued, turned away, or freshly taken by a CPU still in this slot. */
  ghost predicate ChargeOk(cfg: Config, s: State, c: nat)
    requires Typed(cfg, s) && c < cfg.cpus
  {
    s.cpus[c].pc == Charging ==>
      match s.hist.place[s.cpus[c].proc.value]
      case Queued => true
      case Dropped => true
      case InHand(d) => d < cfg.cpus && (s.cpus[d].pc in {NeedSlot, Dispatch} || Spent(s, d))
      case _ => false
  }

  ghost predicate Slots(cfg: Config, s: State) {
    && Typed(cfg, s)
    && (forall x :: 0 <= x < |cfg.procs| ==> RunOk(s, x))
    && (forall c :: 0 <= c < cfg.cpus ==> ChargeOk(cfg, s, c))
  }

  /** A CPU that is spent stays so, whoever acts, until the clock moves. */
  lemma SpentStays(cfg: Config, s: State, e: Event, c: nat)
    requires Inv(cfg, s) && Enabled(cfg, s, e) && c < cfg.cpus && Spent(s, c)
    requires !(e == Tick && Timer.Advances(s.bar, Timer.Tick))
    ensures Spent(Next(cfg, s, e), c)
  {
    assert Timer.DeviceOk(s.bar, c) && CpuOk(s, c);
    if e.CpuStep? { CpuFrame(cfg, s, e.cpu); }
  }

  /** While some CPU is at work the clock stands still. */
  lemma WorkHoldsClock(cfg: Config, s: State, c: nat)
    requires Inv(cfg, s) && c < cfg.cpus && Awake(s, c)
    ensures !(Enabled(cfg, s, Tick) && Timer.Advances(s.bar, Timer.Tick))
  {
    assert Timer.DeviceOk(s.bar, c);
  }

  lemma TickSlots(cfg: Config, s: State)
    requires Inv(cfg, s) && Slots(cfg, s) && Enabled(cfg, s, Tick)
    ensures Slots(cfg, Next(cfg, s, Tick))
  {
    var s' := Next(cfg, s, Tick);
    forall x | 0 <= x < |cfg.procs| ensures RunOk(s', x) {
      assert RunOk(s, x);
    }
    forall c | 0 <= c < cfg.cpus ensures ChargeOk(cfg, s', c) {
      assert ChargeOk(cfg, s, c) && CpuOk(s, c);
      if s.cpus[c].pc == Charging { WorkHoldsClock(cfg, s, c); }
    }
  }

  /** How one CPU action can move a process: its own one back or away, or the head of a queue to itself. */
  lemma PlaceMoves(cfg: Config, s: State, c: nat, x: nat)
    requires Inv(cfg, s) && Places(cfg, s) && Enabled(cfg, s, CpuStep(c)) && x < |cfg.procs|
    ensures var s' := CpuAction(cfg, s, c);
            || s'.hist.place[x] == s.hist.place[x]
            || (Owns(s.cpus[c], x) && s.cpus[c].pc in {Loop, Freeing}
                && s'.hist.place[x] in if s.cpus[c].pc == Loop then {Queued, Dropped} else {Freed})
            || (s.hist.place[x] == Queued && s'.hist.place[x] == InHand(c) && s'.cpus[c].pc == NeedSlot)
  {
    var u := s.cpus[c];
    if u.pc in {Loop, Getting} && u.proc.None? {
      if Select(s.ready).picked.Some? {
        SelectOnlyRemoves(s.ready);
        assert QueueOk(cfg, s, ServedPrio(s.ready));
      }
    } else if u.pc == Loop {
      assert Owns(u, u.proc.value);
      InsertPlaces(cfg, s, u.proc.value);
    }
  }

  lemma CpuRuns(cfg: Config, s: State, c: nat, x: nat)
    requires Inv(cfg, s) && Places(cfg, s) && Slots(cfg, s) && Enabled(cfg, s, CpuStep(c)) && x < |cfg.procs|
    ensures RunOk(CpuAction(cfg, s, c), x)
  {
    hide QueuesOk, EndsOk, LoaderOk;
    CpuFrame(cfg, s, c);
    CpuRecords(cfg, s, c);
    PlaceMoves(cfg, s, c, x);
    assert RunOk(s, x);
    if s.cpus[c].pc == Dispatch && s.cpus[c].proc == Some(x) {
      assert Owns(s.cpus[c], x);
    } else if s.hist.lastRun[x] == s.bar.time {
      SpentStays(cfg, s, CpuStep(c), s.hist.place[x].cpu);
    }
  }

  /** A process just put back is queued. */
  lemma OwnCharge(cfg: Config, s: State, c: nat)
    requires Inv(cfg, s) && Places(cfg, s) && Enabled(cfg, s, CpuStep(c))
    ensures ChargeOk(cfg, CpuAction(cfg, s, c), c)
  {
    var s' := CpuAction(cfg, s, c);
    if s'.cpus[c].pc == Charging {
      var y := s.cpus[c].proc.value;
      assert s.cpus[c].pc == Loop && s'.cpus[c].proc == Some(y) && Owns(s.cpus[c], y);
      InsertPlaces(cfg, s, y);
    }
  }

  lemma OtherCharge(cfg: Config, s: State, c: nat, d: nat)
    requires Inv(cfg, s) && Places(cfg, s) && Slots(cfg, s) && Enabled(cfg, s, CpuStep(c)) && d < cfg.cpus && d != c
    ensures ChargeOk(cfg, CpuAction(cfg, s, c), d)
  {
    hide GetProc, QueuesOk, EndsOk, LoaderOk;
    CpuFrame(cfg, s, c);
    if s.cpus[d].pc == Charging {
      var y := s.cpus[d].proc.value;
      PlaceMoves(cfg, s, c, y);
      assert ChargeOk(cfg, s, d);
      if s.hist.place[y].InHand? {
        var e := s.hist.place[y].cpu;
        assert Owns(s.cpus[e], y);
        if Spent(s, e) { SpentStays(cfg, s, CpuStep(c), e); }
      }
    }
  }

  lemma LoaderSlots(cfg: Config, s: State)
    requires Inv(cfg, s) && Places(cfg, s) && Slots(cfg, s) && Enabled(cfg, s, LoaderStep)
    ensures Slots(cfg, LoaderAction(cfg, s))
  {
    var s' := LoaderAction(cfg, s);
    if s'.loader.i != s.loader.i { InsertPlaces(cfg, s, s.loader.i); }
    forall x | 0 <= x < |cfg.procs| ensures RunOk(s', x) {
      assert RunOk(s, x);
    }
    forall c | 0 <= c < cfg.cpus ensures ChargeOk(cfg, s', c) {
      assert ChargeOk(cfg, s, c);
    }
  }

  lemma NextSlots(cfg: Config, s: State, e: Event)
    requires Inv(cfg, s) && Places(cfg, s) && Slots(cfg, s) && Enabled(cfg, s, e)
    ensures Slots(cfg, Next(cfg, s, e))
  {
    match e
    case Tick => TickSlots(cfg, s);
    case LoaderStep => LoaderSlots(cfg, s);
    case CpuStep(c) =>
      forall x | 0 <= x < |cfg.procs| ensures RunOk(CpuAction(cfg, s, c), x) { CpuRuns(cfg, s, c, x); }
      forall d | 0 <= d < cfg.cpus ensures ChargeOk(cfg, CpuAction(cfg, s, c), d) {
        if d == c { OwnCharge(cfg, s, c); } else { OtherCharge(cfg, s, c, d); }
      }
    case _ =>
      var s' := Next(cfg, s, e);
      forall c | 0 <= c < cfg.cpus ensures Spent(s, c) ==> Spent(s', c) {
        if Spent(s, c) { SpentStays(cfg, s, e, c); }
      }
      forall x | 0 <= x < |cfg.procs| ensures RunOk(s', x) { assert RunOk(s, x); }
      forall c | 0 <= c < cfg.cpus ensures ChargeOk(cfg, s', c) { assert ChargeOk(cfg, s, c); }
  }
}
