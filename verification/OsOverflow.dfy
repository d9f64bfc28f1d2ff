/**
  Queues that overflow: when one priority is given more long processes than its queue and the CPUs can
  hold, every complete schedule loses some of them.
 */
module OsOverflow {

  import opened Mlq
  import opened Os
  import opened OsInvariant
  import opened OsConservation
  import opened OsSlots
  import opened OsShutdown
  import OsTermination
  import Timer

  /** More processes of priority `q`, all loaded at once, than fit, each longer than the loading takes. */
  ghost predicate Crowded(cfg: Config, q: nat) {
    && ValidConfig(cfg) && q < MAX_PRIO && |cfg.procs| > MAX_QUEUE_SIZE + cfg.cpus
    && forall x :: 0 <= x < |cfg.procs| ==>
         cfg.procs[x].start == 0 && cfg.procs[x].prio == q && cfg.procs[x].size > |cfg.procs|
  }

  // ---------------------------------------------------------------------------------------------
  // Counting
  // ---------------------------------------------------------------------------------------------

  lemma {:induction false} ElementsBound(s: seq<nat>, a: set<nat>)
    requires forall x :: x in a ==> x in s
    ensures |a| <= |s|
    decreases |s|
  {
    if s == [] {
      assert a == {};
    } else {
      ElementsBound(s[1..], a - {s[0]});
    }
  }

  lemma {:induction false} Below(n: nat) returns (a: set<nat>)
    ensures |a| == n && forall x: nat :: x in a <==> x < n
  {
    if n == 0 {
      a := {};
    } else {
      a := Below(n - 1);
      a := a + {n - 1};
    }
  }

  /** What the CPUs own; processes beyond the configuration stand for nothing. */
  ghost function Hands(cfg: Config, s: State): (h: seq<nat>)
    requires Typed(cfg, s)
    ensures |h| == cfg.cpus
    ensures forall c :: 0 <= c < cfg.cpus && s.cpus[c].proc.Some? ==> h[c] == s.cpus[c].proc.value
  {
    seq(cfg.cpus, c requires 0 <= c < cfg.cpus => if s.cpus[c].proc.Some? then s.cpus[c].proc.value else 0)
  }

  ghost predicate SomeDropped(s: State) {
    exists x :: 0 <= x < |s.hist.place| && s.hist.place[x] == Dropped
  }

  /** All loaded, none finished: the queue and the CPUs cannot hold them all. */
  lemma SomeMustGo(cfg: Config, s: State, q: nat)
    requires Crowded(cfg, q) && Places(cfg, s) && s.loader.i == |cfg.procs| && |s.ready.queues[q]| <= MAX_QUEUE_SIZE
    requires forall x :: 0 <= x < |cfg.procs| ==> s.hist.place[x] != Freed
    ensures SomeDropped(s)
  {
    if !SomeDropped(s) {
      var t := s.ready.queues[q] + Hands(cfg, s);
      var a := Below(|cfg.procs|);
      forall x | x in a ensures x in t {
        assert QueueOk(cfg, s, q);
        match s.hist.place[x]
        case Queued => assert x in s.ready.queues[q];
        case InHand(c) => assert Owns(s.cpus[c], x) && Hands(cfg, s)[c] == x;
        case _ =>
      }
      ElementsBound(t, a);
    }
  }

  // ---------------------------------------------------------------------------------------------
  // What every step keeps
  // ---------------------------------------------------------------------------------------------

  /** A process has run at most once in each slot up to its last. */
  ghost predicate PcOk(s: State, x: nat)
    requires x < |s.pcs| && x < |s.hist.lastRun|
  {
    -1 <= s.hist.lastRun[x] && s.pcs[x] <= s.hist.lastRun[x] + 1
  }

  /** The loader adds one process in each slot until it has added them all. */
  ghost predicate Pace(cfg: Config, s: State)
    requires Typed(cfg, s)
  {
    !s.done ==> s.bar.devs[cfg.cpus].slots + (if s.loader.pc == Added then 1 else 0) == s.loader.i
  }

  ghost predicate Crowd(cfg: Config, s: State, q: nat) {
    && Crowded(cfg, q) && Good(cfg, s) && Pace(cfg, s)
    && |s.ready.queues[q]| <= MAX_QUEUE_SIZE
    && (forall x :: 0 <= x < |cfg.procs| ==> PcOk(s, x))
    && (s.loader.i == |cfg.procs| ==> SomeDropped(s))
  }

  lemma LastRunMoves(cfg: Config, s: State, c: nat)
    requires Typed(cfg, s) && Enabled(cfg, s, CpuStep(c))
    ensures CpuAction(cfg, s, c).hist.lastRun ==
            if s.cpus[c].pc == Dispatch then s.hist.lastRun[s.cpus[c].proc.value := s.bar.time] else s.hist.lastRun
  {}

  lemma NextPc(cfg: Config, s: State, e: Event, x: nat)
    requires Good(cfg, s) && Enabled(cfg, s, e) && x < |cfg.procs| && PcOk(s, x)
    ensures PcOk(Next(cfg, s, e), x)
  {
    if e.CpuStep? {
      hide CpuAction, Places, Slots, Served;
      LastRunMoves(cfg, s, e.cpu);
      CpuMovesPc(cfg, s, e.cpu);
      if AboutToRun(cfg, s, e.cpu, x) { RunIsNew(cfg, s, e.cpu, x); }
    }
  }

  lemma NextPace(cfg: Config, s: State, e: Event)
    requires (forall x :: 0 <= x < |cfg.procs| ==> cfg.procs[x].start == 0)
    requires Inv(cfg, s) && Enabled(cfg, s, e) && Pace(cfg, s)
    ensures Pace(cfg, Next(cfg, s, e))
  {
    if e.CpuStep? { CpuFrame(cfg, s, e.cpu); }
  }

  lemma GetShort(cfg: Config, s: State, c: nat, q: nat)
    requires Typed(cfg, s) && c < |s.cpus| && q < MAX_PRIO
    ensures |GetProc(cfg, s, c).ready.queues[q]| <= |s.ready.queues[q]|
  {
    if Select(s.ready).picked.Some? { assert Serves(s.ready, Select(s.ready), ServedPrio(s.ready)); }
  }

  lemma InsertShort(cfg: Config, s: State, x: nat, q: nat)
    requires Typed(cfg, s) && x < |cfg.procs| && q < MAX_PRIO && |s.ready.queues[q]| <= MAX_QUEUE_SIZE
    ensures |Insert(cfg, s, x).ready.queues[q]| <= MAX_QUEUE_SIZE
  {}

  lemma NextShort(cfg: Config, s: State, e: Event, q: nat)
    requires Typed(cfg, s) && Enabled(cfg, s, e) && q < MAX_PRIO && |s.ready.queues[q]| <= MAX_QUEUE_SIZE
    ensures |Next(cfg, s, e).ready.queues[q]| <= MAX_QUEUE_SIZE
  {
    hide Insert, GetProc;
    match e
    case CpuStep(c) =>
      GetShort(cfg, s, c, q);
      if s.cpus[c].proc.Some? { InsertShort(cfg, s, s.cpus[c].proc.value, q); }
    case LoaderStep =>
      if s.loader.i < |cfg.procs| { InsertShort(cfg, s, s.loader.i, q); }
    case _ =>
  }

  /** A process turned away is gone for good. */
  lemma DroppedStays(cfg: Config, s: State, e: Event, x: nat)
    requires Good(cfg, s) && Enabled(cfg, s, e) && x < |cfg.procs| && s.hist.place[x] == Dropped
    ensures Next(cfg, s, e).hist.place[x] == Dropped
  {
    if e.CpuStep? { PlaceMoves(cfg, s, e.cpu, x); }
  }

  lemma LastLoad(cfg: Config, s: State, e: Event, q: nat)
    requires Crowd(cfg, s, q) && Enabled(cfg, s, e) && s.loader.i < |cfg.procs|
    requires Good(cfg, Next(cfg, s, e)) && Next(cfg, s, e).loader.i == |cfg.procs|
    ensures SomeDropped(Next(cfg, s, e))
  {
    var s' := Next(cfg, s, e);
    NextShort(cfg, s, e, q);
    assert Timer.DeviceOk(s.bar, cfg.cpus);
    forall x | 0 <= x < |cfg.procs| ensures s'.hist.place[x] != Freed {
      assert PcOk(s, x) && RunOk(s, x);
    }
    SomeMustGo(cfg, s', q);
  }

  lemma NextCrowd(cfg: Config, s: State, e: Event, q: nat)
    requires Crowd(cfg, s, q) && Enabled(cfg, s, e)
    ensures Crowd(cfg, Next(cfg, s, e), q)
  {
    NextGood(cfg, s, e);
    NextPace(cfg, s, e);
    NextShort(cfg, s, e, q);
    forall x | 0 <= x < |cfg.procs| ensures PcOk(Next(cfg, s, e), x) { NextPc(cfg, s, e, x); }
    if Next(cfg, s, e).loader.i == |cfg.procs| {
      if s.loader.i < |cfg.procs| {
        LastLoad(cfg, s, e, q);
      } else {
        var x :| 0 <= x < |s.hist.place| && s.hist.place[x] == Dropped;
        DroppedStays(cfg, s, e, x);
      }
    }
  }

  lemma {:induction false} RunCrowd(cfg: Config, s: State, es: seq<Event>, q: nat)
    requires Crowd(cfg, s, q) && ValidRun(cfg, s, es)
    ensures Crowd(cfg, After(cfg, s, es), q)
    decreases |es|
  {
    if es == [] {
    } else {
      NextCrowd(cfg, s, es[0], q);
      RunCrowd(cfg, Next(cfg, s, es[0]), es[1..], q);
    }
  }

  /**
    Every schedule of a crowded configuration that has loaded all processes has lost one of them, and so
    has every schedule that can go no further.
   */
  lemma CrowdedConfigurationsLoseWork(cfg: Config, es: seq<Event>, s: State, q: nat)
    requires Crowded(cfg, q) && Reaches(cfg, es, s)
    ensures s.loader.i == |cfg.procs| ==> SomeDropped(s)
    ensures (forall e :: !Enabled(cfg, s, e)) ==> SomeDropped(s)
  {
    InitGood(cfg);
    RunCrowd(cfg, Init(cfg), es, q);
    if forall e :: !Enabled(cfg, s, e) {
      OsTermination.EveryRunFinishesTheWork(cfg, es, s);
      assert s.bar.devs[cfg.cpus].phase == Timer.Finished;
    }
  }
}
