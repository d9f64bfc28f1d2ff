/**
  Conservation: on every schedule each loaded process is in exactly one place, or was turned away by a
  full queue, which cannot happen when no priority is given more processes than a queue can hold.
 */
module OsConservation {

  import opened Mlq
  import opened Seqs
  import opened Os
  import opened OsInvariant

  ghost function AtPrio(cfg: Config, q: nat): set<nat> {
    set x: nat | x < |cfg.procs| && cfg.procs[x].prio == q
  }

  /** A process with its own priority always finds room in its queue. */
  ghost predicate FitsQueues(cfg: Config) {
    forall q :: 0 <= q < MAX_PRIO ==> |AtPrio(cfg, q)| <= MAX_QUEUE_SIZE
  }

  /** A CPU owns its process until it has put it back or freed it. */
  predicate Owns(u: Cpu, x: nat) {
    u.proc == Some(x) && u.pc != Charging
  }

  ghost predicate QueueOk(cfg: Config, s: State, q: nat)
    requires Typed(cfg, s) && q < MAX_PRIO
  {
    && NoDup(s.ready.queues[q])
    && forall x: nat :: x in s.ready.queues[q] <==>
                        x < |cfg.procs| && s.hist.place[x] == Queued && PrioOf(cfg, x) == q
  }

  ghost predicate QueuesOk(cfg: Config, s: State)
    requires Typed(cfg, s)
  {
    forall q :: 0 <= q < MAX_PRIO ==> QueueOk(cfg, s, q)
  }

  ghost predicate HandsOk(cfg: Config, s: State)
    requires Typed(cfg, s)
  {
    && (forall c, x :: 0 <= c < cfg.cpus && 0 <= x < |cfg.procs| ==>
                         (Owns(s.cpus[c], x) <==> s.hist.place[x] == InHand(c)))
    && (forall x :: 0 <= x < |cfg.procs| && s.hist.place[x].InHand? ==> s.hist.place[x].cpu < cfg.cpus)
  }

  ghost predicate EndsOk(cfg: Config, s: State)
    requires Typed(cfg, s)
  {
    && (forall x :: 0 <= x < |cfg.procs| ==> (s.hist.place[x].Unloaded? <==> s.loader.i <= x))
    && (FitsQueues(cfg) ==> forall x :: 0 <= x < |cfg.procs| ==> !s.hist.place[x].Dropped?)
    && (forall x :: 0 <= x < |cfg.procs| && s.hist.place[x].Freed? ==> s.pcs[x] == cfg.procs[x].size)
    && (forall c :: 0 <= c < cfg.cpus && s.cpus[c].pc == Freeing ==>
                      s.pcs[s.cpus[c].proc.value] == cfg.procs[s.cpus[c].proc.value].size)
  }

  ghost predicate Places(cfg: Config, s: State) {
    && Typed(cfg, s)
    && QueuesOk(cfg, s) && HandsOk(cfg, s) && EndsOk(cfg, s)
  }

  /** An insertion loses the process exactly when its queue already holds the maximum. */
  lemma InsertLosesIffFull(cfg: Config, s: State, x: nat)
    requires Typed(cfg, s) && x < |cfg.procs| && x !in s.ready.queues[PrioOf(cfg, x)]
    ensures var q, s' := s.ready.queues[PrioOf(cfg, x)], Insert(cfg, s, x);
            && (s'.hist.place[x] == Dropped <==> |q| >= MAX_QUEUE_SIZE)
            && s'.ready.queues[PrioOf(cfg, x)] == if |q| >= MAX_QUEUE_SIZE then q else q + [x]
  {}

  /** A process not in its queue is never turned away by it. */
  lemma RoomToInsert(cfg: Config, s: State, x: nat)
    requires Places(cfg, s) && FitsQueues(cfg) && x < |cfg.procs| && s.hist.place[x] != Queued
    ensures var q := s.ready.queues[PrioOf(cfg, x)]; Enqueue(q, x) == q + [x]
  {
    var q := s.ready.queues[PrioOf(cfg, x)];
    var a := AtPrio(cfg, PrioOf(cfg, x));
    assert QueueOk(cfg, s, PrioOf(cfg, x));
    NoDupBound(q, a - {x});
    assert x in a;
  }

  lemma InsertPlaces(cfg: Config, s: State, x: nat)
    requires Places(cfg, s) && x < |cfg.procs| && s.hist.place[x] != Queued
    ensures QueuesOk(cfg, Insert(cfg, s, x))
    ensures Insert(cfg, s, x).hist.place == s.hist.place[x := Insert(cfg, s, x).hist.place[x]]
    ensures Insert(cfg, s, x).hist.place[x] in {Queued, Dropped}
    ensures FitsQueues(cfg) ==> Insert(cfg, s, x).hist.place[x] == Queued
  {
    var s', p := Insert(cfg, s, x), PrioOf(cfg, x);
    if FitsQueues(cfg) { RoomToInsert(cfg, s, x); }
    assert QueueOk(cfg, s, p);
    InsertLosesIffFull(cfg, s, x);
    forall q | 0 <= q < MAX_PRIO ensures QueueOk(cfg, s', q) {
      assert QueueOk(cfg, s, q);
    }
  }

  lemma GetQueues(cfg: Config, s: State, c: nat)
    requires Places(cfg, s) && c < cfg.cpus
    ensures QueuesOk(cfg, GetProc(cfg, s, c))
  {
    var s' := GetProc(cfg, s, c);
    if Select(s.ready).picked.None? {
      assert forall q :: 0 <= q < MAX_PRIO && QueueOk(cfg, s, q) ==> QueueOk(cfg, s', q);
    } else {
      var i, x := ServedPrio(s.ready), Select(s.ready).picked.value;
      assert Serves(s.ready, Select(s.ready), i);
      assert QueueOk(cfg, s, i);
      forall q | 0 <= q < MAX_PRIO ensures QueueOk(cfg, s', q) {
        assert QueueOk(cfg, s, q);
        if q == i { TailNoDup(s.ready.queues[i]); }
      }
    }
  }

  lemma GetPlaces(cfg: Config, s: State, c: nat)
    requires Places(cfg, s) && c < cfg.cpus && s.cpus[c].proc.None?
    ensures Places(cfg, GetProc(cfg, s, c))
  {
    GetQueues(cfg, s, c);
    if Select(s.ready).picked.Some? {
      SelectOnlyRemoves(s.ready);
      assert QueueOk(cfg, s, ServedPrio(s.ready));
    }
  }

  /** Actions that move no process keep every place. */
  lemma SamePlaces(cfg: Config, s: State, s': State)
    requires Places(cfg, s) && Typed(cfg, s')
    requires s'.ready.queues == s.ready.queues && s'.hist.place == s.hist.place && s'.loader.i == s.loader.i
    requires forall c, x: nat :: 0 <= c < cfg.cpus ==> (Owns(s'.cpus[c], x) <==> Owns(s.cpus[c], x))
    requires forall x :: 0 <= x < |cfg.procs| && s.hist.place[x].Freed? ==> s'.pcs[x] == s.pcs[x]
    requires forall c :: 0 <= c < cfg.cpus && s'.cpus[c].pc == Freeing ==>
                           s'.pcs[s'.cpus[c].proc.value] == cfg.procs[s'.cpus[c].proc.value].size
    ensures Places(cfg, s')
  {
    forall q | 0 <= q < MAX_PRIO ensures QueueOk(cfg, s', q) {
      assert QueueOk(cfg, s, q);
    }
  }

  lemma InspectPlaces(cfg: Config, s: State, c: nat)
    requires Places(cfg, s) && Inv(cfg, s) && c < cfg.cpus && s.cpus[c].pc == Loop
    ensures Places(cfg, Inspect(cfg, s, c))
  {
    hide FitsQueues;
    var s', u := Inspect(cfg, s, c), s.cpus[c];
    match u.proc
    case None => GetPlaces(cfg, s, c);
    case Some(x) =>
      assert Owns(u, x);
      if s.pcs[x] == cfg.procs[x].size {
        SamePlaces(cfg, s, s');
      } else if u.timeLeft == 0 {
        InsertPlaces(cfg, s, x);
        assert forall q :: 0 <= q < MAX_PRIO && QueueOk(cfg, Insert(cfg, s, x), q) ==> QueueOk(cfg, s', q);
      } else {
        SamePlaces(cfg, s, s');
      }
  }

  lemma FreePlaces(cfg: Config, s: State, c: nat)
    requires Places(cfg, s) && Enabled(cfg, s, CpuStep(c)) && s.cpus[c].pc == Freeing
    ensures Places(cfg, CpuAction(cfg, s, c))
  {
    var s' := CpuAction(cfg, s, c);
    assert Owns(s.cpus[c], s.cpus[c].proc.value);
    forall q | 0 <= q < MAX_PRIO ensures QueueOk(cfg, s', q) {
      assert QueueOk(cfg, s, q);
    }
  }

  lemma RunPlaces(cfg: Config, s: State, c: nat)
    requires Places(cfg, s) && Enabled(cfg, s, CpuStep(c)) && s.cpus[c].pc == Dispatch
    ensures Places(cfg, CpuAction(cfg, s, c))
  {
    var s', x := CpuAction(cfg, s, c), s.cpus[c].proc.value;
    assert Owns(s.cpus[c], x);
    forall d | 0 <= d < cfg.cpus && s'.cpus[d].pc == Freeing
      ensures s'.pcs[s'.cpus[d].proc.value] == cfg.procs[s'.cpus[d].proc.value].size
    {
      assert d != c && Owns(s.cpus[d], s.cpus[d].proc.value);
    }
    SamePlaces(cfg, s, s');
  }

  lemma CpuPlaces(cfg: Config, s: State, c: nat)
    requires Places(cfg, s) && Inv(cfg, s) && Enabled(cfg, s, CpuStep(c))
    ensures Places(cfg, CpuAction(cfg, s, c))
  {
    match s.cpus[c].pc
    case Loop => InspectPlaces(cfg, s, c);
    case Getting => GetPlaces(cfg, s, c);
    case Freeing => FreePlaces(cfg, s, c);
    case Dispatch => RunPlaces(cfg, s, c);
    case _ => SamePlaces(cfg, s, CpuAction(cfg, s, c));
  }

  lemma LoaderPlaces(cfg: Config, s: State)
    requires Places(cfg, s) && Enabled(cfg, s, LoaderStep)
    ensures Places(cfg, LoaderAction(cfg, s))
  {
    hide FitsQueues;
    var s', i := LoaderAction(cfg, s), s.loader.i;
    if s'.loader.i == i {
      SamePlaces(cfg, s, s');
    } else {
      InsertPlaces(cfg, s, i);
      assert forall q :: 0 <= q < MAX_PRIO && QueueOk(cfg, Insert(cfg, s, i), q) ==> QueueOk(cfg, s', q);
    }
  }

  lemma NextPlaces(cfg: Config, s: State, e: Event)
    requires Places(cfg, s) && Inv(cfg, s) && Enabled(cfg, s, e)
    ensures Places(cfg, Next(cfg, s, e))
  {
    match e
    case CpuStep(c) => CpuPlaces(cfg, s, c);
    case LoaderStep => LoaderPlaces(cfg, s);
    case _ => SamePlaces(cfg, s, Next(cfg, s, e));
  }
}
