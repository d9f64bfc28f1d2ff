/**
  The timer as a barrier: one thread gathers the end of slot of every device, advances the clock and
  releases the devices one by one. Each step is one locked region or one read of a shared flag.
 */
module Timer {

  /** What a device thread is doing: its own work, waiting inside `next_slot`, or detached. */
  datatype Phase = Working | Waiting | Finished

  /** `done` and `fsh` are the shared flags; `slots` counts the slots the device has ended. */
  datatype Device = Device(done: bool, fsh: bool, phase: Phase, slots: nat)

  /** The timer thread: gathering from device `next` on, releasing from `next` on, or gone. */
  datatype TimerPc = Gather(next: nat, fsh: nat) | Release(next: nat) | Exited

  datatype Barrier = Barrier(devs: seq<Device>, time: nat, pc: TimerPc, stop: bool)

  datatype Step = Tick | EndSlot(d: nat) | Resume(d: nat) | Detach(d: nat) | StopTimer

  function Init(n: nat): Barrier {
    Barrier(seq(n, _ => Device(false, false, Working, 0)), 0, Gather(0, 0), false)
  }

  predicate AllFinished(b: Barrier) {
    forall d :: 0 <= d < |b.devs| ==> b.devs[d].phase == Finished
  }

  predicate Enabled(b: Barrier, e: Step) {
    match e
    case Tick =>
      (match b.pc
       case Gather(i, _) => i < |b.devs| ==> b.devs[i].done || b.devs[i].fsh
       case Release(_) => true
       case Exited => false)
    case EndSlot(d) => d < |b.devs| && b.devs[d].phase == Working
    case Resume(d) => d < |b.devs| && b.devs[d].phase == Waiting && !b.devs[d].done
    case Detach(d) => d < |b.devs| && b.devs[d].phase == Working
    case StopTimer => AllFinished(b) && !b.stop
  }

  /** One step of the timer loop; when every device was gathered, `event` is their number. */
  function TickStep(b: Barrier): Barrier
    requires Enabled(b, Tick)
  {
    match b.pc
    case Gather(i, fsh) =>
      if i < |b.devs| then b.(pc := Gather(i + 1, if b.devs[i].fsh then fsh + 1 else fsh))
      else if fsh == |b.devs| then b.(pc := Exited)
      else b.(time := b.time + 1, pc := Release(0))
    case Release(i) =>
      if i < |b.devs| then b.(devs := b.devs[i := b.devs[i].(done := false)], pc := Release(i + 1))
      else b.(pc := if b.stop then Exited else Gather(0, 0))
  }

  function Next(b: Barrier, e: Step): Barrier
    requires Enabled(b, e)
  {
    match e
    case Tick => TickStep(b)
    case EndSlot(d) =>
      b.(devs := b.devs[d := b.devs[d].(done := true, phase := Waiting, slots := b.devs[d].slots + 1)])
    case Resume(d) => b.(devs := b.devs[d := b.devs[d].(phase := Working)])
    case Detach(d) => b.(devs := b.devs[d := b.devs[d].(fsh := true, phase := Finished)])
    case StopTimer => b.(stop := true)
  }

  /** The clock moves only in the gathering step that finds every device accounted for. */
  predicate Advances(b: Barrier, e: Step) {
    e == Tick && b.pc.Gather? && b.pc.next >= |b.devs| && b.pc.fsh != |b.devs|
  }

  // ---------------------------------------------------------------------------------------------
  // The invariant
  // ---------------------------------------------------------------------------------------------

  /** Still to be released in the release round under way. */
  predicate Held(b: Barrier, d: nat) {
    b.pc.Release? && b.pc.next <= d
  }

  ghost predicate DeviceOk(b: Barrier, d: nat)
    requires d < |b.devs|
  {
    var v := b.devs[d];
    && (v.phase == Finished <==> v.fsh) && (v.phase == Finished ==> !v.done)
    && (v.phase == Working ==> !v.done && v.slots == b.time)
    && (v.phase == Waiting ==> v.slots == b.time + if v.done && !Held(b, d) then 1 else 0)
    && (v.phase != Finished && Held(b, d) ==> v.phase == Waiting && v.done)
    && (b.pc.Gather? && d < b.pc.next ==> (v.done && v.phase == Waiting) || v.fsh)
  }

  ghost predicate Inv(b: Barrier) {
    && (forall d :: 0 <= d < |b.devs| ==> DeviceOk(b, d))
    && (b.pc.Gather? ==>
          && b.pc.fsh <= b.pc.next <= |b.devs|
          && (b.pc.fsh == b.pc.next ==> forall d :: 0 <= d < b.pc.next ==> b.devs[d].fsh)
          && (b.pc.fsh < b.pc.next ==> exists d :: 0 <= d < b.pc.next && !b.devs[d].fsh))
    && (b.pc.Release? ==> b.pc.next <= |b.devs|)
    && (b.pc.Exited? ==> AllFinished(b))
    && (b.stop ==> AllFinished(b))
  }

  lemma InitInv(n: nat)
    ensures Inv(Init(n))
  {}

  lemma TickInv(b: Barrier)
    requires Inv(b) && Enabled(b, Tick)
    ensures Inv(TickStep(b))
  {
    var b' := TickStep(b);
    forall d | 0 <= d < |b.devs| ensures DeviceOk(b', d) {
      assert DeviceOk(b, d);
    }
    if b.pc.Gather? && b'.pc.Gather? {
      if b.pc.fsh < b.pc.next {
        var d :| 0 <= d < b.pc.next && !b.devs[d].fsh;
        assert !b'.devs[d].fsh;
      } else {
        assert !b.devs[b.pc.next].fsh ==> !b'.devs[b.pc.next].fsh;
      }
    }
    assert AllFinished(b) ==> AllFinished(b');
    if b'.pc.Exited? {
      forall d | 0 <= d < |b.devs| ensures b.devs[d].phase == Finished {
        assert DeviceOk(b, d);
      }
    }
  }

  lemma NextInv(b: Barrier, e: Step)
    requires Inv(b) && Enabled(b, e)
    ensures Inv(Next(b, e))
  {
    if e == Tick {
      TickInv(b);
    } else {
      var b' := Next(b, e);
      forall d | 0 <= d < |b.devs| ensures DeviceOk(b', d) {
        assert DeviceOk(b, d);
      }
      if b.pc.Gather? && b.pc.fsh < b.pc.next {
        var d :| 0 <= d < b.pc.next && !b.devs[d].fsh;
        assert DeviceOk(b, d) && !b'.devs[d].fsh;
      }
    }
  }

  // ---------------------------------------------------------------------------------------------
  // Runs
  // ---------------------------------------------------------------------------------------------

  ghost predicate ValidRun(b: Barrier, es: seq<Step>)
    decreases |es|
  {
    es == [] || (Enabled(b, es[0]) && ValidRun(Next(b, es[0]), es[1..]))
  }

  ghost function After(b: Barrier, es: seq<Step>): (b': Barrier)
    requires ValidRun(b, es)
    decreases |es|
  {
    if es == [] then b else After(Next(b, es[0]), es[1..])
  }

  lemma {:induction false} RunInv(b: Barrier, es: seq<Step>)
    requires Inv(b) && ValidRun(b, es)
    ensures Inv(After(b, es)) && |After(b, es).devs| == |b.devs|
    decreases |es|
  {
    if es == [] {
    } else {
      NextInv(b, es[0]);
      RunInv(Next(b, es[0]), es[1..]);
    }
  }

  /** Lock-step: no two attached devices are ever more than one slot apart. */
  lemma LockStep(n: nat, es: seq<Step>, c: nat, d: nat)
    requires ValidRun(Init(n), es) && c < n && d < n
    requires var b := After(Init(n), es); c < |b.devs| && d < |b.devs|
    requires var b := After(Init(n), es); b.devs[c].phase != Finished && b.devs[d].phase != Finished
    ensures var b := After(Init(n), es); -1 <= b.devs[c].slots - b.devs[d].slots <= 1
    ensures var b := After(Init(n), es); b.time <= b.devs[c].slots <= b.time + 1
  {
    InitInv(n);
    RunInv(Init(n), es);
    var b := After(Init(n), es);
    assert DeviceOk(b, c) && DeviceOk(b, d);
  }

  /** The clock advances only when every attached device has ended the slot the clock shows. */
  lemma ClockWaitsForAll(n: nat, es: seq<Step>, d: nat)
    requires ValidRun(Init(n), es) && d < |After(Init(n), es).devs|
    requires Advances(After(Init(n), es), Tick)
    requires After(Init(n), es).devs[d].phase != Finished
    ensures var b := After(Init(n), es);
            b.devs[d].phase == Waiting && b.devs[d].done && b.devs[d].slots == b.time + 1
  {
    InitInv(n);
    RunInv(Init(n), es);
    assert DeviceOk(After(Init(n), es), d);
  }

  /** A release clears only the `done` of the slot that has just closed, never one set for a later slot. */
  lemma ReleaseIsNeverLate(n: nat, es: seq<Step>)
    requires ValidRun(Init(n), es)
    requires var b := After(Init(n), es);
             b.pc.Release? && b.pc.next < |b.devs| && b.devs[b.pc.next].phase != Finished
    ensures var b := After(Init(n), es); var v := b.devs[b.pc.next];
            v.done && v.phase == Waiting && v.slots == b.time
  {
    InitInv(n);
    RunInv(Init(n), es);
    var b := After(Init(n), es);
    assert DeviceOk(b, b.pc.next);
  }

  /** A device that has detached is never again taken to be at work, and none but its own thread detaches it. */
  lemma DetachedStays(b: Barrier, e: Step, d: nat)
    requires Inv(b) && Enabled(b, e) && d < |b.devs|
    ensures b.devs[d].phase == Finished ==> Next(b, e).devs[d] == b.devs[d]
    ensures b.devs[d].phase != Finished && Next(b, e).devs[d].phase == Finished ==> e == Detach(d)
  {
    assert DeviceOk(b, d);
  }

  /** Devices wait for nothing but their own flag: at work they may end the slot or detach, released they may go on. */
  lemma DevicesActFreely(b: Barrier, d: nat)
    requires Inv(b) && d < |b.devs|
    ensures b.devs[d].phase == Working ==> Enabled(b, EndSlot(d)) && Enabled(b, Detach(d))
    ensures b.devs[d].phase == Waiting && (b.devs[d].slots == b.time && !Held(b, d)) ==> Enabled(b, Resume(d))
  {
    assert DeviceOk(b, d);
  }

  /** A timer told to stop while it releases gathers no more. */
  lemma {:induction false} StoppedTimerGathersNoMore(b: Barrier, es: seq<Step>)
    requires b.stop && !b.pc.Gather? && ValidRun(b, es)
    ensures !After(b, es).pc.Gather?
    decreases |es|
  {
    if es == [] {
    } else {
      StoppedTimerGathersNoMore(Next(b, es[0]), es[1..]);
    }
  }

  /** No deadlock: until every device has detached, the timer or some device can take a step. */
  lemma BarrierNeverStuck(b: Barrier)
    requires Inv(b) && !AllFinished(b)
    ensures Enabled(b, Tick) || exists d: nat :: Enabled(b, EndSlot(d)) || Enabled(b, Resume(d))
  {
    var d :| 0 <= d < |b.devs| && b.devs[d].phase != Finished;
    if !Enabled(b, Tick) {
      var i := b.pc.next;
      assert DeviceOk(b, i);
      assert Enabled(b, EndSlot(i)) || Enabled(b, Resume(i));
    }
  }
}
