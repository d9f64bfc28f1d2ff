/**
  The ready queues and slot budgets of the multi-level queue scheduler, as values, with the
  selection rule that the scan loop of the scheduler is meant to compute.
 */
module Mlq {

  import opened Seqs

  const MAX_PRIO: nat := 140
  const MAX_QUEUE_SIZE: nat := 10

  datatype Option<+T> = None | Some(value: T)

  /** One queue and one slot budget per priority. */
  datatype Ready<P> = Ready(queues: seq<seq<P>>, slot: seq<int>)

  datatype Selection<P> = Selection(after: Ready<P>, picked: Option<P>, reset: bool)

  ghost predicate Shape<P>(m: Ready<P>) {
    |m.queues| == MAX_PRIO && |m.slot| == MAX_PRIO
  }

  /** A full queue and a process already present both make the insertion a no-op. */
  function Enqueue<P(==)>(q: seq<P>, p: P): seq<P> {
    if |q| >= MAX_QUEUE_SIZE || p in q then q else q + [p]
  }

  /** A process enters at the tail, at most once, and only while fewer than ten are queued. */
  lemma EnqueueOnce<P>(q: seq<P>, p: P)
    ensures |q| < 10 && p !in q ==> Enqueue(q, p) == q + [p]
    ensures |q| >= 10 || p in q ==> Enqueue(q, p) == q
    ensures NoDup(q) ==> NoDup(Enqueue(q, p))
  {}

  function FullSlots(): (s: seq<int>)
    ensures |s| == MAX_PRIO
    ensures forall i :: 0 <= i < MAX_PRIO ==> s[i] == MAX_PRIO - i
  {
    seq(MAX_PRIO, i => MAX_PRIO - i)
  }

  predicate Eligible<P>(m: Ready<P>, i: nat)
    requires i < |m.queues| && i < |m.slot|
  {
    |m.queues[i]| > 0 && m.slot[i] > 0
  }

  predicate AllEmpty<P>(m: Ready<P>) {
    forall i :: 0 <= i < |m.queues| ==> |m.queues[i]| == 0
  }

  /** The least index from `k` on that may be served, or MAX_PRIO. */
  function FirstEligible<P>(m: Ready<P>, k: nat): (i: nat)
    requires Shape(m) && k <= MAX_PRIO
    ensures k <= i <= MAX_PRIO
    ensures i < MAX_PRIO ==> Eligible(m, i)
    ensures forall j :: k <= j < i ==> !Eligible(m, j)
    decreases MAX_PRIO - k
  {
    if k == MAX_PRIO || Eligible(m, k) then k else FirstEligible(m, k + 1)
  }

  function Pop<P>(m: Ready<P>, i: nat): (r: Selection<P>)
    requires i < |m.queues| && |m.queues[i]| > 0
  {
    Selection(m.(queues := m.queues[i := m.queues[i][1..]]), Some(m.queues[i][0]), false)
  }

  /** `r` serves the head of queue `i`, and no queue before `i` could have been served instead. */
  ghost predicate Serves<P>(m: Ready<P>, r: Selection<P>, i: nat)
    requires Shape(m)
  {
    && i < MAX_PRIO
    && |m.queues[i]| > 0
    && r.picked == Some(m.queues[i][0])
    && r.after.queues == m.queues[i := m.queues[i][1..]]
    && (if r.reset then
          && r.after.slot == FullSlots()
          && (forall j :: 0 <= j < MAX_PRIO ==> !Eligible(m, j))
          && (forall j :: 0 <= j < i ==> |m.queues[j]| == 0)
        else
          && r.after.slot == m.slot
          && Eligible(m, i)
          && (forall j :: 0 <= j < i ==> !Eligible(m, j)))
  }

  /** The simple rule: what a scan over all priorities is for. */
  ghost predicate SimpleRule<P>(m: Ready<P>, r: Selection<P>)
    requires Shape(m)
  {
    if AllEmpty(m) then r == Selection(m, None, false) else exists i: nat :: Serves(m, r, i)
  }

  /** What one call of the scan returns and leaves behind. */
  function Select<P>(m: Ready<P>): (r: Selection<P>)
    requires Shape(m)
    ensures Shape(r.after)
    ensures SimpleRule(m, r)
  {
    if AllEmpty(m) then Selection(m, None, false)
    else
      var i := FirstEligible(m, 0);
      if i < MAX_PRIO then
        assert Serves(m, Pop(m, i), i);
        Pop(m, i)
      else
        var refilled := m.(slot := FullSlots());
        var j := FirstEligible(refilled, 0);
        assert j < MAX_PRIO by {
          var k :| 0 <= k < MAX_PRIO && |m.queues[k]| > 0;
          assert Eligible(refilled, k);
        }
        var r := Pop(refilled, j).(reset := true);
        forall k | 0 <= k < j ensures |m.queues[k]| == 0 {
          assert !Eligible(refilled, k) && refilled.slot[k] == MAX_PRIO - k > 0;
        }
        assert Serves(m, r, j);
        r
  }

  /** The rule leaves no choice: two outcomes that obey it are the same outcome. */
  lemma SimpleRuleIsUnique<P>(m: Ready<P>, r: Selection<P>, r': Selection<P>)
    requires Shape(m) && SimpleRule(m, r) && SimpleRule(m, r')
    ensures r == r'
  {}

  /** The priority that a call returning a process serves. */
  ghost function ServedPrio<P>(m: Ready<P>): (i: nat)
    requires Shape(m) && Select(m).picked.Some?
    ensures i < MAX_PRIO && Serves(m, Select(m), i)
  {
    var i: nat :| Serves(m, Select(m), i);
    i
  }

  /** A call takes its process from the queue it serves and brings no new process into any queue. */
  lemma SelectOnlyRemoves<P>(m: Ready<P>)
    requires Shape(m)
    ensures forall q, x :: 0 <= q < MAX_PRIO && x in Select(m).after.queues[q] ==> x in m.queues[q]
    ensures Select(m).picked.Some? ==> Select(m).picked.value in m.queues[ServedPrio(m)]
  {}
}
