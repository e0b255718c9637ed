/** The hints between a committed append and subscription fan-out, as a state machine
    (webhook/dirty_queue.go). */
module DirtyHints {
  import opened Prelude

  /** What a hint remembers of the append that caused it. */
  datatype Origin = Origin(requestID: string, trace: nat) {
    predicate Known() { requestID != "" || trace != 0 }
  }

  datatype EntryPhase = Queued | Processing

  datatype Entry = Entry(phase: EntryPhase, since: nat, dirtyAgain: bool, origin: Origin)

  datatype OverflowPhase = Idle | Pending | Reconciling

  datatype Overflow = Overflow(phase: OverflowPhase, since: nat, dirtyAgain: bool, againSince: nat)

  const NO_OVERFLOW := Overflow(Idle, 0, false, 0)

  /** The queue: its entries, and the queued paths in the order they will be taken. */
  datatype Queue = Queue(capacity: nat, entries: map<string, Entry>, order: seq<string>, overflow: Overflow)

  datatype EnqueueResult = Enqueued | CoalescedQueued | CoalescedProcessing | Overflowed | OverflowCoalesced

  datatype Work = Work(path: string, since: nat, origin: Origin)

  // ---- steps ----

  function NoteOverflow(o: Overflow, now: nat): Overflow {
    match o.phase
    case Idle => Overflow(Pending, now, false, 0)
    case Pending => o
    case Reconciling => if o.dirtyAgain then o else o.(dirtyAgain := true, againSince := now)
  }

  function Enqueue(q: Queue, path: string, now: nat, origin: Origin): Queue {
    if path in q.entries then
      var entry := q.entries[path];
      if entry.phase.Queued? then q
      else
        var latest := if origin.Known() then origin else entry.origin;
        q.(entries := q.entries[path := entry.(dirtyAgain := true, origin := latest)])
    else if |q.entries| == q.capacity then q.(overflow := NoteOverflow(q.overflow, now))
    else q.(entries := q.entries[path := Entry(Queued, now, false, origin)], order := q.order + [path])
  }

  function EnqueueAnswer(q: Queue, path: string): EnqueueResult {
    if path in q.entries then if q.entries[path].phase.Queued? then CoalescedQueued else CoalescedProcessing
    else if |q.entries| < q.capacity then Enqueued
    else if q.overflow.phase.Idle? then Overflowed else OverflowCoalesced
  }

  /** The head of the queue is handed out. */
  function TakeOne(q: Queue): Queue
    requires q.order != []
  {
    var path := q.order[0];
    if path in q.entries then
      q.(entries := q.entries[path := q.entries[path].(phase := Processing)], order := q.order[1..])
    else q.(order := q.order[1..])
  }

  function Take(q: Queue, n: nat): Queue
    requires n <= |q.order|
    decreases n
  {
    if n == 0 then q else Take(TakeOne(q), n - 1)
  }

  /** What the first `n` takes hand out. */
  function Handed(q: Queue, n: nat): seq<Work>
    requires n <= |q.order|
    decreases n
  {
    if n == 0 then []
    else (if q.order[0] in q.entries then [WorkOn(q, q.order[0])] else []) + Handed(TakeOne(q), n - 1)
  }

  function WorkOn(q: Queue, path: string): Work
    requires path in q.entries
  {
    Work(path, q.entries[path].since, q.entries[path].origin)
  }

  function Complete(q: Queue, path: string, retry: bool): Queue
    requires path in q.entries
  {
    var entry := q.entries[path];
    if retry || entry.dirtyAgain then
      q.(entries := q.entries[path := entry.(phase := Queued, dirtyAgain := false)], order := q.order + [path])
    else q.(entries := q.entries - {path})
  }

  function BeginReconcile(q: Queue): Queue {
    if q.overflow.phase.Pending? then q.(overflow := q.overflow.(phase := Reconciling)) else q
  }

  function CompleteReconcile(q: Queue, success: bool): Queue {
    var o := q.overflow;
    if !o.phase.Reconciling? then q
    else if !success then q.(overflow := Overflow(Pending, o.since, false, 0))
    else if o.dirtyAgain then q.(overflow := Overflow(Pending, o.againSince, false, 0))
    else q.(overflow := NO_OVERFLOW)
  }

  // ---- the representation ----

  ghost predicate Distinct(s: seq<string>) {
    forall i, j :: 0 <= i < j < |s| ==> s[i] != s[j]
  }

  /** The order lists each queued path once and nothing else, and the entries fit. */
  ghost predicate Good(q: Queue) {
    && Distinct(q.order) && |q.entries| <= q.capacity
    && (forall p :: p in q.order <==> p in q.entries && q.entries[p].phase.Queued?)
    && (forall p :: p in q.entries && q.entries[p].phase.Queued? ==> !q.entries[p].dirtyAgain)
    && (q.overflow.dirtyAgain ==> q.overflow.phase.Reconciling?)
  }

  /** The queue holds no more than its entries, so the ring never overflows. */
  lemma OrderFits(q: Queue)
    requires Good(q)
    ensures |q.order| <= |q.entries| <= q.capacity
  {
    var paths := set p | p in q.order;
    DistinctSize(q.order);
    assert paths <= q.entries.Keys;
    SubsetSize(paths, q.entries.Keys);
    assert |q.entries.Keys| == |q.entries|;
  }

  lemma {:induction false} DistinctSize(s: seq<string>)
    requires Distinct(s)
    ensures |set p | p in s| == |s|
  {
    if s != [] {
      var n := |s| - 1;
      DistinctSize(s[..n]);
      var rest := set p | p in s[..n];
      assert (set p | p in s) == rest + {s[n]};
    } else {
      assert (set p | p in s) == {};
    }
  }

  lemma EnqueueKeeps(q: Queue, path: string, now: nat, origin: Origin)
    requires Good(q)
    ensures Good(Enqueue(q, path, now, origin))
  {
    var q' := Enqueue(q, path, now, origin);
    if path !in q.entries && |q.entries| < q.capacity {
      assert q'.order == q.order + [path];
      forall p ensures p in q'.order <==> p in q'.entries && q'.entries[p].phase.Queued? {
        assert p in q'.order <==> p in q.order || p == path;
      }
    }
  }

  lemma TakeOneKeeps(q: Queue)
    requires Good(q) && q.order != []
    ensures Good(TakeOne(q)) && q.order[0] in q.entries && q.entries[q.order[0]].phase.Queued?
  {
    var q', path := TakeOne(q), q.order[0];
    assert path in q.order;
    forall p ensures p in q'.order <==> p in q'.entries && q'.entries[p].phase.Queued? {
      assert p in q.order <==> p == path || p in q.order[1..];
    }
  }

  lemma {:induction false} TakeKeeps(q: Queue, n: nat)
    requires Good(q) && n <= |q.order|
    ensures Good(Take(q, n))
    decreases n
  {
    if n > 0 {
      TakeOneKeeps(q);
      TakeKeeps(TakeOne(q), n - 1);
    }
  }

  lemma CompleteKeeps(q: Queue, path: string, retry: bool)
    requires Good(q) && path in q.entries && q.entries[path].phase.Processing?
    ensures Good(Complete(q, path, retry))
  {
    var q' := Complete(q, path, retry);
    assert path !in q.order;
    if retry || q.entries[path].dirtyAgain {
      forall p ensures p in q'.order <==> p in q'.entries && q'.entries[p].phase.Queued? {
        assert p in q'.order <==> p in q.order || p == path;
      }
    } else {
      assert q'.entries.Keys == q.entries.Keys - {path};
    }
  }

  /** The first `n` of the order are handed out, and the rest is as it was. */
  ghost predicate TookFront(q: Queue, n: nat, q': Queue)
    requires n <= |q.order|
  {
    && q'.order == q.order[n..] && q'.overflow == q.overflow && q'.capacity == q.capacity
    && q'.entries.Keys == q.entries.Keys
    && (forall p :: p in q.entries ==>
          q'.entries[p] == if p in q.order[..n] then q.entries[p].(phase := Processing) else q.entries[p])
  }

  lemma {:induction false} TakeIsFifo(q: Queue, n: nat)
    requires Good(q) && n <= |q.order|
    ensures TookFront(q, n, Take(q, n))
    decreases n
  {
    hide Good, TookFront;
    if n > 0 {
      TakeOneKeeps(q);
      TakeIsFifo(TakeOne(q), n - 1);
      TookOneMore(q, n, Take(q, n));
    } else {
      TookNone(q);
    }
  }

  lemma TookNone(q: Queue)
    ensures TookFront(q, 0, q)
  {
  }

  lemma TookOneMore(q: Queue, n: nat, q': Queue)
    requires Good(q) && 0 < n <= |q.order| && q.order[0] in q.entries && TookFront(TakeOne(q), n - 1, q')
    ensures TookFront(q, n, q')
  {
    var q1, path := TakeOne(q), q.order[0];
    assert q.order[..n] == [path] + q1.order[..n - 1];
    assert path !in q1.order[..n - 1];
    hide Good;
    forall p | p in q.entries
      ensures q'.entries[p] == if p in q.order[..n] then q.entries[p].(phase := Processing) else q.entries[p]
    {
      assert p in q1.entries;
    }
  }

  /** The work handed out is the front of the order, with what each hint remembers. */
  lemma {:induction false} HandedInOrder(q: Queue, n: nat)
    requires Good(q) && n <= |q.order|
    ensures |Handed(q, n)| == n
    ensures forall k :: 0 <= k < n ==> q.order[k] in q.entries && Handed(q, n)[k] == WorkOn(q, q.order[k])
    decreases n
  {
    if n > 0 {
      TakeOneKeeps(q);
      hide Good;
      var q1 := TakeOne(q);
      HandedInOrder(q1, n - 1);
      forall k | 0 <= k < n ensures q.order[k] in q.entries && Handed(q, n)[k] == WorkOn(q, q.order[k]) {
        if k > 0 {
          assert q1.order[k - 1] == q.order[k];
        }
      }
    }
  }

  // ---- runs ----

  datatype Op =
    | EnqueueOp(path: string, now: nat, origin: Origin)
    | TakeOp(limit: nat)
    | CompleteOp(path: string, retry: bool)
    | BeginOp
    | ReconcileOp(success: bool)

  /** What an operation did. */
  datatype Event =
    | Hinted(path: string)
    | Took(paths: seq<string>)
    | Completed(path: string, success: bool)
    | Began
    | Reconciled(success: bool)
    | NoEffect

  datatype Trace = Trace(queue: Queue, log: seq<Event>)

  function Least(a: nat, b: nat): nat {
    if a < b then a else b
  }

  function QueueAfter(q: Queue, op: Op): Queue {
    match op
    case EnqueueOp(path, now, origin) => Enqueue(q, path, now, origin)
    case TakeOp(limit) => Take(q, Least(limit, |q.order|))
    case CompleteOp(path, retry) => if path in q.entries then Complete(q, path, retry) else q
    case BeginOp => BeginReconcile(q)
    case ReconcileOp(success) => CompleteReconcile(q, success)
  }

  function EventOf(q: Queue, op: Op): Event {
    match op
    case EnqueueOp(path, _, _) => Hinted(path)
    case TakeOp(limit) => Took(q.order[..Least(limit, |q.order|)])
    case CompleteOp(path, retry) => Completed(path, !retry)
    case BeginOp => if q.overflow.phase.Pending? then Began else NoEffect
    case ReconcileOp(success) => if q.overflow.phase.Reconciling? then Reconciled(success) else NoEffect
  }

  /** When the work on `path` that is still under way was handed out; -1 if none is. */
  function TakenSince(log: seq<Event>, path: string): int {
    if log == [] then -1
    else
      var n := |log| - 1;
      if log[n].Took? && path in log[n].paths then n
      else if log[n].Completed? && log[n].path == path then -1
      else TakenSince(log[..n], path)
  }

  /** When the reconcile that is still under way began; -1 if none is. */
  function BegunSince(log: seq<Event>): int {
    if log == [] then -1
    else
      var n := |log| - 1;
      if log[n].Began? then n else if log[n].Reconciled? then -1 else BegunSince(log[..n])
  }

  /** Work is completed only while it is under way. */
  ghost predicate Sanctioned(t: Trace, op: Op) {
    op.CompleteOp? ==> TakenSince(t.log, op.path) >= 0
  }

  function Perform(t: Trace, op: Op): Trace {
    Trace(QueueAfter(t.queue, op), t.log + [EventOf(t.queue, op)])
  }

  function Exec(capacity: nat, ops: seq<Op>): Trace {
    if ops == [] then Trace(Queue(capacity, map[], [], NO_OVERFLOW), [])
    else Perform(Exec(capacity, ops[..|ops| - 1]), ops[|ops| - 1])
  }

  ghost predicate SanctionedRun(capacity: nat, ops: seq<Op>) {
    ops == [] || (
      var before := ops[..|ops| - 1];
      SanctionedRun(capacity, before) && Sanctioned(Exec(capacity, before), ops[|ops| - 1]))
  }

  /** Event `k` ends, with success, work or a reconcile that began after the hint `i`. */
  ghost predicate CoveredBy(log: seq<Event>, i: nat, k: nat) {
    && i < k < |log| && log[i].Hinted?
    && (|| (log[k] == Completed(log[i].path, true) && TakenSince(log[..k], log[i].path) > i)
        || (log[k] == Reconciled(true) && BegunSince(log[..k]) > i))
  }

  ghost predicate Covered(log: seq<Event>, i: nat) {
    exists k: nat :: CoveredBy(log, i, k)
  }

  /** The path's entry still stands for a hint of time `i`. */
  ghost predicate EntryStands(q: Queue, path: string, takenAt: int, i: nat) {
    path in q.entries && (q.entries[path].phase.Queued? || q.entries[path].dirtyAgain || takenAt > i)
  }

  /** The overflow epoch still stands for a hint of time `i`. */
  ghost predicate OverflowStands(o: Overflow, begunAt: int, i: nat) {
    o.phase.Pending? || (o.phase.Reconciling? && (o.dirtyAgain || begunAt > i))
  }

  ghost predicate Represented(t: Trace, i: nat)
    requires i < |t.log|
  {
    t.log[i].Hinted? ==>
      || EntryStands(t.queue, t.log[i].path, TakenSince(t.log, t.log[i].path), i)
      || OverflowStands(t.queue.overflow, BegunSince(t.log), i)
  }

  /** Work under way is exactly what the queue holds as processing, and likewise the reconcile. */
  ghost predicate UnderWay(t: Trace) {
    && (forall p :: TakenSince(t.log, p) >= 0 <==> p in t.queue.entries && t.queue.entries[p].phase.Processing?)
    && (BegunSince(t.log) >= 0 <==> t.queue.overflow.phase.Reconciling?)
  }

  lemma {:induction false} SinceIsPast(log: seq<Event>, path: string)
    ensures TakenSince(log, path) < |log| && BegunSince(log) < |log|
  {
    if log != [] {
      SinceIsPast(log[..|log| - 1], path);
    }
  }

  lemma TakenSnoc(log: seq<Event>, e: Event, path: string)
    ensures TakenSince(log + [e], path) ==
            if e.Took? && path in e.paths then |log|
            else if e.Completed? && e.path == path then -1
            else TakenSince(log, path)
    ensures BegunSince(log + [e]) == if e.Began? then |log| else if e.Reconciled? then -1 else BegunSince(log)
  {
    assert (log + [e])[..|log|] == log;
  }

  /** A hint once covered stays covered. */
  lemma CoveredStays(log: seq<Event>, e: Event, i: nat)
    requires Covered(log, i)
    ensures Covered(log + [e], i)
  {
    var k: nat :| CoveredBy(log, i, k);
    assert (log + [e])[..k] == log[..k];
    assert CoveredBy(log + [e], i, k);
  }

  /** The step that ends the work or the reconcile covers the hint. */
  lemma NowCovered(log: seq<Event>, e: Event, i: nat)
    requires i < |log| && log[i].Hinted?
    requires || (e == Completed(log[i].path, true) && TakenSince(log, log[i].path) > i)
             || (e == Reconciled(true) && BegunSince(log) > i)
    ensures Covered(log + [e], i)
  {
    assert (log + [e])[..|log|] == log;
    assert CoveredBy(log + [e], i, |log|);
  }

  // ---- one step ----

  lemma StepGood(t: Trace, op: Op)
    requires Good(t.queue) && UnderWay(t) && Sanctioned(t, op)
    ensures Good(Perform(t, op).queue)
  {
    match op
    case EnqueueOp(path, now, origin) => EnqueueKeeps(t.queue, path, now, origin);
    case TakeOp(limit) => TakeKeeps(t.queue, Least(limit, |t.queue.order|));
    case CompleteOp(path, retry) => CompleteKeeps(t.queue, path, retry);
    case BeginOp =>
    case ReconcileOp(success) =>
  }

  lemma StepUnderWay(t: Trace, op: Op)
    requires Good(t.queue) && UnderWay(t) && Sanctioned(t, op)
    ensures UnderWay(Perform(t, op))
  {
    hide TakenSince, BegunSince, Take;
    var t' := Perform(t, op);
    TakenSnoc(t.log, EventOf(t.queue, op), "");
    if op.TakeOp? {
      TakeIsFifo(t.queue, Least(op.limit, |t.queue.order|));
    }
    forall p
      ensures TakenSince(t'.log, p) >= 0 <==> p in t'.queue.entries && t'.queue.entries[p].phase.Processing?
    {
      StepUnderWayAt(t, op, p);
    }
  }

  lemma StepUnderWayAt(t: Trace, op: Op, p: string)
    requires Good(t.queue) && UnderWay(t) && Sanctioned(t, op)
    ensures var t' := Perform(t, op);
            TakenSince(t'.log, p) >= 0 <==> p in t'.queue.entries && t'.queue.entries[p].phase.Processing?
  {
    hide TakenSince, BegunSince, Take;
    TakenSnoc(t.log, EventOf(t.queue, op), p);
    if op.TakeOp? {
      var n := Least(op.limit, |t.queue.order|);
      TakeIsFifo(t.queue, n);
      assert p in t.queue.order[..n] ==> p in t.queue.order;
    }
  }

  /** An entry stands for a hint until successful work that began later has ended. */
  lemma EntryStep(t: Trace, op: Op, i: nat)
    requires Good(t.queue) && UnderWay(t) && Sanctioned(t, op) && i < |t.log| && t.log[i].Hinted?
    requires EntryStands(t.queue, t.log[i].path, TakenSince(t.log, t.log[i].path), i)
    ensures var t', path := Perform(t, op), t.log[i].path;
            EntryStands(t'.queue, path, TakenSince(t'.log, path), i) || Covered(t'.log, i)
  {
    hide TakenSince, BegunSince, Take, Covered;
    var path, e := t.log[i].path, EventOf(t.queue, op);
    TakenSnoc(t.log, e, path);
    if op.TakeOp? {
      var n := Least(op.limit, |t.queue.order|);
      TakeIsFifo(t.queue, n);
    } else if op.CompleteOp? && op.path == path && !op.retry && !t.queue.entries[path].dirtyAgain {
      NowCovered(t.log, e, i);
    }
  }

  /** An overflow epoch stands for a hint until a successful reconcile that began later has ended. */
  lemma OverflowStep(t: Trace, op: Op, i: nat)
    requires Good(t.queue) && UnderWay(t) && Sanctioned(t, op) && i < |t.log| && t.log[i].Hinted?
    requires OverflowStands(t.queue.overflow, BegunSince(t.log), i)
    ensures var t' := Perform(t, op);
            OverflowStands(t'.queue.overflow, BegunSince(t'.log), i) || Covered(t'.log, i)
  {
    hide TakenSince, BegunSince, Take, Covered;
    var e := EventOf(t.queue, op);
    TakenSnoc(t.log, e, "");
    if op.TakeOp? {
      TakeIsFifo(t.queue, Least(op.limit, |t.queue.order|));
    } else if op.ReconcileOp? && t.queue.overflow.phase.Reconciling? && op.success && !t.queue.overflow.dirtyAgain {
      NowCovered(t.log, e, i);
    }
  }

  lemma NewHint(t: Trace, op: Op)
    requires Good(t.queue) && UnderWay(t) && op.EnqueueOp?
    ensures Represented(Perform(t, op), |t.log|)
  {
  }

  /** Everything a run keeps. */
  ghost predicate Kept(t: Trace) {
    && Good(t.queue) && UnderWay(t)
    && (forall i :: 0 <= i < |t.log| && t.log[i].Hinted? ==> Covered(t.log, i) || Represented(t, i))
  }

  lemma HintStep(t: Trace, op: Op, i: nat)
    requires Kept(t) && Sanctioned(t, op) && i < |t.log| && t.log[i].Hinted?
    ensures Covered(Perform(t, op).log, i) || Represented(Perform(t, op), i)
  {
    hide Covered, Good, UnderWay, EntryStands, OverflowStands;
    var t' := Perform(t, op);
    assert t'.log[i] == t.log[i];
    if Covered(t.log, i) {
      CoveredStays(t.log, EventOf(t.queue, op), i);
    } else if EntryStands(t.queue, t.log[i].path, TakenSince(t.log, t.log[i].path), i) {
      EntryStep(t, op, i);
    } else {
      OverflowStep(t, op, i);
    }
  }

  lemma KeptStep(t: Trace, op: Op)
    requires Kept(t) && Sanctioned(t, op)
    ensures Kept(Perform(t, op))
  {
    var t' := Perform(t, op);
    StepGood(t, op);
    StepUnderWay(t, op);
    hide Covered, Represented, Good, UnderWay, QueueAfter;
    forall i | 0 <= i < |t'.log| && t'.log[i].Hinted? ensures Covered(t'.log, i) || Represented(t', i) {
      if i < |t.log| {
        HintStep(t, op, i);
      } else {
        NewHint(t, op);
      }
    }
  }

  lemma {:induction false} RunKeeps(capacity: nat, ops: seq<Op>)
    requires SanctionedRun(capacity, ops)
    ensures Kept(Exec(capacity, ops))
  {
    if ops != [] {
      var n := |ops| - 1;
      RunKeeps(capacity, ops[..n]);
      KeptStep(Exec(capacity, ops[..n]), ops[n]);
    }
  }

  /** No hint is lost: it was covered by successful work or a successful reconcile that began
      after it, or the queue still stands for it. */
  lemma NoLostHint(capacity: nat, ops: seq<Op>, i: nat)
    requires SanctionedRun(capacity, ops) && i < |Exec(capacity, ops).log| && Exec(capacity, ops).log[i].Hinted?
    ensures Covered(Exec(capacity, ops).log, i) || Represented(Exec(capacity, ops), i)
  {
    RunKeeps(capacity, ops);
  }

  /** Once the queue is empty and no overflow is open, every hint has been covered. */
  lemma DrainedMeansCovered(capacity: nat, ops: seq<Op>, i: nat)
    requires SanctionedRun(capacity, ops) && i < |Exec(capacity, ops).log| && Exec(capacity, ops).log[i].Hinted?
    requires Exec(capacity, ops).queue.entries == map[] && Exec(capacity, ops).queue.overflow.phase.Idle?
    ensures Covered(Exec(capacity, ops).log, i)
  {
    NoLostHint(capacity, ops, i);
  }

  // ---- service order ----

  /** How many entries a run hands out. */
  function Pops(log: seq<Event>): nat {
    if log == [] then 0
    else Pops(log[..|log| - 1]) + if log[|log| - 1].Took? then |log[|log| - 1].paths| else 0
  }

  ghost predicate TakenIn(log: seq<Event>, from: nat, path: string) {
    exists k :: from <= k < |log| && log[k].Took? && path in log[k].paths
  }

  /** The order of a run from `t`: an operation only removes at the front or adds at the back. */
  lemma OrderStep(t: Trace, op: Op)
    requires Good(t.queue) && UnderWay(t) && Sanctioned(t, op)
    ensures var t', n := Perform(t, op), Pops([EventOf(t.queue, op)]);
            n <= |t.queue.order| && t.queue.order[n..] <= t'.queue.order
    ensures EventOf(t.queue, op).Took? ==>
              EventOf(t.queue, op).paths == t.queue.order[..Pops([EventOf(t.queue, op)])]
  {
    var e := EventOf(t.queue, op);
    assert [e][..0] == [];
    if op.TakeOp? {
      TakeIsFifo(t.queue, Least(op.limit, |t.queue.order|));
    }
  }

  function ExecFrom(t: Trace, ops: seq<Op>): Trace {
    if ops == [] then t else Perform(ExecFrom(t, ops[..|ops| - 1]), ops[|ops| - 1])
  }

  ghost predicate SanctionedFrom(t: Trace, ops: seq<Op>) {
    ops == [] || (
      var before := ops[..|ops| - 1];
      SanctionedFrom(t, before) && Sanctioned(ExecFrom(t, before), ops[|ops| - 1]))
  }

  /** From `t` to `t'` the entry that had `k` ahead of it has been taken, if more than `k`
      entries were popped, and otherwise has moved up by as many. */
  ghost predicate Served(t: Trace, t': Trace, k: nat)
    requires k < |t.queue.order|
  {
    && t.log <= t'.log && Pops(t'.log) >= Pops(t.log)
    && var n := Pops(t'.log) - Pops(t.log);
       if k < n then TakenIn(t'.log, |t.log|, t.queue.order[k])
       else k - n < |t'.queue.order| && t'.queue.order[k - n] == t.queue.order[k]
  }

  /** The entry with `k` ahead of it is taken within the next `k + 1` pops, and meanwhile
      moves up by one with every pop, whatever else is enqueued or retried. */
  lemma {:induction false} ServedInOrder(t: Trace, ops: seq<Op>, k: nat)
    requires Kept(t) && SanctionedFrom(t, ops) && k < |t.queue.order|
    ensures Kept(ExecFrom(t, ops)) && Served(t, ExecFrom(t, ops), k)
    decreases |ops|
  {
    hide Kept, Sanctioned, Perform;
    if ops != [] {
      hide Served;
      var before, op := ops[..|ops| - 1], ops[|ops| - 1];
      ServedInOrder(t, before, k);
      ServedStep(t, ExecFrom(t, before), op, k);
    }
  }

  lemma ServedStep(t: Trace, t1: Trace, op: Op, k: nat)
    requires Kept(t1) && Sanctioned(t1, op) && k < |t.queue.order| && Served(t, t1, k)
    ensures Kept(Perform(t1, op)) && Served(t, Perform(t1, op), k)
  {
    hide Kept, QueueAfter, EventOf, Good, UnderWay, Sanctioned;
    KeptStep(t1, op);
    KeptIsGood(t1);
    OrderStep(t1, op);
    var e, t' := EventOf(t1.queue, op), Perform(t1, op);
    assert t'.log[..|t1.log|] == t1.log;
    assert [e][..0] == [];
    var n := Pops(t1.log) - Pops(t.log);
    if k < n {
      var j :| |t.log| <= j < |t1.log| && t1.log[j].Took? && t.queue.order[k] in t1.log[j].paths;
      assert t'.log[j] == t1.log[j];
    } else if e.Took? && k - n < |e.paths| {
      assert t'.log[|t1.log|] == e && e.paths[k - n] == t.queue.order[k];
    }
  }

  lemma KeptIsGood(t: Trace)
    requires Kept(t)
    ensures Good(t.queue) && UnderWay(t)
  {
  }
}
