/** What the dirty queue remembers of the hints it stands for: when it began to, and which append it
    answers to (webhook/dirty_queue.go). */
module DirtyOrigins {
  import opened DirtyHints

  // ---- what an enqueue answers ----

  /** What each answer to a hint means, and what the hint then does to the queue. */
  lemma EnqueueMeans(q: Queue, path: string, now: nat, origin: Origin)
    requires |q.entries| <= q.capacity
    ensures var a, q' := EnqueueAnswer(q, path), Enqueue(q, path, now, origin);
            var full := |q.entries| == q.capacity;
            && (a == CoalescedQueued <==> path in q.entries && q.entries[path].phase.Queued?)
            && (a == CoalescedProcessing <==> path in q.entries && q.entries[path].phase.Processing?)
            && (a == Enqueued <==> path !in q.entries && !full)
            && (a == Overflowed <==> path !in q.entries && full && q.overflow.phase.Idle?)
            && (a == OverflowCoalesced <==> path !in q.entries && full && !q.overflow.phase.Idle?)
            && (a == CoalescedQueued ==> q' == q)
            && (a == CoalescedProcessing ==>
                  && path in q'.entries && q' == q.(entries := q.entries[path := q'.entries[path]])
                  && q'.entries[path].phase.Processing? && q'.entries[path].dirtyAgain
                  && q'.entries[path].since == q.entries[path].since
                  && q'.entries[path].origin ==
                     (if origin.requestID == "" && origin.trace == 0 then q.entries[path].origin else origin))
            && (a == Enqueued ==>
                  && q'.order == q.order + [path] && q'.overflow == q.overflow
                  && q'.entries == q.entries[path := Entry(Queued, now, false, origin)])
            && (a == Overflowed || a == OverflowCoalesced ==> q' == q.(overflow := q'.overflow))
  {
  }

  // ---- the clock and the origin of an entry, over runs ----

  ghost predicate HintOf(op: Op, path: string) {
    op.EnqueueOp? && op.path == path
  }

  /** Hint `i` opened the entry that still stands. */
  ghost predicate Opened(capacity: nat, ops: seq<Op>, path: string, i: nat) {
    && i < |ops| && HintOf(ops[i], path) && path !in Exec(capacity, ops[..i]).queue.entries
    && forall j :: i < j <= |ops| ==> path in Exec(capacity, ops[..j]).queue.entries
  }

  /** The hint finds its path being worked on, and says where it comes from. */
  ghost predicate Renames(capacity: nat, ops: seq<Op>, path: string, j: nat) {
    && j < |ops| && HintOf(ops[j], path) && ops[j].origin.Known()
    && path in Exec(capacity, ops[..j]).queue.entries && Exec(capacity, ops[..j]).queue.entries[path].phase.Processing?
  }

  /** The entry dates from the hint that opened it, and answers to the last hint since then that
      found it being worked on and named an origin, or else to the one that opened it. */
  ghost predicate Story(capacity: nat, ops: seq<Op>, path: string, i: nat, m: nat)
    requires path in Exec(capacity, ops).queue.entries
  {
    var entry := Exec(capacity, ops).queue.entries[path];
    && Opened(capacity, ops, path, i) && ops[i].now == entry.since
    && i <= m < |ops| && HintOf(ops[m], path) && ops[m].origin == entry.origin
    && (m == i || Renames(capacity, ops, path, m))
    && forall j :: m < j < |ops| ==> !Renames(capacity, ops, path, j)
  }

  /** What a step does to an entry that was there before and is there after. */
  lemma EntryEvolves(t: Trace, op: Op, path: string)
    requires Good(t.queue) && path in t.queue.entries && path in QueueAfter(t.queue, op).entries
    ensures var e, e' := t.queue.entries[path], QueueAfter(t.queue, op).entries[path];
            && e'.since == e.since
            && e'.origin == if HintOf(op, path) && op.origin.Known() && e.phase.Processing? then op.origin else e.origin
  {
    if op.TakeOp? {
      TakeIsFifo(t.queue, Least(op.limit, |t.queue.order|));
      hide Good, Take;
    }
  }

  /** An entry that a step makes is the hint's own. */
  lemma EntryIsMade(t: Trace, op: Op, path: string)
    requires Good(t.queue) && path !in t.queue.entries && path in QueueAfter(t.queue, op).entries
    ensures HintOf(op, path) && QueueAfter(t.queue, op).entries[path] == Entry(Queued, op.now, false, op.origin)
  {
    if op.TakeOp? {
      TakeIsFifo(t.queue, Least(op.limit, |t.queue.order|));
      hide Good, Take;
    }
  }

  /** Every entry of every run has its story. */
  lemma {:induction false} EntriesHaveStories(capacity: nat, ops: seq<Op>, path: string)
    requires SanctionedRun(capacity, ops) && path in Exec(capacity, ops).queue.entries
    ensures exists i: nat, m: nat :: Story(capacity, ops, path, i, m)
    decreases |ops|
  {
    if ops != [] {
      var before := ops[..|ops| - 1];
      RunKeeps(capacity, before);
      LastStep(capacity, ops);
      hide Exec, Kept, Story, QueueAfter;
      if path in Exec(capacity, before).queue.entries {
        EntriesHaveStories(capacity, before, path);
        var i: nat, m: nat :| Story(capacity, before, path, i, m);
        StoryContinues(capacity, ops, path, i, m);
      } else {
        StoryBegins(capacity, ops, path);
      }
    }
  }

  lemma LastStep(capacity: nat, ops: seq<Op>)
    requires ops != [] && Kept(Exec(capacity, ops[..|ops| - 1]))
    ensures Good(Exec(capacity, ops[..|ops| - 1]).queue)
    ensures Exec(capacity, ops).queue == QueueAfter(Exec(capacity, ops[..|ops| - 1]).queue, ops[|ops| - 1])
  {
    hide Good, QueueAfter;
  }

  lemma StoryBegins(capacity: nat, ops: seq<Op>, path: string)
    requires ops != [] && path in Exec(capacity, ops).queue.entries
    requires var t := Exec(capacity, ops[..|ops| - 1]);
             && path !in t.queue.entries && Good(t.queue)
             && Exec(capacity, ops).queue == QueueAfter(t.queue, ops[|ops| - 1])
    ensures exists i: nat, m: nat :: Story(capacity, ops, path, i, m)
  {
    hide Exec, Good, QueueAfter;
    var n := |ops| - 1;
    EntryIsMade(Exec(capacity, ops[..n]), ops[n], path);
    assert ops[..|ops|] == ops;
    assert Story(capacity, ops, path, n, n);
  }

  lemma StoryContinues(capacity: nat, ops: seq<Op>, path: string, i: nat, m: nat)
    requires ops != [] && path in Exec(capacity, ops).queue.entries
    requires var t := Exec(capacity, ops[..|ops| - 1]);
             && path in t.queue.entries && Good(t.queue)
             && Exec(capacity, ops).queue == QueueAfter(t.queue, ops[|ops| - 1])
    requires Story(capacity, ops[..|ops| - 1], path, i, m)
    ensures exists i: nat, m: nat :: Story(capacity, ops, path, i, m)
  {
    hide Exec, Good, QueueAfter, Story;
    var n := |ops| - 1;
    EntryEvolves(Exec(capacity, ops[..n]), ops[n], path);
    StoryGoesOn(capacity, ops, path, i, m);
  }

  lemma SamePast(capacity: nat, ops: seq<Op>, path: string, j: nat)
    requires ops != [] && j < |ops| - 1
    ensures Renames(capacity, ops, path, j) <==> Renames(capacity, ops[..|ops| - 1], path, j)
  {
    hide Exec;
    assert ops[..|ops| - 1][..j] == ops[..j];
  }

  lemma OpenedStays(capacity: nat, ops: seq<Op>, path: string, i: nat)
    requires ops != [] && Opened(capacity, ops[..|ops| - 1], path, i) && path in Exec(capacity, ops).queue.entries
    ensures Opened(capacity, ops, path, i)
  {
    hide Exec;
    var n := |ops| - 1;
    assert ops[..n][..i] == ops[..i] && ops[..|ops|] == ops;
    forall j | i < j <= |ops| ensures path in Exec(capacity, ops[..j]).queue.entries {
      if j <= n {
        assert ops[..n][..j] == ops[..j];
      }
    }
  }

  lemma StoryGoesOn(capacity: nat, ops: seq<Op>, path: string, i: nat, m: nat)
    requires ops != [] && path in Exec(capacity, ops[..|ops| - 1]).queue.entries
    requires path in Exec(capacity, ops).queue.entries && Story(capacity, ops[..|ops| - 1], path, i, m)
    requires var e, e' := Exec(capacity, ops[..|ops| - 1]).queue.entries[path], Exec(capacity, ops).queue.entries[path];
             && e'.since == e.since
             && e'.origin == if Renames(capacity, ops, path, |ops| - 1) then ops[|ops| - 1].origin else e.origin
    ensures exists i: nat, m: nat :: Story(capacity, ops, path, i, m)
  {
    hide Exec, Opened, Renames;
    var n := |ops| - 1;
    OpenedStays(capacity, ops, path, i);
    assert ops[..n][i] == ops[i] && ops[..n][m] == ops[m];
    forall j | 0 <= j < n ensures Renames(capacity, ops, path, j) <==> Renames(capacity, ops[..n], path, j) {
      SamePast(capacity, ops, path, j);
    }
    if Renames(capacity, ops, path, n) {
      RenamesIsHint(capacity, ops, path, n);
      assert Story(capacity, ops, path, i, n);
    } else {
      assert Story(capacity, ops, path, i, m);
    }
  }

  lemma RenamesIsHint(capacity: nat, ops: seq<Op>, path: string, j: nat)
    requires Renames(capacity, ops, path, j)
    ensures HintOf(ops[j], path)
  {
  }

  // ---- the clock of an overflow, over runs ----

  /** Hint `i` found the queue full without its path, and was the first to since no overflow was
      open, or since the sweep for the open one began. */
  ghost predicate OpensOverflow(capacity: nat, ops: seq<Op>, i: nat) {
    && i < |ops| && ops[i].EnqueueOp?
    && var q := Exec(capacity, ops[..i]).queue;
       && ops[i].path !in q.entries && |q.entries| == q.capacity
       && (q.overflow.phase.Idle? || (q.overflow.phase.Reconciling? && !q.overflow.dirtyAgain))
  }

  /** A successful sweep that began after `i` has ended. */
  ghost predicate SweptSince(log: seq<Event>, i: nat) {
    exists k :: i < k < |log| && log[k] == Reconciled(true) && BegunSince(log[..k]) > i
  }

  /** The open overflow dates from such a hint that no successful sweep has covered, and the one that
      is to follow it from such a hint since the sweep began. */
  ghost predicate OverflowDated(capacity: nat, ops: seq<Op>) {
    var o, log := Exec(capacity, ops).queue.overflow, Exec(capacity, ops).log;
    && |log| == |ops|
    && (!o.phase.Idle? ==>
          exists i: nat :: OpensOverflow(capacity, ops, i) && ops[i].now == o.since && !SweptSince(log, i))
    && (o.dirtyAgain ==>
          exists i: nat :: OpensOverflow(capacity, ops, i) && ops[i].now == o.againSince && BegunSince(log) < i)
  }

  /** What a step does to the clocks of an overflow. */
  lemma OverflowEvolves(q: Queue, op: Op)
    requires Good(q)
    ensures var o, o' := q.overflow, QueueAfter(q, op).overflow;
            var opens := op.EnqueueOp? && op.path !in q.entries && |q.entries| == q.capacity
                         && (o.phase.Idle? || (o.phase.Reconciling? && !o.dirtyAgain));
            var swept := EventOf(q, op) == Reconciled(true);
            && (swept ==> o.phase.Reconciling?)
            && (EventOf(q, op).Began? ==> !o'.dirtyAgain)
            && (!o'.phase.Idle? ==>
                  || (!swept && !o.phase.Idle? && o'.since == o.since)
                  || (swept && o.dirtyAgain && o'.since == o.againSince)
                  || (opens && o'.since == op.now))
            && (o'.dirtyAgain ==>
                  (o.dirtyAgain && o'.againSince == o.againSince && !EventOf(q, op).Reconciled?)
                  || (opens && o'.againSince == op.now))
  {
    if op.TakeOp? {
      TakeIsFifo(q, Least(op.limit, |q.order|));
      hide Good, Take;
    }
  }

  /** A sweep that is under way has not ended since it began. */
  lemma {:induction false} UnderWaySince(log: seq<Event>, k: nat)
    requires BegunSince(log) < k < |log| && BegunSince(log) >= 0
    ensures !log[k].Reconciled?
  {
    var n := |log| - 1;
    if k < n {
      UnderWaySince(log[..n], k);
    }
  }

  lemma SweptSnoc(log: seq<Event>, e: Event, i: nat)
    ensures SweptSince(log + [e], i) <==>
            SweptSince(log, i) || (i < |log| && e == Reconciled(true) && BegunSince(log) > i)
  {
    hide BegunSince;
    var longer := log + [e];
    assert longer[..|log|] == log;
    forall k | 0 <= k < |log| ensures longer[..k] == log[..k] && longer[k] == log[k] {}
    if SweptSince(log, i) {
      var k :| i < k < |log| && log[k] == Reconciled(true) && BegunSince(log[..k]) > i;
      assert longer[k] == Reconciled(true);
    }
    if i < |log| && e == Reconciled(true) && BegunSince(log) > i {
      assert longer[|log|] == Reconciled(true);
    }
  }

  /** What the log holds of the dates after one more step. */
  lemma DatesGoOn(capacity: nat, ops: seq<Op>)
    requires ops != [] && OverflowDated(capacity, ops[..|ops| - 1]) && Good(Exec(capacity, ops[..|ops| - 1]).queue)
    requires BegunSince(Exec(capacity, ops[..|ops| - 1]).log) >= 0 <==>
             Exec(capacity, ops[..|ops| - 1]).queue.overflow.phase.Reconciling?
    ensures OverflowDated(capacity, ops)
  {
    var n := |ops| - 1;
    var before := ops[..n];
    var t, t' := Exec(capacity, before), Exec(capacity, ops);
    var e := EventOf(t.queue, ops[n]);
    OverflowEvolves(t.queue, ops[n]);
    assert t'.queue == QueueAfter(t.queue, ops[n]) && t'.log == t.log + [e];
    assert OpensOverflow(capacity, ops, n) <==>
        && ops[n].EnqueueOp? && ops[n].path !in t.queue.entries && |t.queue.entries| == t.queue.capacity
        && (t.queue.overflow.phase.Idle? || (t.queue.overflow.phase.Reconciling? && !t.queue.overflow.dirtyAgain));
    forall i: nat | OpensOverflow(capacity, before, i)
      ensures OpensOverflow(capacity, ops, i) && ops[i] == before[i]
    {
      assert before[..i] == ops[..i];
    }
    forall i: nat
      ensures SweptSince(t'.log, i) <==>
              SweptSince(t.log, i) || (i < n && e == Reconciled(true) && BegunSince(t.log) > i)
    {
      SweptSnoc(t.log, e, i);
    }
    TakenSnoc(t.log, e, "");
    SinceIsPast(t.log, "");
    hide QueueAfter, EventOf, Exec, OpensOverflow, Good, BegunSince;
    if t.queue.overflow.dirtyAgain {
      var i: nat :| OpensOverflow(capacity, before, i) && before[i].now == t.queue.overflow.againSince
        && BegunSince(t.log) < i;
      LaterThanSweep(t, i);
    }
    hide SweptSince;
  }

  lemma LaterThanSweep(t: Trace, i: nat)
    requires BegunSince(t.log) < i && BegunSince(t.log) >= 0
    ensures !SweptSince(t.log, i)
  {
    forall k | i < k < |t.log| ensures !t.log[k].Reconciled? {
      UnderWaySince(t.log, k);
    }
  }

  lemma {:induction false} OverflowsAreDated(capacity: nat, ops: seq<Op>)
    requires SanctionedRun(capacity, ops)
    ensures OverflowDated(capacity, ops)
    decreases |ops|
  {
    if ops != [] {
      var before := ops[..|ops| - 1];
      OverflowsAreDated(capacity, before);
      RunKeeps(capacity, before);
      hide OverflowDated, Good;
      assert UnderWay(Exec(capacity, before));
      hide Exec;
      DatesGoOn(capacity, ops);
    }
  }
}
