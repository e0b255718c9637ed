/** The dirty queue as it is stored: a ring, a map of entries and an overflow epoch
    (webhook/dirty_queue.go). */
module DirtyQueues {
  import opened DirtyHints

  // ---- the ring ----

  /** The `n` slots from `head` on, around the end. */
  function Window(ring: seq<string>, head: nat, n: nat): (r: seq<string>)
    requires ring != []
    ensures |r| == n
  {
    seq(n, i requires 0 <= i < n => ring[(head + i) % |ring|])
  }

  lemma SlotOf(head: nat, i: nat, c: nat)
    requires head < c && i <= c
    ensures (head + i) % c == if head + i < c then head + i else head + i - c
  {
    if head + i >= c {
      assert (head + i) % c == (head + i - c) % c;
    }
  }

  lemma WindowPush(ring: seq<string>, head: nat, n: nat, path: string)
    requires head < |ring| && n < |ring|
    ensures Window(ring[(head + n) % |ring| := path], head, n + 1) == Window(ring, head, n) + [path]
  {
    var c := |ring|;
    SlotOf(head, n, c);
    var w, w' := Window(ring, head, n), Window(ring[(head + n) % c := path], head, n + 1);
    forall i | 0 <= i < n + 1 ensures w'[i] == (w + [path])[i] {
      SlotOf(head, i, c);
    }
  }

  lemma WindowPop(ring: seq<string>, head: nat, n: nat)
    requires head < |ring| && 0 < n <= |ring|
    ensures Window(ring, head, n)[0] == ring[head]
    ensures Window(ring[head := ""], (head + 1) % |ring|, n - 1) == Window(ring, head, n)[1..]
  {
    var c, ring', head' := |ring|, ring[head := ""], (head + 1) % |ring|;
    SlotOf(head, 0, c);
    SlotOf(head, 1, c);
    var w, w' := Window(ring, head, n), Window(ring', head', n - 1);
    forall i | 0 <= i < n - 1 ensures w'[i] == w[1..][i] {
      SlotOf(head', i, c);
      SlotOf(head, i + 1, c);
    }
  }

  // ---- the oldest hint ----

  /** `oldest` is the least `since` of all entries, and 0 when there are none. */
  ghost predicate IsOldest(entries: map<string, Entry>, oldest: nat) {
    if |entries| == 0 then oldest == 0
    else
      && (exists p :: p in entries && entries[p].since == oldest)
      && (forall p :: p in entries ==> oldest <= entries[p].since)
  }

  /** Clock readings are never the zero time. */
  ghost predicate Timed(entries: map<string, Entry>) {
    forall p :: p in entries ==> entries[p].since > 0
  }

  ghost predicate TimedOverflow(o: Overflow) {
    (!o.phase.Idle? ==> o.since > 0) && (o.dirtyAgain ==> o.againSince > 0)
  }

  lemma OldestAfterInsert(entries: map<string, Entry>, oldest: nat, path: string, entry: Entry)
    requires IsOldest(entries, oldest) && Timed(entries) && path !in entries && entry.since > 0
    ensures |entries[path := entry]| == |entries| + 1 && Timed(entries[path := entry])
    ensures IsOldest(entries[path := entry], if oldest == 0 || entry.since < oldest then entry.since else oldest)
  {
    var entries' := entries[path := entry];
    assert path in entries';
    if |entries| > 0 {
      var p :| p in entries && entries[p].since == oldest;
      assert p in entries';
    } else {
      assert entries.Keys == {};
    }
  }

  lemma OldestAfterUpdate(entries: map<string, Entry>, oldest: nat, path: string, entry: Entry)
    requires IsOldest(entries, oldest) && Timed(entries) && path in entries && entry.since == entries[path].since
    ensures IsOldest(entries[path := entry], oldest) && Timed(entries[path := entry])
  {
    var entries' := entries[path := entry];
    assert entries'.Keys == entries.Keys;
    var p :| p in entries && entries[p].since == oldest;
    assert p in entries' && entries'[p].since == oldest;
  }

  lemma OldestAfterDelete(entries: map<string, Entry>, oldest: nat, path: string)
    requires IsOldest(entries, oldest) && Timed(entries) && path in entries && entries[path].since != oldest
    ensures IsOldest(entries - {path}, oldest)
  {
    var p :| p in entries && entries[p].since == oldest;
    assert p in entries - {path};
  }

  class DirtyQueue {
    const capacity: nat
    const ready: array<string>
    var entries: map<string, Entry>
    var head: nat
    var readyN: nat
    var oldest: nat
    var overflow: Overflow

    ghost function State(): Queue
      reads this, ready
      requires ready.Length > 0
    {
      Queue(capacity, entries, Window(ready[..], head, readyN), overflow)
    }

    ghost predicate Valid()
      reads this, ready
    {
      && 0 < capacity == ready.Length && head < capacity && readyN <= capacity
      && Good(State()) && Timed(entries) && TimedOverflow(overflow) && IsOldest(entries, oldest)
    }

    constructor (capacity: nat)
      requires capacity > 0
      ensures Valid() && fresh(ready) && State() == Queue(capacity, map[], [], NO_OVERFLOW)
    {
      this.capacity := capacity;
      ready := new string[capacity](_ => "");
      entries, head, readyN, oldest, overflow := map[], 0, 0, 0, NO_OVERFLOW;
    }

    /** Adds a path at the end of the ring. */
    method Push(path: string)
      requires 0 < capacity == ready.Length && head < capacity && readyN < capacity
      modifies ready, `readyN
      ensures readyN == old(readyN) + 1
      ensures Window(ready[..], head, readyN) == old(Window(ready[..], head, readyN)) + [path]
    {
      var idx := (head + readyN) % capacity;
      WindowPush(ready[..], head, readyN, path);
      ghost var before := ready[..];
      ready[idx] := path;
      assert ready[..] == before[idx := path];
      readyN := readyN + 1;
    }

    /** Removes the path at the head of the ring. */
    method Pop() returns (path: string)
      requires 0 < capacity == ready.Length && head < capacity && 0 < readyN <= capacity
      modifies ready, `head, `readyN
      ensures head < capacity && readyN == old(readyN) - 1
      ensures [path] + Window(ready[..], head, readyN) == old(Window(ready[..], head, readyN))
    {
      path := ready[head];
      WindowPop(ready[..], head, readyN);
      ghost var before := ready[..];
      ready[head] := "";
      assert ready[..] == before[head := ""];
      head := (head + 1) % capacity;
      readyN := readyN - 1;
    }

    method RecomputeOldest()
      modifies `oldest
      requires Timed(entries)
      ensures IsOldest(entries, oldest)
    {
      oldest := 0;
      var left := entries.Keys;
      while left != {}
        invariant left <= entries.Keys && (oldest == 0 <==> left == entries.Keys)
        invariant oldest > 0 ==> exists p :: p in entries && p !in left && entries[p].since == oldest
        invariant forall p :: p in entries && p !in left ==> oldest <= entries[p].since
        decreases |left|
      {
        var p :| p in left;
        if oldest == 0 || entries[p].since < oldest {
          oldest := entries[p].since;
        }
        left := left - {p};
      }
      assert |entries| == |entries.Keys|;
    }

    method EnqueueHint(path: string, now: nat, origin: Origin) returns (result: EnqueueResult, requestRecovery: bool)
      requires Valid() && now > 0
      modifies this, ready
      ensures Valid() && State() == Enqueue(old(State()), path, now, origin)
      ensures result == EnqueueAnswer(old(State()), path)
      ensures requestRecovery <==> result == Overflowed
    {
      EnqueueKeeps(State(), path, now, origin);
      if path in entries {
        var entry := entries[path];
        if entry.phase.Queued? {
          return CoalescedQueued, false;
        }
        entry := entry.(dirtyAgain := true);
        if origin.Known() {
          entry := entry.(origin := origin);
        }
        OldestAfterUpdate(entries, oldest, path, entry);
        entries := entries[path := entry];
        return CoalescedProcessing, false;
      }
      if |entries| == capacity {
        result, requestRecovery := NoteOverflowing(now);
        return;
      }
      OrderFits(State());
      OldestAfterInsert(entries, oldest, path, Entry(Queued, now, false, origin));
      entries := entries[path := Entry(Queued, now, false, origin)];
      Push(path);
      if oldest == 0 || now < oldest {
        oldest := now;
      }
      return Enqueued, false;
    }

    method NoteOverflowing(now: nat) returns (result: EnqueueResult, requestRecovery: bool)
      modifies `overflow
      ensures overflow == NoteOverflow(old(overflow), now)
      ensures result == if old(overflow).phase.Idle? then Overflowed else OverflowCoalesced
      ensures requestRecovery <==> result == Overflowed
    {
      match overflow.phase {
        case Idle =>
          overflow := Overflow(Pending, now, false, 0);
          return Overflowed, true;
        case Pending =>
          return OverflowCoalesced, false;
        case Reconciling =>
          if !overflow.dirtyAgain {
            overflow := overflow.(dirtyAgain := true, againSince := now);
          }
          return OverflowCoalesced, false;
      }
    }

    /** Hands out the paths at the head of the ring. */
    method TakeWork(limit: nat) returns (work: seq<Work>)
      requires Valid() && limit > 0
      modifies this, ready
      ensures Valid() && State() == Take(old(State()), Least(limit, old(readyN)))
      ensures work == Handed(old(State()), Least(limit, old(readyN)))
    {
      hide Good, Timed, IsOldest, Window, TakeOne;
      work := [];
      var n := Least(limit, readyN);
      ghost var q := State();
      for i := 0 to n
        invariant Valid() && n - i <= readyN
        invariant Take(State(), n - i) == Take(q, n) && work + Handed(State(), n - i) == Handed(q, n)
      {
        TakeOneKeeps(State());
        var item := TakeNext();
        work := work + [item];
      }
    }

    method TakeNext() returns (work: Work)
      requires Valid() && readyN > 0
      modifies this, ready
      ensures Valid() && State() == TakeOne(old(State())) && readyN == old(readyN) - 1
      ensures old(State()).order[0] in old(State()).entries && work == WorkOn(old(State()), old(State()).order[0])
    {
      TakeOneKeeps(State());
      hide Good, Timed, IsOldest, Window;
      var path := Pop();
      var entry := entries[path];
      OldestAfterUpdate(entries, oldest, path, entry.(phase := Processing));
      entries := entries[path := entry.(phase := Processing)];
      work := Work(path, entry.since, entry.origin);
    }

    /** Ends the work on a path that was handed out. */
    method CompleteWork(path: string, retry: bool)
      requires Valid() && path in entries && entries[path].phase.Processing?
      modifies this, ready
      ensures Valid() && State() == Complete(old(State()), path, retry)
    {
      hide Good, Timed, IsOldest, Window;
      CompleteKeeps(State(), path, retry);
      ghost var q := State();
      var entry := entries[path];
      if retry || entry.dirtyAgain {
        OrderLeavesRoom(q, path);
        entry := entry.(phase := Queued, dirtyAgain := false);
        OldestAfterUpdate(entries, oldest, path, entry);
        entries := entries[path := entry];
        Push(path);
        return;
      }
      TimedAfterDelete(entries, path);
      if entry.since == oldest {
        entries := entries - {path};
        RecomputeOldest();
      } else {
        OldestAfterDelete(entries, oldest, path);
        entries := entries - {path};
      }
    }

    method BeginReconciling() returns (since: nat, pending: bool)
      requires Valid()
      modifies `overflow
      ensures Valid() && State() == BeginReconcile(old(State()))
      ensures pending == old(overflow).phase.Pending? && since == if pending then overflow.since else 0
    {
      hide Timed, IsOldest, Window;
      if !overflow.phase.Pending? {
        return 0, false;
      }
      overflow := overflow.(phase := Reconciling);
      return overflow.since, true;
    }

    /** Ends a recovery sweep; the answer asks for another. */
    method CompleteReconciling(success: bool) returns (again: bool)
      requires Valid()
      modifies `overflow
      ensures Valid() && State() == CompleteReconcile(old(State()), success)
      ensures again == (old(overflow).phase.Reconciling? && overflow.phase.Pending?)
    {
      hide Timed, IsOldest, Window;
      if !overflow.phase.Reconciling? {
        return false;
      }
      if !success {
        overflow := overflow.(phase := Pending, dirtyAgain := false, againSince := 0);
        return true;
      }
      if overflow.dirtyAgain {
        overflow := Overflow(Pending, overflow.againSince, false, 0);
        return true;
      }
      overflow := NO_OVERFLOW;
      return false;
    }

    /** The age of the oldest hint or overflow that the queue still stands for. */
    method OldestAge(now: nat) returns (age: nat)
      requires Valid()
      ensures forall p :: p in entries && entries[p].since <= now ==> now - entries[p].since <= age
      ensures !overflow.phase.Idle? && overflow.since <= now ==> now - overflow.since <= age
      ensures age > 0 ==>
                || (exists p :: p in entries && age == now - entries[p].since)
                || (!overflow.phase.Idle? && age == now - overflow.since)
    {
      hide Good, Window;
      var eldest := oldest;
      if !overflow.phase.Idle? && (eldest == 0 || overflow.since < eldest) {
        eldest := overflow.since;
      }
      age := if eldest != 0 && now > eldest then now - eldest else 0;
    }
  }

  lemma TimedAfterDelete(entries: map<string, Entry>, path: string)
    requires Timed(entries)
    ensures Timed(entries - {path})
  {
  }

  /** A path under way is not in the ring, so there is room to queue it again. */
  lemma OrderLeavesRoom(q: Queue, path: string)
    requires Good(q) && path in q.entries && q.entries[path].phase.Processing?
    ensures |q.order| < q.capacity
  {
    var rest := Queue(q.capacity, q.entries - {path}, q.order, NO_OVERFLOW);
    assert path !in q.order;
    assert rest.entries.Keys == q.entries.Keys - {path};
    OrderFits(rest);
  }
}
