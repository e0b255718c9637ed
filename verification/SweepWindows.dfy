/** The rolling window of a bounded recovery sweep (webhook/manager.go). */
module SweepWindows {
  import opened Texts

  /** A position counted around a ring of `k`. */
  function Wrap(x: nat, k: nat): (r: nat)
    requires k > 0
    ensures r < k
  {
    if x < k then x else Wrap(x - k, k)
  }

  lemma WrapOnce(x: nat, k: nat)
    requires 0 < k && x < 2 * k
    ensures Wrap(x, k) == if x < k then x else x - k
    ensures x <= k ==> Wrap(x, k) == x % k
  {
  }

  lemma {:induction false} WrapAdd(x: nat, y: nat, k: nat)
    requires k > 0
    ensures Wrap(Wrap(x, k) + y, k) == Wrap(x + y, k)
    decreases x
  {
    if x >= k {
      WrapAdd(x - k, y, k);
      assert x - k + y == x + y - k;
    }
  }

  /** `n` items from `start` on, around the end. */
  function Around(items: seq<string>, start: nat, n: nat): (r: seq<string>)
    requires items != []
    ensures |r| == n
  {
    seq(n, i requires 0 <= i < n => items[Wrap(start + i, |items|)])
  }

  function StartFrom(cursor: nat, count: nat): nat {
    if cursor >= count then 0 else cursor
  }

  /** A window cut at the end and continued at the front. */
  lemma CutIsAround(items: seq<string>, start: nat, n: nat)
    requires start < |items| && 0 < n < |items|
    ensures start + n <= |items| ==> items[start..start + n] == Around(items, start, n)
    ensures start + n > |items| ==> items[start..] + items[..start + n - |items|] == Around(items, start, n)
  {
    var k, w := |items|, Around(items, start, n);
    forall i | 0 <= i < n ensures w[i] == items[if start + i < k then start + i else start + i - k] {
      WrapOnce(start + i, k);
    }
  }

  class Sweeper {
    const sweepBatch: int
    var sweepCursor: nat

    constructor (sweepBatch: int)
      ensures this.sweepBatch == sweepBatch && sweepCursor == 0
    {
      this.sweepBatch, sweepCursor := sweepBatch, 0;
    }

    /** The ids that this tick sweeps. */
    method Window(ids: seq<string>) returns (window: seq<string>)
      modifies this
      ensures window == WindowOf(sweepBatch, old(sweepCursor), ids)
      ensures sweepCursor == CursorAfter(sweepBatch, old(sweepCursor), |ids|)
    {
      if sweepBatch <= 0 || |ids| <= sweepBatch {
        sweepCursor := 0;
        return ids;
      }
      hide Sort, Around, Wrap;
      var sorted := Sort(ids);
      SortSize(ids);
      var start := sweepCursor;
      if start >= |sorted| {
        start := 0;
      }
      var end := start + sweepBatch;
      CutIsAround(sorted, start, sweepBatch);
      WrapOnce(end, |sorted|);
      if end <= |sorted| {
        sweepCursor := end % |sorted|;
        return sorted[start..end];
      }
      window := sorted[start..] + sorted[..end - |sorted|];
      sweepCursor := end - |sorted|;
    }
  }

  lemma SortSize(ids: seq<string>)
    ensures |Sort(ids)| == |ids|
  {
    SortSorts(ids);
    assert |Sort(ids)| == |multiset(Sort(ids))| == |ids|;
  }

  /** All ids, or the next `batch` of them in sorted order, around the end. */
  function WindowOf(batch: int, cursor: nat, ids: seq<string>): seq<string> {
    if batch <= 0 || |ids| <= batch then ids
    else
      SortSize(ids);
      Around(Sort(ids), StartFrom(cursor, |ids|), batch)
  }

  function CursorAfter(batch: int, cursor: nat, count: nat): nat {
    if batch <= 0 || count <= batch then 0 else Wrap(StartFrom(cursor, count) + batch, count)
  }

  /** The cursor after `n` ticks over a set of `count` ids. */
  function CursorAt(batch: int, cursor: nat, count: nat, n: nat): nat {
    if n == 0 then cursor else CursorAfter(batch, CursorAt(batch, cursor, count, n - 1), count)
  }

  lemma {:induction false} CursorMoves(batch: nat, cursor: nat, count: nat, n: nat)
    requires 0 < batch < count
    ensures StartFrom(CursorAt(batch, cursor, count, n), count) == Wrap(StartFrom(cursor, count) + n * batch, count)
  {
    var start := StartFrom(cursor, count);
    if n > 0 {
      CursorMoves(batch, cursor, count, n - 1);
      WrapAdd(start + (n - 1) * batch, batch, count);
      assert n * batch == (n - 1) * batch + batch;
    }
  }

  /** The same ids, in whatever order each tick lists them. */
  ghost predicate SameIds(ticks: seq<seq<string>>, ids: seq<string>) {
    forall j :: 0 <= j < |ticks| ==> multiset(ticks[j]) == multiset(ids)
  }

  /** Enough ticks to cover every id once: at least the ids divided by the batch, rounded up. */
  ghost predicate Enough(batch: int, n: nat, count: nat) {
    if batch <= 0 then n > 0 else n > 0 && n * batch >= count
  }

  lemma PlaceInOrder(ids: seq<string>, id: string) returns (p: nat)
    requires id in ids
    ensures |Sort(ids)| == |ids| && p < |ids| && Sort(ids)[p] == id
  {
    hide Sort;
    SortSorts(ids);
    SortSize(ids);
    assert id in multiset(ids);
    assert id in multiset(Sort(ids));
    p :| 0 <= p < |ids| && Sort(ids)[p] == id;
  }

  /** From any cursor, every id is swept within that many consecutive ticks. */
  lemma EveryIdIsSwept(batch: int, cursor: nat, ticks: seq<seq<string>>, ids: seq<string>, id: string) returns (j: nat)
    requires SameIds(ticks, ids) && id in ids && Enough(batch, |ticks|, |ids|)
    ensures j < |ticks| && id in WindowOf(batch, CursorAt(batch, cursor, |ids|, j), ticks[j])
  {
    if batch <= 0 || |ids| <= batch {
      j := 0;
      assert |ticks[0]| == |multiset(ticks[0])| == |ids|;
      assert id in multiset(ids);
    } else {
      hide Sort, Wrap, WindowOf, CursorAt, StartFrom;
      var p := PlaceInOrder(ids, id);
      var t;
      j, t := PositionIsSwept(batch, cursor, |ids|, |ticks|, p);
      var at := CursorAt(batch, cursor, |ids|, j);
      SameWindow(batch, at, ticks[j], ids);
      assert Around(Sort(ids), StartFrom(at, |ids|), batch)[t] == id;
    }
  }

  /** A bounded window does not depend on the order in which the ids are listed. */
  lemma SameWindow(batch: int, cursor: nat, tick: seq<string>, ids: seq<string>)
    requires multiset(tick) == multiset(ids) && 0 < batch < |ids|
    ensures |Sort(ids)| == |ids| && WindowOf(batch, cursor, tick) == Around(Sort(ids), StartFrom(cursor, |ids|), batch)
  {
    SortSorts(ids);
    SortSorts(tick);
    SortedIsUnique(Sort(tick), Sort(ids));
    assert |tick| == |multiset(tick)| == |ids| && |Sort(ids)| == |multiset(Sort(ids))|;
  }

  /** Each position comes up in one of the windows. */
  lemma PositionIsSwept(batch: nat, cursor: nat, count: nat, n: nat, p: nat) returns (j: nat, t: nat)
    requires 0 < batch < count && n * batch >= count && p < count
    ensures j < n && t < batch && Wrap(StartFrom(CursorAt(batch, cursor, count, j), count) + t, count) == p
  {
    var start := StartFrom(cursor, count);
    var d := if p >= start then p - start else p + count - start;
    j, t := WhichTick(batch, n, d);
    CursorMoves(batch, cursor, count, j);
    WrapAdd(start + j * batch, t, count);
    assert start + j * batch + t == start + d;
    assert start + d == p || start + d == p + count;
  }

  lemma {:induction false} WhichTick(batch: nat, n: nat, d: nat) returns (j: nat, t: nat)
    requires d < n * batch
    ensures j < n && t < batch && d == j * batch + t
    decreases n
  {
    assert n > 0;
    assert n * batch == (n - 1) * batch + batch;
    if d >= (n - 1) * batch {
      j, t := n - 1, d - (n - 1) * batch;
    } else {
      j, t := WhichTick(batch, n - 1, d);
    }
  }

  /** A tick sweeps no more than the batch, and no id twice. */
  lemma WindowIsBounded(batch: int, cursor: nat, ids: seq<string>)
    requires forall i, j :: 0 <= i < j < |ids| ==> ids[i] != ids[j]
    ensures var window := WindowOf(batch, cursor, ids);
            && |window| == (if batch <= 0 || |ids| <= batch then |ids| else batch)
            && (forall i, j :: 0 <= i < j < |window| ==> window[i] != window[j])
            && (forall i :: 0 <= i < |window| ==> window[i] in ids)
  {
    if 0 < batch < |ids| {
      SortSorts(ids);
      SortSize(ids);
      SortKeepsDistinct(ids, Sort(ids));
      forall x | x in Sort(ids) ensures x in ids {
        assert x in multiset(Sort(ids));
      }
      hide Sort, Wrap;
      AroundIsDistinct(Sort(ids), StartFrom(cursor, |ids|), batch);
    }
  }

  lemma AroundIsDistinct(items: seq<string>, start: nat, n: nat)
    requires start < |items| && n < |items| && forall i, j :: 0 <= i < j < |items| ==> items[i] != items[j]
    ensures var window := Around(items, start, n);
            && (forall i, j :: 0 <= i < j < |window| ==> window[i] != window[j])
            && (forall i :: 0 <= i < |window| ==> window[i] in items)
  {
    var window, k := Around(items, start, n), |items|;
    hide Wrap;
    forall i, j | 0 <= i < j < |window| ensures window[i] != window[j] {
      WrapOnce(start + i, k);
      WrapOnce(start + j, k);
    }
    forall i | 0 <= i < |window| ensures window[i] in items {
      assert window[i] == items[Wrap(start + i, k)];
    }
  }

  lemma SortKeepsDistinct(ids: seq<string>, sorted: seq<string>)
    requires forall i, j :: 0 <= i < j < |ids| ==> ids[i] != ids[j]
    requires multiset(sorted) == multiset(ids)
    ensures forall i, j :: 0 <= i < j < |sorted| ==> sorted[i] != sorted[j]
  {
    forall i, j | 0 <= i < j < |sorted| ensures sorted[i] != sorted[j] {
      if sorted[i] == sorted[j] {
        TwiceMeansTwo(sorted, i, j);
        OnceMeansOne(ids, sorted[i]);
      }
    }
  }

  lemma TwiceMeansTwo(s: seq<string>, i: nat, j: nat)
    requires i < j < |s| && s[i] == s[j]
    ensures multiset(s)[s[i]] >= 2
  {
    assert s == s[..i] + [s[i]] + s[i + 1..j] + [s[j]] + s[j + 1..];
  }

  lemma {:induction false} OnceMeansOne(s: seq<string>, x: string)
    requires forall i, j :: 0 <= i < j < |s| ==> s[i] != s[j]
    ensures multiset(s)[x] <= 1
  {
    if s != [] {
      OnceMeansOne(s[1..], x);
      assert s == [s[0]] + s[1..];
      if s[0] == x {
        assert x !in s[1..];
        assert x !in multiset(s[1..]);
      }
    }
  }
}
