/** Bounded pages over fork chains (store/memory_store.go:877-996, 1099-1127, store/page.go). */
module Paging {
  import opened Prelude
  import opened Offsets
  import opened StoreModel
  import opened StoreOps
  import opened StoreInvariants
  import opened ForkContent

  const DEFAULT_PAGE_BYTES := 0x10_0000
  const DEFAULT_PAGE_FRAMES := 1024

  datatype PageOptions = PageOptions(targetBytes: int, maxFrames: int, snapshot: Option<Snapshot>, noTouch: bool) {
    function Normalize(): (o: PageOptions)
      ensures o.targetBytes > 0 && o.maxFrames > 0
      ensures targetBytes > 0 && maxFrames > 0 ==> o == this
    {
      this.(targetBytes := if targetBytes <= 0 then DEFAULT_PAGE_BYTES else targetBytes,
            maxFrames := if maxFrames <= 0 then DEFAULT_PAGE_FRAMES else maxFrames)
    }
  }

  datatype Page = Page(
    messages: seq<Message>, nextOffset: Offset, snapshot: Snapshot, upToDate: bool,
    fetched: nat, returned: nat, discarded: nat)

  // ---- the visitor ----

  /** A page being filled. */
  datatype Filling = Filling(messages: seq<Message>, next: Offset, fetched: nat, returned: nat, discarded: nat)

  /** One visited message; the walk goes on while `more` holds. */
  datatype Visited = Visited(page: Filling, more: bool)

  function Visit(page: Filling, m: Message, target: int, maxFrames: int): Visited {
    var n := |m.data|;
    if |page.messages| >= maxFrames then Visited(page, false)
    else if |page.messages| > 0 && page.returned + n > target then
      Visited(page.(fetched := page.fetched + n, discarded := page.discarded + n), false)
    else
      var page' := Filling(page.messages + [m], m.offset, page.fetched + n, page.returned + n, page.discarded);
      Visited(page', page'.returned < target)
  }

  /** The visitor run over a list, until it stops. */
  function VisitAll(page: Filling, ms: seq<Message>, target: int, maxFrames: int): Visited
    decreases |ms|
  {
    if ms == [] then Visited(page, true)
    else
      var v := Visit(page, ms[0], target, maxFrames);
      if v.more then VisitAll(v.page, ms[1..], target, maxFrames) else v
  }

  lemma {:induction false} VisitConcat(page: Filling, a: seq<Message>, b: seq<Message>, target: int, maxFrames: int)
    ensures var v := VisitAll(page, a, target, maxFrames);
            VisitAll(page, a + b, target, maxFrames) ==
            if v.more then VisitAll(v.page, b, target, maxFrames) else v
    decreases |a|
  {
    if a == [] {
      assert a + b == b;
    } else {
      assert (a + b)[1..] == a[1..] + b;
      VisitConcat(Visit(page, a[0], target, maxFrames).page, a[1..], b, target, maxFrames);
    }
  }

  // ---- what the walk visits ----

  /** The messages in (o, u]. */
  function Between(ms: seq<Message>, o: Offset, u: Offset): seq<Message> {
    UpTo(After(ms, o), u)
  }

  function Earlier(a: Offset, b: Offset): Offset {
    if b.LessThan(a) then b else a
  }

  lemma {:induction false} UpToTwice(ms: seq<Message>, u: Offset, v: Offset)
    ensures UpTo(UpTo(ms, u), v) == UpTo(ms, Earlier(v, u))
  {
    if ms != [] {
      UpToTwice(ms[..|ms| - 1], u, v);
      UpToSnoc(UpTo(ms[..|ms| - 1], u), ms[|ms| - 1], v);
    }
  }

  lemma UpToSnoc(ms: seq<Message>, m: Message, u: Offset)
    ensures UpTo(ms + [m], u) == if m.offset.LessThanOrEqual(u) then UpTo(ms, u) + [m] else UpTo(ms, u)
  {
    assert (ms + [m])[..|ms|] == ms;
  }

  lemma {:induction false} CutsCommute(ms: seq<Message>, o: Offset, u: Offset)
    ensures UpTo(After(ms, o), u) == After(UpTo(ms, u), o)
  {
    if ms != [] {
      var rest, m := ms[..|ms| - 1], ms[|ms| - 1];
      CutsCommute(rest, o, u);
      UpToSnoc(After(rest, o), m, u);
      assert (UpTo(rest, u) + [m])[..|UpTo(rest, u)|] == UpTo(rest, u);
    }
  }

  lemma BetweenSnoc(ms: seq<Message>, m: Message, o: Offset, u: Offset)
    ensures Between(ms + [m], o, u) ==
            if o.LessThan(m.offset) && m.offset.LessThanOrEqual(u) then Between(ms, o, u) + [m] else Between(ms, o, u)
  {
    assert (ms + [m])[..|ms|] == ms;
    UpToSnoc(After(ms, o), m, u);
  }

  lemma VisitSnoc(page: Filling, ms: seq<Message>, m: Message, target: int, maxFrames: int)
    requires VisitAll(page, ms, target, maxFrames).more
    ensures VisitAll(page, ms + [m], target, maxFrames) ==
            Visit(VisitAll(page, ms, target, maxFrames).page, m, target, maxFrames)
  {
    VisitConcat(page, ms, [m], target, maxFrames);
    assert [m][1..] == [];
  }

  // ---- one page ----

  function PayloadBytes(ms: seq<Message>): nat {
    if ms == [] then 0 else PayloadBytes(ms[..|ms| - 1]) + |ms[|ms| - 1].data|
  }

  /** The page filled from the visible interval `view`, starting at `start`. */
  function FillPage(view: seq<Message>, start: Offset, snapshot: Snapshot, target: int, maxFrames: int): Page {
    var p := VisitAll(Filling([], start, 0, 0, 0), view, target, maxFrames).page;
    var next := if p.messages == [] then snapshot.tail else p.next;
    Page(p.messages, next, snapshot, next == snapshot.tail, p.fetched, p.returned, p.discarded)
  }

  /** Where a read of `offset` starts under a snapshot. */
  function ReadStart(offset: Offset, snapshot: Snapshot): Offset {
    if offset.IsNow() then snapshot.tail else offset
  }

  function PageOf(s: Store, path: string, offset: Offset, snapshot: Snapshot, target: int, maxFrames: int): (page: Page)
    ensures page.snapshot == snapshot
  {
    var start := ReadStart(offset, snapshot);
    FillPage(Between(Whole(s, path), start, snapshot.tail), start, snapshot, target, maxFrames)
  }

  /** `ReadPage`, apart from what it does to the store.  A page is bounded by the snapshot it was
      given, or by the stream as it is if it was given none. */
  function ReadPageReply(s: Store, path: string, offset: Offset, options: PageOptions, now: int)
    : (r: Result<Page, StoreError>)
    ensures r.Ok? && options.snapshot.Some? ==> r.value.snapshot == options.snapshot.value
    ensures r.Ok? ==> path in s.streams
    ensures r.Ok? && options.snapshot.None? ==>
              var m := s.streams[path].meta;
              r.value.snapshot == Snapshot(m.currentOffset, m.contentType, m.closed, m.incarnation)
  {
    var opts := options.Normalize();
    match ReadGate(s, path, opts.snapshot, now)
    case Err(e) => Err(e)
    case Ok(snapshot) => Ok(PageOf(s, path, offset, snapshot, opts.targetBytes, opts.maxFrames))
  }

  /** The stream can be read. */
  ghost predicate Readable(s: Store, path: string, now: int) {
    path in s.streams && !IsExpiredAt(s.streams[path].meta, now) && !s.streams[path].meta.softDeleted
  }

  /** The snapshot was taken of another stream: of another incarnation, or of none, or of another
      media type. */
  ghost predicate Outdated(snapshot: Snapshot, m: Metadata) {
    || snapshot.incarnation == 0 || snapshot.incarnation != m.incarnation
    || ToLower(MediaType(OrDefault(snapshot.contentType))) != ToLower(MediaType(OrDefault(m.contentType)))
  }

  /** What a page read answers. */
  lemma ReadPageAnswers(s: Store, path: string, offset: Offset, options: PageOptions, now: int)
    ensures var r := ReadPageReply(s, path, offset, options, now);
            && (r == Err(StreamNotFound) <==> path !in s.streams || IsExpiredAt(s.streams[path].meta, now))
            && (r == Err(StreamSoftDeleted) <==>
                path in s.streams && !IsExpiredAt(s.streams[path].meta, now) && s.streams[path].meta.softDeleted)
            && (r == Err(ReadSnapshotChanged) <==>
                && Readable(s, path, now) && options.snapshot.Some?
                && Outdated(options.snapshot.value, s.streams[path].meta))
            && (r.Ok? <==>
                && Readable(s, path, now)
                && (options.snapshot.Some? ==> !Outdated(options.snapshot.value, s.streams[path].meta)))
  {
    hide IsExpiredAt, PageOf, MediaType, ToLower, OrDefault;
  }

  /** The bounds of a page: those asked for, or 1 MiB and 1024 messages. */
  lemma PageBounds(options: PageOptions)
    ensures var o := options.Normalize();
            && o.targetBytes == (if options.targetBytes > 0 then options.targetBytes else 1048576)
            && o.maxFrames == (if options.maxFrames > 0 then options.maxFrames else 1024)
            && o.snapshot == options.snapshot && o.noTouch == options.noTouch
  {
  }

  /** A reply is the page of its snapshot. */
  lemma ReplyIsPage(s: Store, path: string, offset: Offset, options: PageOptions, now: int)
    requires ReadPageReply(s, path, offset, options, now).Ok?
    ensures var page, o := ReadPageReply(s, path, offset, options, now).value, options.Normalize();
            page == PageOf(s, path, offset, page.snapshot, o.targetBytes, o.maxFrames)
  {
    hide IsExpiredAt, PageOf, MediaType, ToLower, OrDefault;
  }

  /** The `n` messages of a page: the longest prefix of the interval within both bounds,
      never less than one message. */
  ghost predicate Greedy(view: seq<Message>, n: nat, target: int, maxFrames: int) {
    && n <= |view| && n <= maxFrames && (view != [] ==> n > 0)
    && (n > 1 ==> PayloadBytes(view[..n]) <= target)
    && (n < |view| ==> n == maxFrames || PayloadBytes(view[..n]) + |view[n].data| > target)
  }

  ghost predicate NonEmpty(ms: seq<Message>) {
    forall i :: 0 <= i < |ms| ==> ms[i].data != []
  }

  /** A page that holds the first `n` messages, having fetched and dropped `dropped` more bytes. */
  function Taken(view: seq<Message>, n: nat, start: Offset, dropped: nat): Filling
    requires n <= |view|
  {
    var bytes := PayloadBytes(view[..n]);
    Filling(view[..n], if n == 0 then start else view[n - 1].offset, bytes + dropped, bytes, dropped)
  }

  /** One visit, in terms of how many messages the page holds. */
  lemma VisitTaken(view: seq<Message>, k: nat, start: Offset, target: int, maxFrames: int)
    requires k < |view|
    ensures var v := Visit(Taken(view, k, start, 0), view[k], target, maxFrames);
            var bytes, n := PayloadBytes(view[..k]), |view[k].data|;
            && PayloadBytes(view[..k + 1]) == bytes + n
            && v == if k >= maxFrames then Visited(Taken(view, k, start, 0), false)
                    else if k > 0 && bytes + n > target then Visited(Taken(view, k, start, n), false)
                    else Visited(Taken(view, k + 1, start, 0), bytes + n < target)
  {
    assert view[..k + 1] == view[..k] + [view[k]];
    assert view[..k + 1][..k] == view[..k];
  }

  /** The visitor after it took `k` messages stops at the greedy prefix. */
  lemma {:induction false} VisitGreedy(view: seq<Message>, k: nat, start: Offset, target: int, maxFrames: int)
      returns (n: nat, dropped: nat)
    requires target > 0 && maxFrames > 0 && NonEmpty(view) && k <= |view| && k <= maxFrames
    requires PayloadBytes(view[..k]) < target
    ensures Greedy(view, n, target, maxFrames)
    ensures VisitAll(Taken(view, k, start, 0), view[k..], target, maxFrames).page == Taken(view, n, start, dropped)
    decreases |view| - k
  {
    n, dropped := k, 0;
    if k < |view| {
      VisitTaken(view, k, start, target, maxFrames);
      hide Taken, Visit, PayloadBytes;
      var v := Visit(Taken(view, k, start, 0), view[k], target, maxFrames);
      assert view[k..][0] == view[k] && view[k..][1..] == view[k + 1..];
      if v.more {
        n, dropped := VisitGreedy(view, k + 1, start, target, maxFrames);
      } else if k < maxFrames {
        if k > 0 && PayloadBytes(view[..k]) + |view[k].data| > target {
          dropped := |view[k].data|;
        } else {
          n := k + 1;
        }
      }
    }
  }

  /** A page is the greedy prefix of its interval: it makes progress or is up to date, and
      the bytes it fetched are those it returned plus those it discarded. */
  lemma PageIsGreedy(view: seq<Message>, start: Offset, snapshot: Snapshot, target: int, maxFrames: int)
    requires target > 0 && maxFrames > 0 && NonEmpty(view)
    ensures var p := FillPage(view, start, snapshot, target, maxFrames);
            var n := |p.messages|;
            && n <= |view| && p.messages == view[..n] && Greedy(view, n, target, maxFrames)
            && p.nextOffset == (if n == 0 then snapshot.tail else view[n - 1].offset)
            && p.upToDate == (p.nextOffset == snapshot.tail) && (n == 0 ==> p.upToDate)
            && p.returned == PayloadBytes(p.messages) && p.fetched == p.returned + p.discarded
  {
    assert view[..0] == [] && view[0..] == view;
    assert Taken(view, 0, start, 0) == Filling([], start, 0, 0, 0);
    var n, dropped := VisitGreedy(view, 0, start, target, maxFrames);
  }

  /** The bounds leave only one choice. */
  lemma GreedyIsUnique(view: seq<Message>, m: nat, n: nat, target: int, maxFrames: int)
    requires NonEmpty(view) && Greedy(view, m, target, maxFrames) && Greedy(view, n, target, maxFrames)
    ensures m == n
  {
    if m < n {
      PayloadGrows(view, m, n);
    } else if n < m {
      PayloadGrows(view, n, m);
    }
  }

  lemma {:induction false} PayloadGrows(view: seq<Message>, m: nat, n: nat)
    requires m < n <= |view|
    ensures PayloadBytes(view[..m]) + |view[m].data| <= PayloadBytes(view[..n])
    decreases n
  {
    assert view[..n][..n - 1] == view[..n - 1];
    if m < n - 1 {
      PayloadGrows(view, m, n - 1);
    }
  }

  // ---- one page of many ----

  /** Cutting again, at a message of an earlier cut. */
  lemma AfterAgain(w: seq<Message>, o: Offset, n: nat)
    requires Increasing(w) && 0 < n <= |After(w, o)|
    ensures After(w, After(w, o)[n - 1].offset) == After(w, o)[n..]
    ensures o.LessThan(After(w, o)[n - 1].offset)
  {
    var k := CutAt(w, o);
    CutAtMessage(w, k + n - 1);
    assert w[k + n..] == w[k..][n..];
  }

  /** A page of the content `w` read from `o`: it shows the next messages, as many as
      the bounds allow; it is up to date only if nothing is left, and otherwise its next
      offset is where the rest begins. */
  ghost predicate NextPage(w: seq<Message>, o: Offset, page: Page, target: int, maxFrames: int) {
    var view, n := After(w, o), |page.messages|;
    && n <= |view| && page.messages == view[..n] && Greedy(view, n, target, maxFrames)
    && page.fetched == page.returned + page.discarded && page.returned == PayloadBytes(page.messages)
    && (page.upToDate ==> n == |view|)
    && (!page.upToDate ==>
          && n > 0 && o.LessThan(page.nextOffset) && !page.nextOffset.IsNow()
          && After(w, page.nextOffset) == view[n..])
  }

  lemma FilledPage(w: seq<Message>, o: Offset, snapshot: Snapshot, target: int, maxFrames: int)
    requires Increasing(w) && NonEmpty(w) && snapshot.tail.readSeq == 0 && target > 0 && maxFrames > 0
    requires forall i :: 0 <= i < |w| ==> w[i].offset.LessThanOrEqual(snapshot.tail)
    ensures NextPage(w, o, FillPage(After(w, o), o, snapshot, target, maxFrames), target, maxFrames)
  {
    hide After, UpTo, FillPage, Greedy;
    var view := After(w, o);
    var k := CutAt(w, o);
    PageIsGreedy(view, o, snapshot, target, maxFrames);
    var n := |FillPage(view, o, snapshot, target, maxFrames).messages|;
    assert view != [] ==> n > 0 by { assert Greedy(view, n, target, maxFrames); }
    if n > 0 {
      AfterAgain(w, o, n);
      assert view[n - 1] == w[k + n - 1] && (n < |view| ==> view[n] == w[k + n]);
    }
  }

  lemma SelectedAreNonEmpty(ms: seq<Message>, o: Offset, u: Offset)
    requires NonEmpty(ms)
    ensures NonEmpty(Between(ms, o, u))
    ensures forall i :: 0 <= i < |Between(ms, o, u)| ==>
              o.LessThan(Between(ms, o, u)[i].offset) && Between(ms, o, u)[i].offset.LessThanOrEqual(u)
  {
    hide After, UpTo;
    AfterSelects(ms, o);
    UpToSelects(After(ms, o), u);
  }

  /** What a page shows: the longest prefix, within its bounds, of what the stream shows between the
      offset asked for and the snapshot's tail.  It is up to date exactly if it reaches that tail. */
  lemma ReadPageShows(s: Store, path: string, offset: Offset, options: PageOptions, now: int)
    requires Stored(s) && ReadPageReply(s, path, offset, options, now).Ok?
    ensures var page, o := ReadPageReply(s, path, offset, options, now).value, options.Normalize();
            var start, n := if offset.IsNow() then page.snapshot.tail else offset, |page.messages|;
            var view := Between(Whole(s, path), start, page.snapshot.tail);
            && n <= |view| && page.messages == view[..n] && Greedy(view, n, o.targetBytes, o.maxFrames)
            && (forall i :: 0 <= i < n ==>
                  && start.LessThan(page.messages[i].offset)
                  && page.messages[i].offset.LessThanOrEqual(page.snapshot.tail))
            && page.nextOffset == (if n == 0 then page.snapshot.tail else page.messages[n - 1].offset)
            && (page.upToDate <==> page.nextOffset == page.snapshot.tail)
            && page.returned == PayloadBytes(page.messages) && page.fetched == page.returned + page.discarded
  {
    ReplyIsPage(s, path, offset, options, now);
    WholeIncreasing(s, path);
    hide ReadPageReply, Whole, Between, Greedy, FillPage, PayloadBytes, Stored;
    var page, o := ReadPageReply(s, path, offset, options, now).value, options.Normalize();
    var start := ReadStart(offset, page.snapshot);
    SelectedAreNonEmpty(Whole(s, path), start, page.snapshot.tail);
    PageIsGreedy(Between(Whole(s, path), start, page.snapshot.tail), start, page.snapshot, o.targetBytes, o.maxFrames);
  }

  /** What a page read does to the store.  Only the first page of a read renews a sliding lifetime,
      which then runs from the clock of the read; an expired stream that still has forks is
      soft-deleted; nothing else changes. */
  lemma ReadPageTouches(s: Store, path: string, options: PageOptions, now: int, later: int)
    ensures var s' := ReadStep(s, path, options.snapshot, options.noTouch, now);
            && s' == s.(streams := s'.streams) && s'.streams.Keys == s.streams.Keys
            && (forall p :: p in s.streams && p != path ==> s'.streams[p] == s.streams[p])
            && (path in s.streams ==>
                  var m, m' := s.streams[path].meta, s'.streams[path].meta;
                  var renews := Readable(s, path, now) && options.snapshot.None? && !options.noTouch;
                  && s'.streams[path].(meta := m) == s.streams[path]
                  && m'.(lastAccessedAt := m.lastAccessedAt, softDeleted := m.softDeleted) == m
                  && (m'.softDeleted <==> m.softDeleted || (IsExpiredAt(m, now) && m.refCount > 0))
                  && (!renews ==> m'.lastAccessedAt == m.lastAccessedAt)
                  && (renews && m.ttlSeconds.Some? && m.expiresAt.None?
                      && now / NS + m.ttlSeconds.value <= MAX_INT64 ==>
                        (IsExpiredAt(m', later) <==> later > now + m.ttlSeconds.value * NS)))
  {
    if path in s.streams {
      ExpiryIsPlainComparison(s.streams[path].meta.(lastAccessedAt := now), later);
    }
    hide IsExpiredAt, MediaType, ToLower, OrDefault;
  }
}
