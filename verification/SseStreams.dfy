/** A hub that is fed with pages of a stream, while the store moves on (sse_hub.go:594-670). */
module SseStreams {
  import opened Prelude
  import opened Offsets
  import opened StoreModel
  import opened StoreOps
  import opened StoreInvariants
  import opened ForkContent
  import opened ForkSlack
  import opened Paging
  import opened SourcedReads
  import opened PagedReads
  import opened SseRings
  import opened SseHubs
  import opened SseRuns

  /** The messages with their wire frames as data; `frame` is how the server formats one. */
  ghost function Framing(frame: Bytes -> Bytes, ms: seq<Message>): seq<Message> {
    seq(|ms|, i requires 0 <= i < |ms| => Message(frame(ms[i].data), ms[i].offset))
  }

  lemma FramingSnoc(frame: Bytes -> Bytes, ms: seq<Message>, m: Message)
    ensures Framing(frame, ms + [m]) == Framing(frame, ms) + [Message(frame(m.data), m.offset)]
  {
  }

  lemma {:induction false} FramingAfter(frame: Bytes -> Bytes, ms: seq<Message>, o: Offset)
    ensures After(Framing(frame, ms), o) == Framing(frame, After(ms, o))
  {
    if ms != [] {
      var n := |ms| - 1;
      assert ms == ms[..n] + [ms[n]];
      FramingAfter(frame, ms[..n], o);
      FramingSnoc(frame, ms[..n], ms[n]);
      FramingSnoc(frame, After(ms[..n], o), ms[n]);
      assert Framing(frame, ms)[..n] == Framing(frame, ms[..n]);
    }
  }

  lemma {:induction false} FramingUpTo(frame: Bytes -> Bytes, ms: seq<Message>, u: Offset)
    ensures UpTo(Framing(frame, ms), u) == Framing(frame, UpTo(ms, u))
  {
    if ms != [] {
      var n := |ms| - 1;
      assert ms == ms[..n] + [ms[n]];
      FramingUpTo(frame, ms[..n], u);
      FramingSnoc(frame, ms[..n], ms[n]);
      FramingSnoc(frame, UpTo(ms[..n], u), ms[n]);
      assert Framing(frame, ms)[..n] == Framing(frame, ms[..n]);
    }
  }

  lemma FramingBetween(frame: Bytes -> Bytes, ms: seq<Message>, o: Offset, u: Offset)
    ensures Between(Framing(frame, ms), o, u) == Framing(frame, Between(ms, o, u))
  {
    hide After, UpTo, Framing;
    FramingAfter(frame, ms, o);
    FramingUpTo(frame, After(ms, o), u);
  }

  /** The first messages after `o` are an interval. */
  lemma PrefixIsInterval(w: seq<Message>, o: Offset, n: nat)
    requires Increasing(w) && n <= |After(w, o)|
    ensures var end := if n == 0 then o else After(w, o)[n - 1].offset;
            After(w, o)[..n] == Between(w, o, end) && o.LessThanOrEqual(end)
  {
    hide After, UpTo;
    var k := CutAt(w, o);
    var view := After(w, o);
    if n == 0 {
      UpToNone(view, o);
    } else {
      CutAtMessage(view, n - 1);
    }
  }

  /** One read of the hub: the point of the run at which the page is read, with its options and
      its clock, and the point at which the page's snapshot was taken. */
  datatype Refresh = Refresh(at: nat, snapshotAt: nat, options: PageOptions, now: int)

  /** The publication is a framed page of the stream: the reply to a page read, from where it says. */
  ghost predicate IsFramedPage(ops: seq<Op>, path: string, frame: Bytes -> Bytes, op: HubOp, r: Refresh) {
    && op.PublishOp? && !op.from.IsNow() && r.snapshotAt <= r.at <= |ops|
    && Lives(Exec(ops[..r.snapshotAt]).store, Exec(ops).store, path)
    && var reply := ReadPageReply(Exec(ops[..r.at]).store, path, op.from, r.options, r.now);
       && reply.Ok? && reply.value.snapshot == SnapshotOf(Exec(ops[..r.snapshotAt]).store.streams[path].meta)
       && var page := reply.value;
          op == PublishOp(op.from, Framing(frame, page.messages), page.upToDate, page.snapshot.closed,
                          page.snapshot.tail)
  }

  /** Every publication is such a page. */
  ghost predicate Fed(ops: seq<Op>, path: string, frame: Bytes -> Bytes, hubOps: seq<HubOp>, refreshes: seq<Refresh>) {
    && |refreshes| == |hubOps|
    && (forall i :: 0 <= i < |hubOps| && hubOps[i].PublishOp? ==>
          IsFramedPage(ops, path, frame, hubOps[i], refreshes[i]))
  }

  /** The sources that a read of the hub from `o` descends into are in place from each of its
      snapshots to the end of the run. */
  ghost predicate FedFrom(ops: seq<Op>, path: string, hubOps: seq<HubOp>, refreshes: seq<Refresh>, o: Offset) {
    forall i :: 0 <= i < |hubOps| && i < |refreshes| && hubOps[i].PublishOp? && refreshes[i].snapshotAt <= |ops| ==>
      SourcedFrom(Exec(ops[..refreshes[i].snapshotAt]).store, Exec(ops).store, path, o)
  }

  /** A page read along the way is an interval of what the stream shows at the end. */
  lemma PageOfContent(s: Store, u: Store, t: Store, path: string, o: Offset, target: int, maxFrames: int)
    requires Later(s, u) && Later(u, t) && Later(s, t) && SourcedFrom(s, t, path, o)
    requires !o.IsNow() && target > 0 && maxFrames > 0
    ensures path in s.streams
    ensures var page := PageOf(u, path, o, SnapshotOf(s.streams[path].meta), target, maxFrames);
            var end := if page.messages == [] then o else page.messages[|page.messages| - 1].offset;
            page.messages == Between(Whole(t, path), o, end) && o.LessThanOrEqual(end)
  {
    hide Whole, Later, PageOf, NextPage, After, Between, AnchoredFrom;
    SourcedFromBetween(s, u, t, path, o);
    SnapshotPage(s, u, path, o, target, maxFrames);
    var w, tail := Whole(s, path), s.streams[path].meta.currentOffset;
    var page := PageOf(u, path, o, SnapshotOf(s.streams[path].meta), target, maxFrames);
    PageIsPrefix(w, o, page, target, maxFrames);
    LaterIsStored(s, u);
    RisesToTail(s, path);
    var n := |page.messages|;
    PrefixIsInterval(w, o, n);
    EarlierInterval(s, t, path, o, n);
  }

  lemma PageIsPrefix(w: seq<Message>, o: Offset, page: Page, target: int, maxFrames: int)
    requires NextPage(w, o, page, target, maxFrames)
    ensures |page.messages| <= |After(w, o)| && page.messages == After(w, o)[..|page.messages|]
  {
  }

  lemma RisesToTail(s: Store, path: string)
    requires Stored(s) && path in s.streams
    ensures Increasing(Whole(s, path))
    ensures forall i :: 0 <= i < |Whole(s, path)| ==>
              Whole(s, path)[i].offset.LessThanOrEqual(s.streams[path].meta.currentOffset)
  {
    hide Whole, Stored;
    WholeIncreasing(s, path);
  }

  /** What lay after `o` up to some message is the same in a later store. */
  lemma EarlierInterval(s: Store, t: Store, path: string, o: Offset, n: nat)
    requires Later(s, t) && SourcedFrom(s, t, path, o) && n <= |After(Whole(s, path), o)|
    ensures var end := if n == 0 then o else After(Whole(s, path), o)[n - 1].offset;
            Between(Whole(t, path), o, end) == Between(Whole(s, path), o, end)
  {
    hide Whole, Later, After, UpTo, AnchoredFrom;
    var w, tail := Whole(s, path), s.streams[path].meta.currentOffset;
    if n == 0 {
      NothingBetween(w, o);
      NothingBetween(Whole(t, path), o);
    } else {
      var end := After(w, o)[n - 1].offset;
      LaterIsStored(s, t);
      RisesToTail(s, path);
      var k := CutAt(w, o);
      SnapshotInterval(s, t, path, o);
      BetweenWithin(Whole(t, path), o, o, end, tail);
      BetweenWithin(w, o, o, end, tail);
    }
  }

  lemma LaterIsStored(s: Store, t: Store)
    requires Later(s, t)
    ensures Stored(s) && Stored(t)
  {
  }

  /** The hub has published exactly the framed content between where it began and its tail. */
  lemma {:induction false} PagesAreContent(ops: seq<Op>, path: string, frame: Bytes -> Bytes, tail: Offset,
                                           hubOps: seq<HubOp>, refreshes: seq<Refresh>)
    requires ValidOps(ops) && path in Exec(ops).store.streams && Fed(ops, path, frame, hubOps, refreshes)
    requires FedFrom(ops, path, hubOps, refreshes, tail)
    ensures var (messages, current) := Pages(tail, hubOps);
            && messages == Framing(frame, Between(Whole(Exec(ops).store, path), tail, current))
            && tail.LessThanOrEqual(current)
    decreases |hubOps|
  {
    hide Exec, Whole, After, UpTo, Framing, IsFramedPage;
    var w := Whole(Exec(ops).store, path);
    if hubOps == [] {
      NothingBetween(w, tail);
      NoFrames(frame);
    } else {
      var n := |hubOps| - 1;
      PagesAreContent(ops, path, frame, tail, hubOps[..n], refreshes[..n]);
      var current, op := Pages(tail, hubOps[..n]).1, hubOps[n];
      if op.PublishOp? && op.from == current {
        FedAt(ops, path, frame, hubOps, refreshes, tail, n, current);
        var end := PublishedInterval(ops, path, frame, op, refreshes[n]);
        RunStored(ops);
        RisesToTail(Exec(ops).store, path);
        BetweenJoins(w, tail, current, end);
        FramingConcat(frame, Between(w, tail, current), Between(w, current, end));
      }
    }
  }

  lemma FedAt(ops: seq<Op>, path: string, frame: Bytes -> Bytes, hubOps: seq<HubOp>, refreshes: seq<Refresh>,
              tail: Offset, n: nat, current: Offset)
    requires Fed(ops, path, frame, hubOps, refreshes) && FedFrom(ops, path, hubOps, refreshes, tail)
    requires n < |hubOps| && hubOps[n].PublishOp? && tail.LessThanOrEqual(current)
    ensures refreshes[n].snapshotAt <= |ops|
    ensures SourcedFrom(Exec(ops[..refreshes[n].snapshotAt]).store, Exec(ops).store, path, current)
  {
    hide Exec, SourcedFrom;
    FartherOn(Exec(ops[..refreshes[n].snapshotAt]).store, Exec(ops).store, path, tail, current);
  }

  lemma NoFrames(frame: Bytes -> Bytes)
    ensures Framing(frame, []) == []
  {
  }

  lemma FramingConcat(frame: Bytes -> Bytes, a: seq<Message>, b: seq<Message>)
    ensures Framing(frame, a + b) == Framing(frame, a) + Framing(frame, b)
  {
  }

  lemma FramingEnds(frame: Bytes -> Bytes, ms: seq<Message>)
    ensures |Framing(frame, ms)| == |ms|
    ensures forall i :: 0 <= i < |ms| ==> Framing(frame, ms)[i] == Message(frame(ms[i].data), ms[i].offset)
  {
  }

  lemma PublishedInterval(ops: seq<Op>, path: string, frame: Bytes -> Bytes, op: HubOp, r: Refresh)
    returns (end: Offset)
    requires ValidOps(ops) && path in Exec(ops).store.streams && IsFramedPage(ops, path, frame, op, r)
    requires SourcedFrom(Exec(ops[..r.snapshotAt]).store, Exec(ops).store, path, op.from)
    ensures op.messages == Framing(frame, Between(Whole(Exec(ops).store, path), op.from, end))
    ensures end == (if op.messages == [] then op.from else op.messages[|op.messages| - 1].offset)
    ensures op.from.LessThanOrEqual(end)
  {
    hide Exec, Whole, After, UpTo, Between, Framing, PageOf, ReadPageReply, Later, AnchoredFrom;
    var s, u, t := Exec(ops[..r.snapshotAt]).store, Exec(ops[..r.at]).store, Exec(ops).store;
    assert ops[..|ops|] == ops;
    RunIsLater(ops, r.snapshotAt, r.at);
    RunIsLater(ops, r.at, |ops|);
    RunIsLater(ops, r.snapshotAt, |ops|);
    var page, o := ReadPageReply(u, path, op.from, r.options, r.now).value, r.options.Normalize();
    ReplyIsPage(u, path, op.from, r.options, r.now);
    PageOfContent(s, u, t, path, op.from, o.targetBytes, o.maxFrames);
    FramingEnds(frame, page.messages);
    end := if page.messages == [] then op.from else page.messages[|page.messages| - 1].offset;
  }

  /** A framed page can be published, wherever it was read. */
  lemma PageCanBePublished(ops: seq<Op>, path: string, frame: Bytes -> Bytes, op: HubOp, r: Refresh)
    requires ValidOps(ops) && IsFramedPage(ops, path, frame, op, r) && forall b :: frame(b) != []
    ensures ValidHubOp(op)
  {
    hide Exec, Whole, Framing, Between, ReadOnFrom, Increasing, PageOf, ReadPageReply, FillPage;
    var u, o := Exec(ops[..r.at]).store, r.options.Normalize();
    var page := ReadPageReply(u, path, op.from, r.options, r.now).value;
    ReplyIsPage(u, path, op.from, r.options, r.now);
    RunStored(ops[..r.at]);
    RisesInStore(u, path);
    PageRises(u, path, op.from, page.snapshot, o.targetBytes, o.maxFrames);
    FramesReadOn(frame, page.messages, op.from);
  }

  /** What a read shows rises, also where there is no stream. */
  lemma RisesInStore(s: Store, path: string)
    requires Stored(s)
    ensures Increasing(Whole(s, path)) && NonEmpty(Whole(s, path))
  {
    if path in s.streams {
      hide Whole, Stored;
      WholeIncreasing(s, path);
    }
  }

  lemma PageRises(u: Store, path: string, o: Offset, snapshot: Snapshot, target: int, maxFrames: int)
    requires Increasing(Whole(u, path)) && NonEmpty(Whole(u, path)) && !o.IsNow() && target > 0 && maxFrames > 0
    ensures var ms := PageOf(u, path, o, snapshot, target, maxFrames).messages;
            Increasing(ms) && forall i :: 0 <= i < |ms| ==> o.LessThan(ms[i].offset)
  {
    hide Whole, FillPage, After, UpTo, Greedy;
    var w := Whole(u, path);
    var k := CutAt(w, o);
    var j := CutAt(w[k..], snapshot.tail);
    var view := Between(w, o, snapshot.tail);
    assert view == w[k..][..j];
    PageIsGreedy(view, o, snapshot, target, maxFrames);
  }

  lemma FramesReadOn(frame: Bytes -> Bytes, ms: seq<Message>, o: Offset)
    requires Increasing(ms) && (forall i :: 0 <= i < |ms| ==> o.LessThan(ms[i].offset)) && forall b :: frame(b) != []
    ensures ReadOnFrom(o, Framing(frame, ms))
  {
    hide Framing;
    FramingEnds(frame, ms);
  }

  /** Clients get the stream.  A hub that begins at `tail` and is fed with pages of the stream,
      read at any points of any run of the store that leaves in place the sources below `tail`:
      whatever the interleaving, each attached client has had exactly the frames of the stream's
      own messages between where it attached and where it stands. */
  method ServeStream(ghost ops: seq<Op>, ghost path: string, ghost frame: Bytes -> Bytes,
                     ghost refreshes: seq<Refresh>, replayLimit: nat, batchLimit: nat, tail: Offset,
                     streamClosed: bool, hubOps: seq<HubOp>)
    returns (hub: SseHub, c: Clients)
    requires ValidOps(ops) && path in Exec(ops).store.streams && Fed(ops, path, frame, hubOps, refreshes)
    requires FedFrom(ops, path, hubOps, refreshes, tail) && forall b :: frame(b) != []
    ensures fresh(hub) && Serving(hub, c)
    ensures HaveRead(hub, c, frame, Whole(Exec(ops).store, path))
  {
    hide Exec, Whole, Framing, Serving, ValidHubOp, Pages, FedFrom, HaveRead;
    forall i | 0 <= i < |hubOps| ensures ValidHubOp(hubOps[i]) {
      if hubOps[i].PublishOp? {
        PageCanBePublished(ops, path, frame, hubOps[i], refreshes[i]);
      } else {
        OthersAreValid(hubOps[i]);
      }
    }
    hub, c := Serve(replayLimit, batchLimit, tail, streamClosed, hubOps);
    PagesAreContent(ops, path, frame, tail, hubOps, refreshes);
    ClientsReadStream(hub, c, frame, Whole(Exec(ops).store, path));
  }

  /** Each attached client has had exactly the frames of `w` from where it attached to where it
      stands. */
  ghost predicate HaveRead(hub: SseHub, c: Clients, frame: Bytes -> Bytes, w: seq<Message>)
    reads hub
  {
    forall id :: id in hub.watchers && hub.watchers[id].attached ==>
      && id in c.attachedAt && id in c.delivered
      && c.delivered[id] == Wire(Framing(frame, Between(w, c.attachedAt[id], hub.watchers[id].offset)))
  }

  /** The hub that the server makes begins at the stream's tail at some point `k` of the run, so
      it needs no source: it is enough that the stream lives. */
  method ServeFromTail(ghost ops: seq<Op>, ghost path: string, ghost frame: Bytes -> Bytes,
                       ghost refreshes: seq<Refresh>, ghost k: nat, replayLimit: nat, batchLimit: nat, tail: Offset,
                       streamClosed: bool, hubOps: seq<HubOp>)
    returns (hub: SseHub, c: Clients)
    requires ValidOps(ops) && Fed(ops, path, frame, hubOps, refreshes) && forall b :: frame(b) != []
    requires k <= |ops| && Lives(Exec(ops[..k]).store, Exec(ops).store, path)
    requires tail == Exec(ops[..k]).store.streams[path].meta.currentOffset
    ensures fresh(hub) && Serving(hub, c)
    ensures HaveRead(hub, c, frame, Whole(Exec(ops).store, path))
  {
    hide Exec, Whole, Framing, Serving, FedFrom, HaveRead;
    TailNeedsNoSource(ops, path, frame, hubOps, refreshes, k);
    hub, c := ServeStream(ops, path, frame, refreshes, replayLimit, batchLimit, tail, streamClosed, hubOps);
  }

  lemma TailNeedsNoSource(ops: seq<Op>, path: string, frame: Bytes -> Bytes, hubOps: seq<HubOp>,
                          refreshes: seq<Refresh>, k: nat)
    requires ValidOps(ops) && Fed(ops, path, frame, hubOps, refreshes)
    requires k <= |ops| && Lives(Exec(ops[..k]).store, Exec(ops).store, path)
    ensures FedFrom(ops, path, hubOps, refreshes, Exec(ops[..k]).store.streams[path].meta.currentOffset)
  {
    hide Exec, Later, SourcedFrom, ReadPageReply, Framing;
    assert ops[..|ops|] == ops;
    var s, t := Exec(ops[..k]).store, Exec(ops).store;
    RunIsLater(ops, k, |ops|);
    ForkPointBeforeTail(s, t, path);
    forall i | 0 <= i < |hubOps| && i < |refreshes| && hubOps[i].PublishOp? && refreshes[i].snapshotAt <= |ops|
      ensures SourcedFrom(Exec(ops[..refreshes[i].snapshotAt]).store, t, path, s.streams[path].meta.currentOffset)
    {
      var v := Exec(ops[..refreshes[i].snapshotAt]).store;
      assert IsFramedPage(ops, path, frame, hubOps[i], refreshes[i]);
      RunIsLater(ops, refreshes[i].snapshotAt, |ops|);
      SameForkPoint(v, t, path);
      PastForkPoint(v, t, path, s.streams[path].meta.currentOffset);
    }
  }

  lemma SameForkPoint(s: Store, t: Store, path: string)
    requires Later(s, t) && Lives(s, t, path)
    ensures s.streams[path].meta.forkOffset == t.streams[path].meta.forkOffset
  {
    LivingEvolves(s, t, path);
    hide Later, Evolves;
  }

  lemma ForkPointBeforeTail(s: Store, t: Store, path: string)
    requires Later(s, t) && Lives(s, t, path)
    ensures t.streams[path].meta.forkOffset.LessThanOrEqual(s.streams[path].meta.currentOffset)
  {
    SameForkPoint(s, t, path);
    var st := s.streams[path];
    assert WellStored(st);
    ChainRises(st.messages, st.meta.forkOffset, st.meta.currentOffset);
  }

  lemma OthersAreValid(op: HubOp)
    requires !op.PublishOp?
    ensures ValidHubOp(op)
  {
  }

  lemma ClientsReadStream(hub: SseHub, c: Clients, frame: Bytes -> Bytes, w: seq<Message>)
    requires Serving(hub, c) && c.published == Framing(frame, Between(w, hub.origin, hub.current))
    ensures HaveRead(hub, c, frame, w)
  {
    hide StateOk, ReadingOk, Wire, Between, Flat, Framing, StartOf;
    StateHasTail(hub.origin, hub.log, hub.State(), hub.replayLimit);
    FramingBetween(frame, w, hub.origin, hub.current);
    forall id | id in hub.watchers && hub.watchers[id].attached
      ensures c.delivered[id] == Wire(Framing(frame, Between(w, c.attachedAt[id], hub.watchers[id].offset)))
    {
      WatcherReadsStream(hub.origin, hub.log, Framing(frame, w), hub.watchers[id], hub.readings[id]);
      FramingBetween(frame, w, c.attachedAt[id], hub.watchers[id].offset);
    }
  }
}
