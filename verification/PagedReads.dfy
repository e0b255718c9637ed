/** Many pages under one snapshot, while the store moves on (store/memory_store.go:877-996). */
module PagedReads {
  import opened Prelude
  import opened Offsets
  import opened StoreModel
  import opened StoreOps
  import opened StoreInvariants
  import opened ForkSlack
  import opened ForkAnchors
  import opened ForkContent
  import opened Paging
  import opened SourcedReads

  /** Reading page after page: page `i` is asked for in the store `stores[i]` at the clock
      `nows[i]`, from where the page before ended and under the snapshot it came with, until a page
      is up to date or a read is refused; `None` if the stores run out before that. */
  function ReadOn(stores: seq<Store>, nows: seq<int>, path: string, offset: Offset, options: PageOptions)
    : Option<Result<seq<Message>, StoreError>>
    requires |nows| == |stores|
  {
    if stores == [] then None
    else
      match ReadPageReply(stores[0], path, offset, options, nows[0])
      case Err(e) => Some(Err(e))
      case Ok(page) =>
        if page.upToDate then Some(Ok(page.messages))
        else
          match ReadOn(stores[1..], nows[1..], path, page.nextOffset, options.(snapshot := Some(page.snapshot)))
          case Some(Ok(rest)) => Some(Ok(page.messages + rest))
          case other => other
  }

  /** Later appends, to the stream or to its sources, do not change what lies in an
      interval that ends at an earlier tail. */
  lemma SnapshotInterval(s: Store, t: Store, path: string, o: Offset)
    requires Later(s, t) && SourcedFrom(s, t, path, o)
    ensures Between(Whole(t, path), o, s.streams[path].meta.currentOffset) ==
            Between(Whole(s, path), o, s.streams[path].meta.currentOffset) == After(Whole(s, path), o)
  {
    hide Stored, Surviving, Whole, After, UpTo, Evolves, Gained, AnchoredFrom, WellStored;
    var a, b, tail := s.streams[path], t.streams[path], s.streams[path].meta.currentOffset;
    var shown := After(Whole(s, path), o);
    GrowsFrom(s, t, path, o);
    EvolvesGains(a, b);
    InheritedKeptFrom(a, b, shown, o, tail);
    WholeIncreasing(s, path);
    AfterSelects(Whole(s, path), o);
    UpToAll(shown, tail);
  }

  lemma SnapshotPage(s: Store, t: Store, path: string, o: Offset, target: int, maxFrames: int)
    requires Later(s, t) && SourcedFrom(s, t, path, o) && !o.IsNow() && target > 0 && maxFrames > 0
    ensures NextPage(Whole(s, path), o, PageOf(t, path, o, SnapshotOf(s.streams[path].meta), target, maxFrames),
                     target, maxFrames)
  {
    SnapshotInterval(s, t, path, o);
    WholeIncreasing(s, path);
    assert s.streams[path].meta.currentOffset.readSeq == 0 by {
      assert WellStored(s.streams[path]);
      ChainRises(s.streams[path].messages, s.streams[path].meta.forkOffset, s.streams[path].meta.currentOffset);
    }
    hide Whole, Later, NextPage, FillPage, AnchoredFrom;
    FilledPage(Whole(s, path), o, SnapshotOf(s.streams[path].meta), target, maxFrames);
  }

  /** Why a read in this store can be refused. */
  ghost predicate Refuses(t: Store, path: string, now: int, e: StoreError) {
    && path in t.streams
    && (e == StreamNotFound || e == StreamSoftDeleted)
    && (e == StreamNotFound ==> IsExpiredAt(t.streams[path].meta, now))
    && (e == StreamSoftDeleted ==> t.streams[path].meta.softDeleted)
  }

  /** One reply in a later store, under the snapshot of an earlier one. */
  lemma SnapshotReply(s: Store, t: Store, path: string, o: Offset, options: PageOptions, now: int)
    requires Later(s, t) && SourcedFrom(s, t, path, o) && !o.IsNow()
    requires options.snapshot == Some(SnapshotOf(s.streams[path].meta))
    ensures var r, opts := ReadPageReply(t, path, o, options, now), options.Normalize();
            && (Readable(t, path, now) ==>
                  && r.Ok? && r.value.snapshot == SnapshotOf(s.streams[path].meta)
                  && NextPage(Whole(s, path), o, r.value, opts.targetBytes, opts.maxFrames))
            && (!Readable(t, path, now) ==> r.Err? && Refuses(t, path, now, r.error))
  {
    var opts := options.Normalize();
    ReadPageAnswers(t, path, o, options, now);
    assert SameIdentity(s.streams[path].meta, t.streams[path].meta) && s.streams[path].meta.incarnation > 0 by {
      assert WellStored(s.streams[path]) && Evolves(s.streams[path], t.streams[path]);
    }
    hide Later, SourcedFrom, Whole, IsExpiredAt, NextPage, PageOf, MediaType, ToLower, OrDefault;
    SnapshotPage(s, t, path, o, opts.targetBytes, opts.maxFrames);
    if Readable(t, path, now) {
      ReplyIsPage(t, path, o, options, now);
    }
  }

  /** Paging refines the whole read.  Under one snapshot, for any page bounds, reading pages from
      stores that move on in between ends within one page more than there are messages.  If every
      read finds the stream readable, the pages concatenate to exactly what the whole read would
      have shown at the snapshot; if one does not, it is refused for that reason. */
  lemma {:induction false} PagesConcatenate(s: Store, stores: seq<Store>, nows: seq<int>, path: string, o: Offset,
                                            options: PageOptions)
    requires |nows| == |stores|
    requires forall i :: 0 <= i < |stores| ==> Later(s, stores[i]) && SourcedFrom(s, stores[i], path, o)
    requires path in s.streams && !o.IsNow() && options.snapshot == Some(SnapshotOf(s.streams[path].meta))
    requires |stores| > |After(Whole(s, path), o)|
    ensures var r := ReadOn(stores, nows, path, o, options);
            && r.Some?
            && (r.value.Ok? ==> r.value.value == After(Whole(s, path), o))
            && (r.value.Err? ==> exists i :: 0 <= i < |stores| && Refuses(stores[i], path, nows[i], r.value.error))
            && ((forall i :: 0 <= i < |stores| ==> Readable(stores[i], path, nows[i])) ==> r.value.Ok?)
    decreases |stores|
  {
    hide Whole, Later, SourcedFrom, After, ReadPageReply, Refuses, Readable;
    SnapshotReply(s, stores[0], path, o, options, nows[0]);
    var reply := ReadPageReply(stores[0], path, o, options, nows[0]);
    if reply.Ok? {
      var page := reply.value;
      var view, n := After(Whole(s, path), o), |page.messages|;
      assert view == view[..n] + view[n..];
      if page.upToDate {
        assert view[..n] == view;
      } else {
        forall i | 0 <= i < |stores[1..]| ensures SourcedFrom(s, stores[1..][i], path, page.nextOffset) {
          FartherOn(s, stores[i + 1], path, o, page.nextOffset);
        }
        PagesConcatenate(s, stores[1..], nows[1..], path, page.nextOffset, options);
        var r := ReadOn(stores[1..], nows[1..], path, page.nextOffset, options);
        if r.value.Err? {
          var i :| 0 <= i < |stores[1..]| && Refuses(stores[1..][i], path, nows[1..][i], r.value.error);
          assert stores[1..][i] == stores[i + 1] && nows[1..][i] == nows[i + 1];
        }
      }
    }
  }

  /** A first page, asked for without a snapshot, comes with the snapshot of its own store. */
  lemma FirstPage(s: Store, stores: seq<Store>, nows: seq<int>, path: string, o: Offset, options: PageOptions)
    requires Stored(s) && |nows| == |stores| > 0 && stores[0] == s && path in s.streams
    ensures ReadOn(stores, nows, path, o, options.(snapshot := None)) ==
            ReadOn(stores, nows, path, o, options.(snapshot := Some(SnapshotOf(s.streams[path].meta))))
  {
    hide ReadPageReply;
    FirstReply(s, path, o, options, nows[0]);
    var m := s.streams[path].meta;
    assert options.(snapshot := None).(snapshot := Some(SnapshotOf(m))) == options.(snapshot := Some(SnapshotOf(m)));
  }

  lemma FirstReply(s: Store, path: string, o: Offset, options: PageOptions, now: int)
    requires Stored(s) && path in s.streams
    ensures var with := options.(snapshot := Some(SnapshotOf(s.streams[path].meta)));
            ReadPageReply(s, path, o, options.(snapshot := None), now) == ReadPageReply(s, path, o, with, now)
  {
    assert WellStored(s.streams[path]);
    hide Stored, WellStored, IsExpiredAt, PageOf, MediaType, ToLower, OrDefault;
  }

  /** The stores at the given points of a run. */
  ghost function StoresAt(ops: seq<Op>, ks: seq<nat>): seq<Store>
    requires forall i :: 0 <= i < |ks| ==> ks[i] <= |ops|
  {
    seq(|ks|, i requires 0 <= i < |ks| => Exec(ops[..ks[i]]).store)
  }

  /** What a paged read of a run comes to: page `i` is read at point `ks[i]`, the first without a
      snapshot, and what the stream showed at that point is what the pages show together. */
  ghost predicate ReadsWhole(ops: seq<Op>, ks: seq<nat>, nows: seq<int>, path: string, o: Offset, options: PageOptions)
    requires |nows| == |ks| > 0 && forall i :: 0 <= i < |ks| ==> ks[i] <= |ops|
  {
    var r, stores := ReadOn(StoresAt(ops, ks), nows, path, o, options.(snapshot := None)), StoresAt(ops, ks);
    && r.Some?
    && (r.value.Ok? ==> r.value.value == After(Whole(stores[0], path), o))
    && (r.value.Err? ==> exists i :: 0 <= i < |stores| && Refuses(stores[i], path, nows[i], r.value.error))
    && ((forall i :: 0 <= i < |stores| ==> Readable(stores[i], path, nows[i])) ==> r.value.Ok?)
  }

  /** The same over every run.  Anything may happen between the pages that leaves the stream, and
      the sources that the read descends into, in place. */
  lemma PagedReadOverRun(ops: seq<Op>, ks: seq<nat>, nows: seq<int>, path: string, o: Offset, options: PageOptions)
    requires ValidOps(ops) && |nows| == |ks| > 0 && !o.IsNow()
    requires forall i :: 0 <= i < |ks| ==> ks[0] <= ks[i] <= |ops|
    requires forall i :: 0 <= i < |ks| ==> SourcedFrom(Exec(ops[..ks[0]]).store, Exec(ops[..ks[i]]).store, path, o)
    requires |ks| > |After(Whole(Exec(ops[..ks[0]]).store, path), o)|
    ensures ReadsWhole(ops, ks, nows, path, o, options)
  {
    hide Exec, Later, Whole, ReadOn, After, AnchoredFrom, Refuses, Readable;
    var s, stores := Exec(ops[..ks[0]]).store, StoresAt(ops, ks);
    forall i | 0 <= i < |stores| ensures Later(s, stores[i]) && SourcedFrom(s, stores[i], path, o) {
      RunIsLater(ops, ks[0], ks[i]);
      assert ops[..ks[i]][..ks[0]] == ops[..ks[0]];
    }
    assert SourcedFrom(s, stores[0], path, o);
    RunStored(ops[..ks[0]]);
    FirstPage(s, stores, nows, path, o, options);
    PagesConcatenate(s, stores, nows, path, o, options.(snapshot := Some(SnapshotOf(s.streams[path].meta))));
  }

  /** A read that starts at or past the fork point needs no source: it is enough that the
      stream itself lives at every read. */
  lemma PagedReadOfOwn(ops: seq<Op>, ks: seq<nat>, nows: seq<int>, path: string, o: Offset, options: PageOptions)
    requires ValidOps(ops) && |nows| == |ks| > 0 && !o.IsNow()
    requires forall i :: 0 <= i < |ks| ==> ks[0] <= ks[i] <= |ops|
    requires forall i :: 0 <= i < |ks| ==> Lives(Exec(ops[..ks[0]]).store, Exec(ops[..ks[i]]).store, path)
    requires path in Exec(ops[..ks[0]]).store.streams
    requires Exec(ops[..ks[0]]).store.streams[path].meta.forkOffset.LessThanOrEqual(o)
    requires |ks| > |After(Whole(Exec(ops[..ks[0]]).store, path), o)|
    ensures ReadsWhole(ops, ks, nows, path, o, options)
  {
    hide Exec, Later, SourcedFrom, Whole, ReadsWhole, After;
    forall i | 0 <= i < |ks| ensures SourcedFrom(Exec(ops[..ks[0]]).store, Exec(ops[..ks[i]]).store, path, o) {
      RunIsLater(ops, ks[0], ks[i]);
      PastForkPoint(Exec(ops[..ks[0]]).store, Exec(ops[..ks[i]]).store, path, o);
    }
    PagedReadOverRun(ops, ks, nows, path, o, options);
  }

  /** In a run in which no create lands on an expired stream with forks, that is enough from
      any offset. */
  lemma SafePagedRead(ops: seq<Op>, ks: seq<nat>, nows: seq<int>, path: string, o: Offset, options: PageOptions)
    requires ValidOps(ops) && SafeRun(ops) && |nows| == |ks| > 0 && !o.IsNow()
    requires forall i :: 0 <= i < |ks| ==> ks[0] <= ks[i] <= |ops|
    requires forall i :: 0 <= i < |ks| ==> Lives(Exec(ops[..ks[0]]).store, Exec(ops[..ks[i]]).store, path)
    requires |ks| > |After(Whole(Exec(ops[..ks[0]]).store, path), o)|
    ensures ReadsWhole(ops, ks, nows, path, o, options)
  {
    hide Exec, SafeRun, Sourced, SourcedFrom, Whole, ReadsWhole, After;
    forall i | 0 <= i < |ks| ensures SourcedFrom(Exec(ops[..ks[0]]).store, Exec(ops[..ks[i]]).store, path, o) {
      SafeRunSourced(ops, ks[0], ks[i], path);
      SourcedAnywhere(Exec(ops[..ks[0]]).store, Exec(ops[..ks[i]]).store, path, o);
    }
    PagedReadOverRun(ops, ks, nows, path, o, options);
  }
}
