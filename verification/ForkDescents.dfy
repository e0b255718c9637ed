/** When a read along a fork chain ends (store/memory_store.go:832-900). */
module ForkDescents {
  import opened Prelude
  import opened Offsets
  import opened StoreModel
  import opened StoreOps
  import opened StoreInvariants
  import opened ForkLifecycle
  import opened ForkAnchors
  import opened ForkContent
  import opened Paging

  /** A read from `o` goes on from `p` to the source of `p`. */
  predicate Descends(streams: Streams, p: string, o: Offset) {
    && p in streams && streams[p].meta.forkedFrom != "" && o.LessThan(streams[p].meta.forkOffset)
    && streams[p].meta.forkedFrom in streams
  }

  /** A read from `o` ends after at most `n` descents from `p`. */
  predicate EndsWithin(streams: Streams, p: string, o: Offset, n: nat)
    decreases n
  {
    Descends(streams, p, o) ==> n > 0 && EndsWithin(streams, streams[p].meta.forkedFrom, o, n - 1)
  }

  /** A read of `p` from `o` ends. */
  ghost predicate Ends(streams: Streams, p: string, o: Offset) {
    exists n: nat :: EndsWithin(streams, p, o, n)
  }

  lemma {:induction false} EndsSooner(streams: Streams, p: string, o: Offset, n: nat, o': Offset, n': nat)
    requires EndsWithin(streams, p, o, n) && n <= n' && o.LessThanOrEqual(o')
    ensures EndsWithin(streams, p, o', n')
    decreases n
  {
    if Descends(streams, p, o') {
      EndsSooner(streams, streams[p].meta.forkedFrom, o, n - 1, o', n' - 1);
    }
  }

  /** A read that ends visits no stream twice: the streams it visits, all different. */
  lemma {:induction false} VisitedPaths(streams: Streams, p: string, o: Offset, n: nat) returns (paths: set<string>)
    requires p in streams && EndsWithin(streams, p, o, n) && (n > 0 ==> !EndsWithin(streams, p, o, n - 1))
    ensures paths <= streams.Keys && |paths| == n + 1
    ensures forall q :: q in paths ==> EndsWithin(streams, q, o, n)
    decreases n
  {
    paths := {p};
    if n > 0 {
      var rest := VisitedPaths(streams, streams[p].meta.forkedFrom, o, n - 1);
      assert p !in rest;
      paths := rest + {p};
      forall q | q in rest ensures EndsWithin(streams, q, o, n) {
        EndsSooner(streams, q, o, n - 1, o, n);
      }
    }
  }

  lemma {:induction false} FewestDescents(streams: Streams, p: string, o: Offset, n: nat) returns (d: nat)
    requires EndsWithin(streams, p, o, n)
    ensures d <= n && EndsWithin(streams, p, o, d) && (d > 0 ==> !EndsWithin(streams, p, o, d - 1))
  {
    d := n;
    if n > 0 && EndsWithin(streams, p, o, n - 1) {
      d := FewestDescents(streams, p, o, n - 1);
    }
  }

  /** Exactly when a read ends: within as many descents as there are streams. */
  lemma EndsIff(streams: Streams, p: string, o: Offset)
    ensures Ends(streams, p, o) <==> EndsWithin(streams, p, o, |streams|)
  {
    if Ends(streams, p, o) {
      var n: nat :| EndsWithin(streams, p, o, n);
      var d := FewestDescents(streams, p, o, n);
      if p in streams {
        var paths := VisitedPaths(streams, p, o, d);
        SubsetSize(paths, streams.Keys);
        assert |streams.Keys| == |streams|;
      }
      EndsSooner(streams, p, o, d, o, |streams|);
    }
  }

  // ---- reads that never end ----

  /** The stream that a read of `p` from `o` reaches after `k` descents, if it goes that far. */
  ghost function Reached(streams: Streams, p: string, o: Offset, k: nat): Option<string>
    decreases k
  {
    if k == 0 then Some(p)
    else if Descends(streams, p, o) then Reached(streams, streams[p].meta.forkedFrom, o, k - 1)
    else None
  }

  lemma {:induction false} ReachedAgain(streams: Streams, p: string, o: Offset, j: nat, k: nat)
    ensures Reached(streams, p, o, j + k) ==
            match Reached(streams, p, o, j)
            case Some(q) => Reached(streams, q, o, k)
            case None => None
    decreases j
  {
    if j > 0 && Descends(streams, p, o) {
      ReachedAgain(streams, streams[p].meta.forkedFrom, o, j - 1, k);
    }
  }

  lemma {:induction false} EndsMeansStops(streams: Streams, p: string, o: Offset, n: nat)
    ensures EndsWithin(streams, p, o, n) <==> Reached(streams, p, o, n + 1).None?
    decreases n
  {
    if n > 0 && Descends(streams, p, o) {
      EndsMeansStops(streams, streams[p].meta.forkedFrom, o, n - 1);
    }
  }

  /** A stream that its own descents reach again is read without end. */
  lemma {:induction false} CycleNeverEnds(streams: Streams, p: string, o: Offset, k: nat, n: nat)
    requires k > 0 && Reached(streams, p, o, k) == Some(p)
    ensures !EndsWithin(streams, p, o, n)
    decreases n
  {
    hide Reached, EndsWithin;
    EndsMeansStops(streams, p, o, n);
    if n + 1 <= k {
      ReachedAgain(streams, p, o, n + 1, k - n - 1);
    } else {
      ReachedAgain(streams, p, o, k, n + 1 - k);
      EndsMeansStops(streams, p, o, n - k);
      CycleNeverEnds(streams, p, o, k, n - k);
    }
  }

  /** After `i` descents a read of `p` stands where it stands again `k` descents later. */
  ghost predicate Circles(streams: Streams, p: string, o: Offset, i: nat, k: nat) {
    k > 0 && Reached(streams, p, o, i).Some? && Reached(streams, p, o, i + k) == Reached(streams, p, o, i)
  }

  lemma {:induction false} ReachedIsThere(streams: Streams, p: string, o: Offset, k: nat)
    requires p in streams
    ensures Reached(streams, p, o, k).Some? ==> Reached(streams, p, o, k).value in streams
    decreases k
  {
    if k > 0 && Descends(streams, p, o) {
      ReachedIsThere(streams, streams[p].meta.forkedFrom, o, k - 1);
    }
  }

  /** A long enough read meets some stream twice. */
  lemma LongReadCircles(streams: Streams, p: string, o: Offset) returns (i: nat, k: nat)
    requires !EndsWithin(streams, p, o, |streams|)
    ensures Circles(streams, p, o, i, k)
  {
    assert Descends(streams, p, o);
    hide EndsWithin, Reached;
    var n := |streams| + 1;
    EndsMeansStops(streams, p, o, |streams|);
    forall j | 0 <= j < n ensures Reached(streams, p, o, j).Some? && Reached(streams, p, o, j).value in streams {
      ReachedAgain(streams, p, o, j, n - j);
      ReachedIsThere(streams, p, o, j);
    }
    var met := seq(n, j requires 0 <= j < n => Reached(streams, p, o, j).value);
    assert |streams.Keys| == |streams|;
    var h, l := Repeats(met, streams.Keys);
    i, k := h, l - h;
  }

  /** Exactly when a read never ends: it comes back to a stream it has visited. */
  lemma EndlessIff(streams: Streams, p: string, o: Offset)
    ensures !Ends(streams, p, o) <==> exists i: nat, k: nat :: Circles(streams, p, o, i, k)
  {
    hide EndsWithin, Reached;
    EndsIff(streams, p, o);
    if !Ends(streams, p, o) {
      var i, k := LongReadCircles(streams, p, o);
    }
    if i: nat, k: nat :| Circles(streams, p, o, i, k) {
      CircleOutlasts(streams, p, o, i, k, |streams|);
    }
  }

  lemma CircleOutlasts(streams: Streams, p: string, o: Offset, i: nat, k: nat, n: nat)
    requires Circles(streams, p, o, i, k)
    ensures !EndsWithin(streams, p, o, n)
  {
    hide EndsWithin, Reached;
    var q := Reached(streams, p, o, i).value;
    ReachedAgain(streams, p, o, i, k);
    CycleNeverEnds(streams, q, o, k, n);
    EndsMeansStops(streams, q, o, n);
    ReachedAgain(streams, p, o, i, n + 1);
    EndsMeansStops(streams, p, o, n);
    ReachedAgain(streams, p, o, n + 1, i);
  }

  /** Where a stream's sources are in place, every read of it ends. */
  lemma {:induction false} AnchoredEnds(streams: Streams, p: string, o: Offset)
    requires ChainAnchored(streams, p)
    ensures EndsWithin(streams, p, o, streams[p].meta.incarnation)
    decreases streams[p].meta.incarnation
  {
    if Descends(streams, p, o) {
      var r := streams[p].meta.forkedFrom;
      AnchoredEnds(streams, r, o);
      EndsSooner(streams, r, o, streams[r].meta.incarnation, o, streams[p].meta.incarnation - 1);
    }
  }

  /** In a run in which no create lands on an expired stream with forks, every read ends. */
  lemma SafeReadsEnd(ops: seq<Op>, p: string, o: Offset)
    requires ValidOps(ops) && SafeRun(ops) && p in Exec(ops).store.streams
    ensures Ends(Exec(ops).store.streams, p, o)
  {
    hide Exec, SafeRun, Rooted, AllAnchored, ChainAnchored, EndsWithin;
    SafeRunRooted(ops);
    RootedIsAnchored(Exec(ops).store.streams);
    AllChainsAnchored(Exec(ops).store.streams, p);
    AnchoredEnds(Exec(ops).store.streams, p, o);
  }

  // ---- content, as far as a read goes ----

  /** What a fork shows after `o`, when a read goes on to its source and when it does not. */
  lemma AfterOfFork(inherited: seq<Message>, own: seq<Message>, forkOffset: Offset, o: Offset)
    ensures After(UpTo(inherited, forkOffset) + own, o) ==
            if o.LessThan(forkOffset) then UpTo(After(inherited, o), forkOffset) + After(own, o) else After(own, o)
  {
    hide After, UpTo;
    AfterConcat(UpTo(inherited, forkOffset), own, o);
    if o.LessThan(forkOffset) {
      CutsCommute(inherited, o, forkOffset);
    } else {
      UpToSelects(inherited, forkOffset);
      UpToAll(UpTo(inherited, forkOffset), o);
      assert [] + After(own, o) == After(own, o);
    }
  }

  /** As far as a read goes, the bound on the chain does not matter once it is long enough. */
  lemma {:induction false} EnoughFuel(streams: Streams, p: string, o: Offset, n: nat, f: nat, g: nat)
    requires EndsWithin(streams, p, o, n) && n <= f && n <= g
    ensures After(Content(streams, p, f), o) == After(Content(streams, p, g), o)
    decreases n
  {
    hide After, UpTo;
    if p in streams && streams[p].meta.forkedFrom != "" {
      var st := streams[p];
      var r := st.meta.forkedFrom;
      if f > 0 {
        AfterOfFork(Content(streams, r, f - 1), st.messages, st.meta.forkOffset, o);
      }
      if g > 0 {
        AfterOfFork(Content(streams, r, g - 1), st.messages, st.meta.forkOffset, o);
      }
      if Descends(streams, p, o) {
        EnoughFuel(streams, r, o, n - 1, f - 1, g - 1);
      } else {
        NothingInherited(streams, r, o, st.meta.forkOffset, f);
        NothingInherited(streams, r, o, st.meta.forkOffset, g);
        assert [] + After(st.messages, o) == After(st.messages, o);
      }
    }
  }

  lemma NothingInherited(streams: Streams, r: string, o: Offset, u: Offset, f: nat)
    ensures r !in streams && f > 0 ==> UpTo(After(Content(streams, r, f - 1), o), u) == []
  {
  }

  /** There are fewer streams than incarnations issued. */
  lemma StreamsCounted(s: Store)
    requires Stored(s)
    ensures |s.streams| < s.nextIncarnation
  {
    CountedBelow(s.streams, s.streams.Keys, s.nextIncarnation);
    assert |s.streams.Keys| == |s.streams|;
  }

  lemma {:induction false} CountedBelow(streams: Streams, paths: set<string>, n: nat)
    requires paths <= streams.Keys && n > 0
    requires forall p :: p in paths ==> 0 < streams[p].meta.incarnation < n
    requires forall p, q :: p in paths && q in paths && p != q ==>
               streams[p].meta.incarnation != streams[q].meta.incarnation
    ensures |paths| < n
    decreases n
  {
    if n == 1 {
      assert paths == {};
    } else if p :| p in paths && streams[p].meta.incarnation == n - 1 {
      CountedBelow(streams, paths - {p}, n - 1);
    } else {
      CountedBelow(streams, paths, n - 1);
    }
  }

  lemma EndsByCount(s: Store, p: string, o: Offset)
    requires Stored(s) && Ends(s.streams, p, o)
    ensures EndsWithin(s.streams, p, o, |s.streams|) && |s.streams| < s.nextIncarnation
  {
    hide Stored, Ends, EndsWithin;
    EndsIff(s.streams, p, o);
    StreamsCounted(s);
  }

  lemma WholeUnfolds(s: Store, p: string)
    requires p in s.streams && s.nextIncarnation > 0
    ensures var st := s.streams[p];
            Whole(s, p) == if st.meta.forkedFrom == "" then st.messages
                           else UpTo(Content(s.streams, st.meta.forkedFrom, s.nextIncarnation - 1),
                               st.meta.forkOffset) + st.messages
  {
  }

  /** The equation of a read that ends, whatever the chain looks like further on. */
  lemma WholeAfter(s: Store, p: string, o: Offset)
    requires Stored(s) && p in s.streams && Ends(s.streams, p, o)
    ensures var st, r := s.streams[p], s.streams[p].meta.forkedFrom;
            After(Whole(s, p), o) ==
            if Descends(s.streams, p, o) then UpTo(After(Whole(s, r), o), st.meta.forkOffset) + After(st.messages, o)
            else After(st.messages, o)
    ensures Descends(s.streams, p, o) ==> Ends(s.streams, s.streams[p].meta.forkedFrom, o)
  {
    hide After, UpTo, Ends, Stored, Content;
    EndsByCount(s, p, o);
    WholeUnfolds(s, p);
    var st, f := s.streams[p], s.nextIncarnation;
    if st.meta.forkedFrom != "" {
      var r := st.meta.forkedFrom;
      AfterOfFork(Content(s.streams, r, f - 1), st.messages, st.meta.forkOffset, o);
      if Descends(s.streams, p, o) {
        EnoughFuel(s.streams, r, o, |s.streams| - 1, f - 1, f);
        SourceEnds(s.streams, r, o, |s.streams| - 1);
      } else {
        NothingInherited(s.streams, r, o, st.meta.forkOffset, f);
        assert [] + After(st.messages, o) == After(st.messages, o);
      }
    }
  }

  lemma SourceEnds(streams: Streams, p: string, o: Offset, n: nat)
    requires EndsWithin(streams, p, o, n)
    ensures Ends(streams, p, o)
  {
  }

  /** The same for the interval (o, u]. */
  lemma WholeBetween(s: Store, p: string, o: Offset, u: Offset)
    requires Stored(s) && p in s.streams && Ends(s.streams, p, o)
    ensures var st, r := s.streams[p], s.streams[p].meta.forkedFrom;
            Between(Whole(s, p), o, u) ==
            (if Descends(s.streams, p, o) then Between(Whole(s, r), o, Earlier(u, st.meta.forkOffset)) else [])
            + Between(st.messages, o, u)
  {
    hide After, UpTo, Ends, Stored, Whole;
    WholeAfter(s, p, o);
    var st := s.streams[p];
    if Descends(s.streams, p, o) {
      var above := After(Whole(s, st.meta.forkedFrom), o);
      UpToConcat(UpTo(above, st.meta.forkOffset), After(st.messages, o), u);
      UpToTwice(above, st.meta.forkOffset, u);
    } else {
      assert [] + Between(st.messages, o, u) == Between(st.messages, o, u);
    }
  }

  /** Where a read ends depends only on the fork links. */
  lemma {:induction false} EndsSame(streams: Streams, streams': Streams, p: string, o: Offset, n: nat)
    requires EndsWithin(streams, p, o, n) && streams.Keys == streams'.Keys
    requires forall q :: q in streams ==>
               && streams[q].meta.forkedFrom == streams'[q].meta.forkedFrom
               && streams[q].meta.forkOffset == streams'[q].meta.forkOffset
    ensures EndsWithin(streams', p, o, n)
    decreases n
  {
    if Descends(streams, p, o) {
      EndsSame(streams, streams', streams[p].meta.forkedFrom, o, n - 1);
    }
  }

  // ---- which requests are answered ----

  /** A page read that passes the gate is answered exactly if its walk ends. */
  ghost predicate PageReturns(s: Store, path: string, offset: Offset, snapshot: Option<Snapshot>, now: int) {
    match ReadGate(s, path, snapshot, now)
    case Err(_) => true
    case Ok(found) => Ends(s.streams, path, ReadStart(offset, found))
  }

  /** The create passes every check in front of reading its source at a sub-offset. */
  ghost predicate ReadsSource(s: Store, opts: CreateOptions, now: int) {
    && opts.forkedFrom != "" && opts.forkedFrom in s.streams && SubOffset(opts) > 0
    && var source := s.streams[opts.forkedFrom].meta;
       && !source.softDeleted && !IsExpiredAt(source, now)
       && (opts.contentType == "" || EqualFold(opts.contentType, source.contentType))
       && RequestedOffset(s, opts).LessThanOrEqual(source.currentOffset)
  }

  ghost predicate PlanReturns(s: Store, opts: CreateOptions, now: int) {
    ReadsSource(s, opts, now) ==> Ends(s.streams, opts.forkedFrom, RequestedOffset(s, opts))
  }

  /** A create is answered exactly if it does not read its source, or that read ends. */
  ghost predicate CreateReturns(s: Store, path: string, opts: CreateOptions, idOk: bool, now: int) {
    idOk && (path in s.streams ==> IsExpiredAt(s.streams[path].meta, now)) ==>
      PlanReturns(s.(streams := s.streams - {path}), opts, now)
  }
}
