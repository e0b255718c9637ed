/** Reads over time: what a read shows later, as far as the sources that it descends into are
    in place (store/memory_store.go:786-996). */
module SourcedReads {
  import opened Offsets
  import opened StoreModel
  import opened StoreOps
  import opened StoreInvariants
  import opened ForkLifecycle
  import opened ForkSlack
  import opened ForkAnchors
  import opened ForkContent
  import opened ForkDescents

  /** The sources that a read of `p` from `o` descends into are there, each older than its
      fork and reaching at least to the fork point. */
  ghost predicate AnchoredFrom(streams: Streams, p: string, o: Offset)
    decreases if p in streams then streams[p].meta.incarnation else 0
  {
    && p in streams
    && (streams[p].meta.forkedFrom != "" && o.LessThan(streams[p].meta.forkOffset) ==>
          Anchored(streams, p) && AnchoredFrom(streams, streams[p].meta.forkedFrom, o))
  }

  /** `p` is the same stream in both stores, with the sources below `o` in place. */
  ghost predicate SourcedFrom(s: Store, t: Store, p: string, o: Offset) {
    Lives(s, t, p) && AnchoredFrom(s.streams, p, o) && AnchoredFrom(t.streams, p, o)
  }

  lemma {:induction false} ChainFrom(streams: Streams, p: string, o: Offset)
    requires ChainAnchored(streams, p)
    ensures AnchoredFrom(streams, p, o)
    decreases streams[p].meta.incarnation
  {
    if streams[p].meta.forkedFrom != "" {
      ChainFrom(streams, streams[p].meta.forkedFrom, o);
    }
  }

  lemma SourcedAnywhere(s: Store, t: Store, p: string, o: Offset)
    requires Sourced(s, t, p)
    ensures SourcedFrom(s, t, p, o)
  {
    ChainFrom(s.streams, p, o);
    ChainFrom(t.streams, p, o);
  }

  /** From its fork point on, a living stream needs no source. */
  lemma PastForkPoint(s: Store, t: Store, p: string, o: Offset)
    requires Later(s, t) && Lives(s, t, p) && s.streams[p].meta.forkOffset.LessThanOrEqual(o)
    ensures SourcedFrom(s, t, p, o)
  {
    LivingEvolves(s, t, p);
    hide Later, Evolves;
  }

  lemma {:induction false} AnchoredFartherOn(streams: Streams, p: string, o: Offset, o': Offset)
    requires AnchoredFrom(streams, p, o) && o.LessThanOrEqual(o')
    ensures AnchoredFrom(streams, p, o')
    decreases streams[p].meta.incarnation
  {
    if streams[p].meta.forkedFrom != "" && o'.LessThan(streams[p].meta.forkOffset) {
      AnchoredFartherOn(streams, streams[p].meta.forkedFrom, o, o');
    }
  }

  lemma FartherOn(s: Store, t: Store, p: string, o: Offset, o': Offset)
    requires SourcedFrom(s, t, p, o) && o.LessThanOrEqual(o')
    ensures SourcedFrom(s, t, p, o')
  {
    AnchoredFartherOn(s.streams, p, o, o');
    AnchoredFartherOn(t.streams, p, o, o');
  }

  lemma {:induction false} AnchoredFromEnds(streams: Streams, p: string, o: Offset)
    requires AnchoredFrom(streams, p, o)
    ensures EndsWithin(streams, p, o, streams[p].meta.incarnation)
    decreases streams[p].meta.incarnation
  {
    if Descends(streams, p, o) {
      var r := streams[p].meta.forkedFrom;
      AnchoredFromEnds(streams, r, o);
      EndsSooner(streams, r, o, streams[r].meta.incarnation, o, streams[p].meta.incarnation - 1);
    }
  }

  /** A fork that is read below its fork point keeps its very source. */
  lemma SourceKeptFrom(s: Store, t: Store, p: string, o: Offset)
    requires Later(s, t) && SourcedFrom(s, t, p, o)
    requires s.streams[p].meta.forkedFrom != "" && o.LessThan(s.streams[p].meta.forkOffset)
    ensures var r := s.streams[p].meta.forkedFrom;
            && Descends(s.streams, p, o) && Descends(t.streams, p, o) && t.streams[p].meta.forkedFrom == r
            && SourcedFrom(s, t, r, o) && s.streams[r].meta.incarnation < s.streams[p].meta.incarnation
            && s.streams[p].meta.forkOffset.LessThanOrEqual(s.streams[r].meta.currentOffset)
  {
    LivingEvolves(s, t, p);
    hide Evolves, WellStored;
  }

  /** What a read that ends shows of a stream. */
  lemma ShownAfter(s: Store, p: string, o: Offset)
    requires Stored(s) && AnchoredFrom(s.streams, p, o)
    ensures var st, r := s.streams[p], s.streams[p].meta.forkedFrom;
            After(Whole(s, p), o) ==
            if Descends(s.streams, p, o) then UpTo(After(Whole(s, r), o), st.meta.forkOffset) + After(st.messages, o)
            else After(st.messages, o)
  {
    assert p in s.streams;
    hide Stored, After, UpTo, Whole, AnchoredFrom, EndsWithin;
    AnchoredFromEnds(s.streams, p, o);
    SourceEnds(s.streams, p, o, s.streams[p].meta.incarnation);
    WholeAfter(s, p, o);
  }

  /** Between two moments of a stream's life what it shows after `o` only grows, by its own
      messages, if the sources that the read descends into are in place at both. */
  lemma {:induction false} GrowsFrom(s: Store, t: Store, p: string, o: Offset)
    requires Later(s, t) && SourcedFrom(s, t, p, o)
    ensures Evolves(s.streams[p], t.streams[p])
    ensures After(Whole(t, p), o) == After(Whole(s, p), o) + After(Gained(s.streams[p], t.streams[p]), o)
    decreases s.streams[p].meta.incarnation
  {
    hide Stored, Surviving, Anchored, Whole, UpTo, After, Evolves, Chain, AnchoredFrom, Gained;
    var a, b := s.streams[p], t.streams[p];
    LivingEvolves(s, t, p);
    EvolvesGains(a, b);
    ShownAfter(s, p, o);
    ShownAfter(t, p, o);
    AfterConcat(a.messages, Gained(a, b), o);
    if a.meta.forkedFrom != "" && o.LessThan(a.meta.forkOffset) {
      SourceKeptFrom(s, t, p, o);
      var r := a.meta.forkedFrom;
      GrowsFrom(s, t, r, o);
      EvolvesGains(s.streams[r], t.streams[r]);
      InheritedKeptFrom(s.streams[r], t.streams[r], After(Whole(s, r), o), o, a.meta.forkOffset);
    }
  }

  /** What a source gains lies past the fork point. */
  lemma InheritedKeptFrom(a: Stream, b: Stream, shown: seq<Message>, o: Offset, u: Offset)
    requires Evolves(a, b) && |a.messages| <= |b.messages| && u.LessThanOrEqual(a.meta.currentOffset)
    ensures UpTo(shown + After(Gained(a, b), o), u) == UpTo(shown, u)
  {
    hide After, UpTo, Gained;
    EvolvesGains(a, b);
    hide Evolves;
    var extra := Gained(a, b);
    ChainRises(extra, a.meta.currentOffset, b.meta.currentOffset);
    AfterSelects(extra, o);
    UpToConcat(shown, After(extra, o), u);
    UpToNone(After(extra, o), u);
  }

  /** Sources in place at both ends of a stretch were in place all through it. */
  lemma {:induction false} SourcedFromBetween(s: Store, t: Store, u: Store, p: string, o: Offset)
    requires Later(s, t) && Later(t, u) && Later(s, u) && SourcedFrom(s, u, p, o)
    ensures SourcedFrom(s, t, p, o) && SourcedFrom(t, u, p, o)
    decreases s.streams[p].meta.incarnation
  {
    hide Evolves, WellStored;
    LivedBetween(s, t, u, p);
    LivingEvolves(s, t, p);
    var r := s.streams[p].meta.forkedFrom;
    if r != "" && o.LessThan(s.streams[p].meta.forkOffset) {
      SourceKeptFrom(s, u, p, o);
      SourcedFromBetween(s, t, u, r, o);
      TailGrows(s, t, r);
    }
  }

  // ---- stability over every run ----

  /** Fork read stability, read by read: from any point of any run on, what a living stream
      shows after `o` is what it showed then, followed by its own appends, if the sources that
      the read descends into are in place at both ends. */
  lemma ReadsAreStableFrom(ops: seq<Op>, k: nat, p: string, o: Offset)
    requires ValidOps(ops) && k <= |ops|
    requires SourcedFrom(Exec(ops[..k]).store, Exec(ops).store, p, o)
    ensures var s, t := Exec(ops[..k]).store, Exec(ops).store;
            && Evolves(s.streams[p], t.streams[p])
            && After(Whole(t, p), o) == After(Whole(s, p), o) + After(Gained(s.streams[p], t.streams[p]), o)
  {
    hide Exec, SourcedFrom, Later, Whole, After;
    RunIsLater(ops, k, |ops|);
    assert ops[..|ops|] == ops;
    GrowsFrom(Exec(ops[..k]).store, Exec(ops).store, p, o);
  }

  /** Past its fork point every living stream of every run shows exactly its own messages, and
      those only grow: whatever happens to its source, only what lies at or below the fork
      point can change. */
  lemma OwnReadsAreStable(ops: seq<Op>, k: nat, p: string)
    requires ValidOps(ops) && k <= |ops| && Lives(Exec(ops[..k]).store, Exec(ops).store, p)
    ensures var s, t, fork := Exec(ops[..k]).store, Exec(ops).store, Exec(ops[..k]).store.streams[p].meta.forkOffset;
            && After(Whole(s, p), fork) == s.streams[p].messages && After(Whole(t, p), fork) == t.streams[p].messages
            && s.streams[p].messages <= t.streams[p].messages
  {
    hide Exec, Later, Whole, After, Stored, Evolves;
    var s, t := Exec(ops[..k]).store, Exec(ops).store;
    RunIsLater(ops, k, |ops|);
    assert ops[..|ops|] == ops;
    LaterEnds(s, t);
    LivingEvolves(s, t, p);
    EvolvesGains(s.streams[p], t.streams[p]);
    OwnPart(s, p);
    OwnPart(t, p);
  }

  lemma LaterEnds(s: Store, t: Store)
    requires Later(s, t)
    ensures Stored(s) && Stored(t)
  {
  }

  lemma OwnPart(s: Store, p: string)
    requires Stored(s) && p in s.streams
    ensures After(Whole(s, p), s.streams[p].meta.forkOffset) == s.streams[p].messages
  {
    var st := s.streams[p];
    assert WellStored(st);
    ChainRises(st.messages, st.meta.forkOffset, st.meta.currentOffset);
    hide Stored, WellStored, Whole, After, UpTo;
    UpToNone(st.messages, st.meta.forkOffset);
    ShownAfter(s, p, st.meta.forkOffset);
  }

  // ---- runs in which no source is replaced ----

  lemma {:induction false} UpToMember(ms: seq<Message>, u: Offset, m: Message)
    ensures m in UpTo(ms, u) <==> m in ms && m.offset.LessThanOrEqual(u)
  {
    if ms != [] {
      UpToMember(ms[..|ms| - 1], u, m);
      assert ms == ms[..|ms| - 1] + [ms[|ms| - 1]];
    }
  }

  lemma {:induction false} AfterMember(ms: seq<Message>, o: Offset, m: Message)
    ensures m in After(ms, o) <==> m in ms && o.LessThan(m.offset)
  {
    if ms != [] {
      AfterMember(ms[..|ms| - 1], o, m);
      assert ms == ms[..|ms| - 1] + [ms[|ms| - 1]];
    }
  }

  /** A source that is there, where no source was replaced, was there and reached to the fork
      point. */
  lemma TiedSource(s: Store, t: Store, p: string)
    requires Later(s, t) && AllTied(s.streams) && AllTied(t.streams) && Lives(s, t, p)
    requires s.streams[p].meta.forkedFrom != "" && t.streams[p].meta.forkedFrom in t.streams
    ensures var r := s.streams[p].meta.forkedFrom;
            && t.streams[p].meta.forkedFrom == r && Lives(s, t, r)
            && s.streams[r].meta.incarnation < s.streams[p].meta.incarnation
            && s.streams[p].meta.forkOffset.LessThanOrEqual(s.streams[r].meta.currentOffset)
  {
    LivingEvolves(s, t, p);
    assert Tied(t.streams, p) && Tied(s.streams, p);
    hide Evolves, WellStored, AllTied;
  }

  /** What a source gained lies past the fork point. */
  lemma GainedPast(s: Store, t: Store, r: string, u: Offset, m: Message)
    requires Later(s, t) && Lives(s, t, r) && u.LessThanOrEqual(s.streams[r].meta.currentOffset)
    ensures |s.streams[r].messages| <= |t.streams[r].messages|
    ensures m in Gained(s.streams[r], t.streams[r]) ==> u.LessThan(m.offset)
  {
    LivingEvolves(s, t, r);
    hide Later;
    EvolvesGains(s.streams[r], t.streams[r]);
    ChainRises(Gained(s.streams[r], t.streams[r]), s.streams[r].meta.currentOffset, t.streams[r].meta.currentOffset);
  }

  /** Where no source was replaced, a stream shows later only what it showed before or gained
      itself. */
  lemma {:induction false} NothingForeign(s: Store, t: Store, p: string, f: nat, g: nat, m: Message)
    requires Later(s, t) && AllTied(s.streams) && AllTied(t.streams) && Lives(s, t, p)
    requires s.streams[p].meta.incarnation <= f && s.streams[p].meta.incarnation <= g
    requires m in Content(t.streams, p, g)
    ensures |s.streams[p].messages| <= |t.streams[p].messages|
    ensures m in Content(s.streams, p, f) || m in Gained(s.streams[p], t.streams[p])
    decreases s.streams[p].meta.incarnation
  {
    hide UpTo, Later, AllTied, Evolves, Gained;
    var a, b := s.streams[p], t.streams[p];
    LivingEvolves(s, t, p);
    EvolvesGains(a, b);
    if m !in b.messages {
      var r := a.meta.forkedFrom;
      UpToMember(Content(t.streams, r, g - 1), a.meta.forkOffset, m);
      TiedSource(s, t, p);
      NothingForeign(s, t, r, f - 1, g - 1, m);
      GainedPast(s, t, r, a.meta.forkOffset, m);
      UpToMember(Content(s.streams, r, f - 1), a.meta.forkOffset, m);
    }
  }

  /** In a run in which no create takes a path that some stream still names as its source, a
      living stream shows later only what it showed before or what was appended to it. */
  lemma FreshReadsShowNothingForeign(ops: seq<Op>, k: nat, p: string, m: Message)
    requires ValidOps(ops) && FreshRun(ops) && k <= |ops|
    requires Lives(Exec(ops[..k]).store, Exec(ops).store, p) && m in Whole(Exec(ops).store, p)
    ensures m in Whole(Exec(ops[..k]).store, p) || m in Exec(ops).store.streams[p].messages
  {
    hide Exec, FreshRun, AllTied, Later, Content;
    var s, t := Exec(ops[..k]).store, Exec(ops).store;
    assert ops[..|ops|] == ops;
    FreshRunTied(ops, k);
    FreshRunTied(ops, |ops|);
    RunIsLater(ops, k, |ops|);
    LaterShowsNothingForeign(s, t, p, m);
  }

  lemma LaterShowsNothingForeign(s: Store, t: Store, p: string, m: Message)
    requires Later(s, t) && AllTied(s.streams) && AllTied(t.streams) && Lives(s, t, p) && m in Whole(t, p)
    ensures m in Whole(s, p) || m in t.streams[p].messages
  {
    hide AllTied, Content, WellStored, Evolves;
    NothingForeign(s, t, p, s.nextIncarnation, t.nextIncarnation, m);
  }
}
