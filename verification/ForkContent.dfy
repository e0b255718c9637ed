/** What readers of forks see, over whole runs (store/memory_store.go:204-296, 786-865). */
module ForkContent {
  import opened Prelude
  import opened Offsets
  import opened StoreModel
  import opened StoreOps
  import opened StoreInvariants
  import opened ForkLifecycle
  import opened ForkSlack
  import opened ForkAnchors

  // ---- selecting from rising messages ----

  lemma {:induction false} UpToConcat(a: seq<Message>, b: seq<Message>, u: Offset)
    ensures UpTo(a + b, u) == UpTo(a, u) + UpTo(b, u)
  {
    if b == [] {
      assert a + b == a;
    } else {
      assert (a + b)[..|a + b| - 1] == a + b[..|b| - 1];
      UpToConcat(a, b[..|b| - 1], u);
    }
  }

  lemma {:induction false} AfterConcat(a: seq<Message>, b: seq<Message>, o: Offset)
    ensures After(a + b, o) == After(a, o) + After(b, o)
  {
    if b == [] {
      assert a + b == a;
    } else {
      assert (a + b)[..|a + b| - 1] == a + b[..|b| - 1];
      AfterConcat(a, b[..|b| - 1], o);
    }
  }

  lemma {:induction false} UpToAll(ms: seq<Message>, u: Offset)
    requires forall i :: 0 <= i < |ms| ==> ms[i].offset.LessThanOrEqual(u)
    ensures UpTo(ms, u) == ms && After(ms, u) == []
  {
    if ms != [] {
      UpToAll(ms[..|ms| - 1], u);
    }
  }

  lemma {:induction false} UpToNone(ms: seq<Message>, u: Offset)
    requires forall i :: 0 <= i < |ms| ==> u.LessThan(ms[i].offset)
    ensures UpTo(ms, u) == [] && After(ms, u) == ms
  {
    if ms != [] {
      UpToNone(ms[..|ms| - 1], u);
    }
  }

  /** Cutting rising messages at an offset: what is up to it, then what is after it. */
  lemma {:induction false} CutAt(ms: seq<Message>, o: Offset) returns (n: nat)
    requires Increasing(ms)
    ensures n <= |ms| && UpTo(ms, o) == ms[..n] && After(ms, o) == ms[n..]
    ensures forall i :: 0 <= i < n ==> ms[i].offset.LessThanOrEqual(o)
    ensures forall i :: n <= i < |ms| ==> o.LessThan(ms[i].offset)
  {
    hide UpTo, After;
    n := 0;
    while n < |ms| && ms[n].offset.LessThanOrEqual(o)
      invariant n <= |ms| && forall i :: 0 <= i < n ==> ms[i].offset.LessThanOrEqual(o)
    {
      n := n + 1;
    }
    forall i | n <= i < |ms| ensures o.LessThan(ms[i].offset) {
      assert n < i ==> ms[n].offset.LessThan(ms[i].offset);
    }
    assert ms == ms[..n] + ms[n..];
    UpToConcat(ms[..n], ms[n..], o);
    AfterConcat(ms[..n], ms[n..], o);
    UpToAll(ms[..n], o);
    UpToNone(ms[n..], o);
  }

  lemma CutAtMessage(ms: seq<Message>, i: nat)
    requires Increasing(ms) && i < |ms|
    ensures UpTo(ms, ms[i].offset) == ms[..i + 1] && After(ms, ms[i].offset) == ms[i + 1..]
  {
    var n := CutAt(ms, ms[i].offset);
    assert ms[i].offset.LessThanOrEqual(ms[i].offset);
    assert i + 1 < |ms| ==> ms[i].offset.LessThan(ms[i + 1].offset);
    assert n == i + 1;
  }

  // ---- content ----

  /** The stream and all the sources its content comes from are there, each older than its
      fork and reaching to the fork point. */
  ghost predicate ChainAnchored(streams: Streams, p: string)
    decreases if p in streams then streams[p].meta.incarnation else 0
  {
    && p in streams && Anchored(streams, p)
    && (streams[p].meta.forkedFrom != "" ==> ChainAnchored(streams, streams[p].meta.forkedFrom))
  }

  lemma {:induction false} AllChainsAnchored(streams: Streams, p: string)
    requires AllAnchored(streams) && p in streams
    ensures ChainAnchored(streams, p)
    decreases streams[p].meta.incarnation
  {
    assert Anchored(streams, p);
    if streams[p].meta.forkedFrom != "" {
      AllChainsAnchored(streams, streams[p].meta.forkedFrom);
    }
  }

  /** Along an anchored chain any fuel from the stream's own incarnation up is enough. */
  lemma {:induction false} FuelEnough(streams: Streams, p: string, f: nat, g: nat)
    requires ChainAnchored(streams, p)
    requires streams[p].meta.incarnation <= f && streams[p].meta.incarnation <= g
    ensures Content(streams, p, f) == Content(streams, p, g)
    decreases streams[p].meta.incarnation
  {
    hide UpTo;
    var r := streams[p].meta.forkedFrom;
    if r != "" {
      FuelEnough(streams, r, f - 1, g - 1);
    }
  }

  /** The defining equation of what a reader sees. */
  lemma WholeOfFork(s: Store, p: string)
    requires Stored(s) && ChainAnchored(s.streams, p)
    ensures var st := s.streams[p];
            Whole(s, p) == if st.meta.forkedFrom == "" then st.messages
                           else UpTo(Whole(s, st.meta.forkedFrom), st.meta.forkOffset) + st.messages
    ensures s.streams[p].meta.forkedFrom != "" ==> ChainAnchored(s.streams, s.streams[p].meta.forkedFrom)
  {
    hide UpTo;
    var r := s.streams[p].meta.forkedFrom;
    if r != "" {
      assert s.streams[r].meta.incarnation < s.nextIncarnation;
      FuelEnough(s.streams, r, s.nextIncarnation - 1, s.nextIncarnation);
    }
  }

  /** Visible messages are in strictly rising offset order, up to the tail. */
  lemma WholeIncreasing(s: Store, p: string)
    requires Stored(s) && p in s.streams
    ensures Increasing(Whole(s, p))
    ensures forall i :: 0 <= i < |Whole(s, p)| ==>
              && Whole(s, p)[i].offset.LessThanOrEqual(s.streams[p].meta.currentOffset)
              && Whole(s, p)[i].data != []
  {
    WholeWithinTail(s, p);
    ContentIncreasing(s.streams, p, s.nextIncarnation);
  }

  lemma {:induction false} ContentIncreasing(streams: Streams, p: string, fuel: nat)
    requires forall q :: q in streams ==> WellStored(streams[q])
    ensures Increasing(Content(streams, p, fuel))
    ensures forall i :: 0 <= i < |Content(streams, p, fuel)| ==> Content(streams, p, fuel)[i].data != []
    decreases fuel
  {
    if p in streams {
      var st := streams[p];
      ChainRises(st.messages, st.meta.forkOffset, st.meta.currentOffset);
      ChainData(st.messages, st.meta.forkOffset, st.meta.currentOffset);
      if st.meta.forkedFrom != "" && fuel > 0 {
        ContentIncreasing(streams, st.meta.forkedFrom, fuel - 1);
        hide WellStored, UpTo;
        var n := CutAt(Content(streams, st.meta.forkedFrom, fuel - 1), st.meta.forkOffset);
      }
    }
  }

  /** What readers see depends only on messages and fork links. */
  lemma {:induction false} ContentSame(streams: Streams, streams': Streams, p: string, fuel: nat)
    requires streams.Keys == streams'.Keys
    requires forall q :: q in streams ==>
               && streams[q].messages == streams'[q].messages
               && streams[q].meta.forkedFrom == streams'[q].meta.forkedFrom
               && streams[q].meta.forkOffset == streams'[q].meta.forkOffset
    ensures Content(streams, p, fuel) == Content(streams', p, fuel)
    decreases fuel
  {
    if p in streams && streams[p].meta.forkedFrom != "" && fuel > 0 {
      ContentSame(streams, streams', streams[p].meta.forkedFrom, fuel - 1);
    }
  }

  lemma {:induction false} ChainData(ms: seq<Message>, from: Offset, to: Offset)
    requires Chain(ms, from, to)
    ensures forall i :: 0 <= i < |ms| ==> ms[i].data != []
  {
    if ms != [] {
      var n := |ms| - 1;
      ChainData(ms[..n], from, Offset(to.readSeq, to.byteOffset - |ms[n].data|));
      assert forall i :: 0 <= i < n ==> ms[..n][i] == ms[i];
    }
  }

  /** `t` is a later store than `s`. */
  ghost predicate Later(s: Store, t: Store) {
    Stored(s) && Stored(t) && Surviving(s, t)
  }

  /** `p` is the same stream in both stores, with its sources in place. */
  ghost predicate Sourced(s: Store, t: Store, p: string) {
    Lives(s, t, p) && ChainAnchored(s.streams, p) && ChainAnchored(t.streams, p)
  }

  /** The messages a stream has gained. */
  ghost function Gained(a: Stream, b: Stream): seq<Message>
    requires |a.messages| <= |b.messages|
  {
    b.messages[|a.messages|..]
  }

  /** A fork that keeps its incarnation keeps its very source. */
  lemma SourceKept(s: Store, t: Store, p: string)
    requires Later(s, t) && Sourced(s, t, p) && s.streams[p].meta.forkedFrom != ""
    ensures var r := s.streams[p].meta.forkedFrom;
            && t.streams[p].meta.forkedFrom == r && Sourced(s, t, r)
            && s.streams[r].meta.incarnation < s.streams[p].meta.incarnation
            && s.streams[p].meta.forkOffset.LessThanOrEqual(s.streams[r].meta.currentOffset)
  {
    LivingEvolves(s, t, p);
    hide Evolves, WellStored;
  }

  lemma LivingEvolves(s: Store, t: Store, p: string)
    requires Later(s, t) && Lives(s, t, p)
    ensures Evolves(s.streams[p], t.streams[p]) && SameIdentity(s.streams[p].meta, t.streams[p].meta)
  {
    hide WellStored, Chain;
  }

  /** Sources in place at both ends of a stretch were in place all through it. */
  lemma {:induction false} SourcedBetween(s: Store, t: Store, u: Store, p: string)
    requires Later(s, t) && Later(t, u) && Later(s, u) && Sourced(s, u, p)
    ensures Sourced(s, t, p) && Sourced(t, u, p)
    decreases s.streams[p].meta.incarnation
  {
    hide Evolves, WellStored;
    LivedBetween(s, t, u, p);
    LivingEvolves(s, t, p);
    var r := s.streams[p].meta.forkedFrom;
    if r != "" {
      SourceKept(s, u, p);
      SourcedBetween(s, t, u, r);
      TailGrows(s, t, r);
    }
  }

  lemma LivedBetween(s: Store, t: Store, u: Store, p: string)
    requires Later(s, t) && Later(t, u) && Lives(s, u, p)
    ensures Lives(s, t, p) && Lives(t, u, p)
  {
    hide Evolves, WellStored;
  }

  lemma TailGrows(s: Store, t: Store, p: string)
    requires Later(s, t) && Lives(s, t, p)
    ensures s.streams[p].meta.currentOffset.LessThanOrEqual(t.streams[p].meta.currentOffset)
  {
    LivingEvolves(s, t, p);
    hide Later;
    var a, b := s.streams[p], t.streams[p];
    ChainRises(b.messages[|a.messages|..], a.meta.currentOffset, b.meta.currentOffset);
  }

  /** Between two moments of a stream's life its content only grows, by its own messages:
      nothing that happens to its source shows. */
  lemma {:induction false} ContentGrows(s: Store, t: Store, p: string)
    requires Later(s, t) && Sourced(s, t, p)
    ensures Evolves(s.streams[p], t.streams[p])
    ensures Whole(t, p) == Whole(s, p) + Gained(s.streams[p], t.streams[p])
    decreases s.streams[p].meta.incarnation
  {
    hide Stored, Surviving, Anchored, Whole, UpTo, Evolves, Chain;
    var a, b := s.streams[p], t.streams[p];
    LivingEvolves(s, t, p);
    EvolvesGains(a, b);
    WholeOfFork(s, p);
    WholeOfFork(t, p);
    if a.meta.forkedFrom != "" {
      SourceKept(s, t, p);
      hide Later, Sourced, ChainAnchored;
      ContentGrows(s, t, a.meta.forkedFrom);
      InheritedKept(s, t, p);
    }
  }

  /** The inherited part is what it was, if the source's content only grew. */
  lemma InheritedKept(s: Store, t: Store, p: string)
    requires p in s.streams && s.streams[p].meta.forkedFrom in s.streams && s.streams[p].meta.forkedFrom in t.streams
    requires var r := s.streams[p].meta.forkedFrom;
             && Evolves(s.streams[r], t.streams[r])
             && Whole(t, r) == Whole(s, r) + Gained(s.streams[r], t.streams[r])
             && s.streams[p].meta.forkOffset.LessThanOrEqual(s.streams[r].meta.currentOffset)
    ensures var r := s.streams[p].meta.forkedFrom;
            UpTo(Whole(t, r), s.streams[p].meta.forkOffset) == UpTo(Whole(s, r), s.streams[p].meta.forkOffset)
  {
    var r := s.streams[p].meta.forkedFrom;
    hide Whole, UpTo;
    InheritedSame(Whole(s, r), Gained(s.streams[r], t.streams[r]), s.streams[p].meta.forkOffset,
                  s.streams[r].meta.currentOffset, t.streams[r].meta.currentOffset);
  }

  lemma EvolvesGains(a: Stream, b: Stream)
    requires Evolves(a, b)
    ensures SameIdentity(a.meta, b.meta) && |a.messages| <= |b.messages| && b.messages == a.messages + Gained(a, b)
    ensures Chain(Gained(a, b), a.meta.currentOffset, b.meta.currentOffset)
  {
  }

  /** Messages appended after the fork point are cut off again. */
  lemma InheritedSame(ms: seq<Message>, extra: seq<Message>, u: Offset, from: Offset, to: Offset)
    requires Chain(extra, from, to) && u.LessThanOrEqual(from)
    ensures UpTo(ms + extra, u) == UpTo(ms, u)
  {
    ChainRises(extra, from, to);
    UpToConcat(ms, extra, u);
    UpToNone(extra, u);
  }

  /** Fork read stability over every run.  From any point on, a stream that keeps its
      incarnation, and whose sources are in place at both ends, shows exactly what it showed
      then, followed by what was appended to it since; appends to its sources, and their
      soft deletes, are never seen.  Its offsets rise strictly. */
  lemma ReadsAreStable(ops: seq<Op>, k: nat, p: string)
    requires ValidOps(ops) && k <= |ops|
    requires Sourced(Exec(ops[..k]).store, Exec(ops).store, p)
    ensures Stable(Exec(ops[..k]).store, Exec(ops).store, p)
  {
    hide Exec, Sourced, Stable, Later;
    RunIsLater(ops, k, |ops|);
    assert ops[..|ops|] == ops;
    LaterIsStable(Exec(ops[..k]).store, Exec(ops).store, p);
  }

  /** What `p` showed in `s` it shows in `t`, followed by what it gained, in rising order,
      and its inherited part is its source's up to the fork point. */
  ghost predicate Stable(s: Store, t: Store, p: string) {
    && Lives(s, t, p) && Evolves(s.streams[p], t.streams[p])
    && Whole(t, p) == Whole(s, p) + Gained(s.streams[p], t.streams[p])
    && Increasing(Whole(t, p))
    && (t.streams[p].meta.forkedFrom != "" ==>
          && t.streams[p].meta.forkedFrom in t.streams
          && Whole(t, p) ==
             UpTo(Whole(t, t.streams[p].meta.forkedFrom), t.streams[p].meta.forkOffset) + t.streams[p].messages)
  }

  lemma LaterIsStable(s: Store, t: Store, p: string)
    requires Later(s, t) && Sourced(s, t, p)
    ensures Stable(s, t, p)
  {
    hide Stored, Surviving, Evolves, Whole, Gained, Increasing, UpTo, WellStored;
    ContentGrows(s, t, p);
    WholeIncreasing(t, p);
    WholeOfFork(t, p);
  }

  lemma RunIsLater(ops: seq<Op>, k: nat, m: nat)
    requires ValidOps(ops) && k <= m <= |ops|
    ensures Later(Exec(ops[..k]).store, Exec(ops[..m]).store)
  {
    hide Exec, Stored, Surviving;
    RunStored(ops[..k]);
    RunStored(ops[..m]);
    RunSurvives(ops[..m], k);
    assert ops[..m][..k] == ops[..k];
  }

  /** In a run in which no create lands on an expired stream with forks, every stream has
      its sources in place, so the content of every living stream is stable. */
  lemma SafeReadsAreStable(ops: seq<Op>, k: nat, p: string)
    requires ValidOps(ops) && SafeRun(ops) && k <= |ops|
    requires Lives(Exec(ops[..k]).store, Exec(ops).store, p)
    ensures Sourced(Exec(ops[..k]).store, Exec(ops).store, p) && Stable(Exec(ops[..k]).store, Exec(ops).store, p)
  {
    hide Exec, SafeRun, ChainAnchored, Stable;
    assert ops[..|ops|] == ops;
    SafeRunSourced(ops, k, |ops|, p);
    ReadsAreStable(ops, k, p);
  }

  lemma SafeRunSourced(ops: seq<Op>, k: nat, m: nat, p: string)
    requires ValidOps(ops) && SafeRun(ops) && k <= |ops| && m <= |ops|
    requires Lives(Exec(ops[..k]).store, Exec(ops[..m]).store, p)
    ensures Sourced(Exec(ops[..k]).store, Exec(ops[..m]).store, p)
  {
    hide Exec, SafeRun, Rooted, AllAnchored, ChainAnchored;
    SafePrefix(ops, k);
    SafePrefix(ops, m);
    SafeRunRooted(ops[..k]);
    SafeRunRooted(ops[..m]);
    RootedIsAnchored(Exec(ops[..k]).store.streams);
    RootedIsAnchored(Exec(ops[..m]).store.streams);
    AllChainsAnchored(Exec(ops[..k]).store.streams, p);
    AllChainsAnchored(Exec(ops[..m]).store.streams, p);
  }

  lemma {:induction false} TotalLengthConcat(a: seq<Bytes>, b: seq<Bytes>)
    ensures TotalLength(a + b) == TotalLength(a) + TotalLength(b)
  {
    if b == [] {
      assert a + b == a;
    } else {
      assert (a + b)[..|a + b| - 1] == a + b[..|b| - 1];
      TotalLengthConcat(a, b[..|b| - 1]);
    }
  }

  lemma {:induction false} LaidConcat(from: Offset, a: seq<Bytes>, b: seq<Bytes>)
    ensures Laid(from, a + b) == Laid(from, a) + Laid(from.Add(TotalLength(a)), b)
  {
    if b == [] {
      assert a + b == a;
    } else {
      assert (a + b)[..|a + b| - 1] == a + b[..|b| - 1];
      LaidConcat(from, a, b[..|b| - 1]);
      TotalLengthConcat(a, b);
    }
  }

  /** A chain stays in place where every stream of it keeps its links and its tail. */
  lemma {:induction false} ChainKept(streams: Streams, streams': Streams, p: string)
    requires ChainAnchored(streams, p)
    requires forall q :: q in streams ==> q in streams' && KeepsPlace(streams[q].meta, streams'[q].meta)
    ensures ChainAnchored(streams', p)
    decreases if p in streams then streams[p].meta.incarnation else 0
  {
    if streams[p].meta.forkedFrom != "" {
      ChainKept(streams, streams', streams[p].meta.forkedFrom);
    }
  }

  ghost predicate KeepsPlace(a: Metadata, b: Metadata) {
    && a.forkedFrom == b.forkedFrom && a.incarnation == b.incarnation
    && a.forkOffset == b.forkOffset && a.currentOffset == b.currentOffset
  }

  lemma CreateIsLater(s: Store, path: string, opts: CreateOptions, idOk: bool, now: int)
    requires Stored(s) && ValidOp(Create(path, opts, idOk, now))
    requires CreateStep(s, path, opts, idOk, now).reply == Ok(true)
    ensures Later(s, s.(streams := s.streams - {path})) && Later(s, CreateStep(s, path, opts, idOk, now).store)
  {
    CreateKeeps(s, path, opts, idOk, now);
    DropKeeps(s, path);
    hide CreateStep, Stored, Surviving;
  }

  /** A source whose own chain does not lead through the new path stays in place. */
  lemma CreateKeepsChain(s: Store, path: string, opts: CreateOptions, idOk: bool, now: int)
    requires Stored(s) && opts.forkedFrom != "" && ChainAnchored(s.streams - {path}, opts.forkedFrom)
    requires CreateStep(s, path, opts, idOk, now).reply == Ok(true)
    ensures var s', src := CreateStep(s, path, opts, idOk, now).store, opts.forkedFrom;
            && ChainAnchored(s.streams, src) && ChainAnchored(s'.streams, src) && ChainAnchored(s'.streams, path)
            && s'.streams[src].messages == s.streams[src].messages
            && s'.streams[src].meta.incarnation == s.streams[src].meta.incarnation
            && src != path && s'.streams[path].meta.forkedFrom == src
  {
    hide CreateStep, PlanOf, InitialFrames, IsExpiredAt, ChainAnchored, WellStored, Laid, TotalLength;
    var s', s0, src := CreateStep(s, path, opts, idOk, now).store, s.(streams := s.streams - {path}), opts.forkedFrom;
    CreateCases(s, path, opts, idOk, now);
    DropKeeps(s, path);
    PlanWithinSource(s0, opts, now);
    ChainKept(s0.streams, s.streams, src);
    ChainKept(s0.streams, s'.streams, src);
    NewChain(s'.streams, path);
  }

  lemma NewChain(streams: Streams, path: string)
    requires path in streams && streams[path].meta.forkedFrom != "" && Anchored(streams, path)
    requires ChainAnchored(streams, streams[path].meta.forkedFrom)
    ensures ChainAnchored(streams, path)
  {
  }

  /** A new fork's content is the source's up to the resolved fork point, then its own. */
  lemma NewForkContent(s: Store, path: string, opts: CreateOptions, idOk: bool, now: int)
    requires Stored(s) && ValidOp(Create(path, opts, idOk, now))
    requires opts.forkedFrom != "" && ChainAnchored(s.streams - {path}, opts.forkedFrom)
    requires CreateStep(s, path, opts, idOk, now).reply == Ok(true)
    ensures var s', s0 := CreateStep(s, path, opts, idOk, now).store, s.(streams := s.streams - {path});
            var src := opts.forkedFrom;
            && src in s.streams && Whole(s', src) == Whole(s, src) == Whole(s0, src)
            && PlanOf(s0, opts, now).Ok? && InitialFrames(PlanOf(s0, opts, now).value, opts).Ok?
            && var plan := PlanOf(s0, opts, now).value;
               Whole(s', path) == UpTo(Whole(s, src), plan.forkOffset)
                                  + Laid(plan.forkOffset, plan.prefix + InitialFrames(plan, opts).value)
    ensures Increasing(Whole(s, opts.forkedFrom))
  {
    var src := opts.forkedFrom;
    var s', s0 := CreateStep(s, path, opts, idOk, now).store, s.(streams := s.streams - {path});
    hide CreateStep, Stored, Surviving, ChainAnchored, IsExpiredAt, PlanOf, InitialFrames, Whole, Evolves, WellStored;
    CreateCases(s, path, opts, idOk, now);
    CreateIsLater(s, path, opts, idOk, now);
    CreateKeepsChain(s, path, opts, idOk, now);
    ChainIsThere(s0.streams, src);
    NothingGained(s, s0, src);
    NothingGained(s, s', src);
    WholeOfFork(s', path);
    WholeIncreasing(s, src);
  }

  lemma ChainIsThere(streams: Streams, p: string)
    requires ChainAnchored(streams, p)
    ensures p in streams
  {
  }

  lemma NothingGained(s: Store, t: Store, p: string)
    requires Later(s, t) && Sourced(s, t, p) && t.streams[p].messages == s.streams[p].messages
    ensures Whole(t, p) == Whole(s, p)
  {
    hide Later, ChainAnchored, Whole, Evolves;
    ContentGrows(s, t, p);
  }

  /** The position a fork request names in its source. */
  function RequestedOffset(s: Store, opts: CreateOptions): Offset
    requires opts.forkedFrom in s.streams
  {
    if opts.forkOffset.Some? then opts.forkOffset.value else s.streams[opts.forkedFrom].meta.currentOffset
  }

  function SubOffset(opts: CreateOptions): nat {
    if opts.forkSubOffset.Some? then opts.forkSubOffset.value else 0
  }

  /** A fork shows its source up to the requested offset; a sub-offset k adds exactly the
      next k messages of a JSON source, or exactly the first k bytes of the next message
      of any other; initial data follows. */
  lemma ForkShows(s: Store, path: string, opts: CreateOptions, idOk: bool, now: int)
    requires Stored(s) && ValidOp(Create(path, opts, idOk, now))
    requires opts.forkedFrom != "" && ChainAnchored(s.streams - {path}, opts.forkedFrom)
    requires CreateStep(s, path, opts, idOk, now).reply == Ok(true)
    ensures var s' := CreateStep(s, path, opts, idOk, now).store;
            && opts.forkedFrom in s.streams && path in s'.streams
            && var w, at, k := Whole(s, opts.forkedFrom), RequestedOffset(s, opts), SubOffset(opts);
               var next := After(w, at);
               var json := IsJson(s.streams[opts.forkedFrom].meta.contentType);
               && (k > 0 ==> if json then k <= |next| else next != [] && k <= |next[0].data|)
               && exists frames: seq<Bytes> ::
                    && (opts.initialData.None? ==> frames == [])
                    && (opts.initialData.Some? ==>
                          FramesOf(s'.streams[path].meta.contentType, opts.initialData.value) == Ok(frames))
                    && Whole(s', path) ==
                       UpTo(w, at) +
                       (if k == 0 then Laid(at, frames)
                        else if json then next[..k] + Laid(next[k - 1].offset, frames)
                        else [Message(next[0].data[..k], at.Add(k))] + Laid(at.Add(k), frames))
  {
    var src := opts.forkedFrom;
    var s', s0 := CreateStep(s, path, opts, idOk, now).store, s.(streams := s.streams - {path});
    CreateCases(s, path, opts, idOk, now);
    hide CreateStep, ChainAnchored, Stored, IsExpiredAt, Whole, PlanOf, Laid, After, UpTo;
    NewForkContent(s, path, opts, idOk, now);
    var plan := PlanOf(s0, opts, now).value;
    var frames := InitialFrames(plan, opts).value;
    var w, at, k := Whole(s, src), RequestedOffset(s, opts), SubOffset(opts);
    var json := IsJson(s.streams[src].meta.contentType);
    PlanResolves(s0, opts, now, w);
    CutAtSubOffset(w, at, k, json, plan.forkOffset, plan.prefix, frames);
    assert Whole(s', path) ==
           UpTo(w, at) +
           (if k == 0 then Laid(at, frames)
            else if json then After(w, at)[..k] + Laid(After(w, at)[k - 1].offset, frames)
            else [Message(After(w, at)[0].data[..k], at.Add(k))] + Laid(at.Add(k), frames));
  }

  /** What a sub-offset adds to the part up to the requested offset. */
  lemma CutAtSubOffset(w: seq<Message>, at: Offset, k: nat, json: bool, forkOffset: Offset, prefix: seq<Bytes>,
                       frames: seq<Bytes>)
    requires Increasing(w)
    requires var next := After(w, at);
             if k == 0 then forkOffset == at && prefix == []
             else if json then k <= |next| && forkOffset == next[k - 1].offset && prefix == []
             else next != [] && k <= |next[0].data| && forkOffset == at && prefix == [next[0].data[..k]]
    ensures var next := After(w, at);
            UpTo(w, forkOffset) + Laid(forkOffset, prefix + frames) ==
            UpTo(w, at) +
            (if k == 0 then Laid(at, frames)
             else if json then next[..k] + Laid(next[k - 1].offset, frames)
             else [Message(next[0].data[..k], at.Add(k))] + Laid(at.Add(k), frames))
  {
    hide *;
    if k == 0 || json {
      assert [] + frames == frames;
    }
    if k > 0 {
      if json {
        SubOffsetCut(w, at, k);
      } else {
        LaidConcat(at, prefix, frames);
        LaidOne(at, prefix[0]);
      }
    }
  }

  lemma LaidOne(from: Offset, frame: Bytes)
    ensures Laid(from, [frame]) == [Message(frame, from.Add(|frame|))] && TotalLength([frame]) == |frame|
  {
    assert [frame][..0] == [];
    assert TotalLength([frame]) == TotalLength([]) + |frame|;
    assert Laid(from, [frame]) == Laid(from, []) + [Message(frame, from.Add(TotalLength([frame])))];
  }

  /** Moving the fork point to the k-th following message takes in exactly k more. */
  lemma SubOffsetCut(w: seq<Message>, at: Offset, k: nat)
    requires Increasing(w) && 0 < k <= |After(w, at)|
    ensures UpTo(w, After(w, at)[k - 1].offset) == UpTo(w, at) + After(w, at)[..k]
  {
    var n := CutAt(w, at);
    CutAtMessage(w, n + k - 1);
    assert w[..n + k] == w[..n] + w[n..][..k];
  }

  lemma PlanResolves(s0: Store, opts: CreateOptions, now: int, w: seq<Message>)
    requires opts.forkedFrom != "" && PlanOf(s0, opts, now).Ok? && w == Whole(s0, opts.forkedFrom)
    ensures opts.forkedFrom in s0.streams
    ensures var plan, at, k := PlanOf(s0, opts, now).value, RequestedOffset(s0, opts), SubOffset(opts);
            var next := After(w, at);
            if k == 0 then plan.forkOffset == at && plan.prefix == []
            else if IsJson(s0.streams[opts.forkedFrom].meta.contentType) then
              k <= |next| && plan.forkOffset == next[k - 1].offset && plan.prefix == []
            else
              next != [] && k <= |next[0].data| && plan.forkOffset == at && plan.prefix == [next[0].data[..k]]
  {
    hide IsExpiredAt, Whole;
  }
}
