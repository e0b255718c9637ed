/** How long forks keep their sources (store/memory_store.go:148-446). */
module ForkAnchors {
  import opened Prelude
  import opened StoreModel
  import opened StoreOps
  import opened StoreInvariants
  import opened ForkLifecycle
  import opened ForkSlack

  /** Sources are present and older than their forks, and no count is too low. */
  ghost predicate Rooted(streams: Streams) {
    AllAnchored(streams) && Covered(streams)
  }

  lemma RootedIsAnchored(streams: Streams)
    requires Rooted(streams)
    ensures AllAnchored(streams)
  {
  }

  // ---- delete ----

  /** A stream without references has no forks that could lose it. */
  lemma ReleaseRoots(streams: Streams, path: string)
    requires Rooted(streams) && path in streams && streams[path].meta.refCount <= 0
    ensures Rooted(Released(streams, path))
  {
    assert ForksOf(streams, path) == {} by {
      assert Slack(streams, path) >= 0;
    }
    var rest := Released(streams, path);
    hide Released, Slack, Unslackened;
    OneReleased(streams, path);
    UnslackenedCovers(streams, rest, path);
    ReleasedKeys(streams, path);
    forall p | p in rest ensures Anchored(rest, p) {
      assert Anchored(streams, p) && p !in ForksOf(streams, path);
      ReleaseAnchors(streams, path, p);
    }
  }

  lemma {:induction false} CascadeRoots(streams: Streams, path: string)
    requires Rooted(streams) && path in streams && streams[path].meta.refCount <= 0
    ensures AllAnchored(DeleteWithCascade(streams, path).streams)
    decreases |streams|
  {
    hide DeleteWithCascade, Rooted, Released, Cleared, Slack;
    var parent := streams[path].meta.forkedFrom;
    CascadeShape(streams, path);
    ReleaseRoots(streams, path);
    RootedIsAnchored(Released(streams, path));
    if parent != "" && parent != path && parent in streams {
      ForkIsCounted(streams, path);
      RootedIsCovered(streams);
      assert Slack(streams, parent) >= 0;
      if streams[parent].meta.refCount == 1 && streams[parent].meta.softDeleted {
        CascadeRoots(Released(streams, path), parent);
      }
    }
  }

  lemma RootedIsCovered(streams: Streams)
    requires Rooted(streams)
    ensures Covered(streams)
  {
  }

  lemma DeleteAnchors(s: Store, path: string)
    requires Rooted(s.streams)
    ensures AllAnchored(DeleteStep(s, path).store.streams)
  {
    hide DeleteWithCascade, Covered;
    if path in s.streams && !s.streams[path].meta.softDeleted {
      if s.streams[path].meta.refCount <= 0 {
        CascadeRoots(s.streams, path);
      } else {
        LocalAnchors(s.streams, DeleteStep(s, path).store.streams, path);
      }
    }
  }

  // ---- steps that rewrite one stream ----

  lemma LocalAnchors(streams: Streams, streams': Streams, path: string)
    requires AllAnchored(streams) && path in streams && path in streams'
    requires streams' == streams[path := streams'[path]] && SameLinks(streams[path].meta, streams'[path].meta)
    ensures AllAnchored(streams')
  {
    forall p | p in streams' ensures Anchored(streams', p) {
      assert Anchored(streams, p);
    }
  }

  // ---- create ----

  /** What a create must find for every fork to keep its source: no stream, a live one, or
      an expired one without forks. */
  ghost predicate SafeCreate(s: Store, path: string, now: int) {
    path in s.streams && IsExpiredAt(s.streams[path].meta, now) ==> ForksOf(s.streams, path) == {}
  }

  lemma DropAnchors(streams: Streams, path: string)
    requires AllAnchored(streams) && (path in streams ==> ForksOf(streams, path) == {})
    ensures AllAnchored(streams - {path})
  {
    forall p | p in streams - {path} ensures Anchored(streams - {path}, p) {
      assert Anchored(streams, p);
      assert path in streams ==> p !in ForksOf(streams, path);
    }
  }

  lemma InstallAnchored(s0: Store, path: string, opts: CreateOptions, st: Stream)
    requires AllAnchored(s0.streams) && path !in s0.streams && st.meta.forkedFrom == opts.forkedFrom
    requires opts.forkedFrom != "" ==>
               && opts.forkedFrom in s0.streams
               && s0.streams[opts.forkedFrom].meta.incarnation < st.meta.incarnation
               && st.meta.forkOffset.LessThanOrEqual(s0.streams[opts.forkedFrom].meta.currentOffset)
    ensures AllAnchored(Installed(s0, path, opts, st).streams)
  {
    var out := Installed(s0, path, opts, st).streams;
    assert out.Keys == s0.streams.Keys + {path};
    hide Installed, Anchored;
    forall p | p in out ensures Anchored(out, p) {
      if p == path {
        NewAnchored(s0, path, opts, st);
      } else {
        OthersAnchored(s0, path, opts, st, p);
      }
    }
  }

  lemma NewAnchored(s0: Store, path: string, opts: CreateOptions, st: Stream)
    requires path !in s0.streams && st.meta.forkedFrom == opts.forkedFrom
    requires opts.forkedFrom != "" ==>
               && opts.forkedFrom in s0.streams
               && s0.streams[opts.forkedFrom].meta.incarnation < st.meta.incarnation
               && st.meta.forkOffset.LessThanOrEqual(s0.streams[opts.forkedFrom].meta.currentOffset)
    ensures path in Installed(s0, path, opts, st).streams && Anchored(Installed(s0, path, opts, st).streams, path)
  {
  }

  lemma OthersAnchored(s0: Store, path: string, opts: CreateOptions, st: Stream, p: string)
    requires path !in s0.streams && p in s0.streams && Anchored(s0.streams, p)
    ensures p in Installed(s0, path, opts, st).streams && Anchored(Installed(s0, path, opts, st).streams, p)
  {
  }

  lemma CreateAnchors(s: Store, path: string, opts: CreateOptions, idOk: bool, now: int)
    requires Stored(s) && AllAnchored(s.streams) && SafeCreate(s, path, now)
    ensures AllAnchored(CreateStep(s, path, opts, idOk, now).store.streams)
  {
    var e := CreateStep(s, path, opts, idOk, now);
    var s0 := s.(streams := s.streams - {path});
    CreateCases(s, path, opts, idOk, now);
    hide CreateStep, IsExpiredAt, InitialFrames, AllAnchored, ForksOf, WellStored;
    if !(path in s.streams && !IsExpiredAt(s.streams[path].meta, now)) {
      DropAnchors(s.streams, path);
      if e.reply == Ok(true) {
        DropKeeps(s, path);
        PlanWithinSource(s0, opts, now);
        hide PlanOf;
        InstallAnchored(s0, path, opts, e.store.streams[path]);
      }
    }
  }

  /** A create that lands on an expired stream with forks leaves them without their source. */
  lemma UnsafeCreateUproots(s: Store, path: string, opts: CreateOptions, idOk: bool, now: int)
    requires Stored(s) && AllAnchored(s.streams) && !SafeCreate(s, path, now)
    ensures !AllAnchored(CreateStep(s, path, opts, idOk, now).store.streams)
  {
    hide CreateStep, IsExpiredAt, WellStored;
    var out := CreateStep(s, path, opts, idOk, now).store.streams;
    var q :| q in ForksOf(s.streams, path);
    assert Anchored(s.streams, q) && q != path;
    hide AllAnchored;
    CreateKeepsLinks(s, path, opts, idOk, now, q);
    assert !Anchored(out, q);
    NotAllAnchored(out, q);
  }

  lemma NotAllAnchored(streams: Streams, q: string)
    requires q in streams && !Anchored(streams, q)
    ensures !AllAnchored(streams)
  {
  }

  // ---- runs ----

  ghost predicate Safe(s: Store, op: Op) {
    op.Create? ==> SafeCreate(s, op.path, op.now)
  }

  /** Where every source is in place, a safe create finds no fork at its path. */
  lemma SafeIsFresh(s: Store, op: Op)
    requires AllAnchored(s.streams) && Safe(s, op)
    ensures Fresh(s, op)
  {
    if Creates(s, op) {
      hide CreateStep, IsExpiredAt, ForksOf;
      ForksWithout(s.streams, op.path, op.path);
      if op.path !in s.streams {
        NoForksOfAbsent(s.streams, op.path);
      } else if !IsExpiredAt(s.streams[op.path].meta, op.now) {
        LiveCreate(s, op.path, op.createOpts, op.idOk, op.now);
      }
    }
  }

  lemma StepAnchors(s: Store, op: Op)
    requires Stored(s) && Rooted(s.streams) && Safe(s, op)
    ensures AllAnchored(Step(s, op).store.streams)
  {
    hide AllAnchored, Covered, Stored, SafeCreate;
    match op
    case Create(path, opts, idOk, now) => hide CreateStep; CreateAnchors(s, path, opts, idOk, now);
    case Delete(path) => hide DeleteStep; DeleteAnchors(s, path);
    case _ =>
      hide Step, SameLinks;
      if Step(s, op).store.streams != s.streams {
        LocalOpLinks(s, op);
        LocalAnchors(s.streams, Step(s, op).store.streams, op.path);
      }
  }

  /** Every step but a create on an expired stream with forks leaves all sources in place. */
  lemma StepRoots(s: Store, op: Op)
    requires Stored(s) && Rooted(s.streams) && ValidOp(op) && Safe(s, op)
    ensures Rooted(Step(s, op).store.streams)
  {
    hide Step, Stored, AllAnchored, Covered, Safe, Fresh;
    SafeIsFresh(s, op);
    StepCoveredIff(s, op);
    StepAnchors(s, op);
  }

  /** No create of the run landed on an expired stream that had forks. */
  ghost predicate SafeRun(ops: seq<Op>) {
    forall k :: 0 <= k < |ops| ==> Safe(Exec(ops[..k]).store, ops[k])
  }

  lemma SafePrefix(ops: seq<Op>, n: nat)
    requires SafeRun(ops) && n <= |ops|
    ensures SafeRun(ops[..n])
  {
    hide Safe, Exec;
    forall k | 0 <= k < n ensures Safe(Exec(ops[..n][..k]).store, ops[..n][k]) {
      assert ops[..n][..k] == ops[..k] && ops[..n][k] == ops[k];
    }
  }

  lemma {:induction false} SafeRunRooted(ops: seq<Op>)
    requires ValidOps(ops) && SafeRun(ops)
    ensures Rooted(Exec(ops).store.streams)
  {
    if ops == [] {
      assert Exec(ops).store.streams == map[];
    } else {
      var n := |ops| - 1;
      hide Step, Stored, Rooted, Safe;
      SafePrefix(ops, n);
      SafeRunRooted(ops[..n]);
      RunStored(ops[..n]);
      assert Safe(Exec(ops[..n]).store, ops[n]);
      StepRoots(Exec(ops[..n]).store, ops[n]);
    }
  }

  /** A safe run takes no path that is still named as a source, so the counts are never too
      low in it and no delete underflows. */
  lemma SafeRunIsFresh(ops: seq<Op>)
    requires ValidOps(ops) && SafeRun(ops)
    ensures FreshRun(ops)
  {
    hide Exec, Safe, Fresh, Rooted, AllAnchored;
    forall k | 0 <= k < |ops| ensures Fresh(Exec(ops[..k]).store, ops[k]) {
      SafePrefix(ops, k);
      SafeRunRooted(ops[..k]);
      RootedIsAnchored(Exec(ops[..k]).store.streams);
      SafeIsFresh(Exec(ops[..k]).store, ops[k]);
    }
  }

  ghost predicate AlwaysAnchored(ops: seq<Op>) {
    forall k :: 0 <= k <= |ops| ==> AllAnchored(Exec(ops[..k]).store.streams)
  }

  /** Forks keep their sources, and sources stay older than their forks, at every point of
      a run if and only if no create of the run lands on an expired stream with forks. */
  lemma RunAnchoredIff(ops: seq<Op>)
    requires ValidOps(ops)
    ensures AlwaysAnchored(ops) <==> SafeRun(ops)
  {
    hide Step, Stored, Rooted, SafeCreate, AllAnchored, Exec;
    if SafeRun(ops) {
      forall k | 0 <= k <= |ops| ensures AllAnchored(Exec(ops[..k]).store.streams) {
        SafePrefix(ops, k);
        SafeRunRooted(ops[..k]);
        RootedIsAnchored(Exec(ops[..k]).store.streams);
      }
    }
    if AlwaysAnchored(ops) {
      forall k | 0 <= k < |ops| ensures Safe(Exec(ops[..k]).store, ops[k]) {
        assert AllAnchored(Exec(ops[..k]).store.streams) && AllAnchored(Exec(ops[..k + 1]).store.streams);
        RunStored(ops[..k]);
        ExecNext(ops, k);
        AnchoredStepIsSafe(Exec(ops[..k]).store, ops[k]);
      }
    }
  }

  lemma AnchoredStepIsSafe(s: Store, op: Op)
    requires Stored(s) && AllAnchored(s.streams) && AllAnchored(Step(s, op).store.streams)
    ensures Safe(s, op)
  {
    hide Stored, AllAnchored, SafeCreate, CreateStep;
    if op.Create? && !SafeCreate(s, op.path, op.now) {
      UnsafeCreateUproots(s, op.path, op.createOpts, op.idOk, op.now);
    }
  }

  // ---- sources that are never replaced ----

  /** The source of `q`, if it is there, is older and reaches at least to the fork point. */
  ghost predicate Tied(streams: Streams, q: string)
    requires q in streams
  {
    streams[q].meta.forkedFrom in streams ==> Anchored(streams, q)
  }

  ghost predicate AllTied(streams: Streams) {
    forall q :: q in streams ==> Tied(streams, q)
  }

  lemma LocalTies(streams: Streams, streams': Streams, path: string)
    requires AllTied(streams) && path in streams && path in streams'
    requires streams' == streams[path := streams'[path]] && SameLinks(streams[path].meta, streams'[path].meta)
    ensures AllTied(streams')
  {
    forall q | q in streams' ensures Tied(streams', q) {
      assert Tied(streams, q);
    }
  }

  /** Removing streams, and changing counts, ties nothing anew. */
  lemma FewerTied(streams: Streams, streams': Streams)
    requires AllTied(streams) && streams'.Keys <= streams.Keys
    requires forall q :: q in streams' ==> OnlyCounts(streams[q].meta, streams'[q].meta)
    ensures AllTied(streams')
  {
    forall q | q in streams' ensures Tied(streams', q) {
      assert Tied(streams, q);
    }
  }

  /** Nothing of the fork links differs but perhaps the count. */
  ghost predicate OnlyCounts(a: Metadata, b: Metadata) {
    && a.forkedFrom == b.forkedFrom && a.incarnation == b.incarnation
    && a.forkOffset == b.forkOffset && a.currentOffset == b.currentOffset
  }

  lemma DeleteTies(s: Store, path: string)
    requires AllTied(s.streams)
    ensures AllTied(DeleteStep(s, path).store.streams)
  {
    CascadeKeeps(s.streams, path);
    hide DeleteWithCascade, AllTied;
    FewerTied(s.streams, DeleteStep(s, path).store.streams);
  }

  lemma InstallTies(s0: Store, path: string, opts: CreateOptions, st: Stream)
    requires AllTied(s0.streams) && path !in s0.streams && st.meta.forkedFrom == opts.forkedFrom
    requires opts.forkedFrom != "" ==>
               && opts.forkedFrom in s0.streams
               && s0.streams[opts.forkedFrom].meta.incarnation < st.meta.incarnation
               && st.meta.forkOffset.LessThanOrEqual(s0.streams[opts.forkedFrom].meta.currentOffset)
    requires ForksOf(s0.streams, path) == {}
    ensures AllTied(Installed(s0, path, opts, st).streams)
  {
    var out := Installed(s0, path, opts, st).streams;
    assert out.Keys == s0.streams.Keys + {path};
    hide Installed, Anchored;
    forall q | q in out ensures Tied(out, q) {
      if q == path {
        NewAnchored(s0, path, opts, st);
      } else {
        assert Tied(s0.streams, q) && q !in ForksOf(s0.streams, path);
        OthersTied(s0, path, opts, st, q);
      }
    }
  }

  lemma OthersTied(s0: Store, path: string, opts: CreateOptions, st: Stream, q: string)
    requires path !in s0.streams && q in s0.streams && Tied(s0.streams, q) && !IsForkOf(s0.streams[q], path)
    ensures q in Installed(s0, path, opts, st).streams && Tied(Installed(s0, path, opts, st).streams, q)
  {
  }

  lemma CreateTies(s: Store, path: string, opts: CreateOptions, idOk: bool, now: int)
    requires Stored(s) && AllTied(s.streams)
    requires CreateStep(s, path, opts, idOk, now).reply == Ok(true) ==> ForksOf(s.streams - {path}, path) == {}
    ensures AllTied(CreateStep(s, path, opts, idOk, now).store.streams)
  {
    var e := CreateStep(s, path, opts, idOk, now);
    var s0 := s.(streams := s.streams - {path});
    CreateCases(s, path, opts, idOk, now);
    hide CreateStep, IsExpiredAt, InitialFrames, AllTied, ForksOf, WellStored;
    FewerTied(s.streams, s0.streams);
    if e.reply == Ok(true) {
      DropKeeps(s, path);
      PlanWithinSource(s0, opts, now);
      hide PlanOf;
      InstallTies(s0, path, opts, e.store.streams[path]);
    }
  }

  /** A create that takes a path still named as a source becomes a source younger than its forks. */
  lemma RetakingUnties(s: Store, op: Op)
    requires Stored(s) && ValidOp(op) && !Fresh(s, op)
    ensures !AllTied(Step(s, op).store.streams)
  {
    hide CreateStep, IsExpiredAt, WellStored;
    var t := Step(s, op).store;
    var q :| q in ForksOf(s.streams - {op.path}, op.path);
    OnlyCreatesMake(s, op);
    CreateKeepsLinks(s, op.path, op.createOpts, op.idOk, op.now, q);
    RetakenIsYounger(s, op);
    assert !Tied(t.streams, q);
  }

  lemma RetakenIsYounger(s: Store, op: Op)
    requires Creates(s, op)
    ensures op.path in Step(s, op).store.streams
    ensures Step(s, op).store.streams[op.path].meta.incarnation == s.nextIncarnation
  {
    CreateCases(s, op.path, op.createOpts, op.idOk, op.now);
    hide CreateStep, PlanOf, InitialFrames, IsExpiredAt;
  }

  /** Exactly when a step leaves every source that is there the one its forks were made from. */
  lemma StepTiedIff(s: Store, op: Op)
    requires Stored(s) && ValidOp(op) && AllTied(s.streams)
    ensures AllTied(Step(s, op).store.streams) <==> Fresh(s, op)
  {
    hide AllTied, Stored, ForksOf;
    if !Fresh(s, op) {
      RetakingUnties(s, op);
    } else {
      match op
      case Create(path, opts, idOk, now) => hide CreateStep; CreateTies(s, path, opts, idOk, now);
      case Delete(path) => hide DeleteStep; DeleteTies(s, path);
      case _ =>
        hide Step, SameLinks;
        if Step(s, op).store.streams != s.streams {
          LocalOpLinks(s, op);
          LocalTies(s.streams, Step(s, op).store.streams, op.path);
        }
    }
  }

  ghost predicate AlwaysTied(ops: seq<Op>) {
    forall k :: 0 <= k <= |ops| ==> AllTied(Exec(ops[..k]).store.streams)
  }

  lemma {:induction false} FreshRunTied(ops: seq<Op>, n: nat)
    requires ValidOps(ops) && FreshRun(ops) && n <= |ops|
    ensures AllTied(Exec(ops[..n]).store.streams)
  {
    if n == 0 {
      assert Exec(ops[..n]).store.streams == map[];
    } else {
      hide Step, Stored, AllTied, Fresh, Exec;
      FreshRunTied(ops, n - 1);
      RunStored(ops[..n - 1]);
      ExecNext(ops, n - 1);
      StepTiedIff(Exec(ops[..n - 1]).store, ops[n - 1]);
    }
  }

  /** No source is ever replaced under its forks if and only if no create of the run takes a
      path that some stream still names as its source. */
  lemma RunTiedIff(ops: seq<Op>)
    requires ValidOps(ops)
    ensures AlwaysTied(ops) <==> FreshRun(ops)
  {
    hide Step, Stored, AllTied, Fresh, Exec;
    if FreshRun(ops) {
      forall k | 0 <= k <= |ops| ensures AllTied(Exec(ops[..k]).store.streams) {
        FreshRunTied(ops, k);
      }
    }
    if AlwaysTied(ops) {
      forall k | 0 <= k < |ops| ensures Fresh(Exec(ops[..k]).store, ops[k]) {
        assert AllTied(Exec(ops[..k]).store.streams) && AllTied(Exec(ops[..k + 1]).store.streams);
        RunStored(ops[..k]);
        ExecNext(ops, k);
        StepTiedIff(Exec(ops[..k]).store, ops[k]);
      }
    }
  }
}
