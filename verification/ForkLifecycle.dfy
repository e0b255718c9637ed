/** Forks and reference counts over whole runs (store/memory_store.go:148-446). */
module ForkLifecycle {
  import opened Prelude
  import opened Producers
  import opened WriteFences
  import opened StoreModel
  import opened StoreOps
  import opened StoreInvariants

  type Streams = map<string, Stream>

  ghost predicate IsForkOf(st: Stream, p: string) {
    st.meta.forkedFrom != "" && st.meta.forkedFrom == p
  }

  ghost function ForksOf(streams: Streams, p: string): set<string> {
    set q | q in streams && IsForkOf(streams[q], p)
  }

  /** A fork's source is there, is older (so fork chains have no cycle), and reaches at
      least to the fork point. */
  ghost predicate Anchored(streams: Streams, q: string)
    requires q in streams
  {
    var m := streams[q].meta;
    m.forkedFrom != "" ==>
      && m.forkedFrom in streams
      && streams[m.forkedFrom].meta.incarnation < m.incarnation
      && m.forkOffset.LessThanOrEqual(streams[m.forkedFrom].meta.currentOffset)
  }

  ghost predicate AllAnchored(streams: Streams) {
    forall q :: q in streams ==> Anchored(streams, q)
  }

  /** How many more references a stream counts than it has forks. */
  ghost function Slack(streams: Streams, p: string): int
    requires p in streams
  {
    streams[p].meta.refCount - |ForksOf(streams, p)|
  }

  ghost predicate Counted(streams: Streams, p: string)
    requires p in streams
  {
    streams[p].meta.refCount == |ForksOf(streams, p)|
  }

  /** Reference counts are exact, sources are present, and only a stream that still has
      forks is kept in the soft-deleted state. `dying` is a stream about to be removed. */
  ghost predicate LifecycleBut(streams: Streams, dying: set<string>) {
    forall p :: p in streams ==>
      && Counted(streams, p) && Anchored(streams, p)
      && (streams[p].meta.softDeleted && p !in dying ==> streams[p].meta.refCount > 0)
  }

  ghost predicate Lifecycle(streams: Streams) {
    LifecycleBut(streams, {})
  }

  // ---- the counts under single changes ----

  lemma ForksWithout(streams: Streams, x: string, p: string)
    ensures ForksOf(streams - {x}, p) == ForksOf(streams, p) - {x}
  {
  }

  lemma ForksRetained(streams: Streams, x: string, delta: int, p: string)
    ensures ForksOf(Retain(streams, x, delta), p) == ForksOf(streams, p)
  {
    assert Retain(streams, x, delta).Keys == streams.Keys;
  }

  lemma ForksWith(streams: Streams, x: string, st: Stream, p: string)
    requires x !in streams
    ensures ForksOf(streams[x := st], p) == if IsForkOf(st, p) then ForksOf(streams, p) + {x} else ForksOf(streams, p)
  {
  }

  // ---- delete ----

  /** The streams after `path` is gone and its reference on its source is given back. */
  ghost function Released(streams: Streams, path: string): Streams
    requires path in streams
  {
    var parent := streams[path].meta.forkedFrom;
    if parent == "" then streams - {path} else Retain(streams - {path}, parent, -1)
  }

  lemma ReleasedForks(streams: Streams, path: string, p: string)
    requires path in streams
    ensures ForksOf(Released(streams, path), p) == ForksOf(streams, p) - {path}
  {
    hide ForksOf;
    ForksWithout(streams, path, p);
    ForksRetained(streams - {path}, streams[path].meta.forkedFrom, -1, p);
  }

  lemma ReleaseCounts(streams: Streams, path: string, p: string)
    requires path in streams && p in streams && p != path
    ensures p in Released(streams, path) && Slack(Released(streams, path), p) == Slack(streams, p)
  {
    assert path in ForksOf(streams, p) <==> IsForkOf(streams[path], p);
    hide ForksOf;
    ReleasedForks(streams, path, p);
  }

  lemma ReleaseAnchors(streams: Streams, path: string, p: string)
    requires path in streams && p in streams && p != path && Anchored(streams, p) && !IsForkOf(streams[p], path)
    ensures p in Released(streams, path) && Anchored(Released(streams, path), p)
  {
  }

  lemma ReleaseKeeps(streams: Streams, path: string)
    requires path in streams && LifecycleBut(streams, {path}) && streams[path].meta.refCount == 0
    ensures var rest := Released(streams, path);
            && rest.Keys == streams.Keys - {path}
            && LifecycleBut(rest, {streams[path].meta.forkedFrom})
            && (streams[path].meta.forkedFrom != "" ==>
                  && streams[path].meta.forkedFrom in rest
                  && rest[streams[path].meta.forkedFrom].meta.refCount >= 0)
  {
    var parent := streams[path].meta.forkedFrom;
    var rest := Released(streams, path);
    assert Counted(streams, path);
    assert ForksOf(streams, path) == {};
    forall p | p in rest ensures Counted(rest, p) && Anchored(rest, p) {
      ReleaseKeepsOne(streams, path, p);
    }
  }

  lemma ReleaseKeepsOne(streams: Streams, path: string, p: string)
    requires path in streams && ForksOf(streams, path) == {} && p in streams && p != path
    requires Counted(streams, p) && Anchored(streams, p) && Anchored(streams, path)
    ensures p in Released(streams, path) && Counted(Released(streams, path), p) && Anchored(Released(streams, path), p)
  {
    assert p !in ForksOf(streams, path);
    hide ForksOf, Released;
    ReleaseCounts(streams, path, p);
    ReleaseAnchors(streams, path, p);
  }

  /** The cascade terminates, never underflows a count, and leaves the counts exact. */
  lemma {:induction false} CascadeKeepsLifecycle(streams: Streams, path: string)
    requires path in streams && LifecycleBut(streams, {path}) && streams[path].meta.refCount == 0
    ensures var c := DeleteWithCascade(streams, path);
            c.err.None? && Lifecycle(c.streams)
    decreases |streams|
  {
    var parent := streams[path].meta.forkedFrom;
    var rest := streams - {path};
    ReleaseKeeps(streams, path);
    assert Anchored(streams, path);
    if parent != "" {
      assert rest[parent].meta.refCount >= 1;
      var released := Released(streams, path);
      if rest[parent].meta.refCount == 1 && rest[parent].meta.softDeleted {
        assert |released.Keys| == |streams.Keys| - 1;
        CascadeKeepsLifecycle(released, parent);
      }
    }
  }

  lemma DeleteLifecycle(s: Store, path: string)
    requires Lifecycle(s.streams)
    ensures var e := DeleteStep(s, path);
            && Lifecycle(e.store.streams)
            && e.reply in {None, Some(StreamNotFound), Some(StreamSoftDeleted)}
  {
    if path in s.streams {
      var st := s.streams[path];
      assert Counted(s.streams, path);
      if !st.meta.softDeleted && st.meta.refCount <= 0 {
        CascadeKeepsLifecycle(s.streams, path);
      } else if !st.meta.softDeleted {
        LocalLifecycle(s.streams, DeleteStep(s, path).store.streams, path);
      }
    }
  }

  // ---- steps that rewrite one stream ----

  /** What of a stream the fork graph depends on may not change; the tail may grow. */
  ghost predicate SameLinks(a: Metadata, b: Metadata) {
    && a.refCount == b.refCount && a.forkedFrom == b.forkedFrom && a.incarnation == b.incarnation
    && a.forkOffset == b.forkOffset && a.currentOffset.LessThanOrEqual(b.currentOffset)
  }

  lemma LocalLifecycle(streams: Streams, streams': Streams, path: string)
    requires Lifecycle(streams) && path in streams && path in streams'
    requires streams' == streams[path := streams'[path]]
    requires SameLinks(streams[path].meta, streams'[path].meta)
    requires streams'[path].meta.softDeleted ==> streams'[path].meta.refCount > 0
    ensures Lifecycle(streams')
  {
    hide Counted, Anchored;
    forall p | p in streams' ensures Counted(streams', p) && Anchored(streams', p) {
      assert Counted(streams, p) && Anchored(streams, p);
      LocalOne(streams, streams', p);
    }
  }

  lemma LocalOne(streams: Streams, streams': Streams, p: string)
    requires streams.Keys == streams'.Keys && forall q :: q in streams ==> SameLinks(streams[q].meta, streams'[q].meta)
    requires p in streams && Counted(streams, p) && Anchored(streams, p)
    ensures Counted(streams', p) && Anchored(streams', p)
  {
    ForksSame(streams, streams', p);
  }

  lemma ForksSame(streams: Streams, streams': Streams, p: string)
    requires streams.Keys == streams'.Keys
    requires forall q :: q in streams ==> streams[q].meta.forkedFrom == streams'[q].meta.forkedFrom
    ensures ForksOf(streams', p) == ForksOf(streams, p)
  {
  }

  // ---- create ----

  /** What a create must find for the counts to stay exact: no stream, a live one, or an
      expired one that neither is a fork nor has any. */
  predicate CleanCreate(s: Store, path: string, now: int) {
    path in s.streams && IsExpiredAt(s.streams[path].meta, now) ==>
      s.streams[path].meta.forkedFrom == "" && s.streams[path].meta.refCount == 0
  }

  lemma DropLifecycle(streams: Streams, path: string)
    requires Lifecycle(streams)
    requires path in streams ==> streams[path].meta.forkedFrom == "" && streams[path].meta.refCount == 0
    ensures Lifecycle(streams - {path})
  {
    if path in streams {
      assert Counted(streams, path);
      ReleaseKeeps(streams, path);
    } else {
      assert streams - {path} == streams;
    }
  }

  lemma InstallLifecycle(s0: Store, path: string, opts: CreateOptions, st: Stream)
    requires Lifecycle(s0.streams) && path !in s0.streams
    requires st.meta.refCount == 0 && !st.meta.softDeleted && st.meta.forkedFrom == opts.forkedFrom
    requires opts.forkedFrom != "" ==>
               && opts.forkedFrom in s0.streams
               && s0.streams[opts.forkedFrom].meta.incarnation < st.meta.incarnation
               && st.meta.forkOffset.LessThanOrEqual(s0.streams[opts.forkedFrom].meta.currentOffset)
    ensures Lifecycle(Installed(s0, path, opts, st).streams)
  {
    var out := Installed(s0, path, opts, st).streams;
    forall p | p in out
      ensures Counted(out, p) && Anchored(out, p) && (out[p].meta.softDeleted ==> out[p].meta.refCount > 0)
    {
      hide Counted, Anchored, Installed;
      if p != path {
        assert Counted(s0.streams, p) && Anchored(s0.streams, p);
      }
      InstallCounts(s0, path, opts, st, p);
      InstallAnchors(s0, path, opts, st, p);
    }
  }

  lemma InstallAnchors(s0: Store, path: string, opts: CreateOptions, st: Stream, p: string)
    requires path !in s0.streams && p in Installed(s0, path, opts, st).streams
    requires !st.meta.softDeleted && st.meta.forkedFrom == opts.forkedFrom
    requires opts.forkedFrom != "" ==>
               && opts.forkedFrom in s0.streams
               && s0.streams[opts.forkedFrom].meta.incarnation < st.meta.incarnation
               && st.meta.forkOffset.LessThanOrEqual(s0.streams[opts.forkedFrom].meta.currentOffset)
    requires p != path ==> p in s0.streams ==> Anchored(s0.streams, p)
    requires p != path ==> p in s0.streams ==> s0.streams[p].meta.softDeleted ==> s0.streams[p].meta.refCount > 0
    ensures var out := Installed(s0, path, opts, st).streams;
            Anchored(out, p) && (out[p].meta.softDeleted ==> out[p].meta.refCount > 0)
  {
  }

  lemma InstallCounts(s0: Store, path: string, opts: CreateOptions, st: Stream, p: string)
    requires path !in s0.streams && st.meta.refCount == 0 && st.meta.forkedFrom == opts.forkedFrom
    requires p in s0.streams ==> Counted(s0.streams, p)
    requires forall q :: q in s0.streams ==> Anchored(s0.streams, q)
    requires opts.forkedFrom != "" ==> opts.forkedFrom in s0.streams
    ensures var out := Installed(s0, path, opts, st).streams;
            p in out ==> Counted(out, p)
  {
    hide Anchored;
    var held := if opts.forkedFrom == "" then s0.streams else Retain(s0.streams, opts.forkedFrom, 1);
    ForksRetained(s0.streams, opts.forkedFrom, 1, p);
    ForksWith(held, path, st, p);
    assert path !in ForksOf(s0.streams, p);
    if p == path {
      NoForksOfAbsent(s0.streams, p);
    }
  }

  lemma NoForksOfAbsent(streams: Streams, p: string)
    requires p !in streams && forall q :: q in streams ==> Anchored(streams, q)
    ensures ForksOf(streams, p) == {}
  {
  }

  /** A create that drops nothing live keeps the lifecycle. */
  lemma CleanCreateLifecycle(s: Store, path: string, opts: CreateOptions, idOk: bool, now: int)
    requires Stored(s) && Lifecycle(s.streams) && CleanCreate(s, path, now)
    ensures Lifecycle(CreateStep(s, path, opts, idOk, now).store.streams)
  {
    var e := CreateStep(s, path, opts, idOk, now);
    CreateCases(s, path, opts, idOk, now);
    hide CreateStep, IsExpiredAt, InitialFrames, LifecycleBut;
    if !(path in s.streams && !IsExpiredAt(s.streams[path].meta, now)) {
      DropLifecycle(s.streams, path);
      if e.reply == Ok(true) {
        var s0 := s.(streams := s.streams - {path});
        DropKeeps(s, path);
        PlanWithinSource(s0, opts, now);
        hide PlanOf;
        InstallLifecycle(s0, path, opts, e.store.streams[path]);
      }
    }
  }

  /** Dropping a stream that has forks leaves them without it, whatever is created there. */
  lemma DroppedSource(s: Store, path: string, opts: CreateOptions, idOk: bool, now: int)
    requires Lifecycle(s.streams) && path in s.streams && IsExpiredAt(s.streams[path].meta, now)
    requires s.streams[path].meta.refCount > 0
    ensures !Lifecycle(CreateStep(s, path, opts, idOk, now).store.streams)
  {
    var out := CreateStep(s, path, opts, idOk, now).store.streams;
    CreateCases(s, path, opts, idOk, now);
    hide CreateStep, PlanOf, InitialFrames, IsExpiredAt;
    assert Counted(s.streams, path);
    var q :| q in ForksOf(s.streams, path);
    assert Anchored(s.streams, q);
    assert q in out && IsForkOf(out[q], path);
    if path in out {
      assert q in ForksOf(out, path);
      assert !Counted(out, path);
    } else {
      assert !Anchored(out, q);
    }
  }

  /** Dropping a fork never gives its reference back. */
  lemma DroppedFork(s: Store, path: string, opts: CreateOptions, idOk: bool, now: int)
    requires Lifecycle(s.streams) && path in s.streams && IsExpiredAt(s.streams[path].meta, now)
    requires s.streams[path].meta.forkedFrom != ""
    ensures !Lifecycle(CreateStep(s, path, opts, idOk, now).store.streams)
  {
    var out := CreateStep(s, path, opts, idOk, now).store.streams;
    CreateCases(s, path, opts, idOk, now);
    var r := s.streams[path].meta.forkedFrom;
    assert Counted(s.streams, r) && Anchored(s.streams, path);
    assert path in ForksOf(s.streams, r);
    hide CreateStep, InitialFrames, IsExpiredAt, LifecycleBut;
    var s0 := s.(streams := s.streams - {path});
    ForksWithout(s.streams, path, r);
    if path in out {
      assert opts.forkedFrom != "" ==> opts.forkedFrom in s0.streams;
      hide PlanOf;
      ForksRetained(s0.streams, opts.forkedFrom, 1, r);
      ForksWith(if opts.forkedFrom == "" then s0.streams
        else Retain(s0.streams, opts.forkedFrom, 1), path, out[path], r);
    }
    assert r in out && out[r].meta.refCount == |ForksOf(out, r)| + 1;
    assert !Counted(out, r);
    NotCounted(out, r);
  }

  lemma NotCounted(streams: Streams, p: string)
    requires p in streams && !Counted(streams, p)
    ensures !Lifecycle(streams)
  {
  }

  /** Exactly when a create keeps the fork lifecycle. */
  lemma CreateLifecycleIff(s: Store, path: string, opts: CreateOptions, idOk: bool, now: int)
    requires Stored(s) && Lifecycle(s.streams)
    ensures Lifecycle(CreateStep(s, path, opts, idOk, now).store.streams) <==> CleanCreate(s, path, now)
  {
    hide CreateStep, LifecycleBut, Stored, IsExpiredAt;
    if CleanCreate(s, path, now) {
      CleanCreateLifecycle(s, path, opts, idOk, now);
    } else if s.streams[path].meta.forkedFrom != "" {
      DroppedFork(s, path, opts, idOk, now);
    } else {
      assert s.streams[path].meta.refCount > 0 by {
        CountNotNegative(s.streams, path);
      }
      DroppedSource(s, path, opts, idOk, now);
    }
  }

  lemma CountNotNegative(streams: Streams, p: string)
    requires Lifecycle(streams) && p in streams
    ensures streams[p].meta.refCount >= 0
  {
    assert Counted(streams, p);
  }

  /** A create that fails leaves the whole store alone, unless it found an expired stream. */
  lemma FailedCreateChangesNothing(s: Store, path: string, opts: CreateOptions, idOk: bool, now: int)
    requires CreateStep(s, path, opts, idOk, now).reply.Err?
    ensures var s' := CreateStep(s, path, opts, idOk, now).store;
            if path in s.streams && IsExpiredAt(s.streams[path].meta, now)
            then s' == s.(streams := s.streams - {path}) else s' == s
  {
    CreateCases(s, path, opts, idOk, now);
    assert path !in s.streams ==> s.streams - {path} == s.streams;
  }

  // ---- runs ----

  lemma LocalOpLifecycle(s: Store, op: Op)
    requires Lifecycle(s.streams) && !op.Create? && !op.Delete?
    ensures Lifecycle(Step(s, op).store.streams)
  {
    var s' := Step(s, op).store;
    if s'.streams != s.streams {
      LocalOpLinks(s, op);
      assert s.streams[op.path].meta.softDeleted ==> s.streams[op.path].meta.refCount > 0;
      hide Step, LifecycleBut;
      LocalLifecycle(s.streams, s'.streams, op.path);
    }
  }

  lemma LocalOpLinks(s: Store, op: Op)
    requires !op.Create? && !op.Delete? && Step(s, op).store.streams != s.streams
    ensures var streams' := Step(s, op).store.streams;
            && op.path in s.streams && op.path in streams' && streams' == s.streams[op.path := streams'[op.path]]
            && SameLinks(s.streams[op.path].meta, streams'[op.path].meta)
            && (streams'[op.path].meta.softDeleted ==>
                  s.streams[op.path].meta.softDeleted || s.streams[op.path].meta.refCount > 0)
  {
    hide FenceRung, IsExpiredAt, ReadGate, AppendDecision, ValidateProducer, FenceAuthority, MarkerOf, SealOf;
  }

  /** Every create of the run was clean when it ran. */
  ghost predicate CleanRun(ops: seq<Op>) {
    forall k :: 0 <= k < |ops| && ops[k].Create? ==> CleanCreate(Exec(ops[..k]).store, ops[k].path, ops[k].now)
  }

  ghost predicate AlwaysLifecycle(ops: seq<Op>) {
    forall k :: 0 <= k <= |ops| ==> Lifecycle(Exec(ops[..k]).store.streams)
  }

  lemma StepLifecycle(s: Store, op: Op)
    requires Stored(s) && Lifecycle(s.streams)
    ensures Lifecycle(Step(s, op).store.streams) <==> (op.Create? ==> CleanCreate(s, op.path, op.now))
  {
    match op
    case Create(path, opts, idOk, now) => hide CreateStep, LifecycleBut; CreateLifecycleIff(s, path, opts, idOk, now);
    case Delete(path) => hide DeleteStep, LifecycleBut; DeleteLifecycle(s, path);
    case _ => hide Step, LifecycleBut; LocalOpLifecycle(s, op);
  }

  lemma {:induction false} CleanRunLifecycle(ops: seq<Op>)
    requires ValidOps(ops) && CleanRun(ops)
    ensures Lifecycle(Exec(ops).store.streams)
  {
    if ops != [] {
      var n := |ops| - 1;
      hide Step, Stored, LifecycleBut, CleanCreate;
      CleanPrefix(ops, n);
      CleanRunLifecycle(ops[..n]);
      RunStored(ops[..n]);
      StepLifecycle(Exec(ops[..n]).store, ops[n]);
    }
  }

  lemma CleanPrefix(ops: seq<Op>, n: nat)
    requires CleanRun(ops) && n <= |ops|
    ensures CleanRun(ops[..n])
  {
    hide CleanCreate;
    forall k | 0 <= k < n && ops[..n][k].Create?
      ensures CleanCreate(Exec(ops[..n][..k]).store, ops[..n][k].path, ops[..n][k].now)
    {
      assert ops[..n][..k] == ops[..k] && ops[..n][k] == ops[k];
    }
  }

  /** The fork lifecycle over whole runs: reference counts stay exact, sources stay
      present and older, and soft-deleted streams keep a fork, at every point of a run if
      and only if no create of the run lands on an expired stream that is a fork or has
      forks. */
  lemma RunLifecycleIff(ops: seq<Op>)
    requires ValidOps(ops)
    ensures AlwaysLifecycle(ops) <==> CleanRun(ops)
  {
    hide Step, Stored, LifecycleBut, CleanCreate, Exec;
    if CleanRun(ops) {
      forall k | 0 <= k <= |ops| ensures Lifecycle(Exec(ops[..k]).store.streams) {
        CleanPrefix(ops, k);
        CleanRunLifecycle(ops[..k]);
      }
    }
    if AlwaysLifecycle(ops) {
      forall k | 0 <= k < |ops| && ops[k].Create?
        ensures CleanCreate(Exec(ops[..k]).store, ops[k].path, ops[k].now)
      {
        assert Lifecycle(Exec(ops[..k + 1]).store.streams) && Lifecycle(Exec(ops[..k]).store.streams);
        RunStored(ops[..k]);
        ExecNext(ops, k);
        StepLifecycle(Exec(ops[..k]).store, ops[k]);
      }
    }
  }

  lemma ExecNext(ops: seq<Op>, k: nat)
    requires k < |ops|
    ensures Exec(ops[..k + 1]).store == Step(Exec(ops[..k]).store, ops[k]).store
  {
    assert ops[..k + 1][..k] == ops[..k];
  }
}
