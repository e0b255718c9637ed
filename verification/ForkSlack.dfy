/** Reference counts in any store: references that are never given back, and counts that are
    too low (store/memory_store.go:148-446). */
module ForkSlack {
  import opened Prelude
  import opened StoreModel
  import opened StoreOps
  import opened StoreInvariants
  import opened ForkLifecycle

  /** No stream counts fewer references than it has forks. */
  ghost predicate Covered(streams: Streams) {
    forall p :: p in streams ==> Slack(streams, p) >= 0
  }

  /** The slack of `p` grows by `gain`, and by more only where its count was too low. */
  ghost predicate Gains(streams: Streams, streams': Streams, p: string, gain: int) {
    && p in streams && p in streams' && Slack(streams', p) >= Slack(streams, p) + gain
    && (Slack(streams, p) >= 0 ==> Slack(streams', p) == Slack(streams, p) + gain)
  }

  lemma GainsJoin(a: Streams, b: Streams, c: Streams, p: string, gain: int)
    requires gain >= 0 && Gains(a, b, p, gain) && Gains(b, c, p, 0)
    ensures Gains(a, c, p, gain)
  {
    hide Slack;
  }

  // ---- delete ----

  /** What a delete leaves: counts that were not too low keep their slack, and a stream with
      slack stays. */
  ghost predicate Unslackened(streams: Streams, streams': Streams, gone: string) {
    && streams'.Keys <= streams.Keys
    && (forall p :: p in streams' ==> Gains(streams, streams', p, 0))
    && (forall p :: p in streams && p != gone && Slack(streams, p) > 0 ==> p in streams')
  }

  lemma ReleasedKeys(streams: Streams, path: string)
    requires path in streams
    ensures Released(streams, path).Keys == streams.Keys - {path}
  {
  }

  lemma OneReleased(streams: Streams, path: string)
    requires path in streams
    ensures Unslackened(streams, Released(streams, path), path)
  {
    hide Released, Slack;
    var rest := Released(streams, path);
    ReleasedKeys(streams, path);
    forall p | p in rest ensures Gains(streams, rest, p, 0) {
      ReleaseCounts(streams, path, p);
    }
  }

  /** The streams after `path` is gone and its source's count, already at most 0, is set to 0. */
  ghost function Cleared(streams: Streams, path: string): Streams
    requires path in streams && streams[path].meta.forkedFrom in streams
  {
    var parent := streams[path].meta.forkedFrom;
    Retain(streams - {path}, parent, -streams[parent].meta.refCount)
  }

  /** An underflow touches no stream but one whose count was too low. */
  lemma OneCleared(streams: Streams, path: string)
    requires path in streams && streams[path].meta.forkedFrom != "" && streams[path].meta.forkedFrom in streams
    requires streams[path].meta.forkedFrom != path && streams[streams[path].meta.forkedFrom].meta.refCount <= 0
    ensures Unslackened(streams, Cleared(streams, path), path)
  {
    var rest := Cleared(streams, path);
    assert rest.Keys == streams.Keys - {path};
    hide Cleared;
    forall p | p in rest ensures Gains(streams, rest, p, 0) {
      ClearedCounts(streams, path, p);
    }
  }

  lemma ClearedCounts(streams: Streams, path: string, p: string)
    requires path in streams && streams[path].meta.forkedFrom != "" && streams[path].meta.forkedFrom in streams
    requires streams[path].meta.forkedFrom != path && streams[streams[path].meta.forkedFrom].meta.refCount <= 0
    requires p in streams && p != path
    ensures Gains(streams, Cleared(streams, path), p, 0)
  {
    var parent := streams[path].meta.forkedFrom;
    assert path in ForksOf(streams, p) <==> p == parent;
    hide ForksOf;
    ForksWithout(streams, path, p);
    ForksRetained(streams - {path}, parent, -streams[parent].meta.refCount, p);
  }

  lemma ReleasedAgain(streams: Streams, mid: Streams, last: Streams, path: string, parent: string)
    requires Unslackened(streams, mid, path) && Unslackened(mid, last, parent)
    requires parent in streams ==> Slack(streams, parent) <= 0
    ensures Unslackened(streams, last, path)
  {
    hide Slack;
    forall p | p in last ensures Gains(streams, last, p, 0) {
      assert Gains(mid, last, p, 0) && Gains(streams, mid, p, 0);
    }
    forall p | p in streams && p != path && Slack(streams, p) > 0 ensures p in last {
      assert p in mid && Gains(streams, mid, p, 0);
    }
  }

  /** A source's slack is at least one below its count while it has a fork. */
  lemma ForkIsCounted(streams: Streams, path: string)
    requires path in streams && streams[path].meta.forkedFrom != "" && streams[path].meta.forkedFrom in streams
    ensures var parent := streams[path].meta.forkedFrom;
            Slack(streams, parent) < streams[parent].meta.refCount
  {
    assert path in ForksOf(streams, streams[path].meta.forkedFrom);
  }

  /** The cascade stops at a missing source, at a count that would underflow, and at a source
      that is still referenced or not soft-deleted. */
  lemma CascadeShape(streams: Streams, path: string)
    requires path in streams
    ensures var parent, released := streams[path].meta.forkedFrom, Released(streams, path);
            var c := DeleteWithCascade(streams, path);
            if parent == "" || parent == path || parent !in streams then c.streams == released && c.err.None?
            else if streams[parent].meta.refCount <= 0 then
              c.streams == Cleared(streams, path) && c.err == Some(RefCountUnderflow)
            else if streams[parent].meta.refCount == 1 && streams[parent].meta.softDeleted then
              && |released| < |streams| && parent in released && released[parent].meta.refCount == 0
              && c.streams == DeleteWithCascade(released, parent).streams
              && c.err == DeleteWithCascade(released, parent).err
            else c.streams == released && c.err.None?
  {
    var parent := streams[path].meta.forkedFrom;
    if parent == "" || parent == path || parent !in streams {
      CascadeWithoutSource(streams, path);
    } else {
      hide DeleteWithCascade, Released, Cleared;
      CascadeWithSource(streams, path);
    }
  }

  lemma CascadeWithoutSource(streams: Streams, path: string)
    requires path in streams
    requires var parent := streams[path].meta.forkedFrom; parent == "" || parent == path || parent !in streams
    ensures var c := DeleteWithCascade(streams, path); c.streams == Released(streams, path) && c.err.None?
  {
  }

  lemma CascadeWithSource(streams: Streams, path: string)
    requires path in streams
    requires var parent := streams[path].meta.forkedFrom; parent != "" && parent != path && parent in streams
    ensures var parent, released := streams[path].meta.forkedFrom, Released(streams, path);
            var c := DeleteWithCascade(streams, path);
            if streams[parent].meta.refCount <= 0 then
              c.streams == Cleared(streams, path) && c.err == Some(RefCountUnderflow)
            else if streams[parent].meta.refCount == 1 && streams[parent].meta.softDeleted then
              && |released| < |streams| && parent in released && released[parent].meta.refCount == 0
              && c.streams == DeleteWithCascade(released, parent).streams
              && c.err == DeleteWithCascade(released, parent).err
            else c.streams == released && c.err.None?
  {
    assert |Released(streams, path)| < |streams| by {
      ReleasedKeys(streams, path);
      assert |Released(streams, path).Keys| == |streams.Keys| - 1;
    }
  }

  lemma UnslackenedCovers(streams: Streams, streams': Streams, gone: string)
    requires Covered(streams) && Unslackened(streams, streams', gone)
    ensures Covered(streams')
  {
    hide Slack;
    forall p | p in streams' ensures Slack(streams', p) >= 0 {
      assert Gains(streams, streams', p, 0);
    }
  }

  /** In any store the cascade never frees a stream that has slack, and it underflows only if
      some count was too low. */
  lemma {:induction false} CascadeKeepsSlack(streams: Streams, path: string)
    requires path in streams
    ensures Unslackened(streams, DeleteWithCascade(streams, path).streams, path)
    ensures Covered(streams) ==> DeleteWithCascade(streams, path).err.None?
    decreases |streams|
  {
    hide DeleteWithCascade, Unslackened, Slack, Released, Cleared;
    var parent, released := streams[path].meta.forkedFrom, Released(streams, path);
    CascadeShape(streams, path);
    OneReleased(streams, path);
    if parent != "" && parent != path && parent in streams {
      ForkIsCounted(streams, path);
      if streams[parent].meta.refCount <= 0 {
        OneCleared(streams, path);
        assert Slack(streams, parent) < 0;
      } else if streams[parent].meta.refCount == 1 && streams[parent].meta.softDeleted {
        if Covered(streams) {
          UnslackenedCovers(streams, released, path);
        }
        CascadeKeepsSlack(released, parent);
        ReleasedAgain(streams, released, DeleteWithCascade(streams, path).streams, path, parent);
      }
    }
  }

  /** The same for a whole delete. */
  lemma DeleteKeepsSlack(s: Store, path: string)
    ensures var e := DeleteStep(s, path);
            && e.store.streams.Keys <= s.streams.Keys
            && (forall p :: p in e.store.streams ==> Gains(s.streams, e.store.streams, p, 0))
            && (forall p :: p in s.streams && Slack(s.streams, p) > 0 ==> p in e.store.streams)
            && (Covered(s.streams) ==> e.reply != Some(RefCountUnderflow))
  {
    hide DeleteWithCascade, Covered, Gains;
    if path in s.streams && !s.streams[path].meta.softDeleted {
      if s.streams[path].meta.refCount <= 0 {
        CascadeKeepsSlack(s.streams, path);
        assert Slack(s.streams, path) <= 0;
      } else {
        LocalSlack(s.streams, DeleteStep(s, path).store.streams, path);
      }
    } else {
      SameSlack(s.streams);
    }
  }

  // ---- steps that rewrite one stream ----

  lemma LocalSlack(streams: Streams, streams': Streams, path: string)
    requires path in streams && path in streams'
    requires streams' == streams[path := streams'[path]] && SameLinks(streams[path].meta, streams'[path].meta)
    ensures forall p :: p in streams' ==> Gains(streams, streams', p, 0)
  {
    forall p | p in streams' ensures Gains(streams, streams', p, 0) {
      hide ForksOf;
      ForksSame(streams, streams', p);
    }
  }

  lemma SameSlack(streams: Streams)
    ensures forall p :: p in streams ==> Gains(streams, streams, p, 0)
  {
  }

  // ---- create ----

  /** The reference that a create which drops an expired fork leaves on its source. */
  ghost function Leak(streams: Streams, path: string, p: string): int {
    if path in streams && IsForkOf(streams[path], p) then 1 else 0
  }

  lemma DropSlack(streams: Streams, path: string, p: string)
    requires p in streams && p != path
    ensures Gains(streams, streams - {path}, p, Leak(streams, path, p))
  {
    assert path in ForksOf(streams, p) <==> Leak(streams, path, p) == 1;
    hide ForksOf;
    ForksWithout(streams, path, p);
  }

  /** A new stream counts nothing, and has the forks that its path already had. */
  lemma InstallNew(s0: Store, path: string, opts: CreateOptions, st: Stream)
    requires path !in s0.streams && st.meta.refCount == 0 && st.meta.forkedFrom == opts.forkedFrom
    requires opts.forkedFrom != "" ==> opts.forkedFrom in s0.streams
    ensures var out := Installed(s0, path, opts, st).streams;
            out.Keys == s0.streams.Keys + {path} && Slack(out, path) == -|ForksOf(s0.streams, path)|
  {
    var held := if opts.forkedFrom == "" then s0.streams else Retain(s0.streams, opts.forkedFrom, 1);
    hide ForksOf;
    ForksRetained(s0.streams, opts.forkedFrom, 1, path);
    ForksWith(held, path, st, path);
  }

  lemma InstallForks(s0: Store, path: string, opts: CreateOptions, st: Stream, p: string)
    requires path !in s0.streams && p in s0.streams && st.meta.forkedFrom == opts.forkedFrom
    ensures Gains(s0.streams, Installed(s0, path, opts, st).streams, p, 0)
  {
    var held := if opts.forkedFrom == "" then s0.streams else Retain(s0.streams, opts.forkedFrom, 1);
    assert path !in ForksOf(s0.streams, p);
    hide ForksOf;
    ForksRetained(s0.streams, opts.forkedFrom, 1, p);
    ForksWith(held, path, st, p);
  }

  /** A create moves the slack of every other stream by what it leaks, and leaves its own
      path with a count that is too low by the forks that the path already had. */
  lemma CreateKeepsSlack(s: Store, path: string, opts: CreateOptions, idOk: bool, now: int)
    requires Stored(s) && (path in s.streams ==> IsExpiredAt(s.streams[path].meta, now))
    ensures var streams' := CreateStep(s, path, opts, idOk, now).store.streams;
            && (path in streams' ==> Slack(streams', path) == -|ForksOf(s.streams - {path}, path)|)
            && (forall p :: p in s.streams - {path} ==> Gains(s.streams, streams', p, Leak(s.streams, path, p)))
  {
    var e := CreateStep(s, path, opts, idOk, now);
    var s0 := s.(streams := s.streams - {path});
    CreateCases(s, path, opts, idOk, now);
    hide CreateStep, IsExpiredAt, InitialFrames, Gains, Slack, Leak, ForksOf, Stored;
    if e.reply == Ok(true) {
      DropKeeps(s, path);
      PlanWithinSource(s0, opts, now);
      hide PlanOf;
      InstallNew(s0, path, opts, e.store.streams[path]);
    }
    forall p | p in s.streams - {path} ensures Gains(s.streams, e.store.streams, p, Leak(s.streams, path, p)) {
      DropSlack(s.streams, path, p);
      if e.reply == Ok(true) {
        InstallForks(s0, path, opts, e.store.streams[path], p);
        LeakIsCounted(s.streams, path, p);
        GainsJoin(s.streams, s0.streams, e.store.streams, p, Leak(s.streams, path, p));
      }
    }
  }

  lemma LeakIsCounted(streams: Streams, path: string, p: string)
    ensures Leak(streams, path, p) >= 0 && (path !in streams ==> Leak(streams, path, p) == 0)
  {
  }

  /** A create changes at most the counts of the other streams. */
  lemma CreateKeepsLinks(s: Store, path: string, opts: CreateOptions, idOk: bool, now: int, q: string)
    requires q in s.streams && q != path
    ensures var out := CreateStep(s, path, opts, idOk, now).store.streams;
            && q in out && out[q].meta.forkedFrom == s.streams[q].meta.forkedFrom
            && out[q].meta.incarnation == s.streams[q].meta.incarnation
    ensures var out := CreateStep(s, path, opts, idOk, now).store.streams;
            path in out && (path in s.streams ==> IsExpiredAt(s.streams[path].meta, now)) ==>
              out[path].meta.incarnation == s.nextIncarnation
  {
    CreateCases(s, path, opts, idOk, now);
    hide CreateStep, PlanOf, InitialFrames, IsExpiredAt;
  }

  // ---- every step of every store ----

  /** The references that a step leaves behind on `p`. */
  ghost function Leaked(s: Store, op: Op, p: string): int {
    if op.Create? && op.path in s.streams && IsExpiredAt(s.streams[op.path].meta, op.now)
    then Leak(s.streams, op.path, p) else 0
  }

  /** `p` names the same stream, in the same incarnation, in both stores. */
  ghost predicate Lives(s: Store, t: Store, p: string) {
    p in s.streams && p in t.streams && s.streams[p].meta.incarnation == t.streams[p].meta.incarnation
  }

  /** A living stream's slack changes only when a create drops one of its forks, and then by
      one, or when its count was too low; a stream with slack is not removed unless a create
      drops it; a new stream counts none of the forks that its path already had. */
  ghost predicate SlackMoves(s: Store, op: Op, t: Store) {
    && (forall p :: Lives(s, t, p) ==> Gains(s.streams, t.streams, p, Leaked(s, op, p)))
    && (forall p :: p in t.streams && !Lives(s, t, p) ==> Slack(t.streams, p) == -|ForksOf(s.streams - {p}, p)|)
    && (forall p :: p in s.streams && Slack(s.streams, p) > 0 && (op.Create? ==> op.path != p) ==> Lives(s, t, p))
  }

  /** A step that keeps slack, and keeps every stream with slack. */
  lemma QuietSlack(s: Store, op: Op, t: Store)
    requires !op.Create?
    requires forall p :: p in t.streams ==> Lives(s, t, p) && Gains(s.streams, t.streams, p, 0)
    requires forall p :: p in s.streams && Slack(s.streams, p) > 0 ==> p in t.streams
    ensures SlackMoves(s, op, t)
  {
    hide Slack, Gains;
  }

  /** A step that draws no incarnation makes no stream. */
  lemma NoNewStreams(s: Store, op: Op)
    requires Stored(s) && ValidOp(op) && !op.Create?
    ensures forall p :: p in Step(s, op).store.streams ==> Lives(s, Step(s, op).store, p)
  {
    StepKeeps(s, op);
    NextIncarnationSame(s, op);
    hide Step, WellStored, Evolves;
  }

  lemma NextIncarnationSame(s: Store, op: Op)
    requires !op.Create?
    ensures Step(s, op).store.nextIncarnation == s.nextIncarnation
  {
    hide DeleteWithCascade, FenceRung, IsExpiredAt, ReadGate, AppendDecision, AppendRefusal, CloseDecision,
        MarkerOf, SealOf;
  }

  lemma DeleteSlackMoves(s: Store, path: string)
    requires Stored(s)
    ensures SlackMoves(s, Delete(path), DeleteStep(s, path).store)
  {
    hide DeleteStep, Stored, Slack, Gains, SlackMoves, Lives;
    assert Step(s, Delete(path)).store == DeleteStep(s, path).store;
    NoNewStreams(s, Delete(path));
    DeleteKeepsSlack(s, path);
    QuietSlack(s, Delete(path), DeleteStep(s, path).store);
  }

  lemma LocalSlackMoves(s: Store, op: Op)
    requires Stored(s) && ValidOp(op) && !op.Create? && !op.Delete?
    ensures SlackMoves(s, op, Step(s, op).store)
  {
    hide Step, Stored, Slack, Gains, SlackMoves, Lives, SameLinks;
    var t := Step(s, op).store;
    NoNewStreams(s, op);
    if t.streams == s.streams {
      SameSlack(s.streams);
    } else {
      LocalOpLinks(s, op);
      LocalSlack(s.streams, t.streams, op.path);
    }
    QuietSlack(s, op, t);
  }

  lemma CreateSlackMoves(s: Store, path: string, opts: CreateOptions, idOk: bool, now: int)
    requires Stored(s)
    ensures SlackMoves(s, Create(path, opts, idOk, now), CreateStep(s, path, opts, idOk, now).store)
  {
    hide CreateStep, IsExpiredAt, Slack, Stored, Leak, Gains, ForksOf;
    var op, t := Create(path, opts, idOk, now), CreateStep(s, path, opts, idOk, now).store;
    if path in s.streams && !IsExpiredAt(s.streams[path].meta, now) {
      LiveCreate(s, path, opts, idOk, now);
      SameSlack(s.streams);
    } else {
      CreateKeepsSlack(s, path, opts, idOk, now);
      CreateKeys(s, path, opts, idOk, now);
      forall p | p in s.streams && p != path
        ensures Lives(s, t, p) && Gains(s.streams, t.streams, p, Leaked(s, op, p))
      {
        CreateKeepsLinks(s, path, opts, idOk, now, p);
        assert p in s.streams - {path};
        LeakIsCounted(s.streams, path, p);
      }
    }
  }

  lemma LiveCreate(s: Store, path: string, opts: CreateOptions, idOk: bool, now: int)
    requires path in s.streams && !IsExpiredAt(s.streams[path].meta, now)
    ensures CreateStep(s, path, opts, idOk, now).store == s && CreateStep(s, path, opts, idOk, now).reply != Ok(true)
  {
  }

  lemma CreateKeys(s: Store, path: string, opts: CreateOptions, idOk: bool, now: int)
    requires Stored(s) && (path in s.streams ==> IsExpiredAt(s.streams[path].meta, now))
    ensures var e := CreateStep(s, path, opts, idOk, now);
            && e.store.streams.Keys <= s.streams.Keys + {path}
            && (path in e.store.streams <==> e.reply == Ok(true))
            && (path in e.store.streams ==> !Lives(s, e.store, path))
  {
    CreateCases(s, path, opts, idOk, now);
    hide CreateStep, PlanOf, InitialFrames, IsExpiredAt, WellStored;
  }

  /** The law of slack for every step of every store. */
  lemma StepSlack(s: Store, op: Op)
    requires Stored(s) && ValidOp(op)
    ensures SlackMoves(s, op, Step(s, op).store)
  {
    hide SlackMoves, Stored;
    match op
    case Create(path, opts, idOk, now) => hide CreateStep; CreateSlackMoves(s, path, opts, idOk, now);
    case Delete(path) => hide DeleteStep; DeleteSlackMoves(s, path);
    case _ => hide Step; LocalSlackMoves(s, op);
  }

  // ---- counts that are too low ----

  ghost predicate Creates(s: Store, op: Op) {
    op.Create? && CreateStep(s, op.path, op.createOpts, op.idOk, op.now).reply == Ok(true)
  }

  /** The step does not create a stream at a path that some stream still names as its source. */
  ghost predicate Fresh(s: Store, op: Op) {
    Creates(s, op) ==> ForksOf(s.streams - {op.path}, op.path) == {}
  }

  /** A new stream is there exactly after a create that succeeds. */
  lemma OnlyCreatesMake(s: Store, op: Op)
    requires Stored(s) && ValidOp(op)
    ensures var t := Step(s, op).store;
            && (Creates(s, op) ==> op.path in t.streams && !Lives(s, t, op.path))
            && (forall p :: p in t.streams && !Lives(s, t, p) ==> Creates(s, op) && p == op.path)
  {
    if op.Create? {
      hide CreateStep, IsExpiredAt, Stored;
      if op.path in s.streams && !IsExpiredAt(s.streams[op.path].meta, op.now) {
        LiveCreate(s, op.path, op.createOpts, op.idOk, op.now);
      } else {
        CreateKeys(s, op.path, op.createOpts, op.idOk, op.now);
        forall p | p in s.streams && p != op.path ensures Lives(s, Step(s, op).store, p) {
          CreateKeepsLinks(s, op.path, op.createOpts, op.idOk, op.now, p);
        }
      }
    } else {
      hide Step, Stored;
      NoNewStreams(s, op);
    }
  }

  lemma LeakedIsCounted(s: Store, op: Op, p: string)
    ensures Leaked(s, op, p) >= 0
  {
  }

  /** Exactly when a step leaves no count too low. */
  lemma StepCoveredIff(s: Store, op: Op)
    requires Stored(s) && ValidOp(op) && Covered(s.streams)
    ensures Covered(Step(s, op).store.streams) <==> Fresh(s, op)
  {
    hide Step, Stored, Slack, Leaked, ForksOf, Creates, Lives;
    var t := Step(s, op).store;
    StepSlack(s, op);
    OnlyCreatesMake(s, op);
    if Fresh(s, op) {
      forall p | p in t.streams ensures Slack(t.streams, p) >= 0 {
        if Lives(s, t, p) {
          assert Gains(s.streams, t.streams, p, Leaked(s, op, p)) && Slack(s.streams, p) >= 0;
          LeakedIsCounted(s, op, p);
        }
      }
    } else {
      assert Slack(t.streams, op.path) < 0;
    }
  }

  /** No create of the run took a path that some stream still named as its source. */
  ghost predicate FreshRun(ops: seq<Op>) {
    forall k :: 0 <= k < |ops| ==> Fresh(Exec(ops[..k]).store, ops[k])
  }

  ghost predicate AlwaysCovered(ops: seq<Op>) {
    forall k :: 0 <= k <= |ops| ==> Covered(Exec(ops[..k]).store.streams)
  }

  lemma {:induction false} FreshRunCovered(ops: seq<Op>, n: nat)
    requires ValidOps(ops) && FreshRun(ops) && n <= |ops|
    ensures Covered(Exec(ops[..n]).store.streams)
  {
    if n == 0 {
      assert Exec(ops[..n]).store.streams == map[];
    } else {
      hide Step, Stored, Covered, Fresh, Exec;
      FreshRunCovered(ops, n - 1);
      RunStored(ops[..n - 1]);
      ExecNext(ops, n - 1);
      StepCoveredIff(Exec(ops[..n - 1]).store, ops[n - 1]);
    }
  }

  /** No count is too low at any point of a run if and only if no create of the run takes a
      path that some stream still names as its source. */
  lemma RunCoveredIff(ops: seq<Op>)
    requires ValidOps(ops)
    ensures AlwaysCovered(ops) <==> FreshRun(ops)
  {
    hide Step, Stored, Covered, Fresh, Exec;
    if FreshRun(ops) {
      forall k | 0 <= k <= |ops| ensures Covered(Exec(ops[..k]).store.streams) {
        FreshRunCovered(ops, k);
      }
    }
    if AlwaysCovered(ops) {
      forall k | 0 <= k < |ops| ensures Fresh(Exec(ops[..k]).store, ops[k]) {
        assert Covered(Exec(ops[..k]).store.streams) && Covered(Exec(ops[..k + 1]).store.streams);
        RunStored(ops[..k]);
        ExecNext(ops, k);
        StepCoveredIff(Exec(ops[..k]).store, ops[k]);
      }
    }
  }

  /** In such a run a delete never reports an underflow. */
  lemma NoUnderflow(ops: seq<Op>, path: string)
    requires ValidOps(ops) && FreshRun(ops)
    ensures DeleteStep(Exec(ops).store, path).reply != Some(RefCountUnderflow)
  {
    hide Exec, DeleteStep, Covered;
    FreshRunCovered(ops, |ops|);
    assert ops[..|ops|] == ops;
    DeleteKeepsSlack(Exec(ops).store, path);
  }

  /** A create that takes the path of a fork `q`'s lost source: deleting `q` then underflows
      exactly if `q` is not soft-deleted and is referenced by nobody, the new stream included. */
  lemma RetakenPathUnderflows(s: Store, path: string, opts: CreateOptions, idOk: bool, now: int, q: string)
    requires CreateStep(s, path, opts, idOk, now).reply == Ok(true) && q in ForksOf(s.streams - {path}, path)
    ensures DeleteStep(CreateStep(s, path, opts, idOk, now).store, q).reply == Some(RefCountUnderflow) <==>
            && !s.streams[q].meta.softDeleted
            && s.streams[q].meta.refCount + (if q != "" && opts.forkedFrom == q then 1 else 0) <= 0
  {
    CreateCases(s, path, opts, idOk, now);
    hide CreateStep, PlanOf, InitialFrames, IsExpiredAt;
    var t := CreateStep(s, path, opts, idOk, now).store;
    assert q in t.streams && t.streams[q].meta.forkedFrom == path && t.streams[path].meta.refCount == 0;
    assert t.streams[q].meta.refCount == s.streams[q].meta.refCount + if q != "" && opts.forkedFrom == q then 1 else 0;
    assert t.streams[q].meta.softDeleted == s.streams[q].meta.softDeleted;
    hide Cleared, Released, DeleteWithCascade;
    CascadeShape(t.streams, q);
  }

  // ---- references that are never given back ----

  /** A leaked reference is never given back: a stream with slack keeps it, and no delete frees
      the stream, until a create takes its path. */
  lemma {:induction false} LeakIsForever(ops: seq<Op>, k: nat, p: string)
    requires ValidOps(ops) && k <= |ops|
    requires p in Exec(ops[..k]).store.streams && Slack(Exec(ops[..k]).store.streams, p) > 0
    requires forall i :: k <= i < |ops| && ops[i].Create? ==> ops[i].path != p
    ensures Lives(Exec(ops[..k]).store, Exec(ops).store, p)
    ensures Slack(Exec(ops).store.streams, p) >= Slack(Exec(ops[..k]).store.streams, p)
    decreases |ops|
  {
    hide Step, Stored, Slack, Lives;
    if k == |ops| {
      assert ops[..k] == ops;
      LivesOn(Exec(ops).store, p);
    } else {
      var n := |ops| - 1;
      assert ops[..n][..k] == ops[..k];
      assert forall i :: k <= i < n ==> ops[..n][i] == ops[i];
      LeakIsForever(ops[..n], k, p);
      RunStored(ops[..n]);
      LeakStep(Exec(ops[..k]).store, Exec(ops[..n]).store, ops[n], p);
    }
  }

  lemma LivesOn(s: Store, p: string)
    requires p in s.streams
    ensures Lives(s, s, p)
  {
  }

  lemma LeakStep(s: Store, t: Store, op: Op, p: string)
    requires Stored(t) && ValidOp(op) && (op.Create? ==> op.path != p)
    requires Lives(s, t, p) && 0 < Slack(s.streams, p) <= Slack(t.streams, p)
    ensures Lives(s, Step(t, op).store, p) && Slack(s.streams, p) <= Slack(Step(t, op).store.streams, p)
  {
    hide Step, Stored, Slack, Leaked;
    StepSlack(t, op);
    LeakedIsCounted(t, op, p);
  }
}
