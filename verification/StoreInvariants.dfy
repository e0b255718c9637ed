/** What holds of every stored stream in every run, and how a stream may change while
    it keeps its incarnation. */
module StoreInvariants {
  import opened Prelude
  import opened Offsets
  import opened Producers
  import opened WriteFences
  import opened StoreModel
  import opened StoreOps

  /** Non-empty messages laid end to end from `from` to `to`. */
  ghost predicate Chain(ms: seq<Message>, from: Offset, to: Offset) {
    if ms == [] then from == to
    else
      var last := ms[|ms| - 1];
      && last.data != [] && last.offset == to && |last.data| <= to.byteOffset
      && Chain(ms[..|ms| - 1], from, Offset(to.readSeq, to.byteOffset - |last.data|))
  }

  ghost predicate Increasing(ms: seq<Message>) {
    forall i, j :: 0 <= i < j < |ms| ==> ms[i].offset.LessThan(ms[j].offset)
  }

  lemma {:induction false} ChainConcat(a: seq<Message>, b: seq<Message>, from: Offset, mid: Offset, to: Offset)
    requires Chain(a, from, mid) && Chain(b, mid, to)
    ensures Chain(a + b, from, to)
  {
    if b == [] {
      assert a + b == a;
    } else {
      var last := b[|b| - 1];
      assert (a + b)[..|a + b| - 1] == a + b[..|b| - 1];
      ChainConcat(a, b[..|b| - 1], from, mid, Offset(to.readSeq, to.byteOffset - |last.data|));
    }
  }

  lemma {:induction false} LaidIsChain(from: Offset, frames: seq<Bytes>)
    requires forall i :: 0 <= i < |frames| ==> frames[i] != []
    ensures Chain(Laid(from, frames), from, from.Add(TotalLength(frames)))
    ensures |Laid(from, frames)| == |frames|
    ensures forall i :: 0 <= i < |frames| ==> Laid(from, frames)[i].data == frames[i]
  {
    if frames != [] {
      var n := |frames| - 1;
      LaidIsChain(from, frames[..n]);
      assert Laid(from, frames)[..n] == Laid(from, frames[..n]);
    }
  }

  /** The offsets of a chain rise from `from` to `to` and keep its read sequence. */
  lemma {:induction false} ChainRises(ms: seq<Message>, from: Offset, to: Offset)
    requires Chain(ms, from, to)
    ensures Increasing(ms)
    ensures forall i :: 0 <= i < |ms| ==>
              from.LessThan(ms[i].offset) && ms[i].offset.LessThanOrEqual(to) && ms[i].offset.readSeq == from.readSeq
    ensures from.LessThanOrEqual(to) && to.readSeq == from.readSeq
    ensures ms != [] ==> from.LessThan(to)
  {
    if ms != [] {
      var n := |ms| - 1;
      ChainRises(ms[..n], from, Offset(to.readSeq, to.byteOffset - |ms[n].data|));
      forall i | 0 <= i < n ensures ms[..n][i] == ms[i] {}
    }
  }

  /** A stream's own messages run from its fork point (zero for a plain stream) to its
      tail, and its seals are dated no later than the tail. */
  ghost predicate WellStored(st: Stream) {
    && st.meta.forkOffset.readSeq == 0
    && Chain(st.messages, st.meta.forkOffset, st.meta.currentOffset)
    && (st.lastFencedOff.Some? ==> st.lastFencedOff.value.LessThanOrEqual(st.meta.currentOffset))
    && (forall id <- st.bound :: st.bound[id] > 0)
    && 0 < st.meta.incarnation
  }

  ghost predicate Stored(s: Store) {
    && 0 < s.nextIncarnation
    && (forall p <- s.streams :: WellStored(s.streams[p]) && s.streams[p].meta.incarnation < s.nextIncarnation)
    && (forall p, q :: p in s.streams && q in s.streams && p != q ==>
          s.streams[p].meta.incarnation != s.streams[q].meta.incarnation)
  }

  /** The only changes a stream goes through while it keeps its incarnation. */
  ghost predicate Evolves(a: Stream, b: Stream) {
    && SameIdentity(a.meta, b.meta)
    && |a.messages| <= |b.messages| && b.messages[..|a.messages|] == a.messages
    && Chain(b.messages[|a.messages|..], a.meta.currentOffset, b.meta.currentOffset)
    && (a.meta.closed ==> b.meta.closed && b.messages == a.messages)
    && (forall k <- a.seals :: k in b.seals && a.seals[k].generation <= b.seals[k].generation)
    && (forall id <- a.bound :: id in b.bound)
  }

  ghost predicate SameIdentity(a: Metadata, b: Metadata) {
    && a.incarnation == b.incarnation && a.contentType == b.contentType && a.forkedFrom == b.forkedFrom
    && a.forkOffset == b.forkOffset && a.writeFence == b.writeFence
    && a.forkOffsetRequested == b.forkOffsetRequested && a.forkSubOffset == b.forkSubOffset
  }

  lemma EvolvesReflexive(a: Stream, b: Stream)
    requires a == b.(meta := b.meta.(refCount := a.meta.refCount, softDeleted := a.meta.softDeleted,
                                     lastAccessedAt := a.meta.lastAccessedAt))
    ensures Evolves(a, b) && (WellStored(a) <==> WellStored(b))
    ensures SameIdentity(a.meta, b.meta)
  {
    assert b.messages[|a.messages|..] == [];
  }

  lemma EvolvesTransitive(a: Stream, b: Stream, c: Stream)
    requires Evolves(a, b) && Evolves(b, c)
    ensures Evolves(a, c)
  {
    var m, n := |a.messages|, |b.messages|;
    assert c.messages[..m] == c.messages[..n][..m];
    assert c.messages[m..] == b.messages[m..] + c.messages[n..];
    ChainConcat(b.messages[m..], c.messages[n..], a.meta.currentOffset, b.meta.currentOffset, c.meta.currentOffset);
  }

  // ---- one step ----

  /** Deleting changes no surviving stream but for its reference count. */
  lemma {:induction false} CascadeKeeps(streams: map<string, Stream>, path: string)
    ensures var c := DeleteWithCascade(streams, path);
            && c.streams.Keys <= streams.Keys - {path}
            && (path in streams ==> path in c.notified)
            && streams.Keys - c.streams.Keys <= c.notified
            && forall p <- c.streams ::
                 c.streams[p] == streams[p].(meta := streams[p].meta.(refCount := c.streams[p].meta.refCount))
    decreases |streams|
  {
    if path in streams {
      var parent := streams[path].meta.forkedFrom;
      var rest := streams - {path};
      if parent != "" && parent in rest && rest[parent].meta.refCount == 1 && rest[parent].meta.softDeleted {
        var released := Retain(rest, parent, -1);
        assert released.Keys == rest.Keys && rest.Keys == streams.Keys - {path};
        assert |released.Keys| == |streams.Keys| - 1;
        CascadeKeeps(released, parent);
      }
    }
  }

  /** An accepted append lays its frames after the tail. */
  lemma AppendedEvolves(st: Stream, opts: AppendOptions, producer: Option<ProducerState>, frames: seq<Bytes>)
    requires WellStored(st) && !st.meta.closed && (forall i :: 0 <= i < |frames| ==> frames[i] != [])
    requires opts.fence.Some? ==> opts.fence.value.Complete()
    ensures var st' := Appended(st, opts, producer, frames);
            Evolves(st, st') && WellStored(st')
  {
    hide Chain, Laid, TotalLength;
    var st' := Appended(st, opts, producer, frames);
    var from := st.meta.currentOffset;
    LaidIsChain(from, frames);
    ChainRises(Laid(from, frames), from, st'.meta.currentOffset);
    assert st'.messages == st.messages + Laid(from, frames);
    assert st'.messages[|st.messages|..] == Laid(from, frames);
    ChainConcat(st.messages, Laid(from, frames), st.meta.forkOffset, from, st'.meta.currentOffset);
  }

  /** A step that rewrites one stream by an evolution keeps the store well formed. */
  lemma LocalStep(s: Store, s': Store, path: string)
    requires Stored(s) && path in s.streams
    requires path in s'.streams && s'.streams == s.streams[path := s'.streams[path]]
    requires s'.nextIncarnation == s.nextIncarnation
    requires Evolves(s.streams[path], s'.streams[path]) && WellStored(s'.streams[path])
    ensures Stored(s') && Surviving(s, s')
  {
    forall p | p in s.streams && p != path ensures Evolves(s.streams[p], s'.streams[p]) {
      EvolvesReflexive(s.streams[p], s'.streams[p]);
    }
  }

  /** Streams present before and after with one incarnation have only evolved; any other
      stream present after is the one this step created. */
  ghost predicate Surviving(s: Store, s': Store) {
    && s.nextIncarnation <= s'.nextIncarnation
    && forall p <- s'.streams ::
         if p in s.streams && s.streams[p].meta.incarnation == s'.streams[p].meta.incarnation
         then Evolves(s.streams[p], s'.streams[p])
         else s.nextIncarnation <= s'.streams[p].meta.incarnation
  }

  lemma Unchanged(s: Store, s': Store)
    requires Stored(s) && s'.streams == s.streams && s'.nextIncarnation == s.nextIncarnation
    ensures Stored(s') && Surviving(s, s')
  {
    forall p | p in s.streams ensures Evolves(s.streams[p], s'.streams[p]) {
      EvolvesReflexive(s.streams[p], s'.streams[p]);
    }
  }

  /** The three things a create can do: nothing, drop an expired stream and fail, or
      install a fresh stream. */
  lemma CreateCases(s: Store, path: string, opts: CreateOptions, idOk: bool, now: int)
    ensures var e := CreateStep(s, path, opts, idOk, now);
            var s0 := s.(streams := s.streams - {path});
            && e.notified == {} && e.writes == []
            && (if path in s.streams && !IsExpiredAt(s.streams[path].meta, now) then
                  e.store == s && e.reply != Ok(true)
                else if e.reply != Ok(true) then
                  e.store == s0
                else
                  var plan := PlanOf(s0, opts, now);
                  && plan.Ok? && InitialFrames(plan.value, opts).Ok?
                  && e.store == Installed(s0, path, opts,
                       NewStream(plan.value, InitialFrames(plan.value, opts).value, opts, s.nextIncarnation, now)))
  {
    hide IsExpiredAt, PlanOf, InitialFrames, NewStream, ConfigMatches, Installed;
  }

  lemma RetainKeeps(s: Store, path: string, delta: int)
    requires Stored(s)
    ensures var s' := s.(streams := Retain(s.streams, path, delta));
            Stored(s') && Surviving(s, s')
  {
    var s' := s.(streams := Retain(s.streams, path, delta));
    if path in s.streams {
      EvolvesReflexive(s.streams[path], s'.streams[path]);
      LocalStep(s, s', path);
    } else {
      Unchanged(s, s');
    }
  }

  lemma AddKeeps(s: Store, path: string, st: Stream)
    requires Stored(s) && path !in s.streams && WellStored(st) && st.meta.incarnation == s.nextIncarnation
    ensures var s' := s.(streams := s.streams[path := st], nextIncarnation := s.nextIncarnation + 1);
            Stored(s') && Surviving(s, s')
  {
    hide WellStored;
    forall p | p in s.streams ensures Evolves(s.streams[p], s.streams[path := st][p]) {
      EvolvesReflexive(s.streams[p], s.streams[path := st][p]);
    }
  }

  /** A fresh stream beside the others, one of which may have gained a reference. */
  lemma InstallKeeps(s0: Store, path: string, opts: CreateOptions, st: Stream)
    requires Stored(s0) && path !in s0.streams && WellStored(st) && st.meta.incarnation == s0.nextIncarnation
    ensures var s' := Installed(s0, path, opts, st);
            Stored(s') && Surviving(s0, s')
  {
    if opts.forkedFrom == "" {
      AddKeeps(s0, path, st);
    } else {
      var s1 := s0.(streams := Retain(s0.streams, opts.forkedFrom, 1));
      RetainKeeps(s0, opts.forkedFrom, 1);
      assert path !in s1.streams;
      hide Stored, Surviving, WellStored, Retain;
      AddKeeps(s1, path, st);
      SurvivingTransitive(s0, s1, Installed(s0, path, opts, st));
    }
  }

  lemma DropKeeps(s: Store, path: string)
    requires Stored(s)
    ensures var s0 := s.(streams := s.streams - {path}); Stored(s0) && Surviving(s, s0)
  {
    hide Evolves, WellStored;
    forall p | p in s.streams - {path} ensures Evolves(s.streams[p], (s.streams - {path})[p]) {
      EvolvesReflexive(s.streams[p], (s.streams - {path})[p]);
    }
  }

  lemma CreateKeeps(s: Store, path: string, opts: CreateOptions, idOk: bool, now: int)
    requires Stored(s) && ValidOp(Create(path, opts, idOk, now))
    ensures var s' := CreateStep(s, path, opts, idOk, now).store;
            Stored(s') && Surviving(s, s')
  {
    var e := CreateStep(s, path, opts, idOk, now);
    CreateCases(s, path, opts, idOk, now);
    var s0 := s.(streams := s.streams - {path});
    Unchanged(s, s);
    DropKeeps(s, path);
    assert 0 < s0.nextIncarnation;
    hide Stored, Surviving, WellStored, CreateStep, PlanOf, InitialFrames, NewStream, IsExpiredAt, Installed;
    if e.store != s && e.store != s0 {
      var plan := PlanOf(s0, opts, now).value;
      var st := NewStream(plan, InitialFrames(plan, opts).value, opts, s.nextIncarnation, now);
      NewStreamWellStored(s0, plan, opts, now, st, s.nextIncarnation);
      InstallKeeps(s0, path, opts, st);
      SurvivingTransitive(s, s0, e.store);
    }
  }

  /** The fork point lies within the source. */
  lemma PlanWithinSource(s0: Store, opts: CreateOptions, now: int)
    requires Stored(s0) && PlanOf(s0, opts, now).Ok?
    ensures var plan := PlanOf(s0, opts, now).value;
            && plan.forkOffset.readSeq == 0 && |plan.prefix| <= 1 && (plan.prefix != [] ==> plan.prefix[0] != [])
            && (opts.forkedFrom != "" ==>
                  && opts.forkedFrom in s0.streams
                  && plan.forkOffset.LessThanOrEqual(s0.streams[opts.forkedFrom].meta.currentOffset))
  {
    if opts.forkedFrom != "" {
      var source := s0.streams[opts.forkedFrom];
      ChainRises(source.messages, source.meta.forkOffset, source.meta.currentOffset);
      var at := if opts.forkOffset.Some? then opts.forkOffset.value else source.meta.currentOffset;
      if opts.forkSubOffset.Some? && opts.forkSubOffset.value > 0 && IsJson(source.meta.contentType) {
        WholeWithinTail(s0, opts.forkedFrom);
        AfterSelects(Whole(s0, opts.forkedFrom), at);
      }
    }
  }

  lemma NewStreamWellStored(s0: Store, plan: Plan, opts: CreateOptions, now: int, st: Stream, incarnation: nat)
    requires Stored(s0) && PlanOf(s0, opts, now) == Ok(plan) && incarnation > 0
    requires opts.initialData.Some? ==> ValidPayload(opts.initialData.value)
    requires var frames := InitialFrames(plan, opts);
             frames.Ok? && st == NewStream(plan, frames.value, opts, incarnation, now)
    ensures WellStored(st) && st.meta.incarnation == incarnation
  {
    PlanWithinSource(s0, opts, now);
    LaidIsChain(plan.forkOffset, plan.prefix + InitialFrames(plan, opts).value);
  }

  lemma {:induction false} AfterSelects(ms: seq<Message>, o: Offset)
    ensures forall i :: 0 <= i < |After(ms, o)| ==> After(ms, o)[i] in ms && o.LessThan(After(ms, o)[i].offset)
  {
    if ms != [] {
      AfterSelects(ms[..|ms| - 1], o);
    }
  }

  lemma {:induction false} UpToSelects(ms: seq<Message>, u: Offset)
    ensures forall i :: 0 <= i < |UpTo(ms, u)| ==> UpTo(ms, u)[i] in ms && UpTo(ms, u)[i].offset.LessThanOrEqual(u)
  {
    if ms != [] {
      UpToSelects(ms[..|ms| - 1], u);
    }
  }

  /** All visible messages lie at or before the tail. */
  lemma WholeWithinTail(s: Store, path: string)
    requires Stored(s) && path in s.streams
    ensures forall i :: 0 <= i < |Whole(s, path)| ==>
              Whole(s, path)[i].offset.LessThanOrEqual(s.streams[path].meta.currentOffset)
  {
    var st := s.streams[path];
    ChainRises(st.messages, st.meta.forkOffset, st.meta.currentOffset);
    if st.meta.forkedFrom != "" && s.nextIncarnation > 0 {
      UpToSelects(Content(s.streams, st.meta.forkedFrom, s.nextIncarnation - 1), st.meta.forkOffset);
    }
  }

  lemma DeleteKeeps(s: Store, path: string)
    requires Stored(s)
    ensures var s' := DeleteStep(s, path).store;
            Stored(s') && Surviving(s, s')
  {
    var s' := DeleteStep(s, path).store;
    hide Evolves, WellStored;
    if s' == s {
      Unchanged(s, s');
    } else {
      if !s.streams[path].meta.softDeleted && s.streams[path].meta.refCount <= 0 {
        CascadeKeeps(s.streams, path);
      }
      forall p | p in s'.streams
        ensures p in s.streams && Evolves(s.streams[p], s'.streams[p]) && WellStored(s'.streams[p])
        ensures SameIdentity(s.streams[p].meta, s'.streams[p].meta)
      {
        EvolvesReflexive(s.streams[p], s'.streams[p]);
      }
    }
  }

  /** The frames an append commits are not empty, there is at least one, and the stream is open. */
  lemma CommittedFrames(m: Metadata, body: Payload, opts: AppendOptions, now: int)
    requires ValidPayload(body) && (body.json.Ok? ==> body.json.value != [])
    ensures var v := AppendDecision(m, body, opts, now);
            v.Commit? ==> !m.closed && v.frames != [] && forall i :: 0 <= i < |v.frames| ==> v.frames[i] != []
  {
  }

  lemma AppendKeeps(s: Store, path: string, body: Payload, opts: AppendOptions, now: int)
    requires Stored(s) && ValidOp(Append(path, body, opts, now))
    ensures var s' := AppendStep(s, path, body, opts, now).store;
            Stored(s') && Surviving(s, s')
  {
    var s' := AppendStep(s, path, body, opts, now).store;
    if AppendRefusal(s, path, opts, now).Some? {
      hide Stored, Surviving, AppendRefusal, AppendDecision;
      Unchanged(s, s');
    } else {
      assert path in s.streams && (opts.fence.Some? ==> opts.fence.value.Complete());
      hide Surviving, AppendRefusal, AppendDecision, Evolves, Appended;
      var st := s.streams[path];
      var touched := st.(meta := st.meta.(lastAccessedAt := now));
      EvolvesReflexive(st, touched);
      var v := AppendDecision(touched.meta, body, opts, now);
      CommittedFrames(touched.meta, body, opts, now);
      if v.Commit? {
        AppendedEvolves(touched, opts, v.producer, v.frames);
        EvolvesTransitive(st, touched, s'.streams[path]);
      }
      hide Stored, WellStored;
      LocalStep(s, s', path);
    }
  }

  /** A stream whose messages and tail are as they were, and whose seals only rose. */
  lemma QuietStep(s: Store, s': Store, path: string)
    requires Stored(s) && path in s.streams && s'.nextIncarnation == s.nextIncarnation
    requires path in s'.streams && s'.streams == s.streams[path := s'.streams[path]]
    requires var a, b := s.streams[path], s'.streams[path];
             && SameIdentity(a.meta, b.meta) && a.messages == b.messages && a.meta.currentOffset == b.meta.currentOffset
             && (a.meta.closed ==> b.meta.closed)
             && (forall k <- a.seals :: k in b.seals && a.seals[k].generation <= b.seals[k].generation)
             && (forall id <- a.bound :: id in b.bound) && (forall id <- b.bound :: b.bound[id] > 0)
             && (b.lastFencedOff.Some? ==> b.lastFencedOff.value.LessThanOrEqual(b.meta.currentOffset))
    ensures Stored(s') && Surviving(s, s')
  {
    var a, b := s.streams[path], s'.streams[path];
    assert b.messages[|a.messages|..] == [];
    LocalStep(s, s', path);
  }

  lemma CloseKeeps(s: Store, path: string, fence: Option<AppendFence>, now: int)
    requires Stored(s)
    ensures var s' := CloseStep(s, path, fence, now).store;
            Stored(s') && Surviving(s, s')
  {
    var e := CloseStep(s, path, fence, now);
    if e.writes == [] {
      Unchanged(s, e.store);
    } else {
      QuietStep(s, e.store, path);
    }
  }

  lemma CloseProducerKeeps(s: Store, path: string, id: string, epoch: int, sequence: int,
                           fence: Option<AppendFence>, now: int)
    requires Stored(s)
    ensures var s' := CloseProducerStep(s, path, id, epoch, sequence, fence, now).store;
            Stored(s') && Surviving(s, s')
  {
    hide FenceRung, ValidateProducer, IsExpiredAt, Surviving, Evolves;
    var e := CloseProducerStep(s, path, id, epoch, sequence, fence, now);
    if e.writes == [] {
      Unchanged(s, e.store);
    } else {
      QuietStep(s, e.store, path);
    }
  }

  lemma ReadKeeps(s: Store, path: string, snapshot: Option<Snapshot>, noTouch: bool, now: int)
    requires Stored(s)
    ensures var s' := ReadStep(s, path, snapshot, noTouch, now);
            Stored(s') && Surviving(s, s')
  {
    hide IsExpiredAt, ReadGate, Evolves, WellStored, Surviving;
    var s' := ReadStep(s, path, snapshot, noTouch, now);
    if s' == s {
      Unchanged(s, s');
    } else {
      EvolvesReflexive(s.streams[path], s'.streams[path]);
      LocalStep(s, s', path);
    }
  }

  lemma GrantKeeps(s: Store, path: string, f: AppendFence, now: int)
    requires Stored(s)
    ensures var s' := GrantStep(s, path, f, now).store;
            Stored(s') && Surviving(s, s')
  {
    var s' := GrantStep(s, path, f, now).store;
    if s' == s {
      Unchanged(s, s');
    } else {
      QuietStep(s, s', path);
    }
  }

  lemma SealKeeps(s: Store, path: string, f: AppendFence)
    requires Stored(s)
    ensures var s' := SealStep(s, path, f).store;
            Stored(s') && Surviving(s, s')
  {
    var s' := SealStep(s, path, f).store;
    if s'.streams == s.streams {
      Unchanged(s, s');
    } else {
      QuietStep(s, s', path);
    }
  }

  /** Every operation keeps every stream well stored, and only ever evolves a stream
      that keeps its incarnation. */
  lemma StepKeeps(s: Store, op: Op)
    requires Stored(s) && ValidOp(op)
    ensures Stored(Step(s, op).store) && Surviving(s, Step(s, op).store)
  {
    hide Stored, Surviving;
    match op
    case Create(path, opts, idOk, now) => CreateKeeps(s, path, opts, idOk, now);
    case Delete(path) => DeleteKeeps(s, path);
    case Append(path, body, opts, now) => AppendKeeps(s, path, body, opts, now);
    case Close(path, fence, now) => CloseKeeps(s, path, fence, now);
    case CloseProducer(path, id, epoch, sequence, fence, now) =>
      CloseProducerKeeps(s, path, id, epoch, sequence, fence, now);
    case Read(path, snapshot, noTouch, now) => ReadKeeps(s, path, snapshot, noTouch, now);
    case Grant(path, f, now) => GrantKeeps(s, path, f, now);
    case Revoke(path, f) => Unchanged(s, Step(s, op).store);
    case SealClaim(path, f) => SealKeeps(s, path, f);
    case Reap(path, a) => Unchanged(s, Step(s, op).store);
  }

  /** Only claims, seals and reaping touch the markers. */
  lemma MarkersStay(s: Store, op: Op)
    requires op.Create? || op.Delete? || op.Append? || op.Close? || op.CloseProducer? || op.Read?
    ensures Step(s, op).store.markers == s.markers
  {
    hide DeleteWithCascade, IsExpiredAt, AppendDecision, AppendRefusal, FenceRung, CloseDecision, ReadGate, PlanOf,
        InitialFrames, NewStream;
    match op
    case Create(path, opts, idOk, now) => CreateCases(s, path, opts, idOk, now); hide CreateStep;
    case _ =>
  }

  // ---- runs ----

  lemma SurvivingTransitive(s: Store, t: Store, u: Store)
    requires Stored(s) && Surviving(s, t) && Surviving(t, u)
    ensures Surviving(s, u)
  {
    forall p | p in u.streams
      ensures if p in s.streams && s.streams[p].meta.incarnation == u.streams[p].meta.incarnation
              then Evolves(s.streams[p], u.streams[p])
              else s.nextIncarnation <= u.streams[p].meta.incarnation
    {
      if p in s.streams && s.streams[p].meta.incarnation == u.streams[p].meta.incarnation {
        EvolvesTransitive(s.streams[p], t.streams[p], u.streams[p]);
      }
    }
  }

  lemma {:induction false} RunStored(ops: seq<Op>)
    requires ValidOps(ops)
    ensures Stored(Exec(ops).store)
  {
    if ops != [] {
      hide Step, Stored, Surviving;
      var n := |ops| - 1;
      RunStored(ops[..n]);
      StepKeeps(Exec(ops[..n]).store, ops[n]);
    }
  }

  /** Between any two points of a run, a stream that kept its incarnation has only
      evolved, and the log of accepted writes has only grown. */
  lemma {:induction false} RunSurvives(ops: seq<Op>, k: nat)
    requires ValidOps(ops) && k <= |ops|
    ensures Surviving(Exec(ops[..k]).store, Exec(ops).store)
    ensures Exec(ops[..k]).log <= Exec(ops).log
    decreases |ops|
  {
    hide Step, Stored, Surviving;
    RunStored(ops[..k]);
    if k == |ops| {
      assert ops[..k] == ops;
      Unchanged(Exec(ops).store, Exec(ops).store);
    } else {
      var n := |ops| - 1;
      RunSurvives(ops[..n], k);
      assert ops[..n][..k] == ops[..k];
      RunStored(ops[..n]);
      StepKeeps(Exec(ops[..n]).store, ops[n]);
      SurvivingTransitive(Exec(ops[..k]).store, Exec(ops[..n]).store, Exec(ops).store);
    }
  }
}
