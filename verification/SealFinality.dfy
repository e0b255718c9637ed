/** Sealed generations stay dead, and a seal fixes the last offset its generations
    reached (store/memory_store.go, store/write_fence.go). */
module SealFinality {
  import opened Prelude
  import opened Offsets
  import opened Producers
  import opened WriteFences
  import opened StoreModel
  import opened StoreOps
  import opened StoreInvariants
  import opened FenceRungs

  /** `w` is a fenced-class write to the stream with this incarnation. */
  ghost predicate FencedWrite(w: Write, incarnation: nat) {
    w.incarnation == incarnation && w.fence.Some?
  }

  /** `w` is a write of authority `a` at or below generation `g`. */
  ghost predicate WriteBelow(w: Write, incarnation: nat, a: Authority, g: int) {
    FencedWrite(w, incarnation) && FenceAuthority(w.fence.value) == a && w.fence.value.generation <= g
  }

  /** On a write-fenced stream the recorded last fenced offset bounds every fenced write,
      and each seal bounds the writes of the generations it closed. */
  ghost predicate Bounded(st: Stream, log: seq<Write>) {
    && (forall w :: w in log && FencedWrite(w, st.meta.incarnation) ==>
          st.lastFencedOff.Some? && w.end.LessThanOrEqual(st.lastFencedOff.value))
    && (forall a, w :: a in st.seals && w in log && WriteBelow(w, st.meta.incarnation, a, st.seals[a].generation) ==>
          w.end.LessThanOrEqual(st.seals[a].offset))
  }

  /** Where the last fenced write of the log ended. */
  ghost function LastFenced(log: seq<Write>, incarnation: nat): Option<Offset> {
    if log == [] then None
    else
      var w := log[|log| - 1];
      if FencedWrite(w, incarnation) then Some(w.end) else LastFenced(log[..|log| - 1], incarnation)
  }

  /** The seal of `a` was made after the first `k` writes: it records where the last fenced one
      of them ended, unless there was none, and none of its generations came later. */
  ghost predicate MadeAfter(st: Stream, a: Authority, log: seq<Write>, k: nat)
    requires a in st.seals
  {
    && k <= |log| && LastFenced(log[..k], st.meta.incarnation) in {None, Some(st.seals[a].offset)}
    && (forall i :: k <= i < |log| ==> !WriteBelow(log[i], st.meta.incarnation, a, st.seals[a].generation))
  }

  /** The recorded last fenced offset and every seal are exactly what the log says. */
  ghost predicate Settled(st: Stream, log: seq<Write>) {
    && st.lastFencedOff == LastFenced(log, st.meta.incarnation)
    && (forall a :: a in st.seals ==> exists k: nat :: MadeAfter(st, a, log, k))
  }

  ghost predicate FenceInv(s: Store, log: seq<Write>) {
    && (forall w :: w in log ==> w.incarnation < s.nextIncarnation)
    && (forall p :: p in s.streams && s.streams[p].meta.writeFence ==>
          Bounded(s.streams[p], log) && Settled(s.streams[p], log))
  }

  lemma {:induction false} NoneFenced(log: seq<Write>, incarnation: nat)
    requires forall w :: w in log ==> !FencedWrite(w, incarnation)
    ensures LastFenced(log, incarnation) == None
  {
    if log != [] {
      assert log[|log| - 1] in log;
      NoneFenced(log[..|log| - 1], incarnation);
    }
  }

  lemma {:induction false} LastFencedConcat(log: seq<Write>, writes: seq<Write>, incarnation: nat)
    requires forall w :: w in writes ==> !FencedWrite(w, incarnation)
    ensures LastFenced(log + writes, incarnation) == LastFenced(log, incarnation)
  {
    if writes == [] {
      assert log + writes == log;
    } else {
      var n := |writes| - 1;
      assert writes[n] in writes && (log + writes)[..|log| + n] == log + writes[..n];
      LastFencedConcat(log, writes[..n], incarnation);
    }
  }

  /** Writes that do not touch the stream's sealed generations leave its seals as they were. */
  lemma SealsStay(st: Stream, st': Stream, log: seq<Write>, writes: seq<Write>)
    requires Settled(st, log) && st'.meta.incarnation == st.meta.incarnation && st'.seals == st.seals
    requires forall a, w :: a in st.seals && w in writes ==>
               !WriteBelow(w, st.meta.incarnation, a, st.seals[a].generation)
    ensures forall a :: a in st'.seals ==> exists k: nat :: MadeAfter(st', a, log + writes, k)
  {
    hide LastFenced, WriteBelow;
    forall a | a in st'.seals ensures exists k: nat :: MadeAfter(st', a, log + writes, k) {
      var k: nat :| MadeAfter(st, a, log, k);
      assert (log + writes)[..k] == log[..k];
      forall i | k <= i < |log + writes|
        ensures !WriteBelow((log + writes)[i], st.meta.incarnation, a, st.seals[a].generation)
      {
        assert i >= |log| ==> (log + writes)[i] in writes;
      }
      assert MadeAfter(st', a, log + writes, k);
    }
  }

  /** A stream that a step does not write to stays settled. */
  lemma OthersSettled(st: Stream, log: seq<Write>, writes: seq<Write>)
    requires Settled(st, log) && forall w :: w in writes ==> w.incarnation != st.meta.incarnation
    ensures Settled(st, log + writes)
  {
    LastFencedConcat(log, writes, st.meta.incarnation);
    SealsStay(st, st, log, writes);
  }

  /** The part of a stream its fence bounds depend on. */
  ghost predicate SameFence(a: Stream, b: Stream) {
    && a.meta.incarnation == b.meta.incarnation && a.meta.writeFence == b.meta.writeFence
    && a.seals == b.seals && a.lastFencedOff == b.lastFencedOff
  }

  /** A step that accepts no write and leaves the fences of surviving streams alone. */
  lemma FencesUntouched(s: Store, s': Store, log: seq<Write>)
    requires FenceInv(s, log) && s.nextIncarnation <= s'.nextIncarnation
    requires forall p :: p in s'.streams ==>
               || (p in s.streams && SameFence(s.streams[p], s'.streams[p]))
               || (s.nextIncarnation <= s'.streams[p].meta.incarnation && Unfenced(s'.streams[p]))
    ensures FenceInv(s', log)
  {
    forall p | p in s'.streams && s'.streams[p].meta.writeFence
      ensures Bounded(s'.streams[p], log) && Settled(s'.streams[p], log)
    {
      if p in s.streams && SameFence(s.streams[p], s'.streams[p]) {
        SameSettled(s.streams[p], s'.streams[p], log);
      } else {
        NoneFenced(log, s'.streams[p].meta.incarnation);
      }
    }
  }

  /** No fenced write or seal yet. */
  ghost predicate Unfenced(st: Stream) {
    st.lastFencedOff.None? && st.seals == map[]
  }

  lemma SameSettled(st: Stream, st': Stream, log: seq<Write>)
    requires SameFence(st, st') && Settled(st, log) && Bounded(st, log)
    ensures Settled(st', log) && Bounded(st', log)
  {
    assert log + [] == log;
    SealsStay(st, st', log, []);
  }

  /** A step that rewrites the stream at `path` and accepts at most one write, to it. */
  lemma FenceLocal(s: Store, s': Store, path: string, log: seq<Write>, writes: seq<Write>)
    requires Stored(s) && FenceInv(s, log) && s'.nextIncarnation == s.nextIncarnation
    requires path in s.streams && path in s'.streams && s'.streams == s.streams[path := s'.streams[path]]
    requires s'.streams[path].meta.incarnation == s.streams[path].meta.incarnation
    requires s'.streams[path].meta.writeFence == s.streams[path].meta.writeFence
    requires forall w :: w in writes ==> w.incarnation == s.streams[path].meta.incarnation
    requires s.streams[path].meta.writeFence ==>
               Bounded(s'.streams[path], log + writes) && Settled(s'.streams[path], log + writes)
    ensures FenceInv(s', log + writes)
  {
    hide WellStored, Settled;
    forall p | p in s'.streams && s'.streams[p].meta.writeFence
      ensures Bounded(s'.streams[p], log + writes) && Settled(s'.streams[p], log + writes)
    {
      if p != path {
        OthersSettled(s.streams[p], log, writes);
      }
    }
  }

  /** A newly sealed authority is bounded by the last fenced offset. */
  lemma SealedBounded(st: Stream, a: Authority, generation: int, wakeId: string, log: seq<Write>)
    requires Bounded(st, log) && Settled(st, log)
    ensures Bounded(Sealed(st, a, generation, wakeId), log) && Settled(Sealed(st, a, generation, wakeId), log)
  {
    var st' := Sealed(st, a, generation, wakeId);
    assert Bounded(st', log);
    hide LastFenced, WriteBelow, Bounded;
    assert log[..|log|] == log;
    forall b | b in st'.seals ensures exists k: nat :: MadeAfter(st', b, log, k) {
      if b == a {
        assert MadeAfter(st', a, log, |log|);
      } else {
        var k: nat :| MadeAfter(st, b, log, k);
        assert MadeAfter(st', b, log, k);
      }
    }
  }

  /** An accepted fenced write is above every seal of its authority, and ends at the tail. */
  lemma AcceptedBounded(s: Store, path: string, st: Stream, st': Stream, fence: Option<AppendFence>,
                        id: string, epoch: Option<int>, now: int, log: seq<Write>, w: Write)
    requires st.meta.writeFence && WellStored(st) && Bounded(st, log) && Settled(st, log)
    requires FenceRung(s, path, st, fence, id, epoch, now).reason == FenceNone
    requires w.incarnation == st.meta.incarnation == st'.meta.incarnation && w.fence == fence
    requires w.end == st'.meta.currentOffset && st.meta.currentOffset.LessThanOrEqual(w.end)
    requires st'.seals == st.seals
    requires st'.lastFencedOff == if fence.Some? then Some(w.end) else st.lastFencedOff
    ensures Bounded(st', log + [w]) && Settled(st', log + [w])
  {
    RungAnswers(s, path, st, fence, id, epoch, now);
    hide FenceRung, Leased, FenceAuthority;
    SealsStay(st, st', log, [w]);
    assert (log + [w])[..|log|] == log;
    hide MadeAfter;
    forall a, v | a in st'.seals && v in log + [w] && WriteBelow(v, st'.meta.incarnation, a, st'.seals[a].generation)
      ensures v.end.LessThanOrEqual(st'.seals[a].offset)
    {
      assert v in log;
    }
  }

  lemma FencesOf(s: Store, path: string, log: seq<Write>)
    requires FenceInv(s, log) && path in s.streams && s.streams[path].meta.writeFence
    ensures Bounded(s.streams[path], log) && Settled(s.streams[path], log)
  {
  }

  lemma AppendFences(s: Store, path: string, body: Payload, opts: AppendOptions, now: int, log: seq<Write>)
    requires Stored(s) && FenceInv(s, log) && ValidOp(Append(path, body, opts, now))
    ensures var e := AppendStep(s, path, body, opts, now); FenceInv(e.store, log + e.writes)
  {
    var e := AppendStep(s, path, body, opts, now);
    if AppendRefusal(s, path, opts, now).Some? {
      assert log + e.writes == log;
    } else {
      var st := s.streams[path];
      assert FenceRung(s, path, st, opts.fence, opts.producerId, opts.producerEpoch, now).reason == FenceNone;
      hide FenceRung, AppendDecision, AppendRefusal, FenceInv, Settled, Bounded;
      if st.meta.writeFence {
        FencesOf(s, path, log);
      }
      var touched := st.(meta := st.meta.(lastAccessedAt := now));
      var v := AppendDecision(touched.meta, body, opts, now);
      if v.Answer? {
        assert log + e.writes == log;
        if st.meta.writeFence {
          SameSettled(st, touched, log);
        }
      } else if st.meta.writeFence {
        AcceptedBounded(s, path, st, e.store.streams[path], opts.fence, opts.producerId, opts.producerEpoch, now,
          log, e.writes[0]);
      }
      FenceLocal(s, e.store, path, log, e.writes);
    }
  }

  lemma CloseFences(s: Store, path: string, fence: Option<AppendFence>, now: int, log: seq<Write>)
    requires Stored(s) && FenceInv(s, log)
    ensures var e := CloseStep(s, path, fence, now); FenceInv(e.store, log + e.writes)
  {
    var e := CloseStep(s, path, fence, now);
    if e.writes == [] {
      assert log + e.writes == log;
    } else {
      var st := s.streams[path];
      assert st.meta.writeFence ==> fence.None?;  // a fenced stream asks fenced writers for producer headers
      hide FenceRung;
      if st.meta.writeFence {
        AcceptedBounded(s, path, st, e.store.streams[path], fence, "", None, now, log, e.writes[0]);
      }
      hide FenceInv;
      FenceLocal(s, e.store, path, log, e.writes);
    }
  }

  lemma CloseProducerFences(s: Store, path: string, id: string, epoch: int, sequence: int,
                            fence: Option<AppendFence>, now: int, log: seq<Write>)
    requires Stored(s) && FenceInv(s, log)
    ensures var e := CloseProducerStep(s, path, id, epoch, sequence, fence, now); FenceInv(e.store, log + e.writes)
  {
    hide FenceRung, ValidateProducer;
    var e := CloseProducerStep(s, path, id, epoch, sequence, fence, now);
    if e.writes == [] {
      assert log + e.writes == log;
    } else {
      var st := s.streams[path];
      if st.meta.writeFence {
        AcceptedBounded(s, path, st, e.store.streams[path], fence, id, Some(epoch), now, log, e.writes[0]);
      }
      hide FenceInv;
      FenceLocal(s, e.store, path, log, e.writes);
    }
  }

  lemma GrantFences(s: Store, path: string, f: AppendFence, now: int, log: seq<Write>)
    requires Stored(s) && FenceInv(s, log)
    ensures var e := GrantStep(s, path, f, now); FenceInv(e.store, log + e.writes)
  {
    var s' := GrantStep(s, path, f, now).store;
    assert log + [] == log;
    if s' != s {
      var a := FenceAuthority(f);
      var st, cur := s.streams[path], MarkerOf(s, path, a);
      if st.meta.writeFence && cur.Some? {
        SealedBounded(st, a, cur.value.generation, cur.value.wakeId, log);
      }
      FenceLocal(s, s', path, log, []);
    }
  }

  lemma SealFences(s: Store, path: string, f: AppendFence, log: seq<Write>)
    requires Stored(s) && FenceInv(s, log)
    ensures var e := SealStep(s, path, f); FenceInv(e.store, log + e.writes)
  {
    var s' := SealStep(s, path, f).store;
    assert log + [] == log;
    if s'.streams != s.streams {
      SealedBounded(s.streams[path], FenceAuthority(f), f.generation, f.wakeId, log);
      FenceLocal(s, s', path, log, []);
    }
  }

  /** A stream after a create has the fence it had, or is the new one and has none. */
  lemma CreateFencesAt(s: Store, path: string, opts: CreateOptions, idOk: bool, now: int, p: string)
    requires p in CreateStep(s, path, opts, idOk, now).store.streams
    ensures var st := CreateStep(s, path, opts, idOk, now).store.streams[p];
            || (p in s.streams && SameFence(s.streams[p], st))
            || (s.nextIncarnation <= st.meta.incarnation && Unfenced(st))
  {
    CreateCases(s, path, opts, idOk, now);
    hide CreateStep, PlanOf, InitialFrames, IsExpiredAt, Laid, TotalLength;
  }

  lemma CreateFences(s: Store, path: string, opts: CreateOptions, idOk: bool, now: int, log: seq<Write>)
    requires FenceInv(s, log)
    ensures var e := CreateStep(s, path, opts, idOk, now); FenceInv(e.store, log + e.writes)
  {
    assert log + [] == log;
    CreateCases(s, path, opts, idOk, now);
    var s' := CreateStep(s, path, opts, idOk, now).store;
    assert s.nextIncarnation <= s'.nextIncarnation;
    hide *;
    forall p | p in s'.streams
      ensures || (p in s.streams && SameFence(s.streams[p], s'.streams[p]))
              || (s.nextIncarnation <= s'.streams[p].meta.incarnation && Unfenced(s'.streams[p]))
    {
      CreateFencesAt(s, path, opts, idOk, now, p);
    }
    FencesUntouched(s, s', log);
  }

  lemma DeleteFencesAt(s: Store, path: string, p: string)
    requires p in DeleteStep(s, path).store.streams
    ensures p in s.streams && SameFence(s.streams[p], DeleteStep(s, path).store.streams[p])
  {
    CascadeKeeps(s.streams, path);
    hide DeleteWithCascade;
  }

  lemma DeleteFences(s: Store, path: string, log: seq<Write>)
    requires FenceInv(s, log)
    ensures var e := DeleteStep(s, path); FenceInv(e.store, log + e.writes)
  {
    assert log + [] == log;
    var e := DeleteStep(s, path);
    assert e.store.nextIncarnation == s.nextIncarnation && e.writes == [];
    hide *;
    forall p | p in e.store.streams ensures p in s.streams && SameFence(s.streams[p], e.store.streams[p]) {
      DeleteFencesAt(s, path, p);
    }
    FencesUntouched(s, e.store, log);
  }

  lemma MarkerFences(s: Store, s': Store, log: seq<Write>)
    requires FenceInv(s, log) && s'.streams == s.streams && s'.nextIncarnation == s.nextIncarnation
    ensures FenceInv(s', log + [])
  {
    assert log + [] == log;
  }

  lemma ReadFences(s: Store, path: string, snapshot: Option<Snapshot>, noTouch: bool, now: int, log: seq<Write>)
    requires FenceInv(s, log)
    ensures FenceInv(ReadStep(s, path, snapshot, noTouch, now), log + [])
  {
    assert log + [] == log;
    hide FenceInv, ReadGate, IsExpiredAt;
    var s' := ReadStep(s, path, snapshot, noTouch, now);
    if s' != s {
      assert SameFence(s.streams[path], s'.streams[path]);
      FencesUntouched(s, s', log);
    }
  }

  lemma StepFences(s: Store, op: Op, log: seq<Write>)
    requires Stored(s) && FenceInv(s, log) && ValidOp(op)
    ensures FenceInv(Step(s, op).store, log + Step(s, op).writes)
  {
    hide FenceInv, Stored, CreateStep, DeleteStep, AppendStep, CloseStep, CloseProducerStep, ReadStep, GrantStep,
        SealStep;
    match op
    case Create(path, opts, idOk, now) => CreateFences(s, path, opts, idOk, now, log);
    case Delete(path) => DeleteFences(s, path, log);
    case Append(path, body, opts, now) => AppendFences(s, path, body, opts, now, log);
    case Close(path, fence, now) => CloseFences(s, path, fence, now, log);
    case CloseProducer(path, id, epoch, sequence, fence, now) =>
      CloseProducerFences(s, path, id, epoch, sequence, fence, now, log);
    case Read(path, snapshot, noTouch, now) => ReadFences(s, path, snapshot, noTouch, now, log);
    case Grant(path, f, now) => GrantFences(s, path, f, now, log);
    case Revoke(path, f) => MarkerFences(s, Step(s, op).store, log);
    case SealClaim(path, f) => SealFences(s, path, f, log);
    case Reap(path, a) => MarkerFences(s, Step(s, op).store, log);
  }

  lemma {:induction false} RunFences(ops: seq<Op>)
    requires ValidOps(ops)
    ensures FenceInv(Exec(ops).store, Exec(ops).log)
  {
    if ops != [] {
      var n := |ops| - 1;
      hide Step, FenceInv;
      RunStored(ops[..n]);
      RunFences(ops[..n]);
      StepFences(Exec(ops[..n]).store, ops[n], Exec(ops[..n]).log);
    } else {
      assert FenceInv(EMPTY_STORE, []);
    }
  }

  // ---- what an accepted write went through ----

  /** A write of this step passed the rung against the store before it. */
  ghost predicate PassedRung(s: Store, op: Op, w: Write) {
    && op.path == w.path && w.path in s.streams && w.incarnation == s.streams[w.path].meta.incarnation
    && (op.Append? || op.Close? || op.CloseProducer?)
    && (w.fence.Some? ==>
          var f := w.fence.value;
          && f.Complete() && Leased(s, w.path, w.incarnation, f, op.now) && !SealedOff(s.streams[w.path], f)
          && (s.streams[w.path].meta.writeFence ==> w.producer.Some? && w.producer.value.mark.epoch == f.generation))
  }

  lemma AppendPassed(s: Store, path: string, body: Payload, opts: AppendOptions, now: int)
    ensures var e := AppendStep(s, path, body, opts, now);
            |e.writes| <= 1 && forall w <- e.writes :: PassedRung(s, Append(path, body, opts, now), w)
  {
    hide FenceRung, IsExpiredAt, FramesOf, Leased, SealedOff;
    if path in s.streams {
      RungAnswers(s, path, s.streams[path], opts.fence, opts.producerId, opts.producerEpoch, now);
    }
  }

  lemma ClosePassed(s: Store, path: string, fence: Option<AppendFence>, now: int)
    ensures var e := CloseStep(s, path, fence, now);
            |e.writes| <= 1 && forall w <- e.writes :: PassedRung(s, Close(path, fence, now), w)
  {
    hide FenceRung, IsExpiredAt, Leased, SealedOff;
    if path in s.streams {
      RungAnswers(s, path, s.streams[path], fence, "", None, now);
    }
  }

  lemma CloseProducerPassed(s: Store, path: string, id: string, epoch: int, sequence: int,
                            fence: Option<AppendFence>, now: int)
    ensures var e := CloseProducerStep(s, path, id, epoch, sequence, fence, now);
            |e.writes| <= 1
            && forall w <- e.writes :: PassedRung(s, CloseProducer(path, id, epoch, sequence, fence, now), w)
  {
    hide FenceRung, IsExpiredAt, Leased, SealedOff;
    if path in s.streams {
      RungAnswers(s, path, s.streams[path], fence, id, Some(epoch), now);
    }
  }

  /** Each step accepts at most one write, of a claim whose lease had not run out. */
  lemma WritesPassedRung(s: Store, op: Op)
    ensures forall w :: w in Step(s, op).writes ==> PassedRung(s, op, w)
    ensures |Step(s, op).writes| <= 1
  {
    hide CreateStep, DeleteStep, AppendStep, CloseStep, CloseProducerStep, GrantStep, SealStep, PassedRung;
    match op
    case Create(path, opts, idOk, now) => CreateCases(s, path, opts, idOk, now);
    case Append(path, body, opts, now) => AppendPassed(s, path, body, opts, now);
    case Close(path, fence, now) => ClosePassed(s, path, fence, now);
    case CloseProducer(path, id, epoch, sequence, fence, now) =>
      CloseProducerPassed(s, path, id, epoch, sequence, fence, now);
    case _ => QuietSteps(s, op);
  }

  lemma QuietSteps(s: Store, op: Op)
    requires op.Delete? || op.Read? || op.Grant? || op.Revoke? || op.SealClaim? || op.Reap?
    ensures Step(s, op).writes == []
  {
    hide DeleteWithCascade, ReadStep, MarkerOf, SealOf, FenceAuthority;
  }

  // ---- the theorems ----

  /** A later stream of the same incarnation is the same stream, at the same path. */
  lemma IncarnationPinsPath(s: Store, t: Store, path: string, q: string)
    requires Stored(s) && Surviving(s, t) && path in s.streams && q in t.streams
    requires t.streams[q].meta.incarnation == s.streams[path].meta.incarnation
    ensures q == path && Evolves(s.streams[path], t.streams[q])
  {
    hide Evolves, WellStored;
  }

  lemma DeadStep(s: Store, t: Store, op: Op, path: string, a: Authority, g: int)
    requires Stored(s) && Surviving(s, t)
    requires path in s.streams && s.streams[path].meta.writeFence
    requires a in s.streams[path].seals && g <= s.streams[path].seals[a].generation
    ensures forall w :: w in Step(t, op).writes ==> !WriteBelow(w, s.streams[path].meta.incarnation, a, g)
  {
    WritesPassedRung(t, op);
    hide Step, Stored, Surviving;
    forall w | w in Step(t, op).writes && w.incarnation == s.streams[path].meta.incarnation
      ensures !WriteBelow(w, s.streams[path].meta.incarnation, a, g)
    {
      IncarnationPinsPath(s, t, path, w.path);
    }
  }

  ghost predicate IsSealed(s: Store, path: string, a: Authority, g: int) {
    && path in s.streams && s.streams[path].meta.writeFence
    && a in s.streams[path].seals && g <= s.streams[path].seals[a].generation
  }

  /** Seal finality.  Once generation `g` of an authority is sealed on a write-fenced
      stream, no later step of any run (reaping, revoking, granting again, moving the
      clock) accepts a write of that authority at or below `g` to that incarnation. */
  lemma {:induction false} SealedStaysDead(ops: seq<Op>, k: nat, path: string, a: Authority, g: int)
    requires ValidOps(ops) && k <= |ops| && IsSealed(Exec(ops[..k]).store, path, a, g)
    ensures var before := Exec(ops[..k]);
            && before.log <= Exec(ops).log
            && (forall i :: |before.log| <= i < |Exec(ops).log| ==>
                  !WriteBelow(Exec(ops).log[i], before.store.streams[path].meta.incarnation, a, g))
    decreases |ops|
  {
    hide Step, Stored, Surviving, FenceAuthority;
    if k == |ops| {
      assert ops[..k] == ops;
    } else {
      var n := |ops| - 1;
      assert ops[..n][..k] == ops[..k];
      var before, mid := Exec(ops[..k]), Exec(ops[..n]);
      SealedStaysDead(ops[..n], k, path, a, g);
      RunStored(ops[..k]);
      RunSurvives(ops[..n], k);
      DeadStep(before.store, mid.store, ops[n], path, a, g);
      assert Exec(ops).log == mid.log + Step(mid.store, ops[n]).writes;
    }
  }

  /** At every later point of the run the rung turns such a write away as sealed, so not
      even a repeated request of a sealed generation is answered. */
  lemma SealedIsAlwaysRefused(ops: seq<Op>, k: nat, path: string, a: Authority, g: int,
                              f: AppendFence, id: string, epoch: Option<int>, now: int)
    requires ValidOps(ops) && k <= |ops| && IsSealed(Exec(ops[..k]).store, path, a, g)
    requires FenceAuthority(f) == a && f.generation <= g
    ensures var s, t := Exec(ops[..k]).store, Exec(ops).store;
            path in t.streams && t.streams[path].meta.incarnation == s.streams[path].meta.incarnation ==>
              FenceRung(t, path, t.streams[path], Some(f), id, epoch, now).reason == FenceSealed
  {
    hide Step;
    RunSurvives(ops, k);
    var s, t := Exec(ops[..k]).store, Exec(ops).store;
    if path in t.streams && t.streams[path].meta.incarnation == s.streams[path].meta.incarnation {
      assert Evolves(s.streams[path], t.streams[path]);
    }
  }

  /** A seal records where the last fenced write before it ended, unless there was none: every
      write of a sealed generation was accepted before the seal was made, and ended at or
      before that offset. */
  lemma SealFixesLastOffset(ops: seq<Op>, path: string, a: Authority, g: int)
    requires ValidOps(ops) && IsSealed(Exec(ops).store, path, a, g)
    ensures var st := Exec(ops).store.streams[path];
            forall w :: w in Exec(ops).log && WriteBelow(w, st.meta.incarnation, a, g) ==>
              w.end.LessThanOrEqual(st.seals[a].offset)
    ensures exists k: nat :: MadeAfter(Exec(ops).store.streams[path], a, Exec(ops).log, k)
  {
    hide Step, LastFenced;
    RunFences(ops);
    FencesOf(Exec(ops).store, path, Exec(ops).log);
  }

  /** A seal that is made now records the last fenced offset of the run so far, or the tail if
      no fenced write has been accepted. */
  lemma SealRecordsLastFenced(ops: seq<Op>, path: string, f: AppendFence)
    requires ValidOps(ops)
    requires SealStep(Exec(ops).store, path, f).reply.Ok?
          && SealStep(Exec(ops).store, path, f).reply.value.outcome == SealSealed
    ensures path in Exec(ops).store.streams
    ensures var st := Exec(ops).store.streams[path];
            SealStep(Exec(ops).store, path, f).reply.value.finalOffset ==
            match LastFenced(Exec(ops).log, st.meta.incarnation)
            case Some(o) => o
            case None => st.meta.currentOffset
  {
    hide Step, LastFenced, Exec;
    RunFences(ops);
    FencesOf(Exec(ops).store, path, Exec(ops).log);
  }

  /** Where a seal made now would end: the run's last fenced write to the stream, or the tail if
      there was none. */
  ghost function FinalOffset(st: Stream, log: seq<Write>): Offset {
    match LastFenced(log, st.meta.incarnation)
    case Some(o) => o
    case None => st.meta.currentOffset
  }

  /** The stream has its old seals, and perhaps one new one, made from the stream as it was. */
  ghost predicate SealedFrom(st: Stream, st': Stream) {
    && st'.meta.incarnation == st.meta.incarnation
    && (st'.seals != st.seals ==>
          && st.meta.writeFence
          && exists b ::
               b in st'.seals && st'.seals[b].offset == Ending(st) && st'.seals == st.seals[b := st'.seals[b]])
  }

  function Ending(st: Stream): Offset {
    if st.lastFencedOff.Some? then st.lastFencedOff.value else st.meta.currentOffset
  }

  lemma AppendMakesNoSeal(s: Store, path: string, body: Payload, opts: AppendOptions, now: int, p: string)
    requires p in AppendStep(s, path, body, opts, now).store.streams
    ensures p in s.streams && SealedFrom(s.streams[p], AppendStep(s, path, body, opts, now).store.streams[p])
  {
    hide FenceRung, IsExpiredAt, AppendDecision;
  }

  lemma OthersMakeNoSeal(s: Store, op: Op, p: string)
    requires op.Close? || op.CloseProducer? || op.Read? || op.Revoke? || op.Reap?
    requires p in Step(s, op).store.streams
    ensures p in s.streams && SealedFrom(s.streams[p], Step(s, op).store.streams[p])
  {
    hide FenceRung, IsExpiredAt, CloseDecision, ReadGate, FenceAuthority, StaleClaim;
    match op
    case Close(path, fence, now) =>
    case CloseProducer(path, id, epoch, sequence, fence, now) =>
    case _ =>
  }

  lemma GrantMakesSeal(s: Store, path: string, f: AppendFence, now: int, p: string)
    requires p in GrantStep(s, path, f, now).store.streams
    ensures p in s.streams && SealedFrom(s.streams[p], GrantStep(s, path, f, now).store.streams[p])
  {
    hide FenceAuthority, MarkerOf;
    var t := GrantStep(s, path, f, now).store;
    if t != s && p == path && t.streams[p].seals != s.streams[p].seals {
      var b := FenceAuthority(f);
      assert b in t.streams[p].seals && t.streams[p].seals == s.streams[p].seals[b := t.streams[p].seals[b]];
    }
  }

  lemma SealMakesSeal(s: Store, path: string, f: AppendFence, p: string)
    requires p in SealStep(s, path, f).store.streams
    ensures p in s.streams && SealedFrom(s.streams[p], SealStep(s, path, f).store.streams[p])
  {
    hide FenceAuthority, MarkerOf, StaleClaim;
    var t := SealStep(s, path, f).store;
    if t.streams != s.streams && p == path {
      var b := FenceAuthority(f);
      assert b in t.streams[p].seals && t.streams[p].seals == s.streams[p].seals[b := t.streams[p].seals[b]];
    }
  }

  /** A step gives a stream that was there at most one seal, explicitly or by a superseding
      grant, made from the stream as it finds it; a new stream has none. */
  lemma SealsAreMade(s: Store, op: Op, p: string)
    requires p in Step(s, op).store.streams
    ensures var st' := Step(s, op).store.streams[p];
            st'.seals == map[] || (p in s.streams && SealedFrom(s.streams[p], st'))
  {
    hide SealedFrom, CreateStep, DeleteStep, GrantStep, SealStep, AppendStep;
    match op
    case Create(path, opts, idOk, now) => CreateMakesNoSeal(s, path, opts, idOk, now, p);
    case Delete(path) => DeleteMakesNoSeal(s, path, p);
    case Grant(path, f, now) => GrantMakesSeal(s, path, f, now, p);
    case SealClaim(path, f) => SealMakesSeal(s, path, f, p);
    case Append(path, body, opts, now) => AppendMakesNoSeal(s, path, body, opts, now, p);
    case _ => hide Step; OthersMakeNoSeal(s, op, p);
  }

  lemma CreateMakesNoSeal(s: Store, path: string, opts: CreateOptions, idOk: bool, now: int, p: string)
    requires p in CreateStep(s, path, opts, idOk, now).store.streams
    ensures var st' := CreateStep(s, path, opts, idOk, now).store.streams[p];
            st'.seals == map[] || (p in s.streams && SealedFrom(s.streams[p], st'))
  {
    CreateCases(s, path, opts, idOk, now);
    hide CreateStep, PlanOf, InitialFrames, IsExpiredAt;
  }

  lemma DeleteMakesNoSeal(s: Store, path: string, p: string)
    requires p in DeleteStep(s, path).store.streams
    ensures p in s.streams && SealedFrom(s.streams[p], DeleteStep(s, path).store.streams[p])
  {
    CascadeKeeps(s.streams, path);
    hide DeleteWithCascade;
  }

  /** Over every run each seal of a living stream was made at some point of the run, on the
      offset where the last fenced write had ended then, or on the tail it had then. */
  lemma {:induction false} SealsWereMade(ops: seq<Op>, path: string, a: Authority) returns (k: nat)
    requires ValidOps(ops) && path in Exec(ops).store.streams && a in Exec(ops).store.streams[path].seals
    ensures k < |ops| && path in Exec(ops[..k]).store.streams
    ensures var st, st' := Exec(ops[..k]).store.streams[path], Exec(ops).store.streams[path];
            && st.meta.incarnation == st'.meta.incarnation && st.meta.writeFence
            && st'.seals[a].offset == FinalOffset(st, Exec(ops[..k]).log)
    decreases |ops|
  {
    assert ops != [] by { NoStreamsYet(); }
    var n := |ops| - 1;
    hide Step, Stored, FinalOffset, Exec, Ending;
    var s, t := Exec(ops[..n]).store, Exec(ops).store;
    ExecLast(ops);
    SealsAreMade(s, ops[n], path);
    if a in s.streams[path].seals && s.streams[path].seals[a] == t.streams[path].seals[a] {
      k := SealsWereMade(ops[..n], path, a);
      assert ops[..n][..k] == ops[..k];
    } else {
      k := n;
      RunFences(ops[..n]);
      FencesOf(s, path, Exec(ops[..n]).log);
      SettledOffset(s.streams[path], Exec(ops[..n]).log);
    }
  }

  lemma NoStreamsYet()
    ensures Exec([]).store.streams == map[]
  {
  }

  lemma SettledOffset(st: Stream, log: seq<Write>)
    requires Settled(st, log)
    ensures FinalOffset(st, log) == Ending(st)
  {
  }

  lemma ExecLast(ops: seq<Op>)
    requires ops != []
    ensures Exec(ops).store == Step(Exec(ops[..|ops| - 1]).store, ops[|ops| - 1]).store
  {
  }

  /** Sealing a claim that is not stale closes its generation on a write-fenced stream. */
  lemma SealCloses(s: Store, path: string, f: AppendFence)
    requires path in s.streams && s.streams[path].meta.writeFence && f.Complete()
    ensures var e := SealStep(s, path, f);
            var a := FenceAuthority(f);
            && e.reply.Ok? && e.reply.value.outcome in {SealStale, SealSealed, SealAlready}
            && (e.reply.value.outcome == SealStale <==> StaleClaim(MarkerOf(s, path, a), f))
            && (e.reply.value.outcome == SealStale ==> e.store == s)
            && (e.reply.value.outcome != SealStale ==>
                  && path in e.store.streams && a in e.store.streams[path].seals
                  && f.generation <= e.store.streams[path].seals[a].generation
                  && e.reply.value.generation == e.store.streams[path].seals[a].generation
                  && e.reply.value.finalOffset == e.store.streams[path].seals[a].offset
                  && MarkerOf(e.store, path, a).Some? && MarkerOf(e.store, path, a).value.state == Revoked)
  {
  }

  /** A grant that takes over from an older generation closes that generation, and a
      generation once sealed is never granted. */
  lemma GrantSupersedes(s: Store, path: string, f: AppendFence, now: int)
    requires path in s.streams && s.streams[path].meta.writeFence && s.streams[path].meta.incarnation > 0
    ensures var e := GrantStep(s, path, f, now);
            var a := FenceAuthority(f);
            var cur, seal := MarkerOf(s, path, a), SealOf(s.streams[path], a);
            && (e.reply == Ok(true) <==>
                  && f.Complete() && now < f.leaseUntilNs
                  && (seal.Some? ==> seal.value.generation < f.generation)
                  && (cur.Some? ==>
                        || cur.value.generation < f.generation
                        || (cur.value.generation == f.generation && cur.value.state == Live
                            && cur.value.wakeId == f.wakeId && cur.value.holder == f.holder)))
            && (e.reply != Ok(true) ==> e.store == s)
            && (e.reply == Ok(true) ==>
                  && Holds(MarkerOf(e.store, path, a), f, s.streams[path].meta.incarnation, now)
                  && (cur.Some? && cur.value.generation < f.generation ==>
                        && a in e.store.streams[path].seals
                        && cur.value.generation <= e.store.streams[path].seals[a].generation < f.generation))
  {
  }
}
