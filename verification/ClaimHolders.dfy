/** Who may write under a claim marker: while a marker is not reaped, its authority's
    accepted writes move through generations in order, one holder per generation. */
module ClaimHolders {
  import opened Prelude
  import opened Producers
  import opened WriteFences
  import opened StoreModel
  import opened StoreOps
  import opened StoreInvariants
  import opened SealFinality

  /** A fenced write of authority `a` to `path`. */
  ghost predicate ClaimWrite(w: Write, path: string, a: Authority) {
    w.path == path && w.fence.Some? && FenceAuthority(w.fence.value) == a
  }

  /** A claim at (g, wake, holder) may be followed by one at (g', wake', holder'). */
  ghost predicate Precedes(g: int, wake: string, holder: string, g': int, wake': string, holder': string) {
    g < g' || (g == g' && wake == wake' && holder == holder')
  }

  ghost predicate FenceBefore(f: AppendFence, f': AppendFence) {
    Precedes(f.generation, f.wakeId, f.holder, f'.generation, f'.wakeId, f'.holder)
  }

  ghost predicate MarkerCovers(f: AppendFence, m: Option<Marker>) {
    m.Some? && Precedes(f.generation, f.wakeId, f.holder, m.value.generation, m.value.wakeId, m.value.holder)
  }

  /** No step but its own reaping takes a marker back to an older claim, or to another
      claim of the same generation. */
  lemma MarkerAdvances(s: Store, op: Op, path: string, a: Authority)
    requires op != Reap(path, a)
    ensures var m, m' := MarkerOf(s, path, a), MarkerOf(Step(s, op).store, path, a);
            m.Some? ==> m'.Some? && Precedes(m.value.generation, m.value.wakeId, m.value.holder,
                                             m'.value.generation, m'.value.wakeId, m'.value.holder)
  {
    if op.Create? || op.Delete? || op.Append? || op.Close? || op.CloseProducer? || op.Read? {
      hide Step;
      MarkersStay(s, op);
    } else {
      hide Sealed, FenceAuthority;
    }
  }

  ghost predicate HolderInv(s: Store, log: seq<Write>, path: string, a: Authority) {
    && (forall w :: w in log && ClaimWrite(w, path, a) ==> MarkerCovers(w.fence.value, MarkerOf(s, path, a)))
    && (forall i, j :: 0 <= i < j < |log| && ClaimWrite(log[i], path, a) && ClaimWrite(log[j], path, a) ==>
          FenceBefore(log[i].fence.value, log[j].fence.value))
  }

  lemma HolderStep(s: Store, op: Op, log: seq<Write>, path: string, a: Authority)
    requires HolderInv(s, log, path, a) && op != Reap(path, a)
    ensures HolderInv(Step(s, op).store, log + Step(s, op).writes, path, a)
  {
    MarkerAdvances(s, op, path, a);
    WritesPassedRung(s, op);
    hide Step, FenceAuthority;
    var writes := Step(s, op).writes;
    var longer := log + writes;
    forall w | w in longer && ClaimWrite(w, path, a)
      ensures MarkerCovers(w.fence.value, MarkerOf(s, path, a))
      ensures MarkerCovers(w.fence.value, MarkerOf(Step(s, op).store, path, a))
    {
      if w !in log {
        assert PassedRung(s, op, w);
      }
    }
    forall i, j | 0 <= i < j < |longer| && ClaimWrite(longer[i], path, a) && ClaimWrite(longer[j], path, a)
      ensures FenceBefore(longer[i].fence.value, longer[j].fence.value)
    {
      if j >= |log| {
        assert longer[i] in log && PassedRung(s, op, longer[j]);
      }
    }
  }

  /** Single holder.  In any run that never reaps the marker of one path and authority,
      the generations of its accepted writes never go back, and all accepted writes at
      one generation carry one wake id and one holder, even across a delete and re-create
      of the stream. */
  lemma {:induction false} SingleHolder(ops: seq<Op>, path: string, a: Authority)
    requires Reap(path, a) !in ops
    ensures HolderInv(Exec(ops).store, Exec(ops).log, path, a)
  {
    if ops != [] {
      hide Step, HolderInv;
      var n := |ops| - 1;
      SingleHolder(ops[..n], path, a);
      HolderStep(Exec(ops[..n]).store, ops[n], Exec(ops[..n]).log, path, a);
    }
  }

  /** Why reaping is excluded: once the marker is gone only a seal holds a generation closed,
      so any other holder is granted a generation that was not sealed. */
  lemma ReapReopensGeneration(s: Store, path: string, f: AppendFence, now: int)
    requires path in s.streams && s.streams[path].meta.writeFence && s.streams[path].meta.incarnation > 0
    ensures var a := FenceAuthority(f);
            GrantStep(ReapStep(s, path, a), path, f, now).reply == Ok(true) <==>
              && f.Complete() && now < f.leaseUntilNs
              && (SealOf(s.streams[path], a).Some? ==> SealOf(s.streams[path], a).value.generation < f.generation)
  {
    var a := FenceAuthority(f);
    var s' := ReapStep(s, path, a);
    assert s'.streams == s.streams && MarkerOf(s', path, a).None?;
    hide FenceAuthority, ReapStep;
    GrantSupersedes(s', path, f, now);
  }

  // ---- producers bound to the fence ----

  /** Each fenced write of a write-fenced stream left its producer bound. */
  ghost predicate BoundInv(s: Store, log: seq<Write>) {
    && (forall w :: w in log ==> w.incarnation < s.nextIncarnation)
    && (forall p, w :: p in s.streams && s.streams[p].meta.writeFence && w in log
                       && FencedWrite(w, s.streams[p].meta.incarnation) ==>
          w.producer.Some? && w.producer.value.id in s.streams[p].bound)
  }

  /** The write of a step leaves its producer bound. */
  lemma WriteBinds(s: Store, op: Op, w: Write)
    requires w in Step(s, op).writes && w.fence.Some?
    ensures PassedRung(s, op, w)
    ensures s.streams[op.path].meta.writeFence ==>
              && op.path in Step(s, op).store.streams
              && w.producer.Some? && w.producer.value.id in Step(s, op).store.streams[op.path].bound
  {
    WritesPassedRung(s, op);
    hide ValidateProducer, DeleteWithCascade, IsExpiredAt, FenceRung, FramesOf;
    match op
    case Create(path, opts, idOk, now) => CreateCases(s, path, opts, idOk, now); hide CreateStep;
    case _ =>
  }

  lemma BoundStep(s: Store, op: Op, log: seq<Write>)
    requires Stored(s) && BoundInv(s, log) && ValidOp(op)
    ensures BoundInv(Step(s, op).store, log + Step(s, op).writes)
  {
    hide Step, WellStored, FenceAuthority;
    StepKeeps(s, op);
    WritesPassedRung(s, op);
    var s' := Step(s, op).store;
    forall w | w in Step(s, op).writes && w.fence.Some?
      ensures s.streams[op.path].meta.writeFence ==>
                && op.path in s'.streams && w.producer.Some? && w.producer.value.id in s'.streams[op.path].bound
    {
      WriteBinds(s, op, w);
    }
    hide Stored, Surviving;
    forall p, w | p in s'.streams && s'.streams[p].meta.writeFence && w in log + Step(s, op).writes
                  && FencedWrite(w, s'.streams[p].meta.incarnation)
      ensures w.producer.Some? && w.producer.value.id in s'.streams[p].bound
    {
      SurvivorOf(s, s', p, w);
    }
  }

  /** A stream that a write older than the step names was there before the step. */
  lemma SurvivorOf(s: Store, s': Store, p: string, w: Write)
    requires Stored(s) && Surviving(s, s') && p in s'.streams
    requires w.incarnation == s'.streams[p].meta.incarnation < s.nextIncarnation
    ensures p in s.streams && s.streams[p].meta.incarnation == w.incarnation && Evolves(s.streams[p], s'.streams[p])
    ensures w.path in s.streams && s.streams[w.path].meta.incarnation == w.incarnation ==> w.path == p
  {
    hide Evolves, WellStored;
  }

  lemma {:induction false} RunBinds(ops: seq<Op>)
    requires ValidOps(ops)
    ensures BoundInv(Exec(ops).store, Exec(ops).log)
  {
    if ops != [] {
      hide Step, BoundInv, Stored;
      var n := |ops| - 1;
      RunStored(ops[..n]);
      RunBinds(ops[..n]);
      BoundStep(Exec(ops[..n]).store, ops[n], Exec(ops[..n]).log);
    }
  }

  /** A producer that ever wrote under the fence is closed to open-class writers for the
      rest of the stream's life: the rung refuses every later open write that names it. */
  lemma BoundProducerIsClosed(ops: seq<Op>, path: string, w: Write, epoch: int, now: int)
    requires ValidOps(ops) && path in Exec(ops).store.streams
    requires var st := Exec(ops).store.streams[path];
             st.meta.writeFence && w in Exec(ops).log && FencedWrite(w, st.meta.incarnation)
    ensures var s := Exec(ops).store;
            && w.producer.Some?
            && FenceRung(s, path, s.streams[path], None, w.producer.value.id, Some(epoch), now).reason == FenceBound
  {
    hide Step;
    RunBinds(ops);
    RunStored(ops);
    var st := Exec(ops).store.streams[path];
    assert WellStored(st);
    assert st.bound[w.producer.value.id] > 0;
  }
}
