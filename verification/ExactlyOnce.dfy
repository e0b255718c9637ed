/** Idempotent producers over whole runs (store/producer.go, store/memory_store.go;
    section 5.2.1 of the Durable Streams protocol). */
module ExactlyOnce {
  import opened Prelude
  import opened Producers
  import opened WriteFences
  import opened StoreModel
  import opened StoreOps
  import opened StoreInvariants
  import opened SealFinality

  ghost predicate ByProducer(w: Write, incarnation: nat, id: string) {
    w.incarnation == incarnation && w.producer.Some? && w.producer.value.id == id
  }

  /** What one producer had accepted on one stream incarnation, oldest first. */
  ghost function Marks(log: seq<Write>, incarnation: nat, id: string): seq<Mark> {
    if log == [] then []
    else
      var rest, w := Marks(log[..|log| - 1], incarnation, id), log[|log| - 1];
      if ByProducer(w, incarnation, id) then rest + [w.producer.value.mark] else rest
  }

  ghost predicate ExactInv(s: Store, log: seq<Write>) {
    && (forall w :: w in log ==> w.incarnation < s.nextIncarnation)
    && (forall incarnation: nat, id: string :: Orderly(Marks(log, incarnation, id)))
    && (forall p, id :: p in s.streams ==>
          Tracks(ProducerOf(s.streams[p].meta, id), Marks(log, s.streams[p].meta.incarnation, id)))
  }

  lemma {:induction false} MarksOfFresh(log: seq<Write>, incarnation: nat, id: string)
    requires forall w :: w in log ==> w.incarnation != incarnation
    ensures Marks(log, incarnation, id) == []
  {
    if log != [] {
      MarksOfFresh(log[..|log| - 1], incarnation, id);
    }
  }

  /** A step either persists the state of the request it accepted, or no producer state. */
  ghost predicate PersistsAccepted(s: Store, s': Store, w: Write) {
    && w.path in s.streams && w.path in s'.streams
    && w.incarnation == s.streams[w.path].meta.incarnation == s'.streams[w.path].meta.incarnation
    && var before, after := s.streams[w.path].meta.producers, s'.streams[w.path].meta.producers;
       match w.producer
       case None => after == before
       case Some(pm) =>
         exists now, p ::
           && ValidateProducer(ProducerOf(s.streams[w.path].meta, pm.id), pm.mark.epoch, pm.mark.sequence, now) ==
               Accept(p)
           && after == before[pm.id := p]
  }

  /** Streams that survive keep their producer state; new ones have none. */
  ghost predicate SameProducers(s: Store, s': Store) {
    forall p :: p in s'.streams ==>
      || (&& p in s.streams && s.streams[p].meta.incarnation == s'.streams[p].meta.incarnation
          && s.streams[p].meta.producers == s'.streams[p].meta.producers)
      || (s.nextIncarnation <= s'.streams[p].meta.incarnation && s'.streams[p].meta.producers == map[])
  }

  /** What a step does to producers: nothing, or exactly what its one write says. */
  ghost predicate ProducersFollow(s: Store, s': Store, writes: seq<Write>) {
    && s.nextIncarnation <= s'.nextIncarnation
    && (if writes == [] then SameProducers(s, s')
        else
          && |writes| == 1 && PersistsAccepted(s, s', writes[0])
          && s'.streams == s.streams[writes[0].path := s'.streams[writes[0].path]])
  }

  lemma AppendFollows(s: Store, path: string, body: Payload, opts: AppendOptions, now: int)
    ensures var e := AppendStep(s, path, body, opts, now); ProducersFollow(s, e.store, e.writes)
  {
    hide FenceRung, IsExpiredAt, FramesOf;
    var e := AppendStep(s, path, body, opts, now);
    if e.writes != [] && e.writes[0].producer.Some? {
      var v := AppendDecision(s.streams[path].meta.(lastAccessedAt := now), body, opts, now);
      assert ValidateProducer(ProducerOf(s.streams[path].meta, opts.producerId),
                              opts.producerEpoch.value, opts.producerSeq.value, now / NS) == Accept(v.producer.value);
    }
  }

  lemma CloseProducerFollows(s: Store, path: string, id: string, epoch: int, sequence: int,
                             fence: Option<AppendFence>, now: int)
    ensures var e := CloseProducerStep(s, path, id, epoch, sequence, fence, now); ProducersFollow(s, e.store, e.writes)
  {
    hide FenceRung, IsExpiredAt;
    var e := CloseProducerStep(s, path, id, epoch, sequence, fence, now);
    if e.writes != [] {
      var v := ValidateProducer(ProducerOf(s.streams[path].meta, id), epoch, sequence, now / NS);
      assert v == Accept(v.state);
    }
  }

  lemma DeleteFollows(s: Store, path: string)
    ensures var e := DeleteStep(s, path); ProducersFollow(s, e.store, e.writes)
  {
    CascadeKeeps(s.streams, path);
    hide DeleteWithCascade;
  }

  lemma CreateFollows(s: Store, path: string, opts: CreateOptions, idOk: bool, now: int)
    ensures var e := CreateStep(s, path, opts, idOk, now); ProducersFollow(s, e.store, e.writes)
  {
    CreateCases(s, path, opts, idOk, now);
    hide CreateStep, PlanOf, InitialFrames, IsExpiredAt;
  }

  lemma CloseFollows(s: Store, path: string, fence: Option<AppendFence>, now: int)
    ensures var e := CloseStep(s, path, fence, now); ProducersFollow(s, e.store, e.writes)
  {
    hide FenceRung, IsExpiredAt;
  }

  lemma ReadFollows(s: Store, path: string, snapshot: Option<Snapshot>, noTouch: bool, now: int)
    ensures ProducersFollow(s, ReadStep(s, path, snapshot, noTouch, now), [])
  {
    hide IsExpiredAt, ReadGate;
  }

  /** Rewriting one stream without touching its producers. */
  lemma LocalFollows(s: Store, s': Store, path: string)
    requires s'.nextIncarnation == s.nextIncarnation
    requires path in s.streams && path in s'.streams && s'.streams == s.streams[path := s'.streams[path]]
    requires s.streams[path].meta.incarnation == s'.streams[path].meta.incarnation
    requires s.streams[path].meta.producers == s'.streams[path].meta.producers
    ensures ProducersFollow(s, s', [])
  {
  }

  lemma GrantFollows(s: Store, path: string, f: AppendFence, now: int)
    ensures var e := GrantStep(s, path, f, now); ProducersFollow(s, e.store, e.writes)
  {
    hide FenceAuthority, MarkerOf, SealOf;
    var s' := GrantStep(s, path, f, now).store;
    if s' != s {
      hide ProducersFollow;
      LocalFollows(s, s', path);
    }
  }

  lemma SealFollows(s: Store, path: string, f: AppendFence)
    ensures var e := SealStep(s, path, f); ProducersFollow(s, e.store, e.writes)
  {
    hide FenceAuthority, MarkerOf, StaleClaim;
    var s' := SealStep(s, path, f).store;
    if s'.streams != s.streams {
      hide ProducersFollow;
      LocalFollows(s, s', path);
    }
  }

  lemma StepFollows(s: Store, op: Op)
    ensures ProducersFollow(s, Step(s, op).store, Step(s, op).writes)
  {
    match op
    case Create(path, opts, idOk, now) => hide CreateStep; CreateFollows(s, path, opts, idOk, now);
    case Delete(path) => hide DeleteStep; DeleteFollows(s, path);
    case Append(path, body, opts, now) => hide AppendStep; AppendFollows(s, path, body, opts, now);
    case CloseProducer(path, id, epoch, sequence, fence, now) =>
      hide CloseProducerStep;
      CloseProducerFollows(s, path, id, epoch, sequence, fence, now);
    case Close(path, fence, now) => hide CloseStep; CloseFollows(s, path, fence, now);
    case Read(path, snapshot, noTouch, now) => hide ReadStep; ReadFollows(s, path, snapshot, noTouch, now);
    case Grant(path, f, now) => hide GrantStep; GrantFollows(s, path, f, now);
    case SealClaim(path, f) => hide SealStep; SealFollows(s, path, f);
    case Revoke(_, _) =>
    case Reap(_, _) =>
  }

  /** One more write: its producer's marks grow by its mark, all others stay. */
  lemma ExactWrite(s: Store, s': Store, log: seq<Write>, w: Write)
    requires Stored(s) && ExactInv(s, log) && ProducersFollow(s, s', [w])
    ensures ExactInv(s', log + [w])
  {
    var longer := log + [w];
    assert longer[..|log|] == log;
    forall incarnation: nat, id: string ensures Orderly(Marks(longer, incarnation, id)) {
      if ByProducer(w, incarnation, id) {
        NextMark(s, s', log, w);
      }
    }
    forall p, id | p in s'.streams
      ensures Tracks(ProducerOf(s'.streams[p].meta, id), Marks(longer, s'.streams[p].meta.incarnation, id))
    {
      if ByProducer(w, s'.streams[p].meta.incarnation, id) {
        NextMark(s, s', log, w);
        assert p == w.path;
      }
    }
  }

  lemma NextMark(s: Store, s': Store, log: seq<Write>, w: Write)
    requires Stored(s) && ExactInv(s, log) && ProducersFollow(s, s', [w]) && w.producer.Some?
    ensures var id := w.producer.value.id;
            var marks := Marks(log, w.incarnation, id) + [w.producer.value.mark];
            && Orderly(marks) && Tracks(ProducerOf(s'.streams[w.path].meta, id), marks)
  {
    var pm, m := w.producer.value, s.streams[w.path].meta;
    var now, p :|
      && ValidateProducer(ProducerOf(m, pm.id), pm.mark.epoch, pm.mark.sequence, now) == Accept(p)
      && s'.streams[w.path].meta.producers == m.producers[pm.id := p];
    AcceptedExactlyWhenNext(ProducerOf(m, pm.id), Marks(log, w.incarnation, pm.id), pm.mark.epoch, pm.mark.sequence,
      now);
  }

  lemma ExactQuiet(s: Store, s': Store, log: seq<Write>)
    requires ExactInv(s, log) && ProducersFollow(s, s', [])
    ensures ExactInv(s', log + [])
  {
    assert log + [] == log;
    forall p, id | p in s'.streams
      ensures Tracks(ProducerOf(s'.streams[p].meta, id), Marks(log, s'.streams[p].meta.incarnation, id))
    {
      if s.nextIncarnation <= s'.streams[p].meta.incarnation {
        MarksOfFresh(log, s'.streams[p].meta.incarnation, id);
      }
    }
  }

  lemma {:induction false} RunExact(ops: seq<Op>)
    requires ValidOps(ops)
    ensures ExactInv(Exec(ops).store, Exec(ops).log)
  {
    if ops != [] {
      hide Step, ExactInv, Stored, ProducersFollow;
      var n := |ops| - 1;
      var before := Exec(ops[..n]);
      RunStored(ops[..n]);
      RunExact(ops[..n]);
      StepFollows(before.store, ops[n]);
      WritesPassedRung(before.store, ops[n]);
      var writes := Step(before.store, ops[n]).writes;
      if writes == [] {
        ExactQuiet(before.store, Exec(ops).store, before.log);
      } else {
        assert writes == [writes[0]];
        ExactWrite(before.store, Exec(ops).store, before.log, writes[0]);
      }
    }
  }

  /** Exactly once.  Over any run of retried, duplicated or reordered requests, each later
      accepted write of one producer on one stream is strictly ahead of each earlier one,
      so no (epoch, sequence) pair is accepted twice, and the accepted pairs run 0, 1,
      2, ... within an epoch, epochs never going back. */
  lemma AcceptedExactlyOnce(ops: seq<Op>, incarnation: nat, id: string)
    requires ValidOps(ops)
    ensures var log := Exec(ops).log;
            forall i, j ::
              0 <= i < j < |log| && ByProducer(log[i], incarnation, id) && ByProducer(log[j], incarnation, id) ==>
              var a, b := log[i].producer.value.mark, log[j].producer.value.mark;
              a.epoch < b.epoch || (a.epoch == b.epoch && a.sequence < b.sequence)
    ensures Orderly(Marks(Exec(ops).log, incarnation, id))
  {
    hide Step;
    RunExact(ops);
    var log := Exec(ops).log;
    var marks := Marks(log, incarnation, id);
    forall i, j | 0 <= i < j < |log| && ByProducer(log[i], incarnation, id) && ByProducer(log[j], incarnation, id)
      ensures var a, b := log[i].producer.value.mark, log[j].producer.value.mark;
              a.epoch < b.epoch || (a.epoch == b.epoch && a.sequence < b.sequence)
    {
      var m, n := MarkIndex(log, incarnation, id, i), MarkIndex(log, incarnation, id, j);
      MarkIndexRises(log, incarnation, id, i, j);
      OrderlyStrict(marks, m, n);
    }
  }

  /** Where the mark of write `i` stands among its producer's marks. */
  ghost function MarkIndex(log: seq<Write>, incarnation: nat, id: string, i: nat): (k: nat)
    requires i < |log| && ByProducer(log[i], incarnation, id)
    ensures k < |Marks(log, incarnation, id)|
    ensures Marks(log, incarnation, id)[k] == log[i].producer.value.mark
  {
    if i == |log| - 1 then |Marks(log[..i], incarnation, id)|
    else MarkIndex(log[..|log| - 1], incarnation, id, i)
  }

  lemma {:induction false} MarkIndexRises(log: seq<Write>, incarnation: nat, id: string, i: nat, j: nat)
    requires i < j < |log| && ByProducer(log[i], incarnation, id) && ByProducer(log[j], incarnation, id)
    ensures MarkIndex(log, incarnation, id, i) < MarkIndex(log, incarnation, id, j)
  {
    if j < |log| - 1 {
      MarkIndexRises(log[..|log| - 1], incarnation, id, i, j);
    }
  }

  /** Data and producer state change together or not at all: a producer's append either
      leaves messages, tail, producers and closedness as they were, or stores all its
      frames and records exactly its (epoch, sequence). */
  lemma AppendAllOrNothing(s: Store, path: string, body: Payload, opts: AppendOptions, now: int)
    requires path in s.streams && ValidOp(Append(path, body, opts, now)) && opts.HasAllProducerHeaders()
    ensures var e := AppendStep(s, path, body, opts, now);
            var st, st' := s.streams[path], e.store.streams[path];
            || (e.writes == [] && st' == st.(meta := st.meta.(lastAccessedAt := st'.meta.lastAccessedAt)))
            || (exists frames ::
                  && frames != [] && FramesOf(st.meta.contentType, body) == Ok(frames)
                  && e.reply.err.None? && e.reply.result.producerResult == Accepted
                  && st'.messages == st.messages + Laid(st.meta.currentOffset, frames)
                  && st'.meta.currentOffset == st.meta.currentOffset.Add(TotalLength(frames))
                  && st'.meta.producers.Keys == st.meta.producers.Keys + {opts.producerId}
                  && st'.meta.producers[opts.producerId].epoch == opts.producerEpoch.value
                  && st'.meta.producers[opts.producerId].lastSeq == opts.producerSeq.value
                  && (forall id :: id in st.meta.producers && id != opts.producerId ==>
                        st'.meta.producers[id] == st.meta.producers[id]))
  {
    hide FenceRung, IsExpiredAt;
    var e := AppendStep(s, path, body, opts, now);
    if e.writes != [] {
      var m := s.streams[path].meta.(lastAccessedAt := now);
      CommittedFrames(m, body, opts, now);
      var frames := FramesOf(m.contentType, body).value;
      assert AppendDecision(m, body, opts, now).frames == frames;
    }
  }
}
