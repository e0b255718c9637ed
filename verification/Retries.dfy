/** What a producer is told when it sends a request again (store/memory_store.go:449-750,
    store/producer.go; section 5.2.1 of the Durable Streams protocol). */
module Retries {
  import opened Prelude
  import opened Producers
  import opened WriteFences
  import opened StoreModel
  import opened StoreOps
  import opened StoreInvariants
  import opened SealFinality
  import opened WriteAnswers
  import opened ExactlyOnce

  /** The answer that the producer's verdict calls for. */
  ghost predicate AnswersVerdict(r: AppendReply, v: Verdict) {
    match v
    case Repeat(last) => r.result.producerResult == Duplicate && r.err.None? && r.result.lastSeq == last
    case Refuse(why) => r.result.producerResult != Duplicate && r.err == Some(ProducerRefused(why))
    case Accept(_) => r.result.producerResult != Duplicate
  }

  /** The answer to the request `mark` of a producer whose accepted requests are `marks`. */
  ghost predicate AnswersHistory(r: AppendReply, marks: seq<Mark>, mark: Mark) {
    if marks == [] then
      && r.result.producerResult != Duplicate
      && (mark.sequence != 0 ==> r.err == Some(ProducerRefused(SeqGap(0, mark.sequence))))
    else
      var last := marks[|marks| - 1];
      && (r.result.producerResult == Duplicate <==> mark.epoch == last.epoch && mark.sequence <= last.sequence)
      && (r.result.producerResult == Duplicate ==> r.err.None? && r.result.lastSeq == last.sequence)
      && (mark.epoch < last.epoch ==> r.err == Some(ProducerRefused(StaleEpoch(last.epoch))))
      && (mark.epoch > last.epoch && mark.sequence != 0 ==> r.err == Some(ProducerRefused(InvalidEpochSeq)))
      && (mark.epoch == last.epoch && mark.sequence > last.sequence + 1 ==>
            r.err == Some(ProducerRefused(SeqGap(last.sequence + 1, mark.sequence))))
  }

  lemma VerdictIsHistory(r: AppendReply, state: Option<ProducerState>, marks: seq<Mark>, mark: Mark, now: int)
    requires Tracks(state, marks) && Orderly(marks)
    requires AnswersVerdict(r, ValidateProducer(state, mark.epoch, mark.sequence, now))
    ensures AnswersHistory(r, marks, mark)
  {
    VerdictFromHistory(state, marks, mark.epoch, mark.sequence, now);
    hide ValidateProducer, Tracks, Orderly;
  }

  /** On an open stream the answer follows the producer's verdict. */
  lemma AnswerFollowsVerdict(s: Store, path: string, body: Payload, opts: AppendOptions, now: int)
    requires Admitted(s, path, opts, now) && ByProducerRequest(opts)
    requires !s.streams[path].meta.closed && !WrongType(s.streams[path].meta, opts)
    ensures path in s.streams
    ensures AnswersVerdict(AppendStep(s, path, body, opts, now).reply, RequestVerdict(s.streams[path].meta, opts, now))
  {
    if Storable(s.streams[path].meta, body, opts, now) {
      AppendStored(s, path, body, opts, now);
    } else {
      AppendNotStored(s, path, body, opts, now);
    }
    hide AppendStep, Admitted, ValidateProducer, WrongType, Conflicts, BadJson;
  }

  /** Over every run, an append to an open stream is told exactly what its producer's accepted
      requests on that stream incarnation say of it. */
  lemma RetriesFollowTheLog(ops: seq<Op>, path: string, body: Payload, opts: AppendOptions, now: int)
    requires ValidOps(ops) && Admitted(Exec(ops).store, path, opts, now) && ByProducerRequest(opts)
    requires var m := Exec(ops).store.streams[path].meta; !m.closed && !WrongType(m, opts)
    ensures var m := Exec(ops).store.streams[path].meta;
            AnswersHistory(AppendStep(Exec(ops).store, path, body, opts, now).reply,
                           Marks(Exec(ops).log, m.incarnation, opts.producerId),
                           Mark(opts.producerEpoch.value, opts.producerSeq.value))
  {
    hide Exec, Marks, ValidateProducer, Admitted, AppendStep, WrongType, AnswersVerdict, AnswersHistory, Tracks,
        Orderly;
    AnswerFollowsVerdict(Exec(ops).store, path, body, opts, now);
    var m := Exec(ops).store.streams[path].meta;
    RunExact(ops);
    VerdictIsHistory(AppendStep(Exec(ops).store, path, body, opts, now).reply, ProducerOf(m, opts.producerId),
      Marks(Exec(ops).log, m.incarnation, opts.producerId), Mark(opts.producerEpoch.value, opts.producerSeq.value),
      now / NS);
  }

  /** Each stream that a producer's request closed has that request among its accepted ones. */
  ghost predicate ClosersInv(s: Store, log: seq<Write>) {
    forall p :: p in s.streams && s.streams[p].meta.closedBy.Some? ==>
      var m := s.streams[p].meta;
      Mark(m.closedBy.value.epoch, m.closedBy.value.sequence) in Marks(log, m.incarnation, m.closedBy.value.producerId)
  }

  /** The write is the request that closed the stream. */
  ghost predicate Closes(w: Write, m: Metadata) {
    && m.closedBy.Some? && w.incarnation == m.incarnation
    && w.producer == Some(ProducerMark(m.closedBy.value.producerId,
                                       Mark(m.closedBy.value.epoch, m.closedBy.value.sequence)))
  }

  /** A step leaves the closer of a stream alone, or accepts it as its one write. */
  ghost predicate CloserKept(s: Store, s': Store, writes: seq<Write>, p: string)
    requires p in s'.streams
  {
    var m' := s'.streams[p].meta;
    || (p in s.streams && s.streams[p].meta.incarnation == m'.incarnation && s.streams[p].meta.closedBy == m'.closedBy)
    || m'.closedBy.None?
    || (writes != [] && Closes(writes[0], m'))
  }

  lemma AppendCloser(s: Store, path: string, body: Payload, opts: AppendOptions, now: int, p: string)
    requires p in AppendStep(s, path, body, opts, now).store.streams
    ensures var e := AppendStep(s, path, body, opts, now); CloserKept(s, e.store, e.writes, p)
  {
    if !Admitted(s, path, opts, now) {
      AppendTurnedAway(s, path, body, opts, now);
    } else if Storable(s.streams[path].meta, body, opts, now) {
      AppendStored(s, path, body, opts, now);
    } else {
      AppendNotStored(s, path, body, opts, now);
    }
    hide AppendStep, Admitted, Storable, FramesFor, Laid;
  }

  lemma ProducerCloser(s: Store, path: string, id: string, epoch: int, sequence: int, fence: Option<AppendFence>,
                       now: int, p: string)
    requires p in CloseProducerStep(s, path, id, epoch, sequence, fence, now).store.streams
    ensures var e := CloseProducerStep(s, path, id, epoch, sequence, fence, now); CloserKept(s, e.store, e.writes, p)
  {
    if CloseAdmitted(s, path, id, epoch, fence, now) {
      ProducerCloseAnswers(s, path, id, epoch, sequence, fence, now);
    } else {
      ProducerCloseTurnedAway(s, path, id, epoch, sequence, fence, now);
    }
    hide CloseProducerStep, CloseAdmitted, ProducerVerdict;
  }

  lemma OthersCloser(s: Store, op: Op, p: string)
    requires op.Close? || op.Read? || op.Grant? || op.Revoke? || op.SealClaim? || op.Reap?
    requires p in Step(s, op).store.streams
    ensures CloserKept(s, Step(s, op).store, Step(s, op).writes, p)
  {
    hide FenceRung, IsExpiredAt, ReadGate, FenceAuthority, StaleClaim, MarkerOf, SealOf;
    match op
    case Close(path, fence, now) =>
    case _ =>
  }

  lemma CloserStep(s: Store, op: Op, p: string)
    requires p in Step(s, op).store.streams
    ensures CloserKept(s, Step(s, op).store, Step(s, op).writes, p)
  {
    hide CreateStep, DeleteStep, AppendStep, CloseStep, CloseProducerStep, ReadStep, GrantStep, SealStep, CloserKept;
    match op
    case Create(path, opts, idOk, now) => CreateCloser(s, path, opts, idOk, now, p);
    case Delete(path) => DeleteCloser(s, path, p);
    case Append(path, body, opts, now) => AppendCloser(s, path, body, opts, now, p);
    case CloseProducer(path, id, epoch, sequence, fence, now) =>
      ProducerCloser(s, path, id, epoch, sequence, fence, now, p);
    case _ => OthersCloser(s, op, p);
  }

  lemma CreateCloser(s: Store, path: string, opts: CreateOptions, idOk: bool, now: int, p: string)
    requires p in CreateStep(s, path, opts, idOk, now).store.streams
    ensures CloserKept(s, CreateStep(s, path, opts, idOk, now).store, [], p)
    ensures CreateStep(s, path, opts, idOk, now).writes == []
  {
    CreateCases(s, path, opts, idOk, now);
    hide CreateStep, PlanOf, InitialFrames, IsExpiredAt;
  }

  lemma DeleteCloser(s: Store, path: string, p: string)
    requires p in DeleteStep(s, path).store.streams
    ensures CloserKept(s, DeleteStep(s, path).store, DeleteStep(s, path).writes, p)
  {
    CascadeKeeps(s.streams, path);
    hide DeleteWithCascade;
  }

  lemma MarkedWrite(log: seq<Write>, writes: seq<Write>, incarnation: nat, id: string)
    requires |writes| <= 1
    ensures Marks(log, incarnation, id) <= Marks(log + writes, incarnation, id)
    ensures writes != [] && ByProducer(writes[0], incarnation, id) ==>
              writes[0].producer.value.mark in Marks(log + writes, incarnation, id)
  {
    if writes == [] {
      assert log + writes == log;
    } else {
      assert (log + writes)[..|log|] == log;
    }
  }

  lemma {:induction false} RunClosers(ops: seq<Op>)
    ensures ClosersInv(Exec(ops).store, Exec(ops).log)
  {
    if ops != [] {
      hide Step, Marks;
      var n := |ops| - 1;
      var before, op := Exec(ops[..n]), ops[n];
      RunClosers(ops[..n]);
      WritesPassedRung(before.store, op);
      var writes, s' := Step(before.store, op).writes, Exec(ops).store;
      forall p | p in s'.streams && s'.streams[p].meta.closedBy.Some?
        ensures var m := s'.streams[p].meta;
                Mark(m.closedBy.value.epoch, m.closedBy.value.sequence) in
                  Marks(Exec(ops).log, m.incarnation, m.closedBy.value.producerId)
      {
        CloserStep(before.store, op, p);
        var m := s'.streams[p].meta;
        MarkedWrite(before.log, writes, m.incarnation, m.closedBy.value.producerId);
      }
    }
  }

  /** A duplicate was accepted before.  Whatever the run, an append that is answered as a duplicate
      names a request of its producer that the log of this stream incarnation holds. */
  lemma DuplicateWasAccepted(ops: seq<Op>, path: string, body: Payload, opts: AppendOptions, now: int)
    requires ValidOps(ops) && opts.producerSeq.Some? && 0 <= opts.producerSeq.value
    requires AppendStep(Exec(ops).store, path, body, opts, now).reply.result.producerResult == Duplicate
    ensures path in Exec(ops).store.streams && opts.producerEpoch.Some?
    ensures Mark(opts.producerEpoch.value, opts.producerSeq.value) in
            Marks(Exec(ops).log, Exec(ops).store.streams[path].meta.incarnation, opts.producerId)
  {
    var s := Exec(ops).store;
    DuplicateCases(s, path, body, opts, now);
    hide Exec, AppendStep, Marks;
    var m := s.streams[path].meta;
    if m.closed {
      RunClosers(ops);
    } else {
      RunExact(ops);
      RepeatedIffAccepted(ProducerOf(m, opts.producerId), Marks(Exec(ops).log, m.incarnation, opts.producerId),
        opts.producerEpoch.value, opts.producerSeq.value, now / NS);
    }
  }

  /** When an append is answered as a duplicate. */
  lemma DuplicateCases(s: Store, path: string, body: Payload, opts: AppendOptions, now: int)
    requires AppendStep(s, path, body, opts, now).reply.result.producerResult == Duplicate
    ensures Admitted(s, path, opts, now) && ByProducerRequest(opts)
    ensures var m := s.streams[path].meta;
            if m.closed then ClosedIt(m, opts) else RequestVerdict(m, opts, now).Repeat?
  {
    if !Admitted(s, path, opts, now) {
      AppendTurnedAway(s, path, body, opts, now);
    } else if Storable(s.streams[path].meta, body, opts, now) {
      AppendStored(s, path, body, opts, now);
    } else {
      AppendNotStored(s, path, body, opts, now);
    }
    hide AppendStep, Admitted, Laid, ValidateProducer;
  }
}
