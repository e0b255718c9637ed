/** What an append or a close answers and leaves behind, in terms of the stream as it was
    (store/memory_store.go:449-750). */
module WriteAnswers {
  import opened Prelude
  import opened Texts
  import opened Producers
  import opened WriteFences
  import opened StoreModel
  import opened StoreOps
  import opened StoreInvariants
  import opened FenceRungs

  // ---- append ----

  /** Some but not all of the three producer headers. */
  ghost predicate PartHeaders(opts: AppendOptions) {
    && !(opts.producerId == "" && opts.producerEpoch.None? && opts.producerSeq.None?)
    && !(opts.producerId != "" && opts.producerEpoch.Some? && opts.producerSeq.Some?)
  }

  ghost predicate ByProducerRequest(opts: AppendOptions) {
    opts.producerId != "" && opts.producerEpoch.Some? && opts.producerSeq.Some?
  }

  ghost predicate Malformed(fence: Option<AppendFence>) {
    fence.Some? && !fence.value.Complete()
  }

  /** The stream is there for writers. */
  ghost predicate Writable(s: Store, path: string, now: int) {
    path in s.streams && !s.streams[path].meta.softDeleted && !IsExpiredAt(s.streams[path].meta, now)
  }

  /** The request gets as far as the stream. */
  ghost predicate Admitted(s: Store, path: string, opts: AppendOptions, now: int) {
    && !Malformed(opts.fence) && !PartHeaders(opts) && Writable(s, path, now)
    && MayWrite(s, path, s.streams[path], opts.fence, opts.producerId, opts.producerEpoch, now)
  }

  /** A request that does not get as far changes nothing at all, and is told why. */
  lemma AppendTurnedAway(s: Store, path: string, body: Payload, opts: AppendOptions, now: int)
    requires !Admitted(s, path, opts, now)
    ensures var e := AppendStep(s, path, body, opts, now);
            && e.store == s && e.notified == {} && e.writes == []
            && e.reply.result.(fence := FENCE_PASS) == NO_RESULT
            && (e.reply.err == Some(PartialProducer) <==> !Malformed(opts.fence) && PartHeaders(opts))
            && (e.reply.err == Some(StreamSoftDeleted) <==>
                && !Malformed(opts.fence) && !PartHeaders(opts)
                && path in s.streams && s.streams[path].meta.softDeleted)
            && (e.reply.err == Some(StreamNotFound) <==>
                && !Malformed(opts.fence) && !PartHeaders(opts)
                && (path in s.streams ==>
                      !s.streams[path].meta.softDeleted && IsExpiredAt(s.streams[path].meta, now)))
            && (e.reply.err == Some(AppendFenced) <==>
                Malformed(opts.fence) || (!PartHeaders(opts) && Writable(s, path, now)))
            && e.reply.result.fence ==
               (if !Malformed(opts.fence) && !PartHeaders(opts) && Writable(s, path, now)
                then FenceRung(s, path, s.streams[path], opts.fence, opts.producerId, opts.producerEpoch, now)
                else FENCE_PASS)
  {
    hide FenceRung, IsExpiredAt, MayWrite;
    if path in s.streams {
      RungAnswers(s, path, s.streams[path], opts.fence, opts.producerId, opts.producerEpoch, now);
    }
  }

  /** The request is the one that closed the stream. */
  ghost predicate ClosedIt(m: Metadata, opts: AppendOptions) {
    && ByProducerRequest(opts)
    && m.closedBy == Some(ClosedBy(opts.producerId, opts.producerEpoch.value, opts.producerSeq.value))
  }

  ghost predicate WrongType(m: Metadata, opts: AppendOptions) {
    && opts.contentType != ""
    && ToLower(MediaType(OrDefault(opts.contentType))) != ToLower(MediaType(OrDefault(m.contentType)))
  }

  /** What the producer's history says of a request. */
  function ProducerVerdict(m: Metadata, id: string, epoch: int, sequence: int, now: int): Verdict {
    ValidateProducer(if id in m.producers then Some(m.producers[id]) else None, epoch, sequence, now / NS)
  }

  function RequestVerdict(m: Metadata, opts: AppendOptions, now: int): Verdict
    requires ByProducerRequest(opts)
  {
    ProducerVerdict(m, opts.producerId, opts.producerEpoch.value, opts.producerSeq.value, now)
  }

  ghost predicate OutOfTurn(m: Metadata, opts: AppendOptions, now: int) {
    ByProducerRequest(opts) && !RequestVerdict(m, opts, now).Accept?
  }

  /** The stream sequence does not go up. */
  ghost predicate Conflicts(m: Metadata, opts: AppendOptions) {
    opts.sequence != "" && m.lastSeq != "" && !Before(m.lastSeq, opts.sequence)
  }

  ghost predicate BadJson(m: Metadata, body: Payload) {
    IsJson(m.contentType) && body.json.Err?
  }

  /** Nothing stands in the way of storing the request. */
  ghost predicate Storable(m: Metadata, body: Payload, opts: AppendOptions, now: int) {
    && !m.closed && !WrongType(m, opts) && !OutOfTurn(m, opts, now) && !Conflicts(m, opts) && !BadJson(m, body)
  }

  /** A request that gets as far as the stream and is not stored renews the sliding lifetime and
      changes nothing else.  Its answer is the first of these that applies. */
  lemma AppendNotStored(s: Store, path: string, body: Payload, opts: AppendOptions, now: int)
    requires Admitted(s, path, opts, now) && !Storable(s.streams[path].meta, body, opts, now)
    ensures var e, m := AppendStep(s, path, body, opts, now), s.streams[path].meta;
            var at := NO_RESULT.(offset := m.currentOffset);
            && e.store == s.(streams := s.streams[path := s.streams[path].(meta := m.(lastAccessedAt := now))])
            && e.notified == {} && e.writes == []
            && (m.closed && ClosedIt(m, opts) ==>
                  e.reply == AppendReply(at.(producerResult := Duplicate, lastSeq := opts.producerSeq.value,
                                             streamClosed := true), None))
            && (m.closed && !ClosedIt(m, opts) ==>
                  e.reply == AppendReply(at.(streamClosed := true), Some(StreamClosed)))
            && (!m.closed && WrongType(m, opts) ==> e.reply == AppendReply(NO_RESULT, Some(ContentTypeMismatch)))
            && (!m.closed && !WrongType(m, opts) && OutOfTurn(m, opts, now) ==>
                  match RequestVerdict(m, opts, now)
                  case Repeat(last) => e.reply == AppendReply(at.(producerResult := Duplicate, lastSeq := last), None)
                  case Refuse(why) => e.reply == AppendReply(at, Some(ProducerRefused(why)))
                  case Accept(_) => true)
            && (!m.closed && !WrongType(m, opts) && !OutOfTurn(m, opts, now) && Conflicts(m, opts) ==>
                  e.reply == AppendReply(NO_RESULT, Some(SequenceConflict)))
            && (!m.closed && !WrongType(m, opts) && !OutOfTurn(m, opts, now) && !Conflicts(m, opts) ==>
                  e.reply == AppendReply(NO_RESULT, Some(body.json.error)))
  {
    hide FenceRung, IsExpiredAt, MayWrite, ValidateProducer, Before, MediaType, ToLower, IsJson, OrDefault;
    RungAnswers(s, path, s.streams[path], opts.fence, opts.producerId, opts.producerEpoch, now);
  }

  /** The frames of a request that can be stored: the body, or the elements of a JSON body. */
  ghost function FramesFor(m: Metadata, body: Payload): seq<Bytes>
    requires !BadJson(m, body)
  {
    if IsJson(m.contentType) then body.json.value else [body.raw]
  }

  /** Any other request is stored whole: frames after the tail, the producer's state, the stream
      sequence, closedness and the fence binding, in one step. */
  lemma AppendStored(s: Store, path: string, body: Payload, opts: AppendOptions, now: int)
    requires Admitted(s, path, opts, now) && Storable(s.streams[path].meta, body, opts, now)
    ensures var e, st, m := AppendStep(s, path, body, opts, now), s.streams[path], s.streams[path].meta;
            var frames, fenced := FramesFor(m, body), opts.fence.Some? && m.writeFence;
            var end := m.currentOffset.Add(TotalLength(frames));
            && e.notified == {path} && e.store == s.(streams := s.streams[path := e.store.streams[path]])
            && e.store.streams[path] == Stream(
                 m.(currentOffset := end, lastAccessedAt := now,
                    lastSeq := if opts.sequence == "" then m.lastSeq else opts.sequence,
                    producers := if ByProducerRequest(opts)
                                 then m.producers[opts.producerId := ProducerState(opts.producerEpoch.value,
                                                                                   opts.producerSeq.value, now / NS)]
                                 else m.producers,
                    closed := opts.close,
                    closedBy := if opts.close && ByProducerRequest(opts)
                                then Some(ClosedBy(opts.producerId, opts.producerEpoch.value, opts.producerSeq.value))
                                else m.closedBy),
                 st.messages + Laid(m.currentOffset, frames), st.seals,
                 if fenced then st.bound[opts.producerId := opts.fence.value.generation] else st.bound,
                 if fenced then Some(end) else st.lastFencedOff)
            && e.writes == [Write(path, m.incarnation, opts.fence,
                                  if ByProducerRequest(opts)
                                  then Some(ProducerMark(opts.producerId,
                                                         Mark(opts.producerEpoch.value, opts.producerSeq.value)))
                                  else None, end)]
            && e.reply == AppendReply(
                 AppendResult(end, if ByProducerRequest(opts) then Accepted else NoProducer,
                              if ByProducerRequest(opts) then opts.producerSeq.value else 0, opts.close, FENCE_PASS),
                 None)
  {
    hide FenceRung, IsExpiredAt, MayWrite, Before, MediaType, ToLower, IsJson, OrDefault, Laid, TotalLength;
    RungAnswers(s, path, s.streams[path], opts.fence, opts.producerId, opts.producerEpoch, now);
  }

  // ---- close ----

  /** The stream is there for a close; a soft-deleted one still is. */
  ghost predicate Closable(s: Store, path: string, now: int) {
    path in s.streams && !IsExpiredAt(s.streams[path].meta, now)
  }

  /** A close leaves the stream closed at its tail, or is told why it does not. */
  lemma CloseAnswers(s: Store, path: string, fence: Option<AppendFence>, now: int)
    ensures var e := CloseStep(s, path, fence, now);
            && (e.reply.err == Some(StreamNotFound) <==> !Malformed(fence) && !Closable(s, path, now))
            && (e.reply.err == Some(AppendFenced) <==>
                Malformed(fence)
                || (Closable(s, path, now) && !MayWrite(s, path, s.streams[path], fence, "", None, now)))
            && (e.reply.err.None? || e.reply.err == Some(StreamNotFound) || e.reply.err == Some(AppendFenced))
            && (e.reply.err.Some? ==>
                  && e.store == s && e.notified == {} && e.writes == []
                  && e.reply.(err := None, fence := FENCE_PASS) == NO_CLOSE
                  && e.reply.fence == (if !Malformed(fence) && Closable(s, path, now)
                                       then FenceRung(s, path, s.streams[path], fence, "", None, now) else FENCE_PASS))
            && (e.reply.err.None? ==>
                  var st := s.streams[path];
                  && e.store == s.(streams := s.streams[path := st.(meta := st.meta.(closed := true))])
                  && e.notified == {path}
                  && e.writes == [Write(path, st.meta.incarnation, fence, None, st.meta.currentOffset)]
                  && e.reply ==
                     CloseReply(st.meta.currentOffset, NoProducer, 0, false, st.meta.closed, FENCE_PASS, None))
  {
    hide FenceRung, IsExpiredAt, MayWrite;
    if path in s.streams {
      RungAnswers(s, path, s.streams[path], fence, "", None, now);
    }
  }

  /** A producer's close gets as far as the stream. */
  ghost predicate CloseAdmitted(s: Store, path: string, id: string, epoch: int, fence: Option<AppendFence>, now: int) {
    && !Malformed(fence) && Closable(s, path, now)
    && MayWrite(s, path, s.streams[path], fence, id, Some(epoch), now)
  }

  lemma ProducerCloseTurnedAway(s: Store, path: string, id: string, epoch: int, sequence: int,
                                fence: Option<AppendFence>, now: int)
    requires !CloseAdmitted(s, path, id, epoch, fence, now)
    ensures var e := CloseProducerStep(s, path, id, epoch, sequence, fence, now);
            && e.store == s && e.notified == {} && e.writes == []
            && e.reply.(err := None, fence := FENCE_PASS) == NO_CLOSE
            && e.reply.err == (if !Malformed(fence) && !Closable(s, path, now) then Some(StreamNotFound)
                               else Some(AppendFenced))
            && e.reply.fence == (if !Malformed(fence) && Closable(s, path, now)
                                 then FenceRung(s, path, s.streams[path], fence, id, Some(epoch), now) else FENCE_PASS)
  {
    hide FenceRung, IsExpiredAt, MayWrite;
    if path in s.streams {
      RungAnswers(s, path, s.streams[path], fence, id, Some(epoch), now);
    }
  }

  /** A producer's close that gets as far closes the stream exactly if the stream is open and the
      request is the producer's next; otherwise nothing changes. */
  lemma ProducerCloseAnswers(s: Store, path: string, id: string, epoch: int, sequence: int,
                             fence: Option<AppendFence>, now: int)
    requires CloseAdmitted(s, path, id, epoch, fence, now)
    ensures var e, st, m := CloseProducerStep(s, path, id, epoch, sequence, fence, now), s.streams[path],
              s.streams[path].meta;
            var at := NO_CLOSE.(finalOffset := m.currentOffset);
            var repeats := m.closedBy == Some(ClosedBy(id, epoch, sequence));
            var verdict, fenced := ProducerVerdict(m, id, epoch, sequence, now), fence.Some? && m.writeFence;
            && (m.closed || !verdict.Accept? ==> e.store == s && e.notified == {} && e.writes == [])
            && (m.closed && repeats ==>
                  e.reply == at.(producerResult := Duplicate, lastSeq := sequence, streamClosed := true,
                                 alreadyClosed := true))
            && (m.closed && !repeats ==>
                  e.reply == at.(streamClosed := true, alreadyClosed := true, err := Some(StreamClosed)))
            && (!m.closed && verdict.Repeat? ==>
                  e.reply == at.(producerResult := Duplicate, lastSeq := verdict.lastSeq))
            && (!m.closed && verdict.Refuse? ==> e.reply == at.(err := Some(ProducerRefused(verdict.error))))
            && (!m.closed && verdict.Accept? ==>
                  && e.reply == at.(producerResult := Accepted, lastSeq := sequence, streamClosed := true)
                  && e.notified == {path}
                  && e.writes == [Write(path, m.incarnation, fence, Some(ProducerMark(id, Mark(epoch, sequence))),
                                        m.currentOffset)]
                  && e.store == s.(streams := s.streams[path := Stream(
                       m.(producers := m.producers[id := ProducerState(epoch, sequence, now / NS)], closed := true,
                          closedBy := Some(ClosedBy(id, epoch, sequence))),
                       st.messages, st.seals,
                       if fenced then st.bound[id := fence.value.generation] else st.bound,
                       if fenced then Some(m.currentOffset) else st.lastFencedOff)]))
  {
    hide FenceRung, IsExpiredAt, MayWrite;
    RungAnswers(s, path, s.streams[path], fence, id, Some(epoch), now);
  }

  // ---- closed is final ----

  /** At every later point of a run a closed stream that still is the same incarnation is closed,
      with the very messages and the tail it was closed with, and every append that reaches it is
      told so: the request that closed it gets its answer again, and any other is refused. */
  lemma ClosedIsFinal(ops: seq<Op>, k: nat, path: string, body: Payload, opts: AppendOptions, now: int)
    requires ValidOps(ops) && k <= |ops|
    requires path in Exec(ops[..k]).store.streams && Exec(ops[..k]).store.streams[path].meta.closed
    requires path in Exec(ops).store.streams
    requires Exec(ops).store.streams[path].meta.incarnation == Exec(ops[..k]).store.streams[path].meta.incarnation
    ensures var a, b := Exec(ops[..k]).store.streams[path], Exec(ops).store.streams[path];
            && b.meta.closed && b.messages == a.messages && b.meta.currentOffset == a.meta.currentOffset
            && (Admitted(Exec(ops).store, path, opts, now) ==>
                  var r := AppendStep(Exec(ops).store, path, body, opts, now).reply;
                  && r.result.offset == a.meta.currentOffset && r.result.streamClosed
                  && r.err == if ClosedIt(b.meta, opts) then None else Some(StreamClosed))
  {
    RunSurvives(ops, k);
    if Admitted(Exec(ops).store, path, opts, now) {
      AppendNotStored(Exec(ops).store, path, body, opts, now);
    }
    hide Exec, Step, AppendStep, Admitted, Storable;
    var a, b := Exec(ops[..k]).store.streams[path], Exec(ops).store.streams[path];
    assert Evolves(a, b);
    assert b.messages[|a.messages|..] == [];
  }
}
