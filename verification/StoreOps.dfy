/** What every operation of the in-memory store does, as a function from the store
    before to the store after (store/memory_store.go).  The store's mutex makes each
    operation one step.  The clock reading of a step is its `now`. */
module StoreOps {
  import opened Prelude
  import opened Texts
  import opened Offsets
  import opened Producers
  import opened WriteFences
  import opened StoreModel

  /** An accepted mutation of stream data or closedness. */
  datatype Write = Write(
    path: string, incarnation: nat, fence: Option<AppendFence>, producer: Option<ProducerMark>, end: Offset)

  datatype ProducerMark = ProducerMark(id: string, mark: Mark)

  /** The outcome of one step: the new store, the paths whose waiters are notified, the
      accepted writes, and the reply. */
  datatype Effect<R> = Effect(store: Store, notified: set<string>, writes: seq<Write>, reply: R)

  function NoEffect<R>(s: Store, reply: R): Effect<R> {
    Effect(s, {}, [], reply)
  }

  // ---- messages ----

  /** The messages after `o`, in order. */
  function After(ms: seq<Message>, o: Offset): seq<Message> {
    if ms == [] then []
    else
      var rest, m := After(ms[..|ms| - 1], o), ms[|ms| - 1];
      if o.LessThan(m.offset) then rest + [m] else rest
  }

  /** The messages at or before `u`, in order. */
  function UpTo(ms: seq<Message>, u: Offset): seq<Message> {
    if ms == [] then []
    else
      var rest, m := UpTo(ms[..|ms| - 1], u), ms[|ms| - 1];
      if m.offset.LessThanOrEqual(u) then rest + [m] else rest
  }

  /** What a reader of `path` sees: the source's content up to the fork point, then the
      stream's own messages.  `fuel` bounds the length of the fork chain. */
  function Content(streams: map<string, Stream>, path: string, fuel: nat): seq<Message>
    decreases fuel
  {
    if path !in streams then []
    else
      var st := streams[path];
      if st.meta.forkedFrom == "" || fuel == 0 then st.messages
      else UpTo(Content(streams, st.meta.forkedFrom, fuel - 1), st.meta.forkOffset) + st.messages
  }

  /** No fork chain without a cycle is longer than the number of incarnations issued. */
  function Whole(s: Store, path: string): seq<Message> {
    Content(s.streams, path, s.nextIncarnation)
  }

  /** Frames laid one after the other from `from`; a message's offset is its end. */
  function Laid(from: Offset, frames: seq<Bytes>): seq<Message> {
    if frames == [] then []
    else Laid(from, frames[..|frames| - 1]) + [Message(frames[|frames| - 1], from.Add(TotalLength(frames)))]
  }

  function FramesOf(contentType: string, body: Payload): Result<seq<Bytes>, StoreError> {
    if IsJson(contentType) then body.json else Ok([body.raw])
  }

  // ---- create ----

  /** Where a new stream starts, and what it takes over from its source. */
  datatype Plan = Plan(
    forkOffset: Offset, prefix: seq<Bytes>, contentType: string, ttlSeconds: Option<nat>, expiresAt: Option<int>)

  function PlanOf(s: Store, opts: CreateOptions, now: int): Result<Plan, StoreError> {
    if opts.forkedFrom == "" then
      Ok(Plan(ZERO_OFFSET, [], OrDefault(opts.contentType), opts.ttlSeconds, opts.expiresAt))
    else if opts.forkedFrom !in s.streams then Err(StreamNotFound)
    else
      var source := s.streams[opts.forkedFrom].meta;
      var at := if opts.forkOffset.Some? then opts.forkOffset.value else source.currentOffset;
      if source.softDeleted then Err(StreamSoftDeleted)
      else if IsExpiredAt(source, now) then Err(StreamNotFound)
      else if opts.contentType != "" && !EqualFold(opts.contentType, source.contentType) then Err(ContentTypeMismatch)
      else if source.currentOffset.LessThan(at) then Err(InvalidForkOffset)
      else
        var contentType := if opts.contentType == "" then source.contentType else opts.contentType;
        var inherits := opts.ttlSeconds.None? && opts.expiresAt.None?;
        var ttl := if inherits then source.ttlSeconds else opts.ttlSeconds;
        var expires :=
          if inherits then (if source.ttlSeconds.Some? then None else source.expiresAt)
          else if opts.ttlSeconds.Some? then None else opts.expiresAt;
        var sub := if opts.forkSubOffset.Some? then opts.forkSubOffset.value else 0;
        if sub == 0 then Ok(Plan(at, [], contentType, ttl, expires))
        else
          var next := After(Whole(s, opts.forkedFrom), at);
          if IsJson(source.contentType) then
            if |next| < sub then Err(InvalidForkSubOffset)
            else Ok(Plan(next[sub - 1].offset, [], contentType, ttl, expires))
          else if next == [] || |next[0].data| < sub then Err(InvalidForkSubOffset)
          else Ok(Plan(at, [next[0].data[..sub]], contentType, ttl, expires))
  }

  function NewStream(plan: Plan, frames: seq<Bytes>, opts: CreateOptions, incarnation: nat, now: int): Stream {
    var all := plan.prefix + frames;
    Stream(
      Metadata(
        incarnation, plan.contentType, plan.forkOffset.Add(TotalLength(all)), "",
        plan.ttlSeconds, plan.expiresAt, now,
        map[], opts.closed, None,
        opts.forkedFrom, plan.forkOffset,
        if opts.forkedFrom == "" then None else opts.forkOffset,
        if opts.forkedFrom == "" || opts.forkSubOffset.None? then 0 else opts.forkSubOffset.value,
        0, false, opts.writeFence, 0, None),
      Laid(plan.forkOffset, all), map[], map[], None)
  }

  function Retain(streams: map<string, Stream>, path: string, delta: int): map<string, Stream> {
    if path !in streams then streams
    else
      var st := streams[path];
      streams[path := st.(meta := st.meta.(refCount := st.meta.refCount + delta))]
  }

  function InitialFrames(plan: Plan, opts: CreateOptions): Result<seq<Bytes>, StoreError> {
    if opts.initialData.None? then Ok([]) else FramesOf(plan.contentType, opts.initialData.value)
  }

  /** The store with a new stream in it; a fork holds a reference on its source. */
  function Installed(s: Store, path: string, opts: CreateOptions, st: Stream): Store {
    var held := if opts.forkedFrom == "" then s.streams else Retain(s.streams, opts.forkedFrom, 1);
    s.(streams := held[path := st], nextIncarnation := s.nextIncarnation + 1)
  }

  function CreateStep(s: Store, path: string, opts: CreateOptions, idOk: bool, now: int)
    : Effect<Result<bool, StoreError>>
  {
    if path in s.streams && !IsExpiredAt(s.streams[path].meta, now) then
      var m := s.streams[path].meta;
      NoEffect(s, if m.softDeleted then Err(StreamExists)
                  else if ConfigMatches(m, opts) then Ok(false) else Err(ConfigMismatch))
    else
      var s0 := s.(streams := s.streams - {path});  // an expired stream is dropped here
      if !idOk then NoEffect(s0, Err(NoIncarnation))
      else
        match PlanOf(s0, opts, now)
        case Err(e) => NoEffect(s0, Err(e))
        case Ok(plan) =>
          match InitialFrames(plan, opts)
          case Err(e) => NoEffect(s0, Err(e))
          case Ok(frames) =>
            NoEffect(Installed(s0, path, opts, NewStream(plan, frames, opts, s.nextIncarnation, now)), Ok(true))
  }

  // ---- delete ----

  datatype Cascade = Cascade(streams: map<string, Stream>, notified: set<string>, err: Option<StoreError>)

  /** Removes `path` and gives its reference back, following soft-deleted sources whose
      last reference this was. */
  function DeleteWithCascade(streams: map<string, Stream>, path: string): Cascade
    decreases |streams|
  {
    if path !in streams then Cascade(streams, {}, None)
    else
      var parent := streams[path].meta.forkedFrom;
      var rest := streams - {path};
      if parent == "" || parent !in rest then Cascade(rest, {path}, None)
      else if rest[parent].meta.refCount - 1 < 0 then
        Cascade(Retain(rest, parent, -rest[parent].meta.refCount), {path}, Some(RefCountUnderflow))
      else
        var released := Retain(rest, parent, -1);
        if rest[parent].meta.refCount == 1 && rest[parent].meta.softDeleted then
          assert |released| < |streams| by {
            assert released.Keys == rest.Keys && rest.Keys == streams.Keys - {path};
            assert |released.Keys| == |streams.Keys| - 1;
          }
          var up := DeleteWithCascade(released, parent);
          Cascade(up.streams, up.notified + {path}, up.err)
        else Cascade(released, {path}, None)
  }

  function DeleteStep(s: Store, path: string): Effect<Option<StoreError>> {
    if path !in s.streams then NoEffect(s, Some(StreamNotFound))
    else
      var st := s.streams[path];
      if st.meta.softDeleted then NoEffect(s, Some(StreamSoftDeleted))
      else if st.meta.refCount > 0 then
        NoEffect(s.(streams := s.streams[path := st.(meta := st.meta.(softDeleted := true))]), None)
      else
        var c := DeleteWithCascade(s.streams, path);
        Effect(s.(streams := c.streams), c.notified, [], c.err)
  }

  // ---- append and close ----

  function MarkerOf(s: Store, path: string, a: Authority): Option<Marker> {
    var k := MarkerKey(path, a);
    if k in s.markers then Some(s.markers[k]) else None
  }

  function SealOf(st: Stream, a: Authority): Option<Seal> {
    if a in st.seals then Some(st.seals[a]) else None
  }

  function FenceRung(s: Store, path: string, st: Stream, fence: Option<AppendFence>, producerId: string,
                     epoch: Option<int>, now: int): FenceOutcome
  {
    if fence.None? && !st.meta.writeFence then FENCE_PASS
    else
      EvaluateWriteFence(FenceInput(
        st.meta.writeFence, st.meta.incarnation, fence,
        if fence.Some? then MarkerOf(s, path, FenceAuthority(fence.value)) else None,
        if fence.Some? then SealOf(st, FenceAuthority(fence.value)) else None,
        now, epoch,
        if fence.None? && epoch.Some? && producerId in st.bound then st.bound[producerId] else 0))
  }

  function Bind(st: Stream, fence: Option<AppendFence>, producerId: string, off: Offset): Stream {
    if fence.None? || !st.meta.writeFence then st
    else st.(lastFencedOff := Some(off), bound := st.bound[producerId := fence.value.generation])
  }

  function ProducerOf(m: Metadata, id: string): Option<ProducerState> {
    if id in m.producers then Some(m.producers[id]) else None
  }

  /** Refusals that leave even the sliding lifetime of the stream alone. */
  function AppendRefusal(s: Store, path: string, opts: AppendOptions, now: int): Option<AppendReply> {
    if opts.fence.Some? && !opts.fence.value.Complete() then Some(AppendReply(NO_RESULT, Some(AppendFenced)))
    else if opts.HasProducerHeaders() && !opts.HasAllProducerHeaders() then
      Some(AppendReply(NO_RESULT, Some(PartialProducer)))
    else if path !in s.streams then Some(AppendReply(NO_RESULT, Some(StreamNotFound)))
    else
      var st := s.streams[path];
      if st.meta.softDeleted then Some(AppendReply(NO_RESULT, Some(StreamSoftDeleted)))
      else if IsExpiredAt(st.meta, now) then Some(AppendReply(NO_RESULT, Some(StreamNotFound)))
      else
        var out := FenceRung(s, path, st, opts.fence, opts.producerId, opts.producerEpoch, now);
        if out.reason != FenceNone then Some(AppendReply(NO_RESULT.(fence := out), Some(AppendFenced))) else None
  }

  datatype AppendVerdict =
    | Answer(reply: AppendReply)
    | Commit(producer: Option<ProducerState>, frames: seq<Bytes>)

  predicate IsClosingRequest(m: Metadata, id: string, epoch: int, sequence: int) {
    m.closedBy == Some(ClosedBy(id, epoch, sequence))
  }

  /** What an append that passed the fence comes to: an answer, or frames to store. */
  function AppendDecision(m: Metadata, body: Payload, opts: AppendOptions, now: int): AppendVerdict {
    var at := NO_RESULT.(offset := m.currentOffset);
    if m.closed then
      if opts.HasAllProducerHeaders()
         && IsClosingRequest(m, opts.producerId, opts.producerEpoch.value, opts.producerSeq.value) then
        Answer(AppendReply(at.(producerResult := Duplicate, lastSeq := opts.producerSeq.value,
          streamClosed := true), None))
      else Answer(AppendReply(at.(streamClosed := true), Some(StreamClosed)))
    else if opts.contentType != "" && !ContentTypeMatches(m.contentType, opts.contentType) then
      Answer(AppendReply(NO_RESULT, Some(ContentTypeMismatch)))
    else if opts.HasAllProducerHeaders() then
      match ValidateProducer(ProducerOf(m, opts.producerId), opts.producerEpoch.value, opts.producerSeq.value, now / NS)
      case Refuse(e) => Answer(AppendReply(at, Some(ProducerRefused(e))))
      case Repeat(last) => Answer(AppendReply(at.(producerResult := Duplicate, lastSeq := last), None))
      case Accept(p) => AppendFrames(m, body, opts, Some(p))
    else AppendFrames(m, body, opts, None)
  }

  function AppendFrames(m: Metadata, body: Payload, opts: AppendOptions,
      producer: Option<ProducerState>): AppendVerdict {
    if opts.sequence != "" && m.lastSeq != "" && !Before(m.lastSeq, opts.sequence) then
      Answer(AppendReply(NO_RESULT, Some(SequenceConflict)))
    else
      match FramesOf(m.contentType, body)
      case Err(e) => Answer(AppendReply(NO_RESULT, Some(e)))
      case Ok(frames) => Commit(producer, frames)
  }

  /** The stream after an accepted append: data, producer state and closedness together. */
  function Appended(st: Stream, opts: AppendOptions, producer: Option<ProducerState>, frames: seq<Bytes>): Stream {
    var m := st.meta;
    var end := m.currentOffset.Add(TotalLength(frames));
    var longer := st.(messages := st.messages + Laid(m.currentOffset, frames));
    Bind(longer, opts.fence, opts.producerId, end).(meta := m.(
      currentOffset := end,
      lastSeq := if opts.sequence != "" then opts.sequence else m.lastSeq,
      producers := if producer.Some? then m.producers[opts.producerId := producer.value] else m.producers,
      closed := m.closed || opts.close,
      closedBy := if opts.close && opts.HasAllProducerHeaders()
                  then Some(ClosedBy(opts.producerId, opts.producerEpoch.value, opts.producerSeq.value))
                  else m.closedBy))
  }

  function AppendStep(s: Store, path: string, body: Payload, opts: AppendOptions, now: int): Effect<AppendReply> {
    match AppendRefusal(s, path, opts, now)
    case Some(reply) => NoEffect(s, reply)
    case None =>
      var st := s.streams[path];
      var touched := st.(meta := st.meta.(lastAccessedAt := now));
      match AppendDecision(touched.meta, body, opts, now)
      case Answer(reply) => NoEffect(s.(streams := s.streams[path := touched]), reply)
      case Commit(producer, frames) =>
        var st' := Appended(touched, opts, producer, frames);
        var mark := if producer.Some?
                    then Some(ProducerMark(opts.producerId, Mark(producer.value.epoch, producer.value.lastSeq)))
                    else None;
        Effect(
          s.(streams := s.streams[path := st']), {path},
          [Write(path, st.meta.incarnation, opts.fence, mark, st'.meta.currentOffset)],
          AppendReply(
            AppendResult(st'.meta.currentOffset,
                         if producer.Some? then Accepted else NoProducer,
                         if producer.Some? then producer.value.lastSeq else 0,
                         opts.close, FENCE_PASS),
            None))
  }

  /** `CloseStream` (no fence) and `CloseStreamFenced`. */
  function CloseStep(s: Store, path: string, fence: Option<AppendFence>, now: int): Effect<CloseReply> {
    if fence.Some? && !fence.value.Complete() then NoEffect(s, NO_CLOSE.(err := Some(AppendFenced)))
    else if path !in s.streams || IsExpiredAt(s.streams[path].meta, now) then
      NoEffect(s, NO_CLOSE.(err := Some(StreamNotFound)))
    else
      var st := s.streams[path];
      var out := FenceRung(s, path, st, fence, "", None, now);
      if out.reason != FenceNone then NoEffect(s, NO_CLOSE.(fence := out, err := Some(AppendFenced)))
      else
        Effect(
          s.(streams := s.streams[path := st.(meta := st.meta.(closed := true))]), {path},
          [Write(path, st.meta.incarnation, fence, None, st.meta.currentOffset)],
          NO_CLOSE.(finalOffset := st.meta.currentOffset, alreadyClosed := st.meta.closed))
  }

  function CloseProducerStep(s: Store, path: string, id: string, epoch: int, sequence: int,
                             fence: Option<AppendFence>, now: int): Effect<CloseReply>
  {
    if fence.Some? && !fence.value.Complete() then NoEffect(s, NO_CLOSE.(err := Some(AppendFenced)))
    else if path !in s.streams || IsExpiredAt(s.streams[path].meta, now) then
      NoEffect(s, NO_CLOSE.(err := Some(StreamNotFound)))
    else
      var st := s.streams[path];
      var m := st.meta;
      var out := FenceRung(s, path, st, fence, id, Some(epoch), now);
      if out.reason != FenceNone then NoEffect(s, NO_CLOSE.(fence := out, err := Some(AppendFenced)))
      else
        match CloseDecision(m, id, epoch, sequence, now)
        case CloseAnswer(reply) => NoEffect(s, reply)
        case CloseCommit(p) =>
          var closed := st.(meta := m.(producers := m.producers[id := p], closed := true,
                                       closedBy := Some(ClosedBy(id, epoch, sequence))));
          Effect(
            s.(streams := s.streams[path := Bind(closed, fence, id, m.currentOffset)]), {path},
            [Write(path, m.incarnation, fence, Some(ProducerMark(id, Mark(p.epoch, p.lastSeq))), m.currentOffset)],
            NO_CLOSE.(finalOffset := m.currentOffset, producerResult := Accepted, lastSeq := p.lastSeq,
              streamClosed := true))
  }

  datatype CloseVerdict = CloseAnswer(reply: CloseReply) | CloseCommit(producer: ProducerState)

  /** What a producer's close that passed the fence comes to. */
  function CloseDecision(m: Metadata, id: string, epoch: int, sequence: int, now: int): CloseVerdict {
    var at := NO_CLOSE.(finalOffset := m.currentOffset);
    if m.closed then
      if IsClosingRequest(m, id, epoch, sequence) then
        CloseAnswer(at.(producerResult := Duplicate, lastSeq := sequence, streamClosed := true, alreadyClosed := true))
      else CloseAnswer(at.(streamClosed := true, alreadyClosed := true, err := Some(StreamClosed)))
    else
      match ValidateProducer(ProducerOf(m, id), epoch, sequence, now / NS)
      case Refuse(e) => CloseAnswer(at.(err := Some(ProducerRefused(e))))
      case Repeat(last) => CloseAnswer(at.(producerResult := Duplicate, lastSeq := last))
      case Accept(p) => CloseCommit(p)
  }

  // ---- reads ----

  datatype Snapshot = Snapshot(tail: Offset, contentType: string, closed: bool, incarnation: nat)

  function SnapshotOf(m: Metadata): Snapshot {
    Snapshot(m.currentOffset, m.contentType, m.closed, m.incarnation)
  }

  predicate SameReadStream(a: Snapshot, b: Snapshot) {
    a.incarnation != 0 && a.incarnation == b.incarnation && ContentTypeMatches(a.contentType, b.contentType)
  }

  /** The stream a page read of `path` is served from, with the snapshot it is bounded by. */
  function ReadGate(s: Store, path: string, snapshot: Option<Snapshot>, now: int): Result<Snapshot, StoreError> {
    if path !in s.streams || IsExpiredAt(s.streams[path].meta, now) then Err(StreamNotFound)
    else
      var m := s.streams[path].meta;
      if m.softDeleted then Err(StreamSoftDeleted)
      else if snapshot.None? then Ok(SnapshotOf(m))
      else if SameReadStream(snapshot.value, SnapshotOf(m)) then Ok(snapshot.value)
      else Err(ReadSnapshotChanged)
  }

  /** What a page read does to the store: it soft-deletes an expired stream that still
      has forks, and the first page of a read renews a sliding lifetime. */
  function ReadStep(s: Store, path: string, snapshot: Option<Snapshot>, noTouch: bool, now: int): Store {
    if path !in s.streams then s
    else
      var st := s.streams[path];
      if IsExpiredAt(st.meta, now) then
        if st.meta.refCount > 0 then s.(streams := s.streams[path := st.(meta := st.meta.(softDeleted := true))]) else s
      else if ReadGate(s, path, snapshot, now).Ok? && !noTouch && snapshot.None? && st.meta.ttlSeconds.Some? then
        s.(streams := s.streams[path := st.(meta := st.meta.(lastAccessedAt := now))])
      else s
  }

  // ---- claim markers and seals ----

  function Sealed(st: Stream, a: Authority, generation: int, wakeId: string): Stream {
    var off := if st.lastFencedOff.Some? then st.lastFencedOff.value else st.meta.currentOffset;
    st.(seals := st.seals[a := Seal(generation, wakeId, off)],
        meta := st.meta.(sealedGeneration := generation, sealedOffset := Some(off)))
  }

  function GrantStep(s: Store, path: string, f: AppendFence, now: int): Effect<Result<bool, StoreError>> {
    if !f.Complete() || f.leaseUntilNs <= now then NoEffect(s, Err(AppendFenced))
    else if path !in s.streams || s.streams[path].meta.incarnation == 0 then NoEffect(s, Ok(false))
    else
      var st := s.streams[path];
      var a := FenceAuthority(f);
      var seal, cur := SealOf(st, a), MarkerOf(s, path, a);
      if seal.Some? && f.generation <= seal.value.generation then NoEffect(s, Err(AppendFenced))
      else if cur.Some? && f.generation < cur.value.generation then NoEffect(s, Err(AppendFenced))
      else if cur.Some? && f.generation == cur.value.generation
           && (cur.value.state != Live || cur.value.wakeId != f.wakeId || cur.value.holder != f.holder) then
        NoEffect(s, Err(AppendFenced))
      else
        var renews := cur.Some? && f.generation == cur.value.generation;
        var supersedes := cur.Some? && !renews && st.meta.writeFence
                          && (seal.None? || cur.value.generation > seal.value.generation);
        var lease := if renews && cur.value.leaseUntilNs > f.leaseUntilNs then cur.value.leaseUntilNs
            else f.leaseUntilNs;
        var st' := if supersedes then Sealed(st, a, cur.value.generation, cur.value.wakeId) else st;
        var marker := Marker(Live, f.generation, f.wakeId, f.holder, lease, st.meta.incarnation);
        NoEffect(s.(streams := s.streams[path := st'], markers := s.markers[MarkerKey(path, a) := marker]), Ok(true))
  }

  /** A newer generation, or another claim at this one, holds the marker. */
  predicate StaleClaim(cur: Option<Marker>, f: AppendFence) {
    cur.Some? && (f.generation < cur.value.generation
                  || (f.generation == cur.value.generation
                      && (cur.value.wakeId != f.wakeId || cur.value.holder != f.holder)))
  }

  function Tombstone(s: Store, path: string, f: AppendFence): Store {
    var a := FenceAuthority(f);
    var cur := MarkerOf(s, path, a);
    if StaleClaim(cur, f) then s
    else
      s.(markers := s.markers[MarkerKey(path, a) :=
           Marker(Revoked, f.generation, f.wakeId, f.holder, 0,
                  if cur.Some? then cur.value.streamIncarnation else 0)])
  }

  function RevokeStep(s: Store, path: string, f: AppendFence): Effect<Option<StoreError>> {
    if !f.Complete() then NoEffect(s, Some(AppendFenced)) else NoEffect(Tombstone(s, path, f), None)
  }

  function SealStep(s: Store, path: string, f: AppendFence): Effect<Result<SealResult, StoreError>> {
    if !f.Complete() then NoEffect(s, Err(AppendFenced))
    else
      var a := FenceAuthority(f);
      if StaleClaim(MarkerOf(s, path, a), f) then NoEffect(s, Ok(SealResult(SealStale, 0, ZERO_OFFSET)))
      else
        var s' := Tombstone(s, path, f);
        if path !in s.streams then NoEffect(s', Ok(SealResult(SealNotFound, 0, ZERO_OFFSET)))
        else
          var st := s.streams[path];
          if !st.meta.writeFence then NoEffect(s', Ok(SealResult(SealUnfenced, 0, ZERO_OFFSET)))
          else if a in st.seals && f.generation <= st.seals[a].generation then
            NoEffect(s', Ok(SealResult(SealAlready, st.seals[a].generation, st.seals[a].offset)))
          else
            var st' := Sealed(st, a, f.generation, f.wakeId);
            NoEffect(s'.(streams := s.streams[path := st']),
                     Ok(SealResult(SealSealed, f.generation, st'.seals[a].offset)))
  }

  /** The retention of a marker runs out. */
  function ReapStep(s: Store, path: string, a: Authority): Store {
    s.(markers := s.markers - {MarkerKey(path, a)})
  }

  // ---- runs ----

  datatype Op =
    | Create(path: string, createOpts: CreateOptions, idOk: bool, now: int)
    | Delete(path: string)
    | Append(path: string, body: Payload, appendOpts: AppendOptions, now: int)
    | Close(path: string, fence: Option<AppendFence>, now: int)
    | CloseProducer(path: string, producerId: string, epoch: int, sequence: int, fence: Option<AppendFence>, now: int)
    | Read(path: string, snapshot: Option<Snapshot>, noTouch: bool, now: int)
    | Grant(path: string, claim: AppendFence, now: int)
    | Revoke(path: string, claim: AppendFence)
    | SealClaim(path: string, claim: AppendFence)
    | Reap(path: string, authority: Authority)

  function Forget<R>(e: Effect<R>): Effect<()> {
    Effect(e.store, e.notified, e.writes, ())
  }

  function Step(s: Store, op: Op): Effect<()> {
    match op
    case Create(path, opts, idOk, now) => Forget(CreateStep(s, path, opts, idOk, now))
    case Delete(path) => Forget(DeleteStep(s, path))
    case Append(path, body, opts, now) => Forget(AppendStep(s, path, body, opts, now))
    case Close(path, fence, now) => Forget(CloseStep(s, path, fence, now))
    case CloseProducer(path, id, epoch, sequence, fence, now) =>
      Forget(CloseProducerStep(s, path, id, epoch, sequence, fence, now))
    case Read(path, snapshot, noTouch, now) => NoEffect(ReadStep(s, path, snapshot, noTouch, now), ())
    case Grant(path, f, now) => Forget(GrantStep(s, path, f, now))
    case Revoke(path, f) => Forget(RevokeStep(s, path, f))
    case SealClaim(path, f) => Forget(SealStep(s, path, f))
    case Reap(path, a) => NoEffect(ReapStep(s, path, a), ())
  }

  /** Request bodies are never empty, and neither are the frames JSON splits into. */
  ghost predicate ValidOp(op: Op) {
    match op
    case Create(_, opts, _, _) => opts.initialData.Some? ==> ValidPayload(opts.initialData.value)
    case Append(_, body, _, _) => ValidPayload(body) && (body.json.Ok? ==> body.json.value != [])
    case _ => true
  }

  ghost predicate ValidPayload(p: Payload) {
    p.raw != [] && (p.json.Ok? ==> forall i :: 0 <= i < |p.json.value| ==> p.json.value[i] != [])
  }

  ghost predicate ValidOps(ops: seq<Op>) {
    forall i :: 0 <= i < |ops| ==> ValidOp(ops[i])
  }

  /** A run from the empty store: where it ends, and every write it accepted, in order. */
  datatype Run = Run(store: Store, log: seq<Write>)

  function Exec(ops: seq<Op>): Run {
    if ops == [] then Run(EMPTY_STORE, [])
    else
      var before := Exec(ops[..|ops| - 1]);
      var e := Step(before.store, ops[|ops| - 1]);
      Run(e.store, before.log + e.writes)
  }
}
