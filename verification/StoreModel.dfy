/** The data of the in-memory store (store/store.go, store/memory_store.go). */
module StoreModel {
  import opened Prelude
  import opened Offsets
  import opened Producers
  import opened WriteFences

  datatype StoreError =
    | StreamNotFound | StreamExists | ConfigMismatch | SequenceConflict | ContentTypeMismatch
    | EmptyJsonArray | InvalidJson | StreamClosed | AppendFenced | PartialProducer
    | StreamSoftDeleted | InvalidForkOffset | InvalidForkSubOffset | RefCountUnderflow
    | ReadSnapshotChanged | NoIncarnation | ProducerRefused(reason: ProducerError)

  datatype Message = Message(data: Bytes, offset: Offset)

  datatype ClosedBy = ClosedBy(producerId: string, epoch: int, sequence: int)

  /** Times are nanoseconds.  `forkedFrom == ""` marks a stream that is not a fork. */
  datatype Metadata = Metadata(
    incarnation: nat, contentType: string, currentOffset: Offset, lastSeq: string,
    ttlSeconds: Option<nat>, expiresAt: Option<int>, lastAccessedAt: int,
    producers: map<string, ProducerState>, closed: bool, closedBy: Option<ClosedBy>,
    forkedFrom: string, forkOffset: Offset, forkOffsetRequested: Option<Offset>, forkSubOffset: nat,
    refCount: int, softDeleted: bool,
    writeFence: bool, sealedGeneration: int, sealedOffset: Option<Offset>)

  datatype Stream = Stream(
    meta: Metadata, messages: seq<Message>,
    seals: map<Authority, Seal>, bound: map<string, int>, lastFencedOff: Option<Offset>)

  datatype MarkerKey = MarkerKey(path: string, authority: Authority)

  /** Markers live beside the streams, so they outlast a deleted stream.
      `nextIncarnation` hands out stream incarnations, each one fresh. */
  datatype Store = Store(
    streams: map<string, Stream>, markers: map<MarkerKey, Marker>, nextIncarnation: nat)

  const EMPTY_STORE := Store(map[], map[], 1)

  /** A non-empty request body, with what the JSON splitter makes of it. */
  datatype Payload = Payload(raw: Bytes, json: Result<seq<Bytes>, StoreError>)

  datatype CreateOptions = CreateOptions(
    contentType: string, ttlSeconds: Option<nat>, expiresAt: Option<int>, initialData: Option<Payload>,
    closed: bool, writeFence: bool, forkedFrom: string, forkOffset: Option<Offset>,
    forkSubOffset: Option<nat>)

  datatype AppendOptions = AppendOptions(
    sequence: string, contentType: string, close: bool,
    producerId: string, producerEpoch: Option<int>, producerSeq: Option<int>,
    fence: Option<AppendFence>)
  {
    predicate HasProducerHeaders() {
      producerId != "" || producerEpoch.Some? || producerSeq.Some?
    }

    predicate HasAllProducerHeaders() {
      producerId != "" && producerEpoch.Some? && producerSeq.Some?
    }
  }

  datatype AppendResult = AppendResult(
    offset: Offset, producerResult: ProducerResult, lastSeq: int, streamClosed: bool,
    fence: FenceOutcome)

  const NO_RESULT := AppendResult(ZERO_OFFSET, NoProducer, 0, false, FENCE_PASS)

  datatype AppendReply = AppendReply(result: AppendResult, err: Option<StoreError>)

  datatype CloseReply = CloseReply(
    finalOffset: Offset, producerResult: ProducerResult, lastSeq: int, streamClosed: bool,
    alreadyClosed: bool, fence: FenceOutcome, err: Option<StoreError>)

  const NO_CLOSE := CloseReply(ZERO_OFFSET, NoProducer, 0, false, false, FENCE_PASS, None)

  datatype SealOutcome = SealSealed | SealAlready | SealStale | SealNotFound | SealUnfenced

  datatype SealResult = SealResult(outcome: SealOutcome, generation: int, finalOffset: Offset)

  // ---- content types ----

  function MediaType(ct: string): string {
    if ct == "" || ct[0] == ';' then "" else [ct[0]] + MediaType(ct[1..])
  }

  function ToLower(s: string): string {
    if s == "" then "" else [if 'A' <= s[0] <= 'Z' then (s[0] as int + 32) as char else s[0]] + ToLower(s[1..])
  }

  predicate EqualFold(a: string, b: string) {
    ToLower(a) == ToLower(b)
  }

  function OrDefault(ct: string): string {
    if ct == "" then "application/octet-stream" else ct
  }

  predicate ContentTypeMatches(a: string, b: string) {
    EqualFold(MediaType(OrDefault(a)), MediaType(OrDefault(b)))
  }

  const JSON_TYPE := "application/json"

  predicate IsJson(ct: string) {
    ToLower(MediaType(ct)) == JSON_TYPE
  }

  /** The media type is what comes before the first semicolon. */
  lemma {:induction false} MediaTypeCuts(ct: string)
    ensures var m := MediaType(ct); m <= ct && ';' !in m && (m == ct || ct[|m|] == ';')
  {
    if ct != "" && ct[0] != ';' {
      MediaTypeCuts(ct[1..]);
      assert ct == [ct[0]] + ct[1..];
    }
  }

  ghost predicate SameButForCase(a: char, b: char) {
    a == b || ('A' <= a <= 'Z' && b as int == a as int + 32) || ('A' <= b <= 'Z' && a as int == b as int + 32)
  }

  /** Two texts are equal but for the case of ASCII letters. */
  lemma {:induction false} EqualFoldIgnoresCase(a: string, b: string)
    ensures EqualFold(a, b) <==> |a| == |b| && forall i :: 0 <= i < |a| ==> SameButForCase(a[i], b[i])
  {
    if a != "" && b != "" {
      EqualFoldIgnoresCase(a[1..], b[1..]);
      assert a == [a[0]] + a[1..] && b == [b[0]] + b[1..];
      assert ToLower(a)[0] == ToLower(b)[0] <==> SameButForCase(a[0], b[0]);
      assert ToLower(a)[1..] == ToLower(a[1..]) && ToLower(b)[1..] == ToLower(b[1..]);
    }
  }

  lemma {:induction false} LowerStays(s: string)
    requires forall i :: 0 <= i < |s| ==> !('A' <= s[i] <= 'Z')
    ensures ToLower(s) == s
  {
    if s != "" {
      LowerStays(s[1..]);
    }
  }

  lemma JsonIsLower()
    ensures ToLower(JSON_TYPE) == JSON_TYPE
  {
    hide ToLower;
    LowerStays(JSON_TYPE);
  }

  /** A content type is JSON by its media type, whatever its case and its parameters. */
  lemma JsonByMediaType(ct: string)
    ensures IsJson(ct) <==> EqualFold(MediaType(ct), "application/json")
  {
    JsonIsLower();
    hide ToLower, MediaType;
    assert JSON_TYPE == "application/json";
  }

  // ---- expiry ----

  const NS: int := 1_000_000_000
  const MAX_INT64: int := 0x7fff_ffff_ffff_ffff

  predicate IsExpiredAt(m: Metadata, now: int) {
    if m.expiresAt.Some? && now > m.expiresAt.value then
      true
    else if m.ttlSeconds.Some? then
      var ttl := m.ttlSeconds.value;
      var last := m.lastAccessedAt / NS;
      if ttl > 0 && last > MAX_INT64 - ttl then false
      else if now / NS != last + ttl then now / NS > last + ttl
      else now % NS > m.lastAccessedAt % NS
    else
      false
  }

  /** The seconds-then-nanoseconds comparison is the plain comparison of instants, save
      for lifetimes that reach past the last int64 second, which never expire. */
  lemma ExpiryIsPlainComparison(m: Metadata, now: int)
    ensures IsExpiredAt(m, now) <==>
            || (m.expiresAt.Some? && now > m.expiresAt.value)
            || (m.ttlSeconds.Some?
                && !(m.ttlSeconds.value > 0 && m.lastAccessedAt / NS + m.ttlSeconds.value > MAX_INT64)
                && now > m.lastAccessedAt + m.ttlSeconds.value * NS)
  {
  }

  predicate ConfigMatches(m: Metadata, opts: CreateOptions) {
    && ContentTypeMatches(m.contentType, opts.contentType)
    && m.ttlSeconds == opts.ttlSeconds
    && m.expiresAt == opts.expiresAt
    && m.closed == opts.closed
    && m.writeFence == opts.writeFence
    && m.forkedFrom == opts.forkedFrom
    && (opts.forkedFrom != "" ==>
          && (opts.forkOffset.Some? ==>
                opts.forkOffset.value ==
                (if m.forkOffsetRequested.Some? then m.forkOffsetRequested.value else m.forkOffset))
          && m.forkSubOffset == (if opts.forkSubOffset.Some? then opts.forkSubOffset.value else 0))
  }
}
