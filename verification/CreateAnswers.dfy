/** What a create answers, what the stream it makes is, and what a second create of the same path
    is told (store/memory_store.go:148-342, store/store.go:421-489). */
module CreateAnswers {
  import opened Prelude
  import opened Offsets
  import opened WriteFences
  import opened StoreModel
  import opened StoreOps
  import opened StoreInvariants
  import opened Leases

  // ---- what a new stream takes over ----

  /** The content type of a new stream: the one asked for, else its source's, else the default. */
  function NewContentType(s: Store, opts: CreateOptions): string {
    if opts.contentType != "" then opts.contentType
    else if opts.forkedFrom in s.streams && opts.forkedFrom != "" then s.streams[opts.forkedFrom].meta.contentType
    else "application/octet-stream"
  }

  /** A fork inherits a lifetime only if the request names none. */
  ghost predicate Inherits(s: Store, opts: CreateOptions) {
    opts.forkedFrom != "" && opts.forkedFrom in s.streams && opts.ttlSeconds.None? && opts.expiresAt.None?
  }

  /** The lifetime of a new stream.  A plain stream has what was asked for.  A fork has one kind
      only, a sliding lifetime before a fixed one. */
  ghost predicate NewLifetime(s: Store, opts: CreateOptions, ttl: Option<nat>, expires: Option<int>) {
    if opts.forkedFrom == "" then ttl == opts.ttlSeconds && expires == opts.expiresAt
    else
      var asked, fixed :=
        if Inherits(s, opts) then s.streams[opts.forkedFrom].meta.ttlSeconds else opts.ttlSeconds,
        if Inherits(s, opts) then s.streams[opts.forkedFrom].meta.expiresAt else opts.expiresAt;
      ttl == asked && (asked.Some? ==> expires.None?) && (asked.None? ==> expires == fixed)
  }

  /** The new stream, in terms of the request and the store before. */
  ghost predicate AsRequested(s: Store, opts: CreateOptions, now: int, st: Stream) {
    var m := st.meta;
    && m.incarnation == s.nextIncarnation && m.writeFence == opts.writeFence
    && m.closed == opts.closed && m.closedBy.None?
    && m.producers == map[] && st.seals == map[] && st.bound == map[] && st.lastFencedOff.None?
    && m.sealedGeneration == 0 && m.sealedOffset.None?
    && m.lastAccessedAt == now && m.lastSeq == "" && m.refCount == 0 && !m.softDeleted
    && m.contentType == NewContentType(s, opts) && NewLifetime(s, opts, m.ttlSeconds, m.expiresAt)
    && m.forkedFrom == opts.forkedFrom
    && (opts.forkedFrom == "" ==>
          m.forkOffset == ZERO_OFFSET && m.forkOffsetRequested.None? && m.forkSubOffset == 0)
    && (opts.forkedFrom != "" ==>
          && m.forkOffsetRequested == opts.forkOffset
          && m.forkSubOffset == (if opts.forkSubOffset.Some? then opts.forkSubOffset.value else 0))
  }

  /** Every other stream is as it was, but that a fork's source has one reference more. */
  ghost predicate OthersKept(s: Store, s': Store, path: string, source: string) {
    && s'.streams.Keys == s.streams.Keys + {path} && s'.markers == s.markers
    && forall p <- s.streams :: p != path ==>
         s'.streams[p] ==
         if p == source != "" then s.streams[p].(meta := s.streams[p].meta.(refCount := s.streams[p].meta.refCount + 1))
         else s.streams[p]
  }

  /** The plan a create follows, field by field. */
  lemma PlanTakesOver(s: Store, path: string, opts: CreateOptions, now: int)
    requires PlanOf(s.(streams := s.streams - {path}), opts, now).Ok?
    ensures var plan := PlanOf(s.(streams := s.streams - {path}), opts, now).value;
            && plan.contentType == NewContentType(s, opts) && NewLifetime(s, opts, plan.ttlSeconds, plan.expiresAt)
            && (opts.forkedFrom == "" ==> plan.forkOffset == ZERO_OFFSET && plan.prefix == [])
            && (opts.forkedFrom != "" ==> opts.forkedFrom in s.streams && opts.forkedFrom != path)
  {
    hide IsExpiredAt, EqualFold, Whole, After, IsJson;
  }

  lemma InstalledBeside(s: Store, path: string, opts: CreateOptions, st: Stream)
    requires opts.forkedFrom != "" ==> opts.forkedFrom in s.streams && opts.forkedFrom != path
    ensures var s' := Installed(s.(streams := s.streams - {path}), path, opts, st);
            && path in s'.streams && s'.streams[path] == st
            && OthersKept(s, s', path, opts.forkedFrom) && s'.nextIncarnation == s.nextIncarnation + 1
  {
  }

  lemma NewStreamAsRequested(s: Store, opts: CreateOptions, plan: Plan, frames: seq<Bytes>, now: int)
    requires plan.contentType == NewContentType(s, opts) && NewLifetime(s, opts, plan.ttlSeconds, plan.expiresAt)
    requires opts.forkedFrom == "" ==> plan.forkOffset == ZERO_OFFSET
    ensures AsRequested(s, opts, now, NewStream(plan, frames, opts, s.nextIncarnation, now))
  {
    hide NewContentType, NewLifetime, Laid, TotalLength;
  }

  /** A create that answers that it made the stream made it as requested. */
  lemma CreateMakes(s: Store, path: string, opts: CreateOptions, idOk: bool, now: int)
    requires CreateStep(s, path, opts, idOk, now).reply == Ok(true)
    ensures var s' := CreateStep(s, path, opts, idOk, now).store;
            && path in s'.streams && AsRequested(s, opts, now, s'.streams[path])
            && OthersKept(s, s', path, opts.forkedFrom) && s'.nextIncarnation == s.nextIncarnation + 1
  {
    CreateCases(s, path, opts, idOk, now);
    PlanTakesOver(s, path, opts, now);
    hide *;
    var plan := PlanOf(s.(streams := s.streams - {path}), opts, now).value;
    var frames := InitialFrames(plan, opts).value;
    NewStreamAsRequested(s, opts, plan, frames, now);
    InstalledBeside(s, path, opts, NewStream(plan, frames, opts, s.nextIncarnation, now));
  }

  ghost function Datas(ms: seq<Message>): seq<Bytes> {
    seq(|ms|, i requires 0 <= i < |ms| => ms[i].data)
  }

  lemma NewStreamHolds(plan: Plan, frames: seq<Bytes>, opts: CreateOptions, incarnation: nat, now: int)
    requires plan.forkOffset == ZERO_OFFSET && plan.prefix == []
    requires forall i :: 0 <= i < |frames| ==> frames[i] != []
    ensures var st := NewStream(plan, frames, opts, incarnation, now);
            Chain(st.messages, ZERO_OFFSET, st.meta.currentOffset) && Datas(st.messages) == frames
  {
    assert plan.prefix + frames == frames;
    LaidIsChain(ZERO_OFFSET, frames);
  }

  /** A new plain stream holds the initial data and nothing else: the body as one message, or
      the elements of a JSON body, laid end to end from zero to the tail. */
  lemma CreateHolds(s: Store, path: string, opts: CreateOptions, idOk: bool, now: int)
    requires ValidOp(Create(path, opts, idOk, now)) && opts.forkedFrom == ""
    requires CreateStep(s, path, opts, idOk, now).reply == Ok(true)
    ensures path in CreateStep(s, path, opts, idOk, now).store.streams
    ensures var st := CreateStep(s, path, opts, idOk, now).store.streams[path];
            && Chain(st.messages, ZERO_OFFSET, st.meta.currentOffset)
            && (opts.initialData.None? ==> Datas(st.messages) == [])
            && (opts.initialData.Some? && !IsJson(NewContentType(s, opts)) ==>
                  Datas(st.messages) == [opts.initialData.value.raw])
            && (opts.initialData.Some? && IsJson(NewContentType(s, opts)) ==>
                  opts.initialData.value.json == Ok(Datas(st.messages)))
  {
    CreateCases(s, path, opts, idOk, now);
    PlanTakesOver(s, path, opts, now);
    hide CreateStep, PlanOf, IsExpiredAt, NewStream, NewContentType, NewLifetime, Chain, IsJson, Datas;
    var plan := PlanOf(s.(streams := s.streams - {path}), opts, now).value;
    NewStreamHolds(plan, InitialFrames(plan, opts).value, opts, s.nextIncarnation, now);
  }

  // ---- what a create answers ----

  /** The path is taken: a create there makes nothing. */
  ghost predicate Taken(s: Store, path: string, now: int) {
    path in s.streams && !IsExpiredAt(s.streams[path].meta, now)
  }

  /** The request asks for the configuration the stream has. */
  ghost predicate Agrees(m: Metadata, opts: CreateOptions) {
    && ToLower(MediaType(OrDefault(opts.contentType))) == ToLower(MediaType(OrDefault(m.contentType)))
    && opts.ttlSeconds == m.ttlSeconds && opts.expiresAt == m.expiresAt
    && opts.closed == m.closed && opts.writeFence == m.writeFence && opts.forkedFrom == m.forkedFrom
    && (m.forkedFrom != "" ==>
          && (opts.forkOffset.Some? ==> opts.forkOffset == m.forkOffsetRequested
                                        || (m.forkOffsetRequested.None? && opts.forkOffset.value == m.forkOffset))
          && (opts.forkSubOffset == Some(m.forkSubOffset) || (opts.forkSubOffset.None? && m.forkSubOffset == 0)))
  }

  /** A create on a taken path changes nothing. */
  lemma CreateOnTaken(s: Store, path: string, opts: CreateOptions, idOk: bool, now: int)
    requires Taken(s, path, now)
    ensures var e, m := CreateStep(s, path, opts, idOk, now), s.streams[path].meta;
            && e.store == s && e.notified == {} && e.writes == []
            && (e.reply == Err(StreamExists) <==> m.softDeleted)
            && (e.reply == Ok(false) <==> !m.softDeleted && Agrees(m, opts))
            && (e.reply == Err(ConfigMismatch) <==> !m.softDeleted && !Agrees(m, opts))
  {
    hide IsExpiredAt, MediaType, ToLower, OrDefault;
  }

  /** Where a fork is asked to begin. */
  ghost function AskedOffset(opts: CreateOptions, source: Metadata): Offset {
    if opts.forkOffset.Some? then opts.forkOffset.value else source.currentOffset
  }

  ghost predicate TypeRefused(opts: CreateOptions, source: Metadata) {
    opts.contentType != "" && ToLower(opts.contentType) != ToLower(source.contentType)
  }

  /** The source does not reach as far as the sub-offset asks. */
  ghost predicate SubOffsetRefused(s: Store, opts: CreateOptions)
    requires opts.forkedFrom in s.streams
  {
    var source := s.streams[opts.forkedFrom].meta;
    var next := After(Whole(s, opts.forkedFrom), AskedOffset(opts, source));
    && opts.forkSubOffset.Some? && opts.forkSubOffset.value > 0
    && if IsJson(source.contentType) then |next| < opts.forkSubOffset.value
       else next == [] || |next[0].data| < opts.forkSubOffset.value
  }

  /** The source a fork names can be forked as asked. */
  ghost predicate Forkable(s: Store, opts: CreateOptions, now: int) {
    && opts.forkedFrom in s.streams
    && var source := s.streams[opts.forkedFrom].meta;
       && !source.softDeleted && !IsExpiredAt(source, now) && !TypeRefused(opts, source)
       && AskedOffset(opts, source).LessThanOrEqual(source.currentOffset) && !SubOffsetRefused(s, opts)
  }

  /** The initial data is no JSON, where it must be. */
  ghost predicate DataRefused(s: Store, opts: CreateOptions) {
    opts.initialData.Some? && IsJson(NewContentType(s, opts)) && opts.initialData.value.json.Err?
  }

  /** Every refusal of a plan, with the condition under which it is given. */
  lemma PlanAnswers(s: Store, opts: CreateOptions, now: int)
    requires opts.forkedFrom != ""
    ensures var src := opts.forkedFrom;
            && (PlanOf(s, opts, now).Ok? <==> Forkable(s, opts, now))
            && (src !in s.streams ==> PlanOf(s, opts, now) == Err(StreamNotFound))
            && (src in s.streams ==>
                  var r, source := PlanOf(s, opts, now), s.streams[src].meta;
                  var within := AskedOffset(opts, source).LessThanOrEqual(source.currentOffset);
                  && (r == Err(StreamSoftDeleted) <==> source.softDeleted)
                  && (r == Err(StreamNotFound) <==> !source.softDeleted && IsExpiredAt(source, now))
                  && (r == Err(ContentTypeMismatch) <==>
                      !source.softDeleted && !IsExpiredAt(source, now) && TypeRefused(opts, source))
                  && (r == Err(InvalidForkOffset) <==>
                      !source.softDeleted && !IsExpiredAt(source, now) && !TypeRefused(opts, source) && !within)
                  && (r == Err(InvalidForkSubOffset) <==>
                      && !source.softDeleted && !IsExpiredAt(source, now) && !TypeRefused(opts, source) && within
                      && SubOffsetRefused(s, opts)))
  {
    hide IsExpiredAt, Whole, After, IsJson, ToLower;
  }

  /** A create on a free path: it makes the stream exactly if an incarnation can be had, the source
      is forkable and the data is sound; an expired stream is gone either way. */
  lemma CreateOnFree(s: Store, path: string, opts: CreateOptions, idOk: bool, now: int)
    requires !Taken(s, path, now)
    ensures var e, s0 := CreateStep(s, path, opts, idOk, now), s.(streams := s.streams - {path});
            && (e.reply == Ok(true) <==>
                idOk && (opts.forkedFrom == "" || Forkable(s0, opts, now)) && !DataRefused(s0, opts))
            && (e.reply != Ok(true) ==> e.store == s0)
            && (!idOk ==> e.reply == Err(NoIncarnation))
            && (idOk && opts.forkedFrom != "" && !Forkable(s0, opts, now) ==>
                  PlanOf(s0, opts, now).Err? && e.reply == Err(PlanOf(s0, opts, now).error))
            && (idOk && (opts.forkedFrom == "" || Forkable(s0, opts, now)) && DataRefused(s0, opts) ==>
                  e.reply == Err(opts.initialData.value.json.error))
  {
    var s0 := s.(streams := s.streams - {path});
    if opts.forkedFrom != "" {
      PlanAnswers(s0, opts, now);
    }
    assert s0.(streams := s0.streams - {path}) == s0;
    if PlanOf(s0, opts, now).Ok? {
      PlanTakesOver(s0, path, opts, now);
    }
    hide IsExpiredAt, PlanOf, Forkable, NewLifetime, NewContentType, NewStream, Installed, IsJson;
  }

  // ---- two creates ----

  /** A second create of the same path is told that the stream is there exactly if it asks for what
      the first one made; what that is depends on the first request and, for a fork, its source. */
  lemma SecondCreate(s: Store, path: string, first: CreateOptions, idOk: bool, now: int, second: CreateOptions,
                     idOk2: bool, now2: int)
    requires CreateStep(s, path, first, idOk, now).reply == Ok(true)
    requires Taken(CreateStep(s, path, first, idOk, now).store, path, now2)
    ensures var s' := CreateStep(s, path, first, idOk, now).store;
            CreateStep(s', path, second, idOk2, now2).reply == Ok(false) <==>
              && ToLower(MediaType(OrDefault(second.contentType))) ==
                 ToLower(MediaType(OrDefault(NewContentType(s, first))))
              && NewLifetime(s, first, second.ttlSeconds, second.expiresAt)
              && second.closed == first.closed && second.writeFence == first.writeFence
              && second.forkedFrom == first.forkedFrom
              && (first.forkedFrom != "" ==>
                    && (second.forkOffset.None? || second.forkOffset == first.forkOffset
                        || (first.forkOffset.None? && second.forkOffset.value == s'.streams[path].meta.forkOffset))
                    && (if second.forkSubOffset.Some? then second.forkSubOffset.value else 0) ==
                       (if first.forkSubOffset.Some? then first.forkSubOffset.value else 0))
  {
    var s' := CreateStep(s, path, first, idOk, now).store;
    CreateMakes(s, path, first, idOk, now);
    CreateOnTaken(s', path, second, idOk2, now2);
    LifetimeIsOne(s, first, s'.streams[path].meta.ttlSeconds, s'.streams[path].meta.expiresAt,
      second.ttlSeconds, second.expiresAt);
    hide CreateStep, IsExpiredAt, NewContentType, NewLifetime, MediaType, ToLower, OrDefault;
  }

  lemma LifetimeIsOne(s: Store, opts: CreateOptions, ttl: Option<nat>, expires: Option<int>, ttl2: Option<nat>,
                      expires2: Option<int>)
    requires NewLifetime(s, opts, ttl, expires)
    ensures NewLifetime(s, opts, ttl2, expires2) <==> ttl2 == ttl && expires2 == expires
  {
  }

  /** Repeating the very same request.  A plain create is idempotent.  Repeating a fork is refused
      as a mismatch if the fork inherited a content type other than the default or a lifetime, or
      if the request named both kinds of lifetime; in every other case it is idempotent too. */
  lemma RepeatedCreate(s: Store, path: string, opts: CreateOptions, idOk: bool, now: int, idOk2: bool, now2: int)
    requires CreateStep(s, path, opts, idOk, now).reply == Ok(true)
    requires Taken(CreateStep(s, path, opts, idOk, now).store, path, now2)
    ensures opts.forkedFrom != "" ==> opts.forkedFrom in s.streams
    ensures var again := CreateStep(CreateStep(s, path, opts, idOk, now).store, path, opts, idOk2, now2).reply;
            && again in {Ok(false), Err(ConfigMismatch)}
            && (again == Ok(false) <==>
                opts.forkedFrom != "" ==>
                  var source := s.streams[opts.forkedFrom].meta;
                  && (opts.contentType != "" || ContentTypeMatches(source.contentType, ""))
                  && (opts.ttlSeconds.None? || opts.expiresAt.None?)
                  && (opts.ttlSeconds.None? && opts.expiresAt.None? ==>
                        source.ttlSeconds.None? && source.expiresAt.None?))
  {
    CreateCases(s, path, opts, idOk, now);
    PlanTakesOver(s, path, opts, now);
    CreateMakes(s, path, opts, idOk, now);
    CreateOnTaken(CreateStep(s, path, opts, idOk, now).store, path, opts, idOk2, now2);
    SecondCreate(s, path, opts, idOk, now, opts, idOk2, now2);
    hide CreateStep, IsExpiredAt, MediaType, ToLower, PlanOf, InitialFrames, Installed, NewStream;
  }

  const PLAIN := CreateOptions("", None, None, None, false, false, "", None, None)

  /** Such a run: a stream with a sliding lifetime, a fork of it that names none, and the same
      fork once more. */
  lemma RepeatedForkIsRefused()
    ensures var s := CreateStep(EMPTY_STORE, "/a", PLAIN.(ttlSeconds := Some(60)), true, 0).store;
            var s' := CreateStep(s, "/b", PLAIN.(forkedFrom := "/a"), true, 0).store;
            && CreateStep(s, "/b", PLAIN.(forkedFrom := "/a"), true, 0).reply == Ok(true)
            && CreateStep(s', "/b", PLAIN.(forkedFrom := "/a"), true, 0).reply == Err(ConfigMismatch)
  {
    var opts := PLAIN.(ttlSeconds := Some(60));
    var s := CreateStep(EMPTY_STORE, "/a", opts, true, 0).store;
    CreateOnFree(EMPTY_STORE, "/a", opts, true, 0);
    CreateMakes(EMPTY_STORE, "/a", opts, true, 0);
    var fork := PLAIN.(forkedFrom := "/a");
    assert s.streams.Keys == {"/a"} && s.streams - {"/b"} == s.streams;
    CreateOnFree(s, "/b", fork, true, 0);
    assert Forkable(s, fork, 0);
    CreateMakes(s, "/b", fork, true, 0);
    RepeatedCreate(s, "/b", fork, true, 0, true, 0);
  }

  /** A write-fenced stream can be sealed as soon as it is made: a complete claim that is not behind
      its marker is answered sealed, at the tail. */
  lemma NewFencedStreamSeals(s: Store, path: string, opts: CreateOptions, idOk: bool, now: int, f: AppendFence)
    requires CreateStep(s, path, opts, idOk, now).reply == Ok(true) && opts.writeFence
    requires f.Complete() && !Behind(s, path, f)
    ensures var s' := CreateStep(s, path, opts, idOk, now).store;
            && path in s'.streams
            && SealStep(s', path, f).reply ==
               Ok(SealResult(SealSealed, f.generation, s'.streams[path].meta.currentOffset))
  {
    var s' := CreateStep(s, path, opts, idOk, now).store;
    CreateMakes(s, path, opts, idOk, now);
    assert Behind(s', path, f) <==> Behind(s, path, f);
    SealAnswers(s', path, f);
    hide CreateStep, SealStep, NewContentType, NewLifetime, FenceAuthority;
  }
}
