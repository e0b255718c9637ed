/** The in-memory store as the source writes it: an object whose methods update its maps
    in place (store/memory_store.go).  Each method is proved to do what its step function
    in StoreOps says, and to notify the waiters that function names. */
module MemoryStores {
  import opened Prelude
  import opened Texts
  import opened Offsets
  import opened Producers
  import opened WriteFences
  import opened StoreModel
  import opened StoreOps
  import opened FenceRungs
  import opened StoreInvariants
  import opened ForkContent
  import opened Paging
  import opened ForkDescents

  type Channel = nat

  /** The channels registered under any of the paths. */
  function ChannelsAt(waiters: map<string, seq<Channel>>, paths: set<string>): set<Channel> {
    set p, i | p in paths && p in waiters && 0 <= i < |waiters[p]| :: waiters[p][i]
  }

  function RegisteredAt(waiters: map<string, seq<Channel>>, path: string): seq<Channel> {
    if path in waiters then waiters[path] else []
  }

  function RemoveFirst(chs: seq<Channel>, ch: Channel): seq<Channel> {
    if chs == [] then [] else if chs[0] == ch then chs[1..] else [chs[0]] + RemoveFirst(chs[1..], ch)
  }

  lemma {:induction false} RemovesFirst(chs: seq<Channel>, ch: Channel, i: nat)
    requires i < |chs| && chs[i] == ch && ch !in chs[..i]
    ensures RemoveFirst(chs, ch) == chs[..i] + chs[i + 1..]
  {
    if i > 0 {
      assert chs[0] in chs[..i];
      RemovesFirst(chs[1..], ch, i - 1);
      assert chs[..i] == [chs[0]] + chs[1..][..i - 1];
    }
  }

  lemma {:induction false} RemovesNone(chs: seq<Channel>, ch: Channel)
    requires ch !in chs
    ensures RemoveFirst(chs, ch) == chs
  {
    if chs != [] {
      RemovesNone(chs[1..], ch);
    }
  }

  lemma ChannelsOfBoth(waiters: map<string, seq<Channel>>, a: set<string>, b: set<string>)
    ensures ChannelsAt(waiters, a + b) == ChannelsAt(waiters, a) + ChannelsAt(waiters, b)
  {
    forall p, i | p in a && p in waiters && 0 <= i < |waiters[p]|
      ensures waiters[p][i] in ChannelsAt(waiters, a + b)
    {
      assert p in a + b;
    }
    forall p, i | p in b && p in waiters && 0 <= i < |waiters[p]|
      ensures waiters[p][i] in ChannelsAt(waiters, a + b)
    {
      assert p in a + b;
    }
    assert ChannelsAt(waiters, a + b) <= ChannelsAt(waiters, a) + ChannelsAt(waiters, b);
  }

  /** `readOwnMessages`: it compares byte offsets only. */
  method ReadOwnMessages(ms: seq<Message>, offset: Offset) returns (r: seq<Message>)
    requires offset.readSeq == 0 && forall i :: 0 <= i < |ms| ==> ms[i].offset.readSeq == 0
    ensures r == After(ms, offset)
  {
    r := [];
    for i := 0 to |ms|
      invariant r == After(ms[..i], offset)
    {
      assert ms[..i + 1][..i] == ms[..i];
      if ms[i].offset.byteOffset > offset.byteOffset {
        r := r + [ms[i]];
      }
    }
    assert ms[..|ms|] == ms;
  }

  /** The loop of `readForkedStream` that cuts the source's messages at the fork point. */
  method CapAt(ms: seq<Message>, cap: Offset) returns (r: seq<Message>)
    ensures r == UpTo(ms, cap)
  {
    r := [];
    for i := 0 to |ms|
      invariant r == UpTo(ms[..i], cap)
    {
      assert ms[..i + 1][..i] == ms[..i];
      if ms[i].offset.LessThanOrEqual(cap) {
        r := r + [ms[i]];
      }
    }
    assert ms[..|ms|] == ms;
  }

  /** `appendToStream`: the stream with the body's frames laid after its tail. */
  method AppendToStream(st: Stream, body: Payload) returns (r: Result<Stream, StoreError>)
    ensures match FramesOf(st.meta.contentType, body)
            case Err(e) => r == Err(e)
            case Ok(frames) =>
              r == Ok(st.(messages := st.messages + Laid(st.meta.currentOffset, frames),
                          meta := st.meta.(currentOffset := st.meta.currentOffset.Add(TotalLength(frames)))))
  {
    if IsJson(st.meta.contentType) {
      match body.json {
        case Err(e) => return Err(e);
        case Ok(frames) =>
          var messages, current := st.messages, st.meta.currentOffset;
          for i := 0 to |frames|
            invariant messages == st.messages + Laid(st.meta.currentOffset, frames[..i])
            invariant current == st.meta.currentOffset.Add(TotalLength(frames[..i]))
          {
            assert frames[..i + 1][..i] == frames[..i];
            current := current.Add(|frames[i]|);
            messages := messages + [Message(frames[i], current)];
          }
          assert frames[..|frames|] == frames;
          return Ok(st.(messages := messages, meta := st.meta.(currentOffset := current)));
      }
    }
    var newOffset := st.meta.currentOffset.Add(|body.raw|);
    LaidOne(st.meta.currentOffset, body.raw);
    return Ok(st.(messages := st.messages + [Message(body.raw, newOffset)],
        meta := st.meta.(currentOffset := newOffset)));
  }

  class MemoryStore {
    var streams: map<string, Stream>
    var markers: map<MarkerKey, Marker>
    var nextIncarnation: nat
    var waiters: map<string, seq<Channel>>
    var tokens: set<Channel>  // channels with a wake-up in their one-place buffer

    ghost function Model(): Store
      reads this
    {
      Store(streams, markers, nextIncarnation)
    }

    ghost predicate Valid()
      reads this
    {
      Stored(Model())
    }

    /** The state and the wake-ups a step function asks for. */
    ghost predicate Performed<R>(e: Effect<R>, before: set<Channel>)
      reads this
    {
      Model() == e.store && tokens == before + ChannelsAt(waiters, e.notified)
    }

    constructor ()
      ensures Valid() && Model() == EMPTY_STORE && waiters == map[] && tokens == {}
    {
      streams, markers, nextIncarnation := map[], map[], 1;
      waiters, tokens := map[], {};
    }

    // ---- long-poll channels ----

    method Register(path: string, ch: Channel)
      modifies this`waiters
      ensures waiters == old(waiters)[path := RegisteredAt(old(waiters), path) + [ch]]
    {
      waiters := waiters[path := (if path in waiters then waiters[path] else []) + [ch]];
    }

    method Unregister(path: string, ch: Channel)
      modifies this`waiters
      ensures waiters == if path in old(waiters) then old(waiters)[path := RemoveFirst(old(waiters)[path], ch)]
          else old(waiters)
    {
      if path !in waiters {
        return;
      }
      hide RemoveFirst;
      var ws := waiters[path];
      for i := 0 to |ws|
        invariant waiters == old(waiters) && ch !in ws[..i]
      {
        if ws[i] == ch {
          RemovesFirst(ws, ch, i);
          waiters := waiters[path := ws[..i] + ws[i + 1..]];
          return;
        }
      }
      assert ws[..|ws|] == ws;
      RemovesNone(ws, ch);
    }

    /** A non-blocking send to every channel of the path. */
    method Notify(path: string)
      modifies this`tokens
      ensures tokens == old(tokens) + ChannelsAt(waiters, {path})
    {
      var ws := if path in waiters then waiters[path] else [];
      for i := 0 to |ws|
        invariant tokens == old(tokens) + (set k | 0 <= k < i :: ws[k])
      {
        tokens := tokens + {ws[i]};
      }
      assert (set k | 0 <= k < |ws| :: ws[k]) == ChannelsAt(waiters, {path}) by {
        forall k | 0 <= k < |ws| ensures ws[k] in ChannelsAt(waiters, {path}) {
          assert path in {path} && path in waiters;
        }
      }
    }

    // ---- reads along the fork chain ----

    /** `readForkedStream`: what the fork chain shows after `offset`.  `n` bears witness that
        the descent ends; the code looks at no such bound. */
    method ReadForkedStream(path: string, offset: Offset, ghost n: nat) returns (r: seq<Message>)
      requires Valid() && path in streams && offset.readSeq == 0 && EndsWithin(streams, path, offset, n)
      ensures r == After(Whole(Model(), path), offset)
      decreases n
    {
      var st := streams[path];
      OwnOffsetsAreFlat(Model(), path);
      SourceEnds(streams, path, offset, n);
      hide Stored, Whole, After, UpTo, Ends;
      WholeAfter(Model(), path, offset);
      if st.meta.forkedFrom == "" {
        r := ReadOwnMessages(st.messages, offset);
        return;
      }
      var inherited := [];
      if offset.LessThan(st.meta.forkOffset) {
        if st.meta.forkedFrom in streams {
          var source := ReadForkedStream(st.meta.forkedFrom, offset, n - 1);
          inherited := CapAt(source, st.meta.forkOffset);
        }
      }
      var own := ReadOwnMessages(st.messages, offset);
      r := inherited + own;
    }

    static lemma OwnOffsetsAreFlat(s: Store, path: string)
      requires Stored(s) && path in s.streams
      ensures WellStored(s.streams[path])
      ensures forall i :: 0 <= i < |s.streams[path].messages| ==> s.streams[path].messages[i].offset.readSeq == 0
    {
      var st := s.streams[path];
      assert WellStored(st);
      ChainRises(st.messages, st.meta.forkOffset, st.meta.currentOffset);
    }

    /** `walkForkedMessages`: drives the page visitor over the interval (offset, upper] of
        the fork chain and stops where the visitor does. */
    method WalkForkedMessages(path: string, offset: Offset, upper: Offset, page: Filling,
                              target: int, maxFrames: int, ghost n: nat) returns (v: Visited)
      requires Valid() && path in streams && EndsWithin(streams, path, offset, n)
      ensures v == VisitAll(page, Between(Whole(Model(), path), offset, upper), target, maxFrames)
      decreases n
    {
      var st := streams[path];
      OwnOffsetsAreFlat(Model(), path);
      SourceEnds(streams, path, offset, n);
      NothingVisited(page, target, maxFrames);
      hide Stored, WellStored, Whole, Between, VisitAll, Ends;
      WholeBetween(Model(), path, offset, upper);
      v := Visited(page, true);
      ghost var before := [];
      if st.meta.forkedFrom != "" && offset.LessThan(st.meta.forkOffset) {
        var sourceUpper := upper;
        if st.meta.forkOffset.LessThan(sourceUpper) {
          sourceUpper := st.meta.forkOffset;
        }
        if st.meta.forkedFrom in streams {
          before := Between(Whole(Model(), st.meta.forkedFrom), offset, sourceUpper);
          v := WalkForkedMessages(st.meta.forkedFrom, offset, sourceUpper, page, target, maxFrames, n - 1);
        }
      }
      ghost var own := Between(st.messages, offset, upper);
      VisitConcat(page, before, own, target, maxFrames);
      if v.more {
        v := WalkOwnMessages(st, offset, upper, v.page, target, maxFrames);
      }
    }

    static lemma NothingVisited(page: Filling, target: int, maxFrames: int)
      ensures VisitAll(page, [], target, maxFrames) == Visited(page, true)
    {
    }

    /** The loop over a stream's own messages: skips up to `offset`, ends past `upper`. */
    static method WalkOwnMessages(st: Stream, offset: Offset, upper: Offset, page: Filling, target: int, maxFrames: int)
      returns (v: Visited)
      requires WellStored(st)
      ensures v == VisitAll(page, Between(st.messages, offset, upper), target, maxFrames)
    {
      hide *;
      var ms := st.messages;
      OwnMessagesRise(st);
      NothingWalked(page, ms, offset, upper, target, maxFrames);
      v := Visited(page, true);
      var i := 0;
      while i < |ms|
        invariant 0 <= i <= |ms| && v.more
        invariant v == VisitAll(page, Between(ms[..i], offset, upper), target, maxFrames)
      {
        if upper.LessThan(ms[i].offset) {
          RestIsBeyond(ms, i, offset, upper);
          return;
        }
        NextIsWalked(ms, i, offset, upper);
        if offset.LessThan(ms[i].offset) {
          VisitSnoc(page, Between(ms[..i], offset, upper), ms[i], target, maxFrames);
          v := Visit(v.page, ms[i], target, maxFrames);
          if !v.more {
            VisitStops(page, ms, i + 1, offset, upper, target, maxFrames);
            return;
          }
        }
        i := i + 1;
      }
      assert ms[..|ms|] == ms;
    }

    static lemma RestIsBeyond(ms: seq<Message>, i: nat, o: Offset, u: Offset)
      requires Increasing(ms) && i < |ms| && u.LessThan(ms[i].offset)
      ensures Between(ms, o, u) == Between(ms[..i], o, u)
    {
      assert ms == ms[..i] + ms[i..];
      AfterConcat(ms[..i], ms[i..], o);
      UpToConcat(After(ms[..i], o), After(ms[i..], o), u);
      AfterSelects(ms[i..], o);
      UpToNone(After(ms[i..], o), u);
    }

    static lemma OwnMessagesRise(st: Stream)
      requires WellStored(st)
      ensures Increasing(st.messages)
    {
      ChainRises(st.messages, st.meta.forkOffset, st.meta.currentOffset);
    }

    static lemma NothingWalked(page: Filling, ms: seq<Message>, o: Offset, u: Offset, target: int, maxFrames: int)
      ensures VisitAll(page, Between(ms[..0], o, u), target, maxFrames) == Visited(page, true)
    {
    }

    static lemma NextIsWalked(ms: seq<Message>, i: nat, o: Offset, u: Offset)
      requires i < |ms| && !u.LessThan(ms[i].offset)
      ensures Between(ms[..i + 1], o, u) ==
              if o.LessThan(ms[i].offset) then Between(ms[..i], o, u) + [ms[i]] else Between(ms[..i], o, u)
    {
      hide Between;
      assert ms[..i + 1] == ms[..i] + [ms[i]];
      BetweenSnoc(ms[..i], ms[i], o, u);
    }

    static lemma VisitStops(page: Filling, ms: seq<Message>, i: nat, o: Offset, u: Offset, target: int, maxFrames: int)
      requires i <= |ms| && !VisitAll(page, Between(ms[..i], o, u), target, maxFrames).more
      ensures VisitAll(page, Between(ms, o, u), target, maxFrames) ==
              VisitAll(page, Between(ms[..i], o, u), target, maxFrames)
    {
      var a, b := ms[..i], ms[i..];
      assert ms == a + b;
      AfterConcat(a, b, o);
      UpToConcat(After(a, o), After(b, o), u);
      VisitConcat(page, Between(a, o, u), Between(b, o, u), target, maxFrames);
    }

    /** A page, if the walk ends. */
    method ReadPage(path: string, offset: Offset, options: PageOptions, now: int) returns (r: Result<Page, StoreError>)
      requires Valid() && PageReturns(Model(), path, offset, options.snapshot, now)
      modifies this`streams
      ensures Valid() && Model() == ReadStep(old(Model()), path, options.snapshot, options.noTouch, now)
      ensures r == ReadPageReply(old(Model()), path, offset, options, now)
    {
      hide Stored, Surviving, IsExpiredAt, SameReadStream, Content, Between, VisitAll, Ends, EndsWithin;
      ghost var s := Model();
      ReadKeeps(s, path, options.snapshot, options.noTouch, now);
      var opts := options.Normalize();
      if path !in streams {
        return Err(StreamNotFound);
      }
      var st := streams[path];
      if IsExpiredAt(st.meta, now) {
        if st.meta.refCount > 0 {
          streams := streams[path := st.(meta := st.meta.(softDeleted := true))];
        }
        return Err(StreamNotFound);
      }
      if st.meta.softDeleted {
        return Err(StreamSoftDeleted);
      }
      var current := SnapshotOf(st.meta);
      var snapshot := current;
      if opts.snapshot.Some? {
        snapshot := opts.snapshot.value;
        if !SameReadStream(snapshot, current) {
          return Err(ReadSnapshotChanged);
        }
      }
      if !opts.noTouch && opts.snapshot.None? && st.meta.ttlSeconds.Some? {
        streams := streams[path := st.(meta := st.meta.(lastAccessedAt := now))];
      }
      var start := if offset.IsNow() then snapshot.tail else offset;
      ContentSame(s.streams, streams, path, nextIncarnation);
      EndsIff(s.streams, path, start);
      EndsSame(s.streams, streams, path, start, |s.streams|);
      var v := WalkForkedMessages(path, start, snapshot.tail, Filling([], start, 0, 0, 0),
                                  opts.targetBytes, opts.maxFrames, |s.streams|);
      var next := if v.page.messages == [] then snapshot.tail else v.page.next;
      return Ok(Page(v.page.messages, next, snapshot, next == snapshot.tail,
                     v.page.fetched, v.page.returned, v.page.discarded));
    }

    /** What a whole read from `s` leaves and answers: everything after the offset, or, when
        the stream expires by the clock of a later page, an error. */
    ghost predicate ReadWhole(s: Store, path: string, offset: Offset, clock: nat -> int,
                              messages: seq<Message>, upToDate: bool, err: Option<StoreError>)
      reads this
    {
      var s' := ReadStep(s, path, None, false, clock(0));
      match ReadGate(s, path, None, clock(0))
      case Err(e) =>
        && Model() == s' && messages == [] && !upToDate
        && err == Some(if e == StreamSoftDeleted then StreamNotFound else e)
      case Ok(snapshot) =>
        if err.None? then
          && Model() == s' && messages == After(Whole(s, path), ReadStart(offset, snapshot))
          && upToDate == (messages != [] || offset == snapshot.tail || snapshot.tail == ZERO_OFFSET)
        else
          && messages == [] && !upToDate && err == Some(StreamNotFound)
          && path in s'.streams && exists i: nat :: ExpiredLater(s', path, snapshot, clock, i, Model())
    }

    /** The stream is expired by the clock of page `i`, not the first. */
    static ghost predicate ExpiredLater(s: Store, path: string, snapshot: Snapshot, clock: nat -> int, i: nat, t: Store)
      requires path in s.streams
    {
      i > 0 && IsExpiredAt(s.streams[path].meta, clock(i)) && t == ReadStep(s, path, Some(snapshot), false, clock(i))
    }

    /** `Read`: pages of the default size under one snapshot, concatenated; page `i` looks at
        the clock once, at `clock(i)`. */
    method Read(path: string, offset: Offset, clock: nat -> int)
      returns (messages: seq<Message>, upToDate: bool, err: Option<StoreError>)
      requires Valid() && PageReturns(Model(), path, offset, None, clock(0))
      modifies this`streams
      ensures Valid() && ReadWhole(old(Model()), path, offset, clock, messages, upToDate, err)
    {
      hide Stored, IsExpiredAt, Whole, PageOf, ReadStep, After, ReadGate;
      ghost var s := Model();
      ghost var s' := ReadStep(s, path, None, false, clock(0));
      messages, upToDate, err := [], false, None;
      var page := ReadPage(path, offset, PageOptions(0, 0, None, false), clock(0));
      if page.Err? {
        err := Some(if page.error == StreamSoftDeleted then StreamNotFound else page.error);
        return;
      }
      var snapshot := page.value.snapshot;
      GateOpens(s, path, snapshot, clock(0));
      RenewalIsInvisible(s, s', path, snapshot, clock(0));
      var next := page.value.nextOffset;
      messages := page.value.messages;
      ghost var start := ReadStart(offset, snapshot);
      PageFollows(s, s', path, offset, snapshot, start);
      upToDate := page.value.upToDate;
      var i := 1;
      while !upToDate
        invariant Model() == s' && Valid() && i > 0
        invariant !upToDate ==> Continues(s', path, start, messages, next)
        invariant upToDate ==> messages == After(Whole(s', path), start)
        decreases !upToDate, |After(Whole(s', path), next)|
      {
        LaterPage(s, s', path, snapshot, clock(0), clock(i));
        page := ReadPage(path, next, PageOptions(0, 0, Some(snapshot), false), clock(i));
        if page.Err? {
          assert ExpiredLater(s', path, snapshot, clock, i, Model());
          return [], false, Some(if page.error == StreamSoftDeleted then StreamNotFound else page.error);
        }
        PageContinues(s', path, start, messages, next, snapshot);
        messages := messages + page.value.messages;
        next := page.value.nextOffset;
        upToDate := page.value.upToDate;
        i := i + 1;
      }
      upToDate := |messages| > 0 || offset == snapshot.tail || snapshot.tail == ZERO_OFFSET;
    }

    /** The pages so far and what follows `next` make up what follows `start`. */
    static ghost predicate Continues(s: Store, path: string, start: Offset, messages: seq<Message>, next: Offset) {
      && !next.IsNow() && messages + After(Whole(s, path), next) == After(Whole(s, path), start)
      && Ends(s.streams, path, next)
    }

    static function DefaultPage(s: Store, path: string, o: Offset, snapshot: Snapshot): Page {
      PageOf(s, path, o, snapshot, DEFAULT_PAGE_BYTES, DEFAULT_PAGE_FRAMES)
    }

    static lemma GateOpens(s: Store, path: string, snapshot: Snapshot, now: int)
      requires ReadGate(s, path, None, now) == Ok(snapshot)
      ensures path in s.streams && snapshot == SnapshotOf(s.streams[path].meta)
      ensures !IsExpiredAt(s.streams[path].meta, now)
    {
    }

    /** The first page. */
    static lemma PageFollows(s: Store, s': Store, path: string, offset: Offset, snapshot: Snapshot, start: Offset)
      requires Stored(s) && path in s.streams && snapshot == SnapshotOf(s.streams[path].meta)
      requires start == ReadStart(offset, snapshot) && Ends(s'.streams, path, start)
      requires Whole(s', path) == Whole(s, path)
      ensures var page := DefaultPage(s, path, offset, snapshot);
              if page.upToDate then page.messages == After(Whole(s', path), start)
              else Continues(s', path, start, page.messages, page.nextOffset)
    {
      hide Stored, Whole, After, PageOf, Ends;
      PageAtTail(s, path, offset, snapshot);
      var page, view := DefaultPage(s, path, offset, snapshot), After(Whole(s, path), start);
      assert view == view[..|page.messages|] + view[|page.messages|..];
      if !page.upToDate {
        EndsFrom(s'.streams, path, start, page.nextOffset);
      }
    }

    static lemma EndsFrom(streams: map<string, Stream>, path: string, o: Offset, o': Offset)
      requires Ends(streams, path, o) && o.LessThanOrEqual(o')
      ensures Ends(streams, path, o')
    {
      var n: nat :| EndsWithin(streams, path, o, n);
      EndsSooner(streams, path, o, n, o', n);
    }

    /** Each later page. */
    static lemma PageContinues(s: Store, path: string, start: Offset, messages: seq<Message>, next: Offset,
        snapshot: Snapshot)
      requires Stored(s) && path in s.streams && snapshot.tail == s.streams[path].meta.currentOffset
      requires Continues(s, path, start, messages, next)
      ensures var page := DefaultPage(s, path, next, snapshot);
              if page.upToDate then messages + page.messages == After(Whole(s, path), start)
              else
                && Continues(s, path, start, messages + page.messages, page.nextOffset)
                && |After(Whole(s, path), page.nextOffset)| < |After(Whole(s, path), next)|
    {
      hide Stored, Whole, After, PageOf, Ends;
      PageAtTail(s, path, next, snapshot);
      var page, rest := DefaultPage(s, path, next, snapshot), After(Whole(s, path), next);
      assert rest == rest[..|page.messages|] + rest[|page.messages|..];
      if page.upToDate {
        assert rest[..|page.messages|] == rest;
      } else {
        EndsFrom(s.streams, path, next, page.nextOffset);
      }
    }

    static lemma RenewedIsLive(m: Metadata, now: int)
      requires !IsExpiredAt(m, now)
      ensures !IsExpiredAt(m.(lastAccessedAt := now), now)
      ensures ContentTypeMatches(m.contentType, m.contentType)
    {
    }

    /** The store after the first page: the same messages and links, perhaps renewed. */
    static lemma RenewalIsInvisible(s: Store, s': Store, path: string, snapshot: Snapshot, now: int)
      requires Stored(s) && s' == ReadStep(s, path, None, false, now) && ReadGate(s, path, None, now) == Ok(snapshot)
      ensures Stored(s') && path in s'.streams && s'.streams.Keys == s.streams.Keys && Whole(s', path) == Whole(s, path)
      ensures s'.streams[path].meta.currentOffset == s.streams[path].meta.currentOffset
      ensures forall o :: Ends(s.streams, path, o) ==> Ends(s'.streams, path, o)
    {
      hide Stored, Surviving, IsExpiredAt, ContentTypeMatches, Content, Ends, EndsWithin;
      ReadKeeps(s, path, None, false, now);
      ContentSame(s.streams, s'.streams, path, s.nextIncarnation);
      forall o | Ends(s.streams, path, o) ensures Ends(s'.streams, path, o) {
        EndsThere(s.streams, s'.streams, path, o);
      }
    }

    static lemma EndsThere(streams: map<string, Stream>, streams': map<string, Stream>, path: string, o: Offset)
      requires Ends(streams, path, o) && streams.Keys == streams'.Keys
      requires forall q :: q in streams ==>
                 && streams[q].meta.forkedFrom == streams'[q].meta.forkedFrom
                 && streams[q].meta.forkOffset == streams'[q].meta.forkOffset
      ensures Ends(streams', path, o)
    {
      var n: nat :| EndsWithin(streams, path, o, n);
      EndsSame(streams, streams', path, o, n);
    }

    /** A later page passes the gate and changes nothing, unless the stream has expired. */
    static lemma LaterPage(s: Store, s': Store, path: string, snapshot: Snapshot, now: int, later: int)
      requires Stored(s) && s' == ReadStep(s, path, None, false, now) && ReadGate(s, path, None, now) == Ok(snapshot)
      ensures path in s'.streams
      ensures if IsExpiredAt(s'.streams[path].meta, later)
              then ReadGate(s', path, Some(snapshot), later) == Err(StreamNotFound)
              else
                && ReadGate(s', path, Some(snapshot), later) == Ok(snapshot)
                && ReadStep(s', path, Some(snapshot), false, later) == s'
    {
      assert s.streams[path].meta.incarnation > 0 by { assert WellStored(s.streams[path]); }
      RenewedIsLive(s.streams[path].meta, now);
      hide Stored, IsExpiredAt, ContentTypeMatches;
    }

    /** The pages of a read at one instant. */
    static lemma PageAtTail(s: Store, path: string, o: Offset, snapshot: Snapshot)
      requires Stored(s) && path in s.streams && snapshot.tail == s.streams[path].meta.currentOffset
      ensures !ReadStart(o, snapshot).IsNow()
      ensures NextPage(Whole(s, path), ReadStart(o, snapshot),
          PageOf(s, path, o, snapshot, DEFAULT_PAGE_BYTES, DEFAULT_PAGE_FRAMES),
                       DEFAULT_PAGE_BYTES, DEFAULT_PAGE_FRAMES)
    {
      var w := Whole(s, path);
      var st := s.streams[path];
      assert WellStored(st);
      ChainRises(st.messages, st.meta.forkOffset, st.meta.currentOffset);
      WholeIncreasing(s, path);
      hide Stored, WellStored, Whole, NextPage, FillPage;
      CutsCommute(w, ReadStart(o, snapshot), snapshot.tail);
      UpToAll(w, snapshot.tail);
      FilledPage(w, ReadStart(o, snapshot), snapshot, DEFAULT_PAGE_BYTES, DEFAULT_PAGE_FRAMES);
    }

    // ---- create and delete ----

    /** `resolveForkSubOffset`: the moved fork point, or the bytes to materialize. */
    method ResolveForkSubOffset(source: string, at: Offset, sub: nat)
        returns (r: Result<(Offset, seq<Bytes>), StoreError>)
      requires Valid() && source in streams && at.readSeq == 0 && sub > 0 && Ends(streams, source, at)
      ensures var next := After(Whole(Model(), source), at);
              r == if IsJson(streams[source].meta.contentType) then
                     if |next| < sub then Err(InvalidForkSubOffset) else Ok((next[sub - 1].offset, []))
                   else if next == [] || |next[0].data| < sub then Err(InvalidForkSubOffset)
                   else Ok((at, [next[0].data[..sub]]))
    {
      EndsIff(streams, source, at);
      hide Whole, After, Stored, Ends, EndsWithin;
      var next := ReadForkedStream(source, at, |streams|);
      if IsJson(streams[source].meta.contentType) {
        if |next| < sub {
          return Err(InvalidForkSubOffset);
        }
        return Ok((next[sub - 1].offset, []));
      }
      if |next| == 0 || |next[0].data| < sub {
        return Err(InvalidForkSubOffset);
      }
      return Ok((at, [next[0].data[..sub]]));
    }

    /** The checks a fork makes of its source before it takes a reference. */
    method PlanFork(opts: CreateOptions, now: int) returns (r: Result<Plan, StoreError>)
      requires Valid() && opts.forkedFrom != "" && PlanReturns(Model(), opts, now)
      ensures r == PlanOf(Model(), opts, now)
    {
      hide Stored, IsExpiredAt, Whole, After, EqualFold, Ends;
      if opts.forkedFrom !in streams {
        return Err(StreamNotFound);
      }
      var source := streams[opts.forkedFrom].meta;
      if source.softDeleted {
        return Err(StreamSoftDeleted);
      }
      if IsExpiredAt(source, now) {
        return Err(StreamNotFound);
      }
      if opts.contentType != "" && !EqualFold(opts.contentType, source.contentType) {
        return Err(ContentTypeMismatch);
      }
      var at := if opts.forkOffset.Some? then opts.forkOffset.value else source.currentOffset;
      if at.LessThan(ZERO_OFFSET) || source.currentOffset.LessThan(at) {
        return Err(InvalidForkOffset);
      }
      var prefix: seq<Bytes> := [];
      if opts.forkSubOffset.Some? && opts.forkSubOffset.value > 0 {
        SourceTailIsFlat(Model(), opts.forkedFrom);
        var resolved := ResolveForkSubOffset(opts.forkedFrom, at, opts.forkSubOffset.value);
        if resolved.Err? {
          return Err(resolved.error);
        }
        at, prefix := resolved.value.0, resolved.value.1;
      }
      var contentType := if opts.contentType == "" then source.contentType else opts.contentType;
      var ttl, expires := ResolveForkExpiry(opts, source);
      return Ok(Plan(at, prefix, contentType, ttl, expires));
    }

    static lemma SourceTailIsFlat(s: Store, source: string)
      requires Stored(s) && source in s.streams
      ensures s.streams[source].meta.currentOffset.readSeq == 0
    {
      var st := s.streams[source];
      assert WellStored(st);
      ChainRises(st.messages, st.meta.forkOffset, st.meta.currentOffset);
    }

    /** `resolveForkExpiry`: a request's own lifetime, else the source's. */
    static method ResolveForkExpiry(opts: CreateOptions, source: Metadata)
        returns (ttl: Option<nat>, expires: Option<int>)
      ensures ttl.None? || expires.None?
      ensures opts.ttlSeconds.Some? ==> ttl == opts.ttlSeconds
      ensures opts.ttlSeconds.None? && opts.expiresAt.Some? ==> expires == opts.expiresAt && ttl.None?
      ensures opts.ttlSeconds.None? && opts.expiresAt.None? ==>
                ttl == source.ttlSeconds && (ttl.None? ==> expires == source.expiresAt)
    {
      if opts.ttlSeconds.Some? {
        return opts.ttlSeconds, None;
      }
      if opts.expiresAt.Some? {
        return None, opts.expiresAt;
      }
      if source.ttlSeconds.Some? {
        return source.ttlSeconds, None;
      }
      if source.expiresAt.Some? {
        return None, source.expiresAt;
      }
      return None, None;
    }

    method Create(path: string, opts: CreateOptions, idOk: bool, now: int) returns (r: Result<bool, StoreError>)
      requires Valid() && ValidOp(StoreOps.Create(path, opts, idOk, now))
      requires CreateReturns(Model(), path, opts, idOk, now)
      modifies this`streams, this`nextIncarnation
      ensures Valid() && markers == old(markers)
      ensures var e := CreateStep(old(Model()), path, opts, idOk, now); Model() == e.store && r == e.reply
    {
      hide CreateStep, Stored, Surviving, IsExpiredAt, ConfigMatches, PlanReturns;
      ghost var s := Model();
      CreateKeeps(s, path, opts, idOk, now);
      DropKeeps(s, path);
      if path in streams {
        var existing := streams[path].meta;
        if IsExpiredAt(existing, now) {
          streams := streams - {path};
          CreateAfterDrop(s, path, opts, idOk, now);
        } else {
          LiveReply(s, path, opts, idOk, now);
          if existing.softDeleted {
            return Err(StreamExists);
          } else if ConfigMatches(existing, opts) {
            return Ok(false);
          } else {
            return Err(ConfigMismatch);
          }
        }
      } else {
        assert s.streams - {path} == s.streams;
      }
      if !idOk {
        NoIdReply(Model(), path, opts, now);
        return Err(NoIncarnation);
      }
      r := CreateFresh(path, opts, now);
    }

    static lemma LiveReply(s: Store, path: string, opts: CreateOptions, idOk: bool, now: int)
      requires path in s.streams && !IsExpiredAt(s.streams[path].meta, now)
      ensures var e, m := CreateStep(s, path, opts, idOk, now), s.streams[path].meta;
              && e.store == s
              && e.reply == (if m.softDeleted then Err(StreamExists)
                             else if ConfigMatches(m, opts) then Ok(false) else Err(ConfigMismatch))
    {
    }

    static lemma NoIdReply(s: Store, path: string, opts: CreateOptions, now: int)
      requires path !in s.streams
      ensures var e := CreateStep(s, path, opts, false, now); e.store == s && e.reply == Err(NoIncarnation)
    {
      assert s.streams - {path} == s.streams;
    }

    static lemma CreateAfterDrop(s: Store, path: string, opts: CreateOptions, idOk: bool, now: int)
      requires path in s.streams && IsExpiredAt(s.streams[path].meta, now)
      ensures CreateStep(s, path, opts, idOk, now) ==
              CreateStep(s.(streams := s.streams - {path}), path, opts, idOk, now)
    {
      hide IsExpiredAt, PlanOf;
      assert s.streams - {path} - {path} == s.streams - {path};
    }

    /** The rest of `Create`, once the path is free and an incarnation is drawn. */
    method CreateFresh(path: string, opts: CreateOptions, now: int) returns (r: Result<bool, StoreError>)
      requires Valid() && path !in streams && PlanReturns(Model(), opts, now)
      modifies this`streams, this`nextIncarnation
      ensures var e := CreateStep(old(Model()), path, opts, true, now); Model() == e.store && r == e.reply
    {
      ghost var s := Model();
      assert s.streams - {path} == s.streams;
      hide Stored, IsExpiredAt, PlanOf, ConfigMatches, NewStream, Retain, InitialFrames;
      var isFork := opts.forkedFrom != "";
      var plan := Plan(ZERO_OFFSET, [], OrDefault(opts.contentType), opts.ttlSeconds, opts.expiresAt);
      if isFork {
        var planned := PlanFork(opts, now);
        if planned.Err? {
          return Err(planned.error);
        }
        plan := planned.value;
        Reference(opts.forkedFrom, 1);
      } else {
        PlainPlan(s, opts, now);
      }
      var stream := BuildStream(plan, opts, nextIncarnation, now);
      if stream.Err? {
        if isFork {
          Reference(opts.forkedFrom, -1);
          RetainBack(s.streams, opts.forkedFrom);
        }
        return Err(stream.error);
      }
      streams, nextIncarnation := streams[path := stream.value], nextIncarnation + 1;
      return Ok(true);
    }

    /** Takes a reference on a stream, or gives one back. */
    method Reference(path: string, delta: int)
      modifies this`streams
      ensures streams == Retain(old(streams), path, delta)
    {
      if path in streams {
        var st := streams[path];
        streams := streams[path := st.(meta := st.meta.(refCount := st.meta.refCount + delta))];
      }
    }

    static lemma RetainBack(streams: map<string, Stream>, path: string)
      ensures Retain(Retain(streams, path, 1), path, -1) == streams
    {
    }

    /** The new stream: a materialized sub-offset prefix is its first own message, the
        initial data follows. */
    static method BuildStream(plan: Plan, opts: CreateOptions, incarnation: nat, now: int)
        returns (r: Result<Stream, StoreError>)
      ensures match InitialFrames(plan, opts)
              case Err(e) => r == Err(e)
              case Ok(frames) => r == Ok(NewStream(plan, frames, opts, incarnation, now))
    {
      var stream := NewStream(plan, [], opts, incarnation, now);
      NewStreamContentType(plan, opts, incarnation, now);
      hide NewStream;
      if opts.initialData.None? {
        return Ok(stream);
      }
      r := AppendToStream(stream, opts.initialData.value);
      if r.Ok? {
        InitialDataFollows(plan, FramesOf(plan.contentType, opts.initialData.value).value, opts, incarnation, now);
      }
    }

    static lemma NewStreamContentType(plan: Plan, opts: CreateOptions, incarnation: nat, now: int)
      ensures NewStream(plan, [], opts, incarnation, now).meta.contentType == plan.contentType
    {
    }

    static lemma PlainPlan(s0: Store, opts: CreateOptions, now: int)
      requires opts.forkedFrom == ""
      ensures PlanOf(s0, opts, now) ==
              Ok(Plan(ZERO_OFFSET, [], OrDefault(opts.contentType), opts.ttlSeconds, opts.expiresAt))
    {
    }

    /** Laying the prefix first and the initial data after it is laying them in one go. */
    static lemma InitialDataFollows(plan: Plan, frames: seq<Bytes>, opts: CreateOptions, incarnation: nat, now: int)
      ensures var st := NewStream(plan, [], opts, incarnation, now);
              NewStream(plan, frames, opts, incarnation, now) ==
              st.(messages := st.messages + Laid(st.meta.currentOffset, frames),
                  meta := st.meta.(currentOffset := st.meta.currentOffset.Add(TotalLength(frames))))
    {
      assert plan.prefix + [] == plan.prefix;
      LaidConcat(plan.forkOffset, plan.prefix, frames);
      TotalLengthConcat(plan.prefix, frames);
    }

    method Delete(path: string) returns (err: Option<StoreError>)
      modifies this
      ensures var e := DeleteStep(old(Model()), path); Performed(e, old(tokens)) && err == e.reply
      ensures waiters == old(waiters) && (old(Valid()) ==> Valid())
    {
      hide Stored, Surviving;
      if Valid() {
        DeleteKeeps(Model(), path);
      }
      assert ChannelsAt(waiters, {}) == {};
      if path !in streams {
        return Some(StreamNotFound);
      }
      var st := streams[path];
      if st.meta.softDeleted {
        return Some(StreamSoftDeleted);
      }
      if st.meta.refCount > 0 {
        streams := streams[path := st.(meta := st.meta.(softDeleted := true))];
        return None;
      }
      err := this.DeleteWithCascade(path);
    }

    method DeleteWithCascade(path: string) returns (err: Option<StoreError>)
      modifies this`streams, this`tokens
      ensures var c := StoreOps.DeleteWithCascade(old(streams), path);
              streams == c.streams && err == c.err && tokens == old(tokens) + ChannelsAt(waiters, c.notified)
      decreases |streams|
    {
      assert ChannelsAt(waiters, {}) == {};
      if path !in streams {
        return None;
      }
      var forkedFrom := streams[path].meta.forkedFrom;
      ghost var before := streams;
      streams := streams - {path};
      Notify(path);
      if forkedFrom != "" && forkedFrom in streams {
        var parent := streams[forkedFrom];
        var count := parent.meta.refCount - 1;
        if count < 0 {
          streams := streams[forkedFrom := parent.(meta := parent.meta.(refCount := 0))];
          return Some(RefCountUnderflow);
        }
        streams := streams[forkedFrom := parent.(meta := parent.meta.(refCount := count))];
        if count == 0 && parent.meta.softDeleted {
          assert streams.Keys == before.Keys - {path} && |streams.Keys| == |before.Keys| - 1;
          ghost var up := StoreOps.DeleteWithCascade(streams, forkedFrom);
          ChannelsOfBoth(waiters, up.notified, {path});
          err := this.DeleteWithCascade(forkedFrom);
          return;
        }
      }
      return None;
    }

    // ---- append and close ----

    /** `fenceRung`: gathers the inputs of the write-fence decision. */
    method DecideFence(path: string, st: Stream, fence: Option<AppendFence>, producerId: string, epoch: Option<int>,
        now: int)
      returns (out: FenceOutcome)
      ensures out == FenceRung(Model(), path, st, fence, producerId, epoch, now)
      ensures out.reason == FenceNone <==> MayWrite(Model(), path, st, fence, producerId, epoch, now)
    {
      RungAnswers(Model(), path, st, fence, producerId, epoch, now);
      hide MayWrite;
      var input := FenceInput(st.meta.writeFence, st.meta.incarnation, fence, None, None, now, epoch, 0);
      if fence.None? && !input.streamFenced {
        return FENCE_PASS;
      }
      if fence.Some? {
        var authority := FenceAuthority(fence.value);
        var key := MarkerKey(path, authority);
        if key in markers {
          input := input.(marker := Some(markers[key]));
        }
        if authority in st.seals {
          input := input.(seal := Some(st.seals[authority]));
        }
      } else if input.producerEpoch.Some? && producerId in st.bound {
        input := input.(boundGeneration := st.bound[producerId]);
      }
      return EvaluateWriteFence(input);
    }

    /** The rungs of the append ladder down to the fence; nothing has changed yet. */
    method RefuseAppend(path: string, opts: AppendOptions, now: int) returns (r: Option<AppendReply>)
      ensures r == AppendRefusal(Model(), path, opts, now)
      ensures r.None? ==> path in streams
    {
      hide FenceRung, IsExpiredAt;
      if opts.fence.Some? && !opts.fence.value.Complete() {
        return Some(AppendReply(NO_RESULT, Some(AppendFenced)));
      }
      if opts.HasProducerHeaders() && !opts.HasAllProducerHeaders() {
        return Some(AppendReply(NO_RESULT, Some(PartialProducer)));
      }
      if path !in streams {
        return Some(AppendReply(NO_RESULT, Some(StreamNotFound)));
      }
      var st := streams[path];
      if st.meta.softDeleted {
        return Some(AppendReply(NO_RESULT, Some(StreamSoftDeleted)));
      }
      if IsExpiredAt(st.meta, now) {
        return Some(AppendReply(NO_RESULT, Some(StreamNotFound)));
      }
      var out := DecideFence(path, st, opts.fence, opts.producerId, opts.producerEpoch, now);
      if out.reason != FenceNone {
        return Some(AppendReply(NO_RESULT.(fence := out), Some(AppendFenced)));
      }
      return None;
    }

    method Append(path: string, body: Payload, opts: AppendOptions, now: int) returns (r: AppendReply)
      modifies this
      ensures var e := AppendStep(old(Model()), path, body, opts, now); Performed(e, old(tokens)) && r == e.reply
      ensures waiters == old(waiters)
      ensures old(Valid()) && ValidOp(StoreOps.Append(path, body, opts, now)) ==> Valid()
    {
      hide Stored, Surviving, ValidOp;
      if Valid() && ValidOp(StoreOps.Append(path, body, opts, now)) {
        AppendKeeps(Model(), path, body, opts, now);
      }
      assert tokens + ChannelsAt(waiters, {}) == tokens;
      hide ChannelsAt, AppendRefusal, AppendDecision, Appended;
      var refused := RefuseAppend(path, opts, now);
      match refused {
        case Some(reply) => return reply;
        case None =>
          var st, committed, reply := AppendTo(streams[path], body, opts, now);
          streams := streams[path := st];
          if committed {
            if opts.close {
              Notify(path);  // notifyClosed
            }
            Notify(path);
            assert tokens == old(tokens) + ChannelsAt(waiters, {path});
          }
          return reply;
      }
    }

    /** What an append that passed the fence does to its stream. */
    static method AppendTo(stream: Stream, body: Payload, opts: AppendOptions, now: int)
      returns (st: Stream, committed: bool, r: AppendReply)
      ensures var touched := stream.(meta := stream.meta.(lastAccessedAt := now));
              match AppendDecision(touched.meta, body, opts, now)
              case Answer(reply) => st == touched && !committed && r == reply
              case Commit(producer, frames) =>
                && st == Appended(touched, opts, producer, frames) && committed
                && r == AppendReply(
                          AppendResult(st.meta.currentOffset, if producer.Some? then Accepted else NoProducer,
                                       if producer.Some? then producer.value.lastSeq else 0, opts.close, FENCE_PASS),
                          None)
    {
      hide AppendDecision, Appended;
      st := stream.(meta := stream.meta.(lastAccessedAt := now));
      var v := DecideAppend(st.meta, body, opts, now);
      match v {
        case Answer(reply) => return st, false, reply;
        case Commit(producer, frames) =>
          st := CommitAppend(st, body, opts, producer, frames);
          var lastSeq := if producer.Some? then producer.value.lastSeq else 0;
          return st, true,
            AppendReply(AppendResult(st.meta.currentOffset, if producer.Some? then Accepted else NoProducer,
                                     lastSeq, opts.close, FENCE_PASS), None);
      }
    }

    /** The rungs of the append ladder below the fence. */
    static method DecideAppend(m: Metadata, body: Payload, opts: AppendOptions, now: int) returns (v: AppendVerdict)
      ensures v == AppendDecision(m, body, opts, now)
      ensures v.Commit? ==> FramesOf(m.contentType, body) == Ok(v.frames)
    {
      var at := NO_RESULT.(offset := m.currentOffset);
      if m.closed {
        if opts.HasAllProducerHeaders() && m.closedBy.Some? && m.closedBy.value.producerId == opts.producerId
           && m.closedBy.value.epoch == opts.producerEpoch.value
           && m.closedBy.value.sequence == opts.producerSeq.value {
          return Answer(AppendReply(
            at.(producerResult := Duplicate, lastSeq := opts.producerSeq.value, streamClosed := true), None));
        }
        return Answer(AppendReply(at.(streamClosed := true), Some(StreamClosed)));
      }
      if opts.contentType != "" && !ContentTypeMatches(m.contentType, opts.contentType) {
        return Answer(AppendReply(NO_RESULT, Some(ContentTypeMismatch)));
      }
      var producer: Option<ProducerState> := None;
      if opts.HasAllProducerHeaders() {
        var checked := ValidateProducer(
          ProducerOf(m, opts.producerId), opts.producerEpoch.value, opts.producerSeq.value, now / NS);
        if checked.Refuse? {
          return Answer(AppendReply(at, Some(ProducerRefused(checked.error))));
        }
        if checked.Repeat? {
          return Answer(AppendReply(at.(producerResult := Duplicate, lastSeq := checked.lastSeq), None));
        }
        producer := Some(checked.state);
      }
      if opts.sequence != "" && m.lastSeq != "" && !Before(m.lastSeq, opts.sequence) {
        return Answer(AppendReply(NO_RESULT, Some(SequenceConflict)));
      }
      var frames := FramesOf(m.contentType, body);
      if frames.Err? {
        return Answer(AppendReply(NO_RESULT, Some(frames.error)));
      }
      return Commit(producer, frames.value);
    }

    /** Data, binding, sequence, producer state and closedness, one field after the other. */
    static method CommitAppend(st: Stream, body: Payload, opts: AppendOptions, producer: Option<ProducerState>,
        ghost frames: seq<Bytes>)
      returns (r: Stream)
      requires FramesOf(st.meta.contentType, body) == Ok(frames)
      ensures r == Appended(st, opts, producer, frames)
    {
      var appended := AppendToStream(st, body);
      r := appended.value;
      hide Laid, TotalLength;
      var lastFencedOff, bound := r.lastFencedOff, r.bound;
      if opts.fence.Some? && r.meta.writeFence {
        lastFencedOff, bound := Some(r.meta.currentOffset), r.bound[opts.producerId := opts.fence.value.generation];
      }
      var lastSeq, producers := r.meta.lastSeq, r.meta.producers;
      if opts.sequence != "" {
        lastSeq := opts.sequence;
      }
      if producer.Some? {
        producers := producers[opts.producerId := producer.value];
      }
      var closed, closedBy := r.meta.closed, r.meta.closedBy;
      if opts.close {
        closed := true;
        if opts.HasAllProducerHeaders() {
          closedBy := Some(ClosedBy(opts.producerId, opts.producerEpoch.value, opts.producerSeq.value));
        }
      }
      r := r.(lastFencedOff := lastFencedOff, bound := bound,
              meta := r.meta.(lastSeq := lastSeq, producers := producers, closed := closed, closedBy := closedBy));
    }

    /** `CloseStream` and `CloseStreamFenced`. */
    method CloseStream(path: string, fence: Option<AppendFence>, now: int) returns (r: CloseReply)
      modifies this
      ensures var e := CloseStep(old(Model()), path, fence, now); Performed(e, old(tokens)) && r == e.reply
      ensures waiters == old(waiters) && (old(Valid()) ==> Valid())
    {
      hide Stored, Surviving;
      if Valid() {
        CloseKeeps(Model(), path, fence, now);
      }
      assert tokens + ChannelsAt(waiters, {}) == tokens;
      hide ChannelsAt, FenceRung, IsExpiredAt;
      if fence.Some? && !fence.value.Complete() {
        return NO_CLOSE.(err := Some(AppendFenced));
      }
      if path !in streams || IsExpiredAt(streams[path].meta, now) {
        return NO_CLOSE.(err := Some(StreamNotFound));
      }
      var st := streams[path];
      var out := DecideFence(path, st, fence, "", None, now);
      if out.reason != FenceNone {
        return NO_CLOSE.(fence := out, err := Some(AppendFenced));
      }
      var alreadyClosed := st.meta.closed;
      streams := streams[path := st.(meta := st.meta.(closed := true))];
      Notify(path);
      return NO_CLOSE.(finalOffset := st.meta.currentOffset, alreadyClosed := alreadyClosed);
    }

    method CloseStreamWithProducer(path: string, id: string, epoch: int, sequence: int, fence: Option<AppendFence>,
        now: int)
      returns (r: CloseReply)
      modifies this
      ensures var e := CloseProducerStep(old(Model()), path, id, epoch, sequence, fence, now);
          Performed(e, old(tokens)) && r == e.reply
      ensures waiters == old(waiters) && (old(Valid()) ==> Valid())
    {
      hide Stored, Surviving;
      if Valid() {
        CloseProducerKeeps(Model(), path, id, epoch, sequence, fence, now);
      }
      assert tokens + ChannelsAt(waiters, {}) == tokens;
      hide ChannelsAt, FenceRung, IsExpiredAt, CloseDecision;
      if fence.Some? && !fence.value.Complete() {
        return NO_CLOSE.(err := Some(AppendFenced));
      }
      if path !in streams || IsExpiredAt(streams[path].meta, now) {
        return NO_CLOSE.(err := Some(StreamNotFound));
      }
      var st := streams[path];
      var out := DecideFence(path, st, fence, id, Some(epoch), now);
      if out.reason != FenceNone {
        return NO_CLOSE.(fence := out, err := Some(AppendFenced));
      }
      var v := DecideClose(st.meta, id, epoch, sequence, now);
      if v.CloseAnswer? {
        return v.reply;
      }
      var off := st.meta.currentOffset;
      st := st.(meta := st.meta.(producers := st.meta.producers[id := v.producer], closed := true,
                                 closedBy := Some(ClosedBy(id, epoch, sequence))));
      if fence.Some? && st.meta.writeFence {
        st := st.(lastFencedOff := Some(off), bound := st.bound[id := fence.value.generation]);
      }
      streams := streams[path := st];
      Notify(path);
      return NO_CLOSE.(finalOffset := off, producerResult := Accepted, lastSeq := v.producer.lastSeq,
          streamClosed := true);
    }

    static method DecideClose(m: Metadata, id: string, epoch: int, sequence: int, now: int) returns (v: CloseVerdict)
      ensures v == CloseDecision(m, id, epoch, sequence, now)
    {
      var at := NO_CLOSE.(finalOffset := m.currentOffset);
      if m.closed {
        if m.closedBy.Some? && m.closedBy.value.producerId == id && m.closedBy.value.epoch == epoch
           && m.closedBy.value.sequence == sequence {
          return CloseAnswer(at.(producerResult := Duplicate, lastSeq := sequence, streamClosed := true,
              alreadyClosed := true));
        }
        return CloseAnswer(at.(streamClosed := true, alreadyClosed := true, err := Some(StreamClosed)));
      }
      var checked := ValidateProducer(ProducerOf(m, id), epoch, sequence, now / NS);
      if checked.Refuse? {
        return CloseAnswer(at.(err := Some(ProducerRefused(checked.error))));
      }
      if checked.Repeat? {
        return CloseAnswer(at.(producerResult := Duplicate, lastSeq := checked.lastSeq));
      }
      return CloseCommit(checked.state);
    }

    // ---- claim markers ----

    method GrantAppendFence(path: string, f: AppendFence, now: int) returns (r: Result<bool, StoreError>)
      modifies this
      ensures var e := GrantStep(old(Model()), path, f, now); Model() == e.store && r == e.reply
      ensures waiters == old(waiters) && tokens == old(tokens) && (old(Valid()) ==> Valid())
    {
      hide Stored, Surviving;
      if Valid() {
        GrantKeeps(Model(), path, f, now);
      }
      hide FenceAuthority;
      if !f.Complete() || f.leaseUntilNs <= now {
        return Err(AppendFenced);
      }
      if path !in streams || streams[path].meta.incarnation == 0 {
        return Ok(false);
      }
      var st := streams[path];
      var authority := FenceAuthority(f);
      var seal := SealOf(st, authority);
      if seal.Some? && f.generation <= seal.value.generation {
        return Err(AppendFenced);
      }
      var lease := f.leaseUntilNs;
      var key := MarkerKey(path, authority);
      if key in markers {
        var cur := markers[key];
        if f.generation < cur.generation {
          return Err(AppendFenced);
        } else if f.generation == cur.generation {
          if cur.state != Live || cur.wakeId != f.wakeId || cur.holder != f.holder {
            return Err(AppendFenced);
          }
          if cur.leaseUntilNs > lease {
            lease := cur.leaseUntilNs;
          }
        } else if st.meta.writeFence && (seal.None? || cur.generation > seal.value.generation) {
          st := SealStream(st, authority, cur.generation, cur.wakeId);
        }
      }
      streams := streams[path := st];
      markers := markers[key := Marker(Live, f.generation, f.wakeId, f.holder, lease, st.meta.incarnation)];
      return Ok(true);
    }

    /** `seal`: records the seal at the definite last fenced offset, or at the tail when
        no fenced write was ever accepted. */
    static method SealStream(st: Stream, a: Authority, generation: int, wakeId: string) returns (r: Stream)
      ensures r == Sealed(st, a, generation, wakeId)
    {
      var off := st.meta.currentOffset;
      if st.lastFencedOff.Some? {
        off := st.lastFencedOff.value;
      }
      r := st.(seals := st.seals[a := Seal(generation, wakeId, off)]);
      r := r.(meta := r.meta.(sealedGeneration := generation, sealedOffset := Some(off)));
    }

    /** `tombstone`: revokes the marker unless a newer or another claim holds it. */
    method WriteTombstone(path: string, f: AppendFence) returns (written: bool)
      modifies this`markers
      ensures Model() == Tombstone(old(Model()), path, f)
      ensures written <==> !StaleClaim(MarkerOf(old(Model()), path, FenceAuthority(f)), f)
    {
      var key := MarkerKey(path, FenceAuthority(f));
      var incarnation := 0;
      if key in markers {
        var cur := markers[key];
        if f.generation < cur.generation
           || (f.generation == cur.generation && (cur.wakeId != f.wakeId || cur.holder != f.holder)) {
          return false;
        }
        incarnation := cur.streamIncarnation;
      }
      markers := markers[key := Marker(Revoked, f.generation, f.wakeId, f.holder, 0, incarnation)];
      return true;
    }

    method RevokeAppendFence(path: string, f: AppendFence) returns (err: Option<StoreError>)
      modifies this
      ensures var e := RevokeStep(old(Model()), path, f); Model() == e.store && err == e.reply
      ensures waiters == old(waiters) && tokens == old(tokens) && (old(Valid()) ==> Valid())
    {
      hide Stored, Surviving;
      if Valid() {
        Unchanged(Model(), Tombstone(Model(), path, f));
      }
      if !f.Complete() {
        return Some(AppendFenced);
      }
      var _ := WriteTombstone(path, f);
      return None;
    }

    method SealAppendFence(path: string, f: AppendFence) returns (r: Result<SealResult, StoreError>)
      modifies this
      ensures var e := SealStep(old(Model()), path, f); Model() == e.store && r == e.reply
      ensures waiters == old(waiters) && tokens == old(tokens) && (old(Valid()) ==> Valid())
    {
      hide Stored, Surviving;
      if Valid() {
        SealKeeps(Model(), path, f);
      }
      hide FenceAuthority;
      if !f.Complete() {
        return Err(AppendFenced);
      }
      var authority := FenceAuthority(f);
      var written := WriteTombstone(path, f);
      if !written {
        return Ok(SealResult(SealStale, 0, ZERO_OFFSET));
      }
      if path !in streams {
        return Ok(SealResult(SealNotFound, 0, ZERO_OFFSET));
      }
      var st := streams[path];
      if !st.meta.writeFence {
        return Ok(SealResult(SealUnfenced, 0, ZERO_OFFSET));
      }
      if authority in st.seals && f.generation <= st.seals[authority].generation {
        return Ok(SealResult(SealAlready, st.seals[authority].generation, st.seals[authority].offset));
      }
      st := SealStream(st, authority, f.generation, f.wakeId);
      streams := streams[path := st];
      return Ok(SealResult(SealSealed, f.generation, st.seals[authority].offset));
    }

    /** A marker whose retention has run out is dropped when it is next looked at. */
    method ReapMarker(path: string, a: Authority)
      modifies this`markers
      ensures Model() == ReapStep(old(Model()), path, a) && (old(Valid()) ==> Valid())
    {
      markers := markers - {MarkerKey(path, a)};
    }
  }
}
