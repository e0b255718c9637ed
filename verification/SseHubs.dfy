/** The SSE hub: one replay ring, read by many watchers (sse_hub.go). */
module SseHubs {
  import opened Prelude
  import opened Offsets
  import opened StoreModel
  import opened StoreOps
  import opened StoreInvariants
  import opened ForkContent
  import opened Paging
  import opened SseRings

  /** What a page read on from `from` can hold. */
  ghost predicate ReadOnFrom(from: Offset, messages: seq<Message>) {
    && Increasing(messages) && Framed(messages)
    && (forall i :: 0 <= i < |messages| ==> from.LessThan(messages[i].offset))
  }

  // ---- publishing ----

  /** Only the last event of a publication carries its flags. */
  function FlagLast(events: seq<HubEvent>, upToDate: bool, streamClosed: bool, tail: Offset): (r: seq<HubEvent>)
    ensures |r| == |events|
  {
    if events == [] then []
    else
      var last := events[|events| - 1];
      events[|events| - 1 := last.(upToDate := upToDate, closed := streamClosed && last.to == tail)]
  }

  /** `ev` with another number. */
  ghost predicate NumberedFrom(events: seq<HubEvent>, plain: seq<HubEvent>, next: nat) {
    && |events| == |plain|
    && (forall k :: 0 <= k < |events| ==> events[k] == plain[k].(sequence := next + k))
  }

  /** The offset that a list of events leads to. */
  function EndOf(current: Offset, events: seq<HubEvent>): Offset {
    if events == [] then current else events[|events| - 1].to
  }

  /** Numbers the events in order and adds up their memory. */
  method Number(plain: seq<HubEvent>, next: nat, bytes: nat, current: Offset)
    returns (events: seq<HubEvent>, next': nat, bytes': nat, current': Offset)
    ensures NumberedFrom(events, plain, next) && next' == next + |plain|
    ensures bytes' == bytes + MemoryOf(events) && current' == EndOf(current, plain)
  {
    events, next', bytes', current' := [], next, bytes, current;
    for i := 0 to |plain|
      invariant NumberedFrom(events, plain[..i], next) && next' == next + i
      invariant bytes' == bytes + MemoryOf(events) && current' == EndOf(current, plain[..i])
    {
      var event := plain[i].(sequence := next');
      MemorySnoc(events, event);
      events, next', bytes', current' := events + [event], next' + 1, bytes' + event.memorySize, event.to;
    }
    assert plain[..|plain|] == plain;
  }

  lemma {:induction false} MemoryConcat(a: seq<HubEvent>, b: seq<HubEvent>)
    ensures MemoryOf(a + b) == MemoryOf(a) + MemoryOf(b)
    decreases |b|
  {
    if b == [] {
      assert a + b == a;
    } else {
      var n := |b| - 1;
      assert a + b == (a + b[..n]) + [b[n]] && b == b[..n] + [b[n]];
      MemoryConcat(a, b[..n]);
      MemorySnoc(a + b[..n], b[n]);
      MemorySnoc(b[..n], b[n]);
    }
  }

  /** The ring keeps the longest run of newest events that fits, and never loses the last. */
  ghost predicate Evicted(events: seq<HubEvent>, kept: seq<HubEvent>, limit: nat) {
    && |kept| <= |events| && kept == events[|events| - |kept|..]
    && (MemoryOf(kept) <= limit || |kept| <= 1) && (events != [] ==> kept != [])
    && (|kept| < |events| ==> MemoryOf(events[|events| - |kept| - 1..]) > limit)
  }

  method Evict(ghost origin: Offset, ghost log: Log, events: seq<HubEvent>, first: nat, bytes: nat, limit: nat)
    returns (events': seq<HubEvent>, first': nat, bytes': nat)
    requires RingOk(origin, log, events, first) && bytes == MemoryOf(events)
    ensures RingOk(origin, log, events', first') && bytes' == MemoryOf(events')
    ensures Evicted(events, events', limit)
  {
    hide RingOk;
    events', first', bytes' := events, first, bytes;
    ghost var gone := 0;
    while bytes' > limit && |events'| > 1
      invariant 0 <= gone <= |events| && events' == events[gone..] && (events != [] ==> events' != [])
      invariant RingOk(origin, log, events', first') && bytes' == MemoryOf(events')
      invariant gone > 0 ==> MemoryOf(events[gone - 1..]) > limit
    {
      RingShrinks(origin, log, events', first');
      events', first', bytes' := events'[1..], first' + 1, bytes' - events'[0].memorySize;
      gone := gone + 1;
    }
  }

  // ---- what a watcher is handed ----

  datatype NextResult = Event(event: HubEvent) | Nothing | Lagged | Failed | NotAttached

  /** The ring lookup of `next`. */
  function LookUp(events: seq<HubEvent>, first: nat, next: nat, w: Watcher): NextResult
    requires first <= w.sequence < first + |events| ==> w.firstWireStart <= |events[w.sequence - first].data|
  {
    if w.sequence < first then Lagged
    else if w.sequence >= next then Nothing
    else if w.sequence - first >= |events| then Lagged
    else
      var found := events[w.sequence - first];
      if w.firstWireStart == 0 then Event(found)
      else
        var rest := found.data[w.firstWireStart..];
        Event(HubEvent(found.sequence, w.offset, found.to, rest, [], found.upToDate, found.closed, |rest|))
  }

  /** `event` is what a watcher in state `w` is due next. */
  ghost predicate Due(origin: Offset, log: Log, w: Watcher, event: HubEvent) {
    && event.sequence == w.sequence && 1 <= event.sequence <= |log| && event.from == w.offset
    && event.to == StartOf(origin, log, event.sequence) && w.offset.LessThan(event.to)
    && Exact(log, w.offset, event.to, event.data)
  }

  lemma RestOfWire(found: HubEvent, ms: seq<Message>, from: Offset, j: nat)
    requires IsEvent(found, ms, from) && j <= |ms|
    ensures |Wire(ms[..j])| <= |found.data| && found.data[|Wire(ms[..j])|..] == Wire(ms[j..])
    ensures found.from == from && found.to == ms[|ms| - 1].offset
  {
    WireSuffix(ms, j);
  }

  /** What a watcher is handed by a lookup, given the retained event it stands in. */
  ghost function Rest(found: HubEvent, w: Watcher): HubEvent
    requires w.firstWireStart <= |found.data|
  {
    if w.firstWireStart == 0 then found
    else
      HubEvent(found.sequence, w.offset, found.to, found.data[w.firstWireStart..], [],
               found.upToDate, found.closed, |found.data| - w.firstWireStart)
  }

  lemma RestIsDue(origin: Offset, log: Log, found: HubEvent, w: Watcher, j: nat)
    requires LogOk(origin, log) && StandsAt(origin, log, w, j) && found.sequence == w.sequence
    requires IsEvent(found, log[w.sequence - 1], StartOf(origin, log, w.sequence - 1))
    ensures w.firstWireStart <= |found.data| && Due(origin, log, w, Rest(found, w))
  {
    var k := w.sequence - 1;
    hide IsEvent, LogOk, Wire, Flat, Between;
    RestOfWire(found, log[k], StartOf(origin, log, k), j);
    RestOfEvent(origin, log, k, j);
    PositionRises(origin, log, k, j);
    if w.firstWireStart == 0 {
      WireStartsAtZero(origin, log, k, j);
      assert found.data[0..] == found.data;
    }
  }

  lemma PositionRises(origin: Offset, log: Log, k: nat, j: nat)
    requires LogOk(origin, log) && k < |log| && j < |log[k]|
    ensures Position(origin, log, k, j).LessThan(StartOf(origin, log, k + 1))
  {
    EventRises(origin, log, k);
    hide LogOk;
    assert j > 0 ==> log[k][j - 1].offset.LessThan(log[k][|log[k]| - 1].offset);
  }

  lemma BehindTail(origin: Offset, log: Log, w: Watcher) returns (j: nat)
    requires WatcherOk(origin, log, w) && w.attached && w.offset != StartOf(origin, log, |log|)
    ensures StandsAt(origin, log, w, j) && w.sequence <= |log|
  {
    j :| StandsAt(origin, log, w, j);
  }

  /** A watcher that is behind the tail gets the rest of its event, or learns that it is gone. */
  lemma LookUpIsExact(origin: Offset, log: Log, events: seq<HubEvent>, first: nat, w: Watcher)
    requires RingOk(origin, log, events, first) && WatcherOk(origin, log, w) && w.attached
    requires w.offset != StartOf(origin, log, |log|)
    ensures first <= w.sequence ==>
              && w.sequence < first + |events| && w.firstWireStart <= |events[w.sequence - first].data|
              && Due(origin, log, w, Rest(events[w.sequence - first], w))
    ensures LookUp(events, first, |log| + 1, w) ==
            if w.sequence < first then Lagged else Event(Rest(events[w.sequence - first], w))
  {
    hide RingOk, LogOk, WatcherOk, IsEvent, Due, StandsAt;
    RingHasLog(origin, log, events, first);
    var j := BehindTail(origin, log, w);
    if first <= w.sequence {
      RetainedEvent(origin, log, events, first, w.sequence - first);
      RestIsDue(origin, log, events[w.sequence - first], w, j);
    }
  }

  // ---- what the watchers have been handed since they attached ----

  /** Where a watcher attached, and the bytes it has committed since. */
  datatype Reading = Reading(from: Offset, bytes: Bytes)

  /** The watcher has had exactly the frames between its attach offset and where it stands. */
  ghost predicate ReadingOk(origin: Offset, log: Log, w: Watcher, r: Reading) {
    && WatcherOk(origin, log, w) && Exact(log, r.from, w.offset, r.bytes)
    && origin.LessThanOrEqual(r.from) && r.from.LessThanOrEqual(w.offset)
    && w.offset.LessThanOrEqual(StartOf(origin, log, |log|))
  }

  ghost predicate ReadingsOk(origin: Offset, log: Log, watchers: map<nat, Watcher>, readings: map<nat, Reading>) {
    forall id :: id in watchers && watchers[id].attached ==>
      id in readings && ReadingOk(origin, log, watchers[id], readings[id])
  }

  /** Messages that follow the tail of a log. */
  ghost predicate Follows(origin: Offset, log: Log, messages: seq<Message>) {
    forall i :: 0 <= i < |messages| ==> StartOf(origin, log, |log|).LessThan(messages[i].offset)
  }

  lemma ReadingStays(origin: Offset, log: Log, batches: Log, w: Watcher, r: Reading)
    requires ReadingOk(origin, log, w, r) && LogOk(origin, log) && LogOk(origin, log + batches)
    requires Filled(batches) && Follows(origin, log, Flat(batches))
    ensures ReadingOk(origin, log + batches, w, r)
  {
    hide WatcherOk, Exact, LogOk;
    WatcherStays(origin, log, batches, w);
    FlatConcat(log, batches);
    ExactStays(origin, log, batches, r.from, w.offset, r.bytes);
    TailRises(origin, log, batches);
  }

  lemma TailRises(origin: Offset, log: Log, batches: Log)
    requires LogOk(origin, log) && LogOk(origin, log + batches)
    ensures StartOf(origin, log, |log|).LessThanOrEqual(StartOf(origin, log + batches, |log + batches|))
  {
    hide LogOk;
    LogIsFilled(origin, log);
    LogIsFilled(origin, log + batches);
    if batches != [] {
      assert StartOf(origin, log + batches, |log|) == StartOf(origin, log, |log|);
      StartsRise(origin, log + batches, |log|, |log + batches|);
    } else {
      assert log + batches == log;
    }
  }

  lemma ReadingsStay(origin: Offset, log: Log, batches: Log, watchers: map<nat, Watcher>, readings: map<nat, Reading>)
    requires ReadingsOk(origin, log, watchers, readings) && LogOk(origin, log) && LogOk(origin, log + batches)
    requires Filled(batches) && Follows(origin, log, Flat(batches))
    ensures ReadingsOk(origin, log + batches, watchers, readings)
  {
    hide ReadingOk, LogOk, Filled, Follows;
    forall id | id in watchers && watchers[id].attached
      ensures id in readings && ReadingOk(origin, log + batches, watchers[id], readings[id])
    {
      ReadingStays(origin, log, batches, watchers[id], readings[id]);
    }
  }

  /** A watcher that has just attached has been handed nothing yet. */
  lemma ReadingBegins(origin: Offset, log: Log, w: Watcher)
    requires LogOk(origin, log) && WatcherOk(origin, log, w) && w.attached
    requires w.offset.LessThanOrEqual(StartOf(origin, log, |log|))
    ensures ReadingOk(origin, log, w, Reading(w.offset, []))
  {
    hide LogOk, WatcherOk;
    WatcherAfterOrigin(origin, log, w);
    NothingBetween(Flat(log), w.offset);
    EmptyWire();
  }

  lemma WatcherAfterOrigin(origin: Offset, log: Log, w: Watcher)
    requires LogOk(origin, log) && WatcherOk(origin, log, w) && w.attached
    ensures origin.LessThanOrEqual(w.offset)
  {
    hide LogOk;
    if w.sequence <= |log| {
      var j :| StandsAt(origin, log, w, j);
      var k := w.sequence - 1;
      EventRises(origin, log, k);
      assert j > 0 ==> StartOf(origin, log, k).LessThan(log[k][j - 1].offset);
      StartAfterOrigin(origin, log, k);
    } else {
      StartAfterOrigin(origin, log, |log|);
    }
  }

  lemma StartAfterOrigin(origin: Offset, log: Log, k: nat)
    requires LogOk(origin, log) && k <= |log|
    ensures origin.LessThanOrEqual(StartOf(origin, log, k))
  {
    if k > 0 {
      StartsRise(origin, log, 0, k);
    }
  }

  lemma NothingBetween(ms: seq<Message>, o: Offset)
    ensures Between(ms, o, o) == []
  {
    hide After, UpTo;
    AfterSelects(ms, o);
    UpToNone(After(ms, o), o);
  }

  lemma TailReader(origin: Offset, log: Log)
    requires LogOk(origin, log)
    ensures WatcherOk(origin, log, Watcher(true, |log| + 1, StartOf(origin, log, |log|), 0))
  {
    LogIsFilled(origin, log);
  }

  /** Committing the event that is due moves the watcher to the event's end, with all it held. */
  lemma ReadingAdvances(origin: Offset, log: Log, w: Watcher, r: Reading, event: HubEvent)
    requires LogOk(origin, log) && w.attached && ReadingOk(origin, log, w, r) && Due(origin, log, w, event)
    ensures ReadingOk(origin, log, Watcher(true, w.sequence + 1, event.to, 0), Reading(r.from, r.bytes + event.data))
  {
    hide LogOk, WatcherOk, Exact;
    NextStand(origin, log, event.sequence);
    ExactJoins(origin, log, r.from, w.offset, event.to, r.bytes, event.data);
    if event.sequence < |log| {
      StartsRise(origin, log, event.sequence, |log|);
    }
  }

  lemma NextStand(origin: Offset, log: Log, k: nat)
    requires LogOk(origin, log) && k <= |log|
    ensures WatcherOk(origin, log, Watcher(true, k + 1, StartOf(origin, log, k), 0))
  {
    hide LogOk, WatcherOk;
    if k < |log| {
      StandsAtStart(origin, log, k, Watcher(true, k + 1, StartOf(origin, log, k), 0));
    } else {
      TailReader(origin, log);
    }
  }

  lemma ExactJoins(origin: Offset, log: Log, a: Offset, b: Offset, c: Offset, x: Bytes, y: Bytes)
    requires LogOk(origin, log) && Exact(log, a, b, x) && Exact(log, b, c, y)
    requires a.LessThanOrEqual(b) && b.LessThanOrEqual(c)
    ensures Exact(log, a, c, x + y)
  {
    hide Flat, Wire, Between;
    BetweenJoins(Flat(log), a, b, c);
    WireConcat(Between(Flat(log), a, b), Between(Flat(log), b, c));
  }

  /** An event stays due while the hub publishes more, so it may be committed later. */
  lemma DueStays(origin: Offset, log: Log, batches: Log, w: Watcher, event: HubEvent)
    requires Due(origin, log, w, event) && LogOk(origin, log) && LogOk(origin, log + batches)
    requires Filled(batches) && Follows(origin, log, Flat(batches))
    ensures Due(origin, log + batches, w, event)
  {
    hide LogOk, Exact;
    LogIsFilled(origin, log);
    StartOfPrefix(origin, log, batches, event.sequence);
    FlatConcat(log, batches);
    if event.sequence < |log| {
      StartsRise(origin, log, event.sequence, |log|);
    }
    ExactStays(origin, log, batches, w.offset, event.to, event.data);
  }

  // ---- events that were handed out ----

  /** `event` is the rest of a published event, from its message `j` on. */
  ghost predicate IsRestFrom(origin: Offset, log: Log, event: HubEvent, j: nat) {
    && 1 <= event.sequence <= |log| && j < |log[event.sequence - 1]|
    && event.from == Position(origin, log, event.sequence - 1, j)
    && event.to == StartOf(origin, log, event.sequence) && event.data == Wire(log[event.sequence - 1][j..])
  }

  /** Any watcher may have been handed `event`, now or earlier. */
  ghost predicate Issued(origin: Offset, log: Log, event: HubEvent) {
    exists j: nat :: IsRestFrom(origin, log, event, j)
  }

  lemma DueIsRest(origin: Offset, log: Log, w: Watcher, event: HubEvent, j: nat)
    requires LogOk(origin, log) && StandsAt(origin, log, w, j)
    ensures Due(origin, log, w, event) <==> event.sequence == w.sequence && IsRestFrom(origin, log, event, j)
  {
    hide LogOk, Flat, Between, Wire;
    RestOfEvent(origin, log, w.sequence - 1, j);
    PositionRises(origin, log, w.sequence - 1, j);
  }

  lemma DueIsIssued(origin: Offset, log: Log, w: Watcher, event: HubEvent)
    requires LogOk(origin, log) && WatcherOk(origin, log, w) && w.attached && Due(origin, log, w, event)
    ensures Issued(origin, log, event)
  {
    hide LogOk;
    var j: nat :| StandsAt(origin, log, w, j);
    DueIsRest(origin, log, w, event, j);
  }

  /** What was handed out once stays so while the hub publishes more. */
  lemma IssuedStays(origin: Offset, log: Log, batches: Log, event: HubEvent)
    requires Issued(origin, log, event) && Filled(log) && Filled(batches)
    ensures Issued(origin, log + batches, event)
  {
    var j: nat :| IsRestFrom(origin, log, event, j);
    StartOfPrefix(origin, log, batches, event.sequence);
    StartOfPrefix(origin, log, batches, event.sequence - 1);
    assert (log + batches)[event.sequence - 1] == log[event.sequence - 1];
    assert IsRestFrom(origin, log + batches, event, j);
  }

  /** A rest from a later message is shorter, and begins at a later offset. */
  lemma LaterRest(origin: Offset, log: Log, k: nat, i: nat, j: nat)
    requires LogOk(origin, log) && k < |log| && i < j <= |log[k]|
    ensures |Wire(log[k][j..])| < |Wire(log[k][i..])|
    ensures Position(origin, log, k, i).LessThan(Position(origin, log, k, j))
  {
    hide LogOk, Flat, Wire;
    var ms := log[k];
    assert ms[i..] == ms[i..j] + ms[j..];
    WireConcat(ms[i..j], ms[j..]);
    WireIsFilled(origin, log, k, i, j);
    EventRises(origin, log, k);
  }

  lemma WireIsFilled(origin: Offset, log: Log, k: nat, i: nat, j: nat)
    requires LogOk(origin, log) && k < |log| && i < j <= |log[k]|
    ensures |Wire(log[k][i..j])| > 0
  {
    LogSplit(log, k);
    hide Flat;
    assert log[k][j - 1] == Flat(log)[|Flat(log[..k])| + j - 1];
    var part := log[k][i..j];
    assert part[|part| - 1] == log[k][j - 1];
  }

  /** Committing an event that was handed out keeps the watcher's record exact if and only if
      the watcher still stands where the event begins.  It does not when it has attached
      again, inside the same event, after the event was handed out. */
  lemma CommitExactIff(origin: Offset, log: Log, w: Watcher, r: Reading, event: HubEvent)
    requires LogOk(origin, log) && w.attached && ReadingOk(origin, log, w, r)
    requires Issued(origin, log, event) && w.sequence == event.sequence
    ensures ReadingOk(origin, log, Watcher(true, w.sequence + 1, event.to, 0), Reading(r.from, r.bytes + event.data))
       <==> w.offset == event.from
  {
    hide LogOk, Wire, Flat, Between, WatcherOk, Position;
    var j := StandsInEvent(origin, log, w);
    var i: nat :| IsRestFrom(origin, log, event, i);
    var k := w.sequence - 1;
    var due := event.(from := w.offset, data := Wire(log[k][j..]));
    DueIsRest(origin, log, w, due, j);
    ReadingAdvances(origin, log, w, r, due);
    if i < j {
      LaterRest(origin, log, k, i, j);
    } else if j < i {
      LaterRest(origin, log, k, j, i);
    }
  }

  lemma StandsInEvent(origin: Offset, log: Log, w: Watcher) returns (j: nat)
    requires WatcherOk(origin, log, w) && w.attached && w.sequence <= |log|
    ensures StandsAt(origin, log, w, j)
  {
    j :| StandsAt(origin, log, w, j);
  }

  /** When the hub has published the stream from its origin to its tail, a watcher has had
      the stream from its attach offset to where it stands: nothing lost, repeated or reordered. */
  lemma WatcherReadsStream(origin: Offset, log: Log, all: seq<Message>, w: Watcher, r: Reading)
    requires ReadingOk(origin, log, w, r)
    requires Flat(log) == Between(all, origin, StartOf(origin, log, |log|))
    ensures r.bytes == Wire(Between(all, r.from, w.offset))
  {
    hide WatcherOk, Flat, Wire, Between, StartOf;
    BetweenWithin(all, origin, r.from, w.offset, StartOf(origin, log, |log|));
  }

  lemma {:induction false} BetweenWithin(all: seq<Message>, low: Offset, a: Offset, b: Offset, high: Offset)
    requires low.LessThanOrEqual(a) && b.LessThanOrEqual(high)
    ensures Between(Between(all, low, high), a, b) == Between(all, a, b)
    decreases |all|
  {
    if all == [] {
      assert Between(all, low, high) == [];
    } else {
      hide After, UpTo, Between;
      var ms, m := all[..|all| - 1], all[|all| - 1];
      assert all == ms + [m];
      BetweenWithin(ms, low, a, b, high);
      BetweenSnoc(ms, m, low, high);
      BetweenSnoc(ms, m, a, b);
      if low.LessThan(m.offset) && m.offset.LessThanOrEqual(high) {
        BetweenSnoc(Between(ms, low, high), m, a, b);
      }
    }
  }

  // ---- the ring after a publication ----

  lemma FlaggedEvents(plain: seq<HubEvent>, events: seq<HubEvent>, batches: Log, from: Offset,
                      upToDate: bool, streamClosed: bool, tail: Offset, next: nat)
    requires AreEvents(plain, batches, from)
    requires NumberedFrom(events, FlagLast(plain, upToDate, streamClosed, tail), next)
    ensures AreEvents(events, batches, from) && EndOf(from, events) == StartOf(from, batches, |batches|)
    ensures forall k :: 0 <= k < |events| ==> events[k].sequence == next + k
  {
    hide AreEvents;
    assert |plain| == |batches| && (batches != [] ==> plain[|plain| - 1].to == StartOf(from, batches, |batches|)) by {
      EventsEnd(plain, batches, from);
    }
    Renumbered(plain, events, batches, from);
  }

  lemma EventsEnd(events: seq<HubEvent>, batches: Log, from: Offset)
    requires AreEvents(events, batches, from)
    ensures |events| == |batches|
    ensures events != [] ==> events[|events| - 1].to == StartOf(from, batches, |batches|)
  {
    if events != [] {
      assert IsEvent(events[|events| - 1], batches[|events| - 1], StartOf(from, batches, |events| - 1));
    }
  }

  /** The ring, with the events of a publication numbered and appended. */
  lemma RingPublishes(origin: Offset, log: Log, events: seq<HubEvent>, first: nat, added: seq<HubEvent>, batches: Log)
    requires RingOk(origin, log, events, first)
    requires AreEvents(added, batches, StartOf(origin, log, |log|))
    requires ReadOnFrom(StartOf(origin, log, |log|), Flat(batches))
    requires forall k :: 0 <= k < |added| ==> added[k].sequence == |log| + 1 + k
    ensures LogOk(origin, log) && LogOk(origin, log + batches) && RingOk(origin, log + batches, events + added, first)
    ensures Filled(batches) && |added| == |batches| && Flat(log + batches) == Flat(log) + Flat(batches)
    ensures StartOf(origin, log + batches, |log + batches|) == StartOf(StartOf(origin, log, |log|), batches, |batches|)
  {
    hide RingOk, LogOk, IsEvent, Flat;
    RingHasLog(origin, log, events, first);
    LogIsFilled(origin, log);
    assert Filled(batches);
    hide AreEvents;
    LogGrows(origin, log, batches);
    RingGrows(origin, log, events, first, added, batches);
    StartOfSuffix(origin, log, batches, |batches|);
  }

  lemma PublicationKeeps(origin: Offset, log: Log, events: seq<HubEvent>, first: nat,
                         watchers: map<nat, Watcher>, readings: map<nat, Reading>, plain: seq<HubEvent>,
                         added: seq<HubEvent>, batches: Log, upToDate: bool, streamClosed: bool, tail: Offset)
    requires RingOk(origin, log, events, first) && ReadingsOk(origin, log, watchers, readings)
    requires AreEvents(plain, batches, StartOf(origin, log, |log|))
    requires ReadOnFrom(StartOf(origin, log, |log|), Flat(batches))
    requires NumberedFrom(added, FlagLast(plain, upToDate, streamClosed, tail), |log| + 1)
    ensures RingOk(origin, log + batches, events + added, first)
    ensures ReadingsOk(origin, log + batches, watchers, readings)
    ensures Flat(log + batches) == Flat(log) + Flat(batches)
    ensures MemoryOf(events + added) == MemoryOf(events) + MemoryOf(added)
    ensures |added| == |batches| == |FlagLast(plain, upToDate, streamClosed, tail)|
    ensures var ms, end := Flat(batches), EndOf(StartOf(origin, log, |log|),
        FlagLast(plain, upToDate, streamClosed, tail));
            && (added == [] <==> ms == []) && end == StartOf(origin, log + batches, |log + batches|)
            && end == (if ms == [] then StartOf(origin, log, |log|) else ms[|ms| - 1].offset)
            && (added != [] ==>
                  && added[|added| - 1].upToDate == upToDate
                  && added[|added| - 1].closed == (streamClosed && end == tail))
  {
    var from := StartOf(origin, log, |log|);
    FlaggedEvents(plain, added, batches, from, upToDate, streamClosed, tail, |log| + 1);
    LastFlag(plain, added, upToDate, streamClosed, tail, from, |log| + 1);
    hide *;
    RingPublishes(origin, log, events, first, added, batches);
    ReadOnFollows(origin, log, Flat(batches));
    ReadingsStay(origin, log, batches, watchers, readings);
    MemoryConcat(events, added);
    BatchesEnd(batches, from);
  }

  lemma BatchesEnd(batches: Log, from: Offset)
    requires Filled(batches)
    ensures batches == [] <==> Flat(batches) == []
    ensures StartOf(from, batches, |batches|) == if Flat(batches) == [] then from
        else Flat(batches)[|Flat(batches)| - 1].offset
  {
    FlatEndsWith(batches);
  }

  lemma ReadOnFollows(origin: Offset, log: Log, messages: seq<Message>)
    requires ReadOnFrom(StartOf(origin, log, |log|), messages)
    ensures Follows(origin, log, messages)
  {
  }

  lemma LastFlag(plain: seq<HubEvent>, added: seq<HubEvent>, upToDate: bool, streamClosed: bool, tail: Offset,
                 from: Offset, next: nat)
    requires NumberedFrom(added, FlagLast(plain, upToDate, streamClosed, tail), next)
    ensures |added| == |plain|
    ensures EndOf(from, added) == EndOf(from, FlagLast(plain, upToDate, streamClosed, tail))
    ensures added != [] ==>
              && added[|added| - 1].upToDate == upToDate
              && added[|added| - 1].closed == (streamClosed && EndOf(from, added) == tail)
  {
  }

  lemma EvictionKeepsLast(events: seq<HubEvent>, kept: seq<HubEvent>, limit: nat)
    requires Evicted(events, kept, limit)
    ensures MemoryOf(kept) <= limit || |kept| <= 1
    ensures events != [] ==> kept != [] && kept[|kept| - 1] == events[|events| - 1]
  {
  }

  /** The ring as a publication finds and leaves it. */
  datatype RingState = RingState(
    current: Offset, closed: bool, events: seq<HubEvent>, firstSequence: nat, nextSequence: nat, replayBytes: nat)

  ghost predicate StateOk(origin: Offset, log: Log, h: RingState, limit: nat) {
    && RingOk(origin, log, h.events, h.firstSequence)
    && h.nextSequence == |log| + 1 && h.current == StartOf(origin, log, |log|)
    && h.replayBytes == MemoryOf(h.events) && (h.replayBytes <= limit || |h.events| <= 1)
  }

  lemma StateHasLog(origin: Offset, log: Log, h: RingState, limit: nat)
    requires StateOk(origin, log, h, limit)
    ensures LogOk(origin, log)
  {
    RingHasLog(origin, log, h.events, h.firstSequence);
  }

  /** The messages were appended to the log; the newest event tells whether the reader is up
      to date and whether it ends a closed stream; the hub is closed once its tail is. */
  ghost predicate Published(h: RingState, log: Log, h': RingState, log': Log, messages: seq<Message>,
                            upToDate: bool, streamClosed: bool, tail: Offset) {
    && log <= log' && Flat(log') == Flat(log) + messages
    && (messages == [] ==>
          && h'.current == h.current && log' == log
          && h'.closed == if h.current == tail then streamClosed else h.closed)
    && (messages != [] ==>
          && h'.current == messages[|messages| - 1].offset
          && h'.closed == (h.closed || (streamClosed && h'.current == tail))
          && h'.events != [] && h'.events[|h'.events| - 1].upToDate == upToDate
          && h'.events[|h'.events| - 1].closed == (streamClosed && h'.current == tail))
  }

  /** A publication was cut into events at the batch limit, and no earlier. */
  ghost predicate IsCut(from: Offset, batches: Log, limit: nat) {
    exists plain :: AreEvents(plain, batches, from) && WithinBatch(plain, limit) && Packed(plain, limit)
  }

  /** The new events follow the old ones in the ring, which keeps as many of the newest as fit; of
      the new ones, only the last is flagged. */
  ghost predicate Enlarged(events: seq<HubEvent>, added: seq<HubEvent>, kept: seq<HubEvent>, limit: nat) {
    && Evicted(events + added, kept, limit)
    && (forall k :: 0 <= k < |added| - 1 ==> !added[k].upToDate && !added[k].closed)
  }

  lemma OnlyLastIsFlagged(plain: seq<HubEvent>, added: seq<HubEvent>, upToDate: bool, streamClosed: bool,
                          tail: Offset, next: nat)
    requires Unflagged(plain) && NumberedFrom(added, FlagLast(plain, upToDate, streamClosed, tail), next)
    ensures forall k :: 0 <= k < |added| - 1 ==> !added[k].upToDate && !added[k].closed
  {
  }

  /** Numbers the new events, appends them, and evicts the oldest until the ring fits. */
  method AddEvents(ghost origin: Offset, ghost log: Log, h: RingState, plain: seq<HubEvent>, ghost batches: Log,
                   upToDate: bool, streamClosed: bool, tail: Offset, limit: nat,
                   ghost watchers: map<nat, Watcher>, ghost readings: map<nat, Reading>)
    returns (h': RingState)
    requires StateOk(origin, log, h, limit) && ReadingsOk(origin, log, watchers, readings)
    requires AreEvents(plain, batches, h.current) && Unflagged(plain) && ReadOnFrom(h.current, Flat(batches))
    ensures StateOk(origin, log + batches, h', limit) && ReadingsOk(origin, log + batches, watchers, readings)
    ensures Published(h, log, h', log + batches, Flat(batches), upToDate, streamClosed, tail)
    ensures exists added :: |added| == |batches| && Enlarged(h.events, added, h'.events, limit)
  {
    hide RingOk, ReadingsOk, AreEvents, Flat, StartOf, MemoryOf, FlagLast, NumberedFrom, EndOf, Evicted, ReadOnFrom,
        Unflagged;
    var flagged := FlagLast(plain, upToDate, streamClosed, tail);
    var added, next, bytes, current := Number(flagged, h.nextSequence, h.replayBytes, h.current);
    PublicationKeeps(origin, log, h.events, h.firstSequence, watchers, readings, plain, added, batches,
                     upToDate, streamClosed, tail);
    OnlyLastIsFlagged(plain, added, upToDate, streamClosed, tail, h.nextSequence);
    var closed := h.closed;
    if |added| == 0 && current == tail {
      closed := streamClosed;
    }
    if |added| > 0 && added[|added| - 1].closed {
      closed := true;
    }
    var events, first, keptBytes := Evict(origin, log + batches, h.events + added, h.firstSequence, bytes, limit);
    EvictionKeepsLast(h.events + added, events, limit);
    RingHasLog(origin, log + batches, events, first);
    if |events| == 0 {
      first := next;
    }
    h' := RingState(current, closed, events, first, next, keptBytes);
    assert Enlarged(h.events, added, h'.events, limit);
    assert |batches| == 0 ==> log + batches == log;
  }

  // ---- the hub ----

  /** The answer to an attach: retained means that the ring still holds an event that starts,
      or a message that ends, at the offset. */
  ghost function AttachAnswer(terminal: bool, current: Offset, events: seq<HubEvent>, offset: Offset): AttachResult {
    if terminal then AttachTerminal
    else if offset == current then AttachOk
    else if current.LessThan(offset) then AttachBehind
    else if Retained(events, offset) then AttachOk
    else AttachLagged
  }

  class SseHub {
    const replayLimit: nat
    const batchLimit: nat
    var current: Offset
    var closed: bool
    var terminal: bool
    var events: seq<HubEvent>
    var firstSequence: nat
    var nextSequence: nat
    var replayBytes: nat
    var watchers: map<nat, Watcher>
    var woken: set<nat>

    /** Where the hub began, all it has published since, and what each watcher has had. */
    ghost var origin: Offset
    ghost var log: Log
    ghost var readings: map<nat, Reading>

    ghost predicate Valid()
      reads this
    {
      && StateOk(origin, log, RingState(current, closed, events, firstSequence, nextSequence, replayBytes), replayLimit)
      && ReadingsOk(origin, log, watchers, readings)
    }

    constructor (replayLimit: nat, batchLimit: nat, tail: Offset, streamClosed: bool)
      ensures Valid() && current == origin == tail && closed == streamClosed && !terminal
      ensures log == [] && watchers == map[]
      ensures this.replayLimit == replayLimit && this.batchLimit == batchLimit
    {
      this.replayLimit, this.batchLimit := replayLimit, batchLimit;
      current, closed, terminal := tail, streamClosed, false;
      events, firstSequence, nextSequence, replayBytes := [], 1, 1, 0;
      watchers, woken := map[], {};
      origin, log, readings := tail, [], map[];
    }

    method AddWatcher(id: nat)
      requires Valid() && id !in watchers
      modifies `watchers
      ensures Valid() && watchers == old(watchers)[id := Watcher(false, 0, ZERO_OFFSET, 0)]
    {
      hide StateOk, ReadingOk;
      watchers := watchers[id := Watcher(false, 0, ZERO_OFFSET, 0)];
    }

    method RemoveWatcher(id: nat)
      requires Valid()
      modifies `watchers
      ensures Valid() && watchers == old(watchers) - {id}
    {
      hide StateOk, ReadingOk;
      watchers := watchers - {id};
    }

    /** The ring's part of the hub. */
    ghost function State(): RingState
      reads this
    {
      RingState(current, closed, events, firstSequence, nextSequence, replayBytes)
    }

    /** Publishes a page that was read on from `from`. */
    method Publish(from: Offset, messages: seq<Message>, upToDate: bool, streamClosed: bool, tail: Offset)
      returns (ok: bool)
      requires Valid() && ReadOnFrom(from, messages)
      modifies `current, `closed, `events, `firstSequence, `nextSequence, `replayBytes, `woken, `log
      ensures Valid() && ok == (old(current) == from)
      ensures !ok ==> unchanged(this)
      ensures ok ==> Published(old(State()), old(log), State(), log, messages, upToDate, streamClosed, tail)
      ensures ok ==> old(log) <= log && IsCut(from, log[|old(log)|..], batchLimit) && woken == watchers.Keys
      ensures ok ==> exists added :: |added| == |log| - |old(log)| && Enlarged(old(events), added, events, replayLimit)
    {
      hide RingOk, ReadingsOk, AreEvents, Flat, StartOf, MemoryOf, WithinBatch, Packed, Unflagged, ReadOnFrom,
          Published, Enlarged;
      var plain, batches := BuildEvents(from, messages, batchLimit);
      if current != from {
        return false;
      }
      var h := RingState(current, closed, events, firstSequence, nextSequence, replayBytes);
      h := AddEvents(origin, log, h, plain, batches, upToDate, streamClosed, tail, replayLimit, watchers, readings);
      current, closed, events := h.current, h.closed, h.events;
      firstSequence, nextSequence, replayBytes := h.firstSequence, h.nextSequence, h.replayBytes;
      assert (log + batches)[|log|..] == batches;
      log, woken := log + batches, watchers.Keys;
      return true;
    }

    /** Puts a watcher at an offset of the stream. */
    method Attach(id: nat, offset: Offset) returns (r: AttachResult)
      requires Valid() && id in watchers
      modifies `watchers, `readings
      ensures r == AttachAnswer(terminal, current, events, offset)
      ensures r != AttachOk ==> unchanged(this)
      ensures r == AttachOk ==>
                && id in watchers && watchers[id].attached && watchers[id].offset == offset
                && watchers == old(watchers)[id := watchers[id]]
                && readings == old(readings)[id := Reading(offset, [])]
      ensures Valid()
    {
      hide RingOk, Retained, WatcherOk, ReadingOk, LogOk, StartOf;
      if terminal {
        return AttachTerminal;
      }
      RingHasLog(origin, log, events, firstSequence);
      var w := Watcher(true, nextSequence, offset, 0);
      if offset == current {
        TailReader(origin, log);
      } else {
        if current.LessThan(offset) {
          return AttachBehind;
        }
        var found := Locate(origin, log, events, firstSequence, offset);
        if found.None? {
          return AttachLagged;
        }
        w := found.value;
      }
      ReadingBegins(origin, log, w);
      watchers, readings := watchers[id := w], readings[id := Reading(offset, [])];
      return AttachOk;
    }

    /** The event a watcher at `offset` is due, if the hub has it. */
    method Next(id: nat, offset: Offset) returns (r: NextResult)
      requires Valid() && id in watchers
      ensures r == Failed <==> terminal
      ensures r == NotAttached <==> !terminal && (!watchers[id].attached || offset != watchers[id].offset)
      ensures r == Nothing ==> offset == current && !closed
      ensures r == Lagged <==> !terminal && watchers[id].attached && offset == watchers[id].offset &&
                               offset != current && watchers[id].sequence < firstSequence
      ensures r.Event? && offset == current ==>
                && closed && r.event.closed && r.event.upToDate
                && r.event.from == r.event.to == offset && r.event.sequence == 0 && r.event.data == []
      ensures r.Event? && offset != current ==>
                && Due(origin, log, watchers[id], r.event) && Issued(origin, log, r.event)
                && exists k :: 0 <= k < |events| && events[k].sequence == r.event.sequence &&
                     events[k].upToDate == r.event.upToDate && events[k].closed == r.event.closed
    {
      hide RingOk, WatcherOk, LogOk, StartOf, Due, Issued;
      if terminal {
        return Failed;
      }
      var w := watchers[id];
      if !w.attached || offset != w.offset {
        return NotAttached;
      }
      if offset == current {
        return if closed then Event(HubEvent(0, offset, offset, [], [], true, true, 0)) else Nothing;
      }
      LookUpIsExact(origin, log, events, firstSequence, w);
      if firstSequence <= w.sequence {
        RetainedEnds(origin, log, events, firstSequence, w.sequence - firstSequence);
        RingHasLog(origin, log, events, firstSequence);
        DueIsIssued(origin, log, w, LookUp(events, firstSequence, nextSequence, w).event);
      }
      return LookUp(events, firstSequence, nextSequence, w);
    }

    /** Records that a watcher has written out an event it was handed. */
    method Commit(id: nat, event: HubEvent)
      requires Valid() && id in watchers && (event.sequence != 0 ==> Issued(origin, log, event))
      modifies `watchers, `readings
      ensures if event.sequence != 0 && old(watchers)[id].attached && old(watchers)[id].sequence == event.sequence
              then && watchers == old(watchers)[id := Watcher(true, event.sequence + 1, event.to, 0)]
                   && id in old(readings)
                   && (Valid() <==> old(watchers)[id].offset == event.from)
                   && var r := old(readings)[id];
                      readings == old(readings)[id := Reading(r.from, r.bytes + event.data)]
              else unchanged(this) && Valid()
    {
      hide StateOk, LogOk, ReadingOk, Issued;
      var w := watchers[id];
      if event.sequence != 0 && w.attached && w.sequence == event.sequence {
        StateHasLog(origin, log, State(), replayLimit);
        CommitExactIff(origin, log, w, readings[id], event);
        watchers := watchers[id := Watcher(true, w.sequence + 1, event.to, 0)];
        readings := readings[id := Reading(readings[id].from, readings[id].bytes + event.data)];
        assert watchers[id].attached;
      }
    }

    /** Drops every retained event. */
    method ReleaseReplay()
      requires Valid()
      modifies `events, `firstSequence, `replayBytes
      ensures Valid() && events == []
    {
      RingHasLog(origin, log, events, firstSequence);
      hide LogOk, ReadingsOk;
      events, firstSequence, replayBytes := [], nextSequence, 0;
      assert log[|log|..] == [];
    }

    method Fail()
      requires Valid()
      modifies `terminal, `woken
      ensures Valid() && terminal && woken == watchers.Keys
    {
      hide StateOk, ReadingsOk;
      terminal, woken := true, watchers.Keys;
    }
  }
}
