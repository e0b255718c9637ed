/** The events an SSE hub publishes, and the ring of the last of them (sse_hub.go). */
module SseRings {
  import opened Prelude
  import opened Offsets
  import opened StoreModel
  import opened StoreOps
  import opened StoreInvariants
  import opened ForkContent
  import opened Paging

  const BOUNDARY_BYTES: nat := 24

  /** The end of one message inside an event's wire data. */
  datatype Boundary = Boundary(offset: Offset, wireEnd: nat)

  datatype HubEvent = HubEvent(
    sequence: nat, from: Offset, to: Offset, data: Bytes, boundaries: seq<Boundary>,
    upToDate: bool, closed: bool, memorySize: nat)

  /** Messages reach the ring with their wire frame as `data`: how a frame is formatted is
      not part of this model, only that it is never empty. */
  ghost predicate Framed(ms: seq<Message>) {
    forall i :: 0 <= i < |ms| ==> ms[i].data != []
  }

  /** The frames of the messages, one after the other. */
  ghost function Wire(ms: seq<Message>): Bytes {
    if ms == [] then [] else Wire(ms[..|ms| - 1]) + ms[|ms| - 1].data
  }

  lemma {:induction false} WireConcat(a: seq<Message>, b: seq<Message>)
    ensures Wire(a + b) == Wire(a) + Wire(b)
  {
    if b == [] {
      assert a + b == a;
    } else {
      assert (a + b)[..|a + b| - 1] == a + b[..|b| - 1];
      WireConcat(a, b[..|b| - 1]);
    }
  }

  lemma EmptyWire()
    ensures Wire([]) == []
  {
  }

  /** What follows the first `j` frames. */
  lemma WireSuffix(ms: seq<Message>, j: nat)
    requires j <= |ms|
    ensures |Wire(ms[..j])| <= |Wire(ms)|
    ensures Wire(ms)[|Wire(ms[..j])|..] == Wire(ms[j..])
  {
    assert ms == ms[..j] + ms[j..];
    WireConcat(ms[..j], ms[j..]);
  }

  // ---- the log of all events ever published ----

  /** Event `k` carries the messages `log[k]`. */
  type Log = seq<seq<Message>>

  ghost function Flat(log: Log): seq<Message> {
    if log == [] then [] else Flat(log[..|log| - 1]) + log[|log| - 1]
  }

  lemma {:induction false} FlatConcat(a: Log, b: Log)
    ensures Flat(a + b) == Flat(a) + Flat(b)
  {
    if b == [] {
      assert a + b == a;
    } else {
      assert (a + b)[..|a + b| - 1] == a + b[..|b| - 1];
      FlatConcat(a, b[..|b| - 1]);
    }
  }

  ghost predicate Filled(log: Log) {
    forall k :: 0 <= k < |log| ==> log[k] != []
  }

  /** Where event `k` begins: the hub's first offset, or the end of the event before. */
  ghost function StartOf(origin: Offset, log: Log, k: int): Offset {
    if 0 < k <= |log| && log[k - 1] != [] then log[k - 1][|log[k - 1]| - 1].offset else origin
  }

  /** Published messages rise strictly from the hub's first offset. */
  ghost predicate LogOk(origin: Offset, log: Log) {
    && Filled(log) && Increasing(Flat(log)) && Framed(Flat(log))
    && (forall i :: 0 <= i < |Flat(log)| ==> origin.LessThan(Flat(log)[i].offset))
  }

  /** The position before message `j` of event `k`. */
  ghost function Position(origin: Offset, log: Log, k: int, j: int): Offset {
    if 0 <= k < |log| && 0 < j <= |log[k]| then log[k][j - 1].offset else StartOf(origin, log, k)
  }

  lemma FlatOne(ms: seq<Message>)
    ensures Flat([ms]) == ms
  {
    assert [ms][..0] == [];
  }

  lemma FlatAround(a: Log, m: seq<Message>, b: Log)
    ensures Flat(a + [m] + b) == Flat(a) + m + Flat(b)
  {
    hide *;
    FlatOne(m);
    FlatConcat(a, [m]);
    FlatConcat(a + [m], b);
  }

  lemma LogSplit(log: Log, k: nat)
    requires k < |log|
    ensures Flat(log) == Flat(log[..k]) + log[k] + Flat(log[k + 1..])
  {
    hide *;
    FlatAround(log[..k], log[k], log[k + 1..]);
    assert log[..k] + [log[k]] + log[k + 1..] == log;
  }

  /** Cutting rising messages inside their middle part. */
  lemma CutInside(a: seq<Message>, m: seq<Message>, b: seq<Message>, j: nat, o: Offset)
    requires Increasing(a + m + b) && j <= |m|
    requires if a == [] && j == 0 then forall i :: 0 <= i < |m + b| ==> o.LessThan((m + b)[i].offset)
             else (a + m[..j])[|a| + j - 1].offset == o
    ensures After(a + m + b, o) == m[j..] + b
    ensures m != [] ==> UpTo(m[j..] + b, m[|m| - 1].offset) == m[j..]
  {
    hide After, UpTo;
    var all := a + m + b;
    if a == [] && j == 0 {
      assert all == m + b && m[0..] == m;
      UpToNone(all, o);
    } else {
      CutAtMessage(all, |a| + j - 1);
      assert all[|a| + j..] == m[j..] + b;
    }
    if m != [] {
      EndOfMiddle(a, m, b, j);
    }
  }

  lemma EndOfMiddle(a: seq<Message>, m: seq<Message>, b: seq<Message>, j: nat)
    requires Increasing(a + m + b) && j <= |m| && m != []
    ensures UpTo(m[j..] + b, m[|m| - 1].offset) == m[j..]
  {
    hide After, UpTo;
    var all, u := a + m + b, m[|m| - 1].offset;
    assert all[|a| + |m| - 1].offset == u;
    forall i | 0 <= i < |m[j..]| ensures m[j..][i].offset.LessThanOrEqual(u) {
      assert m[j..][i] == all[|a| + j + i];
    }
    forall i | 0 <= i < |b| ensures u.LessThan(b[i].offset) {
      assert b[i] == all[|a| + |m| + i];
    }
    UpToConcat(m[j..], b, u);
    UpToAll(m[j..], u);
    UpToNone(b, u);
  }

  lemma {:induction false} FlatEndsWith(log: Log)
    requires Filled(log)
    ensures log == [] <==> Flat(log) == []
    ensures log != [] ==> Flat(log)[|Flat(log)| - 1] == log[|log| - 1][|log[|log| - 1]| - 1]
  {
  }

  /** Either nothing precedes the position, or the message right before it has its offset. */
  lemma PositionCuts(origin: Offset, log: Log, k: nat, j: nat)
    requires LogOk(origin, log) && k < |log| && j <= |log[k]|
    ensures var a, m, b, o := Flat(log[..k]), log[k], Flat(log[k + 1..]), Position(origin, log, k, j);
            && Flat(log) == a + m + b && Increasing(a + m + b) && m != []
            && if a == [] && j == 0 then forall i :: 0 <= i < |m + b| ==> o.LessThan((m + b)[i].offset)
               else (a + m[..j])[|a| + j - 1].offset == o
  {
    LogSplit(log, k);
    FlatEndsWith(log[..k]);
    hide Flat;
    var a, b := Flat(log[..k]), Flat(log[k + 1..]);
    if a == [] && j == 0 {
      assert log[k] + b == Flat(log);
    }
  }

  /** Cutting the published messages at a position separates exactly what came before it,
      and the messages from there to the event's end are the rest of the event. */
  lemma RestOfEvent(origin: Offset, log: Log, k: nat, j: nat)
    requires LogOk(origin, log) && k < |log| && j <= |log[k]|
    ensures After(Flat(log), Position(origin, log, k, j)) == log[k][j..] + Flat(log[k + 1..])
    ensures Between(Flat(log), Position(origin, log, k, j), StartOf(origin, log, k + 1)) == log[k][j..]
  {
    PositionCuts(origin, log, k, j);
    hide LogOk, Flat, After, UpTo, Position;
    CutInside(Flat(log[..k]), log[k], Flat(log[k + 1..]), j, Position(origin, log, k, j));
  }

  // ---- events ----

  /** The boundaries of the messages framed one after the other. */
  ghost predicate Marks(boundaries: seq<Boundary>, ms: seq<Message>) {
    && |boundaries| == |ms|
    && (forall i :: 0 <= i < |ms| ==> boundaries[i] == Boundary(ms[i].offset, |Wire(ms[..i + 1])|))
  }

  /** `ev` carries exactly the messages `ms`, from `from` on. */
  ghost predicate IsEvent(ev: HubEvent, ms: seq<Message>, from: Offset) {
    && ms != [] && Marks(ev.boundaries, ms) && ev.data == Wire(ms)
    && ev.from == from && ev.to == ms[|ms| - 1].offset
    && ev.memorySize == |ev.data| + |ms| * BOUNDARY_BYTES
  }

  ghost predicate AreEvents(events: seq<HubEvent>, batches: Log, from: Offset) {
    && Filled(batches) && |events| == |batches|
    && (forall k {:trigger events[k]} :: 0 <= k < |events| ==>
        IsEvent(events[k], batches[k], StartOf(from, batches, k)))
  }

  /** An event of several messages stays within the batch limit. */
  ghost predicate WithinBatch(events: seq<HubEvent>, batchLimit: nat) {
    forall k :: 0 <= k < |events| ==> |events[k].boundaries| == 1 || events[k].memorySize <= batchLimit
  }

  /** A first frame of `next` bytes would not have fitted into the last event. */
  ghost predicate FullBefore(events: seq<HubEvent>, next: nat, limit: nat) {
    events != [] ==> events[|events| - 1].memorySize + next + BOUNDARY_BYTES > limit
  }

  /** No event could have taken the first message of the one after it. */
  ghost predicate Packed(events: seq<HubEvent>, limit: nat) {
    forall k :: 0 < k < |events| && events[k].boundaries != [] ==>
      FullBefore(events[..k], events[k].boundaries[0].wireEnd, limit)
  }

  lemma PackedSnoc(events: seq<HubEvent>, ev: HubEvent, limit: nat)
    requires Packed(events, limit) && ev.boundaries != [] && FullBefore(events, ev.boundaries[0].wireEnd, limit)
    ensures Packed(events + [ev], limit)
  {
    var longer := events + [ev];
    forall k | 0 < k < |longer| && longer[k].boundaries != []
      ensures FullBefore(longer[..k], longer[k].boundaries[0].wireEnd, limit)
    {
      if k < |events| {
        assert longer[..k] == events[..k];
      } else {
        assert longer[..k] == events;
      }
    }
  }

  lemma MarksSnoc(boundaries: seq<Boundary>, ms: seq<Message>, m: Message)
    requires Marks(boundaries, ms)
    ensures Wire(ms + [m]) == Wire(ms) + m.data
    ensures Marks(boundaries + [Boundary(m.offset, |Wire(ms)| + |m.data|)], ms + [m])
  {
    var longer := ms + [m];
    assert longer[..|ms|] == ms;
    forall i | 0 <= i < |longer|
      ensures (boundaries + [Boundary(m.offset, |Wire(ms)| + |m.data|)])[i] ==
              Boundary(longer[i].offset, |Wire(longer[..i + 1])|)
    {
      if i < |ms| {
        assert longer[..i + 1] == ms[..i + 1];
      } else {
        assert longer[..i + 1] == longer;
      }
    }
  }

  /** Events appended to a log begin where they would have begun in it. */
  lemma StartOfPrefix(origin: Offset, a: Log, b: Log, k: nat)
    requires Filled(a) && Filled(b) && k <= |a|
    ensures Filled(a + b) && StartOf(origin, a + b, k) == StartOf(origin, a, k)
  {
  }

  lemma StartOfSuffix(origin: Offset, a: Log, b: Log, k: nat)
    requires Filled(a) && Filled(b) && k <= |b|
    ensures Filled(a + b) && StartOf(origin, a + b, |a| + k) == StartOf(StartOf(origin, a, |a|), b, k)
  {
  }

  /** Event lists follow one another as their logs do. */
  lemma EventsConcat(e: seq<HubEvent>, a: Log, f: seq<HubEvent>, b: Log, from: Offset)
    requires AreEvents(e, a, from) && AreEvents(f, b, StartOf(from, a, |a|))
    ensures AreEvents(e + f, a + b, from)
  {
    hide IsEvent, StartOf;
    assert Filled(a + b);
    forall k | 0 <= k < |e + f| ensures IsEvent((e + f)[k], (a + b)[k], StartOf(from, a + b, k)) {
      EventsConcatAt(e, a, f, b, from, k);
    }
  }

  lemma EventsConcatAt(e: seq<HubEvent>, a: Log, f: seq<HubEvent>, b: Log, from: Offset, k: nat)
    requires AreEvents(e, a, from) && AreEvents(f, b, StartOf(from, a, |a|)) && k < |e + f|
    ensures Filled(a + b) && IsEvent((e + f)[k], (a + b)[k], StartOf(from, a + b, k))
  {
    hide IsEvent, StartOf;
    if k < |e| {
      StartOfPrefix(from, a, b, k);
    } else {
      StartOfSuffix(from, a, b, k - |e|);
      assert IsEvent(f[k - |e|], b[k - |e|], StartOf(StartOf(from, a, |a|), b, k - |e|));
    }
  }

  lemma EventHasMessages(ev: HubEvent, ms: seq<Message>, from: Offset)
    requires IsEvent(ev, ms, from)
    ensures ms != []
  {
  }

  lemma OneEvent(ev: HubEvent, ms: seq<Message>, from: Offset)
    requires IsEvent(ev, ms, from)
    ensures AreEvents([ev], [ms], from)
  {
    hide IsEvent;
    EventHasMessages(ev, ms, from);
    assert StartOf(from, [ms], 0) == from;
  }

  lemma EventsSnoc(events: seq<HubEvent>, batches: Log, from: Offset, ev: HubEvent, ms: seq<Message>)
    requires AreEvents(events, batches, from) && IsEvent(ev, ms, StartOf(from, batches, |batches|))
    ensures AreEvents(events + [ev], batches + [ms], from) && Flat(batches + [ms]) == Flat(batches) + ms
    ensures ms != [] && StartOf(from, batches + [ms], |batches| + 1) == ms[|ms| - 1].offset
  {
    hide IsEvent, Flat;
    EventHasMessages(ev, ms, StartOf(from, batches, |batches|));
    FlatConcat(batches, [ms]);
    FlatOne(ms);
    OneEvent(ev, ms, StartOf(from, batches, |batches|));
    hide AreEvents;
    EventsConcat(events, batches, [ev], [ms], from);
  }

  ghost predicate Unflagged(events: seq<HubEvent>) {
    forall k :: 0 <= k < |events| ==> !events[k].upToDate && !events[k].closed
  }

  /** The finished events, and the one being filled. */
  datatype Building = Building(events: seq<HubEvent>, start: Offset, data: Bytes, boundaries: seq<Boundary>)

  /** The finished events carry `batches`, the open one carries `cur`; together, `done`. */
  ghost predicate Builds(from: Offset, limit: nat, b: Building, batches: Log, cur: seq<Message>, done: seq<Message>) {
    && Flat(batches) + cur == done
    && AreEvents(b.events, batches, from) && b.start == StartOf(from, batches, |batches|)
    && Marks(b.boundaries, cur) && b.data == Wire(cur)
    && (|b.boundaries| > 1 ==> |b.data| + |b.boundaries| * BOUNDARY_BYTES <= limit)
    && WithinBatch(b.events, limit) && Unflagged(b.events) && Packed(b.events, limit)
    && (b.boundaries != [] ==> FullBefore(b.events, b.boundaries[0].wireEnd, limit))
  }

  /** The `finish` closure: closes the open event, if it holds anything. */
  method FinishEvent(from: Offset, limit: nat, b: Building, ghost batches: Log, ghost cur: seq<Message>,
      ghost done: seq<Message>)
    returns (b': Building, ghost batches': Log)
    requires Builds(from, limit, b, batches, cur, done)
    ensures Builds(from, limit, b', batches', [], done) && b'.boundaries == []
    ensures b.boundaries != [] ==>
              b'.events != [] && b'.events[|b'.events| - 1].memorySize == |b.data| + |b.boundaries| * BOUNDARY_BYTES
  {
    if |b.boundaries| == 0 {
      return b, batches;
    }
    var event := HubEvent(0, b.start, b.boundaries[|b.boundaries| - 1].offset, b.data, b.boundaries, false, false,
                          |b.data| + |b.boundaries| * BOUNDARY_BYTES);
    assert IsEvent(event, cur, b.start);
    EmptyWire();
    hide Wire, AreEvents, IsEvent, Flat, Packed;
    PackedSnoc(b.events, event, limit);
    EventsSnoc(b.events, batches, from, event, cur);
    batches' := batches + [cur];
    assert Flat(batches') + [] == done;
    b' := Building(b.events + [event], event.to, [], []);
  }

  lemma OpenIsEmpty(boundaries: seq<Boundary>, cur: seq<Message>)
    requires Marks(boundaries, cur)
    ensures boundaries == [] ==> Wire(cur) == []
  {
  }

  method AddFrame(from: Offset, limit: nat, b: Building, ghost batches: Log, ghost cur: seq<Message>,
                  ghost done: seq<Message>, m: Message) returns (b': Building)
    requires Builds(from, limit, b, batches, cur, done)
    requires if |b.boundaries| > 0 then |b.data| + |m.data| + (|b.boundaries| + 1) * BOUNDARY_BYTES <= limit
             else FullBefore(b.events, |m.data|, limit)
    ensures Builds(from, limit, b', batches, cur + [m], done + [m]) && b'.boundaries != []
  {
    OpenIsEmpty(b.boundaries, cur);
    hide AreEvents, Wire, Flat, Packed;
    MarksSnoc(b.boundaries, cur, m);
    assert Flat(batches) + (cur + [m]) == done + [m];
    var data := b.data + m.data;
    b' := b.(data := data, boundaries := b.boundaries + [Boundary(m.offset, |data|)]);
  }

  /** `buildSSEHubEvents`: cuts the messages into events at the batch limit. */
  method BuildEvents(from: Offset, messages: seq<Message>, limit: nat)
    returns (events: seq<HubEvent>, ghost batches: Log)
    ensures AreEvents(events, batches, from) && Flat(batches) == messages
    ensures WithinBatch(events, limit) && Packed(events, limit) && Unflagged(events)
  {
    var b := Building([], from, [], []);
    batches := [];
    ghost var cur := [];
    BuildsNothing(from, limit);
    hide Builds, Flat, AreEvents, WithinBatch, Unflagged, Packed;
    for i := 0 to |messages|
      invariant Builds(from, limit, b, batches, cur, messages[..i]) && (b.boundaries == [] ==> b.events == [])
    {
      var m := messages[i];
      assert messages[..i + 1] == messages[..i] + [m];
      var candidate := |b.data| + |m.data| + (|b.boundaries| + 1) * BOUNDARY_BYTES;
      if |b.boundaries| > 0 && candidate > limit {
        b, batches := FinishEvent(from, limit, b, batches, cur, messages[..i]);
        cur := [];
      }
      b := AddFrame(from, limit, b, batches, cur, messages[..i], m);
      cur := cur + [m];
    }
    assert messages[..|messages|] == messages;
    b, batches := FinishEvent(from, limit, b, batches, cur, messages);
    BuiltEvents(from, limit, b, batches, messages);
    events := b.events;
  }

  lemma BuildsNothing(from: Offset, limit: nat)
    ensures Builds(from, limit, Building([], from, [], []), [], [], [])
  {
  }

  lemma BuiltEvents(from: Offset, limit: nat, b: Building, batches: Log, messages: seq<Message>)
    requires Builds(from, limit, b, batches, [], messages)
    ensures AreEvents(b.events, batches, from) && WithinBatch(b.events, limit) && Packed(b.events, limit) &&
        Unflagged(b.events)
    ensures Flat(batches) == messages
  {
  }

  // ---- the two binary searches ----

  /** The first event that ends after `offset`. */
  method FirstEventAfter(events: seq<HubEvent>, offset: Offset) returns (i: nat)
    requires forall j, k :: 0 <= j < k < |events| ==> events[j].to.LessThan(events[k].to)
    ensures i <= |events|
    ensures forall k :: 0 <= k < i ==> events[k].to.LessThanOrEqual(offset)
    ensures forall k :: i <= k < |events| ==> offset.LessThan(events[k].to)
  {
    var low, high := 0, |events|;
    while low < high
      invariant 0 <= low <= high <= |events|
      invariant forall k :: 0 <= k < low ==> events[k].to.LessThanOrEqual(offset)
      invariant forall k :: high <= k < |events| ==> offset.LessThan(events[k].to)
    {
      var middle := low + (high - low) / 2;
      if offset.LessThan(events[middle].to) {
        high := middle;
      } else {
        low := middle + 1;
      }
    }
    return low;
  }

  /** The boundary at exactly `offset`, or -1. */
  method FindBoundary(boundaries: seq<Boundary>, offset: Offset) returns (i: int)
    requires forall j, k :: 0 <= j < k < |boundaries| ==> boundaries[j].offset.LessThan(boundaries[k].offset)
    ensures i == -1 || 0 <= i < |boundaries|
    ensures i == -1 <==> forall k :: 0 <= k < |boundaries| ==> boundaries[k].offset != offset
    ensures i >= 0 ==> boundaries[i].offset == offset
  {
    var low, high := 0, |boundaries|;
    while low < high
      invariant 0 <= low <= high <= |boundaries|
      invariant forall k :: 0 <= k < low ==> boundaries[k].offset.LessThan(offset)
      invariant forall k :: high <= k < |boundaries| ==> offset.LessThanOrEqual(boundaries[k].offset)
    {
      var middle := low + (high - low) / 2;
      if Compare(boundaries[middle].offset, offset) < 0 {
        low := middle + 1;
      } else {
        high := middle;
      }
    }
    if low >= |boundaries| || boundaries[low].offset != offset {
      forall k | 0 <= k < |boundaries| ensures boundaries[k].offset != offset {
        assert k > low ==> boundaries[low].offset.LessThan(boundaries[k].offset);
      }
      return -1;
    }
    return low;
  }

  // ---- the ring ----

  /** The retained events are the last ones of the log, numbered from `first`. */
  ghost predicate RingOk(origin: Offset, log: Log, events: seq<HubEvent>, first: nat) {
    && LogOk(origin, log) && 1 <= first && first - 1 + |events| == |log|
    && AreEvents(events, log[first - 1..], StartOf(origin, log, first - 1))
    && (forall i :: 0 <= i < |events| ==> events[i].sequence == first + i)
  }

  function MemoryOf(events: seq<HubEvent>): nat {
    if events == [] then 0 else events[0].memorySize + MemoryOf(events[1..])
  }

  lemma {:induction false} MemorySnoc(events: seq<HubEvent>, ev: HubEvent)
    ensures MemoryOf(events + [ev]) == MemoryOf(events) + ev.memorySize
  {
    if events != [] {
      assert (events + [ev])[1..] == events[1..] + [ev];
      MemorySnoc(events[1..], ev);
    } else {
      assert ([] + [ev])[1..] == [];
    }
  }

  lemma {:induction false} StartIsLast(origin: Offset, log: Log)
    requires LogOk(origin, log)
    ensures var current := StartOf(origin, log, |log|);
            forall i :: 0 <= i < |Flat(log)| ==> Flat(log)[i].offset.LessThanOrEqual(current)
    ensures origin.LessThanOrEqual(StartOf(origin, log, |log|))
  {
    FlatEndsWith(log);
    hide Flat;
    if log != [] {
      var n := |Flat(log)| - 1;
      assert Flat(log)[n].offset == StartOf(origin, log, |log|);
      assert forall i :: 0 <= i < n ==> Flat(log)[i].offset.LessThan(Flat(log)[n].offset);
    }
  }

  /** Messages read on from the hub's tail extend its log. */
  lemma LogGrows(origin: Offset, log: Log, batches: Log)
    requires LogOk(origin, log) && Filled(batches) && Increasing(Flat(batches)) && Framed(Flat(batches))
    requires forall i :: 0 <= i < |Flat(batches)| ==> StartOf(origin, log, |log|).LessThan(Flat(batches)[i].offset)
    ensures LogOk(origin, log + batches) && Flat(log + batches) == Flat(log) + Flat(batches)
  {
    hide Flat;
    FlatConcat(log, batches);
    StartIsLast(origin, log);
    var a, b, current := Flat(log), Flat(batches), StartOf(origin, log, |log|);
    var both: seq<Message> := a + b;
    forall i, j | 0 <= i < j < |both| ensures both[i].offset.LessThan(both[j].offset) {
      if i < |a| <= j {
        assert a[i].offset.LessThanOrEqual(current) && current.LessThan(b[j - |a|].offset);
      }
    }
    forall i | 0 <= i < |both| ensures origin.LessThan(both[i].offset) {
      if i >= |a| {
        assert current.LessThan(b[i - |a|].offset);
      }
    }
  }

  /** Numbering and flags are not part of what an event carries. */
  lemma Renumbered(events: seq<HubEvent>, events': seq<HubEvent>, batches: Log, from: Offset)
    requires AreEvents(events, batches, from) && |events'| == |events|
    requires forall k :: 0 <= k < |events| ==>
               events'[k] == events[k].(sequence := events'[k].sequence, upToDate := events'[k].upToDate,
                 closed := events'[k].closed)
    ensures AreEvents(events', batches, from)
  {
    forall k | 0 <= k < |events| ensures IsEvent(events'[k], batches[k], StartOf(from, batches, k)) {
      assert IsEvent(events[k], batches[k], StartOf(from, batches, k));
    }
  }

  /** Appending to the ring. */
  lemma RingGrows(origin: Offset, log: Log, events: seq<HubEvent>, first: nat, added: seq<HubEvent>, batches: Log)
    requires RingOk(origin, log, events, first) && AreEvents(added, batches, StartOf(origin, log, |log|))
    requires LogOk(origin, log + batches)
    requires forall k :: 0 <= k < |added| ==> added[k].sequence == first + |events| + k
    ensures RingOk(origin, log + batches, events + added, first)
  {
    var k := first - 1;
    RingStarts(origin, log, batches, k);
    hide AreEvents, LogOk, StartOf;
    EventsConcat(events, log[k..], added, batches, StartOf(origin, log, k));
  }

  lemma RingStarts(origin: Offset, log: Log, batches: Log, k: nat)
    requires Filled(log) && Filled(batches) && k <= |log|
    ensures Filled(log[k..]) && Filled(log + batches) && (log + batches)[k..] == log[k..] + batches
    ensures StartOf(origin, log + batches, k) == StartOf(origin, log, k)
    ensures StartOf(StartOf(origin, log, k), log[k..], |log[k..]|) == StartOf(origin, log, |log|)
  {
  }

  lemma StartOfTail(from: Offset, batches: Log, k: nat)
    requires Filled(batches) && k < |batches|
    ensures StartOf(StartOf(from, batches, 1), batches[1..], k) == StartOf(from, batches, k + 1)
  {
  }

  lemma EventsTail(events: seq<HubEvent>, batches: Log, from: Offset)
    requires AreEvents(events, batches, from) && events != []
    ensures AreEvents(events[1..], batches[1..], StartOf(from, batches, 1))
  {
    hide IsEvent, StartOf;
    forall k | 0 <= k < |events[1..]|
      ensures IsEvent(events[1..][k], batches[1..][k], StartOf(StartOf(from, batches, 1), batches[1..], k))
    {
      StartOfTail(from, batches, k);
      assert IsEvent(events[k + 1], batches[k + 1], StartOf(from, batches, k + 1));
    }
  }

  /** Evicting the oldest event. */
  lemma RingShrinks(origin: Offset, log: Log, events: seq<HubEvent>, first: nat)
    requires RingOk(origin, log, events, first) && events != []
    ensures RingOk(origin, log, events[1..], first + 1)
  {
    hide AreEvents, LogOk, StartOf;
    var suffix, start := log[first - 1..], StartOf(origin, log, first - 1);
    EventsTail(events, suffix, start);
    LogIsFilled(origin, log);
    NextStart(origin, log, first - 1);
    assert log[first..] == suffix[1..];
  }

  lemma NextStart(origin: Offset, log: Log, k: nat)
    requires Filled(log) && k < |log|
    ensures StartOf(StartOf(origin, log, k), log[k..], 1) == StartOf(origin, log, k + 1)
  {
  }

  // ---- watchers ----

  datatype Watcher = Watcher(attached: bool, sequence: nat, offset: Offset, firstWireStart: nat)

  /** The watcher stands before message `j` of the event it reads next. */
  ghost predicate StandsAt(origin: Offset, log: Log, w: Watcher, j: nat) {
    && Filled(log) && 1 <= w.sequence <= |log| && j < |log[w.sequence - 1]|
    && w.offset == Position(origin, log, w.sequence - 1, j)
    && w.firstWireStart == |Wire(log[w.sequence - 1][..j])|
  }

  /** An attached watcher stands before some published message, or at the hub's tail. */
  ghost predicate WatcherOk(origin: Offset, log: Log, w: Watcher) {
    w.attached ==>
      || (exists j :: StandsAt(origin, log, w, j))
      || (Filled(log) && w.sequence == |log| + 1 && w.offset == StartOf(origin, log, |log|) && w.firstWireStart == 0)
  }

  /** Publishing more leaves every watcher where it stands. */
  lemma WatcherStays(origin: Offset, log: Log, batches: Log, w: Watcher)
    requires WatcherOk(origin, log, w) && LogOk(origin, log) && Filled(batches)
    ensures WatcherOk(origin, log + batches, w)
  {
    var longer := log + batches;
    if w.attached {
      StartOfPrefix(origin, log, batches, |log|);
      if w.sequence <= |log| {
        var j :| StandsAt(origin, log, w, j);
        StartOfPrefix(origin, log, batches, w.sequence - 1);
        assert longer[w.sequence - 1] == log[w.sequence - 1];
        assert StandsAt(origin, longer, w, j);
      } else if batches == [] {
        assert longer == log;
      } else {
        assert Wire(longer[|log|][..0]) == [];
        assert StandsAt(origin, longer, w, 0);
      }
    }
  }

  /** What a watcher was handed between two offsets is exactly the frames of the published
      messages in between. */
  ghost predicate Exact(log: Log, from: Offset, to: Offset, bytes: Bytes) {
    bytes == Wire(Between(Flat(log), from, to))
  }

  /** Publishing more does not change what lies before the old tail. */
  lemma ExactStays(origin: Offset, log: Log, batches: Log, from: Offset, to: Offset, bytes: Bytes)
    requires Exact(log, from, to, bytes) && LogOk(origin, log)
    requires Flat(log + batches) == Flat(log) + Flat(batches) && to.LessThanOrEqual(StartOf(origin, log, |log|))
    requires forall i :: 0 <= i < |Flat(batches)| ==> StartOf(origin, log, |log|).LessThan(Flat(batches)[i].offset)
    ensures Exact(log + batches, from, to, bytes)
  {
    hide Flat, Wire;
    var a, b := Flat(log), Flat(batches);
    CutsCommute(a + b, from, to);
    CutsCommute(a, from, to);
    UpToConcat(a, b, to);
    UpToNone(b, to);
    assert UpTo(a, to) + [] == UpTo(a, to);
  }

  /** Adjacent intervals join. */
  lemma BetweenJoins(ms: seq<Message>, a: Offset, b: Offset, c: Offset)
    requires Increasing(ms) && a.LessThanOrEqual(b) && b.LessThanOrEqual(c)
    ensures Between(ms, a, c) == Between(ms, a, b) + Between(ms, b, c)
  {
    hide UpTo, After;
    var i := CutAt(ms, a);
    var j := CutAt(ms, b);
    var k := CutAt(ms, c);
    CutsOrdered(ms, a, b, i, j);
    CutsOrdered(ms, b, c, j, k);
    CutsCommute(ms, a, c);
    CutsCommute(ms, a, b);
    CutsCommute(ms, b, c);
    CutPrefix(ms, i, k, a);
    CutPrefix(ms, i, j, a);
    CutPrefix(ms, j, k, b);
    assert ms[i..k] == ms[i..j] + ms[j..k];
  }

  lemma CutsOrdered(ms: seq<Message>, a: Offset, b: Offset, i: nat, j: nat)
    requires a.LessThanOrEqual(b) && i <= |ms| && j <= |ms|
    requires forall x :: 0 <= x < i ==> ms[x].offset.LessThanOrEqual(a)
    requires forall x :: j <= x < |ms| ==> b.LessThan(ms[x].offset)
    ensures i <= j
  {
    assert j < i ==> ms[j].offset.LessThanOrEqual(a);
  }

  lemma CutPrefix(ms: seq<Message>, i: nat, k: nat, o: Offset)
    requires i <= k <= |ms|
    requires forall x :: 0 <= x < i ==> ms[x].offset.LessThanOrEqual(o)
    requires forall x :: i <= x < |ms| ==> o.LessThan(ms[x].offset)
    ensures After(ms[..k], o) == ms[i..k]
  {
    hide After;
    assert ms[..k] == ms[..i] + ms[i..k];
    AfterConcat(ms[..i], ms[i..k], o);
    UpToAll(ms[..i], o);
    UpToNone(ms[i..k], o);
  }

  // ---- rising events and boundaries ----

  /** Every message of event `k` lies after the event's start, in rising order. */
  lemma EventRises(origin: Offset, log: Log, k: nat)
    requires LogOk(origin, log) && k < |log|
    ensures Increasing(log[k])
    ensures forall i :: 0 <= i < |log[k]| ==> StartOf(origin, log, k).LessThan(log[k][i].offset)
    ensures StartOf(origin, log, k).LessThan(StartOf(origin, log, k + 1))
  {
    LogSplit(log, k);
    hide Flat;
    var a := |Flat(log[..k])|;
    forall i, j | 0 <= i < j < |log[k]| ensures log[k][i].offset.LessThan(log[k][j].offset) {
      assert log[k][i] == Flat(log)[a + i] && log[k][j] == Flat(log)[a + j];
    }
    RestOfEvent(origin, log, k, 0);
    AfterSelects(Flat(log), StartOf(origin, log, k));
    forall i | 0 <= i < |log[k]| ensures StartOf(origin, log, k).LessThan(log[k][i].offset) {
      assert log[k][i] == (log[k][0..] + Flat(log[k + 1..]))[i];
    }
  }

  /** Frames are never empty, so a wire position tells the message it stands before. */
  lemma WireStartsAtZero(origin: Offset, log: Log, k: nat, j: nat)
    requires LogOk(origin, log) && k < |log| && j <= |log[k]|
    ensures Wire(log[k][..j]) == [] <==> j == 0
  {
    LogSplit(log, k);
    hide Flat;
    if j > 0 {
      assert log[k][j - 1] == Flat(log)[|Flat(log[..k])| + j - 1];
      assert Wire(log[k][..j]) == Wire(log[k][..j][..j - 1]) + log[k][j - 1].data;
    }
  }

  lemma {:induction false} StartsRise(origin: Offset, log: Log, j: nat, k: nat)
    requires LogOk(origin, log) && j < k <= |log|
    ensures StartOf(origin, log, j).LessThan(StartOf(origin, log, k))
    decreases k
  {
    EventRises(origin, log, k - 1);
    if j < k - 1 {
      StartsRise(origin, log, j, k - 1);
    }
  }

  /** Retained event `i` carries entry `first - 1 + i` of the log. */
  lemma RetainedEvent(origin: Offset, log: Log, events: seq<HubEvent>, first: nat, i: nat)
    requires RingOk(origin, log, events, first) && i < |events|
    ensures LogOk(origin, log) && 1 <= first && first - 1 + i < |log| && events[i].sequence == first + i
    ensures IsEvent(events[i], log[first - 1 + i], StartOf(origin, log, first - 1 + i))
  {
    var suffix := log[first - 1..];
    hide IsEvent;
    assert IsEvent(events[i], suffix[i], StartOf(StartOf(origin, log, first - 1), suffix, i));
  }

  lemma EventSpan(ev: HubEvent, ms: seq<Message>, from: Offset)
    requires IsEvent(ev, ms, from)
    ensures ms != [] && ev.from == from && ev.to == ms[|ms| - 1].offset && |ev.boundaries| == |ms|
    ensures forall j :: 0 <= j < |ms| ==> ev.boundaries[j].offset == ms[j].offset
  {
  }

  lemma RetainedSpan(origin: Offset, log: Log, events: seq<HubEvent>, first: nat, i: nat)
    requires RingOk(origin, log, events, first) && i < |events|
    ensures LogOk(origin, log) && 1 <= first && first - 1 + i < |log| && events[i].sequence == first + i
    ensures events[i].from == StartOf(origin, log, first - 1 + i) && events[i].to == StartOf(origin, log, first + i)
    ensures |events[i].boundaries| == |log[first - 1 + i]|
    ensures forall j :: 0 <= j < |log[first - 1 + i]| ==> events[i].boundaries[j].offset == log[first - 1 + i][j].offset
  {
    RetainedEvent(origin, log, events, first, i);
    hide RingOk, IsEvent;
    EventSpan(events[i], log[first - 1 + i], StartOf(origin, log, first - 1 + i));
  }

  /** Boundaries rise within the event. */
  ghost predicate BoundsOk(ev: HubEvent) {
    && ev.from.LessThan(ev.to)
    && (forall j, k :: 0 <= j < k < |ev.boundaries| ==> ev.boundaries[j].offset.LessThan(ev.boundaries[k].offset))
    && (forall j :: 0 <= j < |ev.boundaries| ==>
          ev.from.LessThan(ev.boundaries[j].offset) && ev.boundaries[j].offset.LessThanOrEqual(ev.to))
  }

  /** Retained events are contiguous and rise. */
  ghost predicate Contiguous(events: seq<HubEvent>) {
    && (forall i :: 0 <= i < |events| ==> BoundsOk(events[i]))
    && (forall i, j :: 0 <= i < |events| && j == i + 1 < |events| ==> events[j].from == events[i].to)
    && (forall i, j :: 0 <= i < j < |events| ==> events[i].to.LessThan(events[j].to))
  }

  lemma RingContiguous(origin: Offset, log: Log, events: seq<HubEvent>, first: nat)
    requires RingOk(origin, log, events, first)
    ensures Contiguous(events)
    ensures events != [] ==> events[|events| - 1].to == StartOf(origin, log, |log|)
  {
    hide *;
    forall i | 0 <= i < |events| ensures BoundsOk(events[i]) {
      BoundariesRise(origin, log, events, first, i);
    }
    forall i, j | 0 <= i < |events| && j == i + 1 < |events| ensures events[j].from == events[i].to {
      RetainedEnds(origin, log, events, first, i);
      RetainedEnds(origin, log, events, first, j);
    }
    forall i, j | 0 <= i < j < |events| ensures events[i].to.LessThan(events[j].to) {
      RetainedEndsRise(origin, log, events, first, i, j);
    }
    EventsAreContiguous(events);
    RingEnds(origin, log, events, first);
  }

  lemma RingEnds(origin: Offset, log: Log, events: seq<HubEvent>, first: nat)
    requires RingOk(origin, log, events, first)
    ensures events != [] ==> events[|events| - 1].to == StartOf(origin, log, |log|)
  {
    RingHasLog(origin, log, events, first);
    if events != [] {
      RetainedEnds(origin, log, events, first, |events| - 1);
    }
  }

  lemma RetainedEndsRise(origin: Offset, log: Log, events: seq<HubEvent>, first: nat, i: nat, j: nat)
    requires RingOk(origin, log, events, first) && i < j < |events|
    ensures events[i].to.LessThan(events[j].to)
  {
    hide *;
    RingHasLog(origin, log, events, first);
    RetainedEnds(origin, log, events, first, i);
    RetainedEnds(origin, log, events, first, j);
    StartsRise(origin, log, first + i, first + j);
  }

  lemma RingHasLog(origin: Offset, log: Log, events: seq<HubEvent>, first: nat)
    requires RingOk(origin, log, events, first)
    ensures LogOk(origin, log) && 1 <= first && first - 1 + |events| == |log|
  {
  }

  lemma RetainedEnds(origin: Offset, log: Log, events: seq<HubEvent>, first: nat, i: nat)
    requires RingOk(origin, log, events, first) && i < |events|
    ensures 1 <= first && first - 1 + i < |log| && events[i].sequence == first + i
    ensures events[i].from == StartOf(origin, log, first - 1 + i) && events[i].to == StartOf(origin, log, first + i)
  {
    RetainedSpan(origin, log, events, first, i);
  }

  lemma EventsAreContiguous(events: seq<HubEvent>)
    requires forall i :: 0 <= i < |events| ==> BoundsOk(events[i])
    requires forall i, j :: 0 <= i < |events| && j == i + 1 < |events| ==> events[j].from == events[i].to
    requires forall i, j :: 0 <= i < j < |events| ==> events[i].to.LessThan(events[j].to)
    ensures Contiguous(events)
  {
  }

  lemma BoundariesRise(origin: Offset, log: Log, events: seq<HubEvent>, first: nat, i: nat)
    requires RingOk(origin, log, events, first) && i < |events|
    ensures BoundsOk(events[i])
  {
    hide RingOk, LogOk, IsEvent, BoundsOk;
    RetainedEvent(origin, log, events, first, i);
    EventRises(origin, log, first - 1 + i);
    EventBounds(events[i], log[first - 1 + i], StartOf(origin, log, first - 1 + i));
  }

  lemma EventBounds(ev: HubEvent, ms: seq<Message>, from: Offset)
    requires IsEvent(ev, ms, from) && Increasing(ms) && forall i :: 0 <= i < |ms| ==> from.LessThan(ms[i].offset)
    ensures BoundsOk(ev)
  {
    EventSpan(ev, ms, from);
    hide IsEvent;
    var n := |ms| - 1;
    forall j | 0 <= j <= n ensures ms[j].offset.LessThanOrEqual(ev.to) {
      assert j < n ==> ms[j].offset.LessThan(ms[n].offset);
    }
  }

  // ---- the hub ----

  /** An offset from which the ring can still serve a watcher. */
  ghost predicate Retained(events: seq<HubEvent>, offset: Offset) {
    exists i :: 0 <= i < |events| && StartsIn(events[i], offset)
  }

  ghost predicate StartsIn(ev: HubEvent, offset: Offset) {
    ev.from == offset || exists j :: 0 <= j < |ev.boundaries| && ev.boundaries[j].offset == offset
  }

  datatype AttachResult = AttachOk | AttachBehind | AttachLagged | AttachTerminal

  /** A watcher at `offset` was found, exactly if there is one. */
  ghost predicate Located(origin: Offset, log: Log, offset: Offset, w: Option<Watcher>, there: bool) {
    match w
    case None => !there
    case Some(found) => there && found.attached && found.offset == offset && WatcherOk(origin, log, found)
  }

  /** Where the search puts a watcher that attaches behind the tail. */
  method Locate(ghost origin: Offset, ghost log: Log, events: seq<HubEvent>, first: nat, offset: Offset)
    returns (w: Option<Watcher>)
    requires RingOk(origin, log, events, first)
    requires offset.LessThan(StartOf(origin, log, |log|))
    ensures Located(origin, log, offset, w, Retained(events, offset))
  {
    RingContiguous(origin, log, events, first);
    var i := FirstEventAfter(events, offset);
    if i >= |events| {
      NotRetained(events, i, offset);
      return None;
    }
    w := LocateIn(origin, log, events, first, offset, i);
    if w.None? {
      NotRetained(events, i, offset);
    }
  }

  method LocateIn(ghost origin: Offset, ghost log: Log, events: seq<HubEvent>, ghost first: nat, offset: Offset, i: nat)
    returns (w: Option<Watcher>)
    requires RingOk(origin, log, events, first) && i < |events| && offset.LessThan(events[i].to)
    ensures Located(origin, log, offset, w, StartsIn(events[i], offset))
  {
    hide *;
    var event := events[i];
    if offset == event.from {
      FoundAtStart(origin, log, events, first, i);
      return Some(Watcher(true, event.sequence, offset, 0));
    }
    BoundariesRise(origin, log, events, first, i);
    BoundariesSorted(event);
    var b := FindBoundary(event.boundaries, offset);
    if b < 0 {
      NotFoundInside(origin, log, event, offset);
      return None;
    }
    FoundInside(origin, log, events, first, i, b);
    return Some(Watcher(true, event.sequence, offset, event.boundaries[b].wireEnd));
  }

  lemma BoundariesSorted(ev: HubEvent)
    requires BoundsOk(ev)
    ensures forall j, k :: 0 <= j < k < |ev.boundaries| ==> ev.boundaries[j].offset.LessThan(ev.boundaries[k].offset)
  {
  }

  lemma NotFoundInside(origin: Offset, log: Log, ev: HubEvent, offset: Offset)
    requires ev.from != offset && forall k :: 0 <= k < |ev.boundaries| ==> ev.boundaries[k].offset != offset
    ensures Located(origin, log, offset, None, StartsIn(ev, offset))
  {
  }

  lemma FoundAtStart(origin: Offset, log: Log, events: seq<HubEvent>, first: nat, i: nat)
    requires RingOk(origin, log, events, first) && i < |events|
    ensures Located(origin, log, events[i].from, Some(Watcher(true, events[i].sequence, events[i].from, 0)),
                    StartsIn(events[i], events[i].from))
  {
    hide RingOk, LogOk, WatcherOk, StartOf;
    RetainedSpan(origin, log, events, first, i);
    StandsAtStart(origin, log, first - 1 + i, Watcher(true, events[i].sequence, events[i].from, 0));
  }

  lemma FoundInside(origin: Offset, log: Log, events: seq<HubEvent>, first: nat, i: nat, b: nat)
    requires RingOk(origin, log, events, first) && i < |events| && b < |events[i].boundaries|
    requires events[i].boundaries[b].offset.LessThan(events[i].to)
    ensures var found := events[i].boundaries[b];
            Located(origin, log, found.offset, Some(Watcher(true, events[i].sequence, found.offset, found.wireEnd)),
                    StartsIn(events[i], found.offset))
  {
    hide RingOk, WatcherOk;
    var found := events[i].boundaries[b];
    StandsInside(origin, log, events, first, i, b, Watcher(true, events[i].sequence, found.offset, found.wireEnd));
  }

  lemma StandsAtStart(origin: Offset, log: Log, k: nat, w: Watcher)
    requires LogOk(origin, log) && k < |log| && w == Watcher(true, k + 1, StartOf(origin, log, k), 0)
    ensures WatcherOk(origin, log, w)
  {
    EmptyWire();
    assert log[k][..0] == [];
    assert StandsAt(origin, log, w, 0);
  }

  lemma LogIsFilled(origin: Offset, log: Log)
    requires LogOk(origin, log)
    ensures Filled(log)
  {
  }

  lemma StandsInside(origin: Offset, log: Log, events: seq<HubEvent>, first: nat, i: nat, b: nat, w: Watcher)
    requires RingOk(origin, log, events, first) && i < |events| && b < |events[i].boundaries|
    requires events[i].boundaries[b].offset.LessThan(events[i].to)
    requires w == Watcher(true, events[i].sequence, events[i].boundaries[b].offset, events[i].boundaries[b].wireEnd)
    ensures WatcherOk(origin, log, w)
  {
    hide RingOk, LogOk;
    RetainedEvent(origin, log, events, first, i);
    LogIsFilled(origin, log);
    assert b < |log[first - 1 + i]| - 1;
    assert StandsAt(origin, log, w, b + 1);
  }

  lemma NotRetained(events: seq<HubEvent>, i: nat, offset: Offset)
    requires Contiguous(events) && i <= |events|
    requires forall k :: 0 <= k < i ==> events[k].to.LessThanOrEqual(offset)
    requires forall k :: i <= k < |events| ==> offset.LessThan(events[k].to)
    requires i < |events| ==> !StartsIn(events[i], offset)
    requires i == |events| && events != [] ==> offset.LessThan(events[|events| - 1].to)
    ensures !Retained(events, offset)
  {
    forall k | 0 <= k < |events| ensures !StartsIn(events[k], offset) {
      assert BoundsOk(events[k]);
      if k < i {
        assert i < |events| && (k + 1 < i ==> events[k].to.LessThan(events[k + 1].to));
        assert events[k].to.LessThan(offset) by {
          if k + 1 == i {
            assert events[i].from == events[k].to;
          }
        }
      } else if i < k {
        assert offset.LessThan(events[k - 1].to) && events[k].from == events[k - 1].to;
      }
    }
  }
}
