/** A client that attaches again inside the event it holds, through the hub's own methods
    (sse_hub.go:992-1122). */
module SseReattach {
  import opened Offsets
  import opened StoreModel
  import opened StoreOps
  import opened ForkContent
  import opened SseRings
  import opened SseHubs

  const FIRST := Message([65], Offset(0, 1))
  const SECOND := Message([66], Offset(0, 2))

  /** Two messages that fit into one event are one event. */
  lemma TwoInOne(batches: Log, limit: nat)
    requires IsCut(ZERO_OFFSET, batches, limit) && Flat(batches) == [FIRST, SECOND] && limit >= 2 + 2 * BOUNDARY_BYTES
    ensures batches == [[FIRST, SECOND]]
  {
    var plain: seq<HubEvent> :| AreEvents(plain, batches, ZERO_OFFSET) && Packed(plain, limit);
    BatchesEnd(batches, ZERO_OFFSET);
    if |batches| == 1 {
      assert batches == [batches[0]];
      FlatOne(batches[0]);
    } else {
      TwoApart(batches);
      ApartDoesNotFit(plain, limit);
      assert false;
    }
  }

  lemma ApartDoesNotFit(plain: seq<HubEvent>, limit: nat)
    requires AreEvents(plain, [[FIRST], [SECOND]], ZERO_OFFSET) && Packed(plain, limit)
    ensures limit < 2 + 2 * BOUNDARY_BYTES
  {
    var batches := [[FIRST], [SECOND]];
    assert IsEvent(plain[0], batches[0], ZERO_OFFSET);
    assert IsEvent(plain[1], batches[1], StartOf(ZERO_OFFSET, batches, 1));
    OneWire(FIRST);
    OneWire(SECOND);
    assert [SECOND][..1] == [SECOND];
    assert plain[1].boundaries[0] == Boundary(SECOND.offset, 1) && plain[0].memorySize == 1 + BOUNDARY_BYTES;
    assert FullBefore(plain[..1], 1, limit);
  }

  lemma OneWire(m: Message)
    ensures Wire([m]) == m.data
  {
    assert [m][..0] == [];
    assert Wire([m]) == Wire([]) + m.data;
  }

  lemma TwoApart(batches: Log)
    requires Filled(batches) && |batches| >= 2 && Flat(batches) == [FIRST, SECOND]
    ensures batches == [[FIRST], [SECOND]]
  {
    hide Flat;
    var a, b, rest := batches[0], batches[1], batches[2..];
    assert batches == [a] + [b] + rest;
    FlatAround([a], b, rest);
    FlatOne(a);
    assert a != [] && b != [] && Filled(rest);
    BatchesEnd(rest, ZERO_OFFSET);
    SplitTwo(a, b, Flat(rest), FIRST, SECOND);
  }

  lemma SplitTwo<T>(a: seq<T>, b: seq<T>, c: seq<T>, x: T, y: T)
    requires a + b + c == [x, y] && a != [] && b != []
    ensures a == [x] && b == [y] && c == []
  {
    assert |a| + |b| + |c| == |a + b + c|;
    assert a == (a + b + c)[..1] && b == (a + b + c)[1..2];
  }

  /** The hub after one publication of the two messages. */
  ghost predicate HoldsBoth(hub: SseHub)
    reads hub
  {
    && hub.Valid() && hub.origin == ZERO_OFFSET && hub.current == SECOND.offset && !hub.terminal
    && hub.log == [[FIRST, SECOND]] && hub.firstSequence == 1 && |hub.events| == 1
  }

  lemma BothRetained(hub: SseHub)
    requires HoldsBoth(hub)
    ensures Retained(hub.events, ZERO_OFFSET) && Retained(hub.events, FIRST.offset)
  {
    RetainedSpan(hub.origin, hub.log, hub.events, hub.firstSequence, 0);
    assert hub.events[0].boundaries[0].offset == FIRST.offset;
    assert StartsIn(hub.events[0], ZERO_OFFSET) && StartsIn(hub.events[0], FIRST.offset);
  }

  /** Any watcher behind the tail stands in the one event. */
  lemma StandsInTheOne(hub: SseHub, id: nat)
    requires HoldsBoth(hub) && id in hub.watchers && hub.watchers[id].attached
    requires hub.watchers[id].offset != SECOND.offset
    ensures hub.watchers[id].sequence == 1
  {
    assert ReadingOk(hub.origin, hub.log, hub.watchers[id], hub.readings[id]);
    var j := BehindTail(hub.origin, hub.log, hub.watchers[id]);
  }

  lemma OneEventIsKept(hub: SseHub)
    requires hub.Valid() && hub.origin == ZERO_OFFSET && hub.current == SECOND.offset && !hub.terminal
    requires hub.log == [[FIRST, SECOND]] && hub.events != []
    ensures HoldsBoth(hub)
  {
    hide ReadingsOk, AreEvents, LogOk;
  }

  lemma SecondIsDue(hub: SseHub, event: HubEvent)
    requires HoldsBoth(hub) && 7 in hub.watchers && hub.watchers[7].offset == FIRST.offset
    requires Due(hub.origin, hub.log, hub.watchers[7], event)
    ensures event.sequence == 1 && event.from == FIRST.offset && event.to == SECOND.offset && event.data == SECOND.data
  {
    var ms := [FIRST, SECOND];
    FlatOne(ms);
    OneWire(SECOND);
    hide Flat, Wire, After, UpTo, StateOk, ReadingsOk;
    CutAtMessage(ms, 0);
    assert ms[1..] == [SECOND];
    UpToAll([SECOND], SECOND.offset);
  }

  /** A hub with one client that publishes the two messages as one event. */
  method PublishBoth() returns (hub: SseHub)
    ensures fresh(hub) && HoldsBoth(hub) && hub.watchers.Keys == {7}
  {
    hide StateOk, ReadingsOk, ReadOnFrom, IsCut, Published, Enlarged, Flat;
    hub := new SseHub(1000, 1000, ZERO_OFFSET, false);
    hub.AddWatcher(7);
    BothReadOn();
    ghost var before := hub.State();
    var ok := hub.Publish(ZERO_OFFSET, [FIRST, SECOND], true, false, SECOND.offset);
    BothPublished(before, hub.State(), hub.log, 1000);
    OneEventIsKept(hub);
  }

  lemma BothReadOn()
    ensures ReadOnFrom(ZERO_OFFSET, [FIRST, SECOND])
  {
  }

  lemma BothPublished(h: RingState, h': RingState, log: Log, limit: nat)
    requires Published(h, [], h', log, [FIRST, SECOND], true, false, SECOND.offset)
    requires IsCut(ZERO_OFFSET, log[0..], limit) && limit >= 2 + 2 * BOUNDARY_BYTES
    ensures log == [[FIRST, SECOND]] && h'.current == SECOND.offset && h'.events != []
  {
    assert log[0..] == log && Flat([]) == [] && [] + [FIRST, SECOND] == [FIRST, SECOND];
    hide Flat, IsCut;
    TwoInOne(log, limit);
  }

  /** A client takes the second of two messages, attaches again before the first, and commits:
      it stands at the tail, attached before both, and has had only the second. */
  method ReattachLosesMessage() returns (hub: SseHub)
    ensures fresh(hub) && hub.origin == ZERO_OFFSET && hub.log == [[FIRST, SECOND]] && hub.current == SECOND.offset
    ensures 7 in hub.watchers && hub.watchers[7].attached && hub.watchers[7].offset == SECOND.offset
    ensures 7 in hub.readings && hub.readings[7] == Reading(ZERO_OFFSET, SECOND.data) && !hub.Valid()
  {
    hide StateOk, ReadingsOk, Retained, Issued, Due;
    hub := PublishBoth();
    BothRetained(hub);
    var first := hub.Attach(7, FIRST.offset);
    StandsInTheOne(hub, 7);
    var r := hub.Next(7, FIRST.offset);
    SecondIsDue(hub, r.event);
    var again := hub.Attach(7, ZERO_OFFSET);
    StandsInTheOne(hub, 7);
    hub.Commit(7, r.event);
    assert [] + SECOND.data == SECOND.data;
  }
}
