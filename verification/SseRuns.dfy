/** Any interleaving of publications, attaches, reads and commits on one hub (sse_hub.go). */
module SseRuns {
  import opened Prelude
  import opened Offsets
  import opened StoreModel
  import opened Paging
  import opened SseRings
  import opened SseHubs

  datatype HubOp =
    | PublishOp(from: Offset, messages: seq<Message>, upToDate: bool, streamClosed: bool, tail: Offset)
    | AddOp(id: nat)
    | RemoveOp(id: nat)
    | AttachOp(id: nat, offset: Offset)
    | NextOp(id: nat, offset: Offset)
    | CommitOp(id: nat)
    | ReleaseOp
    | FailOp

  /** Pages are what a read of the stream gives. */
  ghost predicate ValidHubOp(op: HubOp) {
    op.PublishOp? ==> ReadOnFrom(op.from, op.messages)
  }

  /** What the clients of a hub have: the event each was handed and has not committed, the
      bytes each has committed since it attached, and where that was. */
  datatype Clients = Clients(
    handed: map<nat, HubEvent>, delivered: map<nat, Bytes>, attachedAt: map<nat, Offset>, published: seq<Message>)

  const NO_CLIENTS := Clients(map[], map[], map[], [])

  /** An event that a watcher holds is the one it is due. */
  ghost predicate HandedOk(origin: Offset, log: Log, watchers: map<nat, Watcher>, handed: map<nat, HubEvent>) {
    forall id :: id in handed && id in watchers && handed[id].sequence != 0 ==>
      watchers[id].attached && Due(origin, log, watchers[id], handed[id]) && Issued(origin, log, handed[id])
  }

  /** What clients were given is what the hub has on record. */
  ghost predicate Recorded(watchers: map<nat, Watcher>, readings: map<nat, Reading>, c: Clients) {
    forall id :: id in watchers && watchers[id].attached ==>
      && id in readings && id in c.attachedAt && id in c.delivered
      && readings[id] == Reading(c.attachedAt[id], c.delivered[id])
  }

  ghost predicate Serving(hub: SseHub, c: Clients)
    reads hub
  {
    && hub.Valid() && HandedOk(hub.origin, hub.log, hub.watchers, c.handed)
    && Recorded(hub.watchers, hub.readings, c) && Flat(hub.log) == c.published
  }

  /** What a list of operations publishes, and the tail it leads to: a page counts if it was
      read from the tail that the pages before it led to. */
  function Pages(tail: Offset, ops: seq<HubOp>): (seq<Message>, Offset) {
    if ops == [] then ([], tail)
    else
      var before, op := Pages(tail, ops[..|ops| - 1]), ops[|ops| - 1];
      if op.PublishOp? && op.from == before.1 then
        (before.0 + op.messages, if op.messages == [] then before.1 else op.messages[|op.messages| - 1].offset)
      else before
  }

  lemma HandedStays(origin: Offset, log: Log, log': Log, watchers: map<nat, Watcher>, handed: map<nat, HubEvent>)
    requires HandedOk(origin, log, watchers, handed) && LogOk(origin, log) && LogOk(origin, log') && log <= log'
    requires Follows(origin, log, Flat(log'[|log|..]))
    ensures HandedOk(origin, log', watchers, handed)
  {
    hide LogOk, Due, Issued, Follows, Flat;
    var batches := log'[|log|..];
    assert log' == log + batches;
    LogIsFilled(origin, log);
    LogIsFilled(origin, log');
    assert Filled(batches);
    forall id | id in handed && id in watchers && handed[id].sequence != 0
      ensures watchers[id].attached && Due(origin, log', watchers[id], handed[id]) && Issued(origin, log', handed[id])
    {
      DueStays(origin, log, batches, watchers[id], handed[id]);
      IssuedStays(origin, log, batches, handed[id]);
    }
  }

  /** The messages of a publication are the ones after the old tail. */
  lemma PublicationFollows(origin: Offset, log: Log, log': Log, messages: seq<Message>)
    requires log <= log' && Flat(log') == Flat(log) + messages && ReadOnFrom(StartOf(origin, log, |log|), messages)
    ensures Follows(origin, log, Flat(log'[|log|..]))
  {
    hide Flat;
    var batches := log'[|log|..];
    assert log' == log + batches;
    FlatConcat(log, batches);
    assert Flat(batches) == (Flat(log) + Flat(batches))[|Flat(log)|..] == messages;
  }

  method ServePublish(hub: SseHub, op: HubOp, c: Clients) returns (c': Clients)
    requires Serving(hub, c) && op.PublishOp? && ValidHubOp(op)
    modifies hub
    ensures Serving(hub, c') && hub.origin == old(hub.origin)
    ensures if op.from == old(hub.current)
            then && c'.published == c.published + op.messages
                 && hub.current == if op.messages == [] then op.from else op.messages[|op.messages| - 1].offset
            else c'.published == c.published && hub.current == old(hub.current)
  {
    hide StateOk, ReadingsOk, HandedOk, Flat, ReadOnFrom, LogOk, Enlarged, IsCut;
    ghost var origin, log, watchers, current := hub.origin, hub.log, hub.watchers, hub.current;
    StateHasLog(origin, log, hub.State(), hub.replayLimit);
    StateHasTail(origin, log, hub.State(), hub.replayLimit);
    var ok := hub.Publish(op.from, op.messages, op.upToDate, op.streamClosed, op.tail);
    c' := c;
    if ok {
      StateHasLog(origin, hub.log, hub.State(), hub.replayLimit);
      PublicationFollows(origin, log, hub.log, op.messages);
      HandedStays(origin, log, hub.log, watchers, c.handed);
      c' := c.(published := c.published + op.messages);
    }
  }

  lemma StateHasTail(origin: Offset, log: Log, h: RingState, limit: nat)
    requires StateOk(origin, log, h, limit)
    ensures h.current == StartOf(origin, log, |log|)
  {
  }

  method ServeAttach(hub: SseHub, op: HubOp, c: Clients) returns (c': Clients)
    requires Serving(hub, c) && op.AttachOp?
    modifies hub
    ensures Serving(hub, c') && c'.published == c.published
    ensures hub.current == old(hub.current) && hub.origin == old(hub.origin)
  {
    hide StateOk, ReadingsOk, Flat, LogOk, Due, Issued, AttachAnswer;
    c' := c;
    if op.id in hub.watchers {
      var answer := hub.Attach(op.id, op.offset);
      if answer == AttachOk {
        c' := c.(handed := c.handed - {op.id}, delivered := c.delivered[op.id := []],
                 attachedAt := c.attachedAt[op.id := op.offset]);
      }
    }
  }

  method ServeNext(hub: SseHub, op: HubOp, c: Clients) returns (c': Clients)
    requires Serving(hub, c) && op.NextOp?
    ensures Serving(hub, c') && c'.published == c.published
  {
    hide StateOk, ReadingsOk, Flat, LogOk, Due, Issued;
    c' := c;
    if op.id in hub.watchers {
      var r := hub.Next(op.id, op.offset);
      if r.Event? {
        c' := c.(handed := c.handed[op.id := r.event]);
      }
    }
  }

  method ServeCommit(hub: SseHub, op: HubOp, c: Clients) returns (c': Clients)
    requires Serving(hub, c) && op.CommitOp?
    modifies hub
    ensures Serving(hub, c') && c'.published == c.published
    ensures hub.current == old(hub.current) && hub.origin == old(hub.origin)
  {
    hide StateOk, ReadingsOk, Flat, LogOk, Issued, Exact, StartOf;
    c' := c;
    if op.id in hub.watchers && op.id in c.handed {
      var event := c.handed[op.id];
      hub.Commit(op.id, event);
      c' := c.(handed := c.handed - {op.id});
      if event.sequence != 0 {
        c' := c'.(delivered := c.delivered[op.id := c.delivered[op.id] + event.data]);
      }
    }
  }

  method ServeOther(hub: SseHub, op: HubOp, c: Clients) returns (c': Clients)
    requires Serving(hub, c) && (op.AddOp? || op.RemoveOp? || op.ReleaseOp? || op.FailOp?)
    modifies hub
    ensures Serving(hub, c') && c'.published == c.published
    ensures hub.current == old(hub.current) && hub.origin == old(hub.origin)
  {
    hide StateOk, ReadingsOk, Flat, LogOk, Due, Issued;
    c' := c;
    match op {
      case AddOp(id) =>
        if id !in hub.watchers {
          hub.AddWatcher(id);
          c' := c.(handed := c.handed - {id});
        }
      case RemoveOp(id) => hub.RemoveWatcher(id);
      case ReleaseOp => hub.ReleaseReplay();
      case FailOp => hub.Fail();
    }
  }

  /** A hub that begins at `tail`, through any list of operations: a client that attaches
      again gives up the event it holds, and otherwise everything may come in any order.  At
      the end each attached client has had exactly the frames of the messages published
      between where it attached and where it stands. */
  method Serve(replayLimit: nat, batchLimit: nat, tail: Offset, streamClosed: bool, ops: seq<HubOp>)
    returns (hub: SseHub, c: Clients)
    requires forall i :: 0 <= i < |ops| ==> ValidHubOp(ops[i])
    ensures fresh(hub) && Serving(hub, c) && hub.origin == tail
    ensures c.published == Pages(tail, ops).0 && hub.current == Pages(tail, ops).1
    ensures forall id :: id in hub.watchers && hub.watchers[id].attached ==>
              && id in c.attachedAt && id in c.delivered
              && c.delivered[id] == Wire(Between(c.published, c.attachedAt[id], hub.watchers[id].offset))
  {
    hub := new SseHub(replayLimit, batchLimit, tail, streamClosed);
    c := NO_CLIENTS;
    hide StateOk, ReadingOk, Due, Issued, ReadOnFrom;
    for i := 0 to |ops|
      invariant Serving(hub, c) && fresh(hub) && hub.origin == tail
      invariant (c.published, hub.current) == Pages(tail, ops[..i])
    {
      var op := ops[i];
      assert ops[..i + 1][..i] == ops[..i];
      match op {
        case PublishOp(_, _, _, _, _) => c := ServePublish(hub, op, c);
        case AttachOp(_, _) => c := ServeAttach(hub, op, c);
        case NextOp(_, _) => c := ServeNext(hub, op, c);
        case CommitOp(_) => c := ServeCommit(hub, op, c);
        case _ => c := ServeOther(hub, op, c);
      }
    }
    assert ops[..|ops|] == ops;
    ServedExactly(hub, c);
  }

  lemma ServedExactly(hub: SseHub, c: Clients)
    requires Serving(hub, c)
    ensures forall id :: id in hub.watchers && hub.watchers[id].attached ==>
              && id in c.attachedAt && id in c.delivered
              && c.delivered[id] == Wire(Between(c.published, c.attachedAt[id], hub.watchers[id].offset))
  {
    hide StateOk, WatcherOk, Wire, Between, Flat;
  }
}
