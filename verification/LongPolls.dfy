/** No lost wake-up: waiters, channels and the store as one state machine
    (store/memory_store.go:1001-1057, 1427-1462). */
module LongPolls {
  import opened Prelude
  import opened Offsets
  import opened WriteFences
  import opened StoreModel
  import opened StoreOps
  import opened StoreInvariants
  import opened ForkLifecycle
  import opened ForkSlack
  import opened ForkAnchors
  import opened ForkContent
  import opened Paging
  import opened ForkDescents
  import opened SourcedReads
  import opened MemoryStores

  /** A waiter is about to recheck, or parked on its channel. */
  datatype Phase = Checking | Parked

  datatype Waiter = Waiter(path: string, offset: Offset, incarnation: nat, phase: Phase)

  /** One channel per waiter; `tokens` are the channels with a wake-up in the buffer, and
      `parkedIn` keeps the store in which each waiter last found nothing. */
  datatype World = World(
    store: Store, waiters: map<string, seq<Channel>>, tokens: set<Channel>, procs: map<Channel, Waiter>,
    parkedIn: map<Channel, Store>)

  datatype Event =
    | StoreEvent(op: Op)
    | Begin(ch: Channel, path: string, offset: Offset, incarnation: nat)
    | Recheck(ch: Channel, targetBytes: int, maxFrames: int, now: int)
    | Wake(ch: Channel)
    | Leave(ch: Channel)

  /** The waiter returns: its channel is unregistered. */
  function Departed(w: World, ch: Channel): World {
    if ch !in w.procs then w
    else
      var path := w.procs[ch].path;
      w.(waiters := w.waiters[path := RemoveFirst(RegisteredAt(w.waiters, path), ch)],
         tokens := w.tokens - {ch}, procs := w.procs - {ch})
  }

  /** `recheck` in WaitForPage: nothing to return yet. */
  predicate NothingYet(reply: Result<Page, StoreError>, p: Waiter) {
    && reply.Ok? && p.incarnation != 0 && reply.value.snapshot.incarnation == p.incarnation
    && reply.value.messages == []
    && !(reply.value.snapshot.closed && p.offset == reply.value.snapshot.tail)
  }

  function WorldStep(w: World, ev: Event): World {
    match ev
    case StoreEvent(op) =>
      var e := Step(w.store, op);
      w.(store := e.store, tokens := w.tokens + ChannelsAt(w.waiters, e.notified))
    case Begin(ch, path, offset, incarnation) =>
      if ch in w.procs || incarnation >= w.store.nextIncarnation then w
      else
        w.(waiters := w.waiters[path := RegisteredAt(w.waiters, path) + [ch]], tokens := w.tokens - {ch},
           procs := w.procs[ch := Waiter(path, offset, incarnation, Checking)])
    case Recheck(ch, target, frames, now) =>
      if ch !in w.procs || w.procs[ch].phase != Checking then w
      else
        var p := w.procs[ch];
        var reply := ReadPageReply(w.store, p.path, p.offset, PageOptions(target, frames, None, true), now);
        var w' := w.(store := ReadStep(w.store, p.path, None, true, now));
        if NothingYet(reply, p)
        then w'.(procs := w.procs[ch := p.(phase := Parked)], parkedIn := w.parkedIn[ch := w'.store])
        else Departed(w', ch)
    case Wake(ch) =>
      if ch !in w.procs || w.procs[ch].phase != Parked || ch !in w.tokens then w
      else w.(tokens := w.tokens - {ch}, procs := w.procs[ch := w.procs[ch].(phase := Checking)])
    case Leave(ch) => Departed(w, ch)
  }

  /** What the waiter is waiting for is there: messages after its offset, or the stream
      closed at it. */
  ghost predicate Ready(s: Store, p: Waiter) {
    && Watches(p, s)
    && (|| (!p.offset.IsNow() && After(Whole(s, p.path), p.offset) != [])
        || (s.streams[p.path].meta.closed && p.offset == s.streams[p.path].meta.currentOffset))
  }

  /** The same, as far as the stream's own messages go. */
  ghost predicate OwnReady(s: Store, p: Waiter) {
    && Watches(p, s)
    && (|| (!p.offset.IsNow() && After(s.streams[p.path].messages, p.offset) != [])
        || (s.streams[p.path].meta.closed && p.offset == s.streams[p.path].meta.currentOffset))
  }

  /** The stream the waiter asked for is there. */
  ghost predicate Watches(p: Waiter, s: Store) {
    p.path in s.streams && s.streams[p.path].meta.incarnation == p.incarnation
  }

  ghost predicate IsParked(w: World, ch: Channel) {
    ch in w.procs && w.procs[ch].phase == Parked
  }

  /** The waiter parked in an earlier store, in which it found its stream and nothing to read. */
  ghost predicate ParkedForNothing(w: World, ch: Channel) {
    && ch in w.procs && ch in w.parkedIn && Later(w.parkedIn[ch], w.store)
    && Watches(w.procs[ch], w.parkedIn[ch]) && !Ready(w.parkedIn[ch], w.procs[ch])
  }

  /** Every waiter is registered, every parked one found nothing when it parked, and has its
      token if its own stream has what it waits for. */
  ghost predicate NoLostWakeUp(w: World) {
    && Stored(w.store)
    && (forall ch :: ch in w.procs ==>
          && ch in RegisteredAt(w.waiters, w.procs[ch].path)
          && w.procs[ch].incarnation < w.store.nextIncarnation)
    && (forall ch :: IsParked(w, ch) ==> ParkedForNothing(w, ch))
    && (forall ch :: IsParked(w, ch) && OwnReady(w.store, w.procs[ch]) ==> ch in w.tokens)
  }

  // ---- the store's side: what changes is announced ----

  /** The fields a waiter looks at. */
  ghost predicate LooksSame(a: Stream, b: Stream) {
    a.messages == b.messages && a.meta.closed == b.meta.closed && a.meta.currentOffset == b.meta.currentOffset
  }

  lemma CreateAnnounces(s: Store, path: string, opts: CreateOptions, idOk: bool, now: int, p: string)
    requires var s' := CreateStep(s, path, opts, idOk, now).store;
             && p in s.streams && p in s'.streams
             && s'.streams[p].meta.incarnation == s.streams[p].meta.incarnation < s.nextIncarnation
    ensures LooksSame(s.streams[p], CreateStep(s, path, opts, idOk, now).store.streams[p])
  {
    CreateCases(s, path, opts, idOk, now);
    hide CreateStep, PlanOf, InitialFrames, IsExpiredAt;
  }

  lemma DeleteAnnounces(s: Store, path: string, p: string)
    requires p in s.streams && p in DeleteStep(s, path).store.streams
    ensures LooksSame(s.streams[p], DeleteStep(s, path).store.streams[p])
  {
    CascadeKeeps(s.streams, path);
    hide DeleteWithCascade;
  }

  lemma WriteAnnounces(s: Store, op: Op, p: string)
    requires op.Append? || op.Close? || op.CloseProducer?
    requires p in s.streams && p in Step(s, op).store.streams && p !in Step(s, op).notified
    ensures LooksSame(s.streams[p], Step(s, op).store.streams[p])
  {
    hide FenceRung, IsExpiredAt, AppendRefusal, AppendDecision, CloseDecision, Appended;
    match op
    case Append(path, body, opts, now) =>
    case Close(path, fence, now) =>
    case CloseProducer(path, id, epoch, sequence, fence, now) =>
  }

  /** A living stream that looks different was notified in the same step. */
  lemma ChangesAreAnnounced(s: Store, op: Op, p: string)
    requires p in s.streams && p in Step(s, op).store.streams && p !in Step(s, op).notified
    requires Step(s, op).store.streams[p].meta.incarnation == s.streams[p].meta.incarnation < s.nextIncarnation
    ensures LooksSame(s.streams[p], Step(s, op).store.streams[p])
  {
    hide CreateStep, DeleteStep, AppendStep, CloseStep, CloseProducerStep;
    hide IsExpiredAt, ReadGate, FenceAuthority, MarkerOf, SealOf, StaleClaim;
    match op
    case Create(path, opts, idOk, now) => CreateAnnounces(s, path, opts, idOk, now, p);
    case Delete(path) => DeleteAnnounces(s, path, p);
    case Append(_, _, _, _) => WriteAnnounces(s, op, p);
    case Close(_, _, _) => WriteAnnounces(s, op, p);
    case CloseProducer(_, _, _, _, _, _) => WriteAnnounces(s, op, p);
    case _ =>
  }

  /** If a step ends a wait, by the stream's own messages or on a stream whose sources below
      the waiter's offset are in place, it notifies the waiter's path. */
  lemma ReadyIsAnnounced(s: Store, op: Op, p: Waiter)
    requires Stored(s) && ValidOp(op) && p.incarnation < s.nextIncarnation
    requires Watches(p, s) && p.path !in Step(s, op).notified
    ensures OwnReady(Step(s, op).store, p) ==> OwnReady(s, p)
    ensures Ready(Step(s, op).store, p) && SourcedFrom(s, Step(s, op).store, p.path, p.offset) ==> Ready(s, p)
  {
    hide Step, Stored, Surviving, AnchoredFrom, Whole, After, Evolves;
    var t := Step(s, op).store;
    if Watches(p, t) {
      StepKeeps(s, op);
      ChangesAreAnnounced(s, op, p.path);
      if SourcedFrom(s, t, p.path, p.offset) {
        GrowsFrom(s, t, p.path, p.offset);
        assert Gained(s.streams[p.path], t.streams[p.path]) == [];
        NoneAfter(p.offset);
        assert After(Whole(t, p.path), p.offset) == After(Whole(s, p.path), p.offset);
      }
    }
  }

  lemma NoneAfter(o: Offset)
    ensures After([], o) == []
  {
  }

  /** A create that takes the path of a fork's lost source notifies nobody, and ends the wait of
      the fork's waiter exactly if the new stream shows something between the waiter's offset
      and the fork point. */
  lemma RetakenPathIsSilent(s: Store, path: string, opts: CreateOptions, idOk: bool, now: int, p: Waiter)
    requires CreateStep(s, path, opts, idOk, now).reply == Ok(true) && p.path in ForksOf(s.streams - {path}, path)
    requires Stored(s) && ValidOp(Create(path, opts, idOk, now)) && Watches(p, s) && !p.offset.IsNow()
    requires Ends(CreateStep(s, path, opts, idOk, now).store.streams, p.path, p.offset)
    ensures var e := CreateStep(s, path, opts, idOk, now);
            && e.notified == {} && path in e.store.streams && (OwnReady(e.store, p) <==> OwnReady(s, p))
            && (Ready(e.store, p) <==>
                  || OwnReady(s, p)
                  || Between(Whole(e.store, path), p.offset, s.streams[p.path].meta.forkOffset) != [])
  {
    CreateCases(s, path, opts, idOk, now);
    hide CreateStep, PlanOf, InitialFrames, IsExpiredAt, Stored, Ends, Whole, After, UpTo, Surviving;
    StepKeeps(s, Create(path, opts, idOk, now));
    var t := CreateStep(s, path, opts, idOk, now).store;
    var q := p.path;
    assert q in t.streams && path in t.streams && t.streams[q].messages == s.streams[q].messages;
    assert t.streams[q].meta.forkedFrom == path && t.streams[q].meta.forkOffset == s.streams[q].meta.forkOffset;
    assert t.streams[q].meta.closed == s.streams[q].meta.closed;
    assert t.streams[q].meta.currentOffset == s.streams[q].meta.currentOffset;
    assert t.streams[q].meta.incarnation == s.streams[q].meta.incarnation;
    hide Installed;
    WholeAfter(t, q, p.offset);
    if !p.offset.LessThan(t.streams[q].meta.forkOffset) {
      AfterSelects(Whole(t, path), p.offset);
      UpToNone(After(Whole(t, path), p.offset), t.streams[q].meta.forkOffset);
    }
  }

  // ---- the waiter's side ----

  /** A recheck finds nothing exactly if it finds the waiter's stream readable and the wait not over:
      it goes on waiting then, and returns in every other case. */
  lemma NothingYetIffNotReady(s: Store, p: Waiter, target: int, frames: int, now: int)
    requires Stored(s)
    ensures NothingYet(ReadPageReply(s, p.path, p.offset, PageOptions(target, frames, None, true), now), p) <==>
            p.incarnation != 0 && Readable(s, p.path, now) && Watches(p, s) && !Ready(s, p)
  {
    var options := PageOptions(target, frames, None, true);
    ReadPageAnswers(s, p.path, p.offset, options, now);
    if Readable(s, p.path, now) {
      ReadPageShows(s, p.path, p.offset, options, now);
      ShownIsAfter(s, p.path, p.offset);
    }
    hide Stored, IsExpiredAt, Whole, ReadPageReply, Between, After;
  }

  /** What lies between an offset and the tail is what lies after the offset. */
  lemma ShownIsAfter(s: Store, path: string, o: Offset)
    requires Stored(s) && path in s.streams
    ensures var w, tail := Whole(s, path), s.streams[path].meta.currentOffset;
            && Between(w, o, tail) == After(w, o) && Between(w, tail, tail) == []
            && tail.readSeq == 0
  {
    var w, tail := Whole(s, path), s.streams[path].meta.currentOffset;
    WholeIncreasing(s, path);
    assert WellStored(s.streams[path]);
    ChainRises(s.streams[path].messages, s.streams[path].meta.forkOffset, tail);
    hide Stored, WellStored, Whole;
    CutsCommute(w, o, tail);
    UpToAll(w, tail);
    hide After, UpTo;
    SelectedAreNonEmpty(w, tail, tail);
  }

  // ---- steps of the world ----

  lemma {:induction false} RemoveFirstKeepsOthers(chs: seq<Channel>, ch: Channel, other: Channel)
    requires other in chs && other != ch
    ensures other in RemoveFirst(chs, ch)
  {
    if chs[0] != ch && chs[0] != other {
      RemoveFirstKeepsOthers(chs[1..], ch, other);
    }
  }

  lemma DepartureKeeps(w: World, ch: Channel)
    requires NoLostWakeUp(w)
    ensures NoLostWakeUp(Departed(w, ch))
  {
    hide Ready, OwnReady, Watches, Later, Stored;
    if ch in w.procs {
      var w' := Departed(w, ch);
      var path := w.procs[ch].path;
      forall c | c in w'.procs ensures c in RegisteredAt(w'.waiters, w'.procs[c].path) {
        assert c in RegisteredAt(w.waiters, w.procs[c].path);
        if w.procs[c].path == path {
          RemoveFirstKeepsOthers(RegisteredAt(w.waiters, path), ch, c);
        }
      }
      forall c | IsParked(w', c)
        ensures ParkedForNothing(w', c) && (OwnReady(w'.store, w'.procs[c]) ==> c in w'.tokens)
      {
        assert IsParked(w, c) && ParkedForNothing(w, c);
      }
    }
  }

  /** Registered channels of a notified path get the token. */
  lemma NotifiedGetTokens(w: World, paths: set<string>, ch: Channel)
    requires ch in w.procs && ch in RegisteredAt(w.waiters, w.procs[ch].path) && w.procs[ch].path in paths
    ensures ch in ChannelsAt(w.waiters, paths)
  {
    var path := w.procs[ch].path;
    var i :| 0 <= i < |w.waiters[path]| && w.waiters[path][i] == ch;
  }

  lemma LaterTransitive(s: Store, t: Store, u: Store)
    requires Later(s, t) && Stored(u) && Surviving(t, u)
    ensures Later(s, u) && Later(t, u)
  {
    hide Stored, Surviving;
    SurvivingTransitive(s, t, u);
  }

  lemma StoreEventKeeps(w: World, op: Op)
    requires NoLostWakeUp(w) && ValidOp(op)
    ensures NoLostWakeUp(WorldStep(w, StoreEvent(op)))
  {
    hide Step, Stored, Surviving, Ready, OwnReady, Watches, Later;
    var w' := WorldStep(w, StoreEvent(op));
    StepKeeps(w.store, op);
    NextIncarnationGrows(w.store, w'.store);
    forall ch | IsParked(w', ch)
      ensures ParkedForNothing(w', ch) && (OwnReady(w'.store, w'.procs[ch]) ==> ch in w'.tokens)
    {
      assert IsParked(w, ch) && ParkedForNothing(w, ch);
      LaterTransitive(w.parkedIn[ch], w.store, w'.store);
      if OwnReady(w'.store, w'.procs[ch]) {
        StoreEventWakes(w, op, ch);
      }
    }
  }

  lemma NextIncarnationGrows(s: Store, t: Store)
    requires Surviving(s, t)
    ensures s.nextIncarnation <= t.nextIncarnation
  {
  }

  lemma StoreEventWakes(w: World, op: Op, ch: Channel)
    requires NoLostWakeUp(w) && ValidOp(op) && IsParked(w, ch) && OwnReady(Step(w.store, op).store, w.procs[ch])
    ensures ch in WorldStep(w, StoreEvent(op)).tokens
  {
    hide Step, Stored, Surviving, Ready, Later;
    var p, t := w.procs[ch], Step(w.store, op).store;
    assert ParkedForNothing(w, ch);
    if p.path in Step(w.store, op).notified {
      NotifiedGetTokens(w, Step(w.store, op).notified, ch);
    } else {
      StepKeeps(w.store, op);
      LaterTransitive(w.parkedIn[ch], w.store, t);
      LivedBetween(w.parkedIn[ch], w.store, t, p.path);
      hide OwnReady;
      ReadyIsAnnounced(w.store, op, p);
    }
  }

  lemma RecheckKeeps(w: World, ch: Channel, target: int, frames: int, now: int)
    requires NoLostWakeUp(w) && ch in w.procs && w.procs[ch].phase == Checking
    ensures NoLostWakeUp(WorldStep(w, Recheck(ch, target, frames, now)))
  {
    hide Stored, Ready, Later, NoLostWakeUp, ReadStep, ReadPageReply;
    var p := w.procs[ch];
    var op := Read(p.path, None, true, now);
    var w1 := w.(store := ReadStep(w.store, p.path, None, true, now));
    assert w1 == WorldStep(w, StoreEvent(op)) by {
      assert w.tokens + ChannelsAt(w.waiters, {}) == w.tokens;
    }
    StoreEventKeeps(w, op);
    var reply := ReadPageReply(w.store, p.path, p.offset, PageOptions(target, frames, None, true), now);
    if NothingYet(reply, p) {
      StoredIn(w);
      NothingYetIffNotReady(w.store, p, target, frames, now);
      LookingChangesNothing(w.store, p, target, frames, now);
      ParkingKeeps(w1, ch);
    } else {
      DepartureKeeps(w1, ch);
    }
  }

  lemma StoredIn(w: World)
    requires NoLostWakeUp(w)
    ensures Stored(w.store)
  {
  }

  /** A read that is answered, and asked not to renew, leaves the store as it was. */
  lemma LookingChangesNothing(s: Store, p: Waiter, target: int, frames: int, now: int)
    requires ReadPageReply(s, p.path, p.offset, PageOptions(target, frames, None, true), now).Ok?
    ensures ReadStep(s, p.path, None, true, now) == s && p.path in s.streams
    ensures ReadPageReply(s, p.path, p.offset, PageOptions(target, frames, None, true), now).value.snapshot.incarnation
         == s.streams[p.path].meta.incarnation
  {
    hide IsExpiredAt, PageOf;
  }

  lemma ParkingKeeps(w: World, ch: Channel)
    requires NoLostWakeUp(w) && ch in w.procs && !Ready(w.store, w.procs[ch]) && Watches(w.procs[ch], w.store)
    ensures NoLostWakeUp(w.(procs := w.procs[ch := w.procs[ch].(phase := Parked)],
                            parkedIn := w.parkedIn[ch := w.store]))
  {
    hide Stored, Later, Whole, After;
    var w' := w.(procs := w.procs[ch := w.procs[ch].(phase := Parked)], parkedIn := w.parkedIn[ch := w.store]);
    LaterThanItself(w.store);
    if OwnReady(w.store, w.procs[ch]) {
      OwnIsReady(w.store, w.procs[ch]);
    }
    hide Ready, OwnReady, Watches;
    SamePhaseOrNot(w.store, w.procs[ch]);
    forall c | IsParked(w', c)
      ensures ParkedForNothing(w', c) && (OwnReady(w'.store, w'.procs[c]) ==> c in w'.tokens)
    {
      if c != ch {
        assert IsParked(w, c) && ParkedForNothing(w, c);
      }
    }
  }

  /** Whether the wait is over does not depend on what the waiter is doing. */
  lemma SamePhaseOrNot(s: Store, p: Waiter)
    ensures var parked := p.(phase := Parked);
            && (Ready(s, parked) <==> Ready(s, p)) && (OwnReady(s, parked) <==> OwnReady(s, p))
            && (Watches(parked, s) <==> Watches(p, s))
  {
  }

  /** A stream shows its own messages. */
  lemma OwnIsReady(s: Store, p: Waiter)
    requires Stored(s) && OwnReady(s, p)
    ensures Ready(s, p)
  {
    OwnIsShown(s, p.path, p.offset);
    hide After, Whole, Stored;
  }

  lemma OwnIsShown(s: Store, path: string, o: Offset)
    requires Stored(s) && path in s.streams
    ensures After(s.streams[path].messages, o) != [] ==> After(Whole(s, path), o) != []
  {
    hide After, UpTo;
    var st := s.streams[path];
    if st.meta.forkedFrom != "" {
      WholeUnfolds(s, path);
      hide Whole, Content;
      var inherited := Content(s.streams, st.meta.forkedFrom, s.nextIncarnation - 1);
      AfterConcat(UpTo(inherited, st.meta.forkOffset), st.messages, o);
    }
  }

  lemma LaterThanItself(s: Store)
    requires Stored(s)
    ensures Later(s, s)
  {
    hide Stored;
    Unchanged(s, s);
  }

  lemma OtherEventsKeep(w: World, ev: Event)
    requires NoLostWakeUp(w) && (ev.Begin? || ev.Wake? || ev.Leave?)
    ensures NoLostWakeUp(WorldStep(w, ev))
  {
    hide NoLostWakeUp, Departed;
    match ev
    case Begin(ch, path, offset, incarnation) => BeginKeeps(w, ch, path, offset, incarnation);
    case Wake(ch) => WakeKeeps(w, ch);
    case Leave(ch) => DepartureKeeps(w, ch);
  }

  lemma BeginKeeps(w: World, ch: Channel, path: string, offset: Offset, incarnation: nat)
    requires NoLostWakeUp(w)
    ensures NoLostWakeUp(WorldStep(w, Begin(ch, path, offset, incarnation)))
  {
    hide Ready, OwnReady, Later, Stored, Watches;
    var w' := WorldStep(w, Begin(ch, path, offset, incarnation));
    forall c | IsParked(w', c)
      ensures ParkedForNothing(w', c) && (OwnReady(w'.store, w'.procs[c]) ==> c in w'.tokens)
    {
      assert IsParked(w, c) && ParkedForNothing(w, c);
    }
  }

  lemma WakeKeeps(w: World, ch: Channel)
    requires NoLostWakeUp(w)
    ensures NoLostWakeUp(WorldStep(w, Wake(ch)))
  {
    hide Ready, OwnReady, Later, Stored, Watches;
    var w' := WorldStep(w, Wake(ch));
    forall c | IsParked(w', c)
      ensures ParkedForNothing(w', c) && (OwnReady(w'.store, w'.procs[c]) ==> c in w'.tokens)
    {
      assert IsParked(w, c) && ParkedForNothing(w, c);
    }
  }

  // ---- runs of the world ----

  const EMPTY_WORLD := World(EMPTY_STORE, map[], {}, map[], map[])

  function Play(evs: seq<Event>): World {
    if evs == [] then EMPTY_WORLD else WorldStep(Play(evs[..|evs| - 1]), evs[|evs| - 1])
  }

  /** Request bodies are not empty. */
  ghost predicate ValidEvents(evs: seq<Event>) {
    forall k :: 0 <= k < |evs| && evs[k].StoreEvent? ==> ValidOp(evs[k].op)
  }

  lemma {:induction false} NeverLost(evs: seq<Event>)
    requires ValidEvents(evs)
    ensures NoLostWakeUp(Play(evs))
  {
    if evs != [] {
      hide NoLostWakeUp, WorldStep;
      var n := |evs| - 1;
      NeverLost(evs[..n]);
      WorldKeeps(Play(evs[..n]), evs[n]);
    }
  }

  lemma WorldKeeps(w: World, ev: Event)
    requires NoLostWakeUp(w) && (ev.StoreEvent? ==> ValidOp(ev.op))
    ensures NoLostWakeUp(WorldStep(w, ev))
  {
    hide NoLostWakeUp, Step, ReadStep, ReadPageReply, ValidOp;
    match ev
    case StoreEvent(op) => StoreEventKeeps(w, op);
    case Recheck(ch, target, frames, now) =>
      if ch in w.procs && w.procs[ch].phase == Checking {
        RecheckKeeps(w, ch, target, frames, now);
      }
    case _ => OtherEventsKeep(w, ev);
  }

  // ---- who is woken ----

  /** No lost wake-up.  At every point of every interleaving of appends, closes, deletes, claims
      and waits, a waiter parked in WaitForPage has a token in its channel if its own stream has
      messages after its offset or is closed at it; and if what it waits for is inherited, as
      long as the sources below its offset are in place and were when it parked. */
  lemma AlwaysWoken(evs: seq<Event>, ch: Channel)
    requires ValidEvents(evs) && IsParked(Play(evs), ch)
    ensures var w := Play(evs);
            var p := w.procs[ch];
            && (OwnReady(w.store, p) ==> ch in w.tokens) && ch in w.parkedIn
            && (Ready(w.store, p) && SourcedFrom(w.parkedIn[ch], w.store, p.path, p.offset) ==> ch in w.tokens)
  {
    hide Play, Stored, Ready, OwnReady, Later, SourcedFrom, Watches;
    NeverLost(evs);
    var w := Play(evs);
    var p := w.procs[ch];
    assert ParkedForNothing(w, ch);
    if Ready(w.store, p) && SourcedFrom(w.parkedIn[ch], w.store, p.path, p.offset) {
      NewsIsOwn(w.parkedIn[ch], w.store, p);
    }
  }

  /** A wait that is over now and was not before, on a stream whose sources below the offset are
      in place, was ended by the stream's own messages. */
  lemma NewsIsOwn(s: Store, t: Store, p: Waiter)
    requires Later(s, t) && Watches(p, s) && !Ready(s, p) && Ready(t, p) && SourcedFrom(s, t, p.path, p.offset)
    ensures OwnReady(t, p)
  {
    hide Later, AnchoredFrom, Whole, After, Evolves;
    GrowsFrom(s, t, p.path, p.offset);
    EvolvesGains(s.streams[p.path], t.streams[p.path]);
    AfterConcat(s.streams[p.path].messages, Gained(s.streams[p.path], t.streams[p.path]), p.offset);
  }

  /** From the fork point on nothing is inherited. */
  lemma PastForkPointIsOwn(s: Store, p: Waiter)
    requires Stored(s) && Ready(s, p)
    requires s.streams[p.path].meta.forkedFrom == "" || s.streams[p.path].meta.forkOffset.LessThanOrEqual(p.offset)
    ensures OwnReady(s, p)
  {
    hide Stored, Whole, After;
    ShownAfter(s, p.path, p.offset);
  }

  /** A parked waiter at or past its stream's fork point is woken in every interleaving, whatever
      becomes of the stream's source. */
  lemma PastForkPointAlwaysWoken(evs: seq<Event>, ch: Channel)
    requires ValidEvents(evs) && IsParked(Play(evs), ch) && Ready(Play(evs).store, Play(evs).procs[ch])
    requires var w := Play(evs);
             var meta := w.store.streams[w.procs[ch].path].meta;
             meta.forkedFrom == "" || meta.forkOffset.LessThanOrEqual(w.procs[ch].offset)
    ensures ch in Play(evs).tokens
  {
    hide Play, Stored, OwnReady, Later, SourcedFrom;
    NeverLost(evs);
    AlwaysWoken(evs, ch);
    PastForkPointIsOwn(Play(evs).store, Play(evs).procs[ch]);
  }

  /** A parked waiter whose wait is over and who has no token stands below its stream's fork
      point, has nothing of the stream's own to read, and some source below its offset is not in
      place or was not when it parked. */
  lemma OnlyInheritedIsMissed(evs: seq<Event>, ch: Channel)
    requires ValidEvents(evs) && IsParked(Play(evs), ch) && Ready(Play(evs).store, Play(evs).procs[ch])
    requires ch !in Play(evs).tokens
    ensures var w := Play(evs);
            var p, st := w.procs[ch], w.store.streams[w.procs[ch].path];
            && st.meta.forkedFrom != "" && p.offset.LessThan(st.meta.forkOffset) && After(st.messages, p.offset) == []
            && !(st.meta.closed && p.offset == st.meta.currentOffset)
            && ch in w.parkedIn && !SourcedFrom(w.parkedIn[ch], w.store, p.path, p.offset)
  {
    hide Play, Stored, Later, SourcedFrom, Whole, After;
    NeverLost(evs);
    AlwaysWoken(evs, ch);
    var w := Play(evs);
    var p := w.procs[ch];
    if w.store.streams[p.path].meta.forkedFrom == ""
      || w.store.streams[p.path].meta.forkOffset.LessThanOrEqual(p.offset)
    {
      PastForkPointIsOwn(w.store, p);
    }
    BelowNow(p.offset, w.store.streams[p.path].meta.forkOffset);
  }

  lemma BelowNow(o: Offset, u: Offset)
    ensures o.LessThan(u) || u.LessThanOrEqual(o)
  {
  }

  // ---- runs in which no source is replaced ----

  /** No create takes a path that some stream still names as its source. */
  ghost predicate FreshEvents(evs: seq<Event>) {
    forall k :: 0 <= k < |evs| && evs[k].StoreEvent? ==> Fresh(Play(evs[..k]).store, evs[k].op)
  }

  /** In the store, and in every store that a waiter parked in, no source was replaced. */
  ghost predicate TiedWorld(w: World) {
    && Stored(w.store) && AllTied(w.store.streams)
    && (forall ch :: ch in w.parkedIn ==> AllTied(w.parkedIn[ch].streams))
  }

  lemma StepTied(s: Store, op: Op)
    requires Stored(s) && AllTied(s.streams) && ValidOp(op) && Fresh(s, op)
    ensures Stored(Step(s, op).store) && AllTied(Step(s, op).store.streams)
  {
    hide Step, Stored, AllTied, Surviving, Fresh;
    StepKeeps(s, op);
    StepTiedIff(s, op);
  }

  lemma WorldTied(w: World, ev: Event)
    requires TiedWorld(w) && (ev.StoreEvent? ==> ValidOp(ev.op) && Fresh(w.store, ev.op))
    ensures TiedWorld(WorldStep(w, ev))
  {
    hide Stored, AllTied, ReadStep, ReadPageReply, Fresh;
    match ev
    case StoreEvent(op) =>
      hide Step;
      StepTied(w.store, op);
    case Recheck(ch, target, frames, now) =>
      if ch in w.procs {
        var op := Read(w.procs[ch].path, None, true, now);
        NotCreating(w.store, op);
        StepTied(w.store, op);
      }
    case _ =>
  }

  lemma NotCreating(s: Store, op: Op)
    requires !op.Create?
    ensures Fresh(s, op) && Safe(s, op)
  {
  }

  lemma {:induction false} FreshEventsTied(evs: seq<Event>)
    requires ValidEvents(evs) && FreshEvents(evs)
    ensures TiedWorld(Play(evs))
  {
    if evs != [] {
      var n := |evs| - 1;
      hide WorldStep, Fresh, ValidOp;
      assert FreshEvents(evs[..n]) by {
        forall k | 0 <= k < n && evs[..n][k].StoreEvent? ensures Fresh(Play(evs[..n][..k]).store, evs[..n][k].op) {
          assert evs[..n][..k] == evs[..k] && evs[..n][k] == evs[k];
        }
      }
      FreshEventsTied(evs[..n]);
      hide TiedWorld;
      WorldTied(Play(evs[..n]), evs[n]);
    }
  }

  /** In every interleaving in which no create takes a path that some stream still names as its
      source, every parked waiter whose wait is over has its token. */
  lemma FreshAlwaysWoken(evs: seq<Event>, ch: Channel)
    requires ValidEvents(evs) && FreshEvents(evs)
    requires IsParked(Play(evs), ch) && Ready(Play(evs).store, Play(evs).procs[ch])
    ensures ch in Play(evs).tokens
  {
    hide Play, FreshEvents, Stored, AllTied, Ready, OwnReady, Later, Watches;
    NeverLost(evs);
    FreshEventsTied(evs);
    var w := Play(evs);
    assert ParkedForNothing(w, ch);
    FreshNewsIsOwn(w.parkedIn[ch], w.store, w.procs[ch]);
  }

  lemma FreshNewsIsOwn(s: Store, t: Store, p: Waiter)
    requires Later(s, t) && Watches(p, s) && !Ready(s, p) && Ready(t, p) && AllTied(s.streams) && AllTied(t.streams)
    ensures OwnReady(t, p)
  {
    hide Later, Whole, After, AllTied;
    if !p.offset.IsNow() && After(Whole(t, p.path), p.offset) != [] {
      var m := After(Whole(t, p.path), p.offset)[0];
      AfterMember(Whole(t, p.path), p.offset, m);
      LaterShowsNothingForeign(s, t, p.path, m);
      AfterMember(Whole(s, p.path), p.offset, m);
      AfterMember(t.streams[p.path].messages, p.offset, m);
    }
  }

  /** No create lands on an expired stream with forks. */
  ghost predicate SafeEvents(evs: seq<Event>) {
    forall k :: 0 <= k < |evs| && evs[k].StoreEvent? ==> Safe(Play(evs[..k]).store, evs[k].op)
  }

  ghost predicate Grounded(w: World) {
    Stored(w.store) && Rooted(w.store.streams)
  }

  lemma StepGrounded(s: Store, op: Op)
    requires Stored(s) && Rooted(s.streams) && ValidOp(op) && Safe(s, op)
    ensures Stored(Step(s, op).store) && Rooted(Step(s, op).store.streams)
  {
    hide Step, Stored, Rooted, Surviving, Safe;
    StepKeeps(s, op);
    StepRoots(s, op);
  }

  lemma WorldGrounded(w: World, ev: Event)
    requires Grounded(w) && (ev.StoreEvent? ==> ValidOp(ev.op) && Safe(w.store, ev.op))
    ensures Grounded(WorldStep(w, ev))
  {
    hide Stored, Rooted, ReadStep, ReadPageReply, Safe;
    match ev
    case StoreEvent(op) =>
      hide Step;
      StepGrounded(w.store, op);
    case Recheck(ch, target, frames, now) =>
      if ch in w.procs {
        var op := Read(w.procs[ch].path, None, true, now);
        NotCreating(w.store, op);
        StepGrounded(w.store, op);
      }
    case _ =>
  }

  lemma {:induction false} SafeEventsGrounded(evs: seq<Event>, n: nat)
    requires ValidEvents(evs) && SafeEvents(evs) && n <= |evs|
    ensures Grounded(Play(evs[..n]))
  {
    if n > 0 {
      hide WorldStep, Safe, ValidOp;
      SafeEventsGrounded(evs, n - 1);
      assert evs[..n][..n - 1] == evs[..n - 1];
      hide Grounded;
      WorldGrounded(Play(evs[..n - 1]), evs[n - 1]);
    }
  }

  /** Such an interleaving takes no path that is still named as a source. */
  lemma SafeAlwaysWoken(evs: seq<Event>, ch: Channel)
    requires ValidEvents(evs) && SafeEvents(evs)
    requires IsParked(Play(evs), ch) && Ready(Play(evs).store, Play(evs).procs[ch])
    ensures FreshEvents(evs) && ch in Play(evs).tokens
  {
    hide Play, Safe, Fresh, Ready, Stored, AllAnchored, Covered;
    forall k | 0 <= k < |evs| && evs[k].StoreEvent? ensures Fresh(Play(evs[..k]).store, evs[k].op) {
      SafeEventsGrounded(evs, k);
      SafeIsFresh(Play(evs[..k]).store, evs[k].op);
    }
    FreshAlwaysWoken(evs, ch);
  }
}
