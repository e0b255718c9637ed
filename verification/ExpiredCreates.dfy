/** What a create on an expired path does to the forks around it, on concrete runs
    (store/memory_store.go:154-156). */
module ExpiredCreates {
  import opened Prelude
  import opened Offsets
  import opened StoreModel
  import opened StoreOps
  import opened StoreInvariants
  import opened ForkLifecycle
  import opened ForkSlack
  import opened ForkAnchors
  import opened ForkContent
  import opened Paging
  import opened ForkDescents
  import LongPolls

  /** A stream of one byte. */
  function Holding(b: Byte, expires: int): CreateOptions {
    CreateOptions("a/b", None, Some(expires), Some(Payload([b], Err(InvalidJson))), false, false, "", None, None)
  }

  /** A fork at its source's tail. */
  function ForkOf(source: string, expires: int): CreateOptions {
    CreateOptions("a/b", None, Some(expires), None, false, false, source, None, None)
  }

  /** What matters here of the stream that a create makes. */
  ghost predicate Made(st: Stream, source: string, messages: seq<Message>, forkOffset: Offset, expires: int,
      incarnation: nat) {
    && st.messages == messages && st.meta.forkedFrom == source && st.meta.forkOffset == forkOffset
    && st.meta.currentOffset == Offset(0, 1) && st.meta.contentType == "a/b" && st.meta.refCount == 0
    && st.meta.expiresAt == Some(expires) && st.meta.ttlSeconds.None? && !st.meta.softDeleted
    && st.meta.incarnation == incarnation && !st.meta.closed
  }

  lemma NotJson()
    ensures !IsJson("a/b")
  {
  }

  lemma HoldingMade(s: Store, path: string, b: Byte, expires: int, now: int)
    requires path in s.streams ==> IsExpiredAt(s.streams[path].meta, now)
    ensures var e := CreateStep(s, path, Holding(b, expires), true, now);
            && e.reply == Ok(true) && e.store.nextIncarnation == s.nextIncarnation + 1
            && path in e.store.streams && e.store.streams == (s.streams - {path})[path := e.store.streams[path]]
            && Made(e.store.streams[path], "", [Message([b], Offset(0, 1))], ZERO_OFFSET, expires, s.nextIncarnation)
  {
    hide IsExpiredAt, IsJson;
    NotJson();
    var frames: seq<Bytes> := [[b]];
    assert [] + frames == frames;
    LaidOne(ZERO_OFFSET, [b]);
  }

  lemma ForkMade(s: Store, path: string, source: string, expires: int, now: int)
    requires path in s.streams ==> IsExpiredAt(s.streams[path].meta, now)
    requires source != "" && source != path && source in s.streams && !IsExpiredAt(s.streams[source].meta, now)
    requires var m := s.streams[source].meta;
             !m.softDeleted && m.contentType == "a/b" && m.currentOffset == Offset(0, 1)
    ensures var e := CreateStep(s, path, ForkOf(source, expires), true, now);
            && e.reply == Ok(true) && e.store.nextIncarnation == s.nextIncarnation + 1
            && path in e.store.streams
            && e.store.streams == Retain(s.streams - {path}, source, 1)[path := e.store.streams[path]]
            && Made(e.store.streams[path], source, [], Offset(0, 1), expires, s.nextIncarnation)
  {
    hide IsExpiredAt;
    assert EqualFold("a/b", "a/b");
    var none: seq<Bytes> := [];
    assert none + none == none;
  }

  lemma MadeExpires(st: Stream, now: int)
    requires st.meta.ttlSeconds.None? && st.meta.expiresAt.Some?
    ensures IsExpiredAt(st.meta, now) <==> now > st.meta.expiresAt.value
  {
  }

  // ---- a fork whose source expires ----

  /** Path "p" holds one byte and expires at time 10; "q" is a fork of it at its tail. */
  const FORKED := [Create("p", Holding(65, 10), true, 0), Create("q", ForkOf("p", 1000), true, 0)]

  const BYTE_A := Message([65], Offset(0, 1))
  const BYTE_B := Message([66], Offset(0, 1))

  ghost predicate IsForked(s: Store) {
    && s.nextIncarnation == 3 && s.streams.Keys == {"p", "q"}
    && Made(s.streams["q"], "p", [], Offset(0, 1), 1000, 2)
    && s.streams["p"].meta.refCount == 1
    && Made(s.streams["p"].(meta := s.streams["p"].meta.(refCount := 0)), "", [BYTE_A], ZERO_OFFSET, 10, 1)
  }

  lemma RunOfOne(op: Op)
    ensures Exec([op]).store == Step(EMPTY_STORE, op).store
  {
    assert [op][..0] == [];
    assert Exec([]).store == EMPTY_STORE;
  }

  lemma RunSnoc(ops: seq<Op>, op: Op)
    ensures Exec(ops + [op]).store == Step(Exec(ops).store, op).store
  {
    assert (ops + [op])[..|ops|] == ops;
  }

  lemma ForkedRun()
    ensures IsForked(Exec(FORKED).store)
  {
    hide Exec, CreateStep, Holding, ForkOf, IsExpiredAt;
    var first := Create("p", Holding(65, 10), true, 0);
    RunOfOne(first);
    var s1 := Exec([first]).store;
    HoldingMade(EMPTY_STORE, "p", 65, 10, 0);
    MadeExpires(s1.streams["p"], 0);
    ForkMade(s1, "q", "p", 1000, 0);
    assert FORKED == [first] + [Create("q", ForkOf("p", 1000), true, 0)];
    RunSnoc([first], Create("q", ForkOf("p", 1000), true, 0));
  }

  /** What a fork at the tail of a one-byte stream shows. */
  lemma ForkShowsByte(s: Store, m: Message)
    requires s.nextIncarnation >= 2 && "p" in s.streams && "q" in s.streams
    requires s.streams["p"].meta.forkedFrom == "" && s.streams["p"].messages == [m] && m.offset == Offset(0, 1)
    requires s.streams["q"].meta.forkedFrom == "p" && s.streams["q"].messages == []
    requires s.streams["q"].meta.forkOffset == Offset(0, 1)
    ensures Whole(s, "q") == [m]
  {
    UpToAll([m], Offset(0, 1));
    hide UpTo;
    assert Content(s.streams, "p", s.nextIncarnation - 1) == [m];
  }

  /** The source of a fork is re-created with another byte, and the fork shows that byte. */
  lemma UnsafeCreateRewritesFork()
    ensures var ops := FORKED + [Create("p", Holding(66, 1000), true, 20)];
            var s, t := Exec(FORKED).store, Exec(ops).store;
            Lives(s, t, "q") && Whole(s, "q") == [BYTE_A] && Whole(t, "q") == [BYTE_B]
  {
    hide Exec, CreateStep, Holding, IsExpiredAt, Whole;
    ForkedRun();
    var s := Exec(FORKED).store;
    RunSnoc(FORKED, Create("p", Holding(66, 1000), true, 20));
    MadeExpires(s.streams["p"], 20);
    HoldingMade(s, "p", 66, 1000, 20);
    ForkShowsByte(s, BYTE_A);
    ForkShowsByte(Exec(FORKED + [Create("p", Holding(66, 1000), true, 20)]).store, BYTE_B);
  }

  /** Deleting the fork then reports an underflow. */
  lemma UnsafeCreateUnderflows()
    ensures var t := Exec(FORKED + [Create("p", Holding(66, 1000), true, 20)]).store;
            DeleteStep(t, "q").reply == Some(RefCountUnderflow)
  {
    hide Exec, CreateStep, Holding, IsExpiredAt;
    ForkedRun();
    var s := Exec(FORKED).store;
    RunSnoc(FORKED, Create("p", Holding(66, 1000), true, 20));
    MadeExpires(s.streams["p"], 20);
    HoldingMade(s, "p", 66, 1000, 20);
    var t := Exec(FORKED + [Create("p", Holding(66, 1000), true, 20)]).store;
    assert t.streams["q"] == s.streams["q"] && "p" in t.streams - {"q"};
  }

  /** The source is re-created as a fork of its own fork: the two lead to each other, and a
      read from the start never ends. */
  lemma UnsafeCreateMakesCycle()
    ensures var t := Exec(FORKED + [Create("p", ForkOf("q", 1000), true, 20)]).store;
            && t.streams.Keys == {"p", "q"}
            && t.streams["p"].meta.forkedFrom == "q" && t.streams["q"].meta.forkedFrom == "p"
            && !Ends(t.streams, "p", ZERO_OFFSET)
  {
    hide Exec, CreateStep, ForkOf, IsExpiredAt;
    ForkedRun();
    var s := Exec(FORKED).store;
    RunSnoc(FORKED, Create("p", ForkOf("q", 1000), true, 20));
    MadeExpires(s.streams["p"], 20);
    MadeExpires(s.streams["q"], 20);
    ForkMade(s, "p", "q", 1000, 20);
    var t := Exec(FORKED + [Create("p", ForkOf("q", 1000), true, 20)]).store;
    assert Descends(t.streams, "p", ZERO_OFFSET) && Descends(t.streams, "q", ZERO_OFFSET);
    assert Reached(t.streams, "p", ZERO_OFFSET, 2) == Some("p");
    hide EndsWithin, Reached;
    forall n: nat ensures !EndsWithin(t.streams, "p", ZERO_OFFSET, n) {
      CycleNeverEnds(t.streams, "p", ZERO_OFFSET, 2, n);
    }
  }

  // ---- a waiter on a fork without a source ----

  const DROP := Create("p", Holding(66, 1000), false, 20)
  const REMAKE := Create("p", Holding(66, 1000), true, 20)

  /** A failed create drops the expired source, a waiter finds its fork empty and parks, and a
      second create brings the source back. */
  const STRANDED := [LongPolls.StoreEvent(FORKED[0]), LongPolls.StoreEvent(FORKED[1]), LongPolls.StoreEvent(DROP),
                     LongPolls.Begin(7, "q", ZERO_OFFSET, 2), LongPolls.Recheck(7, 0, 0, 20),
                     LongPolls.StoreEvent(REMAKE)]

  lemma PlaySnoc(evs: seq<LongPolls.Event>, ev: LongPolls.Event)
    ensures LongPolls.Play(evs + [ev]) == LongPolls.WorldStep(LongPolls.Play(evs), ev)
  {
    assert (evs + [ev])[..|evs|] == evs;
  }

  /** Operations without waiters are a run of the store. */
  lemma {:induction false} PlayStore(ops: seq<Op>, evs: seq<LongPolls.Event>)
    requires |evs| == |ops| && forall i :: 0 <= i < |ops| ==> evs[i] == LongPolls.StoreEvent(ops[i])
    ensures LongPolls.Play(evs) == LongPolls.World(Exec(ops).store, map[], {}, map[], map[])
  {
    hide Step;
    if ops != [] {
      var n := |ops| - 1;
      PlayStore(ops[..n], evs[..n]);
    }
  }

  /** The fork without its source shows nothing, so a recheck parks. */
  lemma NothingToRead(s: Store)
    requires IsStranded(s)
    ensures LongPolls.NothingYet(ReadPageReply(s, "q", ZERO_OFFSET, PageOptions(0, 0, None, true), 20),
                                 LongPolls.Waiter("q", ZERO_OFFSET, 2, LongPolls.Checking))
    ensures ReadStep(s, "q", None, true, 20) == s
  {
    MadeExpires(s.streams["q"], 20);
    hide IsExpiredAt;
    assert Content(s.streams, "p", 2) == [] && UpTo([], Offset(0, 1)) == [];
    assert Whole(s, "q") == [];
    assert Between([], ZERO_OFFSET, Offset(0, 1)) == [];
  }

  /** "p" is gone, and "q" still names it. */
  ghost predicate IsStranded(s: Store) {
    && s.nextIncarnation == 3 && s.streams.Keys == {"q"}
    && Made(s.streams["q"], "p", [], Offset(0, 1), 1000, 2)
  }

  lemma DropStrands(s: Store)
    requires IsForked(s)
    ensures IsStranded(Step(s, DROP).store)
  {
    MadeExpires(s.streams["p"], 20);
    hide IsExpiredAt;
  }

  /** Nothing has expired when the fork is made. */
  lemma ForkedSafely()
    ensures SafeRun(FORKED)
  {
    hide Exec, CreateStep, Holding, ForkOf, IsExpiredAt, ForksOf;
    var first := FORKED[0];
    NoRun();
    RunOfOne(first);
    HoldingMade(EMPTY_STORE, "p", 65, 10, 0);
    assert FORKED[..0] == [] && FORKED[..1] == [first];
    assert "q" !in Exec([first]).store.streams;
    assert Safe(Exec(FORKED[..0]).store, FORKED[0]) && Safe(Exec(FORKED[..1]).store, FORKED[1]);
  }

  /** A refused create on the expired source strands the fork, and leaves no count too low: it
      takes a second create, at the same path, for an underflow. */
  lemma RefusedCreateStrands()
    ensures var ops := FORKED + [DROP];
            !SafeRun(ops) && FreshRun(ops) && IsStranded(Exec(ops).store)
  {
    hide Exec, Step, Holding, ForkOf, IsExpiredAt, Safe, Fresh;
    var ops, s := FORKED + [DROP], Exec(FORKED).store;
    ForkedRun();
    DropStrands(s);
    RunSnoc(FORKED, DROP);
    DropIsUnsafe(s);
    assert ops[..2] == FORKED && !Safe(Exec(ops[..2]).store, ops[2]);
    ForkedSafely();
    FirstTwoAreValid();
    SafeRunIsFresh(FORKED);
    forall k | 0 <= k < |ops| ensures Fresh(Exec(ops[..k]).store, ops[k]) {
      if k < 2 {
        assert ops[..k] == FORKED[..k] && ops[k] == FORKED[k];
      }
    }
  }

  lemma FirstTwoAreValid()
    ensures ValidOps(FORKED)
  {
  }

  lemma DropIsUnsafe(s: Store)
    requires IsForked(s)
    ensures !Safe(s, DROP) && Fresh(s, DROP)
  {
    MadeExpires(s.streams["p"], 20);
    hide IsExpiredAt;
    assert "q" in ForksOf(s.streams, "p");
  }

  lemma RemakeIsSilent(s: Store)
    requires IsStranded(s)
    ensures var e := Step(s, REMAKE);
            && e.notified == {} && Whole(e.store, "q") == [BYTE_B] && "q" in e.store.streams
            && e.store.streams["q"] == s.streams["q"]
  {
    hide CreateStep, Holding, IsExpiredAt, Whole;
    HoldingMade(s, "p", 66, 1000, 20);
    CreateCases(s, "p", Holding(66, 1000), true, 20);
    ForkShowsByte(Step(s, REMAKE).store, BYTE_B);
  }

  /** The waiter parks, its message comes, and nobody wakes it. */
  lemma UnsafeCreateLosesWakeUp()
    ensures var w := LongPolls.Play(STRANDED);
            && 7 in w.procs && w.procs[7].phase == LongPolls.Parked && LongPolls.Ready(w.store, w.procs[7])
            && 7 !in w.tokens
  {
    hide Exec, Step, IsExpiredAt, Whole, ReadStep, ReadPageReply;
    ForkedRun();
    var s := Exec(FORKED).store;
    DropStrands(s);
    var ops := FORKED + [DROP];
    RunSnoc(FORKED, DROP);
    var s3 := Exec(ops).store;
    PlayStore(ops, STRANDED[..3]);
    NothingToRead(s3);
    RemakeIsSilent(s3);
    PlaySnoc(STRANDED[..3], STRANDED[3]);
    PlaySnoc(STRANDED[..4], STRANDED[4]);
    PlaySnoc(STRANDED[..5], STRANDED[5]);
    assert STRANDED[..3] + [STRANDED[3]] == STRANDED[..4] && STRANDED[..4] + [STRANDED[4]] == STRANDED[..5];
    assert STRANDED[..5] + [STRANDED[5]] == STRANDED;
    var w := LongPolls.Play(STRANDED);
    assert LongPolls.Ready(w.store, w.procs[7]);
  }

  // ---- a fork that expires ----

  /** "q", a fork of "p", expires at time 10 and is re-created as a plain stream. */
  const LEAKED := [Create("p", Holding(65, 1000), true, 0), Create("q", ForkOf("p", 10), true, 0),
                   Create("q", Holding(66, 1000), true, 20)]

  /** Re-creating an expired fork that has no forks of its own is safe, but leaves its source
      with a reference that no fork holds, so deleting the source only hides it. */
  lemma ExpiredForkLeaks()
    ensures var s := Exec(LEAKED).store;
            && SafeRun(LEAKED) && "p" in s.streams && ForksOf(s.streams, "p") == {} && Slack(s.streams, "p") == 1
            && var e := DeleteStep(s, "p");
               e.reply.None? && "p" in e.store.streams && e.store.streams["p"].meta.softDeleted
  {
    hide Exec, CreateStep, Holding, ForkOf, IsExpiredAt;
    var first, second, third := LEAKED[0], LEAKED[1], LEAKED[2];
    RunOfOne(first);
    RunSnoc([first], second);
    RunSnoc([first, second], third);
    assert [first] + [second] == [first, second] && [first, second] + [third] == LEAKED;
    var s1, s2, s := Exec([first]).store, Exec([first, second]).store, Exec(LEAKED).store;
    HoldingMade(EMPTY_STORE, "p", 65, 1000, 0);
    MadeExpires(s1.streams["p"], 0);
    ForkMade(s1, "q", "p", 10, 0);
    MadeExpires(s2.streams["q"], 20);
    HoldingMade(s2, "q", 66, 1000, 20);
    assert ForksOf(s2.streams, "q") == {} && ForksOf(s.streams, "p") == {};
    assert Exec([]).store.streams == map[] by { NoRun(); }
    assert LEAKED[..0] == [] && LEAKED[..1] == [first] && LEAKED[..2] == [first, second];
    assert Safe(Exec(LEAKED[..0]).store, first) && Safe(Exec(LEAKED[..1]).store, second);
    assert Safe(Exec(LEAKED[..2]).store, third);
  }

  lemma NoRun()
    ensures Exec([]).store == EMPTY_STORE
  {
  }
}
