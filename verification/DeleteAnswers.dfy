/** What a delete answers and which streams it frees (store/memory_store.go:385-446). */
module DeleteAnswers {
  import opened Prelude
  import opened StoreModel
  import opened StoreOps

  type Streams = map<string, Stream>

  /** The source of a stream, if it is still there. */
  ghost predicate HasSource(streams: Streams, p: string, source: string) {
    p in streams && streams[p].meta.forkedFrom == source != "" && source in streams
  }

  /** The stream was only waiting for its last fork to go. */
  ghost predicate WaitedForLast(streams: Streams, p: string) {
    p in streams && streams[p].meta.softDeleted && streams[p].meta.refCount == 1
  }

  /** Each of the streams but `path` was waiting for its last fork, and that is one of them. */
  ghost predicate Chained(streams: Streams, path: string, freed: set<string>) {
    forall r :: r in freed && r != path ==>
      WaitedForLast(streams, r) && exists fork :: fork in freed && HasSource(streams, fork, r)
  }

  /** A source that stays was not waiting, and gives up one reference. */
  ghost predicate GivesUpOne(streams: Streams, freed: set<string>, after: Streams) {
    forall r, source :: r in freed && source in after && HasSource(streams, r, source) ==>
      && !WaitedForLast(streams, source)
      && after[source] == WithReferences(streams[source], if streams[source].meta.refCount > 0
                                                          then streams[source].meta.refCount - 1 else 0)
  }

  ghost predicate OthersStay(streams: Streams, freed: set<string>, after: Streams)
    requires after.Keys <= streams.Keys
  {
    forall q :: q in after && (forall r :: r in freed ==> !HasSource(streams, r, q)) ==> after[q] == streams[q]
  }

  /** What deleting `path` frees: the stream itself and, link by link, each source that was waiting
      for its last fork.  The first source that was not gives up one reference; no other stream
      changes. */
  ghost predicate Frees(streams: Streams, path: string, after: Streams) {
    var freed := streams.Keys - after.Keys;
    && path in freed && after.Keys <= streams.Keys
    && Chained(streams, path, freed) && GivesUpOne(streams, freed, after) && OthersStay(streams, freed, after)
  }

  function WithReferences(st: Stream, n: int): Stream {
    st.(meta := st.meta.(refCount := n))
  }

  /** The delete underflows: a source that gives up a reference counted none. */
  ghost predicate Underflows(streams: Streams, after: Streams) {
    exists r, source ::
      r in streams.Keys - after.Keys && source in after && HasSource(streams, r, source)
      && streams[source].meta.refCount <= 0
  }

  lemma {:induction false} CascadeFrees(streams: Streams, path: string)
    requires path in streams
    ensures var c := DeleteWithCascade(streams, path);
            && Frees(streams, path, c.streams) && c.notified == streams.Keys - c.streams.Keys
            && (c.err == Some(RefCountUnderflow) <==> Underflows(streams, c.streams))
            && (c.err.None? || c.err == Some(RefCountUnderflow))
    decreases |streams|
  {
    var parent, rest := streams[path].meta.forkedFrom, streams - {path};
    var c := DeleteWithCascade(streams, path);
    if parent != "" && parent in rest && rest[parent].meta.refCount == 1 && rest[parent].meta.softDeleted {
      var released := Retain(rest, parent, -1);
      assert released.Keys == rest.Keys && rest.Keys == streams.Keys - {path};
      assert |released.Keys| == |streams.Keys| - 1;
      CascadeFrees(released, parent);
      FreedOnTheWay(streams, path);
      hide DeleteWithCascade, Frees, Underflows;
      CascadeGoesOn(streams, path, c.streams);
    } else {
      hide DeleteWithCascade, Frees, Underflows;
      CascadeStops(streams, path);
    }
  }

  lemma FreedOnTheWay(streams: Streams, path: string)
    requires path in streams && streams[path].meta.forkedFrom in streams - {path}
    requires streams[path].meta.forkedFrom != "" && WaitedForLast(streams, streams[path].meta.forkedFrom)
    ensures var released := Retain(streams - {path}, streams[path].meta.forkedFrom, -1);
            var c, up := DeleteWithCascade(streams, path), DeleteWithCascade(released, streams[path].meta.forkedFrom);
            && c.streams == up.streams && c.err == up.err && c.notified == up.notified + {path}
            && (up.streams.Keys <= released.Keys && up.notified == released.Keys - up.streams.Keys ==>
                  c.notified == streams.Keys - c.streams.Keys)
  {
    assert Retain(streams - {path}, streams[path].meta.forkedFrom, -1).Keys == streams.Keys - {path};
  }

  /** A delete that goes no further. */
  lemma CascadeStops(streams: Streams, path: string)
    requires path in streams
    requires var parent := streams[path].meta.forkedFrom;
             parent == "" || parent == path || !WaitedForLast(streams, parent)
    ensures var c := DeleteWithCascade(streams, path);
            && Frees(streams, path, c.streams) && c.notified == streams.Keys - c.streams.Keys
            && (c.err == Some(RefCountUnderflow) <==> Underflows(streams, c.streams))
            && (c.err.None? || c.err == Some(RefCountUnderflow))
  {
    var parent := streams[path].meta.forkedFrom;
    if parent == "" || parent == path || parent !in streams {
      assert DeleteWithCascade(streams, path) == Cascade(streams - {path}, {path}, None);
      hide DeleteWithCascade, Frees, Underflows;
      FreesAlone(streams, path);
    } else {
      StopsAtSource(streams, path);
      hide DeleteWithCascade, Frees, Underflows;
      FreesOne(streams, path);
    }
  }

  lemma StopsAtSource(streams: Streams, path: string)
    requires path in streams && streams[path].meta.forkedFrom in streams - {path}
    requires streams[path].meta.forkedFrom != "" && !WaitedForLast(streams, streams[path].meta.forkedFrom)
    ensures var parent := streams[path].meta.forkedFrom;
            var n := streams[parent].meta.refCount;
            DeleteWithCascade(streams, path) ==
            Cascade((streams - {path})[parent := WithReferences(streams[parent], if n > 0 then n - 1 else 0)], {path},
                    if n > 0 then None else Some(RefCountUnderflow))
  {
  }

  lemma FreesAlone(streams: Streams, path: string)
    requires path in streams
    requires var parent := streams[path].meta.forkedFrom; parent == "" || parent == path || parent !in streams
    ensures Frees(streams, path, streams - {path}) && !Underflows(streams, streams - {path})
    ensures streams.Keys - (streams - {path}).Keys == {path}
  {
    var after := streams - {path};
    assert streams.Keys - after.Keys == {path};
    assert forall q :: q in after ==> !HasSource(streams, path, q);
    hide HasSource;
  }

  lemma FreesOne(streams: Streams, path: string)
    requires path in streams && streams[path].meta.forkedFrom in streams - {path}
    requires streams[path].meta.forkedFrom != "" && !WaitedForLast(streams, streams[path].meta.forkedFrom)
    ensures var parent := streams[path].meta.forkedFrom;
            var n := streams[parent].meta.refCount;
            var after := (streams - {path})[parent := WithReferences(streams[parent], if n > 0 then n - 1 else 0)];
            && Frees(streams, path, after) && (Underflows(streams, after) <==> n <= 0)
            && streams.Keys - after.Keys == {path}
  {
    var parent := streams[path].meta.forkedFrom;
    var n := streams[parent].meta.refCount;
    var after := (streams - {path})[parent := WithReferences(streams[parent], if n > 0 then n - 1 else 0)];
    assert after.Keys == streams.Keys - {path} && streams.Keys - after.Keys == {path};
    assert HasSource(streams, path, parent) && forall q :: HasSource(streams, path, q) ==> q == parent;
    hide HasSource, WaitedForLast;
  }

  /** What was said of the rest of the streams holds of all of them. */
  lemma CascadeGoesOn(streams: Streams, path: string, after: Streams)
    requires path in streams && WaitedForLast(streams, streams[path].meta.forkedFrom)
    requires streams[path].meta.forkedFrom !in {"", path}
    requires Frees(Retain(streams - {path}, streams[path].meta.forkedFrom, -1), streams[path].meta.forkedFrom, after)
    ensures Frees(streams, path, after)
    ensures Underflows(streams, after) <==>
            Underflows(Retain(streams - {path}, streams[path].meta.forkedFrom, -1), after)
  {
    var parent := streams[path].meta.forkedFrom;
    var released := Retain(streams - {path}, parent, -1);
    var before, freed := released.Keys - after.Keys, streams.Keys - after.Keys;
    assert freed == before + {path} && parent !in after;
    SameLinks(streams, path, released);
    assert HasSource(streams, path, parent);
    hide HasSource, Retain, WaitedForLast;
    LongerChain(streams, path, released, before, freed);
    hide Chained;
    LongerRest(streams, path, released, after);
  }

  lemma LongerRest(streams: Streams, path: string, released: Streams, after: Streams)
    requires path in streams && after.Keys <= released.Keys && streams[path].meta.forkedFrom !in after
    requires released.Keys == streams.Keys - {path}
    requires var freed := released.Keys - after.Keys;
             GivesUpOne(released, freed, after) && OthersStay(released, freed, after)
    requires forall r, q :: r != path && q != path ==> (HasSource(released, r, q) <==> HasSource(streams, r, q))
    requires forall q :: HasSource(streams, path, q) ==> q == streams[path].meta.forkedFrom
    requires forall q :: q in released && q != streams[path].meta.forkedFrom ==>
               released[q] == streams[q] && (WaitedForLast(released, q) <==> WaitedForLast(streams, q))
    ensures var freed := streams.Keys - after.Keys;
            GivesUpOne(streams, freed, after) && OthersStay(streams, freed, after)
    ensures Underflows(streams, after) <==> Underflows(released, after)
  {
    hide HasSource, WaitedForLast;
    var parent, before, freed := streams[path].meta.forkedFrom, released.Keys - after.Keys, streams.Keys - after.Keys;
    assert freed == before + {path};
    forall r, source | r in freed && source in after && HasSource(streams, r, source)
      ensures r in before && HasSource(released, r, source) && released[source] == streams[source]
      ensures WaitedForLast(released, source) <==> WaitedForLast(streams, source)
    {
      assert source != parent && source != path && source in released;
    }
    forall r, source | r in before && source in after && HasSource(released, r, source)
      ensures r in freed && HasSource(streams, r, source) && released[source] == streams[source]
    {
      assert source != parent && source != path && source in released;
    }
    SameReleases(streams, released, freed, before, after);
    forall q | q in after && (forall r :: r in freed ==> !HasSource(streams, r, q)) ensures after[q] == streams[q] {
      assert q in released && q != parent;
      assert forall r :: r in before ==> !HasSource(released, r, q);
    }
  }

  /** Who gives up a reference, and whether it underflows, depends only on these links. */
  lemma SameReleases(streams: Streams, released: Streams, freed: set<string>, before: set<string>, after: Streams)
    requires freed == streams.Keys - after.Keys && before == released.Keys - after.Keys
    requires after.Keys <= streams.Keys && after.Keys <= released.Keys
    requires forall r, source :: r in freed && source in after && HasSource(streams, r, source) ==>
               && r in before && HasSource(released, r, source) && released[source] == streams[source]
               && (WaitedForLast(released, source) <==> WaitedForLast(streams, source))
    requires forall r, source :: r in before && source in after && HasSource(released, r, source) ==>
               r in freed && HasSource(streams, r, source) && released[source] == streams[source]
    requires GivesUpOne(released, before, after)
    ensures GivesUpOne(streams, freed, after)
    ensures Underflows(streams, after) <==> Underflows(released, after)
  {
    hide HasSource, WaitedForLast;
    if Underflows(streams, after) {
      var r, source :| r in freed && source in after && HasSource(streams, r, source)
        && streams[source].meta.refCount <= 0;
      assert r in before && HasSource(released, r, source);
    }
    if Underflows(released, after) {
      var r, source :| r in before && source in after && HasSource(released, r, source)
        && released[source].meta.refCount <= 0;
      assert r in freed && HasSource(streams, r, source);
    }
  }

  /** The rest of the streams is linked as it was; only the source of `path` has another count. */
  lemma SameLinks(streams: Streams, path: string, released: Streams)
    requires path in streams && streams[path].meta.forkedFrom in streams && streams[path].meta.forkedFrom != path
    requires released == Retain(streams - {path}, streams[path].meta.forkedFrom, -1)
    ensures released.Keys == streams.Keys - {path}
    ensures forall r, q :: r != path && q != path ==> (HasSource(released, r, q) <==> HasSource(streams, r, q))
    ensures forall q :: HasSource(streams, path, q) ==> q == streams[path].meta.forkedFrom
    ensures forall q :: q in released && q != streams[path].meta.forkedFrom ==>
              released[q] == streams[q] && (WaitedForLast(released, q) <==> WaitedForLast(streams, q))
  {
  }

  lemma LongerChain(streams: Streams, path: string, released: Streams, before: set<string>, freed: set<string>)
    requires path in streams && freed == before + {path} && path !in before && path !in released
    requires var parent := streams[path].meta.forkedFrom;
             && WaitedForLast(streams, parent) && HasSource(streams, path, parent)
             && Chained(released, parent, before) && parent != path
    requires forall r, q :: r != path && q != path ==> (HasSource(released, r, q) <==> HasSource(streams, r, q))
    requires forall q :: q in released && q != streams[path].meta.forkedFrom ==>
               (WaitedForLast(released, q) <==> WaitedForLast(streams, q))
    requires before <= released.Keys
    ensures Chained(streams, path, freed)
  {
    hide HasSource, WaitedForLast;
    var parent := streams[path].meta.forkedFrom;
    forall r | r in freed && r != path
      ensures WaitedForLast(streams, r) && exists fork :: fork in freed && HasSource(streams, fork, r)
    {
      if r != parent {
        var fork :| fork in before && HasSource(released, fork, r);
        assert HasSource(streams, fork, r);
      }
    }
  }

  /** What a delete answers: it frees nothing while forks still hold the stream, which is then only
      hidden. */
  lemma DeleteAnswersWhat(s: Store, path: string)
    ensures var e := DeleteStep(s, path);
            && e.writes == [] && e.store == s.(streams := e.store.streams)
            && (e.reply == Some(StreamNotFound) <==> path !in s.streams)
            && (e.reply == Some(StreamSoftDeleted) <==> path in s.streams && s.streams[path].meta.softDeleted)
            && (path !in s.streams || s.streams[path].meta.softDeleted ==> e.store == s && e.notified == {})
            && (path in s.streams && !s.streams[path].meta.softDeleted && s.streams[path].meta.refCount > 0 ==>
                  && e.reply.None? && e.notified == {}
                  && e.store.streams ==
                     s.streams[path := s.streams[path].(meta := s.streams[path].meta.(softDeleted := true))])
            && (path in s.streams && !s.streams[path].meta.softDeleted && s.streams[path].meta.refCount <= 0 ==>
                  && Frees(s.streams, path, e.store.streams)
                  && e.notified == s.streams.Keys - e.store.streams.Keys
                  && (e.reply == Some(RefCountUnderflow) <==> Underflows(s.streams, e.store.streams))
                  && (e.reply.None? || e.reply == Some(RefCountUnderflow)))
  {
    if path in s.streams {
      CascadeFrees(s.streams, path);
    }
    hide DeleteWithCascade, Frees, Underflows;
  }
}
