/** Exactly which deletes report a reference-count underflow (store/memory_store.go:385-446). */
module ForkUnderflows {
  import opened Prelude
  import opened StoreModel
  import opened StoreOps
  import opened ForkLifecycle
  import opened ForkSlack

  /** The source `n` links up from `p`. */
  ghost function Ancestor(streams: Streams, p: string, n: nat): Option<string>
    decreases n
  {
    if n == 0 then Some(p)
    else if p in streams && streams[p].meta.forkedFrom != "" then Ancestor(streams, streams[p].meta.forkedFrom, n - 1)
    else None
  }

  lemma {:induction false} AncestorAgain(streams: Streams, p: string, j: nat, k: nat)
    ensures Ancestor(streams, p, j + k) ==
            match Ancestor(streams, p, j)
            case Some(q) => Ancestor(streams, q, k)
            case None => None
    decreases j
  {
    if j > 0 && p in streams && streams[p].meta.forkedFrom != "" {
      AncestorAgain(streams, streams[p].meta.forkedFrom, j - 1, k);
    }
  }

  /** The source `i` links up is there, soft-deleted, and held by one reference. */
  ghost predicate Held(streams: Streams, p: string, i: nat) {
    && Ancestor(streams, p, i).Some? && Ancestor(streams, p, i).value in streams
    && var m := streams[Ancestor(streams, p, i).value].meta; m.refCount == 1 && m.softDeleted
  }

  /** The source `n` links up is there, is not `p` itself, and counts no reference. */
  ghost predicate Empty(streams: Streams, p: string, n: nat) {
    && Ancestor(streams, p, n).Some? && Ancestor(streams, p, n).value in streams && Ancestor(streams, p, n).value != p
    && streams[Ancestor(streams, p, n).value].meta.refCount <= 0
  }

  /** Going up from `p` through sources that are each held by one reference leads to one that
      counts none. */
  ghost predicate RunsDry(streams: Streams, p: string, n: nat) {
    n > 0 && (forall i :: 0 < i < n ==> Held(streams, p, i)) && Empty(streams, p, n)
  }

  /** A step up: what lies above `p` is what lies above its source. */
  lemma OneUp(streams: Streams, p: string, n: nat)
    requires p in streams && streams[p].meta.forkedFrom != "" && n > 0
    ensures Ancestor(streams, p, n) == Ancestor(streams, streams[p].meta.forkedFrom, n - 1)
  {
  }

  /** Sources that are each held by one reference are all different, until one counts none. */
  lemma NoneTwice(streams: Streams, p: string, n: nat, i: nat)
    requires p in streams && streams[p].meta.refCount <= 0 && RunsDry(streams, p, n) && 1 < i <= n
    ensures Ancestor(streams, p, i) != Ancestor(streams, p, 1) && Ancestor(streams, p, i) != Some(p)
  {
    hide Ancestor;
    assert Held(streams, p, n - i + 1) && (i < n ==> Held(streams, p, i));
    AncestorAgain(streams, p, i, n - i);
    AncestorAgain(streams, p, 1, n - i);
  }

  /** The sources above `parent` once `path` is gone are what they were, as long as they are
      neither of the two. */
  lemma {:induction false} SameAbove(streams: Streams, path: string, q: string, n: nat)
    requires path in streams
    requires forall i :: 0 <= i < n ==> Ancestor(streams, q, i) != Some(path)
    ensures Ancestor(Released(streams, path), q, n) == Ancestor(streams, q, n)
    decreases n
  {
    if n > 0 {
      assert Ancestor(streams, q, 0) != Some(path);
      ReleasedKeys(streams, path);
      ReleasedLinks(streams, path, q);
      if q in streams && streams[q].meta.forkedFrom != "" {
        var r := streams[q].meta.forkedFrom;
        forall i | 0 <= i < n - 1 ensures Ancestor(streams, r, i) != Some(path) {
          assert Ancestor(streams, q, i + 1) == Ancestor(streams, r, i);
        }
        SameAbove(streams, path, r, n - 1);
      }
    }
  }

  lemma ReleasedLinks(streams: Streams, path: string, q: string)
    requires path in streams
    ensures q in Released(streams, path) ==>
              && q in streams && Released(streams, path)[q].meta.forkedFrom == streams[q].meta.forkedFrom
              && Released(streams, path)[q].meta.softDeleted == streams[q].meta.softDeleted
              && (q != streams[path].meta.forkedFrom ==>
                    Released(streams, path)[q].meta.refCount == streams[q].meta.refCount)
  {
  }

  lemma {:induction false} SameAboveAgain(streams: Streams, path: string, q: string, n: nat)
    requires path in streams
    requires forall i :: 0 <= i < n ==>
               var up := Ancestor(Released(streams, path), q, i); up.Some? && up.value in Released(streams, path)
    ensures Ancestor(streams, q, n) == Ancestor(Released(streams, path), q, n)
    decreases n
  {
    if n > 0 {
      var rest := Released(streams, path);
      assert Ancestor(rest, q, 0).value in rest;
      ReleasedLinks(streams, path, q);
      if rest[q].meta.forkedFrom != "" {
        var r := rest[q].meta.forkedFrom;
        forall i | 0 <= i < n - 1 ensures Ancestor(rest, r, i).Some? && Ancestor(rest, r, i).value in rest {
          assert Ancestor(rest, q, i + 1) == Ancestor(rest, r, i);
        }
        SameAboveAgain(streams, path, r, n - 1);
      }
    }
  }

  /** The source that the delete of `path` goes on to. */
  ghost predicate GoesOn(streams: Streams, path: string) {
    && path in streams && streams[path].meta.refCount <= 0
    && var parent := streams[path].meta.forkedFrom;
       && parent != "" && parent != path && parent in streams
       && streams[parent].meta.refCount == 1 && streams[parent].meta.softDeleted
  }

  lemma ReleasedParent(streams: Streams, path: string)
    requires GoesOn(streams, path)
    ensures var parent := streams[path].meta.forkedFrom;
            parent in Released(streams, path) && Released(streams, path)[parent].meta.refCount == 0
  {
  }

  lemma DryStays(streams: Streams, path: string, n: nat)
    requires GoesOn(streams, path) && n > 0 && RunsDry(streams, path, n + 1)
    ensures RunsDry(Released(streams, path), streams[path].meta.forkedFrom, n)
  {
    var parent, rest := streams[path].meta.forkedFrom, Released(streams, path);
    forall i | 0 <= i <= n
      ensures Ancestor(rest, parent, i) == Ancestor(streams, path, i + 1)
      ensures Ancestor(streams, path, i + 1) != Some(path)
      ensures i > 0 ==> Ancestor(streams, path, i + 1) != Some(parent)
    {
      AboveIsKept(streams, path, n, i);
    }
    hide Ancestor, Released;
    ReleasedKeys(streams, path);
    forall i | 0 < i < n ensures Held(rest, parent, i) {
      assert Held(streams, path, i + 1);
      ReleasedLinks(streams, path, Ancestor(streams, path, i + 1).value);
    }
    ReleasedLinks(streams, path, Ancestor(streams, path, n + 1).value);
  }

  lemma AboveIsKept(streams: Streams, path: string, n: nat, i: nat)
    requires GoesOn(streams, path) && n > 0 && RunsDry(streams, path, n + 1) && i <= n
    ensures var parent := streams[path].meta.forkedFrom;
            && Ancestor(Released(streams, path), parent, i) == Ancestor(streams, path, i + 1)
            && Ancestor(streams, path, i + 1) != Some(path)
            && (i > 0 ==> Ancestor(streams, path, i + 1) != Some(parent))
  {
    var parent := streams[path].meta.forkedFrom;
    OneUp(streams, path, 1);
    forall j | 0 <= j <= i
      ensures Ancestor(streams, path, j + 1) == Ancestor(streams, parent, j) != Some(path)
    {
      OneUp(streams, path, j + 1);
      if j > 0 {
        NoneTwice(streams, path, n + 1, j + 1);
      }
    }
    if i > 0 {
      NoneTwice(streams, path, n + 1, i + 1);
    }
    SameAbove(streams, path, parent, i);
  }

  lemma DryBefore(streams: Streams, path: string, n: nat)
    requires GoesOn(streams, path) && RunsDry(Released(streams, path), streams[path].meta.forkedFrom, n)
    ensures RunsDry(streams, path, n + 1)
  {
    var parent, rest := streams[path].meta.forkedFrom, Released(streams, path);
    ReleasedParent(streams, path);
    ReleasedKeys(streams, path);
    forall i | 0 <= i <= n
      ensures Ancestor(streams, path, i + 1) == Ancestor(rest, parent, i)
    {
      OneUp(streams, path, i + 1);
      forall j | 0 <= j < i ensures Ancestor(rest, parent, j).Some? && Ancestor(rest, parent, j).value in rest {
        assert j > 0 ==> Held(rest, parent, j);
      }
      SameAboveAgain(streams, path, parent, i);
    }
    assert Held(streams, path, 1);
    hide Ancestor, Released;
    forall i | 0 < i < n + 1 ensures Held(streams, path, i) {
      if i > 1 {
        assert Held(rest, parent, i - 1) && Ancestor(streams, path, i - 1 + 1) == Ancestor(rest, parent, i - 1);
        ReleasedLinks(streams, path, Ancestor(rest, parent, i - 1).value);
      }
    }
    ReleasedLinks(streams, path, Ancestor(rest, parent, n).value);
  }

  /** A delete that does not go on runs dry at once or not at all. */
  lemma DryAtOnce(streams: Streams, path: string, n: nat)
    requires path in streams && streams[path].meta.refCount <= 0 && !GoesOn(streams, path)
    ensures RunsDry(streams, path, n) <==> n == 1 && Empty(streams, path, 1)
  {
    NotHeld(streams, path);
  }

  lemma NotHeld(streams: Streams, path: string)
    requires path in streams && streams[path].meta.refCount <= 0 && !GoesOn(streams, path)
    ensures !Held(streams, path, 1)
  {
    assert streams[path].meta.forkedFrom != "" ==> Ancestor(streams, path, 1) == Some(streams[path].meta.forkedFrom);
  }

  /** Exactly when the cascade underflows. */
  lemma {:induction false} CascadeUnderflowsIff(streams: Streams, path: string)
    requires path in streams && streams[path].meta.refCount <= 0
    ensures DeleteWithCascade(streams, path).err in {None, Some(RefCountUnderflow)}
    ensures DeleteWithCascade(streams, path).err.Some? <==> exists n: nat :: RunsDry(streams, path, n)
    decreases |streams|
  {
    CascadeShape(streams, path);
    if GoesOn(streams, path) {
      hide DeleteWithCascade, Released, RunsDry, Cleared;
      var parent, rest := streams[path].meta.forkedFrom, Released(streams, path);
      ReleasedParent(streams, path);
      CascadeUnderflowsIff(rest, parent);
      if n: nat :| RunsDry(rest, parent, n) {
        DryBefore(streams, path, n);
      }
      if n: nat :| RunsDry(streams, path, n) {
        DryGoesOn(streams, path, n);
        DryStays(streams, path, n - 1);
      }
    } else {
      hide DeleteWithCascade, Released, RunsDry, Cleared;
      forall n: nat ensures RunsDry(streams, path, n) <==> n == 1 && Empty(streams, path, 1) {
        DryAtOnce(streams, path, n);
      }
      FirstUp(streams, path);
      assert Empty(streams, path, 1) ==> RunsDry(streams, path, 1);
    }
  }

  lemma FirstUp(streams: Streams, path: string)
    requires path in streams
    ensures Empty(streams, path, 1) <==>
            var parent := streams[path].meta.forkedFrom;
            parent != "" && parent in streams && parent != path && streams[parent].meta.refCount <= 0
  {
    assert streams[path].meta.forkedFrom != "" ==> Ancestor(streams, path, 1) == Some(streams[path].meta.forkedFrom);
  }

  lemma DryGoesOn(streams: Streams, path: string, n: nat)
    requires GoesOn(streams, path) && RunsDry(streams, path, n)
    ensures n > 1
  {
    FirstUp(streams, path);
  }

  /** The stream would be freed, and the references above it run dry. */
  ghost predicate Underflows(s: Store, path: string) {
    && path in s.streams && !s.streams[path].meta.softDeleted && s.streams[path].meta.refCount <= 0
    && exists n: nat :: RunsDry(s.streams, path, n)
  }

  /** Exactly when a delete reports an underflow. */
  lemma DeleteUnderflowsIff(s: Store, path: string)
    ensures DeleteStep(s, path).reply == Some(RefCountUnderflow) <==> Underflows(s, path)
  {
    hide DeleteWithCascade, RunsDry;
    if path in s.streams && s.streams[path].meta.refCount <= 0 {
      CascadeUnderflowsIff(s.streams, path);
    }
  }

  /** Some delete of a run reports an underflow if and only if some delete of it finds the
      references above its path run dry. */
  lemma RunUnderflowsIff(ops: seq<Op>)
    ensures (exists k :: 0 <= k < |ops| && ops[k].Delete?
                         && DeleteStep(Exec(ops[..k]).store, ops[k].path).reply == Some(RefCountUnderflow)) <==>
            (exists k :: 0 <= k < |ops| && ops[k].Delete? && Underflows(Exec(ops[..k]).store, ops[k].path))
  {
    hide DeleteStep, Underflows, Exec;
    forall k | 0 <= k < |ops| && ops[k].Delete?
      ensures DeleteStep(Exec(ops[..k]).store, ops[k].path).reply == Some(RefCountUnderflow) <==>
              Underflows(Exec(ops[..k]).store, ops[k].path)
    {
      DeleteUnderflowsIff(Exec(ops[..k]).store, ops[k].path);
    }
  }
}
