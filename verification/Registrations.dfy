/** Whose channels are registered and who is notified (store/memory_store.go:1001-1057, 1427-1462). */
module Registrations {
  import opened Prelude
  import opened Offsets
  import opened StoreOps
  import opened Paging
  import opened MemoryStores
  import opened LongPolls

  /** A notification reaches the channels registered under the notified paths, and no others. */
  lemma NotifiedExactly(waiters: map<string, seq<Channel>>, paths: set<string>, ch: Channel)
    ensures ch in ChannelsAt(waiters, paths) <==> exists p :: p in paths && p in waiters && ch in waiters[p]
  {
  }

  /** Unregistering takes out the first registration of the channel and keeps the rest in order. */
  lemma UnregistersFirst(chs: seq<Channel>, ch: Channel) returns (i: nat)
    requires ch in chs
    ensures i < |chs| && chs[i] == ch && ch !in chs[..i] && RemoveFirst(chs, ch) == chs[..i] + chs[i + 1..]
  {
    i := 0;
    while chs[i] != ch
      invariant i < |chs| && ch !in chs[..i]
      decreases |chs| - i
    {
      assert i + 1 < |chs| by {
        assert chs == chs[..i] + [chs[i]] + chs[i + 1..];
      }
      i := i + 1;
    }
    RemovesFirst(chs, ch, i);
  }

  ghost predicate Once(chs: seq<Channel>) {
    forall i, j :: 0 <= i < j < |chs| ==> chs[i] != chs[j]
  }

  ghost predicate WaitsOn(w: World, ch: Channel, path: string) {
    ch in w.procs && w.procs[ch].path == path
  }

  /** Exactly the channels of the waiters are registered, each once, under its own path; and only
      they can have a wake-up. */
  ghost predicate Registered(w: World) {
    && w.tokens <= w.procs.Keys
    && (forall path :: Once(RegisteredAt(w.waiters, path)))
    && (forall path, ch :: ch in RegisteredAt(w.waiters, path) <==> WaitsOn(w, ch, path))
  }

  /** One path has other channels now, those of its waiters. */
  lemma PathRewritten(w: World, w': World, path: string, chs: seq<Channel>)
    requires Registered(w) && w'.waiters == w.waiters[path := chs] && w'.tokens <= w'.procs.Keys
    requires Once(chs) && forall ch :: ch in chs <==> WaitsOn(w', ch, path)
    requires forall ch, q :: q != path ==> (WaitsOn(w, ch, q) <==> WaitsOn(w', ch, q))
    ensures Registered(w')
  {
    hide Once;
    forall q ensures RegisteredAt(w'.waiters, q) == if q == path then chs else RegisteredAt(w.waiters, q) {}
  }

  lemma {:induction false} RemovedOnce(chs: seq<Channel>, ch: Channel)
    requires Once(chs)
    ensures Once(RemoveFirst(chs, ch))
    ensures forall c :: c in RemoveFirst(chs, ch) <==> c in chs && c != ch
  {
    if chs != [] {
      assert chs == [chs[0]] + chs[1..] && chs[0] !in chs[1..];
      if chs[0] != ch {
        RemovedOnce(chs[1..], ch);
      }
    }
  }

  lemma DepartureRegisters(w: World, ch: Channel)
    requires Registered(w)
    ensures Registered(Departed(w, ch))
  {
    if ch in w.procs {
      var path := w.procs[ch].path;
      var chs := RegisteredAt(w.waiters, path);
      assert Once(chs);
      RemovedOnce(chs, ch);
      hide RemoveFirst, Once;
      PathRewritten(w, Departed(w, ch), path, RemoveFirst(chs, ch));
    }
  }

  lemma OneMoreOnce(chs: seq<Channel>, ch: Channel)
    requires Once(chs) && ch !in chs
    ensures Once(chs + [ch])
  {
  }

  lemma BeginRegisters(w: World, ch: Channel, path: string, offset: Offset, incarnation: nat)
    requires Registered(w)
    ensures Registered(WorldStep(w, Begin(ch, path, offset, incarnation)))
  {
    var w' := WorldStep(w, Begin(ch, path, offset, incarnation));
    if w' != w {
      var chs := RegisteredAt(w.waiters, path);
      assert Once(chs) && ch !in chs;
      OneMoreOnce(chs, ch);
      hide Once;
      PathRewritten(w, w', path, chs + [ch]);
    }
  }

  lemma NotifiedAreWaiters(w: World, paths: set<string>)
    requires Registered(w)
    ensures ChannelsAt(w.waiters, paths) <= w.procs.Keys
  {
    forall ch | ch in ChannelsAt(w.waiters, paths) ensures ch in w.procs {
      NotifiedExactly(w.waiters, paths, ch);
      var p :| p in paths && p in w.waiters && ch in w.waiters[p];
      assert ch in RegisteredAt(w.waiters, p);
    }
  }

  lemma EventRegisters(w: World, ev: Event)
    requires Registered(w)
    ensures Registered(WorldStep(w, ev))
  {
    hide Step, ReadStep, ReadPageReply, NothingYet, Departed, ChannelsAt, Once;
    match ev
    case StoreEvent(op) => NotifiedAreWaiters(w, Step(w.store, op).notified);
    case Begin(ch, path, offset, incarnation) => BeginRegisters(w, ch, path, offset, incarnation);
    case Recheck(ch, target, frames, now) =>
      if ch in w.procs && w.procs[ch].phase == Checking {
        DepartureRegisters(w.(store := ReadStep(w.store, w.procs[ch].path, None, true, now)), ch);
      }
    case Wake(ch) =>
    case Leave(ch) => DepartureRegisters(w, ch);
  }

  /** No registration is left behind.  In every interleaving a channel is registered exactly while
      its waiter has not returned, and a waiter that returned is never woken. */
  lemma {:induction false} NoneLeftBehind(evs: seq<Event>)
    ensures Registered(Play(evs))
  {
    if evs != [] {
      hide Registered, WorldStep;
      NoneLeftBehind(evs[..|evs| - 1]);
      EventRegisters(Play(evs[..|evs| - 1]), evs[|evs| - 1]);
    }
  }

  // ---- why a waiter is woken ----

  /** Event `k` notifies the path that the channel is registered under. */
  ghost predicate Notifies(evs: seq<Event>, k: nat, ch: Channel) {
    && k < |evs| && evs[k].StoreEvent? && ch in Play(evs[..k]).procs
    && Play(evs[..k]).procs[ch].path in Step(Play(evs[..k]).store, evs[k].op).notified
  }

  /** The event takes a wake-up out of the channel, and its waiter looks again. */
  ghost predicate Wakes(evs: seq<Event>, k: nat, ch: Channel) {
    k < |evs| && evs[k] == Wake(ch) && IsParked(Play(evs[..k]), ch) && ch in Play(evs[..k]).tokens
  }

  lemma TokenStep(w: World, ev: Event, ch: Channel)
    requires Registered(w) && ch !in w.tokens && ch in WorldStep(w, ev).tokens
    ensures ev.StoreEvent? && ch in w.procs && w.procs[ch].path in Step(w.store, ev.op).notified
  {
    hide Step, ReadStep, ReadPageReply, NothingYet, Once;
    if ev.StoreEvent? {
      NotifiedExactly(w.waiters, Step(w.store, ev.op).notified, ch);
      var p :| p in Step(w.store, ev.op).notified && p in w.waiters && ch in w.waiters[p];
      assert ch in RegisteredAt(w.waiters, p);
    }
  }

  /** A wake-up that was not there came by a notification. */
  lemma {:induction false} TokenAppears(evs: seq<Event>, i: nat, j: nat, ch: Channel) returns (k: nat)
    requires i <= j <= |evs| && ch !in Play(evs[..i]).tokens && ch in Play(evs[..j]).tokens
    ensures i <= k < j && Notifies(evs, k, ch)
    decreases j
  {
    var n := j - 1;
    assert evs[..j][..n] == evs[..n];
    if ch in Play(evs[..n]).tokens {
      k := TokenAppears(evs, i, n, ch);
    } else {
      NoneLeftBehind(evs[..n]);
      TokenStep(Play(evs[..n]), evs[n], ch);
      k := n;
    }
  }

  lemma WakeTakesToken(evs: seq<Event>, i: nat, ch: Channel)
    requires Wakes(evs, i, ch)
    ensures ch !in Play(evs[..i + 1]).tokens
  {
    hide Step;
    assert evs[..i + 1][..i] == evs[..i];
  }

  /** Each wake has its own notice.  In every interleaving, between two wakes of a channel an
      operation notified the path its waiter waits on. */
  lemma WakesHaveNotices(evs: seq<Event>, i: nat, j: nat, ch: Channel)
    requires i < j && Wakes(evs, i, ch) && Wakes(evs, j, ch)
    ensures exists k: nat :: i < k < j && Notifies(evs, k, ch)
  {
    hide Play, Notifies;
    WakeTakesToken(evs, i, ch);
    var k := TokenAppears(evs, i + 1, j, ch);
  }
}
