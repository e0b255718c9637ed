/** What the write-fence rung looks at in the store, and what it answers
    (store/memory_store.go:1306-1333, store/write_fence.go). */
module FenceRungs {
  import opened Prelude
  import opened WriteFences
  import opened StoreModel
  import opened StoreOps

  /** The claim holds the marker of its authority on this path: live, for exactly this claim
      and this stream incarnation, with a lease that has not run out. */
  ghost predicate Leased(s: Store, path: string, incarnation: nat, f: AppendFence, now: int) {
    var k := MarkerKey(path, FenceAuthority(f));
    && k in s.markers && s.markers[k].state == Live
    && s.markers[k].generation == f.generation && s.markers[k].wakeId == f.wakeId && s.markers[k].holder == f.holder
    && s.markers[k].streamIncarnation == incarnation && now < s.markers[k].leaseUntilNs
  }

  /** The stream has sealed the claim's generation. */
  ghost predicate SealedOff(st: Stream, f: AppendFence) {
    && st.meta.writeFence && FenceAuthority(f) in st.seals
    && f.generation <= st.seals[FenceAuthority(f)].generation
  }

  /** A producer that wrote under a claim before writes without one. */
  ghost predicate BoundProducer(st: Stream, id: string, epoch: Option<int>) {
    st.meta.writeFence && epoch.Some? && id in st.bound && st.bound[id] > 0
  }

  /** A write may pass the fence. */
  ghost predicate MayWrite(s: Store, path: string, st: Stream, fence: Option<AppendFence>, id: string,
                           epoch: Option<int>, now: int)
  {
    match fence
    case None => !BoundProducer(st, id, epoch)
    case Some(f) =>
      && !SealedOff(st, f) && Leased(s, path, st.meta.incarnation, f, now)
      && (st.meta.writeFence ==> epoch == Some(f.generation))
  }

  /** Each answer of the rung, in terms of the markers, the seals, the bindings and the clock. */
  lemma RungAnswers(s: Store, path: string, st: Stream, fence: Option<AppendFence>, id: string, epoch: Option<int>,
                    now: int)
    ensures var reason := FenceRung(s, path, st, fence, id, epoch, now).reason;
            && (reason == FenceNone <==> MayWrite(s, path, st, fence, id, epoch, now))
            && (reason == FenceBound <==> fence.None? && BoundProducer(st, id, epoch))
            && (fence.Some? ==>
                  var f := fence.value;
                  var leased := !SealedOff(st, f) && Leased(s, path, st.meta.incarnation, f, now);
                  && (reason == FenceSealed <==> SealedOff(st, f))
                  && (reason == FenceMarker <==> !SealedOff(st, f) && !Leased(s, path, st.meta.incarnation, f, now))
                  && (reason == FenceProducerRequired <==> leased && st.meta.writeFence && epoch.None?)
                  && (reason == FenceEpoch <==>
                      leased && st.meta.writeFence && epoch.Some? && epoch.value != f.generation))
  {
  }

  /** What a refusal tells: the generation that is in the way, and its holder only while the
      lease lasts. */
  lemma RungDiscloses(s: Store, path: string, st: Stream, f: AppendFence, id: string, epoch: Option<int>, now: int)
    ensures var out := FenceRung(s, path, st, Some(f), id, epoch, now);
            var a := FenceAuthority(f);
            var k := MarkerKey(path, a);
            && out.generation == (if k in s.markers then s.markers[k].generation
                                  else if a in st.seals then st.seals[a].generation else 0)
            && out.holder == (if k in s.markers && s.markers[k].state == Live && now < s.markers[k].leaseUntilNs
                              then s.markers[k].holder else "")
  {
  }
}
