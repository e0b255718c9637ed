/** Grants, leases, revocations and seals: what each call answers and does, and what holds of
    leases and revoked claims over whole runs (store/memory_store.go:1223-1424). */
module Leases {
  import opened Prelude
  import opened Offsets
  import opened WriteFences
  import opened StoreModel
  import opened StoreOps
  import opened StoreInvariants
  import opened FenceRungs
  import opened SealFinality

  /** The claim is behind the marker of its authority: an older generation, or another claim
      of the same one. */
  ghost predicate Behind(s: Store, path: string, f: AppendFence) {
    var k := MarkerKey(path, FenceAuthority(f));
    && k in s.markers
    && (|| f.generation < s.markers[k].generation
        || (f.generation == s.markers[k].generation
            && !(f.wakeId == s.markers[k].wakeId && f.holder == s.markers[k].holder)))
  }

  /** The stream closed the claim's generation. */
  ghost predicate Closed(st: Stream, f: AppendFence) {
    FenceAuthority(f) in st.seals && f.generation <= st.seals[FenceAuthority(f)].generation
  }

  ghost predicate RevokedAt(s: Store, path: string, f: AppendFence) {
    var k := MarkerKey(path, FenceAuthority(f));
    k in s.markers && s.markers[k].generation == f.generation && s.markers[k].state == Revoked
  }

  /** A stream with one more seal: it ends at the last fenced offset, or at the tail if there is
      none, and the stream's HEAD summary shows it. */
  ghost predicate GainsSeal(st: Stream, st': Stream, a: Authority, generation: int, wakeId: string) {
    var off := if st.lastFencedOff.Some? then st.lastFencedOff.value else st.meta.currentOffset;
    && st'.seals == st.seals[a := Seal(generation, wakeId, off)]
    && st'.meta == st.meta.(sealedGeneration := generation, sealedOffset := Some(off))
    && st'.messages == st.messages && st'.bound == st.bound && st'.lastFencedOff == st.lastFencedOff
  }

  /** What a grant answers, and what it leaves: the claim's own marker, with the longer of the
      two leases if it renews one, and on a write-fenced stream a seal on the generation it
      takes over from. */
  lemma GrantAnswers(s: Store, path: string, f: AppendFence, now: int)
    requires path in s.streams ==> s.streams[path].meta.incarnation > 0
    ensures var e := GrantStep(s, path, f, now);
            var a := FenceAuthority(f);
            var k := MarkerKey(path, a);
            && (e.reply == Err(AppendFenced) <==>
                || !f.Complete() || f.leaseUntilNs <= now
                || (path in s.streams && (Closed(s.streams[path], f) || Behind(s, path, f) || RevokedAt(s, path, f))))
            && (e.reply == Ok(false) <==> f.Complete() && now < f.leaseUntilNs && path !in s.streams)
            && (e.reply in {Err(AppendFenced), Ok(false), Ok(true)})
            && (e.reply != Ok(true) ==> e.store == s)
            && (e.reply == Ok(true) ==>
                  var st, renews := s.streams[path], k in s.markers && s.markers[k].generation == f.generation;
                  var lease := if renews && f.leaseUntilNs < s.markers[k].leaseUntilNs
                               then s.markers[k].leaseUntilNs else f.leaseUntilNs;
                  && e.store.markers ==
                     s.markers[k := Marker(Live, f.generation, f.wakeId, f.holder, lease, st.meta.incarnation)]
                  && e.store.nextIncarnation == s.nextIncarnation
                  && path in e.store.streams && e.store.streams == s.streams[path := e.store.streams[path]]
                  && (if k in s.markers && !renews && st.meta.writeFence
                         && (a in st.seals ==> st.seals[a].generation < s.markers[k].generation)
                      then GainsSeal(st, e.store.streams[path], a, s.markers[k].generation, s.markers[k].wakeId)
                      else e.store.streams[path] == st))
  {
  }

  /** What revoking a claim answers and leaves: a tombstone, unless the claim is behind. */
  lemma RevokeAnswers(s: Store, path: string, f: AppendFence)
    ensures var e := RevokeStep(s, path, f);
            var k := MarkerKey(path, FenceAuthority(f));
            && e.reply == (if f.Complete() then None else Some(AppendFenced))
            && (!f.Complete() || Behind(s, path, f) ==> e.store == s)
            && (f.Complete() && !Behind(s, path, f) ==>
                  e.store == s.(markers := s.markers[k :=
                    Marker(Revoked, f.generation, f.wakeId, f.holder, 0,
                           if k in s.markers then s.markers[k].streamIncarnation else 0)]))
  {
  }

  /** What sealing a claim answers and leaves.  Whatever it answers, a claim that is not behind
      is revoked by it. */
  lemma SealAnswers(s: Store, path: string, f: AppendFence)
    requires f.Complete()
    ensures var e := SealStep(s, path, f);
            var a := FenceAuthority(f);
            && e.reply.Ok?
            && (e.reply.value.outcome == SealStale <==> Behind(s, path, f))
            && (e.reply.value.outcome == SealNotFound <==> !Behind(s, path, f) && path !in s.streams)
            && (e.reply.value.outcome == SealUnfenced <==>
                !Behind(s, path, f) && path in s.streams && !s.streams[path].meta.writeFence)
            && (e.reply.value.outcome == SealAlready <==>
                !Behind(s, path, f) && path in s.streams && SealedOff(s.streams[path], f))
            && (e.reply.value.outcome in {SealStale, SealNotFound, SealUnfenced} ==>
                  e.reply.value.generation == 0 && e.reply.value.finalOffset == ZERO_OFFSET)
            && (e.reply.value.outcome == SealAlready ==>
                  && e.reply.value.generation == s.streams[path].seals[a].generation
                  && e.reply.value.finalOffset == s.streams[path].seals[a].offset)
            && e.store.markers == RevokeStep(s, path, f).store.markers
            && e.store.nextIncarnation == s.nextIncarnation
            && (e.reply.value.outcome != SealSealed ==> e.store.streams == s.streams)
            && (e.reply.value.outcome == SealSealed ==>
                  && path in e.store.streams && e.store.streams == s.streams[path := e.store.streams[path]]
                  && GainsSeal(s.streams[path], e.store.streams[path], a, f.generation, f.wakeId)
                  && e.reply.value.generation == f.generation
                  && e.reply.value.finalOffset == e.store.streams[path].seals[a].offset)
  {
  }

  // ---- leases over runs ----

  /** The operation grants this live marker its lease. */
  ghost predicate Grants(op: Op, k: MarkerKey, m: Marker) {
    && op.Grant? && MarkerKey(op.path, FenceAuthority(op.claim)) == k
    && op.claim.generation == m.generation && op.claim.wakeId == m.wakeId && op.claim.holder == m.holder
    && op.claim.leaseUntilNs == m.leaseUntilNs && op.now < op.claim.leaseUntilNs
  }

  /** Point `i` of the run granted the marker its lease. */
  ghost predicate GrantedAt(ops: seq<Op>, i: nat, k: MarkerKey, m: Marker) {
    && i < |ops| && Grants(ops[i], k, m)
    && GrantStep(Exec(ops[..i]).store, ops[i].path, ops[i].claim, ops[i].now).reply == Ok(true)
  }

  ghost predicate SameLease(m: Marker, m': Marker) {
    && m.state == m'.state && m.generation == m'.generation && m.wakeId == m'.wakeId && m.holder == m'.holder
    && m.leaseUntilNs == m'.leaseUntilNs
  }

  /** A live marker had its lease before the step, or the step is the grant of it. */
  lemma LeaseStep(s: Store, op: Op, k: MarkerKey)
    requires k in Step(s, op).store.markers && Step(s, op).store.markers[k].state == Live
    ensures var m := Step(s, op).store.markers[k];
            || (k in s.markers && SameLease(s.markers[k], m))
            || (Grants(op, k, m) && GrantStep(s, op.path, op.claim, op.now).reply == Ok(true))
  {
    if op.Create? || op.Delete? || op.Append? || op.Close? || op.CloseProducer? || op.Read? {
      hide Step, GrantStep;
      MarkersStay(s, op);
    } else {
      hide Sealed, FenceAuthority;
    }
  }

  /** Every live marker of every run has the lease of an accepted grant of its own claim. */
  lemma {:induction false} MarkersWereGranted(ops: seq<Op>, k: MarkerKey)
    requires k in Exec(ops).store.markers && Exec(ops).store.markers[k].state == Live
    ensures exists i: nat :: GrantedAt(ops, i, k, Exec(ops).store.markers[k])
  {
    if ops != [] {
      var n := |ops| - 1;
      var s, m := Exec(ops[..n]).store, Exec(ops).store.markers[k];
      LeaseStep(s, ops[n], k);
      hide Step, GrantStep, Grants;
      if k in s.markers && SameLease(s.markers[k], m) {
        MarkersWereGranted(ops[..n], k);
        var i: nat :| GrantedAt(ops[..n], i, k, s.markers[k]);
        SameGrant(ops, i, k, s.markers[k], m);
      } else {
        assert GrantedAt(ops, n, k, m);
      }
    }
  }

  lemma SameGrant(ops: seq<Op>, i: nat, k: MarkerKey, m: Marker, m': Marker)
    requires ops != [] && GrantedAt(ops[..|ops| - 1], i, k, m) && SameLease(m, m')
    ensures GrantedAt(ops, i, k, m')
  {
    hide Exec, GrantStep;
    assert ops[..|ops| - 1][..i] == ops[..i];
  }

  /** No write under a lease that ran out.  Whatever the run, each write accepted under a claim
      had an earlier accepted grant of that very claim (path, subscription, shard, generation,
      wake id and holder) whose lease reached past the clock of the write. */
  lemma WritesWereLeased(ops: seq<Op>, n: nat, w: Write)
    requires n < |ops| && w in Step(Exec(ops[..n]).store, ops[n]).writes && w.fence.Some?
    ensures (ops[n].Append? || ops[n].Close? || ops[n].CloseProducer?) && ops[n].path == w.path
    ensures exists i: nat ::
              && i < n && ops[i].Grant? && ops[i].path == w.path
              && FenceAuthority(ops[i].claim) == FenceAuthority(w.fence.value)
              && ops[i].claim.generation == w.fence.value.generation
              && ops[i].claim.wakeId == w.fence.value.wakeId && ops[i].claim.holder == w.fence.value.holder
              && ops[n].now < ops[i].claim.leaseUntilNs
              && GrantStep(Exec(ops[..i]).store, w.path, ops[i].claim, ops[i].now).reply == Ok(true)
  {
    var s := Exec(ops[..n]).store;
    WritesPassedRung(s, ops[n]);
    hide Step, GrantStep, Exec, FenceAuthority;
    assert PassedRung(s, ops[n], w);
    var k := MarkerKey(w.path, FenceAuthority(w.fence.value));
    MarkersWereGranted(ops[..n], k);
    var i: nat :| GrantedAt(ops[..n], i, k, s.markers[k]);
    assert ops[..n][..i] == ops[..i] && ops[..n][i] == ops[i];
  }

  // ---- revoked claims over runs ----

  /** No claim of this authority at or below `g` can pass the rung on this path. */
  ghost predicate Dead(s: Store, path: string, a: Authority, g: int) {
    var k := MarkerKey(path, a);
    && k in s.markers
    && (g < s.markers[k].generation || (g == s.markers[k].generation && s.markers[k].state == Revoked))
  }

  /** Revoking a claim, or sealing it, kills its generation unless the claim is behind. */
  lemma RevokeKills(s: Store, op: Op, path: string, f: AppendFence)
    requires f.Complete() && !Behind(s, path, f) && (op == Revoke(path, f) || op == SealClaim(path, f))
    ensures Dead(Step(s, op).store, path, FenceAuthority(f), f.generation)
  {
    RevokeAnswers(s, path, f);
    SealAnswers(s, path, f);
    hide RevokeStep, SealStep, FenceAuthority;
  }

  /** What dead means to a writer. */
  lemma DeadIsRefused(s: Store, path: string, st: Stream, a: Authority, g: int, f: AppendFence, id: string,
                      epoch: Option<int>, now: int)
    requires Dead(s, path, a, g) && FenceAuthority(f) == a && f.generation <= g
    ensures !Leased(s, path, st.meta.incarnation, f, now)
    ensures FenceRung(s, path, st, Some(f), id, epoch, now).reason in {FenceSealed, FenceMarker}
  {
    RungAnswers(s, path, st, Some(f), id, epoch, now);
    hide FenceRung, FenceAuthority;
  }

  lemma DeadStays(s: Store, op: Op, path: string, a: Authority, g: int)
    requires Dead(s, path, a, g) && op != Reap(path, a)
    ensures Dead(Step(s, op).store, path, a, g)
  {
    if op.Create? || op.Delete? || op.Append? || op.Close? || op.CloseProducer? || op.Read? {
      hide Step;
      MarkersStay(s, op);
    } else {
      hide Sealed, FenceAuthority;
    }
  }

  lemma {:induction false} RevokedIsDead(ops: seq<Op>, n: nat, path: string, f: AppendFence, m: nat)
    requires n < m <= |ops| && (ops[n] == Revoke(path, f) || ops[n] == SealClaim(path, f))
    requires f.Complete() && !Behind(Exec(ops[..n]).store, path, f)
    requires Reap(path, FenceAuthority(f)) !in ops[n..m]
    ensures Dead(Exec(ops[..m]).store, path, FenceAuthority(f), f.generation)
    decreases m
  {
    hide Step, FenceAuthority, Behind, Dead;
    var s := Exec(ops[..m - 1]).store;
    assert ops[..m][..m - 1] == ops[..m - 1];
    if m == n + 1 {
      RevokeKills(s, ops[n], path, f);
    } else {
      assert ops[n..m][m - 1 - n] == ops[m - 1] && ops[n..m - 1] == ops[n..m][..m - 1 - n];
      RevokedIsDead(ops, n, path, f, m - 1);
      DeadStays(s, ops[m - 1], path, FenceAuthority(f), f.generation);
    }
  }

  /** A revoked claim stays dead.  Until its marker is reaped, no step of any run accepts a write
      of that authority to that path at or below the revoked generation, even on a stream that
      was deleted and created again. */
  lemma RevokedStaysDead(ops: seq<Op>, n: nat, path: string, f: AppendFence, m: nat, w: Write)
    requires n < m < |ops| && (ops[n] == Revoke(path, f) || ops[n] == SealClaim(path, f))
    requires f.Complete() && !Behind(Exec(ops[..n]).store, path, f)
    requires Reap(path, FenceAuthority(f)) !in ops[n..m]
    requires w in Step(Exec(ops[..m]).store, ops[m]).writes && w.path == path && w.fence.Some?
    requires FenceAuthority(w.fence.value) == FenceAuthority(f)
    ensures f.generation < w.fence.value.generation
  {
    hide Step, Exec, FenceAuthority, Behind;
    RevokedIsDead(ops, n, path, f, m);
    WritesPassedRung(Exec(ops[..m]).store, ops[m]);
  }
}
