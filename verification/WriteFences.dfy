/** The write-fence rung of the append ladder (store/write_fence.go, auth/decision.go).
    A stream incarnation is a serial number; 0 stands for the empty incarnation. */
module WriteFences {
  import opened Prelude
  import opened Offsets

  datatype AppendFence = AppendFence(
    subscriptionId: string, subscriptionIncarnation: string, shard: int,
    generation: int, wakeId: string, holder: string, leaseUntilNs: int)
  {
    predicate Complete() {
      && subscriptionId != "" && subscriptionIncarnation != "" && shard >= 0
      && generation > 0 && wakeId != "" && holder != ""
    }
  }

  /** The identity that markers and seals are kept under.  The source prints it as
      base64url(identity) + ":" + shard, an injective spelling of this pair. */
  datatype Authority = Authority(identity: string, shard: int)

  const NUL := '\0'

  function FenceAuthority(f: AppendFence): Authority {
    Authority(f.subscriptionId + [NUL] + f.subscriptionIncarnation, f.shard)
  }

  /** Two claims share an authority only if they name the same subscription life and
      shard, as long as subscription ids hold no NUL. */
  lemma AuthorityIdentifiesSubscription(f: AppendFence, g: AppendFence)
    requires NUL !in f.subscriptionId && NUL !in g.subscriptionId
    ensures FenceAuthority(f) == FenceAuthority(g) <==>
            f.subscriptionId == g.subscriptionId
            && f.subscriptionIncarnation == g.subscriptionIncarnation && f.shard == g.shard
  {
    if FenceAuthority(f) == FenceAuthority(g) {
      var a, b := FenceAuthority(f).identity, FenceAuthority(g).identity;
      var m, n := |f.subscriptionId|, |g.subscriptionId|;
      assert a[m] == NUL && b[n] == NUL;
      assert m == n;
      assert f.subscriptionId == a[..m] && g.subscriptionId == b[..n];
      assert f.subscriptionIncarnation == a[m + 1..] && g.subscriptionIncarnation == b[n + 1..];
    }
  }

  datatype MarkerState = Live | Revoked

  datatype Marker = Marker(
    state: MarkerState, generation: int, wakeId: string, holder: string,
    leaseUntilNs: int, streamIncarnation: nat)

  datatype Seal = Seal(generation: int, wakeId: string, offset: Offset)

  datatype FenceInput = FenceInput(
    streamFenced: bool, streamIncarnation: nat, fence: Option<AppendFence>,
    marker: Option<Marker>, seal: Option<Seal>, nowNs: int,
    producerEpoch: Option<int>, boundGeneration: int)

  datatype FenceReason =
    | FenceNone | FenceSealed | FenceMarker | FenceProducerRequired | FenceEpoch | FenceBound

  datatype FenceOutcome = FenceOutcome(reason: FenceReason, generation: int, holder: string)

  const FENCE_PASS := FenceOutcome(FenceNone, 0, "")

  /** A marker under which a claim may write now. */
  ghost predicate Holds(m: Option<Marker>, f: AppendFence, incarnation: nat, nowNs: int) {
    m.Some? && nowNs < m.value.leaseUntilNs
    && m.value == Marker(Live, f.generation, f.wakeId, f.holder, m.value.leaseUntilNs, incarnation)
  }

  /** The contract says exactly which writes the rung lets through, on fenced and on
      plain streams, and what a refusal gives away: never a holder whose lease ran out. */
  function EvaluateWriteFence(input: FenceInput): (out: FenceOutcome)
    ensures out.reason == FenceNone <==>
            match input.fence
            case None => !(input.streamFenced && input.producerEpoch.Some? && input.boundGeneration > 0)
            case Some(f) =>
              && Holds(input.marker, f, input.streamIncarnation, input.nowNs)
              && (input.streamFenced ==>
                    && input.producerEpoch == Some(f.generation)
                    && (input.seal.None? || input.seal.value.generation < f.generation))
    ensures input.fence.None? ==> out.reason in {FenceNone, FenceBound} && out.generation == input.boundGeneration
    ensures input.fence.Some? ==>
              var f := input.fence.value;
              var sealed := input.streamFenced && input.seal.Some? && f.generation <= input.seal.value.generation;
              var holds := Holds(input.marker, f, input.streamIncarnation, input.nowNs);
              && (out.reason == FenceSealed <==> sealed)
              && (out.reason == FenceMarker <==> !sealed && !holds)
              && (out.reason == FenceProducerRequired <==>
                  !sealed && holds && input.streamFenced && input.producerEpoch.None?)
              && out.reason != FenceBound
    ensures input.fence.Some? ==>
              && (input.marker.Some? ==> out.generation == input.marker.value.generation)
              && (input.marker.None? && input.seal.Some? ==> out.generation == input.seal.value.generation)
              && (input.marker.None? && input.seal.None? ==> out.generation == 0)
    ensures out.holder ==
            if input.fence.Some? && input.marker.Some? && input.marker.value.state == Live
               && input.nowNs < input.marker.value.leaseUntilNs
            then input.marker.value.holder else ""
  {
    match input.fence
    case None =>
      FenceOutcome(
        if input.streamFenced && input.producerEpoch.Some? && input.boundGeneration > 0
        then FenceBound else FenceNone,
        input.boundGeneration, "")
    case Some(f) =>
      var generation :=
        if input.marker.Some? then input.marker.value.generation
        else if input.seal.Some? then input.seal.value.generation
        else 0;
      var leaseLive := input.marker.Some? && input.marker.value.leaseUntilNs > input.nowNs;
      var holder :=
        if leaseLive && input.marker.value.state == Live then input.marker.value.holder else "";
      FenceOutcome(FencedReason(input, f, leaseLive), generation, holder)
  }

  /** The fenced-class rules, first hit wins. */
  function FencedReason(input: FenceInput, f: AppendFence, leaseLive: bool): FenceReason {
    if input.streamFenced && input.seal.Some? && f.generation <= input.seal.value.generation then
      FenceSealed
    else if input.marker.None? || input.marker.value.state != Live
         || input.marker.value.generation != f.generation || input.marker.value.wakeId != f.wakeId
         || input.marker.value.holder != f.holder || !leaseLive
         || input.marker.value.streamIncarnation != input.streamIncarnation then
      FenceMarker
    else if input.streamFenced && input.producerEpoch.None? then
      FenceProducerRequired
    else if input.streamFenced && input.producerEpoch.value != f.generation then
      FenceEpoch
    else
      FenceNone
  }
}
