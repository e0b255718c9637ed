# Chronicle in Dafny

Chronicle is a Durable Streams server: append-only byte or JSON streams with idempotent
producers, forks, write fences (claims with generations, seals and revocations), paged and
long-poll reads, server-sent events, and webhook subscriptions. This project models its
core logic and proves what that logic is for.

## How the model is laid out

- **The in-memory store** is described twice. `StoreOps` gives every operation as a step
  function on a value `Store`, together with the accepted writes it logs and the paths it
  notifies; a run is `Exec(ops)`, the store and the log after any list of operations with any
  clock readings. `MemoryStores` is the imperative store: a class whose maps are updated in
  place, with the loops and the recursion of the Go code, each method proved to perform
  exactly its step function. What each operation answers, and everything it changes, is stated
  again without its step function, in terms of the store before it: `CreateAnswers`,
  `WriteAnswers` (append and close), `DeleteAnswers`, `FenceRungs`, `Leases` (grant, revoke,
  seal), `Paging`. The theorems are about all runs: `StoreInvariants` (what every step keeps),
  `SealFinality`, `Leases` and `ClaimHolders`, `ExactlyOnce` and `Retries`, `ForkLifecycle`,
  `ForkSlack` and `ForkUnderflows` (reference counts), `ForkAnchors` (how long forks keep their
  sources), `ForkContent` and `SourcedReads` (what a reader of a fork sees, now and later),
  `ForkDescents` (which reads end), `PagedReads`, `LongPolls` and `Registrations`.
  `ExpiredCreates` has the concrete runs behind the findings on forks.
- **The SSE hub** is a ring of events (`SseRings`) inside a class with many watchers
  (`SseHubs`), run with any interleaving of publisher and clients (`SseRuns`, `SseReattach`),
  also while it is fed from a run of the store (`SseStreams`), and the line writer that frames
  payloads (`SseLines`).
- **The dirty queue** is a state machine with its run theorems (`DirtyHints`, `DirtyOrigins`) and
  the class with the ring buffer, the entry map and the overflow epoch (`DirtyQueues`).
- **Parsers and matchers**: `Xfcc` with its grammar as text (`XfccTexts`) and whom a text
  authenticates (`XfccVerdicts`); `Globs` with `GlobLaws` and `Paths`; `OffsetText`.
- **Scheduling arithmetic**: `SweepWindows`, `Rendezvous`; `Texts` has the string order and
  sorting they share.

Conventions. Time is an integer that the caller passes in and that may move in any way.
An incarnation is a serial number; 0 stands for a stream that has none. Reaping an expired
claim marker, which the code does lazily on access, is an operation of its own that may
happen at any time. A request body carries the result of splitting it as JSON. Offsets and
sequence numbers are unbounded naturals.

## Findings

Some promises hold only under a condition. Each has a lemma with a concrete failing input and
a lemma that states the exact condition.

- **Creating over an expired stream.** `Create` on an expired path drops the old stream
  without the delete cascade (store/memory_store.go:154-156). Counts equal the number of forks
  at every point of a run if and only if no create lands on an expired stream that is a fork or
  has forks (`ForkLifecycle.RunLifecycleIff`). What follows depends on the dropped stream.
  - *The dropped stream was a fork.* Its source keeps one reference that no fork holds, until
    a create takes the source's own path, so deleting the source only hides it
    (`ExpiredCreates.ExpiredForkLeaks`, `ForkSlack.LeakIsForever`). If it had no forks itself,
    nothing else goes wrong: reads, paging, wake-ups and deletes are proved for all such runs.
  - *The dropped stream had forks.* They lose their source, even if the create is then refused.
    Sources stay present and older than their forks at every point of a run if and only if no
    create does this (`ForkAnchors.RunAnchoredIff`). A refused create leaves no count too low
    (`ExpiredCreates.RefusedCreateStrands`).
  - *The path is then taken again*, by the same create or a later one. The stranded forks get the
    new stream as their source, which does not count them and is younger than they are. Counts
    are never too low in a run, and no source is ever replaced under its forks, if and only if no
    create of the run takes a path that some stream still names as its source
    (`ForkSlack.RunCoveredIff`, `ForkAnchors.RunTiedIff`). In such a run no delete reports an
    underflow (`ForkSlack.NoUnderflow`), a stream shows only what it showed before or what was
    appended to it (`SourcedReads.FreshReadsShowNothingForeign`), and every waiter is woken
    (`LongPolls.FreshAlwaysWoken`). What a create that takes such a path can do:
    - *Underflow.* Deleting one of the stranded forks right after it reports an underflow exactly
      if the fork is not soft-deleted and nobody references it
      (`ForkSlack.RetakenPathUnderflows`, `ExpiredCreates.UnsafeCreateUnderflows`). In any store
      a delete reports one exactly if the references above its path run dry
      (`ForkUnderflows.DeleteUnderflowsIff`).
    - *Other bytes.* A fork can show bytes that it did not show before
      (`ExpiredCreates.UnsafeCreateRewritesFork`), but only at or below its fork point
      (`SourcedReads.OwnReadsAreStable`).
    - *A lost wake-up.* The create notifies nobody, and ends the wait of a waiter on a stranded
      fork exactly if the new stream shows something between the waiter's offset and the fork
      point (`LongPolls.RetakenPathIsSilent`, `ExpiredCreates.UnsafeCreateLosesWakeUp`). A waiter
      at or past the fork point, or one whose own stream has what it waits for, is woken in every
      interleaving (`PastForkPointAlwaysWoken`, `AlwaysWoken`); whoever is not has only
      inherited messages to read (`OnlyInheritedIsMissed`).
    - *A cycle.* Two streams can become forks of each other
      (`ExpiredCreates.UnsafeCreateMakesCycle`).
- **Reads that never end.** The recursion of a forked read (store/memory_store.go:832-900) has
  no bound. A read from an offset ends if and only if the chain of sources whose fork point lies
  after the offset ends within as many steps as there are streams (`ForkDescents.EndsIff`), and
  never ends if and only if that chain comes back to a stream it has visited (`EndlessIff`). It
  always ends where the stream's sources are in place (`AnchoredEnds`, `SafeReadsEnd`); in the
  run of `UnsafeCreateMakesCycle` it does not.
- **Attaching again inside an event.** A commit on the SSE hub compares only the event's
  sequence number (sse_hub.go:1110-1122). It keeps a watcher's record exact if and only if the
  watcher still stands where the event begins (`SseHubs.CommitExactIff`). A watcher that
  attaches again inside the same event, after the event was handed out, and then commits it
  loses messages (`SseReattach.ReattachLosesMessage`). The handler attaches once, before its loop
  of taking and committing (handler_sse.go:226-263), so it never does this.
- **Repeating the create of a fork.** A create that is sent again is meant to be idempotent. A plain
  create is. A fork that took its content type or lifetime from its source is compared with what
  the request names, not with what it got, so sending the same request again is refused as a
  mismatch exactly if the inherited content type is not the default, a lifetime was inherited, or
  the request named both kinds (`CreateAnswers.RepeatedCreate`, `RepeatedForkIsRefused`).
- **Sortable offsets.** The comment at store/offset.go:12-13 calls the printed form
  lexicographically sortable. Text order agrees with offset order for all offsets with both
  parts below a bound if and only if the bound is at most ten to the sixteenth
  (`OffsetText.SortableIff`, `OrderBreaks`).
- **SSE payload lines.** The writer prefixes `data:` without a space, and a reader that
  follows section 9.2.6 of the HTML standard drops one leading space of a value. The payload
  comes back, up to line breaks, if and only if no payload line begins with a space
  (`SseLines.RoundTripIff`, `LeadingSpaceIsLost`).

## Model

| member | source | states |
|---|---|---|
| Producers.AcceptedExactlyWhenNext | store/producer.go:17-96 | a request is accepted exactly when (epoch, sequence) is the next entry of an orderly history (epochs never back, 0, 1, 2, ... within an epoch), and the persisted state then stands for the longer history |
| Producers.OrderlyStrict | store/producer.go:17-96 | in an orderly history each later request is strictly ahead of each earlier one, so none occurs twice |
| Producers.OrderlyCovers | store/producer.go:17-96 | below an accepted sequence number every number of the epoch was accepted |
| Producers.VerdictFromHistory | store/producer.go:17-96 | every verdict from the accepted history alone: a repeat, with the last sequence number, exactly if the epoch is the last one's and the sequence not past it; a stale epoch exactly if it is behind; an invalid epoch exactly if it is ahead with a sequence other than 0; a gap, with the expected and the received number, exactly in what remains |
| Producers.RepeatedIffAccepted | store/producer.go:17-96 | a sequence number that exists is answered as a repeat if and only if that very request was accepted and no later epoch was opened; an accepted request sent again is answered as a repeat or a stale epoch, never accepted or refused as a gap |
| WriteFences.EvaluateWriteFence | store/write_fence.go:102-139 | exactly which writes pass: an open-class write unless its producer id is bound on a fenced stream; a claim if the marker is its own live, unexpired one for this incarnation and, on a fenced stream, its generation is the producer epoch and above the seal; each refusal gives the reason that applies, sealed before all others, with the generation it discloses, and the holder exactly if the marker is live and its lease has not run out |
| WriteFences.AuthorityIdentifiesSubscription | store/write_fence.go:147-150 | two claims share an authority key exactly when they name the same subscription id, incarnation and shard, for ids without a NUL |
| FenceRungs.RungAnswers | store/memory_store.go:1306-1333 | each answer of the rung if and only if a condition on the stream's seals and bindings, the authority's marker and the clock: a claim passes only with the live marker of exactly that claim for this incarnation, a lease past the clock, no seal at or above its generation and, on a fenced stream, its generation as producer epoch |
| FenceRungs.RungDiscloses | store/memory_store.go:1306-1333 | a refusal discloses the marker's generation, or else the seal's, and the holder exactly while the lease lasts |
| StoreModel.ExpiryIsPlainComparison | store/store.go:392-419 | a stream has expired exactly after its fixed instant or after its TTL from the last access, compared as plain instants, except that a lifetime past the last int64 second never expires |
| StoreModel.MediaTypeCuts | store/store.go:511-518 | the media type is what precedes the first semicolon |
| StoreModel.EqualFoldIgnoresCase | store/store.go:521-538 | two texts fold equal exactly if they agree but for the case of ASCII letters |
| StoreModel.JsonByMediaType | store/store.go:546-549 | a content type is JSON exactly if its media type is, whatever its case and parameters |
| Texts.BeforeIsLexicographic | store/memory_store.go:697-704 | the stream sequence is compared bytewise: a proper prefix, or the lesser character at the first difference, comes first |
| StoreInvariants.ChainRises | store/memory_store.go:752-781 | stored messages lie end to end from the fork point to the tail, so their offsets rise strictly |
| StoreInvariants.StepKeeps | store/memory_store.go:148-1424 | every operation keeps the store well formed, and a stream that keeps its incarnation only grows: messages, seals and bound producers are never taken back, and a closed stream does not change its messages or its tail any more |
| StoreInvariants.RunStored | store/memory_store.go:148-1424 | every run ends in a well-formed store |
| StoreInvariants.RunSurvives | store/memory_store.go:148-1424 | between any two points of a run a surviving stream has only grown, and an incarnation is never reused |
| StoreInvariants.CreateCases | store/memory_store.go:148-315 | a create either keeps the store, or only drops an expired stream at the path, or installs exactly the planned stream and one more reference on its source |
| CreateAnswers.CreateMakes | store/memory_store.go:148-315 | a create that answers that it made the stream made it with the requested write fence and closedness, without producers, seals or bindings, accessed now, with the next incarnation; content type: the one asked for, else the source's, else the default; lifetime: a plain stream's as asked, a fork's own or else its source's and of one kind only; every other stream is as it was but for one more reference on the source |
| CreateAnswers.CreateHolds | store/memory_store.go:275-305 | a new plain stream holds exactly the initial data, as one message or as the elements of a JSON body, laid end to end from zero to the tail |
| CreateAnswers.CreateOnTaken | store/memory_store.go:150-170 | on a taken path a create changes nothing and answers exists, already there or mismatch, each if and only if the stream is hidden, agrees with the request in every configured respect, or does not |
| CreateAnswers.PlanAnswers | store/memory_store.go:172-262 | each refusal of a fork if and only if its condition on the source holds, in the order of the code: missing, hidden, expired, another content type, an offset past the tail, a sub-offset past the content |
| CreateAnswers.CreateOnFree | store/memory_store.go:148-315 | on a free path a create makes the stream if and only if an incarnation can be had, the source can be forked as asked and the data is sound; otherwise it gives the refusal that applies and only an expired stream at the path is gone |
| CreateAnswers.SecondCreate | store/store.go:421-489 | a second create is told that the stream is there if and only if it asks for what the first one made, in terms of the two requests and the source at the first |
| CreateAnswers.RepeatedCreate | store/store.go:421-489 | repeating the very same create is idempotent if and only if it is not a fork that inherited a content type other than the default or a lifetime, or that named both kinds of lifetime |
| CreateAnswers.RepeatedForkIsRefused | store/store.go:421-489 | a concrete run: a fork that inherits a lifetime, created twice, is refused as a mismatch |
| CreateAnswers.NewFencedStreamSeals | store/memory_store.go:1401-1424 | right after the create of a write-fenced stream, sealing any complete claim that is not behind its marker answers sealed, at the tail |
| SealFinality.RunFences | store/memory_store.go:1250-1424 | over every run the last fenced offset bounds all fenced writes of a fenced stream, and every seal bounds the writes of the generations it closed |
| SealFinality.WritesPassedRung | store/memory_store.go:1306-1333 | no write is logged that did not pass the fence rung in the state it was applied to: its claim held the live marker of this incarnation with a lease past the clock of the write, and no seal at or above its generation |
| SealFinality.SealedStaysDead | store/memory_store.go:1250-1424 | once a generation is sealed on a write-fenced stream, no later step of any run accepts a write of that authority at or below it to that incarnation |
| SealFinality.SealedIsAlwaysRefused | store/memory_store.go:1306-1329 | at every later point of the run the rung answers such a claim with the sealed reason |
| SealFinality.SealFixesLastOffset | store/memory_store.go:1266-1302 | over every run a seal's offset is where the last fenced write accepted before the seal ended, unless there was none; every accepted write of a sealed generation came before the seal and ended at or before that offset |
| SealFinality.SealsAreMade | store/memory_store.go:1266-1380 | a step gives a stream that was there at most one new seal, explicitly or by a superseding grant, at the last fenced offset the stream records or else its tail; a new stream has none |
| SealFinality.SealsWereMade | store/memory_store.go:1266-1380 | over every run each seal, however it was made, has the offset at which the last fenced write to the stream had ended at some point of the run, or the tail it had then if there was none |
| SealFinality.SealRecordsLastFenced | store/memory_store.go:1266-1282 | a seal made at any point of any run reports the end of the run's last fenced write to the stream, or the tail if there was none |
| SealFinality.SealCloses | store/memory_store.go:1401-1424 | sealing a claim is refused as stale exactly when the marker is ahead of it, and otherwise closes its generation and revokes the marker |
| SealFinality.GrantSupersedes | store/memory_store.go:1337-1380 | exactly when a grant is accepted; a grant over an older generation seals that generation, and a sealed generation is never granted |
| Leases.GrantAnswers | store/memory_store.go:1337-1380 | what every grant answers, each if and only if its condition, and everything it changes: the claim's own marker, with the longer of the two leases on a renewal, and on a write-fenced stream a seal of the generation it takes over from |
| Leases.RevokeAnswers | store/memory_store.go:1386-1398 | what a revoke answers and changes: a tombstone for the claim, unless it is incomplete or behind the marker |
| Leases.SealAnswers | store/memory_store.go:1401-1424 | each outcome of sealing if and only if its condition, with its generation and offset, and everything it changes |
| Leases.MarkersWereGranted | store/memory_store.go:1337-1380 | over every run each live marker has the lease of an accepted grant of its own claim |
| Leases.WritesWereLeased | store/memory_store.go:1306-1380 | over every run each write accepted under a claim had an earlier accepted grant of that very claim whose lease reached past the clock of the write |
| Leases.DeadIsRefused | store/memory_store.go:1306-1333 | a generation whose marker was revoked or has moved on is refused as sealed or by its marker, at any clock |
| Leases.RevokedStaysDead | store/memory_store.go:1250-1424 | over every run, after a revoke or a seal of a claim that is not behind, and until its marker is reaped, no write of that authority to that path is accepted at or below the generation, even on a stream created again |
| ClaimHolders.MarkerAdvances | store/memory_store.go:1250-1264 | no operation but its own reaping takes a marker back to an older claim or to another claim of the same generation |
| ClaimHolders.SingleHolder | store/memory_store.go:1337-1380 | in any run that does not reap a marker, the generations of its accepted writes never go back and all writes of one generation carry one wake id and one holder |
| ClaimHolders.ReapReopensGeneration | store/memory_store.go:1223-1247 | after reaping only a seal keeps a generation closed: exactly when a grant is then accepted |
| ClaimHolders.RunBinds | store/memory_store.go:1289-1302 | over every run each fenced write left its producer id bound to the fence |
| ClaimHolders.BoundProducerIsClosed | store/memory_store.go:1306-1329 | a producer id that ever wrote under the fence is refused to open-class writers for the rest of the stream's life |
| ExactlyOnce.RunExact | store/memory_store.go:601-749 | over every run each producer's stored state stands for the orderly history of its accepted writes |
| ExactlyOnce.AcceptedExactlyOnce | store/memory_store.go:601-749 | over every run no (epoch, sequence) of a producer is accepted twice on a stream, and the accepted ones run in order |
| ExactlyOnce.AppendAllOrNothing | store/memory_store.go:601-781 | a producer's append stores all its frames and records exactly its (epoch, sequence), or changes neither |
| WriteAnswers.AppendTurnedAway | store/memory_store.go:601-641 | a request that does not reach the stream changes nothing; each refusal if and only if its condition: malformed claim, part of the producer headers, missing, hidden or expired stream, refused by the fence |
| WriteAnswers.AppendNotStored | store/memory_store.go:643-709 | a request that reaches the stream and is not stored only renews the sliding lifetime; which answer it gets: closed, repeat of the closing request, content type, duplicate, producer refusal, stream sequence, JSON |
| WriteAnswers.AppendStored | store/memory_store.go:706-749 | any other request is stored whole in one step: the new stream, the log entry, the notification and the reply, field by field |
| WriteAnswers.CloseAnswers | store/memory_store.go:462-493 | each answer of a close if and only if its condition; one that passes leaves the stream closed and reports its tail, and whether it was closed before |
| WriteAnswers.ProducerCloseTurnedAway | store/memory_store.go:496-522 | a producer's close that does not reach the stream changes nothing, with its refusal |
| WriteAnswers.ProducerCloseAnswers | store/memory_store.go:524-598 | a producer's close that reaches the stream closes it exactly if it is open and the request is the producer's next; what it is told otherwise |
| WriteAnswers.ClosedIsFinal | store/memory_store.go:462-749 | at every later point of every run a closed stream that lives is closed, with the messages and the tail it was closed with, and an append that reaches it is refused as closed, unless it repeats the closing request |
| Retries.RetriesFollowTheLog | store/memory_store.go:601-749 | over every run an append to an open stream is told duplicate, stale epoch, invalid epoch or gap, with their numbers, exactly as the logged requests of its producer on that incarnation say |
| Retries.DuplicateWasAccepted | store/memory_store.go:601-749 | over every run an append answered as a duplicate, on an open or a closed stream, names a request of its producer that is in the log |
| DeleteAnswers.DeleteAnswersWhat | store/memory_store.go:385-446 | each answer of a delete if and only if its condition, and everything it changes: it hides a stream that forks hold, and otherwise frees the stream and, link by link, each source that was waiting for its last fork; the first that was not gives up one reference, and no other stream changes |
| ForkLifecycle.DeleteLifecycle | store/memory_store.go:385-446 | delete keeps counts exact and sources present, ends, and never underflows |
| ForkLifecycle.CascadeKeepsLifecycle | store/memory_store.go:412-446 | the recursive cascade keeps counts exact while it removes soft-deleted sources whose last fork has gone |
| ForkLifecycle.FailedCreateChangesNothing | store/memory_store.go:148-315 | a refused create leaves the whole store as it was, except that an expired stream at the path is gone |
| ForkLifecycle.CreateLifecycleIff | store/memory_store.go:148-315 | a create keeps the fork lifecycle if and only if it does not land on an expired stream that is a fork or has forks |
| ForkLifecycle.RunLifecycleIff | store/memory_store.go:148-446 | counts equal the number of forks, sources are present and older, and soft-deleted streams have forks, at every point of a run if and only if every create of the run was clean |
| ForkSlack.CascadeKeepsSlack | store/memory_store.go:412-446 | in any store the cascade never frees a stream that counts more references than it has forks, moves the surplus of no surviving stream whose count was not too low, and underflows only if some count was too low |
| ForkSlack.DeleteKeepsSlack | store/memory_store.go:385-446 | the same for a whole delete |
| ForkSlack.StepSlack | store/memory_store.go:148-446 | the law of every step of every store: a living stream's surplus grows by one when a create drops one of its forks, and otherwise changes only where its count was too low; a new stream counts none of the forks its path already had; a stream with a surplus stays until a create takes its path |
| ForkSlack.StepCoveredIff | store/memory_store.go:148-446 | a step leaves no count too low if and only if it is not a create that succeeds on a path that some stream still names as its source |
| ForkSlack.RunCoveredIff | store/memory_store.go:148-446 | no count is too low at any point of a run if and only if no create of the run takes such a path |
| ForkSlack.NoUnderflow | store/memory_store.go:412-446 | in every such run no delete reports a reference-count underflow |
| ForkSlack.RetakenPathUnderflows | store/memory_store.go:385-446 | after a create takes a path that a fork still names as its source, deleting that fork underflows exactly if it is not soft-deleted and nobody references it |
| ForkUnderflows.CascadeUnderflowsIff | store/memory_store.go:412-446 | in any store the cascade underflows if and only if going up through sources that are soft-deleted and held by one reference leads to another one that counts none |
| ForkUnderflows.DeleteUnderflowsIff | store/memory_store.go:385-446 | a delete reports an underflow if and only if its stream is there, not soft-deleted and unreferenced, and the references above it run dry in that way |
| ForkUnderflows.RunUnderflowsIff | store/memory_store.go:385-446 | some delete of a run reports an underflow if and only if some delete of it finds the references above its path run dry |
| ForkSlack.LeakIsForever | store/memory_store.go:385-446 | over every run a surplus reference is never given back: until a create takes its path, the stream is never freed |
| ForkAnchors.UnsafeCreateUproots | store/memory_store.go:154-156 | a create on an expired stream with forks always leaves forks without their source |
| ForkAnchors.StepRoots | store/memory_store.go:148-446 | every other step keeps all sources present and older than their forks, and no count too low |
| ForkAnchors.RunAnchoredIff | store/memory_store.go:148-446 | sources stay present and older than their forks at every point of a run if and only if no create lands on an expired stream with forks |
| ForkAnchors.SafeRunIsFresh | store/memory_store.go:148-446 | such a run never takes a path that is still named as a source, so no delete underflows in it |
| ForkAnchors.StepTiedIff | store/memory_store.go:148-446 | a step leaves every source that is there older than its forks and reaching to their fork points if and only if it is not a create that succeeds on a path some stream still names as its source |
| ForkAnchors.RunTiedIff | store/memory_store.go:148-446 | no source is ever replaced under its forks in a run if and only if no create of the run takes such a path |
| ExpiredCreates.ExpiredForkLeaks | store/memory_store.go:154-156 | a concrete run that re-creates an expired fork: its source keeps a reference without a fork, and deleting it only hides it |
| ExpiredCreates.RefusedCreateStrands | store/memory_store.go:154-156 | a concrete run in which a refused create drops an expired source: its fork has lost it, and no count is too low |
| ExpiredCreates.UnsafeCreateRewritesFork | store/memory_store.go:154-156 | a concrete run that re-creates an expired source: the living fork shows another byte than before |
| ExpiredCreates.UnsafeCreateUnderflows | store/memory_store.go:154-156 | deleting the fork then reports an underflow |
| ExpiredCreates.UnsafeCreateMakesCycle | store/memory_store.go:832-865 | a concrete run that re-creates an expired source as a fork of its own fork: each is the other's source, and a read from the start never ends |
| ExpiredCreates.UnsafeCreateLosesWakeUp | store/memory_store.go:1001-1057 | a concrete run in which a waiter parks on a fork without its source, the re-created source brings its message, and no wake-up comes |
| ForkContent.WholeOfFork | store/memory_store.go:832-865 | where its sources are in place, a fork shows its source's content up to the fork point, then its own messages |
| ForkContent.WholeIncreasing | store/memory_store.go:832-865 | visible offsets rise strictly and stay within the tail; no visible message is empty |
| ForkContent.ContentGrows | store/memory_store.go:832-865 | a later store shows what an earlier one showed, followed by what was appended to the stream itself, if the stream's own sources are in place in both |
| ForkContent.ReadsAreStable | store/memory_store.go:786-865 | between any two points of any run at which a living stream's own sources are in place, its content only gains its own appends; appends to its sources and their soft deletes are never seen |
| ForkContent.SafeReadsAreStable | store/memory_store.go:786-865 | the same for every living stream of a run in which no create lands on an expired stream with forks |
| ForkContent.SourcedBetween | store/memory_store.go:148-446 | sources in place at both ends of a stretch of a run were in place all through it |
| SourcedReads.GrowsFrom | store/memory_store.go:832-865 | what a living stream shows after an offset is later what it was followed by the stream's own appends, if the sources that the read descends into are in place at both ends |
| SourcedReads.ReadsAreStableFrom | store/memory_store.go:786-865 | the same between any two points of any run |
| SourcedReads.OwnReadsAreStable | store/memory_store.go:786-865 | over every run a living stream shows past its fork point exactly its own messages, which only grow, whatever becomes of its source |
| SourcedReads.SourcedFromBetween | store/memory_store.go:148-446 | sources below an offset in place at both ends of a stretch of a run were in place all through it |
| SourcedReads.FreshReadsShowNothingForeign | store/memory_store.go:832-865 | in a run in which no create takes a path still named as a source, a living stream shows later only what it showed before or what was appended to it |
| ForkDescents.EndsIff | store/memory_store.go:832-900 | a read from an offset ends if and only if it ends within as many descents as there are streams |
| ForkDescents.CycleNeverEnds | store/memory_store.go:832-900 | a stream that its own descents reach again, after any number of them, is read without end |
| ForkDescents.EndlessIff | store/memory_store.go:832-900 | a read never ends if and only if its descents come back to a stream they have visited |
| ForkDescents.AnchoredEnds | store/memory_store.go:832-900 | where a stream's sources are in place every read of it ends |
| ForkDescents.SafeReadsEnd | store/memory_store.go:832-900 | in a run in which no create lands on an expired stream with forks every read ends |
| ForkDescents.WholeAfter | store/memory_store.go:832-865 | whatever the chain looks like, a read that ends shows its source's part up to the fork point, if the offset lies before it, then the stream's own messages |
| ForkDescents.WholeBetween | store/memory_store.go:877-900 | the same for an interval, cut at the earlier of its end and the fork point |
| ForkContent.ForkShows | store/memory_store.go:204-227 | a JSON sub-offset k adds exactly the next k messages, any other exactly the first k bytes of the next message; initial data follows |
| ForkContent.NewForkContent | store/memory_store.go:172-296 | creating a fork leaves the source's content as it was and gives the fork the source's content up to the resolved point, then its own frames |
| Paging.PageIsGreedy | store/memory_store.go:905-996 | a page is the longest prefix of its interval within both bounds, never less than one message; fetched bytes are returned plus discarded bytes |
| Paging.GreedyIsUnique | store/memory_store.go:958-983 | the bounds determine the page |
| Paging.ReadPageAnswers | store/memory_store.go:905-957 | each answer of a page read if and only if its condition: not found, hidden, snapshot of another stream, or a page |
| Paging.ReadPageShows | store/memory_store.go:905-996 | a page is bounded by the snapshot it was given, or by the stream as it is: it shows the longest prefix within its bounds of what lies between the offset and that tail, and is up to date exactly if it reaches that tail |
| Paging.ReadPageReply | store/page.go:103-135 | a page comes with the snapshot that was passed in, and a first page with the stream's tail, type, closedness and incarnation |
| Paging.PageBounds | store/page.go:175-186 | bounds that are not positive become 1 MiB and 1024 messages |
| Paging.ReadPageTouches | store/memory_store.go:905-957 | what a page read does to the store: the first page of a read renews a sliding lifetime from its clock on, an expired stream with forks is hidden, nothing else changes |
| PagedReads.SnapshotInterval | store/memory_store.go:877-900 | later appends to the stream or its sources do not change an interval that ends at an earlier tail, if the sources below its start are in place |
| PagedReads.PagesConcatenate | store/memory_store.go:905-996 | over the replies of page reads, each passing on the snapshot: paging ends, and the pages concatenate to exactly the whole read at the snapshot while the store moves on in between; if a read finds the stream expired or hidden, it is refused for that reason, and for no other |
| PagedReads.PagedReadOverRun | store/memory_store.go:905-996 | the same for page reads at any points of any run, with any clocks and bounds, the first without a snapshot, as long as the stream lives and the sources that the read descends into are in place |
| PagedReads.PagedReadOfOwn | store/memory_store.go:905-996 | for a read that starts at or past the fork point it is enough, in any run, that the stream lives at each read |
| PagedReads.SafePagedRead | store/memory_store.go:905-996 | in a run in which no create lands on an expired stream with forks, that is enough from any offset |
| MemoryStores.MemoryStore.Create | store/memory_store.go:148-315 | performs the create step on the maps in place, with its reply and notifications, and keeps the store well formed, whenever the read of its source that a sub-offset calls for ends |
| MemoryStores.MemoryStore.PlanFork | store/memory_store.go:172-262 | resolves source, fork offset, sub-offset, content type and expiry, or the first refusal, whenever the read that a sub-offset calls for ends |
| MemoryStores.MemoryStore.ResolveForkSubOffset | store/memory_store.go:804-829 | the offset and the bytes that a sub-offset stands for, or a refusal past the content, whenever the read ends |
| MemoryStores.MemoryStore.ResolveForkExpiry | store/memory_store.go:319-342 | a fork takes its own lifetime if the request has one, else its source's, and never both kinds |
| MemoryStores.MemoryStore.Delete | store/memory_store.go:385-409 | soft-deletes a stream with forks, otherwise removes it and cascades |
| MemoryStores.MemoryStore.DeleteWithCascade | store/memory_store.go:412-446 | the recursion in place equals the cascade on values, ends, and reports the same error |
| MemoryStores.AppendToStream | store/memory_store.go:752-781 | the loop stores the frames end to end from the tail, or nothing |
| MemoryStores.MemoryStore.Append | store/memory_store.go:601-749 | performs the append step: order of refusals, deduplication, closing repeat, commit, binding and notification |
| MemoryStores.MemoryStore.CloseStream | store/memory_store.go:462-493 | performs the close step and notifies on every close that passes the fence, also one of a closed stream |
| MemoryStores.MemoryStore.CloseStreamWithProducer | store/memory_store.go:496-598 | performs the producer's close step, with its deduplication |
| MemoryStores.ReadOwnMessages | store/memory_store.go:786-799 | the loop returns exactly the messages after the offset |
| MemoryStores.MemoryStore.ReadForkedStream | store/memory_store.go:832-865 | whenever the descent ends, the recursion returns exactly the visible content after the offset |
| MemoryStores.MemoryStore.WalkForkedMessages | store/memory_store.go:877-900 | whenever the descent ends, the recursive walk visits exactly the visible interval in order, until the visitor stops it |
| MemoryStores.MemoryStore.ReadPage | store/memory_store.go:905-996 | whenever the descent behind its gate ends, replies with the page of the visible interval under its snapshot and renews access only where allowed |
| MemoryStores.MemoryStore.Read | store/memory_store.go:1099-1127 | with a clock reading per page, returns everything visible after the offset, or the refusal of the page at which the stream has expired |
| MemoryStores.MemoryStore.DecideFence | store/memory_store.go:1306-1333 | evaluates the fence on the stream's seals, bindings and the authority's marker; a write passes exactly if it may write now |
| MemoryStores.MemoryStore.GrantAppendFence | store/memory_store.go:1337-1380 | performs the grant step |
| MemoryStores.MemoryStore.WriteTombstone | store/memory_store.go:1250-1264 | revokes in place unless the marker is ahead of the claim |
| MemoryStores.MemoryStore.RevokeAppendFence | store/memory_store.go:1386-1398 | performs the revoke step |
| MemoryStores.MemoryStore.SealAppendFence | store/memory_store.go:1401-1424 | performs the seal step with its outcome |
| MemoryStores.MemoryStore.ReapMarker | store/memory_store.go:1223-1235 | drops exactly one marker |
| MemoryStores.MemoryStore.Register | store/memory_store.go:1427-1430 | adds a channel to the path's waiters |
| MemoryStores.MemoryStore.Unregister | store/memory_store.go:1433-1443 | removes one occurrence of the channel and no other |
| MemoryStores.MemoryStore.Notify | store/memory_store.go:1446-1457 | every channel waiting on the path has a token afterwards |
| LongPolls.ChangesAreAnnounced | store/memory_store.go:483-749 | a living stream that looks different after a step was notified in that step |
| LongPolls.ReadyIsAnnounced | store/memory_store.go:724-741 | a step that ends a waiter's wait by the stream's own messages or close, or on a stream whose sources below the waiter's offset are in place, notifies the waiter's path |
| LongPolls.RetakenPathIsSilent | store/memory_store.go:148-315 | a create that takes the path of a fork's lost source notifies nobody, and ends the wait of the fork's waiter exactly if the new stream shows something between the waiter's offset and the fork point |
| LongPolls.NothingYetIffNotReady | store/memory_store.go:1001-1057 | a recheck finds nothing, and goes on waiting, if and only if the waiter's stream is readable and its wait is not over; in every other case the waiter returns |
| LongPolls.AlwaysWoken | store/memory_store.go:1001-1057 | in every interleaving of operations with registering, rechecking, parking and leaving, a parked waiter has a token if its own stream has messages after its offset or is closed at it, and also if what it waits for is inherited and the sources below its offset are in place and were when it parked |
| LongPolls.PastForkPointAlwaysWoken | store/memory_store.go:1001-1057 | in every interleaving a parked waiter at or past its stream's fork point whose wait is over has a token |
| LongPolls.OnlyInheritedIsMissed | store/memory_store.go:1001-1057 | a parked waiter whose wait is over and who has no token stands below the fork point, has nothing of its own stream to read, and some source below its offset is not in place or was not when it parked |
| LongPolls.FreshAlwaysWoken | store/memory_store.go:1001-1057 | in every interleaving in which no create takes a path still named as a source, every parked waiter whose wait is over has a token |
| LongPolls.SafeAlwaysWoken | store/memory_store.go:1001-1057 | an interleaving in which no create lands on an expired stream with forks is one of these |
| Registrations.NotifiedExactly | store/memory_store.go:1446-1457 | a notification reaches exactly the channels registered under the path |
| Registrations.UnregistersFirst | store/memory_store.go:1433-1443 | unregistering takes out the first registration of the channel and keeps the rest in order |
| Registrations.NoneLeftBehind | store/memory_store.go:1001-1057 | in every interleaving a channel is registered, once and under its waiter's path, exactly while its waiter has not returned, and only such a channel has a wake-up |
| Registrations.WakesHaveNotices | store/memory_store.go:1001-1057 | in every interleaving, between two wakes of a channel an operation notified the path its waiter waits on |
| SseRings.BuildEvents | sse_hub.go:808-848 | the events carry exactly the messages in order, with every message's wire boundary; an event of several messages stays within the batch limit, and no event could have taken the first message of the next |
| SseRings.FirstEventAfter | sse_hub.go:1134-1146 | the binary search finds the first event that ends after the offset |
| SseRings.FindBoundary | sse_hub.go:1148-1164 | the binary search finds the boundary at the offset exactly if there is one |
| SseRings.RestOfEvent | sse_hub.go:992-1038 | the published messages between a position inside an event and the event's end are the rest of that event |
| SseRings.RingGrows | sse_hub.go:768-777 | appending numbered events keeps the ring the last events of the log, indexed by sequence |
| SseRings.RingShrinks | sse_hub.go:785-797 | evicting the oldest keeps that |
| SseRings.RingContiguous | sse_hub.go:738-805 | retained events are contiguous and rise, with rising boundaries inside, and end at the hub's tail |
| SseRings.Locate | sse_hub.go:1012-1033 | a watcher behind the tail is placed exactly if the ring still holds its offset, and then before the right message |
| SseHubs.Evict | sse_hub.go:785-797 | the ring keeps the longest run of newest events that fits the replay limit, and never loses the last |
| SseHubs.AddEvents | sse_hub.go:748-797 | publishing appends exactly the messages to the log, flags only the newest event, keeps as many of the newest events as fit, closes the hub at a closed tail, and disturbs no watcher |
| SseHubs.LookUpIsExact | sse_hub.go:1077-1107 | behind the tail a watcher gets the rest of its event, byte for byte, or learns that it was evicted |
| SseHubs.DueStays | sse_hub.go:1056-1122 | an event handed out stays the one due while the hub publishes more |
| SseHubs.IssuedStays | sse_hub.go:1056-1122 | an event that was handed out stays one while the hub publishes more |
| SseHubs.CommitExactIff | sse_hub.go:1110-1122 | committing an event that was handed out keeps a watcher's record exact if and only if the watcher still stands where the event begins |
| SseReattach.ReattachLosesMessage | sse_hub.go:992-1122 | through publish, attach, next, attach again and commit, a client stands at the tail, attached before two messages, and has had only the second |
| SseHubs.ReadingAdvances | sse_hub.go:1110-1122 | committing it keeps the bytes handed out exactly the frames from the attach offset on |
| SseHubs.WatcherReadsStream | sse_hub.go:992-1122 | a watcher has had the stream from its attach offset to where it stands: nothing lost, repeated or reordered |
| SseHubs.SseHub.constructor | sse_hub.go:206-229 | an initialized hub stands at the snapshot's tail with an empty ring |
| SseHubs.SseHub.Publish | sse_hub.go:738-805 | refuses a page that was not read from the hub's offset; otherwise publishes it, cut into events at the batch limit and no earlier, keeps the longest run of newest events that fits the replay limit, and wakes every watcher |
| SseHubs.SseHub.Attach | sse_hub.go:992-1038 | attaches exactly at the tail or at an offset the ring still holds; ahead of the tail is behind, otherwise lagged |
| SseHubs.SseHub.Next | sse_hub.go:1056-1107 | hands out exactly the event that is due, with its flags; nothing only at an open tail; lagged exactly when its event was evicted |
| SseHubs.SseHub.Commit | sse_hub.go:1110-1122 | for any event ever handed out: one of the watcher's sequence moves the watcher to the event's end, adds exactly its bytes, and keeps the hub exact if and only if the watcher stood where the event begins; any other changes nothing |
| SseHubs.SseHub.ReleaseReplay | sse_hub.go:975-990 | empties the ring and keeps every watcher's record exact |
| SseHubs.SseHub.Fail | sse_hub.go:912-917 | marks the hub failed and wakes every watcher |
| SseHubs.SseHub.AddWatcher | sse_hub.go:374-380 | adds a watcher that is not attached |
| SseHubs.SseHub.RemoveWatcher | sse_hub.go:382-386 | removes one watcher and disturbs no other |
| SseRuns.Serve | sse_hub.go:738-1122 | through any interleaving of publishing with attaching, taking and committing events, adding and removing clients, releasing the replay and failing, each attached client has had exactly the frames of the messages published between where it attached and where it stands |
| SseStreams.PagesAreContent | sse_hub.go:594-670 | a hub fed with the framed replies of page reads, at any points of any run of the store that keeps in place the sources below where the hub began, has published exactly the framed content of the stream between where it began and its tail |
| SseStreams.ServeStream | sse_hub.go:594-1122 | through any interleaving of such publications with the clients, each attached client has had exactly the frames of the stream's own messages between where it attached and where it stands |
| SseStreams.ServeFromTail | sse_hub.go:594-1122 | the same for a hub that begins at the stream's tail, as the server's does, without any condition on sources |
| SseLines.SseDataWriter.Write | sse_hub.go:1222-1262 | the span-wise loop does what feeding byte by byte does, and consumes everything |
| SseLines.SseDataWriter.Close | sse_hub.go:1264-1272 | ends the last line |
| SseLines.FeedConcat | sse_hub.go:1214-1262 | the output does not depend on how the payload is cut into writes, even inside a CRLF |
| SseLines.WriterFrames | sse_hub.go:1214-1272 | the output is one data line for each payload line, lines ending at CRLF, CR or LF |
| SseLines.EventReadsBack | sse_hub.go:1166-1212 | a reader of the whole event gets the payload's lines joined by LF, each without one leading space |
| SseLines.RoundTripIff | sse_hub.go:1166-1272 | the payload comes back, up to line breaks, if and only if no line begins with a space |
| SseLines.LeadingSpaceIsLost | sse_hub.go:1235-1240 | a payload of one space comes back empty |
| DirtyHints.RunKeeps | webhook/dirty_queue.go:154-275 | over every run the order lists each queued path once and nothing else, entries fit the capacity, and what is processing is exactly the work handed out and not yet completed |
| DirtyHints.NoLostHint | webhook/dirty_queue.go:154-275 | every hint of every run is covered by successful work or a successful reconcile that began after it, or the queue still stands for it |
| DirtyHints.DrainedMeansCovered | webhook/dirty_queue.go:154-275 | once the queue is empty and no overflow is open, every hint has been covered |
| DirtyHints.OrderFits | webhook/dirty_queue.go:295-302 | the ring never overflows |
| DirtyHints.TakeIsFifo | webhook/dirty_queue.go:201-220 | taking hands out the front of the order and leaves the rest as it was |
| DirtyHints.HandedInOrder | webhook/dirty_queue.go:201-220 | the work handed out is that front, each with the time and origin its hint was queued with |
| DirtyHints.ServedInOrder | webhook/dirty_queue.go:201-241 | an entry with k ahead of it moves up with every pop and is taken within k + 1 pops, whatever else is enqueued or retried |
| DirtyOrigins.EnqueueMeans | webhook/dirty_queue.go:154-199 | each answer to a hint if and only if its condition, and what the hint then changes; a hint without an origin never replaces one |
| DirtyOrigins.EntriesHaveStories | webhook/dirty_queue.go:154-241 | over every run an entry dates from the hint that opened it, through every retry, and answers to the last hint since then that found it being worked on and named an origin, or else to the one that opened it |
| DirtyOrigins.OverflowsAreDated | webhook/dirty_queue.go:183-275 | over every run an open overflow dates from a hint that opened one and that no successful sweep has covered: the first to find the queue full since none was open, or since the sweep for the last one began |
| DirtyQueues.DirtyQueue.constructor | webhook/dirty_queue.go:136-145 | an empty queue |
| DirtyQueues.DirtyQueue.Push | webhook/dirty_queue.go:295-302 | adds at the end of the circular window |
| DirtyQueues.DirtyQueue.Pop | webhook/dirty_queue.go:304-313 | removes at its head |
| DirtyQueues.DirtyQueue.EnqueueHint | webhook/dirty_queue.go:154-181 | queues, coalesces or overflows as the state machine does; asks for recovery exactly on the first overflow of an epoch; no panic branch is reachable |
| DirtyQueues.DirtyQueue.NoteOverflowing | webhook/dirty_queue.go:183-199 | moves the overflow epoch |
| DirtyQueues.DirtyQueue.TakeWork | webhook/dirty_queue.go:201-220 | the loop of pops takes and returns the front of the order |
| DirtyQueues.DirtyQueue.CompleteWork | webhook/dirty_queue.go:225-241 | requeues at the tail on a retry or a hint that came meanwhile, otherwise removes; the oldest time stays the least |
| DirtyQueues.DirtyQueue.RecomputeOldest | webhook/dirty_queue.go:315-322 | finds the least time of all entries in whatever order they come |
| DirtyQueues.DirtyQueue.BeginReconciling | webhook/dirty_queue.go:245-251 | starts covering a pending overflow |
| DirtyQueues.DirtyQueue.CompleteReconciling | webhook/dirty_queue.go:256-275 | closes the epoch, or asks for another sweep |
| DirtyQueues.DirtyQueue.OldestAge | webhook/dirty_queue.go:283-293 | the age of the oldest entry or overflow that is still open |
| Xfcc.ParseHeader | auth/service.go:332-404 | the index-driven loops do what the character-wise grammar does, end, and give the same refusal |
| Xfcc.SkipBlanks | auth/service.go:409-414 | skips exactly the spaces and tabs |
| Xfcc.TrimSpaceCuts | auth/service.go:332-404 | trimming a key or value cuts the blanks off both ends, and all of them |
| Xfcc.ParseComposes | auth/service.go:332-404 | for any prefix and any suffix that parses alone, the joined header is refused or parses to the prefix's elements followed by the suffix's |
| Xfcc.OpenSuffixIsSwallowed | auth/service.go:332-404 | a suffix that does not parse alone can end up inside the prefix's quotes |
| XfccTexts.GrammarIsAccepted | auth/service.go:309-404 | every text of the grammar is accepted and read as it is meant: elements between commas, pairs between semicolons, bare keys without a pair, plain values trimmed, quoted values with each escaped character kept |
| XfccTexts.AcceptedIffGrammar | auth/service.go:309-404 | a header is accepted if and only if it is a text of that grammar |
| XfccTexts.RefusedIffSpoiled | auth/service.go:273-404 | a header is refused as unterminated, misplaced or trailing if and only if it ends inside quotes, has a quote in a key or in a value that is not quoted, or has something after a quoted value |
| XfccVerdicts.ValueArrives | auth/service.go:309-404 | any value arrives as it is when quoted with its quotes and backslashes escaped, and so does a trimmed one without special characters that is not quoted |
| XfccVerdicts.VerdictNamesFirst | auth/service.go:225-305 | whom a header authenticates, in full: the value of the first pair of the last element whose key is uri in any case and whose value is non-empty and trusted, and nobody if the header is refused or has no such pair |
| XfccVerdicts.OnePairVerdict | auth/service.go:225-305 | a header of one pair, quoted or plain, authenticates its value exactly if the key is uri in any case and the value is non-empty and trusted |
| Xfcc.Uris | auth/service.go:297-305 | collects the element's URI values in order |
| Xfcc.UrisAreAsserted | auth/service.go:297-305 | they are exactly the non-empty values whose key is the three letters uri, each in either case |
| Xfcc.FirstTrusted | auth/service.go:257-264 | the first URI that is trusted, with none trusted before it; none exactly when no URI is |
| Xfcc.Verify | auth/service.go:248-265 | authenticates the first trusted URI of the last element, nobody on an empty or refused header |
| Xfcc.OnlyTheLastHopCounts | auth/service.go:225-265 | prepending anything to a header that parses authenticates the same subject, or nobody if the whole is refused |
| Paths.Normalize | auth/path.go:22-34 | accepts exactly the paths without empty, dot or dot-dot parts, with at most one leading slash dropped |
| Paths.NormalizeAccepts | auth/path.go:22-34 | a path is taken, without one leading slash, exactly if none of its parts is empty, a dot or two dots |
| Paths.WithinMeansParts | auth/path.go:44-53 | a prefix covers a path exactly when its parts are the path's first parts |
| Globs.MatchParts | webhook/glob.go:49-84 | the loop with its recursion ends and matches exactly when the path falls into blocks: one part for a star, any number for a double star, the decoded literal otherwise |
| Globs.GlobMatch | webhook/glob.go:9-13 | the same for the two texts |
| GlobLaws.MatchesAlone | webhook/glob.go:49-84 | a pattern of one part matches anything for a double star, one part for a star, and otherwise the decoded part alone |
| GlobLaws.MatchesConcat | webhook/glob.go:49-84 | two patterns in a row match exactly the paths that fall into a piece for each |
| GlobLaws.DecodeSplits | webhook/glob.go:68-73 | either spelling of an escaped star, anywhere in a part, stands for a star |
| GlobLaws.DecodePlain | webhook/glob.go:68-73 | a part without one stands for itself |
| GlobLaws.OuterSlashes | webhook/glob.go:40-47 | leading and trailing slashes do not count |
| Globs.LiteralPrefix | webhook/glob.go:23-38 | joins the decoded parts before the first wildcard |
| Globs.LiteralsBound | webhook/glob.go:15-38 | every path a pattern matches begins with those parts |
| Globs.PatternStaysInNamespace | webhook/caller_token.go:69-91 | a pattern that a caller may link matches only stream paths that the caller may link |
| Globs.RefusedPatternEscapes | webhook/caller_token.go:69-91 | a refused pattern of legal parts does match a stream path the caller may not link |
| OffsetText.CheckFormat | store/offset.go:100-124 | accepts exactly digits, one underscore, digits |
| OffsetText.ParseOffset | store/offset.go:56-95 | returns the offset that the text denotes, and refuses exactly the texts that denote none |
| OffsetText.RoundTrip | store/offset.go:24-95 | the text of a 64-bit offset denotes that offset and no other |
| OffsetText.SortableIff | store/offset.go:11-26 | text order is offset order below a bound if and only if the bound is at most ten to the sixteenth |
| OffsetText.OrderBreaks | store/offset.go:11-26 | two adjacent offsets whose texts sort the wrong way round |
| SweepWindows.Sweeper.Window | webhook/manager.go:2550-2570 | returns all ids, or the next batch in sorted order around the end, and advances the cursor |
| SweepWindows.WindowIsBounded | webhook/manager.go:2544-2570 | a bounded tick sweeps exactly the batch size, no id twice, only given ids |
| SweepWindows.EveryIdIsSwept | webhook/manager.go:2544-2570 | from any cursor every id is swept within the number of ids divided by the batch, rounded up, of consecutive ticks, in whatever order each tick lists the ids |
| SweepWindows.SameWindow | webhook/manager.go:2544-2570 | a bounded window does not depend on the order in which the ids are listed |
| Texts.SortSorts | webhook/manager.go:2555-2555 | sorting gives a sorted permutation |
| Texts.SortedIsUnique | webhook/manager.go:2555-2555 | there is only one |
| Rendezvous.HrwOwner | webhook/ownership.go:279-288 | the running best is the member with the greatest score, and among those the greatest id, whatever their order and repetitions |
| Rendezvous.OwnerIsUnique | webhook/ownership.go:274-288 | a slot has at most one owner among a set of members |
| Rendezvous.JoinMovesOnlyToJoiner | webhook/ownership.go:274-288 | a joining member takes slots only to itself |
| Rendezvous.LeaveMovesOnlyItsSlots | webhook/ownership.go:274-288 | a leaving member moves only its own slots |
| Rendezvous.TargetedSlots | webhook/ownership.go:292-300 | exactly the slots that the replica owns |
| Rendezvous.TargetsAreDisjoint | webhook/ownership.go:290-300 | no slot is targeted by two replicas |
| Rendezvous.TargetsCover | webhook/ownership.go:290-300 | every slot is targeted by some live member |
| Rendezvous.OwnedSlots | webhook/ownership.go:309-318 | exactly what is both targeted and held, in rising order |

## Left out

- The Redis store, its Lua scripts and everything that talks to it: not part of this model.
- HTTP handling, authentication tokens, signatures, configuration, metrics and logging.
- JSON splitting: the split, or its refusal, arrives with the request body.
- Wrap-around of 64-bit offsets, sequence numbers and clock values: they are unbounded here; no stream reaches two to the sixty-fourth bytes.
- Random incarnation ids: an id is the next serial number, or the id source fails.
- `Get`, `Has`, `WaitForMessages` and the notification subscription: easy members beside the reads and the long poll that are here.
- Context cancellation and timeouts of a long poll: a waiter may leave at any step.
- `createdAt` as a stand-in for a missing incarnation, and the raw `data` buffer kept beside the messages.
- Unicode case folding and Unicode blanks in content types, header keys and header values: only ASCII letters and blanks fold and trim.
- Mutexes and goroutines: each critical section is one step. Aliasing of metadata pointers that reads hand out is not modelled.
- ForkContent.WholeOfFork: content is defined with a bound on the length of a fork chain, the next incarnation number; by `ForkDescents.WholeAfter` the bound does not show in any read that ends.
- MemoryStores.MemoryStore.ReadPage: says nothing about a read that never ends, where the code does not return either; the step functions of a run give such a read a reply all the same.
- SseRuns.Serve: a client that attaches again gives up the event it holds; what happens if it commits that event all the same is `SseHubs.CommitExactIff`.
- SseStreams.ServeStream: how a message is framed, and base64 mode, are outside: a frame is any function of the payload that is never empty. The refresh loop's timing is outside too: pages may be read at any points.
- DirtyQueues.DirtyQueue.EnqueueHint: clock readings are positive, because the zero time means that there is none.
- Rendezvous.HrwOwner: the hash is a parameter, so nothing is said about how evenly slots are spread.
- SweepWindows.EveryIdIsSwept: the set of ids is fixed over the ticks, as the code promises it; joining or leaving ids shift the window.
