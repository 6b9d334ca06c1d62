# Transaction capture and rollback, modelled in Dafny

This project models the transaction capture engine of SpongeCommon's phase tracker, plus three small pieces of state-keeping code beside it.

The capture engine is `TransactionalCaptureSupplier`. While a unit of game logic runs, it records every world change as a `GameTransaction` in a doubly-linked chain. It absorbs a new transaction into an older one where the older one allows it. It opens nested side-effect chains under transactions while a side effect is active. At the end of the unit, `processTransactions` does three things:

- It cuts the chain into batches. A "decider" transaction and the closing transactions decide where each cut falls, and the cuts recurse depth-first into side effects.
- It dispatches one event per batch.
- If anything was cancelled, it restores the cancelled transactions, the last one first.

The three smaller pieces are:

- the block-pipeline effect that drops pending block entities proposed at a changed position;
- the fuse, radius and prime state of lit TNT;
- the get-or-create of the platform's own NBT sub-compound.

## How the model is laid out

- `transactions.dfy` (module `Transactions`): the data model.
  - Transactions live in an arena `seq<Node<T>>`, and a handle is an index into it. A node's `previous`/`next` links and its list of side effects are fields of the node. Side effects live in `seq<SideEffect>`, each with its own head and tail.
  - The invariant `Wf` ties the links to ghost sequences: `Top`, the top-level chain; `Chains`, one chain per side effect; and `Owner`, the chain each node was appended to. Every chain is forward- and backward-linked.
  - Every transaction of a side-effect chain has a larger handle than the transaction owning the side effect. This ordering is what makes the depth-first batching terminate.
- `batching.dfy` (module `Batching`): what `batchTransactions` computes, as pure functions.
  - `Runs` cuts a chain into runs, each with its decider.
  - `ChainBatches` adds each run's event and, depth-first, the batches of its side effects.
- `processing.dfy` (module `Processing`): what `processTransactions` does with the batches.
  - `Step` and `DispatchAll` fold the dispatch over the batches in order.
  - `RestoreTrace` lists the rollback's restore calls in the order they are made.
  - `Process` puts the two together.
- `capture_supplier.dfy` (module `CaptureSupplier`): the supplier itself, as the class `TransactionalCaptureSupplier`.
  - The class has the real fields `head`, `tail` and `effect`, with methods that update them in place.
  - The loops of `batchTransactions`, `generateEventForTransaction`, the dispatch, the rollback and the removal search are imperative methods, each proved equal to its specification function.
- `tile_entity_effect.dfy`, `primed_tnt.dfy` and `data_compound_holder.dfy`: the three small pieces, each as a class with the fields the source updates.
- `seqs.dfy` and `wrappers.dfy`: sequence helpers (filter, reverse, flatten, first index) and `Option`/`Result`.

Behaviour that depends on the concrete kind of a transaction is supplied by the caller as function-typed parameters. This covers absorbing, accepting a tile or crafting record, deciding restarts, closing, generating an event and force-cancelling. A transaction's kind-specific state is its payload `T`, and "accept" returns the payload's new value, or `None` when the record is refused.

Where the code differs from the engine's documented design, the model follows the code:

- `pushEffect` dereferences the top-level tail in every case. When the active side effect's chain is still empty, it attaches to the top-level tail.
- Nested batches are parented by the enclosing batch's decider, not by the transaction that owns the side effect.
- `processTransactions` on an empty chain returns `false`, the same answer as for "something was cancelled".
- The removal search of `logTileRemoval` skips the oldest side effect (see Findings).

## Model

| member | source | states |
|---|---|---|
| CaptureSupplier.TransactionalCaptureSupplier.constructor | src/main/java/org/spongepowered/common/event/tracking/context/transaction/TransactionalCaptureSupplier.java:80-82 | a new supplier has no head, tail or active side effect, and satisfies the chain invariant |
| CaptureSupplier.TransactionalCaptureSupplier.IsEmpty | src/main/java/org/spongepowered/common/event/tracking/context/transaction/TransactionalCaptureSupplier.java:96-98 | the supplier is empty exactly when the top-level chain is empty, and exactly when there is no tail |
| CaptureSupplier.TransactionalCaptureSupplier.PushEffect | src/main/java/org/spongepowered/common/event/tracking/context/transaction/TransactionalCaptureSupplier.java:115-123 | without a top-level tail it fails and changes nothing; otherwise a fresh empty side effect is attached to the active side effect's tail (or the top-level tail), becomes active, and the transactor remembers the previously active one; the invariant is kept |
| CaptureSupplier.TransactionalCaptureSupplier.PopEffect | src/main/java/org/spongepowered/common/event/tracking/context/transaction/TransactionalCaptureSupplier.java:125-127 | exactly the side effect that was active before the transactor's push is active again, and nothing else changes |
| CaptureSupplier.TransactionalCaptureSupplier.LogTransaction | src/main/java/org/spongepowered/common/event/tracking/context/transaction/TransactionalCaptureSupplier.java:130-154 | the new state is `Logged`: on an empty supplier the transaction becomes head and tail; otherwise the first candidate that absorbs it takes it and no link changes; otherwise it is linked after the active side effect's tail (top-level tail unchanged), or after the top-level tail, which it becomes (head unchanged, chain one longer); the absorber is returned |
| CaptureSupplier.TransactionalCaptureSupplier.AppendTop | src/main/java/org/spongepowered/common/event/tracking/context/transaction/TransactionalCaptureSupplier.java:147-152 | the new transaction's `previous` is the old tail, the old tail's `next` is the new transaction, which becomes the tail (and the head of an empty chain), and the invariant is kept |
| CaptureSupplier.TransactionalCaptureSupplier.AppendToEffect | src/main/java/org/spongepowered/common/event/tracking/context/transaction/TransactionalCaptureSupplier.java:145-146 | the transaction is appended to the active side effect's chain only; the top-level head, tail and chain are unchanged |
| CaptureSupplier.TransactionalCaptureSupplier.OfferForAbsorption | src/main/java/org/spongepowered/common/event/tracking/context/transaction/TransactionalCaptureSupplier.java:136-143 | the first candidate, in the given order, that absorbs the transaction takes it and only its payload changes; when none does nothing changes |
| CaptureSupplier.TransactionalCaptureSupplier.LogTileAddition | src/main/java/org/spongepowered/common/event/tracking/context/transaction/TransactionalCaptureSupplier.java:157-168 | the tail records the addition when it accepts it, and only its payload changes; otherwise the sink's default runs: its transaction, if any, is logged exactly as `LogTransaction` logs it, and its answer is returned |
| CaptureSupplier.TransactionalCaptureSupplier.OfferToTail | src/main/java/org/spongepowered/common/event/tracking/context/transaction/TransactionalCaptureSupplier.java:162-165 | the tail takes the record exactly when it accepts it; then its payload is the accepted one, and otherwise nothing changes |
| CaptureSupplier.TransactionalCaptureSupplier.FallBack | src/main/java/org/spongepowered/common/event/tracking/context/transaction/TransactionalCaptureSupplier.java:167 | the `TransactionSink.super` call: with no transaction to log nothing changes; otherwise the new state is what `LogTransaction` gives; the default's answer is returned |
| CaptureSupplier.TransactionalCaptureSupplier.LogTileRemoval | src/main/java/org/spongepowered/common/event/tracking/context/transaction/TransactionalCaptureSupplier.java:172-200 | no tile entity gives false and no change; otherwise the first taker among the tail and then the side-effect chains below it, in the loop's order, records the removal and only its payload changes; failing all, the sink's default runs and logs its transaction, if any, as `LogTransaction` does |
| CaptureSupplier.OfferRemoval | src/main/java/org/spongepowered/common/event/tracking/context/transaction/TransactionalCaptureSupplier.java:176-197 | the tail is offered the removal first, then the side-effect walk in its order; the first candidate that takes it is the only transaction whose payload changes, and nothing changes when no candidate takes it |
| CaptureSupplier.FindRemovalTaker | src/main/java/org/spongepowered/common/event/tracking/context/transaction/TransactionalCaptureSupplier.java:183-196 | the loop over the tail's side effects, newest first, finds the first transaction of `SearchOrder` that takes the removal, or none if no transaction there takes it |
| CaptureSupplier.WalkChainBack | src/main/java/org/spongepowered/common/event/tracking/context/transaction/TransactionalCaptureSupplier.java:189-195 | walking one chain back from its tail through `previous` finds the first transaction of the reversed chain that takes the removal |
| CaptureSupplier.SearchOrderMembership | src/main/java/org/spongepowered/common/event/tracking/context/transaction/TransactionalCaptureSupplier.java:186-196 | a transaction is searched exactly when it belongs to one of the side-effect chains in the searched range |
| CaptureSupplier.OldestSideEffectNeverSearched | src/main/java/org/spongepowered/common/event/tracking/context/transaction/TransactionalCaptureSupplier.java:187 | as written, no transaction of the tail's oldest side effect is ever offered the removal |
| CaptureSupplier.FullSearchReachesEverySideEffect | src/main/java/org/spongepowered/common/event/tracking/context/transaction/TransactionalCaptureSupplier.java:183-196 | the intended search reaches every transaction of every side effect of the tail, and is the search as written followed by the oldest chain |
| CaptureSupplier.TransactionalCaptureSupplier.LogTileReplacement | src/main/java/org/spongepowered/common/event/tracking/context/transaction/TransactionalCaptureSupplier.java:203-217 | no proposed tile entity gives false and no change; otherwise the tail records it when it accepts it, and failing that the sink's default runs and logs its transaction, if any, as `LogTransaction` does |
| CaptureSupplier.TransactionalCaptureSupplier.LogContainerSet | src/main/java/org/spongepowered/common/event/tracking/context/transaction/TransactionalCaptureSupplier.java:219-223 | the tail, if any, records the container set; without a tail nothing changes |
| CaptureSupplier.TransactionalCaptureSupplier.LogCrafting | src/main/java/org/spongepowered/common/event/tracking/context/transaction/TransactionalCaptureSupplier.java:225-231 | succeeds exactly when a tail exists and accepts the crafting record, which it then records; otherwise fails with the "not nested" illegal-state error and nothing changes |
| CaptureSupplier.TransactionalCaptureSupplier.LogCraftingPreview | src/main/java/org/spongepowered/common/event/tracking/context/transaction/TransactionalCaptureSupplier.java:233-239 | the same contract for the crafting preview and its own error message |
| CaptureSupplier.TransactionalCaptureSupplier.EnsureEntityDropTransactionEffect | src/main/java/org/spongepowered/common/event/tracking/context/transaction/TransactionalCaptureSupplier.java:242-274 | no side effect is opened exactly when the tail takes the entity's drops; otherwise a transaction is logged and a fresh entity-drops side effect is active, its transactor remembering the previously active one |
| CaptureSupplier.TransactionalCaptureSupplier.CompleteBlockDrops | src/main/java/org/spongepowered/common/event/tracking/context/transaction/TransactionalCaptureSupplier.java:277-285 | only when the active side effect is the block-drops preparation and a transactor is given does the previously active side effect become active again; nothing else changes |
| CaptureSupplier.TransactionalCaptureSupplier.Clear | src/main/java/org/spongepowered/common/event/tracking/context/transaction/TransactionalCaptureSupplier.java:287-291 | afterwards head, tail and the active side effect are all absent and the supplier is empty |
| CaptureSupplier.TransactionalCaptureSupplier.Reset | src/main/java/org/spongepowered/common/event/tracking/context/transaction/TransactionalCaptureSupplier.java:477-485 | the same end state as clear; on a supplier already reset it changes nothing, so resetting twice is resetting once |
| CaptureSupplier.TransactionalCaptureSupplier.ProcessTransactions | src/main/java/org/spongepowered/common/event/tracking/context/transaction/TransactionalCaptureSupplier.java:294-342 | an empty supplier returns false and does nothing; otherwise the result, the cancellation flags, the posted batches and the restore calls are exactly `Process` of the batching specification of the top-level chain, and only payloads and flags change |
| CaptureSupplier.ProcessChain | src/main/java/org/spongepowered/common/event/tracking/context/transaction/TransactionalCaptureSupplier.java:297-341 | on a non-empty chain, batching, dispatching every batch and restoring only when something was cancelled produce exactly `Process` of the chain's batches: the cancellation flags, the commit answer, the restore calls and the posted batches; the links do not change |
| CaptureSupplier.BatchTransactions | src/main/java/org/spongepowered/common/event/tracking/context/transaction/TransactionalCaptureSupplier.java:345-403 | the decider/accumulator loop produces exactly `ChainBatches` of the chain it walks |
| CaptureSupplier.CutAtRestart | src/main/java/org/spongepowered/common/event/tracking/context/transaction/TransactionalCaptureSupplier.java:359-372 | when the decider restarts on the current transaction, the accumulated transactions become a batch decided by the old decider, and the batches so far plus what the walk still produces from the current transaction remain the whole specification |
| CaptureSupplier.CutAtClose | src/main/java/org/spongepowered/common/event/tracking/context/transaction/TransactionalCaptureSupplier.java:373-385 | when the current transaction closes the batch, the accumulated transactions and it become a batch decided by it, and the batches so far plus what the walk still produces after it remain the whole specification |
| CaptureSupplier.NextRun | src/main/java/org/spongepowered/common/event/tracking/context/transaction/TransactionalCaptureSupplier.java:359-385 | where the loop cuts, the specification's first run ends, with the same members and decider, and the next run starts where the loop goes on |
| CaptureSupplier.GenerateEventForTransaction | src/main/java/org/spongepowered/common/event/tracking/context/transaction/TransactionalCaptureSupplier.java:406-449 | the batch's own event if the decider generates one, then the side-effect batches of each of its transactions in order: exactly `RunBatches` |
| CaptureSupplier.SideEffectsBatches | src/main/java/org/spongepowered/common/event/tracking/context/transaction/TransactionalCaptureSupplier.java:438-446 | the batches of every non-empty side effect of a transaction, in order, parented by the decider |
| CaptureSupplier.EffectBatchesOf | src/main/java/org/spongepowered/common/event/tracking/context/transaction/TransactionalCaptureSupplier.java:441-446 | a side effect that captured nothing adds no batches; otherwise its chain is batched from its head with the decider as parent: exactly `EffectBatches` |
| CaptureSupplier.DispatchBatches | src/main/java/org/spongepowered/common/event/tracking/context/transaction/TransactionalCaptureSupplier.java:302-326 | the dispatch loop computes exactly `DispatchAll`: the flags, whether anything was cancelled, and the posted batches |
| CaptureSupplier.DispatchBatch | src/main/java/org/spongepowered/common/event/tracking/context/transaction/TransactionalCaptureSupplier.java:303-317 | one iteration of the dispatch loop computes exactly `Step` |
| CaptureSupplier.RestoreCancelled | src/main/java/org/spongepowered/common/event/tracking/context/transaction/TransactionalCaptureSupplier.java:327-338 | the rollback loop makes exactly the restore calls of `RestoreTrace` |
| CaptureSupplier.RestoreBatch | src/main/java/org/spongepowered/common/event/tracking/context/transaction/TransactionalCaptureSupplier.java:332-336 | within one batch, the cancelled transactions are restored from the last to the first |
| Transactions.LinkAfter | src/main/java/org/spongepowered/common/event/tracking/context/transaction/TransactionalCaptureSupplier.java:147-152 | the new transaction points back to the old last one, which points forward to it; no other transaction changes |
| Transactions.AppendTopKeepsWf | src/main/java/org/spongepowered/common/event/tracking/context/transaction/TransactionalCaptureSupplier.java:131-134 | appending to the top-level chain keeps every chain linked and nested, and extends the top chain by the new handle |
| Transactions.AppendEffectKeepsWf | src/main/java/org/spongepowered/common/event/tracking/context/transaction/TransactionalCaptureSupplier.java:145-146 | appending to a side effect's chain keeps the invariant and extends only that chain |
| Transactions.PushKeepsWf | src/main/java/org/spongepowered/common/event/tracking/context/transaction/TransactionalCaptureSupplier.java:115-123 | attaching a fresh empty side effect to a transaction and activating it keeps the invariant |
| Transactions.SameShapeKeepsWf | src/main/java/org/spongepowered/common/event/tracking/context/transaction/TransactionalCaptureSupplier.java:136-143 | changing payloads and cancellation flags only, as absorption and acceptance do, keeps the invariant |
| Batching.RunEnd | src/main/java/org/spongepowered/common/event/tracking/context/transaction/TransactionalCaptureSupplier.java:355-390 | the run stops at the first transaction the decider restarts on or that closes the run, and nothing before it does either |
| Batching.FirstRun | src/main/java/org/spongepowered/common/event/tracking/context/transaction/TransactionalCaptureSupplier.java:359-385 | a run is the chain segment up to where the next one starts, and its decider is one of its members |
| Batching.Runs | src/main/java/org/spongepowered/common/event/tracking/context/transaction/TransactionalCaptureSupplier.java:355-390 | every run is non-empty and decided by one of its own members |
| Batching.RunsFlatten | src/main/java/org/spongepowered/common/event/tracking/context/transaction/TransactionalCaptureSupplier.java:345-403 | the runs concatenate back to the chain: nothing lost, duplicated or reordered |
| Batching.RunsShape | src/main/java/org/spongepowered/common/event/tracking/context/transaction/TransactionalCaptureSupplier.java:359-385 | within a run only the last transaction may close it; the first transaction restarts on none of the others; the event comes from the last transaction when that one closed the run and from the first otherwise; a run no transaction closed ended because of a restart on the next run's first transaction |
| Batching.AlwaysRestartingGivesSingletons | src/main/java/org/spongepowered/common/event/tracking/context/transaction/TransactionalCaptureSupplier.java:359-372 | a decider that restarts on every other transaction gives one batch per transaction, each deciding itself |
| Batching.NeverRestartingGivesOneRun | src/main/java/org/spongepowered/common/event/tracking/context/transaction/TransactionalCaptureSupplier.java:373-390 | with no restarts and no closers, the whole chain is one batch decided by its last transaction |
| Batching.ChainBatches | src/main/java/org/spongepowered/common/event/tracking/context/transaction/TransactionalCaptureSupplier.java:345-403 | every batch's members, decider and parent are transactions of the arena, and nested batches always carry a parent |
| Batching.NestedBatches | src/main/java/org/spongepowered/common/event/tracking/context/transaction/TransactionalCaptureSupplier.java:436-447 | the side-effect batches of a run's transactions are within the arena and all carry a parent |
| Batching.SideEffectBatches | src/main/java/org/spongepowered/common/event/tracking/context/transaction/TransactionalCaptureSupplier.java:438-446 | the batches of a transaction's side-effect chains are within the arena and all carry a parent |
| Batching.TopLevelBatchesCoverChain | src/main/java/org/spongepowered/common/event/tracking/context/transaction/TransactionalCaptureSupplier.java:345-403 | when every decider generates its event, the batches without a parent list the top-level chain exactly, in order |
| Processing.Cancel | src/main/java/org/spongepowered/common/event/tracking/context/transaction/TransactionalCaptureSupplier.java:306-312 | exactly the given transactions become cancelled, the rest keep their flag, and no payload or link changes |
| Processing.ParentOrDeciderCancelled | src/main/java/org/spongepowered/common/event/tracking/context/transaction/TransactionalCaptureSupplier.java:305-309 | true exactly when the batch's parent or its decider is already cancelled; `Step` then skips the batch and cancels its members |
| Processing.Step | src/main/java/org/spongepowered/common/event/tracking/context/transaction/TransactionalCaptureSupplier.java:303-325 | a batch whose parent or decider is already cancelled is cancelled whole without being posted; otherwise it is posted, cancelled whole if its event is, and force-cancelled where the decider says; cancellation is only ever added, only to the batch's transactions, and reported exactly when one of them is cancelled |
| Processing.DispatchAll | src/main/java/org/spongepowered/common/event/tracking/context/transaction/TransactionalCaptureSupplier.java:302-326 | dispatching all batches only adds cancellations, and with none reported the arena is unchanged |
| Processing.RestoreMembersIsReversedFilter | src/main/java/org/spongepowered/common/event/tracking/context/transaction/TransactionalCaptureSupplier.java:332-336 | a batch's restore calls are its transactions reversed, keeping the cancelled ones |
| Processing.RestoreTraceIsReversedFilter | src/main/java/org/spongepowered/common/event/tracking/context/transaction/TransactionalCaptureSupplier.java:327-338 | the rollback is every batched transaction in reverse order, keeping the cancelled ones |
| Processing.RestoredAreTheCancelled | src/main/java/org/spongepowered/common/event/tracking/context/transaction/TransactionalCaptureSupplier.java:327-338 | a transaction is restored exactly when it was batched and ended up cancelled |
| Processing.LaterRestoredFirst | src/main/java/org/spongepowered/common/event/tracking/context/transaction/TransactionalCaptureSupplier.java:327-338 | when A was batched before B and both are cancelled, B is restored strictly before A |
| Processing.CancelledAnyLeavesAMark | src/main/java/org/spongepowered/common/event/tracking/context/transaction/TransactionalCaptureSupplier.java:302-326 | when the dispatch reports a cancellation, some batched transaction is marked cancelled |
| Processing.CommittedIffNothingRestored | src/main/java/org/spongepowered/common/event/tracking/context/transaction/TransactionalCaptureSupplier.java:327-341 | processing reports success exactly when no transaction is restored |
| Processing.NoCancellationPostsEverything | src/main/java/org/spongepowered/common/event/tracking/context/transaction/TransactionalCaptureSupplier.java:294-341 | with nothing cancelled beforehand, by events or by deciders, every batch is posted in order, nothing changes or is restored, and the result is success |
| Processing.NothingCancelledDispatch | src/main/java/org/spongepowered/common/event/tracking/context/transaction/TransactionalCaptureSupplier.java:302-326 | the dispatch loop alone, when nothing is cancelled: every batch posted, no flag set |
| RemoveProposedTileEntitiesEffect.ProcessSideEffect | src/main/java/org/spongepowered/common/event/tracking/context/transaction/effect/RemoveProposedTileEntitiesDuringSetIfWorldProcessingEffect.java:52-76 | a missing or removed block entity gives NULL_RETURN and no change; outside block-entity updating, NULL_PASS and no change; while updating, the pending entries at the position are marked removed and taken out, the others kept in order and untouched, the old block entity appended once to the block-entity list, and NULL_RETURN |
| RemoveProposedTileEntitiesEffect.KeptClearsPosition | src/main/java/org/spongepowered/common/event/tracking/context/transaction/effect/RemoveProposedTileEntitiesDuringSetIfWorldProcessingEffect.java:65-71 | afterwards no pending entry is at the position |
| RemoveProposedTileEntitiesEffect.KeptMembership | src/main/java/org/spongepowered/common/event/tracking/context/transaction/effect/RemoveProposedTileEntitiesDuringSetIfWorldProcessingEffect.java:65-71 | an entry stays pending exactly when it was pending and is elsewhere |
| RemoveProposedTileEntitiesEffect.KeptNothingAt | src/main/java/org/spongepowered/common/event/tracking/context/transaction/effect/RemoveProposedTileEntitiesDuringSetIfWorldProcessingEffect.java:65-71 | with nothing pending at the position, the pending list is left as it was |
| RemoveProposedTileEntitiesEffect.KeptIdempotent | src/main/java/org/spongepowered/common/event/tracking/context/transaction/effect/RemoveProposedTileEntitiesDuringSetIfWorldProcessingEffect.java:65-71 | sweeping the same position twice is sweeping it once |
| RemoveProposedTileEntitiesEffect.KeptAppend | src/main/java/org/spongepowered/common/event/tracking/context/transaction/effect/RemoveProposedTileEntitiesDuringSetIfWorldProcessingEffect.java:65-71 | the sweep works entry by entry and never reorders: sweeping a concatenation is concatenating the sweeps |
| PrimedTntMixin.Sub32 | src/mixins/java/org/spongepowered/common/mixin/core/world/entity/item/PrimedTntMixin.java:131 | Java `int` subtraction: exact when the difference fits, otherwise congruent to it modulo 2^32 |
| PrimedTntMixin.PrimedTnt.constructor | src/mixins/java/org/spongepowered/common/mixin/core/world/entity/item/PrimedTntMixin.java:58-63 | a lit TNT starts with the default radius and fuse duration and no detonator |
| PrimedTntMixin.PrimedTnt.SetDetonator | src/mixins/java/org/spongepowered/common/mixin/core/world/entity/item/PrimedTntMixin.java:66-68 | the detonator is stored and the fuse and radius are untouched |
| PrimedTntMixin.PrimedTnt.IsExploding | src/mixins/java/org/spongepowered/common/mixin/core/world/entity/item/PrimedTntMixin.java:71-73 | exploding exactly when the entity is removed and no fuse ticks are left; `SetFuseTicksRemaining` states it after every write of the fuse |
| PrimedTntMixin.PrimedTnt.GetExplosionRadius | src/mixins/java/org/spongepowered/common/mixin/core/world/entity/item/PrimedTntMixin.java:76-78 | the radius is always present and is the stored one |
| PrimedTntMixin.PrimedTnt.SetExplosionRadius | src/mixins/java/org/spongepowered/common/mixin/core/world/entity/item/PrimedTntMixin.java:80-83 | no radius stores the default radius, a given radius is stored as is, and nothing else changes |
| PrimedTntMixin.PrimedTnt.GetFuseDuration | src/mixins/java/org/spongepowered/common/mixin/core/world/entity/item/PrimedTntMixin.java:86-88 | the stored fuse duration |
| PrimedTntMixin.PrimedTnt.SetFuseDuration | src/mixins/java/org/spongepowered/common/mixin/core/world/entity/item/PrimedTntMixin.java:91-93 | reading the fuse duration back gives the value set, and nothing else changes |
| PrimedTntMixin.PrimedTnt.GetFuseTicksRemaining | src/mixins/java/org/spongepowered/common/mixin/core/world/entity/item/PrimedTntMixin.java:96-98 | the remaining fuse is the entity's `life` |
| PrimedTntMixin.PrimedTnt.SetFuseTicksRemaining | src/mixins/java/org/spongepowered/common/mixin/core/world/entity/item/PrimedTntMixin.java:101-103 | reading the remaining fuse back gives the value set, and the TNT is then exploding exactly when it is removed and the value is at most 0 |
| PrimedTntMixin.PrimedTnt.UpdatePushPrime | src/mixins/java/org/spongepowered/common/mixin/core/world/entity/item/PrimedTntMixin.java:129-140 | the prime event is posted exactly when the world is server-side and the fuse is one tick in (`life` equals the duration minus one, in `int` arithmetic); the detonator, when set, is pushed as a cause before the TNT itself |
| PrimedTntMixin.PrimedTnt.Explosion | src/mixins/java/org/spongepowered/common/mixin/core/world/entity/item/PrimedTntMixin.java:119-121 | the explosion uses the stored radius, and smoke and block breaking are both on exactly when the mode is past NONE |
| DataCompoundHolder.CompoundTag.HasKey | src/main/java/org/spongepowered/common/bridge/data/DataCompoundHolder.java:38 | true exactly when a tag of the given type id is stored under the key |
| DataCompoundHolder.CompoundTag.SetTag | src/main/java/org/spongepowered/common/bridge/data/DataCompoundHolder.java:39 | the key now holds the given tag, whatever it held before, and every other key keeps its tag |
| DataCompoundHolder.CompoundTag.GetCompoundTag | src/main/java/org/spongepowered/common/bridge/data/DataCompoundHolder.java:41 | the compound stored under the key when there is one; otherwise a fresh empty compound, which is not stored |
| DataCompoundHolder.EnsureCompound | src/main/java/org/spongepowered/common/bridge/data/DataCompoundHolder.java:38-40 | afterwards a compound is stored under the key; an existing compound is kept as is; a missing key or a non-compound tag is replaced by the created compound; every other key is untouched |
| DataCompoundHolder.EnsureCompoundIdempotent | src/main/java/org/spongepowered/common/bridge/data/DataCompoundHolder.java:36-42 | guaranteeing the compound a second time changes nothing |
| DataCompoundHolder.GetSpongeCompound | src/main/java/org/spongepowered/common/bridge/data/DataCompoundHolder.java:36-42 | the root ends with a compound under the platform's key and returns that stored compound; a compound already there leaves the root unchanged, so a second call returns the same compound and changes nothing; otherwise a fresh empty compound is stored |

## Left out

- Event posting, the cause stack and its frames (`PhaseTracker`, `getFrameMutator`, `pushCause`) are not modelled. They are global services outside this code. The dispatcher's verdict on each batch and the decider's `markCancelledTransactions` are parameters (`DispatchHooks`), and "it returned true" is taken to mean that it cancelled a transaction of its batch.
- `markEventAsCancelledIfNecessary` and `postProcessEvent` are not modelled. They only touch the event and the kind-specific state; the restore calls are modelled as the list of restored handles.
- The post-event multimap and `createAndProcessPostEvents` are left out: event bookkeeping outside the batching and rollback.
- `hashCode`, `equals` and `toString` are left out: no behaviour to state.
- The `DeepIterator`/`ReverseDeepIterator` traversal that `logTransaction` uses to find an absorber is not part of this model. The newest-first order it yields is the `candidates` parameter.
- `ResultingTransactionBySideEffect.addChild` and `EffectTransactor.close` are not part of this model. They are modelled as linking after the side effect's tail, and as `popEffect` with the transactor's remembered side effect.
- The `TransactionSink` defaults of the tile log methods are not part of this model. What the default does is the `fallback` parameter: the transaction it hands to `logTransaction`, if any, with its `canBeAbsorbed` answer, and the answer it returns. `FallBack` logs that transaction through `LogTransaction`.
- Processing.Step: `EventByTransaction.isParentOrDeciderCancelled`, `EventByTransaction.markCancelled` and `GameTransaction.markCancelled` are not part of this model. The model assumes that the first reads only the parent's and the decider's own cancelled flags, and that the other two set the flag on exactly the batch's members, with no cascade into their side-effect chains. Which transactions are restored depends on these assumptions.
- `DefaultExplosionRadius` (4) and `DefaultFuseDuration` (80) stand for `Constants.Entity.PrimedTNT.DEFAULT_EXPLOSION_RADIUS` and `DEFAULT_FUSE_DURATION`. That class is not part of this model, so the values are assumed.
- `SpongeData` ("SpongeData") and `TagCompound` (10) stand for `NbtDataUtil.SPONGE_DATA` and `NbtDataUtil.TAG_COMPOUND`. That class is not part of this model, so the values are assumed.
- `ensureEntityDropTransactionEffect`: the entity snapshot (NBT save, weak references, last attacker) is left out, as foreign game calls. The snapshot transaction is a parameter.
- CaptureSupplier.TransactionalCaptureSupplier.EnsureEntityDropTransactionEffect: when a side effect is opened, the contract states the new active side effect and its transactor but not the rest of the new state. That state is what `LogTransaction` and `PushEffect` state.
- CaptureSupplier.FindRemovalTaker: it relies on `hasChildTransactions` being true exactly when the tail has a side effect. That method is not part of this model.
- CaptureSupplier.BatchTransactions: requires that no decider restarts on itself. A restart does not advance the pointer, so without this the source's loop would not terminate.
- CaptureSupplier.TransactionalCaptureSupplier.ProcessTransactions: requires the same of the batching hooks, for the same reason.
- The trailing flush of `batchTransactions` has no counterpart: the last transaction of a chain always closes its batch, so the flush is proved unreachable.
- PrimedTntMixin.PrimedTnt.Explosion: only the settings the mixin decides are modelled: the radius, the smoke and the block breaking. The location from doubles, the explosion factory and the `IS_PRIMED` fallback when detonation is cancelled are not modelled.
- PrimedTntMixin.PrimedTnt.UpdatePushPrime: the posted event is modelled by the cause list it is posted with. `bridge$postPrime` is not part of this model.
- NBT internals beyond `hasKey`, `setTag` and `getCompoundTag` are not part of this model, and `data$getRootCompound` is a parameter.
- The other effect results of the block pipeline are left out; the effect only produces the two modelled here.

## Findings

| source | as written | input that shows it | evidently intended | confidence | as-written member | corrected member |
|---|---|---|---|---|---|---|
| src/main/java/org/spongepowered/common/event/tracking/context/transaction/TransactionalCaptureSupplier.java:187 | The `for` loop draws the next side effect before testing `hasNext`, so the last one the descending iterator yields is never searched. That is the tail's oldest side effect, and with a single side effect nothing is searched at all. | A tail that refuses the removal and has one side effect, whose chain holds a transaction that would take the removal: the removal goes to the sink default instead. | Every side effect of the tail is searched, newest first, down to and including the oldest. | not executed | CaptureSupplier.OldestSideEffectNeverSearched | CaptureSupplier.FullSearchReachesEverySideEffect |

`LogTileRemoval` keeps the search as written (`RemovalCandidates`), since that is what the code does. `FullRemovalCandidates` is the corrected order. `FullSearchReachesEverySideEffect` proves that it reaches every side-effect transaction, and that it differs from the search as written only by the oldest chain.
