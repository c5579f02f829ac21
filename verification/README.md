# Citrate chain: a verified model of block admission, sync serving and the faucet

The project models, in Dafny, the parts of the node and of the faucet that must be right under
concurrency, crashes and hostile input:

- **Admission.** One path (`admit`) by which a block enters the two stores of a node, the consistency
  gate it asks, the batch loop around it (`admit_to_fixpoint`), the boot repair (`reconcile`,
  `seed_genesis`), DAG pruning (`prune_once`), the orphan buffer and the log budget.
- **Sync serving.** `serve_blocks`, and the serve-then-admit rounds by which a cold node catches up.
- **Faucet.** Cooldowns with their disk copy, the sliding hourly cap, and `request_tokens` as
  interleaved threads over both.
- **Consensus fingerprint.** The text two nodes compare to know that they agree.

Code that updates state in place is modelled by classes and methods with loops (`Stores.BlockStore`,
`Stores.DagStore`, `Admission.BlockAdmission`, `Fixpoint.AdmitToFixpoint`, `Reconcile.Repair`,
`Pruning.PruneOnce`, `Serve.ServeBlocks`, `Orphans.BoundOrphanBuffer`, `LogBudget.Budget`,
`GlobalCap.Cap`, `Cooldowns.Cooldowns`, `RequestTokens.RequestTokens`); each is proved equal to a
function on values, and the theorems are about those functions. Concurrency is modelled by state
machines over atomic steps (`Crash`, `World`, `LogBudget`, `Faucet`).

| file | content |
|---|---|
| Blocks, Gate, Stores | block copies and their commitments; the consistency gate; the two stores |
| Admission, Law | `admit`; what it decides, said over the raw fields |
| Fixpoint, LeastFixpoint | the batch loop; the set it reaches and what it reports |
| Order, Siblings | when the order of a batch decides which hashes are stored; what it decides besides |
| Crash, World, Reachable | `admit` cut into steps; every run with crashes, faults, restarts, repairs, pruning; what every reached node satisfies |
| Reconcile, Pruning, Invisible | boot repair; the pruning floor; pruned and unpruned nodes side by side |
| Serve, ColdSync, Buffered | one answer to a peer; the rounds of a cold sync, without and with the orphan buffer |
| Orphans, LogBudget | the deferred-block buffer; the log budget |
| GlobalCap, Cooldowns, RequestTokens | the faucet's parts, taken alone |
| Faucet, OneDrip, Durable, Slots, Undisturbed | the faucet under concurrency; one request with nothing in between |
| Fingerprint | the fingerprint text |

## Main results

1. Over every interleaving of deliveries, storage faults, crashes, restarts, boot repairs and pruning, no
   stored block descends from a refused one, and what a hash names is the same wherever it is stored
   (`World.RefusedBranchesNeverReturn`, `World.StoredContentAgrees`).
2. `admit` answers and writes exactly as a law over the fields of the block and the stores says
   (`Law.AdmitsExactly`, `Law.AnswersExactly`, `Law.CheckpointDecides`). An answer of "admitted" means both
   stores, and one uninterrupted delivery completes any half-written block for good
   (`World.AdmittedMeansBothStores`, `World.OneDeliveryCompletes`).
3. A settled batch is the least closed extension of the DAG. Its order decides which hashes are stored if
   and only if some block it could gain is one that a chain of its own blocks could make the node refuse
   (`LeastFixpoint.SettledIsLeast`, `Order.OrderMattersExactly`). Otherwise every order stores the same
   hashes with the content they commit to. What the batch reports is exactly what it completed
   (`LeastFixpoint.SettledTallies`), and the order decides which new block of a height is indexed
   if and only if two of them can each be left to the end (`Order.OrderDoesNotMatter`,
   `Siblings.IndexDependsExactly`).
4. The pruning floor only rises, and pruning cannot be seen from outside except in exactly described
   refusals: before the first pass whatever is delivered, and then as long as new blocks lie within 800
   heights of the applied height (`Pruning.FloorOnlyRises`, `Invisible.PruningIsInvisible`,
   `Invisible.RunsInReachAreWellFed`).
5. Boot repair settles every height, adds to the DAG exactly what can be read off the stores beforehand,
   and is idempotent (`Reconcile.EveryHeightIsSettled`, `Reconcile.RepairAddsExactly`,
   `Reconcile.SecondPassIsIdle`).
6. Cold sync converges in at most as many rounds as there are heights, whatever the caps of the answers cut
   off, with the orphan buffer for any server and without it for a height-ordered one
   (`Buffered.Converges`, `ColdSync.ConvergesInOrder`), with the exact condition for one round
   (`ColdSync.RoundExact`) and an input that needs it (`ColdSync.HeightOrderIsNeeded`).
7. One drip per address and per IP in a window, over every interleaving of requests from any loaded state,
   and in required mode across any number of restarts; refused and failed requests leave no trace
   (`OneDrip.OneDripPerWindow`, `Durable.OneDripAcrossRestarts`, `OneDrip.OnlyHoldersCool`).
8. The cooldown file never goes back in time and covers every finished drip while healthy
   (`Durable.DiskNeverGoesBack`, `Durable.DiskCoversDrips`); the cap's queue refines an ever-growing
   ledger, no window overflows, and under concurrency at most the maximum of requests hold a slot
   (`GlobalCap.QueueRefinesLedger`, `GlobalCap.NoWindowOverfull`, `Slots.AtMostMaxHold`).
9. One undisturbed request's atomic steps are one call of `request_tokens`
   (`Undisturbed.UndisturbedIsRequest`).
10. The fingerprint text determines every consensus input (`Fingerprint.PreimageInjective`).

## Idealisations

- Hashing is collision-free (`Blocks.Collisionless`), and no block hashes to the zero sentinel.
  Signature, VRF and serialized-size functions are parameters of `Blocks.Rules`. Transactions, sidecar
  fields and the header fields no rule reads are opaque tokens.
- Heights, scores, times and byte counts are unbounded; the one truncation the code relies on (the
  item count cast to 32 bits while serving) is written out. A saturating subtraction is written out
  wherever it can matter.
- Each write of a block to a store is atomic. Deletions are not grouped: in `World` a pruning pass may stop
  after any of the blocks below the floor. The gate reads the DAG in one step.
- The configured genesis hash is always known to the node.
- Score or state application after both writes is not modelled: its failure changes no outcome
  (node/src/admission.rs:603-659).
- The faucet's clock never runs backwards. A send that returns an error has not reached the chain, as
  the handler assumes; an answer that is neither a result nor an error may have.

## Where the code and its own words differ

- node/src/block_serve.rs:166-168 says every parent is strictly lower than its child. The gate bounds a
  merge parent's blue score, not its height, so this can fail: `ColdSync.HigherMergeParent` builds such
  a DAG. A parent is then served before its child if and only if it is lower, or level with a smaller hash
  (`Serve.ParentsServedFirst`). `ColdSync.RoundExact` says exactly when a round leaves nothing behind,
  and `ColdSync.HeightOrderIsNeeded` is a server and an answer after which a block stays deferred. The
  handler's orphan buffer makes up for it: `Buffered.Converges` needs no height order.
- `withdrawn_reason` remembers the hash a copy claims before that hash is checked, and before it is asked
  whether the block is stored already. So the order of a batch can decide which hashes are stored: a forged copy, or an honest
  re-delivery of a stored block built on a withdrawn one, can keep an admissible block out if it comes
  first (`Order.ForgedCopyMatters`, `Order.HonestCopyMatters`, `Order.OrderCanMatter`).
  `Order.OrderMattersExactly` is the exact condition for any batch. Batches whose hashes recompute, as
  network ingress checks (core/network/src/gossip.rs:696, core/network/src/sync.rs:677), meet it on every
  node that unpruned runs of such deliveries lead to (`Reachable.ReachableNodesAreClean`).
- The height index is last-writer-wins and the first of several copies of a hash is kept, so order decides
  these even where it does not decide which hashes are stored (`Siblings.IndexCanDependOnOrder`,
  `Siblings.FirstCopyIsKept`). `Siblings.IndexDependsExactly` is the exact condition for the index; kept
  copies always agree on what the hash commits to (`Order.OrderDoesNotMatter`).
- A pruned and an unpruned node can answer a block differently: exactly when the gate gets as far as a
  parent that was dropped (one rejects the block, the other waits for the parent), or when an altered copy
  of a dropped block claims a height above the floor (`Invisible.Differ`). Neither node ever admits such a
  block. `Invisible.AnswersCanDiffer` finds one for any two nodes of which one has dropped a block that is
  not withdrawn, and `Invisible.DroppingRun` is a run to two such nodes.
- The faucet reads the clock before it takes the cooldown lock, so a stamp can be older than the moment
  of the reservation. Windows run from the time a drip leaves behind (its record, or its stamp while
  unrecorded) to the later reservation (`OneDrip.OneDripPerWindow`). From reservation to reservation they
  hold when the earlier drip was recorded or its stamp was fresh, whatever the later one did; otherwise
  they fall short by as much as the stamp was stale, and `OneDrip.StaleStampsComeCloser` is a run that attains this for every staleness.
- Reservations are kept in memory only, so a crash forgets a drip whose answer was unclear: the disk can
  grant its address again at once (`Durable.UnclearDripIsForgotten`). Finished drips are kept
  (`Durable.OneDripAcrossRestarts`).
- A release later than the window would remove a newer reservation of the same key;
  `OneDrip.LateReleaseExactly` gives the exact condition.
- Under strict VRF `reconcile` can leave an indexed block out of the DAG
  (`Reconcile.VrfCanLeaveOut`): exactly when neither it nor, in turn, the selected parents it would have to
  be checked against are held or brought in (`Reconcile.Mends`, `Reconcile.RepairAddsExactly`).

## Model

| member | source | states |
|---|---|---|
| Blocks.SidecarIngest | node/src/admission.rs:120-137 | the stored copy keeps hash and header; above height 0 its hash recomputes |
| Blocks.IngestIsCanonical | node/src/admission.rs:83-137 | what passes the body and the sidecar check is stored as a canonical copy, whatever copy was delivered |
| Blocks.StoredContentIsTheCommittedContent | node/src/admission.rs:83-137 | two canonical copies of one hash agree on all the hash commits to; at hardened heights on everything but the seal |
| Blocks.SidecarsAreCoveredFrom | node/src/admission.rs:120-137 | the hash covers the sidecars exactly from the activation height on, never at genesis |
| Gate.PassMeans | core/consensus/src/ghostdag.rs:1012-1172 | the gate accepts exactly genesis and the blocks whose parents are few, different and held, one height up, no earlier and at most an hour later once hardened, within the blue-score band, at a million work each, with merge parents no bluer and at most 100 heights down |
| Gate.MissingExactly | core/consensus/src/ghostdag.rs:1012-1172 | the gate waits exactly when the selected parent is absent, or the block extends it and the first merge parent that does not fit is absent; that parent is named |
| Gate.LaterChildPasses | core/consensus/src/ghostdag.rs:1077-1110 | a plain child of a held block passes exactly from its parent's time on and, once hardened, up to an hour later |
| Gate.PassParents | core/consensus/src/ghostdag.rs:1012-1172 | an accepted block's parents are held, at lower blue score, the selected one exactly one height down and no later, none more than 100 heights down |
| Gate.MissingMeans | core/consensus/src/ghostdag.rs:1012-1172 | a missing-parent verdict names a parent of the block that the store lacks |
| Gate.VerdictStable | core/consensus/src/ghostdag.rs:1012-1172 | acceptance and refusal survive any growth of the store; only "missing" can change |
| Gate.VerdictFrame | core/consensus/src/ghostdag.rs:1012-1172 | the verdict depends only on the block and the headers held for its own parents |
| Stores.PutKeepsChainOk | core/storage/src/chain/block_store.rs:87-160 | writing a block keeps the height index and the latest height right |
| Stores.BlockStore.PutBlock | core/storage/src/chain/block_store.rs:87-160 | block, last-writer-wins height index and latest height after one write |
| Stores.CanonicalAt | core/storage/src/chain/block_store.rs:224-247 | the canonical lookup answers with a stored block of that height or with nothing |
| Stores.CanonicalMeans | core/storage/src/chain/block_store.rs:224-247 | above the applied tip it is the last block written at that height; at or below, the applied tip's own ancestor, whenever there is one |
| Stores.DagStore.StoreBlock | core/consensus/src/dag_store.rs:939-965 | stored, already there, or refused by strict VRF; only the first changes the store |
| Stores.DagStore.HasTips | core/consensus/src/dag_store.rs:1199-1203 | true exactly when some stored block is no stored block's parent |
| Stores.DagStore.UpdatePruningPoint | core/consensus/src/dag_store.rs:1237-1246 | moves only to a held block |
| Stores.DagStore.Prune | core/consensus/src/dag_store.rs:1249-1297 | keeps exactly the blocks at or above the pruning point's height and counts the rest |
| Admission.AdmitEffect | node/src/admission.rs:459-659 | a delivery writes only a cleared, unrefused block, only under its own hash, as its ingest copy, to both stores, and otherwise changes at most the withdrawn set |
| Admission.AdmitKeepsSound | node/src/admission.rs:459-659 | every stored copy stays canonical and under its own hash, and the height index right |
| Admission.BlockAdmission.WithdrawnReason | node/src/admission.rs:407-432 | refuses a withdrawn block or a child of one and remembers the latter while there is room |
| Admission.BlockAdmission.Admit | node/src/admission.rs:459-659 | the source's order of checks and writes computes the specified outcome and stores |
| Law.AdmitsExactly | node/src/admission.rs:459-659 | a block is admitted if and only if it is neither refused nor had, is the root or links to good parents, is genuine and elected, all over raw fields; then both stores hold the written copy and nothing else changed |
| Law.AnswersExactly | node/src/admission.rs:459-659 | already admitted exactly when held (or pruned away) and not refused; deferred exactly when the gate lacks a parent, which is named |
| Law.RefusalWritesNothing | node/src/admission.rs:407-432 | no other answer writes a block; the withdrawn set grows exactly by a child of a withdrawn block, up to a million |
| Law.CheckpointDecides | node/src/admission.rs:363-378 | at a checkpoint height every other hash is rejected and changes neither store, and the named block is answered as without checkpoints |
| Law.NoCheckpointHere | node/src/admission.rs:363-378 | at any other height checkpoints change no answer |
| Fixpoint.AdmitToFixpoint | node/src/admission.rs:669-727 | the nested loops terminate and compute the specified run, its count, highest block, deferred blocks and waiting record |
| LeastFixpoint.SettledIsClosed | node/src/admission.rs:669-727 | after the loop every admissible block of the batch that the run has not come to refuse is in both stores; the waiting record has exactly the deferred hashes, each with the height and the absent parent the gate names for such a block |
| LeastFixpoint.SettledIsLeast | node/src/admission.rs:669-727 | every extension of the DAG closed under admitting the batch contains what the loop stored, with no condition on the batch |
| LeastFixpoint.SettledTallies | node/src/admission.rs:684-692 | the count is the number of blocks completed in both stores, there is a highest exactly when there are any, and no completed block is higher |
| LeastFixpoint.FixpointKeepsOrder | node/src/admission.rs:697-712 | what is left over is in the order of arrival |
| Siblings.FirstHighestIsReported | node/src/admission.rs:688-691 | of equally high blocks the first delivered is reported as the highest |
| Order.AtMostHarvest | node/src/admission.rs:669-727 | no order of a batch stores more than admitting whatever can be admitted, with nothing refused meanwhile |
| Order.OrderDoesNotMatter | node/src/admission.rs:669-727 | for an unhit batch every order and repetition stores exactly the hashes of that harvest in both stores, each with the content its hash commits to, and indexes the same heights |
| Order.OrderMattersExactly | node/src/admission.rs:407-432 | two reorderings of a batch can end with different hashes stored if and only if some block it could gain is one that a chain of its blocks, within the cap, could make the node refuse |
| Order.CleanIsUnhit | node/src/admission.rs:407-432 | with nothing withdrawn, or with honest copies against untainted and parent-closed stores, the set of stored hashes does not depend on the order |
| Order.ForgedCopyMatters | node/src/admission.rs:407-432 | a copy claiming an admissible block's hash and a withdrawn parent makes the order decide which hashes are stored |
| Order.HonestCopyMatters | node/src/admission.rs:407-432 | so does an honest copy of a parent built on a withdrawn block |
| Order.OrderCanMatter | node/src/admission.rs:459-475 | a node and two honest copies whose order decides which hashes are stored |
| Siblings.IndexDependsExactly | core/storage/src/chain/block_store.rs:87-160 | for an unhit batch the block indexed at a height can depend on the order if and only if two of the blocks gained there can each be left out without losing another of them |
| Siblings.LastSiblingIsIndexed | core/storage/src/chain/block_store.rs:87-160 | of two new blocks of one height, both admissible at once, the index names the one delivered last |
| Siblings.IndexCanDependOnOrder | core/storage/src/chain/block_store.rs:87-160 | two honest siblings on genesis, nothing withdrawn, whose order decides the index |
| Siblings.FirstCopyIsKept | node/src/admission.rs:491-629 | of two admissible copies of one hash, both stores keep the ingest copy of the first delivered |
| Crash.StepsComposeToAdmit | node/src/admission.rs:459-659 | the atomic steps of one delivery, uninterrupted, are `admit` |
| World.FreshInv | node/src/admission.rs:308-330 | a fresh node satisfies the invariant of all runs |
| World.ExecInv | node/src/admission.rs:459-659 | deliveries, steps, faults, restarts, repairs and pruning, in any order, keep it |
| World.RefusedBranchesNeverReturn | node/src/admission.rs:363-432 | in every run no stored block is, or descends at any depth from, a recorded block or a block whose hash is not that of the first checkpoint entry for its height |
| World.LineageIsOrderly | core/consensus/src/ghostdag.rs:1065-1110 | along the selected parents of any stored block, to any depth and in every run, heights count down by one, blue scores fall, times never rise, and through hardened heights fall by at most an hour a block |
| World.StoredBlocksAreGenuine | node/src/admission.rs:83-137 | every stored block of every run is under its own hash, genuine, and in the form in which it is written |
| World.StoredContentAgrees | node/src/admission.rs:565-629 | any two stored copies of one hash, in either store, on any two nodes, after any runs, agree on what the hash commits to |
| World.AdmittedMeansBothStores | node/src/admission.rs:459-659 | without pruning, over every interleaving, no store loses a block and an answer of admitted or already admitted means both stores |
| World.InterruptionsWriteNothing | node/src/admission.rs:308-330 | a fault ends one delivery as rejected, a restart ends all and forgets what was not recorded; neither touches a stored block |
| World.CopiesComplete | node/src/admission.rs:810-880 | one repair write completes its block, into the index or, exactly if the DAG store admits it, into the DAG |
| World.ChainOnlyGrows | node/src/admission.rs:459-659 | with pruning too, the chain store only grows |
| World.OneDeliveryCompletes | node/src/admission.rs:459-659 | from any half-written state one uninterrupted delivery reaches both stores for good, and later deliveries of the hash answer already admitted exactly unless refused |
| Reconcile.CompleteHeight | node/src/admission.rs:810-853 | all DAG blocks of a lost height are written to the chain store and the index names one of them |
| Reconcile.RepairChain | node/src/admission.rs:810-853 | every height above the applied tip that lost its index entry is filled from the DAG or reported as a gap |
| Reconcile.RepairDag | node/src/admission.rs:854-880 | every indexed block above the applied tip is in the DAG afterwards unless strict VRF refuses it |
| Reconcile.Repair | node/src/admission.rs:790-899 | one pass: stores and report as specified |
| Reconcile.EveryHeightIsSettled | node/src/admission.rs:790-899 | each height above the applied tip is a reported gap that neither store holds, or indexed to a chain block that the DAG holds too if and only if it mends; always with strict VRF off |
| Reconcile.RepairAddsExactly | node/src/admission.rs:854-880 | after a pass the DAG holds exactly the blocks that mend, a condition on the stores before it |
| Reconcile.VrfCanLeaveOut | node/src/admission.rs:854-880 | a node, strict VRF on, with an indexed height that repair leaves out of the DAG |
| Reconcile.SecondPassIsIdle | node/src/admission.rs:790-899 | a second pass changes nothing and reports the same gaps |
| Reconcile.SeedGenesis | node/src/admission.rs:744-777 | computes the specified seeding |
| Reconcile.SeedsEmpty | node/src/admission.rs:744-777 | into an empty DAG the archive's genesis is stored, under either VRF setting |
| Reconcile.SeedsExactly | node/src/admission.rs:744-777 | without a tip, the archive's height-0 block is stored exactly if the DAG lacks it and admits it, and nothing else changes |
| Reconcile.SeedingIsIdle | node/src/admission.rs:744-777 | a node with a tip is left alone, and a second seeding changes nothing |
| Pruning.PruningPointHeight | node/src/dag_prune.rs:89-102 | the point lies exactly the larger of the window and 1000 below the applied height; there is one exactly when that is above 0 |
| Pruning.PruneOnce | node/src/dag_prune.rs:125-169 | computes the specified pass and counts what it dropped |
| Pruning.PruneKeepsTheWindow | node/src/dag_prune.rs:125-169 | exactly the blocks from the canonical one just below the window upwards stay, and it is the new pruning point; otherwise nothing changes |
| Pruning.PruneIsRun | node/src/dag_prune.rs:125-169 | a whole pass is a run of the single steps that crashes may separate |
| Pruning.SeedIsRun | node/src/admission.rs:744-777 | so is seeding |
| Pruning.RunsAreMendable | node/src/admission.rs:790-899 | every state of every run meets the hypotheses of the repair theorems |
| Pruning.RepairKeepsFloorExactly | node/src/admission.rs:854-880 | under either VRF setting, a repair keeps the floor clean if and only if no block the archive indexes between the applied tip and the floor mends |
| Pruning.FloorOnlyRises | node/src/dag_prune.rs:125-169 | over every run of whole operations no DAG holds a block below the floor of that or any earlier state |
| Invisible.StoredAnswers | node/src/admission.rs:491-529 | a stored block is answered already admitted, by the pruned node exactly while held or claimed below the floor |
| Invisible.NewBlockAnswers | node/src/admission.rs:459-659 | a new block, anywhere before the first pruning and near the tip after it, gets equal answers, unless it is unrefused and the gate reaches a dropped parent: then rejected by one, deferred on that parent by the other |
| Invisible.TwinsStart | node/src/admission.rs:744-777 | a fresh node, seeded, has genesis in both stores and is its own twin, where both begin |
| Invisible.PruneKeepsTwins | node/src/dag_prune.rs:28-53 | a pruning pass keeps the two nodes equal above the floor; a block within 800 heights of the applied height stays near |
| Invisible.PruningIsInvisible | node/src/admission.rs:491-529 | along every run of deliveries of stored or near blocks, in any copies, and prunings at any moments, archives stay equal and the two answers are equal if and only if `Differ` fails; when they differ neither node admits |
| Invisible.AnswersCanDiffer | core/consensus/src/ghostdag.rs:1012-1172 | for any twins of which one dropped a block that is not withdrawn, an honest copy near the tip that one rejects and the other defers |
| Invisible.RunsInReachAreWellFed | node/src/dag_prune.rs:28-53 | from nodes that have not pruned, every run whose new blocks lie at most 800 heights below the applied height of any pruning pass so far, under the merge-depth rule, is one the invisibility theorem covers |
| Invisible.DroppingRun | node/src/dag_prune.rs:125-169 | such a run from a freshly seeded pair, in which blocks are stored and pruning drops genesis |
| Serve.SortedRows | node/src/block_serve.rs:217-226 | the stored rows of a height range, each once, by height then hash |
| Serve.GatherGroup | node/src/block_serve.rs:241-267 | the whole sibling group with its size, or the news that a row is unreadable |
| Serve.LinearAnswer | node/src/block_serve.rs:202-308 | on a readable chain of one block a height, a request for at least two blocks with room above the anchor is answered with exactly the next ones, as many as asked and at most 512, if they fit 60 KiB |
| Serve.ServeBlocks | node/src/block_serve.rs:202-308 | nothing for an unknown anchor; otherwise the answer is the complete groups of consecutive heights from the anchor's own (from 0 for the zero hash), at most two or within both caps, and stops only for a stated reason |
| Serve.CompleteIsUnique | node/src/block_serve.rs:222-226 | content and order of an answer are fixed by the stored set alone |
| Serve.ParentsServedFirst | node/src/block_serve.rs:163-170 | a served parent comes before its child if and only if it is lower, or level with a smaller hash; always where parents are lower than children |
| Serve.AnswerReachesNextHeight | node/src/block_serve.rs:194-198 | whatever the caps, the answer reaches the height above the anchor's unless that is the tip |
| Serve.LongAnswersFitOneMessage | node/src/block_serve.rs:43-64 | an answer of more than two groups fits one encrypted message with wrapper and tag |
| ColdSync.RoundExact | node/src/admission.rs:669-727 | a served batch leaves nothing deferred if and only if each block the requester lacks has its parents held or served beside it; then all of it is stored |
| ColdSync.RoundProgress | node/src/block_serve.rs:202-308 | one round defers nothing and completes every height it served, at least one above the anchor |
| ColdSync.ConvergesInOrder | node/src/block_serve.rs:202-308 | without a buffer, from a server whose parents are lower than their children: after as many rounds as heights above the first anchor the requester holds every server block in both stores |
| Buffered.MessageTracks | node/src/main.rs:3979-4074 | a message that fits the buffer's caps leaves every server block up to the end of the answer stored, or waiting in the buffer for a parent that is really absent |
| Buffered.Converges | node/src/main.rs:3979-4074 | with the orphan buffer, from any server: once an answer ends at the tip, and after as many rounds as heights above the first anchor, every server block is in both stores and the buffer is empty |
| Reachable.ReachableNodesAreReady | node/src/admission.rs:459-659 | nodes of interrupted, unpruned runs, whatever was withdrawn, meet the hypotheses of the batch and sync theorems |
| Reachable.ReachableNodesAreClean | node/src/admission.rs:407-432 | with honest deliveries their stores are also untainted and parent-closed, so the hashes an honest batch stores do not depend on its order |
| ColdSync.HigherMergeParent | core/consensus/src/ghostdag.rs:1012-1172 | the gate accepts a DAG in which a merge parent is higher than its child |
| ColdSync.HeightOrderIsNeeded | node/src/block_serve.rs:163-170 | a server without height order and an answer, otherwise as the theorem asks, that leaves a block deferred |
| Orphans.BoundOrphanBuffer | node/src/admission.rs:921-947 | the longest prefix of the height-ordered first copies that fits both caps |
| Orphans.BufferCaps | node/src/admission.rs:921-947 | at most 20 000 blocks and 64 MiB are kept, and a block is dropped only when one of the two would be exceeded |
| Orphans.FirstCopiesMeans | node/src/admission.rs:921-928 | exactly the first copy of every hash, no hash twice |
| Orphans.ByHeightIsStable | node/src/admission.rs:930-931 | sorted by height, arrival order within a height, same members |
| Orphans.NeverDropsLower | node/src/admission.rs:933-946 | nothing kept is higher than anything dropped; within a height the earliest arrivals are kept |
| Orphans.KeptIsDistinct | node/src/admission.rs:921-947 | the buffer is sorted and duplicate-free, and keeps every hash when all fits |
| LogBudget.Budget.CheckAt | node/src/admission.rs:186-209 | the uncontended call computes the specified counters and decision |
| LogBudget.WindowLogsItsBudget | node/src/admission.rs:139-209 | for calls at non-decreasing times each window of so many seconds logs exactly its first events up to the budget |
| LogBudget.NoEventIsLost | node/src/admission.rs:186-209 | under every interleaving of the atomic steps, suppressed events are those reported at rolls plus those still counted |
| LogBudget.UndisturbedIsAccount | node/src/admission.rs:186-209 | one call's atomic steps, undisturbed, are the sequential operation |
| GlobalCap.Cap.Prune | faucet/src/limits.rs:62-70 | drops the expired grants at the front and no other |
| GlobalCap.Cap.TryTake | faucet/src/limits.rs:73-87 | grants and appends, or refuses with the retry time |
| GlobalCap.Cap.GiveBack | faucet/src/limits.rs:90-95 | removes the last grant of that second, if any |
| GlobalCap.Cap.InWindow | faucet/src/limits.rs:98-102 | the size of the pruned queue |
| GlobalCap.QueueRefinesLedger | faucet/src/limits.rs:62-102 | over every timely run the queue is the unexpired part of a ledger that drops nothing, and answers as the ledger does |
| GlobalCap.NoWindowOverfull | faucet/src/limits.rs:62-102 | no window holds more than the maximum of unreturned grants |
| GlobalCap.ReturnRemovesOne | faucet/src/limits.rs:90-95 | a give-back removes one grant of its own second, or nothing once expired |
| GlobalCap.RetryIsExact | faucet/src/limits.rs:73-87 | with nothing given back, a later take succeeds if and only if the reported time has come |
| GlobalCap.RetryIsInRange | faucet/src/limits.rs:73-87 | a refusal names at least one second and at most a window |
| GlobalCap.WithoutLastShape | faucet/src/limits.rs:90-95 | the grant given back is the last of its second |
| Cooldowns.Check | faucet/src/cooldowns.rs:321-345 | allowed exactly when neither key is cooling |
| Cooldowns.CheckExactly | faucet/src/cooldowns.rs:321-345 | the address is asked first, and the denial names the rest of the window |
| Cooldowns.RestIsExact | faucet/src/cooldowns.rs:321-345 | with the state as it is, the same refusal lasts until the named time and no longer |
| Cooldowns.Cooldowns.RecoverPersistence | faucet/src/cooldowns.rs:184-212 | healthy again exactly after a successful write; the disk then holds the present state |
| Cooldowns.Cooldowns.TryReserve | faucet/src/cooldowns.rs:243-258 | refuses while the required disk copy cannot be written, otherwise checks and marks both keys at once |
| Cooldowns.Cooldowns.Release | faucet/src/cooldowns.rs:262-269 | removes both entries |
| Cooldowns.Cooldowns.RecordSuccess | faucet/src/cooldowns.rs:273-309 | re-stamps both entries, publishes the state, and drops the health flag on a failed required write |
| Cooldowns.FailedDripLeavesNoTrace | faucet/src/cooldowns.rs:262-269 | reserve then release, whatever callers of other keys did meanwhile, answers every later check as if the request had not been made; `OneDrip.OnlyHoldersCool` covers callers that share a key |
| RequestTokens.ReleaseSlots | faucet/src/main.rs:877-887 | undoes the reservation and returns the cap slot |
| RequestTokens.RequestTokens | faucet/src/main.rs:889-1174 | which exit is taken, exactly, and the health flag; on every exit path: a denied or unsent request leaves later checks and cap slots as they were; a sent or unclear one cools both keys and keeps its slot |
| Faucet.NextLogOk | faucet/src/cooldowns.rs:117-120 | every step keeps the disk equal to a past state and never moves it to an earlier one |
| Undisturbed.UndisturbedIsRequest | faucet/src/main.rs:889-1174 | one request's atomic steps, with nothing in between, end with the answer, cooldown state, disk copy, health and cap of one sequential call, and change nothing else |
| Undisturbed.FinishIsRun | faucet/src/main.rs:889-1174 | such a request is a run of the interleaved model |
| Undisturbed.HealthyRecoveryIsIdle | faucet/src/cooldowns.rs:184-212 | a recovery that finds the health restored while it waited writes nothing |
| OneDrip.ExecKindInv | faucet/src/main.rs:1009-1174 | over every timely interleaving from any loaded state, the cooldown state mirrors exactly the requests that hold a reservation or a drip and the loaded entries still cooling |
| OneDrip.OneDripPerWindow | faucet/src/cooldowns.rs:243-309 | of two drips of one address (or one IP) that reached the chain or may have, the later reservation was made at least a window after the time the earlier left behind, and at least a window after the earlier reservation when that was recorded or freshly stamped |
| OneDrip.StaleStampsComeCloser | faucet/src/cooldowns.rs:243-258 | for every window and staleness, a timely run whose reservations are that much less than a window apart |
| OneDrip.OnlyHoldersCool | faucet/src/main.rs:1009-1174 | at any later time a key is refused if and only if a holder or drip of that key, or its loaded entry, is within its window; failed requests have no say |
| OneDrip.LateReleaseExactly | faucet/src/cooldowns.rs:262-269 | a release keeps the books right if and only if no other holder of the key is within its window |
| Durable.DiskNeverGoesBack | faucet/src/cooldowns.rs:117-120 | the disk always holds a past state, and later writes publish later states |
| Durable.DiskCoversDrips | faucet/src/cooldowns.rs:273-309 | in required mode, whenever healthy, the disk carries every finished drip still cooling, so a restart refuses it |
| Durable.OneDripAcrossRestarts | faucet/src/cooldowns.rs:152-176 | in required mode, through any number of restarts at any moments, every reservation in a later life is at least a window after a drip finished in a life that ended healthy |
| Durable.UnclearDripIsForgotten | faucet/src/cooldowns.rs:236-258 | a timely run in which a drip that may have reached the chain is not on the disk, which grants its keys again at any time |
| Slots.ExecSlotInv | faucet/src/main.rs:1030-1042 | at every moment each unexpired second has as many queued slots as requests holding one of that second |
| Slots.SlotsAreDrips | faucet/src/main.rs:877-887 | with no request in flight, unexpired cap slots number exactly the unexpired successful and ambiguous drips |
| Slots.StatusPrunes | faucet/src/limits.rs:98-102 | a status request drops expired grants from the front until one is not, and nothing else |
| Slots.AtMostMaxHold | faucet/src/main.rs:1030-1042 | at every moment of every interleaving at most the maximum of requests hold an unexpired slot |
| Fingerprint.PreimageIsText | node/src/consensus_manifest.rs:79-140 | the text is a tag line and one line per field, in v3 and v4 form |
| Fingerprint.PreimageReads | node/src/consensus_manifest.rs:79-140 | the text is the format string, with or without the two lines and the tag of a binding |
| Fingerprint.DecimalReads | node/src/consensus_manifest.rs:79-140 | a printed number reads back as itself, without leading zeros |
| Fingerprint.JoinReads | node/src/consensus_manifest.rs:79-140 | rule names are joined in order with one bar between neighbours |
| Fingerprint.PreimageInjective | node/src/consensus_manifest.rs:79-140 | equal text means equal inputs in every field, across all optional heights and both forms |
| Fingerprint.UncleanNamesCollide | node/src/consensus_manifest.rs:79-140 | rule names with a bar, or empty ones, print like another list |

## Left out

- `serve_headers` and `collect_bounded`: one header per height under simpler caps; it would add only easier members.
- GhostDAG blue-set scoring, VRF and signature cryptography, hashing and canonical application: abstract predicates stand for them.
- The withdraw-and-rollback command itself: the withdrawn set it records is an input.
- The corner in which a block header of the first version leaves a coinbase field outside the hash.
- File handling of the cooldown file (temporary files, permissions, parsing): a write either publishes its snapshot or not, and either reports success or not.
- Turnstile, membership, address whitelist, readiness, RPC and transaction building in the faucet: they decide only whether a request gets as far as the reservation, or which of its exits it takes.
- The hourly cap across faucet restarts: the queue lives in memory only, so each process starts with an empty one.
- Buffered.Converges: is for messages in which the buffer's caps drop nothing, because a block dropped for want of room is gone until some later answer brings it again; `Orphans.NeverDropsLower` says which blocks those are.
- Past windows of the cap under out-of-order clock readings: `GlobalCap.NoWindowOverfull` is for non-decreasing times; under concurrency the current window is bounded (`Slots.AtMostMaxHold`).
- GlobalCap.QueueRefinesLedger: is for a window of at least one second, because the only configured window is one hour.
- Relaxed memory ordering between the log budget's three counters: each interleaving is sequentially consistent.
- Reconcile.Repair: runs without storage faults; faults at any write are covered by the action-by-action runs of `World`.
- Log text and message formatting.
