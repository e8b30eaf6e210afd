# A verified model of nimiq core-rs-albatross

This Dafny project models the parts of the repository whose correctness is hardest to see from the
code, and proves what they are for. Every result is for all inputs, all runs or all reachable states.

- **Handel signature aggregation** (`Handel*.dfy`). Each node is a state machine over its store,
  levels and todo list; a network is any interleaving of their turns over the messages sent, which
  may be lost, repeated and reordered. The inductive heart is geometric: what a sender covers below
  level l is exactly the receiver's range at level l. From it follow that no run ever panics, that
  levels never overlap, that a level is marked as completed exactly when it is full, that emitted
  aggregates grow strictly, that a node left alone runs out of useful work, and that the network has
  nothing left to say exactly when every node knows every contribution. What is sent to whom, and what
  every contribution scores, is stated exactly, and from it when a network can still learn something.
- **Mempool** (`Mempool*.dfy`). Four indexes over one transaction set, greedy admission against the
  sender's account, eviction and restoration. The invariant is carried over whole runs of pushes,
  moves of the head and blockchain events, also where a push comes between the two. Which transactions
  are admitted, evicted, restored and held after each operation is stated exactly.
- **Accounts** (`Accounts*.dfy`). Committing a block in six phases and reverting it with its own
  receipts, although reverting replays senders and recipients in forward order. Proved for all
  operations that invert and commute with later ones, and then as an exact condition for the accounts
  of the repository. Every verified block on basic, vesting and hashed time-locked accounts meets it;
  a block that touches the staking contract meets it exactly if its stakes are restorable. Who pays
  whom, and what every address, staker and validator holds after a block, is read off its transactions.
- **Collections** (`LinkedList.dfy`, `UniqueLinkedList.dfy`, `LimitHashSet.dfy`, `SegmentTree.dfy`,
  `BitSet*.dfy`) against sequences, histories, linear scans and finite sets.
- **Codecs** (`Uvar*.dfy`, `BigEndian.dfy`, `Iban.dfy`, `Base32.dfy`, `Address*.dfy`): round trips,
  canonicity, order, error detection and the exact inputs that panic. The address check is the one of
  ISO 13616 with the MOD 97-10 system of ISO/IEC 7064.
- **Transaction cache** (`TransactionCache*.dfy`) against the union of the blocks in its window, and
  a rebranch, with its assertions and errors, against a replay of the new chain.

How the code is carried over. Code that updates state in place is a class or a method with a loop,
and its contract ties the new state to a specification function of the old one; the theorems are
about those functions. Where the program would panic, the model returns `Panic` (or `false`), so
that the absence of panics is something proved, not assumed. Errors are results. Machine words are
natural numbers with explicit bounds; shifts and bit operations are defined bit by bit in `Bits.dfy`.
Chance and the outside world are parameters: the order in which peers are shuffled, the updates that
happen to arrive, whether a signature verifies, the head of the chain, the checks of contracts that
do not concern balances.

Where code and documentation or intention part ways, the code is followed:

- `update_signature_to_send` waits for one contributor more than the levels below can provide
  (handel/src/level.rs:51-70 and 124), so the branch that sends on completion never sends:
  `Levels.ExpectedIsOneTooMany`, `AggregationInvariant.UpdateAboveKeepsInv`.
- `range` is not clipped to the number of identifiers (handel/src/partitioner.rs:85-91), so a level
  that names a missing identifier is never marked as completed, and any other level is as soon as all
  of it is gathered: `HandelNetwork.ClippedLevelsStayOpen`, `HandelNetwork.GatheredLevelCompletesIff`.
- A contribution dropped from the todo list as useless can become useful again, when the best it
  overlapped is replaced (handel/src/store.rs:84-140): `AggregationDrain.UselessMayRevive`. It can
  exactly if it shares no signer with the best of its level: `AggregationDrain.NodesDrain`.
- A level counts as complete for the evaluator when it holds `level_size` identifiers
  (handel/src/evaluator.rs:98-99 and 171), which is twice its range, so the bonus for completing a
  level above 0 is never given: `EvaluatorScores.AggregateScore`.
- A node that has finished stops sending (handel/src/aggregation.rs:266-326), so an incomplete network
  may be left without anybody who would tell the missing contribution:
  `HandelStarvation.FinishedNodeStarves`. A network can still learn exactly if something read, on its
  way or to be sent by an unfinished node enlarges a best: `HandelProgress.CanLearnIff`.
- A list of transactions that creates two contracts at one address, handed straight to
  `Accounts::commit`, commits but cannot be reverted (accounts/src/accounts.rs:317-358):
  `AccountsCoins.CreatingTwiceCommits`, `AccountsCoins.RevertRestoresIff`. No block holds such a list:
  a creation must go to the address its content hashes to
  (primitives/transaction/src/account/htlc_contract.rs:35, vesting_contract.rs:30), and block
  verification rejects duplicates (blockchain-albatross/src/blockchain/verify.rs:207-233), so every
  verified block on basic, vesting and hashed time-locked accounts can be reverted:
  `AccountsBlocks.VerifiedBlocksRevert`.
- That does not extend to the staking contract, because its receipts fit reverting in backward order
  and blocks are reverted forward. Two transactions that together empty the inactive stake of a
  staker, or two that retire stake of one staker, make a verified block that commits and is not
  restored (primitives/account/src/staking_contract/actions/staker.rs:87-226):
  `StakingFaults.UnstakingTwiceFails`, `StakingFaults.RetiringTwiceFails`. The exact condition is
  `AccountsBlocks.VerifiedBlocksRevertIff`.
- A rebranch asserts that the window misses only blocks before the first one
  (blockchain-albatross/src/blockchain/push.rs:335-338). That holds exactly if the stored chain
  reaches down to the first block or fills the window, which it does not after history sync:
  `CacheRebranch.RebranchIs`, `CacheRebranch.SyncedStorePanics`.
- The in-place operators of `BitSet` go wrong when one store reaches further than the other
  (collections/src/bitset.rs:99-117): `BitSetAssign.OrAssignMisses`, `BitSetAssign.AssignIsRightIff`.
- The address parser accepts a lower-case country code, but it panics instead of reporting an error
  (keys/src/address.rs:48-62) exactly when a text of the right length and country code holds a
  character below '0' (in builds with overflow checks), or passes the check with a character outside
  the base-32 alphabet in its address part: `AddressPanics.ParsePanicsIff`. Lower-case letters and the omitted upper-case ones
  are such characters: `AddressPanics.LowerCasePanics`, `AddressPanics.OmittedLetterPanics`.

`dafny verify dfyconfig.toml` checks the whole project.

## Model

| member | source | states |
|---|---|---|
| `Partitioner.LevelsCoverIds` | handel/src/partitioner.rs:49-57 | the number of levels is the least whose top block covers every identifier |
| `Partitioner.RangeIsPeers` | handel/src/partitioner.rs:74-94 | the range computed with shifts, masks and a flipped bit is exactly the sibling block of the node at that level |
| `Partitioner.RangesTileBlock` | handel/src/partitioner.rs:74-94 | the ranges up to a level are disjoint and make up the whole block of that level |
| `Partitioner.RangeSizes` | handel/src/partitioner.rs:70-94 | the ranges up to a level hold level_size identifiers together, and a range above level 0 holds half of them |
| `Partitioner.RangesDisjoint` | handel/src/partitioner.rs:74-94 | two different levels of one node share no identifier |
| `Partitioner.RangesTileIdSpace` | handel/src/partitioner.rs:49-94 | all ranges of a node together are [0, 2^(levels-1)) |
| `Partitioner.PeersAreMutual` | handel/src/partitioner.rs:74-94 | p is in the range of s at a level iff s is in that of p, and then what s covers below is exactly the range of p |
| `Partitioner.Combine` | handel/src/partitioner.rs:97-107 | the loop yields the union of pairwise disjoint contributions, nothing for none, and panics on any overlap |
| `ContributionStore.ReplaceStore.CheckMerge` | handel/src/store.rs:84-136 | computes the best contribution that replaces the present one, or none, panicking exactly where the source does |
| `ContributionStore.ReplaceStore.AddComplements` | handel/src/store.rs:113-129 | adds the verified individuals that are missing, one by one |
| `ContributionStore.ReplaceStore.Put` | handel/src/store.rs:142-164 | the new store is PutInto of the old one |
| `ContributionStore.ReplaceStore.Combined` | handel/src/store.rs:189-206 | returns the combination of all bests up to a level |
| `ContributionStore.NextBestKeeps` | handel/src/store.rs:84-136 | the next best is the old one or strictly larger, contains every verified individual and only old or new contributors |
| `ContributionStore.PutIs` | handel/src/store.rs:84-164 | putting never panics and changes exactly one level, in which the best becomes NextBest and the individuals match the verified set |
| `ContributionStore.PutKeepsInv` | handel/src/store.rs:84-164 | every put within range keeps the store invariant; a best is only ever replaced by a strictly larger one |
| `ContributionStore.BestUnionSize` | handel/src/store.rs:189-206 | the bests are disjoint, so the size of their union is the sum of their sizes |
| `ContributionStore.CombinedIsUnion` | handel/src/store.rs:189-206 | combined(l) never panics and is exactly the disjoint union of the bests up to l |
| `Evaluator.ScorePredictsNextBest` | handel/src/evaluator.rs:80-176 | the score is defined, no subtraction underflows, and it is positive iff the next best would be larger |
| `Evaluator.EvaluatePredictsPut` | handel/src/evaluator.rs:80-176 | for every reachable store and contribution within range, the score is positive iff put strictly enlarges the best of the level |
| `EvaluatorScores.GainIs` | handel/src/evaluator.rs:138-160 | the estimated gain of a useful aggregate is what the best really gains, and the individuals really added |
| `EvaluatorScores.AggregateScore` | handel/src/evaluator.rs:165-175 | the exact score of an aggregate that enlarges its level: 100 less per level, 10 more per contributor gained, 1 less per individual added |
| `EvaluatorScores.IndividualScore` | handel/src/evaluator.rs:108-175 | the exact score of an individual that the best does not hold: a gain of one, or its own weight |
| `EvaluatorScores.PickGainsMost` | handel/src/todo.rs:72-191 | the item picked is worth at least as much as any other useful aggregate; at its level nothing gains more unless more individuals have to be added |
| `TodoLists.TodoList.Consider` | handel/src/todo.rs:87-100 | keeps the better of two candidates by score and retains the useful loser |
| `TodoLists.TodoList.Rescore` | handel/src/todo.rs:83-104 | rescoring the whole list leaves a best candidate out and every other useful item in, and drops the useless ones |
| `TodoLists.TodoList.TakeIn` | handel/src/todo.rs:119-173 | splits an update into its aggregate and its individual contribution |
| `TodoLists.TodoList.Drain` | handel/src/todo.rs:109-176 | reads all waiting updates in order |
| `TodoLists.TodoList.PollNext` | handel/src/todo.rs:72-191 | returns an item of greatest positive score among the list and all input, or nothing if none is useful; the list keeps exactly the other useful items |
| `Levels.Level.SelectNextPeers` | handel/src/level.rs:93-112 | picks the next peers round robin and moves the position on |
| `Levels.Level.UpdateSignatureToSend` | handel/src/level.rs:114-130 | tells whether the new aggregate has the expected full size |
| `Levels.Level.Start` | handel/src/level.rs:132-134 | marks the level as started and changes nothing else |
| `Levels.CreateLevels` | handel/src/level.rs:48-81 | creates one level per range with the accumulated expected size |
| `Levels.ExpectedIsOneTooMany` | handel/src/level.rs:51-70 | the expected full size is one more than the ranges below can ever contain |
| `Levels.ExpectedExceedsLevelSize` | handel/src/level.rs:51-70 | the expected full size is level_size of the level below plus one |
| `Levels.ChosenFollowsTurn` | handel/src/level.rs:93-112 | over any number of calls the peers chosen follow the cyclic order from the present position |
| `Levels.RoundRobinReachesAll` | handel/src/level.rs:93-112 | once as many peers have been chosen as there are, every peer has been chosen |
| `Aggregation.CreateNode` | handel/src/aggregation.rs:67-113 | a created node has the value NewNode, or creation panics exactly where that does |
| `Aggregation.NextAggregation.SendUpdateTo` | handel/src/aggregation.rs:209-230 | sends the aggregate, and the own contribution where the source adds it, to the selected peers |
| `Aggregation.NextAggregation.Start` | handel/src/aggregation.rs:116-134 | the new state is StartLevel of the old one |
| `Aggregation.NextAggregation.CheckCompletedLevel` | handel/src/aggregation.rs:137-204 | the new state is CheckCompleted of the old one |
| `Aggregation.NextAggregation.Complete` | handel/src/aggregation.rs:170-183 | marks a level as completed and starts the next |
| `Aggregation.NextAggregation.UpdateFrom` | handel/src/aggregation.rs:185-203 | offers the aggregate below to every higher level |
| `Aggregation.NextAggregation.UpdateAll` | handel/src/aggregation.rs:233-248 | the periodic update is AutomaticUpdate of the old state |
| `Aggregation.NextAggregation.ActivateNext` | handel/src/aggregation.rs:251-264 | the timeout step is ActivateNextLevel of the old state |
| `Aggregation.NextAggregation.Handle` | handel/src/aggregation.rs:281-312 | storing a verified item, checking completion and combining is HandleTodo of the old state |
| `Aggregation.NextAggregation.NextTodo` | handel/src/aggregation.rs:266-326 | one turn of the event loop that reads updates is a TodoTurn |
| `AggregationInvariant.SendUpdateKeepsInv` | handel/src/aggregation.rs:209-230 | whatever is sent covers exactly the sender below its level, so the invariant holds of every message |
| `AggregationInvariant.CombinedBelow` | handel/src/aggregation.rs:116-134 | combining below a level never panics and stays within the ranges below |
| `AggregationInvariant.StartLevelKeepsInv` | handel/src/aggregation.rs:116-134 | starting any level keeps the node invariant and never panics |
| `AggregationInvariant.UpdateAboveKeepsInv` | handel/src/aggregation.rs:185-203 | offering aggregates upwards never panics and never sends anything, because the expected size is never reached |
| `AggregationInvariant.CheckCompletedKeepsInv` | handel/src/aggregation.rs:137-204 | checking completion keeps the invariant, in which completed levels hold their whole range |
| `AggregationInvariant.AutomaticUpdateKeepsInv` | handel/src/aggregation.rs:233-248 | the periodic update keeps the invariant |
| `AggregationInvariant.ActivateKeepsInv` | handel/src/aggregation.rs:251-264 | the timeout step keeps the invariant |
| `AggregationInvariant.HandleTodoKeepsInv` | handel/src/aggregation.rs:281-312 | handling a verified item keeps the invariant and never panics |
| `HandelPlaces.SenderCoversReceiver` | handel/src/partitioner.rs:74-94 | what a sender covers below a level, clipped to existing identifiers, is exactly the receiver's range at that level |
| `HandelPlaces.ReceivedItemsOk` | handel/src/update.rs:32-55 | every item taken from a message of an honest sender lies within the receiver's range of its level |
| `HandelNetwork.NewNodeInv` | handel/src/aggregation.rs:67-113 | creating a node never panics and establishes the invariant |
| `HandelNetwork.NodeTurnOk` | handel/src/aggregation.rs:233-326 | no turn of a node panics, whatever subset and order of the sent updates it reads |
| `HandelNetwork.StepKeepsInv` | handel/src/aggregation.rs:266-326 | every step of the network keeps the invariant of all nodes |
| `HandelNetwork.RunsAreSafe` | handel/src/aggregation.rs:67-326 | no run of honest nodes ever panics; the invariant holds in every state, under loss, repetition and reordering of messages |
| `HandelNetwork.LevelsStaySeparate` | handel/src/store.rs:142-206 | in every reachable state a best lies within its range and combining is the disjoint union |
| `AggregationCompletion.CheckCompletedMarks` | handel/src/aggregation.rs:137-204 | after checking a level it is marked iff it was marked before or is full, and every other mark is as it was |
| `AggregationCompletion.HandleTodoMarks` | handel/src/aggregation.rs:281-312 | handling a contribution marks its level iff that has filled up, leaves every other mark as it was, and so keeps every full level marked |
| `HandelNetwork.CompletedIffFull` | handel/src/aggregation.rs:137-204 | in every reachable state a level is marked as completed iff its best is its whole range |
| `HandelNetwork.GatheredLevelCompletesIff` | handel/src/aggregation.rs:137-204 | once every existing identifier of a level is gathered, the level is marked iff its range names no missing one |
| `HandelNetwork.ClippedLevelsStayOpen` | handel/src/partitioner.rs:85-91 | a level whose unclipped range names a missing identifier is never marked as completed |
| `HandelNetwork.EmissionsGrow` | handel/src/aggregation.rs:266-326 | emitted aggregates grow strictly, a node emits fewer than there are identifiers, and a finished node emitted all contributors |
| `HandelNetwork.NewsMakesProgress` | handel/src/aggregation.rs:266-326 | reading a verified update that would enlarge a best always emits a strictly larger aggregate |
| `HandelNetwork.RunGuarantees` | handel/src/aggregation.rs:67-326 | all of this at every moment of every run, the mark of a level as an equivalence |
| `AggregationDrain.SettledEnlargesIff` | handel/src/store.rs:84-164 | a contribution no larger than the best together with the verified individuals can enlarge the best iff they share no signer |
| `AggregationDrain.PutSettles` | handel/src/store.rs:84-164 | merging a useful contribution settles it and keeps settled ones settled |
| `AggregationDrain.UselessMayRevive` | handel/src/store.rs:84-164 | in a reachable store of node 8 of 16 a useless contribution becomes useful again once the best it overlapped is replaced |
| `AggregationDrain.TurnLearnsOrEmpties` | handel/src/aggregation.rs:266-326 | a verified turn learns something or leaves an empty list |
| `AggregationDrain.ReadIsAccounted` | handel/src/todo.rs:72-191 | every item ever read is still in the list or settled |
| `AggregationDrain.NodesDrain` | handel/src/todo.rs:72-191 | after as many silent turns as there are contributions left to learn, nothing in the list is useful, and an item ever read can enlarge its level iff it shares no signer with the best |
| `AggregationDrain.NetworkNodesSound` | handel/src/aggregation.rs:266-326 | every node of every run, with any updates sent to it, meets the premises of these results |
| `AggregationMessages.SendUpdateSends` | handel/src/aggregation.rs:206-229 | exactly one message to each of the next peers in turn, with the aggregate, the level, the sender, and its own contribution until the level is complete |
| `AggregationMessages.StartLevelSends` | handel/src/aggregation.rs:116-134 | starting a level marks it and tells its next peers all the node has below it |
| `AggregationMessages.TimeoutStarts` | handel/src/aggregation.rs:251-264 | a timeout starts the next level in order and no other |
| `AggregationMessages.TimeoutsStart` | handel/src/aggregation.rs:251-264 | after k timeouts the next k levels have been started by them, and no others |
| `AggregationMessages.AutomaticUpdateSends` | handel/src/aggregation.rs:231-249 | a periodic update tells the next peers of every level all the node has below it, in exactly as many messages |
| `AggregationMessages.AutomaticUpdateOnlyNews` | handel/src/aggregation.rs:231-249 | and sends nothing else |
| `AggregationMessages.PeriodicTellsAll` | handel/src/level.rs:93-112 | as many periodic updates as a level has peers tell every peer of it |
| `AggregationMessages.CheckCompletedSends` | handel/src/aggregation.rs:137-204 | checking a level sends something only when it completes it: to the next peers of the level above |
| `AggregationMessages.HandleTodoSends` | handel/src/aggregation.rs:281-312 | the messages that handling a contribution makes a node send, and their number |
| `AggregationMessages.UpdateSignatureSends` | handel/src/level.rs:114-130 | when a level reports a complete aggregate, and what it notes |
| `AggregationMessages.UpdateAboveNotes` | handel/src/aggregation.rs:180-204 | every level above notes the size of what is below it |
| `HandelProgress.InFlightItems` | handel/src/todo.rs:109-176 | whatever has been sent to a node comes out as exactly the contributions it carries |
| `HandelProgress.NewNodeReady` | handel/src/aggregation.rs:67-113 | before its first check a new node holds its own contribution, which completes level 0, so that the check tells the next peers of level 1 |
| `HandelProgress.IncompleteGetsNews` | handel/src/aggregation.rs:231-249 | an incomplete network in which no node has finished gets an update on its way that enlarges a best |
| `HandelProgress.DeadEndStays` | handel/src/aggregation.rs:266-326 | where nothing that is read, on its way or still to be sent by an unfinished node enlarges a best, no step teaches anybody anything |
| `HandelProgress.LearnableIsLearned` | handel/src/aggregation.rs:266-326 | otherwise some run teaches it: the news is sent if need be, and read |
| `HandelProgress.CanLearnIff` | handel/src/aggregation.rs:266-326 | a network can learn something iff some run of it does |
| `HandelStarvation.FinishedNodeStarves` | handel/src/aggregation.rs:266-326 | a network of two nodes that is incomplete and can never learn again, because the node that finished stops sending |
| `HandelCompleteness.LevelFills` | handel/src/store.rs:84-164 | a level whose peers hold all there is below and cannot enlarge it holds its whole clipped range |
| `HandelCompleteness.StuckLevelsFull` | handel/src/partitioner.rs:74-94 | where no node can tell a peer anything new, every level of every node holds all existing identifiers of its range |
| `HandelCompleteness.StuckIffComplete` | handel/src/aggregation.rs:206-249 | no node has anything below a level that would enlarge a peer there iff every node knows every contribution |
| `HandelCompleteness.RunsStopOnlyComplete` | handel/src/aggregation.rs:67-326 | at every moment of every run the network is stuck iff it is complete |
| `Transactions.MempoolLessIsOrder` | primitives/transaction/src/lib.rs:251-264 | comparing field by field is a strict total order led by the fee per byte |
| `MempoolGreedy.GreedyFits` | mempool/src/lib.rs:642-693 | what the greedy choice keeps can be applied in order to the account and respects the limit per sender |
| `MempoolGreedy.MergeTransactions` | mempool/src/lib.rs:642-693 | the merging loop returns exactly what MergeFrom prescribes |
| `MempoolGreedy.MergeIsGreedy` | mempool/src/lib.rs:642-693 | merging adds the new ones and removes the old ones that one greedy pass over the sorted union would keep and drop |
| `MempoolPush.CheckSender` | mempool/src/lib.rs:199-259 | the sender phase of a push: which error, or which transactions are evicted |
| `MempoolPush.EvictLower` | mempool/src/lib.rs:244-259 | evicts exactly those lower transactions that no longer fit |
| `MempoolPush.FreeLimitReached` | mempool/src/lib.rs:130-147 | the loop over the cheapest transactions decides whether the sender has reached the limit of free ones |
| `MempoolPush.FreeTailCountsAll` | mempool/src/lib.rs:130-147 | stopping at the first transaction with a fee counts all free ones, because the order is led by the fee |
| `MempoolPush.PushIsMerge` | mempool/src/lib.rs:199-259 | whatever is held, an admitted push keeps and evicts what merging the one new transaction would; if what is held still fits, so does a refusal other than by the filter |
| `MempoolPush.AdmitIsMerge` | mempool/src/lib.rs:199-259 | after any admission the sender's transactions apply in order and respect the limit, even if they did not before |
| `MempoolIndexes.IndexesAreDetermined` | mempool/src/lib.rs:602-640 | the sorted set determines the other three indexes |
| `MempoolIndexes.AddKeepsIndexes` | mempool/src/lib.rs:602-617 | adding keeps all four indexes describing one set |
| `MempoolIndexes.DropKeepsIndexes` | mempool/src/lib.rs:619-640 | removing keeps them so, without empty buckets |
| `Mempool.MempoolState.AddTransaction` | mempool/src/lib.rs:602-617 | the new pool is Add of the old one |
| `Mempool.MempoolState.RemoveTransaction` | mempool/src/lib.rs:619-640 | the new pool is Drop of the old one |
| `Mempool.MempoolState.RemoveFrom` | mempool/src/lib.rs:623-640 | takes a transaction out of its bucket, and the bucket out once empty |
| `Mempool.MempoolState.CheckTransaction` | mempool/src/lib.rs:97-259 | the verdict on a transaction is PushVerdict |
| `Mempool.MempoolState.PushTransaction` | mempool/src/lib.rs:97-298 | the return code and the new pool are those of PushVerdict and AfterPush |
| `Mempool.MempoolState.Scan` | mempool/src/lib.rs:436-473 | splits one sender's transactions into mined, evicted and surviving ones |
| `Mempool.MempoolState.EvictTransactions` | mempool/src/lib.rs:425-496 | exactly the transactions that survive at the head remain; mined and evicted ones are the others |
| `Mempool.MempoolState.GroupReverted` | mempool/src/lib.rs:506-547 | collects the still acceptable transactions by sender, sorted |
| `Mempool.MempoolState.RestoreSender` | mempool/src/lib.rs:553-575 | one sender's bucket becomes the greedy choice from old and restored ones; the others stay |
| `Mempool.MempoolState.RestoreTransactions` | mempool/src/lib.rs:498-600 | every bucket is merged and the pool is then cut to size |
| `MempoolRuns.TrimIsCut` | mempool/src/lib.rs:577-589 | cutting the pool to size removes a suffix of the order, so each bucket keeps a prefix |
| `MempoolRuns.AdmittedBuckets` | mempool/src/lib.rs:199-283 | after a push each bucket is the greedy choice that still fits its account |
| `MempoolRuns.PushKeepsInv` | mempool/src/lib.rs:97-298 | every push, accepted or refused, keeps the pool invariant |
| `MempoolRuns.EvictRestoresInv` | mempool/src/lib.rs:425-496 | evicting against a new head makes any pool of the right size valid for that head |
| `MempoolRuns.RestoreKeepsSizes` | mempool/src/lib.rs:498-600 | restoring keeps the limits per sender and of the pool |
| `MempoolRuns.RevertedAreNew` | mempool/src/lib.rs:498-600 | transactions of reverted blocks are never in the pool beforehand |
| `MempoolRuns.StalePushKeepsSizes` | mempool/src/lib.rs:97-298 | a push that meets a new head before the eviction keeps indexes and limits, and leaves its sender's bucket valid at that head |
| `MempoolRuns.StepKeepsInv` | mempool/src/lib.rs:413-421 | every push, every move of the head and every handled event keeps the invariant |
| `MempoolRuns.RunsKeepPoolValid` | mempool/src/lib.rs:97-640 | in every run: indexes agree, at most 500 per sender and 100000 in all; whenever no eviction is due, each sender's transactions apply in order to its head account |
| `MempoolExact.AdmittedIff` | mempool/src/lib.rs:97-262 | a transaction is admitted iff it passes the rules, is not pooled, is not one free transaction too many, and can be afforded after the higher ones of its sender |
| `MempoolExact.KnownIff` | mempool/src/lib.rs:97-120 | refused as known iff it passes the filter and is pooled |
| `MempoolExact.EvictedForIff` | mempool/src/lib.rs:246-260 | evicted for a new transaction are exactly those of its sender that no longer fit after all that stays above them |
| `MempoolExact.PushedIs` | mempool/src/lib.rs:262-283 | after an admitted push the pool holds the highest of what it held and the new one without those evicted, min(their number, 100000) in all; where there is room, all of them |
| `MempoolExact.DropLowestIs` | mempool/src/lib.rs:278-283 | the lowest transaction goes iff there are too many |
| `MempoolExact.TrimIs` | mempool/src/lib.rs:577-588 | the highest 100000 stay, and nothing is cut where all fit |
| `MempoolExact.GreedyKeepsIff` | mempool/src/lib.rs:642-710 | the greedy pass keeps exactly what fits after all that is kept above it |
| `MempoolExact.EvictedIff` | mempool/src/lib.rs:425-496 | evicting leaves exactly what is acceptable and can be applied after all of the sender that stays above it |
| `MempoolExact.GroupIs` | mempool/src/lib.rs:498-560 | grouped are exactly the acceptable reverted transactions of each sender |
| `MempoolExact.RestoredIff` | mempool/src/lib.rs:498-598 | after restoring, a sender with acceptable reverted transactions holds exactly what fits of those and what it held; others hold what they held |
| `TransactionOrder.MempoolOrderIs` | primitives/transaction/src/lib.rs:251-264 | the order is the comparison field by field, the first difference decides |
| `MempoolRuns.OnBlockchainEvent` | mempool/src/lib.rs:413-421 | handling an event is such a step and re-establishes the invariant at the new head |
| `AccountsDatabase.Database.ProcessItem` | accounts/src/accounts.rs:281-315 | one account is read, operated on and written back, or the error is returned |
| `AccountsDatabase.Database.Process` | accounts/src/accounts.rs:206-279 | a whole phase: receipts are looked up and taken by u16 index, results become numbered receipts |
| `AccountsDatabase.Database.Create` | accounts/src/accounts.rs:317-333 | contract creation in order |
| `AccountsDatabase.Database.RevertCreation` | accounts/src/accounts.rs:335-358 | contracts are turned back into basic accounts, with the type check |
| `AccountsDatabase.Database.Prune` | accounts/src/accounts.rs:360-376 | empty contracts of senders are removed and recorded |
| `AccountsDatabase.Database.Restore` | accounts/src/accounts.rs:378-383 | recorded accounts are put back |
| `AccountsDatabase.Database.Prepare` | accounts/src/accounts.rs:431-465 | receipts are sorted into the maps used for reverting |
| `AccountsDatabase.Database.CommitBlock` | accounts/src/accounts.rs:105-154 | the six phases of a block |
| `AccountsDatabase.Database.RevertBlock` | accounts/src/accounts.rs:156-204 | the phases of reverting, senders and recipients again in forward order |
| `AccountsLocal.SwappingIsUndone` | accounts/src/accounts.rs:206-279 | operations that invert and move past later ones are undone in forward order on one account |
| `AccountsLocal.RunAt` | accounts/src/accounts.rs:206-315 | a phase acts on every account as the items of that account alone |
| `AccountsLocal.PhaseUndoneIff` | accounts/src/accounts.rs:206-315 | a phase taken back in forward order restores the tree iff it does on every account alone |
| `AccountsRevert.UndoPhase` | accounts/src/accounts.rs:206-279 | undoing the items of a phase in forward order restores the tree, because an undo can move past later items |
| `AccountsRevert.UndoContracts` | accounts/src/accounts.rs:317-358 | reverting creations restores the accounts when the addresses were basic and distinct |
| `AccountsRevert.UndoPrune` | accounts/src/accounts.rs:360-383 | restoring undoes pruning |
| `AccountsRevert.LookupCollected` | accounts/src/accounts.rs:206-238 | looking up by index gives each item its own receipt back |
| `AccountsRevert.PrepareBlock` | accounts/src/accounts.rs:431-465 | sorting the receipts of a block recovers each phase's own receipts |
| `AccountsRevert.RevertUndoesCommit` | accounts/src/accounts.rs:105-204 | for all operations that invert and move past each other, reverting a committed block with its receipts restores every account |
| `AccountsCoins.CoinOpsOk` | primitives/account/src/basic_account.rs:27-94 | the operations on basic, vesting and hashed time-locked accounts invert and move past each other |
| `AccountsCoins.OutgoingOk` | primitives/account/src/vesting_contract.rs:95-131 | spending and its reversal satisfy the assumptions for all account types |
| `AccountsCoins.IncomingOk` | primitives/account/src/basic_account.rs:27-45 | receiving and its reversal satisfy them |
| `AccountsCoins.InherentOk` | primitives/account/src/basic_account.rs:73-94 | rewards and their reversal satisfy them |
| `AccountsCoins.RevertRestoresIff` | accounts/src/accounts.rs:105-204 | for every tree of basic, vesting and hashed time-locked accounts and every block committed on it, reverting restores every account iff no two transactions create contracts at one address |
| `AccountsCoins.RevertNeedsDistinct` | accounts/src/accounts.rs:344-358 | a revert that succeeds had distinct creation addresses |
| `AccountsCoins.CreatingTwiceCommits` | accounts/src/accounts.rs:317-333 | a concrete family of transaction lists that create twice at one address and still commit |
| `AccountsBlocks.VerifyTransactions` | blockchain-albatross/src/blockchain/verify.rs:207-233 | accepts exactly the lists in strict block order all of whose transactions verify |
| `TransactionOrder.BlockOrderIs` | primitives/transaction/src/lib.rs:266-278 | block order is the comparison field by field, larger fees and values first |
| `AccountsBlocks.VerifiedCreationsDistinct` | blockchain-albatross/src/blockchain/verify.rs:207-233 | no two transactions of a verified block create a contract at one address |
| `AccountsBlocks.SameAddressSameKey` | primitives/transaction/src/lib.rs:340-345 | creations with the same creation address are equal in block order |
| `AccountsBlocks.VerifiedBlocksRevert` | accounts/src/accounts.rs:105-204 | reverting any verified block committed on a tree of basic, vesting and hashed time-locked accounts restores every account |
| `AccountsBlocks.VerifiedBlocksRevertIff` | accounts/src/accounts.rs:105-204 | with the staking contract, reverting a verified and committed block restores every account iff it creates nothing in place of that contract and its stakes are restorable |
| `AccountsSupply.CommitConserves` | accounts/src/accounts.rs:105-154 | for all operations that transfer what their item says, committing changes the total supply by exactly the rewards minus the fees |
| `AccountsSupply.CommitConservesCoins` | accounts/src/accounts.rs:105-154 | so it does on basic, vesting and hashed time-locked accounts |
| `AccountsBalances.BlockBalances` | accounts/src/accounts.rs:105-154 | for all operations that transfer what their item says, every address loses what it pays with fees and gains what it is paid and rewarded |
| `AccountsBalances.CoinBalances` | accounts/src/accounts.rs:105-154 | so it does on basic, vesting and hashed time-locked accounts |
| `AccountsBalances.AllBalances` | accounts/src/accounts.rs:105-154 | and on accounts of all types |
| `AccountsOutcome.SendersPayIff` | primitives/account/src/vesting_contract.rs:95-131 | the senders of a block can pay iff each covers every payment with all before it and what has to stay behind, from an account of the stated type |
| `AccountsOutcome.CommitKeepsCaps` | primitives/account/src/vesting_contract.rs:95-131 | every committed payment leaves its sender at least the minimum cap |
| `AccountsOutcome.RecipientsReceiveIff` | primitives/account/src/basic_account.rs:27-45 | the recipients can be paid iff all are basic accounts that do not overflow |
| `AccountsOutcome.CreationsSucceedIff` | accounts/src/accounts.rs:317-333 | contracts can be created iff all are of a known type with readable terms |
| `AccountsOutcome.RewardsPaidIff` | primitives/account/src/basic_account.rs:73-94 | inherents can be applied iff all are rewards to basic accounts that do not overflow |
| `AccountsOutcome.BlockOutcome` | accounts/src/accounts.rs:105-154 | the account at every address after a block: the one it had, or the last contract created there, unless that is an empty contract of a sender |
| `StakingActions.StakingContract.Stake` | primitives/account/src/staking_contract/actions/staker.rs:35-45 | adds delegated stake of a staker and restores the validator on failure |
| `StakingActions.StakingContract.Unstaked` | primitives/account/src/staking_contract/actions/staker.rs:48-71 | takes delegated stake off, likewise |
| `StakingActions.StakingContract.Retire` | primitives/account/src/staking_contract/actions/staker.rs:87-120 | the inactive stake of the staker becomes what Give says, with its receipt |
| `StakingActions.StakingContract.RevertRetire` | primitives/account/src/staking_contract/actions/staker.rs:123-132 | it becomes what Ungive says |
| `StakingActions.StakingContract.Reactivate` | primitives/account/src/staking_contract/actions/staker.rs:135-159 | takes inactive stake off and may set a new time |
| `StakingActions.StakingContract.Unstake` | primitives/account/src/staking_contract/actions/staker.rs:182-202 | it becomes what Take says, with its receipt |
| `StakingActions.StakingContract.RevertUnstake` | primitives/account/src/staking_contract/actions/staker.rs:205-227 | it becomes what Untake says |
| `StakingActions.StakingContract.CheckOutgoing` | primitives/account/src/staking_contract/actions/mod.rs:177-238 | passes exactly what the sender side of the specification lets through |
| `StakingActions.StakingContract.CommitOutgoing` | primitives/account/src/staking_contract/actions/mod.rs:240-269 | succeeds exactly where ActOn does, with its contract and receipt |
| `StakingActions.StakingContract.RevertOutgoing` | primitives/account/src/staking_contract/actions/mod.rs:271-307 | the same for taking back |
| `StakingActions.StakingContract.CommitIncoming` | primitives/account/src/staking_contract/actions/mod.rs:59-119 | the same for the recipient side |
| `StakingActions.StakingContract.RevertIncoming` | primitives/account/src/staking_contract/actions/mod.rs:121-175 | the same for taking it back |
| `StakingActions.StakingContract.CommitInherent` | primitives/account/src/staking_contract/actions/mod.rs:311-413 | a slash adds its marks and says which were new |
| `StakingActions.StakingContract.RevertInherent` | primitives/account/src/staking_contract/actions/mod.rs:436-492 | taking it back removes the marks a receipt names |
| `StakeEntries.TakenIs` | primitives/account/src/staking_contract/actions/staker.rs:135-202 | what the withdrawals and reactivations of a block leave of an inactive stake |
| `StakeEntries.TakenBackFromNone` | primitives/account/src/staking_contract/actions/staker.rs:162-226 | an emptied stake is put back, front to back, iff one transaction alone emptied it |
| `StakeEntries.TakenBackOnto` | primitives/account/src/staking_contract/actions/staker.rs:162-226 | where something is left, all is put back and the time that is there is kept |
| `StakeEntries.GivenBackIs` | primitives/account/src/staking_contract/actions/staker.rs:87-132 | taking back retirements front to back gives the stake before for one, the wrong time for more onto some, and fails for more onto none |
| `StakeEntries.StakeRestoredIff` | primitives/account/src/staking_contract/actions/staker.rs:87-226 | taking back a block restores the stake iff no two transactions emptied it together and it was retired at most once, or onto stake of the same height |
| `StakingViews.RunParts` | primitives/account/src/staking_contract/actions/mod.rs:59-303 | a run of transactions over the contract is one over its balance, its delegations and each staker, with the staker's own receipts |
| `StakingViews.ContractUndoneIff` | primitives/account/src/staking_contract/actions/mod.rs:59-303 | a side of the transactions is undone on the contract iff it is undone for every staker |
| `StakingParts.GrownShrinks` | primitives/account/src/staking_contract/validator.rs:67-95 | adding and taking off delegated stake undo each other |
| `StakingParts.GrowShrinkSwap` | primitives/account/src/staking_contract/validator.rs:67-95 | adding delegated stake and taking some off commute, with the same failures |
| `StakingParts.PartsAreUndone` | primitives/account/src/staking_contract/actions/staker.rs:35-84 | balance and delegated stake come back in forward order whatever the block did to them |
| `StakingParts.SlashesBack` | primitives/account/src/staking_contract/actions/mod.rs:350-498 | taking slashes back front to back removes exactly the marks they left |
| `StakingParts.SlashesUndone` | primitives/account/src/staking_contract/actions/mod.rs:350-498 | slashes can always be taken back |
| `StakingPhases.StakingPhaseUndoneIff` | accounts/src/accounts.rs:206-315 | a phase on accounts of all types is undone iff it is undone on the staking contract |
| `StakingPhases.InherentsUndone` | primitives/account/src/staking_contract/actions/mod.rs:350-498 | rewards and slashes can always be taken back |
| `StakingReverts.SendersUndoneIff` | primitives/account/src/staking_contract/actions/mod.rs:240-303 | taking back the senders of a block restores the accounts iff no inactive stake was emptied by two or more of its transactions together |
| `StakingReverts.RecipientsUndoneIff` | primitives/account/src/staking_contract/actions/mod.rs:59-175 | taking back the recipients restores the accounts iff no stake was retired twice, unless onto stake of the same height |
| `StakingBlocks.CommitStaysSound` | primitives/account/src/staking_contract/actions/mod.rs:59-303 | no committed block ever lists a stake of zero |
| `StakingBlocks.CommitConservesStakes` | accounts/src/accounts.rs:105-154 | committing changes the total supply, the staking contract included, by exactly the rewards minus the fees |
| `StakingBlocks.StakeTrail` | primitives/account/src/staking_contract/actions/staker.rs:87-202 | the inactive stake of a staker through the phases of a commit, with its receipts |
| `StakingBlocks.RestorableReverts` | accounts/src/accounts.rs:156-204 | a committed block whose stakes are restorable and whose creations are distinct is taken back exactly |
| `StakingBlocks.RevertedIsRestorable` | accounts/src/accounts.rs:156-204 | a block that was taken back exactly met these conditions |
| `StakingBlocks.RevertRestoresStakesIff` | accounts/src/accounts.rs:105-204 | the exact condition, readable from tree and block before the commit |
| `StakingShares.SpendableIff` | primitives/account/src/staking_contract/actions/mod.rs:177-238 | a transaction can be taken from the contract iff it withdraws mature inactive stake, retires delegated stake or reactivates inactive stake, no more than there is |
| `StakingShares.ReceivableIff` | primitives/account/src/staking_contract/actions/mod.rs:59-119 | it can be paid in iff it delegates to a known validator or retires stake, without an overflow |
| `StakingShares.BlockShares` | accounts/src/accounts.rs:105-154 | after a block: what every staker holds inactive and since when, what it has delegated to whom, which validators and slots are marked; deposits and data of validators are as before |
| `StakingFunds.CommitStaysBacked` | primitives/account/src/staking_contract/validator.rs:67-95 | every block keeps the balance of the contract equal to its validators and inactive stake, and every validator at least as large as what is delegated to it |
| `StakingFaults.UnstakingTwiceFails` | primitives/account/src/staking_contract/actions/staker.rs:182-226 | a block that withdraws two coins of a staker one by one commits and is not taken back |
| `StakingFaults.RetiringTwiceFails` | primitives/account/src/staking_contract/actions/staker.rs:87-132 | a block that retires stake twice, onto none or onto stake of another height, commits and is not taken back |
| `LinkedLists.LinkedList.PushFrontNode` | collections/src/linked_list.rs:131-145 | links, head, tail and length agree with the node put in front |
| `LinkedLists.LinkedList.PopFrontNode` | collections/src/linked_list.rs:149-162 | the first node is taken off |
| `LinkedLists.LinkedList.PushBackNode` | collections/src/linked_list.rs:166-180 | the node is put at the end |
| `LinkedLists.LinkedList.PopBackNode` | collections/src/linked_list.rs:184-197 | the last node is taken off |
| `LinkedLists.LinkedList.UnlinkNode` | collections/src/linked_list.rs:203-219 | any node of the list is taken out, touching only its neighbours |
| `LinkedLists.LinkedList.Append` | collections/src/linked_list.rs:310-325 | all nodes of the other list move to the end, and it becomes empty |
| `LinkedLists.LinkedList.Walk` | collections/src/linked_list.rs:683-701 | the node before a position is reached from the nearer end |
| `LinkedLists.LinkedList.SplitOff` | collections/src/linked_list.rs:674-726 | the first part stays and the rest forms the new list |
| `LinkedLists.SplitThenAppend` | collections/src/linked_list.rs:310-325 | splitting anywhere and appending restores the list, node for node |
| `LinkedLists.LinkedList.InsertNext` | collections/src/linked_list.rs:891-912 | a new node is linked in before the cursor |
| `LinkedLists.LinkedList.DrainNext` | collections/src/linked_list.rs:957-971 | the next element satisfying the predicate is unlinked, those passed stay |
| `LinkedLists.LinkedList.DrainFilter` | collections/src/linked_list.rs:754-769 | the removed and the remaining elements are those the predicate holds and fails of, each in order |
| `UniqueLinkedLists.UniqueLinkedList.ContentsUnique` | collections/src/unique_linked_list.rs:362-441 | the map sending each element to its own node keeps the list free of repetitions |
| `UniqueLinkedLists.UniqueLinkedList.Contains` | collections/src/unique_linked_list.rs:268-274 | the map knows exactly the elements of the list |
| `UniqueLinkedLists.UniqueLinkedList.PushFront` | collections/src/unique_linked_list.rs:362-371 | an absent element becomes the first, a present one stays where it is |
| `UniqueLinkedLists.UniqueLinkedList.PushBack` | collections/src/unique_linked_list.rs:411-420 | an absent element becomes the last |
| `UniqueLinkedLists.UniqueLinkedList.PopFront` | collections/src/unique_linked_list.rs:392-397 | the first element leaves list and map; the lookup cannot fail |
| `UniqueLinkedLists.UniqueLinkedList.PopBack` | collections/src/unique_linked_list.rs:436-441 | the last element leaves list and map |
| `UniqueLinkedLists.UniqueLinkedList.Remove` | collections/src/unique_linked_list.rs:291-305 | the element is unlinked through the map, and the others keep their order |
| `UniqueLinkedLists.UniqueLinkedList.Append` | collections/src/unique_linked_list.rs:150-154 | the other list is emptied, its new elements following in order |
| `UniqueLinkedLists.ExtendedIs` | collections/src/unique_linked_list.rs:150-154 | appending keeps the own elements in front and adds exactly the missing ones |
| `LimitHashSets.LimitHashSet.Insert` | collections/src/limit_hash_set.rs:423-430 | returns whether the value was absent; it becomes the newest and the oldest is dropped beyond the limit |
| `LimitHashSets.LimitHashSet.Replace` | collections/src/limit_hash_set.rs:447-454 | the same, returning the equal value that was there |
| `LimitHashSets.LimitHashSet.InsertAndGetRemoved` | collections/src/limit_hash_set.rs:469-476 | the same, returning the value dropped; nothing else is lost |
| `LimitHashSets.LimitHashSet.Remove` | collections/src/limit_hash_set.rs:496-502 | removes the value and tells whether it was there |
| `LimitHashSets.InsertionKeepsNewest` | collections/src/limit_hash_set.rs:423-430 | inserting into the newest values of a history gives the newest values of the longer history |
| `LimitHashSets.LimitHashSet.Extend` | collections/src/limit_hash_set.rs:573-577 | after any run of insertions the content is the last `limit` distinct values by most recent insertion |
| `LimitHashSets.LimitHashSet.Equals` | collections/src/limit_hash_set.rs:532-538 | same length and one-sided membership decide equality as sets |
| `SegmentTrees.WeightIsSum` | collections/src/segment_tree.rs:51-72 | the weight at the root is the sum of all weights |
| `SegmentTrees.Get` | collections/src/segment_tree.rs:76-99 | descending finds exactly what a linear scan finds: weight and prefix sum, or nothing |
| `SegmentTrees.Find` | collections/src/segment_tree.rs:102-132 | descending finds the key a linear scan over prefix sums finds |
| `SegmentTrees.TotalRange` | collections/src/segment_tree.rs:143-149 | the range is the total weight |
| `SegmentTrees.GetInvertsFind` | collections/src/segment_tree.rs:76-132 | a key is found iff the point is in [0, total), and its range holds the point |
| `SegmentTrees.FindInvertsGet` | collections/src/segment_tree.rs:76-132 | every point of the range a key gets is found to be that key's |
| `BitSets.MembersSize` | collections/src/bitset.rs:80-97 | the ones counted over the words are the number of members |
| `BitSets.BitSet.Contains` | collections/src/bitset.rs:49-56 | testing the masked word tests membership |
| `BitSets.BitSet.Insert` | collections/src/bitset.rs:58-67 | the set gains the value, and the count stays its cardinality |
| `BitSets.BitSet.Remove` | collections/src/bitset.rs:69-78 | the set loses the value, and the count stays its cardinality |
| `BitSets.BitSet.Compact` | collections/src/bitset.rs:121-124 | dropping zero words at the end changes no member |
| `BitSets.BitSet.ApplyOp` | collections/src/bitset.rs:80-97 | any bitwise operation acts member by member, whatever the lengths, with the right count |
| `BitSets.BitSet.And` | collections/src/bitset.rs:186-192 | intersection |
| `BitSets.BitSet.Or` | collections/src/bitset.rs:208-214 | union |
| `BitSets.BitSet.Xor` | collections/src/bitset.rs:230-236 | symmetric difference |
| `BitSets.BitSet.IsSuperset` | collections/src/bitset.rs:145-160 | decides inclusion, whatever the lengths |
| `BitSets.BitSet.IntersectionSize` | collections/src/bitset.rs:167-169 | the cardinality of the intersection |
| `BitSets.BitSet.Equals` | collections/src/bitset.rs:244-252 | decides equality of the sets, whatever the lengths |
| `BitSetAssign.ApplyOpAssign` | collections/src/bitset.rs:99-117 | what the in-place operators leave behind, words and count |
| `BitSetAssign.AssignIsRightIff` | collections/src/bitset.rs:99-117 | they compute the operation with the right count iff all words beyond the shorter store are zero |
| `BitSetAssign.OrAssignMisses` | collections/src/bitset.rs:107-112 | {0} \|= {64} does not gain 64 |
| `BitSetCodec.Serialize` | collections/src/bitset.rs:255-262 | writes the number of words and the words, or reports overflow |
| `BitSetCodec.Deserialize` | collections/src/bitset.rs:273-286 | reads them back with the right count, or fails as specified |
| `BitSetCodec.SetRoundTrip` | collections/src/bitset.rs:254-287 | reading inverts writing and leaves the bytes that follow |
| `BitSetCodec.SetReencoded` | collections/src/bitset.rs:273-286 | whatever can be read is what writing the words read would give |
| `UvarWriter.Serialize` | beserial/src/types.rs:71-117 | the nine branches of shifts, masks and tags write Encode of the value, and return its length |
| `UvarReader.Deserialize` | beserial/src/types.rs:143-193 | the nine branches read exactly Decode: value and rest, end of input, or overflow |
| `UvarReader.ReadTagged` | beserial/src/types.rs:162-192 | the branches whose first byte holds bits of the value |
| `Uvars.DecodeInvertsEncode` | beserial/src/types.rs:71-193 | for every 64-bit value, decoding inverts encoding and leaves the following bytes untouched |
| `Uvars.DecodedIsEncoded` | beserial/src/types.rs:143-193 | every accepted byte string is the encoding of its value, so no value has two |
| `Uvars.OrderPreserved` | beserial/src/types.rs:71-117 | the byte-wise order of encodings is the numeric order |
| `UvarWriter.SizesAgree` | beserial/src/types.rs:8-28 | both size functions give the number of bytes written |
| `UvarWriter.SizeIs` | beserial/src/types.rs:119-139 | the size by value is the length of the encoding |
| `UvarWriter.FirstByteIs` | beserial/src/types.rs:8-28 | the size by first byte is one more than the bytes that follow it |
| `Iban.IbanCheck` | keys/src/address.rs:87-105 | six digits at a time gives the whole decimal number modulo 97; the 32-bit parse never overflows |
| `Iban.ChunkFits` | keys/src/address.rs:97-102 | a remainder and six digits stay below 2^32 |
| `Base32.DecodeInverts` | keys/src/address.rs:58-74 | decoding inverts the base-32 text of any 20 bytes |
| `Base32.EncodeInverts` | keys/src/address.rs:58-65 | any 32 symbols are the text of the 20 bytes they decode to |
| `Addresses.ToUserFriendly` | keys/src/address.rs:68-85 | prints country code, check characters and address in groups of four |
| `Addresses.FromUserFriendly` | keys/src/address.rs:42-66 | parses exactly as Parsed says, errors and panics included |
| `Addresses.CheckCompletes` | keys/src/address.rs:73-76 | the two check characters bring the check value to 1 |
| `Addresses.ParseInvertsPrint` | keys/src/address.rs:42-85 | parsing the printed form of any 20-byte address returns the address |
| `Addresses.ParsedSpellsAddress` | keys/src/address.rs:42-66 | any text that parses spells out the address it parses to |
| `Addresses.SubstitutionDetected` | keys/src/address.rs:87-105 | replacing one digit by another, or one letter by another, always changes the check value |
| `Addresses.SubstitutionRejected` | keys/src/address.rs:42-56 | so such a change anywhere in an accepted text is rejected: as a wrong country code in its first two places, as an invalid checksum after them |
| `AddressPanics.ParsePanicsIff` | keys/src/address.rs:42-66 | the parser panics iff a text of the right length and country code has a character no digits are defined for, or passes the check with a character outside the alphabet in its address part |
| `AddressPanics.UnreadableChars` | keys/src/address.rs:87-95 | no digits are defined exactly for the characters below '0' |
| `AddressPanics.OmittedLetterPanics` | keys/src/address.rs:42-66 | upper-case texts with a letter the alphabet omits, complete with correct check digits, are such inputs |
| `AddressPanics.LowerCasePanics` | keys/src/address.rs:48-62 | a lower-case letter in the address part of an otherwise accepted text passes the check and makes the parser panic |
| `TransactionCaches.TransactionCache.ContainsAny` | blockchain-albatross/src/transaction_cache.rs:52-66 | tells whether any hash belongs to a block of the window |
| `TransactionCaches.TransactionCache.PushBlock` | blockchain-albatross/src/transaction_cache.rs:68-81 | the new cache is Pushed of the old one, or the assertion fails |
| `TransactionCaches.TransactionCache.RevertBlock` | blockchain-albatross/src/transaction_cache.rs:83-93 | the new cache is Reverted of the old one, or the assertion fails |
| `TransactionCaches.TransactionCache.PrependBlock` | blockchain-albatross/src/transaction_cache.rs:95-108 | the new cache is Prepended of the old one, or an assertion fails |
| `TransactionCaches.TransactionCache.ShiftBlock` | blockchain-albatross/src/transaction_cache.rs:110-118 | the oldest block leaves with its hashes |
| `TransactionCaches.PushSucceedsIff` | blockchain-albatross/src/transaction_cache.rs:68-81 | a block is accepted iff it extends the chain with distinct transactions that no window block holds |
| `TransactionCaches.RunsKeepInv` | blockchain-albatross/src/transaction_cache.rs:68-118 | in every run the hash set is the disjoint union of a linked window of bounded length |
| `CacheRebranch.RevertsUndoPushes` | blockchain-albatross/src/transaction_cache.rs:68-108 | pushing any run of blocks, reverting them newest first and prepending what was shifted out restores the cache |
| `CacheRebranch.Withdraw` | blockchain-albatross/src/blockchain/push.rs:286-316 | the loop takes blocks back newest first, and stops at an error or a failed assertion |
| `CacheRebranch.FillUp` | blockchain-albatross/src/blockchain/push.rs:318-338 | fills the window up from the store and checks both assertions |
| `CacheRebranch.Follow` | blockchain-albatross/src/blockchain/push.rs:340-377 | adopts the fork block by block; a repeated transaction or a refused block makes it invalid |
| `CacheRebranch.Rebranch` | blockchain-albatross/src/blockchain/push.rs:227-377 | the whole rebranch of the cache, with its panics and errors |
| `CacheRebranch.FilledIs` | blockchain-albatross/src/blockchain/push.rs:318-338 | from any last part of the stored chain the window is filled up, and the assertion on its size holds iff the store is complete |
| `CacheRebranch.CompleteIff` | blockchain-albatross/src/blockchain/push.rs:335-338 | a store that starts at a given block is complete iff that is the first one or the store fills the window |
| `CacheRebranch.FollowedIs` | blockchain-albatross/src/blockchain/push.rs:340-377 | a well-formed fork is adopted iff all its blocks are accepted and can be pushed, and is invalid otherwise, without a panic |
| `CacheRebranch.RebranchIs` | blockchain-albatross/src/blockchain/push.rs:227-377 | the outcome of every rebranch: an invalid fork, an error, a panic, or following the fork from the replayed chain |
| `CacheRebranch.RebranchIsReplay` | blockchain-albatross/src/blockchain/push.rs:227-377 | with a complete store and restored accounts, a rebranch leaves the cache that pushing the new chain from the start gives, or finds the fork invalid |
| `CacheRebranch.SyncedStorePanics` | blockchain-albatross/src/blockchain/history_sync.rs:109-150 | after history sync to macro block 128, rebranching at block 129 fails the assertion on the size of the window |
| `TransactionCaches.RevertUndoesPush` | blockchain-albatross/src/transaction_cache.rs:68-108 | push, revert and prepending the block shifted out restore the cache |
| `TransactionCaches.WindowIsNewest` | blockchain-albatross/src/transaction_cache.rs:68-81 | after any run of pushes the window holds the most recent blocks |
| `TransactionCaches.NoReplay` | blockchain-albatross/src/transaction_cache.rs:68-81 | no transaction is accepted twice within the validity window |

## Left out

- Timers, channels, locks, notifications and the `Stream` wrapper of the aggregation: turns are atomic and come in any order.
- Signature verification, hashing and key handling: verification is an arbitrary answer, hashes are injective.
- Termination of the aggregation: a node that has finished stops sending, so not every node finishes; when more can be learned is stated exactly, that it will be is not, because no fairness of turns or delivery is assumed. Draining is about the turns of one node in which verification succeeds.
- More than 65536 nodes: the origin of an update travels as a 16-bit number, and the network theorems are stated for the identifiers that fit.
- Dishonest nodes: the network theorems are about nodes that run this code.
- The mempool's blacklist of filtered hashes and the filter rules themselves: filtering is a parameter of a push.
- Two transactions with the same hash but different proofs: a transaction is identified with its hash.
- The fee per byte as a floating-point number: it is a real number carried by the transaction.
- The number of free transactions of a sender as an invariant of the pool: only pushing checks it.
- Selecting transactions for a block or by address: they only read the indexes.
- The Merkle structure, hashing and paging of the accounts tree: the tree is a map without initial accounts.
- Vesting schedules, hash-lock proofs and creation data: a policy parameter decides whether and how much may be spent.
- The staking contract beyond stakers and slashes: transactions that create, update, retire, reactivate, unpark or drop validators, and the inherents that finalize batches and epochs, are rejected by the model. The fields of a validator are one record, and the sets of marks one set. The choice of slots, serialization and the times at which validators retire are not modelled either.
- The order in which the checks of a staking transaction are made: which error is reported may differ, whether one is does not.
- StakingBlocks.RevertRestoresStakesIff: assumes values above zero, as transaction verification does for these transactions (primitives/transaction/src/lib.rs:303-308), and at most 65536 transactions and inherents per block, because receipt indexes are cast to 16 bits; blocks are produced with at most 100000 bytes (primitives/block-albatross/src/micro_block.rs:78).
- AccountsCoins.RevertRestoresIff: is about trees without a staking contract; StakingBlocks.RevertRestoresStakesIff is about those with one.
- AccountsSupply.CommitConservesCoins: is about trees without a staking contract; StakingBlocks.CommitConservesStakes is about those with one.
- AccountsRevert.RevertUndoesCommit: assumes at most 65536 transactions and inherents per block when receipts are in use, because receipt indexes are cast to 16 bits.
- AccountsOutcome.BlockOutcome: is about trees without a staking contract; balances with one are in AccountsBalances.AllBalances, and stakes in StakingShares.BlockShares.
- HandelStarvation.FinishedNodeStarves: uses a configuration in which nothing is sent when a level starts; networks of other sizes and configurations are not considered.
- `BitSet::clear`, which leaves the count as it was, and the iterators over a set.
- The comparison, cloning and hashing of lists and sets, except equality of `LimitHashSet` and `BitSet`.
- Mutable access to list elements, and dropping of nodes: the memory of removed nodes is not modelled.
- SegmentTrees.Get: keys come with a linear order as a parameter, and weights are natural numbers; negative weights are not considered.
- AddressPanics.ParsePanicsIff: is about builds with overflow checks. The panic for a character below '0' is an unsigned subtraction (keys/src/address.rs:94) that wraps around in other builds; what the parser then computes is not modelled.
- Addresses.FromUserFriendly: texts are taken to be ASCII, so that characters and bytes coincide.
- The number of six-digit groups as a floating-point quotient: it is computed in integers, which agrees for every text shorter than millions of characters.
- The base-32 library: its bit grouping is modelled as writing the 160-bit number in base 32.
- CacheRebranch.Rebranch: whether the accounts take a block back or accept one is a parameter, and the main chain and the fork up to their common ancestor are given, not looked up in the store.
- Block hashes in the transaction cache are plain numbers, and blocks without a body have no transactions.
- Network, storage, RPC, consensus, client and proof-system crates: foreign algebra or glue around unseen libraries.
