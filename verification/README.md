# A Dafny model of Tupelo

Tupelo is a notary protocol for chain trees. Signers poll each other with a Snowball loop,
lock rounds of add-block requests (ABRs), apply them to a global map from object to latest
request and sign the result. Clients gather BLS signatures until a quorum has confirmed a
round, and turn that into proofs anyone can check. Chain trees carry a token ledger and can
be owned by other chain trees.

This project models that behaviour and proves what it promises. `dafny verify dfyconfig.toml`
checks all of it.

## What is proved

* **No forks.** In every state a signer can reach, over any arrivals, evictions, poll
  answers and flush timings, the requests committed for an object form one gapless chain
  (`SignerInvariant.ChainsNeverFork`). Runs include restarts of a signer that signed nothing
  beyond the round it recorded last, and those are exactly the restarts that keep the
  invariant (`SignerInvariant.ResumeKeepsExactly`). The signer is a class (`NodeModel.Node`)
  whose handlers are each proved to be one step of the state machine this is about.
* **Requests get through.** A request is let in exactly if it comes next in its object's chain
  and queued exactly if it lies beyond (`SignerEffects.ArrivalExactly`). A commit leaves exactly
  the requests of other objects and the queued successors of decided ones
  (`SignerEffects.CommitReleasesExactly`). What a round proposes, counts, records, publishes and
  finds again after a restart is stated in the same terms in `SignerEffects`.
* **Agreement.** With fewer than a third of the members faulty, two clients fed any messages
  hold the same round if and only if the rounds they hold have the same height
  (`AgreementModel.ClientsAgreeExactly`). So they never hold different rounds for one height if
  confirmations carry their round's height (`AgreementModel.ClientsAgree`), and relabelling a
  confirmation splits them (`AgreementModel.RelabellingSplits`). Two verified proofs never
  disagree about a request of an object (`AgreementModel.ProofsNeverFork`), and successive ones
  link up (`AgreementModel.ProofsLinkUp`). Once a quorum's confirmations have been delivered,
  among any other messages, a client has moved on
  (`RoundSubscriberModel.QuorumIsAdopted`).
* **Snowball.** Decided exactly after beta + 1 consecutive successes of one id, for every
  beta from 1 on and no other; final afterwards (`SnowballModel.DecidedExactlyForBeta`,
  `SnowballModel.DecisionFinal`). The preferred id is a most counted one over all undecided
  series of polls shorter than 65535 + max(1, 65534 / beta), and not over longer ones, because
  the uint16 counters can wrap there (`SnowballModel.GreatestCountExactly`); for the signers'
  beta of 10 that is 72088 polls.
* **Tallies.** The four passes over maps and floats compute shares that lie in [0, 1], sum to
  1, ignore answer order, are monotone, and are in proportion to answers times what answers and
  requests put a checkpoint above the least one (`VoteModel.CalculateTallies` against a closed
  form, then `VoteModel.TalliesAreShares`, `VoteModel.TalliesInProportion` and their neighbours).
* **Global state.** The HAMT and the requests still in flight are one map, whatever part of
  the background flush has happened; what is published for a height is the fold of all
  decisions up to it (`StateModel.FindUnaffectedByFlush`, `SignerInvariant.PublishedStateIsFold`).
* **Aggregation.** Succeeds exactly without 32-bit overflow, names the union of the signers,
  and verifies under the key restored from its vector (`SignatureModel.AggregateIsValid`).
* **Proofs.** Whatever a client was sent, the proof it delivers verifies elsewhere
  (`ProofModel.DeliveredProofVerifies`).
* **Ownership.** Resolution terminates on every graph, fails exactly if a cycle or an
  unreadable tree is reachable, and otherwise returns exactly the reachable addresses
  (`GraftedOwnershipModel.ResolveOwners`).
* **Tokens.** Across all trees, balances plus pending sends equal mints, plus what was received
  twice, less 2^64 for every balance that wrapped (`Conservation.TokensAccounted`). So without
  wraps tokens are conserved exactly if no send is received twice, and without repeated receives
  they are conserved modulo 2^64, and exactly if no balance wrapped
  (`Conservation.TokensAreConserved`). The code lets a send be received again under another id
  (`Conservation.DoubleReceive`); logging receives under the ids of their sends, as
  TokenPayloadForTransaction does, rules that out (`Conservation.OwnIdsNeverRepeat`). A
  positive Maximum is respected exactly while the true total fits in 64 bits
  (`TreeLedgerModel.CapInRuns`).
* **Replay.** A program gets its original answers on part of the store exactly if that part
  holds all touched nodes (`RefTracking.ReplayNeedsExactlyTouched`).

## How things are represented

* Content addresses are ideal. Checkpoints, rounds and HAMTs stand for their own CIDs; an
  arbitrary injective function gives the printed CID of a request, whose order matters to the
  mempool. BLS points are multisets of keys, and of key and message pairs.
* float64 tallies are `real`. uint64, uint32 and uint16 are subset types with wrap-around
  written out; round heights are unbounded.
* The conflict-set and in-flight keys concatenate an object id and a decimal height. Arriving
  object ids have the form `did:tupelo:` and a 42 character address. `Keys.KeyCollisionExact`
  says exactly which ids could otherwise be confused.
* LRU caches are maps from which anything may disappear at any time. Poll answers, message
  deliveries and the order in which Go visits a map are arbitrary.
* Each handler of the signer is one step; the background flush is one step per object. The
  goroutine that publishes a round is a separate step any time after its flush.

## Model

| member | source | states |
|---|---|---|
| Keys.KeyInjective | signer/gossip/mempool.go:144-146 | object ids of one length never share a conflict-set key, whatever the heights |
| Keys.KeyMeansObjectAndHeight | signer/gossip/mempool.go:144-146 | for DIDs, two keys are equal exactly if object and height are |
| Keys.LessExactly | signer/gossip/mempool.go:21-27 | the order on CIDs is the dictionary order: a proper prefix, or the smaller character at the first difference |
| Keys.KeyCollisionExact | signer/gossip/node.go:738-740 | two different ids can share a concatenated key exactly if one is the other followed by a positive decimal that leaves room for one more digit |
| MempoolModel.Mempool.constructor | signer/gossip/mempool.go:41-46 | an empty pool with a consistent index |
| MempoolModel.Mempool.Add | signer/gossip/mempool.go:48-65 | adds the request and keeps the index: conflict sets partition the requests and prefer their least id |
| MempoolModel.Mempool.BulkDelete | signer/gossip/mempool.go:73-82 | removes exactly the requests in conflict with a given id, and keeps the index |
| MempoolModel.Mempool.DeleteIDAndConflictSet | signer/gossip/mempool.go:92-110 | removes exactly one conflict set, or nothing for an unknown id |
| MempoolModel.Mempool.Contains | signer/gossip/mempool.go:112-122 | true exactly if all ids are held |
| MempoolModel.Mempool.Preferred | signer/gossip/mempool.go:124-136 | lists the least request of every conflict class, each once, in any visiting order |
| MempoolModel.AddToSetLeast | signer/gossip/mempool.go:21-27 | adding to a conflict set keeps its preferred id the least of its ids |
| MempoolModel.PreferredPicksOnePerKey | signer/gossip/mempool.go:124-136 | every conflict class has exactly one preferred request |
| MempoolModel.PreferredAdmissible | signer/gossip/snowballnetwork.go:274-319 | the preferred requests, in any order, pass the node's own vote filter |
| MempoolModel.AddAllContents | signer/gossip/mempool.go:48-65 | after any series of adds the pool holds exactly what was added |
| MempoolModel.ArrivalOrderIrrelevant | signer/gossip/mempool.go:48-65 | order and repetition of arrivals affect neither the pool nor the proposal |
| MempoolModel.RemainingDropsWholeSets | signer/gossip/mempool.go:73-110 | bulk deletion keeps or drops conflict sets as a whole, and drops those it touches |
| VoteModel.ComputeProfitWeights | signer/gossip/vote.go:92-114 | every named checkpoint's total length relative to the greatest one |
| VoteModel.Normalize | signer/gossip/vote.go:116-146 | weights stretched from their least, or from 1 if that is less, to their greatest; all 1 if there is nothing to stretch |
| VoteModel.ProfitFactors | signer/gossip/vote.go:68-70 | weighing and stretching a poll gives the closed-form profit of each checkpoint |
| VoteModel.CountAnswers | signer/gossip/vote.go:53-66 | one vote per id, holding the fraction of answers naming it |
| VoteModel.CalculateTallies | signer/gossip/vote.go:53-90 | one vote per answered id, each with its closed-form tally |
| VoteModel.TalliesAreShares | signer/gossip/vote.go:53-90 | tallies lie in [0, 1] and sum to exactly 1 |
| VoteModel.TallyMonotone | signer/gossip/vote.go:53-146 | at least as many answers and at least as many requests never give a smaller tally |
| VoteModel.FewerRequestsSmallerTally | signer/gossip/vote.go:92-114 | of two checkpoints named equally often the one with fewer requests has the strictly smaller tally |
| VoteModel.LeastCountsForNothing | signer/gossip/vote.go:116-146 | a checkpoint has tally 0 exactly if its answers times requests are the least such product and not all are equal |
| VoteModel.TalliesInProportion | signer/gossip/vote.go:53-146 | any two tallies are in proportion to answers times the excess of answers times requests over the least such product |
| VoteModel.TallyOrderIrrelevant | signer/gossip/vote.go:53-90 | answer order does not affect any tally |
| VoteModel.UnanimousTally | signer/gossip/vote.go:53-146 | if all non-empty answers name one checkpoint, its tally is the fraction naming it |
| SnowballModel.Snowball.constructor | signer/gossip/snowball.go:31-38 | a fresh instance |
| SnowballModel.Snowball.Reset | signer/gossip/snowball.go:40-51 | back to a fresh instance with the same parameters |
| SnowballModel.Snowball.PreferInLock | signer/gossip/snowball.go:147-153 | prefers and counts a vote |
| SnowballModel.Snowball.Tick | signer/gossip/snowball.go:53-138 | performs one step of the Snowball state machine, uint16 counters included |
| SnowballModel.MajorityIsFirstGreatest | signer/gossip/snowball.go:68-81 | the majority is the first non-empty vote no other outweighs |
| SnowballModel.SuccessExactly | signer/gossip/snowball.go:87-93 | a tick succeeds with an id exactly if the first greatest non-empty vote has it and its tally times the number of votes, at least two, comes to twice alpha |
| SnowballModel.PreferenceExactly | signer/gossip/snowball.go:93-105 | something is preferred exactly from the first tick with a non-empty vote on, successful or not |
| SnowballModel.TicksAreCounted | signer/gossip/snowball.go:62-66 | every tick is counted modulo 2^64, also after a decision |
| SnowballModel.DecidedExactly | signer/gossip/snowball.go:53-138 | decided exactly if some beta + 1 consecutive ticks succeeded with one id; then the id of the earliest such window is preferred, never the empty vote |
| SnowballModel.DecidedExactlyForBeta | signer/gossip/snowball.go:122-138 | the equivalence holds for all series of ticks exactly if beta is at least 1 |
| SnowballModel.DecisionFinal | signer/gossip/snowball.go:62-66 | nothing but the tick total changes after a decision |
| SnowballModel.PreferredHasGreatestCount | signer/gossip/snowball.go:62-119 | while undecided, and for up to 65535 ticks, no id is counted more often than the preferred one, whatever beta is |
| SnowballModel.WinsSpread | signer/gossip/snowball.go:122-137 | without a streak longer than beta, wins of an id number at most beta for every other tick, and beta more |
| SnowballModel.CountsExactly | signer/gossip/snowball.go:93-120 | while undecided a counter is the number of wins of its id, and one for a first preference not won, modulo 2^16 |
| SnowballModel.PreferredHasGreatestCountForBeta | signer/gossip/snowball.go:62-137 | the same for every series shorter than 65535 + max(1, 65534 / beta) |
| SnowballModel.GreatestCountBoundExact | signer/gossip/snowball.go:62-137 | for every beta from 1 on and alpha up to 1, a series of that many polls leaves a wrapped counter preferred over a rival's |
| SnowballModel.GreatestCountExactly | signer/gossip/snowball.go:62-137 | all undecided series of at most n polls leave a most counted id preferred exactly if n is below that bound |
| SnowballModel.UnanimousTick | signer/gossip/snowball.go:68-108 | a poll whose non-empty answers name one checkpoint succeeds exactly if a fraction alpha names it |
| SnowballModel.ConsecutiveWinsDecide | signer/gossip/snowball.go:68-138 | beta + 1 successive wins decide any undecided instance with beta at least 1 |
| StateModel.GlobalState.constructor | signer/gossip/state.go:34-40 | an empty state |
| StateModel.GlobalState.Copy | signer/gossip/state.go:42-51 | a new object with the same two layers |
| StateModel.GlobalState.AddInflights | signer/gossip/state.go:53-60 | puts the requests in flight, later ones over earlier ones |
| StateModel.GlobalState.Find | signer/gossip/state.go:62-96 | answers from the one map both layers stand for; fails exactly if only the HAMT has the object and its request is not in the store |
| StateModel.GlobalState.Flush | signer/gossip/state.go:107-114 | moves one object's entry from the in-flight layer to the HAMT |
| StateModel.GlobalState.BackgroundProcess | signer/gossip/state.go:98-137 | in any visiting order, ends with the HAMT equal to that map and nothing in flight |
| StateModel.FlushKeepsLatest | signer/gossip/state.go:98-137 | any part of a flush, in any order, leaves the map unchanged |
| StateModel.FlushedHamt | signer/gossip/state.go:98-137 | flushing everything leaves the map in the HAMT alone |
| StateModel.FindReadsLatest | signer/gossip/state.go:62-96 | a lookup depends on the map only, and never fails on a backed state |
| StateModel.FindUnaffectedByFlush | signer/gossip/state.go:62-137 | lookups are the same before, during and after any part of a flush |
| StateModel.InflightsOverlay | signer/gossip/state.go:53-60 | adding a checkpoint overlays exactly its requests and leaves the HAMT alone |
| StateModel.CheckpointOrderIrrelevant | signer/gossip/node.go:518-565 | the order of requests within a checkpoint does not matter |
| History.ChainsAreGapless | signer/gossip/node.go:493-577 | decisions that extend the chains keep every chain gapless, with the ledger holding its end |
| History.CommittedStandsInChain | signer/gossip/node.go:493-577 | a committed request stands in its object's chain at its own height |
| History.NoFork | signer/gossip/node.go:493-577 | two committed requests of one object and height are one request |
| SignerInvariant.CurrentIsChainEnd | signer/gossip/node.go:761-773 | getCurrent answers with the end of the object's chain, and fails exactly if the previous round cannot be found |
| SignerInvariant.ArriveKeeps | signer/gossip/node.go:649-730 | an arriving request keeps the invariant |
| SignerInvariant.QueueKeeps | signer/gossip/node.go:732-736 | queueing a request beyond the next height keeps the invariant |
| SignerInvariant.StoreKeeps | signer/gossip/node.go:742-759 | storing a request that continues its chain keeps the invariant |
| SignerInvariant.StartKeeps | signer/gossip/snowballnetwork.go:66-104 | proposing the preferred requests keeps the invariant |
| SignerInvariant.PollKeeps | signer/gossip/snowballnetwork.go:128-179 | a filtered poll keeps the invariant: everything voted on can be committed |
| SignerInvariant.PoolAfterCommit | signer/gossip/node.go:529-577 | after a commit the mempool again holds only requests at the next height on the current tip |
| SignerInvariant.QueueAfterCommit | signer/gossip/node.go:529-577 | after a commit everything queued lies strictly beyond the next height |
| SignerInvariant.CommitKeeps | signer/gossip/node.go:493-577 | a commit keeps the invariant |
| SignerInvariant.FlushKeeps | signer/gossip/state.go:98-137 | a step of any round's background flush keeps the invariant |
| SignerInvariant.PublishKeeps | signer/gossip/node.go:417-491 | publishing and storing a flushed round keeps the invariant |
| SignerInvariant.RepublishKeeps | signer/gossip/node.go:467-474 | republishing keeps the invariant |
| SignerInvariant.EvictKeeps | signer/gossip/rounds.go:146-180 | evicting a cached round keeps the invariant |
| SignerInvariant.ResumeKeeps | signer/gossip/node.go:174-212 | resuming after the round recorded last keeps the invariant if nothing beyond it was signed |
| SignerInvariant.ResumeKeepsExactly | signer/gossip/node.go:174-212 | in every reachable state resuming keeps the invariant exactly if nothing beyond the round recorded last was signed |
| SignerInvariant.RunKeeps | signer/gossip/node.go:379-399 | every state of every run satisfies the invariant |
| SignerInvariant.ChainsNeverFork | signer/gossip/node.go:493-740 | in every reachable state each object's committed requests form one gapless chain, the mempool sits at its next height on its tip, queued requests lie beyond, and no two committed requests share object and height |
| SignerInvariant.DecidedRequestsAreHeld | signer/gossip/node.go:529-560 | when Snowball has decided, every request of the checkpoint is in the mempool and no object appears twice |
| SignerInvariant.OneRoundPerHeight | signer/gossip/node.go:401-474 | a signer signs one round per height, republishing included, and restarts with nothing signed beyond the round recorded last |
| SignerInvariant.PublishedStateIsFold | signer/gossip/node.go:417-465 | a signed round carries the fold of all decisions up to its height, and the checkpoint decided there |
| SignerInvariant.RestoredRoundLooksLive | signer/gossip/rounds.go:95-167 | a persisted round has the same height, checkpoint and lookups from the cache and from storage |
| SignerInvariant.PreviousRoundMissing | signer/gossip/node.go:761-773 | reading the current request fails exactly if the previous round is neither cached nor stored |
| SignerEffects.ContinuesExactly | signer/gossip/node.go:672-729 | continuing the ledger is being at the chain's next height on its last tip, and lying beyond it is having a greater height |
| SignerEffects.ArrivalExactly | signer/gossip/node.go:649-759 | an arriving request goes into store and mempool exactly if it comes next in its chain, into the queue exactly if it lies beyond, and changes nothing else |
| SignerEffects.FilteredExactly | signer/gossip/snowballnetwork.go:145-177 | an answer counts as itself exactly if it lists requests, all held and no two of one object, and else as empty |
| SignerEffects.StartExactly | signer/gossip/snowballnetwork.go:66-104 | a round proposes at its height, for every object with requests, the one with the least CID, and nothing if there is none |
| SignerEffects.CommitReleasesExactly | signer/gossip/node.go:529-560 | after a commit the mempool holds exactly the requests of other objects and the queued requests that succeed a decided one, and the store has gained exactly the latter |
| SignerEffects.CommitQueueExactly | signer/gossip/node.go:543-557 | exactly the queued requests at the height after a decided one leave the queue |
| SignerEffects.CommitRecordsExactly | signer/gossip/node.go:518-577 | a commit records the decision, moves to the next height with a fresh Snowball, and answers for decided objects with their decided requests and for others as before |
| SignerEffects.LookupExactly | signer/gossip/rounds.go:146-167 | a lookup that restores a round caches it and spoils no other lookup |
| SignerEffects.PublishExactly | signer/gossip/node.go:417-491 | publishing signs, stores, records and remembers the round its decisions lead to, and makes it republishable while the signer is idle |
| SignerEffects.ResumeExactly | signer/gossip/node.go:174-212 | a restarted signer is at the height after the round recorded last and answers with the chains as of that round |
| NodeModel.Node.constructor | signer/gossip/node.go:105-172 | a fresh signer in the initial state |
| NodeModel.Node.Resume | signer/gossip/node.go:174-212 | a signer built on the stores of one that went down is a restart step, and keeps the invariant |
| NodeModel.Node.GetRound | signer/gossip/rounds.go:146-167 | serves a round from the cache, or restores and caches it |
| NodeModel.Node.StoreAbr | signer/gossip/node.go:742-759 | puts the request into store and mempool |
| NodeModel.Node.HandleAddBlockRequest | signer/gossip/node.go:649-730 | is an arrival step of the state machine and keeps its invariant |
| NodeModel.Node.Judge | signer/gossip/node.go:674-730 | drops, stores or queues a request by comparing it with the current one |
| NodeModel.Node.MempoolHasAllABRs | signer/gossip/snowballnetwork.go:274-293 | true exactly if all requests are held |
| NodeModel.Node.HasConflictingABRs | signer/gossip/snowballnetwork.go:296-319 | false exactly if all requests are held and no two share object and height |
| NodeModel.Node.Start | signer/gossip/snowballnetwork.go:66-104 | is a start step, once per round, and keeps the invariant |
| NodeModel.Node.DoTick | signer/gossip/snowballnetwork.go:128-179 | is a poll step over the filtered answers and keeps the invariant |
| NodeModel.Node.HandleSnowballerDone | signer/gossip/node.go:493-577 | is a commit step and keeps the invariant; fails exactly if the previous round cannot be found |
| NodeModel.Node.Overlay | signer/gossip/node.go:518-559 | the previous state with the decided requests in flight |
| NodeModel.Node.PromoteQueued | signer/gossip/node.go:529-560 | looks every decided request up and releases what is queued behind it |
| NodeModel.Node.Release | signer/gossip/node.go:529-560 | takes the queued successor off the queue, and stores it if it builds on the request |
| NodeModel.Node.Lock | signer/gossip/node.go:560-577 | clears the mempool, completes the round and begins the next |
| NodeModel.Node.FlushOne | signer/gossip/state.go:98-137 | is a flush step and keeps the invariant |
| NodeModel.Node.PublishStep | signer/gossip/node.go:436-465 | the round built from height, HAMT and checkpoint is stored, signed, and remembered for republishing |
| NodeModel.Node.PublishCompletedRound | signer/gossip/node.go:417-491 | is a publish step, keeps the invariant, and signs and remembers the round |
| NodeModel.Node.RepublishCompletedRound | signer/gossip/node.go:467-474 | is a republish step and keeps the invariant |
| SignatureModel.SignerCount | sdk/signatures/signature.go:224-232 | the number of distinct signers named |
| SignatureModel.VerifiesExactly | sdk/signatures/signature.go:143-173 | a signature determines its message, and key and message determine the signature |
| SignatureModel.BLSSign | sdk/signatures/signature.go:234-257 | a signature naming one member once; fails exactly for an index outside the group |
| SignatureModel.RestoreBLSPublicKey | sdk/signatures/signature.go:111-141 | the group key a vector stands for; fails exactly if lengths differ |
| SignatureModel.AggregateBLSSignatures | sdk/signatures/signature.go:278-322 | succeeds exactly if types and lengths agree and no per-signer total exceeds 2^32 - 1; gives pointwise sums |
| SignatureModel.AggregateNamesUnion | sdk/signatures/signature.go:278-322 | an aggregate names exactly the signers some part names |
| SignatureModel.AggregateKeyRestores | sdk/signatures/signature.go:111-141 | the summed key is the one restored from the summed vector |
| SignatureModel.AggregateIsValid | sdk/signatures/signature.go:143-173 | the aggregate of valid signatures over one message is valid under the restored key |
| SignatureModel.AggregateOrderIrrelevant | sdk/signatures/signature.go:278-322 | neither success nor result depends on order |
| NotaryGroupModel.NotaryGroup.constructor | sdk/gossip/types/notarygroup.go:35-47 | an empty group |
| NotaryGroupModel.NotaryGroup.AddSigner | sdk/gossip/types/notarygroup.go:58-62 | adds the member and keeps the ids listed in order |
| NotaryGroupModel.NotaryGroup.AllSigners | sdk/gossip/types/notarygroup.go:64-70 | the members in the order of their ids |
| NotaryGroupModel.NotaryGroup.IndexOfSigner | sdk/gossip/types/notarygroup.go:77-84 | the first index of a member, none for a stranger |
| NotaryGroupModel.NotaryGroup.QuorumCount | sdk/gossip/types/notarygroup.go:90-92 | the least number that is two thirds of the group |
| NotaryGroupModel.IndicesAgree | sdk/gossip/types/notarygroup.go:58-84 | members have the same indices whatever order they were added in |
| NotaryGroupModel.IndicesDistinctExactly | sdk/gossip/types/notarygroup.go:58-62 | indices are unambiguous exactly if nobody was added twice |
| NotaryGroupModel.QuorumIsTwoThirds | sdk/gossip/types/notarygroup.go:90-92 | the rounded-up float expression is the least integer at least two thirds of the size |
| NotaryGroupModel.QuorumsShareHonest | sdk/gossip/types/notarygroup.go:90-92 | two quorums share a member outside any minority below a third |
| RoundSubscriberModel.Verify | sdk/signatures/signature.go:143-173 | decides whether a point is exactly the key's pairs with the message |
| RoundSubscriberModel.RoundSubscriber.constructor | sdk/gossip/client/roundsubscriber.go:94-106 | a client that has seen nothing |
| RoundSubscriberModel.RoundSubscriber.HandleMessage | sdk/gossip/client/roundsubscriber.go:206-249 | performs the specified step, and notifies exactly if the current round changed and can be fetched |
| RoundSubscriberModel.RoundSubscriber.Add | sdk/gossip/client/roundsubscriber.go:49-75 | the confirmation itself if it is the first, else the aggregate with the one known, unless that overflows |
| RoundSubscriberModel.RoundSubscriber.HandleQuorum | sdk/gossip/client/roundsubscriber.go:251-300 | makes the round current, drops all heights up to it, and notifies exactly if everything can be fetched and read |
| RoundSubscriberModel.CollectedOk | sdk/gossip/client/roundsubscriber.go:206-264 | after any messages everything a client stores is a valid signature under its restored key, and its current round has a quorum |
| RoundSubscriberModel.CurrentHasQuorum | sdk/gossip/client/roundsubscriber.go:45-75 | the current round was signed by a quorum of distinct members |
| RoundSubscriberModel.HandledExactly | sdk/gossip/client/roundsubscriber.go:206-264 | a message that passes the checks adds its signers to those counted for its round unless a counter would overflow; with a quorum the round becomes current and everything up to its height is dropped |
| RoundSubscriberModel.IgnoredExactly | sdk/gossip/client/roundsubscriber.go:214-226 | a stale or invalid message changes nothing |
| RoundSubscriberModel.HandleMovesUp | sdk/gossip/client/roundsubscriber.go:206-264 | a message leaves the current round alone or moves it to a greater height |
| RoundSubscriberModel.HeightsIncrease | sdk/gossip/client/roundsubscriber.go:206-264 | over any messages current heights never go down, and a height keeps its confirmation |
| RoundSubscriberModel.CurrentGenuine | sdk/gossip/client/roundsubscriber.go:206-264 | from messages carrying their round's height, the current round carries its height |
| RoundSubscriberModel.SingleIsAcceptable | sdk/signatures/signature.go:234-257 | a confirmation signed by one member passes the checks made on arrival |
| RoundSubscriberModel.HeardOnceDelivered | sdk/gossip/client/roundsubscriber.go:49-75 | a delivered signature is never forgotten: later messages leave it counted until the client is at its height |
| RoundSubscriberModel.QuorumIsAdopted | sdk/gossip/client/roundsubscriber.go:206-264 | once a quorum's confirmations of one round have been delivered, in any order and among any other messages, the client is at that height or beyond |
| ProofModel.VerifyRoundConfirmation | sdk/proof/proof.go:18-41 | true exactly for a quorum and a valid signature; an error exactly for a quorum with a vector of the wrong length |
| ProofModel.FindRequest | sdk/proof/proof.go:90-105 | finds the request exactly if it is listed before any unreadable CID, and fails exactly if one comes first |
| ProofModel.Verify | sdk/proof/proof.go:43-134 | true exactly if confirmation, round, checkpoint, request, tip and object belong together; an error exactly if something met on the way is malformed |
| ProofModel.DeliveredExactly | sdk/gossip/client/roundsubscriber.go:161-169 | a subscriber is handed a proof exactly if the current round's checkpoint lists its request, and it is about that request and round |
| ProofModel.DeliveredProofVerifies | sdk/proof/proof.go:43-134 | after any messages, the proof a client delivers for a listed request verifies exactly if the new tip is a CID, and is otherwise reported malformed |
| AgreementModel.SharedWitness | sdk/gossip/types/notarygroup.go:90-92 | two quorum confirmations were both signed by one honest signer |
| AgreementModel.ConfirmedRoundsAgree | signer/gossip/node.go:401-474 | quorum-confirmed rounds of one height are equal |
| AgreementModel.ClientsAgreeExactly | sdk/gossip/client/roundsubscriber.go:206-264 | two clients fed any messages hold the same round if and only if the rounds they hold have the same height |
| AgreementModel.ClientsAgree | sdk/gossip/client/roundsubscriber.go:206-264 | two clients fed any messages carrying their rounds' heights never hold different rounds for one height |
| AgreementModel.AgreementNeedsGenuineHeights | sdk/gossip/client/roundsubscriber.go:206-264 | next to a client whose round is correctly labelled, a client claiming the same height after any messages agrees exactly if its round is correctly labelled too |
| AgreementModel.RelabelledIsAdopted | sdk/gossip/client/roundsubscriber.go:206-249 | a fresh client adopts a quorum confirmation under whatever height it claims |
| AgreementModel.RelabellingSplits | sdk/gossip/client/roundsubscriber.go:206-249 | relabelling one of two different quorum-confirmed rounds makes two fresh clients disagree at one height |
| AgreementModel.ProvenIsCommitted | sdk/proof/proof.go:43-134 | the request of a verified proof was committed by every honest signer of its round |
| AgreementModel.ProofsNeverFork | sdk/proof/proof.go:43-134 | two verified proofs about one object and height are about one request and tip |
| AgreementModel.ProofsLinkUp | sdk/proof/proof.go:43-134 | of two verified proofs of successive heights the later request builds on the tip of the earlier |
| AgreementModel.ProvenStatesAgree | sdk/proof/proof.go:43-134 | verified proofs of one round height carry one round and checkpoint |
| GraftedOwnershipModel.ResolveOwners | sdk/gossip/types/graftedownership.go:277-280 | fails exactly if a cycle or an unreadable tree is reachable, for a reason that is true, and else returns exactly the reachable addresses |
| GraftedOwnershipModel.ResolveOwnersRecursively | sdk/gossip/types/graftedownership.go:193-275 | computes the specified walk, on every graph |
| GraftedOwnershipModel.ResolveItems | sdk/gossip/types/graftedownership.go:221-256 | the loop over authentications, stopping at the first failure |
| GraftedOwnershipModel.ResolveItem | sdk/gossip/types/graftedownership.go:225-255 | one authentication: a tree, an address unless it is a tupelo DID, or a nested list |
| GraftedOwnershipModel.StepsOwner | sdk/gossip/types/graftedownership.go:221-269 | a tree names the address behind its DID if it has no authentications, listed addresses that are no tupelo DIDs, and all addresses of nested lists |
| GraftedOwnershipModel.StepsGraft | sdk/gossip/types/graftedownership.go:221-262 | a tree points to a single tree, a listed one or one in a nested list |
| GraftedOwnershipModel.StepsBad | sdk/gossip/types/graftedownership.go:248-272 | a tree is unreadable exactly if something in it is neither address nor tree |
| GraftedOwnershipModel.FailsExactly | sdk/gossip/types/graftedownership.go:193-275 | the walk fails exactly if some path from the origin closes a cycle or ends at an unreadable tree |
| GraftedOwnershipModel.LoopExactly | sdk/gossip/types/graftedownership.go:210-212 | a reported loop is a reachable cycle; without unreadable trees a loop is reported exactly for cycles, so diamonds are accepted |
| GraftedOwnershipModel.OwnersExactly | sdk/gossip/types/graftedownership.go:221-274 | a successful walk returns exactly the addresses named by reachable trees, genesis addresses included |
| TokenNames.DidRoundTrip | sdk/consensus/consensus.go:78-91 | an address survives becoming a DID and back exactly if it has no colon |
| TokenNames.AddressIsBehind | sdk/consensus/consensus.go:88-91 | the address of a DID is exactly what comes after its last colon |
| TokenNames.PrintThenParse | sdk/consensus/transactions.go:131-146 | a printed token name is read back exactly if its local name has no colon |
| TokenNames.ParseThenPrint | sdk/consensus/transactions.go:131-146 | a string is printed back exactly if it has a colon |
| TokenNames.PrintInjective | sdk/consensus/transactions.go:131-133 | token names without colons in their local names never share a printed form |
| TokenNames.CanonicalTokenName | sdk/consensus/transactions.go:148-192 | a full name stands for itself, a local name for the tree's only token of that name or a new one of its own; errors exactly for ambiguity or a foreign name where the own is required |
| TreeLedgerModel.TreeLedger.constructor | sdk/consensus/tree_ledger.go:62-67 | a ledger over the given tree and name |
| TreeLedgerModel.TreeLedger.SumTokenTransactions | sdk/consensus/tree_ledger.go:129-149 | the true sum modulo 2^64 |
| TreeLedgerModel.TreeLedger.CreateToken | sdk/consensus/tree_ledger.go:180-199 | an empty token under the name, other tokens unchanged |
| TreeLedgerModel.TreeLedger.EstablishToken | sdk/consensus/tree_ledger.go:201-220 | an empty token with the policy under the name |
| TreeLedgerModel.TreeLedger.MintToken | sdk/consensus/tree_ledger.go:222-282 | accepted exactly under the minting rule; logs and adds the amount |
| TreeLedgerModel.TreeLedger.SendToken | sdk/consensus/tree_ledger.go:284-335 | accepted exactly for a positive amount within the balance; logs and subtracts it |
| TreeLedgerModel.TreeLedger.ReceiveToken | sdk/consensus/tree_ledger.go:337-409 | accepted exactly if the send id is new; creates the token if need be, logs and adds the amount |
| TreeLedgerModel.MintKeeps | sdk/consensus/tree_ledger.go:222-282 | minting keeps the ledger invariant |
| TreeLedgerModel.SendKeeps | sdk/consensus/tree_ledger.go:284-335 | sending keeps the ledger invariant |
| TreeLedgerModel.ReceiveKeeps | sdk/consensus/tree_ledger.go:337-409 | receiving keeps the ledger invariant |
| TreeLedgerModel.LedgerOk | sdk/consensus/tree_ledger.go:180-409 | after any operations the balance is mints plus receives minus sends modulo 2^64, and no send id was received twice |
| TreeLedgerModel.LedgerExact | sdk/consensus/tree_ledger.go:180-409 | while mints plus receives are below 2^64 the balance is exact and mints are within a positive Maximum |
| TreeLedgerModel.MintAcceptedExactly | sdk/consensus/tree_ledger.go:224-253 | a mint is accepted exactly if it is positive, the token has a policy, and the true total with it is, modulo 2^64, at most the Maximum, or there is none |
| TreeLedgerModel.SendAcceptedExactly | sdk/consensus/tree_ledger.go:287-303 | while mints plus receives are below 2^64 a send is accepted exactly if it is positive and the logs cover it |
| TreeLedgerModel.CapExactly | sdk/consensus/tree_ledger.go:244-253 | an accepted mint respects a positive Maximum exactly if the true total is below 2^64 |
| TreeLedgerModel.CapInRuns | sdk/consensus/tree_ledger.go:244-253 | in every run mints are within a positive Maximum exactly if their true total is below 2^64 |
| TreeLedgerModel.CapCanWrap | sdk/consensus/tree_ledger.go:244-253 | with a Maximum of 100, mints of 50 and 2^64 - 10 are both accepted |
| Transactions.EstablishTokenTransaction | sdk/consensus/transactions.go:194-228 | establishes the tree's own token of that name unless it exists; no policy means no Maximum |
| Transactions.MintTokenTransaction | sdk/consensus/transactions.go:230-249 | mints the tree's own token as the ledger allows |
| Transactions.SendTokenTransaction | sdk/consensus/transactions.go:251-270 | sends any token of the tree as the ledger allows |
| Transactions.TokenPayloadForTransaction | sdk/consensus/transactions.go:303-354 | the first send with the id, for a canonical name; fails exactly if there is none |
| Transactions.ReceiveTokenTransaction | sdk/consensus/transactions.go:482-524 | receives the amount of the payload's send under its transaction id, touching only the payload's token |
| Transactions.IsTokenRecipient | sdk/gossip/types/validators.go:45-86 | true exactly if every receive in the block is for its own tree |
| Conservation.StepShape | sdk/consensus/transactions.go:194-524 | every transaction changes one token of one tree, by one accepted ledger operation |
| Conservation.ClaimedOnce | sdk/consensus/tree_ledger.go:359-379 | with receives logged under the ids of their sends, a send is received at most once |
| Conservation.StepConserves | sdk/consensus/tree_ledger.go:222-409 | a transaction changes mints minus balances minus pending sends by 2^64 if a balance wraps, by minus the amount if it receives a send again, and by nothing otherwise |
| Conservation.TokensAccounted | sdk/consensus/transactions.go:482-524 | in every run, balances plus pending sends plus 2^64 per wrap equal mints plus what was received again |
| Conservation.TokensAreConserved | sdk/consensus/transactions.go:482-524 | in every run: without wraps, balances plus pending sends equal mints exactly if no send was received twice; without repeated receives they are equal modulo 2^64, exactly if no balance wrapped, and so while less than 2^64 was minted |
| Conservation.OwnIdsNeverRepeat | sdk/consensus/transactions.go:303-354 | in every run whose receives are logged under the ids of their sends no send is received twice |
| Conservation.ReceivableAgain | sdk/consensus/transactions.go:513-518 | after any receive the same send is accepted again under any id not logged yet |
| Conservation.DoubleReceive | sdk/consensus/transactions.go:513-518 | a run in which all that was minted is received under two ids, doubling the balances |
| Conservation.OnlyTheIssuerMints | sdk/consensus/transactions.go:148-249 | in every run a token is minted only by trees whose DID its name starts with, and two such trees are one exactly if their DIDs have one length |
| RefTracking.StoreWrapper.constructor | sdk/reftracking/reftracking.go:77-83 | a wrapper with nothing recorded |
| RefTracking.StoreWrapper.GetNode | sdk/reftracking/reftracking.go:39-47 | answers from the store and records a hit unless the program added it |
| RefTracking.StoreWrapper.AddNode | sdk/reftracking/reftracking.go:49-55 | adds the node and records it as new |
| RefTracking.StoreWrapper.CidToNodes | sdk/reftracking/reftracking.go:65-75 | exactly the nodes of the ids, each once |
| RefTracking.StoreWrapper.TouchedNodes | sdk/reftracking/reftracking.go:57-59 | a store of exactly the touched nodes |
| RefTracking.StoreWrapper.NewNodes | sdk/reftracking/reftracking.go:61-63 | a store of exactly the added nodes |
| RefTracking.TouchedWereStored | sdk/reftracking/reftracking.go:39-55 | touched nodes all come from the original store |
| RefTracking.ReplayNeedsExactlyTouched | sdk/gossip/client/processblocks.go:55-74 | on part of the store a program gets its original answers exactly if the part holds all touched nodes, and so on the touched nodes alone |

## Left out

- Networking, discovery, streams, deadlines and the actor machinery: arbitrary deliveries and answers stand in for them.
- Real cryptography, CBOR, the HAMT and the chain-tree DAG: ideal values stand in for them, and stores never fail on a write.
- Malformed encodings, except unreadable CIDs in proofs and notifications and unreadable trees in ownership resolution.
- Signature conditions and ECDSA signatures: a foreign evaluator and foreign cryptography.
- Crashes between the two datastore writes of storeCompletedRound: storing, recording and signing a round are one step.
- SignerInvariant.OneRoundPerHeight: runs leave out restarts of a signer that signed beyond the round it recorded last, as rounds published out of order can make it do; SignerInvariant.ResumeKeepsExactly says these are the ones the invariant does not survive.
- The goroutine at signer/gossip/node.go:549, which stores a released request: it is part of the commit step.
- Cross-signer Snowball convergence: it is probabilistic.
- Aliasing of vote objects between Snowball's fields: votes are values.
- Validation of blocks before they reach the signer, and syncing of missing requests: an arriving request is taken as validated.
- Loop detection inside GlobalResolve of the graftable DAG: not part of this repository; what an authentications path resolves to is given.
- Setting data, ownership, stake and burn transactions: they would only add easy members.
- NodeModel.Node.HandleAddBlockRequest: object ids have the DID form, because the concatenated keys are ambiguous for other ids.
- NotaryGroupModel.NotaryGroup.IndexOfSigner: the source panics for a stranger; the model returns no index.
- NodeModel.Node.GetRound: does not serve the current height, which has neither checkpoint nor state yet and which no modelled handler asks for.
- Transactions.ReceiveTokenTransaction: which token and send the leaves of a payload show is given, not searched for among the leaves.
- TreeLedgerModel.TreeLedger.MintToken: refuses a token without a policy, taking it that resolving a missing policy node is an error; that code is not part of this repository, and Conservation.OnlyTheIssuerMints rests on it, since a local name can stand for a foreign token the tree holds.
