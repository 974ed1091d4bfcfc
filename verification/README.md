# swarmint: learning core, signed transport and directory, verified

This project models the Byzantine-robust core of swarmint and proves what it
promises about it. A node keeps a bounded set of labelled prototypes, merges the
prototypes its peers gossip only when a local holdout or a quorum of distinct
senders supports them, and talks to its peers through signed, replay-guarded
datagrams, if need be through relays it does not trust. Around that sit a signed
hash chain of model checkpoints, a soft-state directory of beacons, a
hole-punching handshake, a chunked form of trust calibration and an allocator
that spreads classes over nodes.

Floats are reals, vectors are `seq<real>`, and distances are compared squared.
Clocks, random choices, packet loss, message order and the iteration order of
tables are parameters or nondeterministic steps. Hashes are injective and
signatures ideal: a signature value says which key signed which content.

`dafny verify dfyconfig.toml` checks the whole project.

## Layout

- `Seqs.dfy`: sequences, bounded windows, chunking, permutations, index sets.
- `Prototypes.dfy`, `PrototypeModel.dfy`: prototypes and the model class; what
  pruning, learning and merging may produce, whatever way ties break.
- `PruneTheorems.dfy`, `LearnTheorems.dfy`, `MergeTheorems.dfy`: what they keep.
- `Nearness.dfy`, `Scoring.dfy`: what distance, region, key and holdout score mean, and
  that pruning and learning act on the nearest.
- `Removal.dfy`: pruning as written, with a list removal that may raise.
- `SwarmNode.dfy`, `NodeRuns.dfy`, `NodeLedger.dfy`, `NodeShapes.dfy`: the node, then
  runs of samples, gossip, corrections and calibrations from arbitrary senders:
  where labels come from, what is spent, and which vector shapes get in.
- `GossipLaws.dfy`, `CommitLaws.dfy`, `RaiseLaws.dfy`: which prototypes reach the merge,
  exactly when one is committed or rolled back, and which shapes raise.
- `Identity.dfy`, `UdpBus.dfy`, `Delivery.dfy`, `RelayNetwork.dfy`: envelopes and
  the replay guard, the bus, its honest round trips, then many buses and an
  adversary that owns the network.
- `UpdateChain.dfy`, `Reassembly.dfy`: the checkpoint chain and its chunked fetch.
- `HolePunch.dfy`: the handshake as a cascade of datagrams routed by address.
- `Federation.dfy`, `BeaconLaws.dfy`, `FederationRuns.dfy`, `Zombies.dfy`,
  `Directory.dfy`, `Census.dfy`: beacons.
- `ClassCoverage.dfy`, `Rotation.dfy`, `CoverageBounds.dfy`: the class allocator, when
  it never gets stuck, and what it guarantees when it does.
- `Calibration.dfy`, `CalibrationRounds.dfy`, `CalibrationLaws.dfy`: calibration over
  the network, and what it makes of a peer's answers.

The classes keep swarmint's fields and update them in place; each method is
proved equal to a specification function or relation, and the theorems are about
those; the laws say what they compute without naming them. Where swarmint leaves a tie to its numeric library, the relation allows
every way to break it, so the theorems hold for all of them.

## Where the code and its documentation differ

- "Merging is order-invariant" (swarmint/core/prototype_model.py:3). Two members of
  one batch that contradict each other are settled by order. `OrderMatters` gives a
  pair; `OrderInvariantExactly` and `MergeOrderInvariantExactly` give the exact
  condition, for dropping and for evicting senders alike. Once a batch overflows the
  budget, ties count too (`OverflowOrderMatters`).
- With more labels than the budget, pruning is to drop the lightest prototype, but
  the list removal (swarmint/core/prototype_model.py:136) asks arrays for a truth
  value and raises. `SecondCannotGo` is an input; `RaisesExactly` gives the exact
  condition, on the labels' weights and order; `FittingLabelsComplete` says that it
  never happens while the labels fit.
- "Guarantee every class is covered" (swarmint/sim/run_multiproc.py:139). The greedy
  loop can run out of eligible nodes for a class. `SlotsAreNotEnough` gives three
  nodes and three classes. `CoverageGuaranteed` proves the promise from a condition
  on the arguments, `classes_per_node * gcd(n_nodes, n_classes) <= n_classes` or
  every class on every node; `AtLeastHalfThePlan` and `MinimumFromTheNumbers` say
  what holds for all arguments; `PlanKeptExactly` and `CoverageExactly` are the
  equivalences in terms of the loop they rest on. Outside the condition the loop
  may or may not get stuck, and no closed form is given for when it does.
- A vector of another shape than the node's own should be rejected
  (swarmint/core/prototype_model.py:166-171), and is, once the model holds a
  prototype. On an empty model there is no shape to compare with: `ThreeCorrections`
  commits a vector of any length on a fresh node, `StepFitsExactly` and
  `ModelFitsExactly` say exactly when a foreign shape gets in,
  `OnceStartedFits` that it never does later, and `ForeignShapeBlocks` what follows.
- The TTL is meant to handle the freshness of adverts
  (swarmint/network/federation.py:304), which are verified without a clock. But an
  echoed advert counts as heard now once the guard has forgotten its nonce, so
  whether echoes keep a dead beacon listed depends on the window. `EchoRevives` is,
  for a window of any size, a run in which a dead beacon returns. `EchoRelistsExactly`
  and `EchoRenewsExactly` say when an echo lists it again or keeps it listed, and
  `DeadBeaconIsDropped` that neither happens while the window reaches back far enough.
- Consolidation is meant to average, but weights off the wire may be negative
  (swarmint/network/wire.py:69-71): `OppositeWeightsEscape` and `MeanBetweenExactly`.
- A learned vector of one coordinate combines with any other but does not stack
  with it, and the raise leaves the model over its budget: `MixedShapesOverrun`,
  `LearnBoundedExactly` and, over runs, `LearnRunBoundedExactly`.
- No signature binds the recipient: `HandedToAnother` is a run in which a message
  sent to one node is handed over at another. `HandedToAnotherExactly` says that some
  run does so if and only if that node has a codec for the kind; without one it is
  never handed anything of the kind, in any run (`HandedIsKnown`).
- The calibration client counts replies rather than chunks
  (swarmint/inference/rpc.py:198). `RepeatedReplySpoils` shows a repeated reply
  ending the wait with a hole in the table; `CompleteExactlyWithoutRepeats` gives the
  exact condition.
- A chain checked without an expected owner may change owners midway:
  `OwnersMayMix` and `OwnerCheckAddsExactly`.
- A stale beacon advert leaves the directory entry alone but still replaces the
  address the bus dials (swarmint/network/federation.py:314-317);
  `StaleAdvertMovesTheDial` shows it, `DialsTheListedExactly` says when the two agree.
- A captured envelope is accepted again once the replay window has moved on:
  `CapturedEnvelopeReturns` for a window of any size, exactly when in
  `AcceptedExactlyWhen`, and the rate
  below which it never happens in `AcceptedAtMostOnce`.

## Model

| member | source | states |
|---|---|---|
| Prototypes.RoundHalfEven | swarmint/core/prototype_model.py:20-22 | the quantised coordinate of a key is the nearest integer, ties to even |
| Prototypes.Nearest | swarmint/core/prototype_model.py:53-58 | prediction uses the first prototype at minimal distance |
| Prototypes.Accuracy | swarmint/core/prototype_model.py:82-90 | a fraction in [0, 1], zero without prototypes or samples |
| Scoring.AccuracyIsRight | swarmint/core/prototype_model.py:82-90 | the accuracy is the share of the samples whose first nearest prototype has their label, counted as a set of positions |
| Scoring.ExtremeScores | swarmint/core/prototype_model.py:82-90 | it is one if and only if every sample is right, and zero if and only if none is |
| Scoring.ScoreGap | swarmint/node/swarm_node.py:158-162 | one score is more than 0.02 below another if and only if more than a fiftieth of the samples was lost |
| Nearness.Dist2Snoc | swarmint/core/prototype_model.py:132 | within one shape each coordinate adds the square of its difference |
| Nearness.Dist2ZeroExactly | swarmint/core/prototype_model.py:132 | within one shape only equal vectors are at distance zero |
| Nearness.Dist2Repeats | swarmint/core/prototype_model.py:103 | a single coordinate counts in every dimension |
| Nearness.NearOnALine | swarmint/node/swarm_node.py:106 | on a line a region is an open interval of the given radius |
| Nearness.SameKeyIsClose | swarmint/core/prototype_model.py:20-22 | prototypes with one key agree in label and shape and, up to a ten-thousandth, in every coordinate |
| PrototypeModels.PrototypeModel.FindClosestPair | swarmint/core/prototype_model.py:121-135 | finds two prototypes of one label at the least distance of any such two, and none only if all labels are distinct |
| PrototypeModels.PrototypeModel.FindLightest | swarmint/core/prototype_model.py:136 | finds a prototype of least weight |
| PrototypeModels.PrototypeModel.Prune | swarmint/core/prototype_model.py:118-143 | the in-place loop ends in a state the pruning relation allows, and raises exactly when over budget with one label in several shapes |
| PrototypeModels.PrototypeModel.Learn | swarmint/core/prototype_model.py:94-116 | for any shape: raises exactly where stacking, comparing or pruning does, else absorbs into a nearest prototype of the label inside the fill-dependent radius or adds one and prunes; only then is the version bumped |
| PrototypeModels.PrototypeModel.Admit | swarmint/core/prototype_model.py:162-184 | one incoming prototype is skipped, counted as a conflict, or taken after evicting what it contradicts |
| PrototypeModels.PrototypeModel.MergedWith | swarmint/core/prototype_model.py:147-187 | returns a new model holding the pruned union with its counts, or raises exactly when prototypes of several shapes get compared or pruned; the receiver is untouched |
| Nearness.RoundMergesNearest | swarmint/core/prototype_model.py:121-143 | while a label has two prototypes, a round of pruning replaces two nearest of one label by their weighted mean |
| Nearness.PruneMergesNearest | swarmint/core/prototype_model.py:118-143 | one over the budget, with one pair of a label strictly nearest, pruning merges those two and touches nothing else |
| Nearness.ThreeOnALine | swarmint/core/prototype_model.py:118-143 | of three in a row with room for two, the closer two become their midpoint |
| Nearness.LearnsByDistance | swarmint/core/prototype_model.py:94-116 | with room left, a sample is absorbed by a nearest prototype of its label if and only if one is in reach, tight below half the budget and wide above, and else becomes a prototype |
| PruneTheorems.MeanBetweenExactly | swarmint/core/prototype_model.py:139-142 | with a nonzero sum the weighted mean of two different coordinates lies between them if and only if the weights do not have opposite signs |
| PruneTheorems.OppositeWeightsEscape | swarmint/core/prototype_model.py:139-142 | weights 1 and -0.5 put the centroid of 0 and 1 at -1 |
| PruneTheorems.PairDoesNotCancel | swarmint/core/prototype_model.py:139-142 | where no two or more prototypes of a label cancel, no consolidation divides by zero |
| PruneTheorems.ConsolidateKeepsNoCancel | swarmint/core/prototype_model.py:139-143 | consolidating never makes weights cancel that did not before |
| PruneTheorems.StepConserves | swarmint/core/prototype_model.py:119-143 | a consolidation keeps every label's total weight and weighted vector sum |
| PruneTheorems.PruneSize | swarmint/core/prototype_model.py:118-143 | exactly min(budget, n) prototypes remain, with no new label and no new shape |
| PruneTheorems.PruneStaysInside | swarmint/core/prototype_model.py:118-143 | if the weights of a label never cancel and agree in sign, no coordinate leaves the range its label spanned before |
| PruneTheorems.PruneConserves | swarmint/core/prototype_model.py:118-143 | if the labels fit the budget and weights never cancel, every label keeps its weight and its weighted sum, whatever the signs |
| PruneTheorems.PruneKeepsHeaviest | swarmint/core/prototype_model.py:118-143 | otherwise the survivors are heaviest labels, one prototype each, equal to the label's weighted mean, whatever the signs |
| Removals.ByValuePrunes | swarmint/core/prototype_model.py:118-143 | where the list removal does not raise, the pruning relation allows what the loop leaves |
| Removals.ByValueEnds | swarmint/core/prototype_model.py:118-143 | the loop always completes or raises, one of the two outcomes exists for every list |
| Removals.RaisesExactly | swarmint/core/prototype_model.py:118-143 | among prototypes of one shape whose weights do not cancel, the loop raises if and only if they have several coordinates and the labels to be dropped are not the first seen, each no heavier than all after it |
| Removals.SecondCannotGo | swarmint/core/prototype_model.py:135-136 | two labels, room for one, the lightest in second place: removing it raises |
| Removals.FittingLabelsComplete | swarmint/core/prototype_model.py:118-143 | labels that fit the budget are never dropped by value, and pruning completes |
| LearnTheorems.LearnRunConserves | swarmint/core/prototype_model.py:94-143 | after any learning run from empty each label's weight is its number of samples and its weighted sum is their sum, within the budget and within the range of the samples |
| LearnTheorems.LearnBoundedExactly | swarmint/core/prototype_model.py:94-143 | one call keeps the budget if and only if it does not raise in the pruning |
| LearnTheorems.LearnRunBoundedExactly | swarmint/core/prototype_model.py:94-143 | with any number of labels and any shapes a run stays within the budget throughout if and only if no call raises in the pruning |
| LearnTheorems.LearnRunBounded | swarmint/core/prototype_model.py:94-143 | so a run of calls that complete stays within the budget |
| LearnTheorems.MixedShapesOverrun | swarmint/core/prototype_model.py:98-110 | a one-coordinate prototype and a far pair of the same label overrun a budget of one |
| MergeTheorems.UnionKeepsConflictFree | swarmint/core/prototype_model.py:158-184 | a model without two differently labelled prototypes inside the conflict radius stays so under any batch and any trust |
| MergeTheorems.UnionMembers | swarmint/core/prototype_model.py:158-184 | the union invents nothing, keeps one vector shape, never empties a nonempty model, and counts each unseen incoming prototype exactly once |
| MergeTheorems.UnionIsOrderFree | swarmint/core/prototype_model.py:158-184 | for compatible batches the loop computes an order-free description: what nothing admitted contradicts, then what is admitted |
| MergeTheorems.CompatibleIsOrderInvariant | swarmint/core/prototype_model.py:158-184 | compatible batches give one prototype multiset and one pair of counts in every order, whether contradictions drop or evict |
| MergeTheorems.DropRegimeOrderMatters | swarmint/core/prototype_model.py:176-180 | from a low-trust sender the first of two contradicting newcomers stays |
| MergeTheorems.EvictRegimeOrderMatters | swarmint/core/prototype_model.py:176-182 | from a trusted sender the last of two contradicting newcomers stays |
| MergeTheorems.ShapeOrderMatters | swarmint/core/prototype_model.py:165-173 | on an empty model the first vector shape to arrive shuts out every other |
| MergeTheorems.OrderInvariantExactly | swarmint/core/prototype_model.py:158-184 | the union is the same in every order if and only if the admissible members are pairwise compatible |
| MergeTheorems.CompatibleMergesAlike | swarmint/core/prototype_model.py:147-187 | a compatible batch whose union fits the budget merges alike in every order |
| MergeTheorems.MergeOrderInvariantExactly | swarmint/core/prototype_model.py:147-187 | for batches that fit in every order the whole merge is order-invariant if and only if the admissible members are compatible |
| MergeTheorems.OrderMatters | swarmint/core/prototype_model.py:176-184 | a concrete pair whose two orders give different models |
| MergeTheorems.OverflowOrderMatters | swarmint/core/prototype_model.py:135-187 | of two compatible newcomers of different labels and one weight, with room for one, the first to come is dropped |
| MergeTheorems.RepeatedMergeIsIdle | swarmint/core/prototype_model.py:147-187 | a low-trust batch that fitted, merged again, is accepted in no part and changes no prototype |
| SwarmNodes.SwarmNode.Observe | swarmint/node/swarm_node.py:80-87 | a sample of any shape goes to the bounded holdout or is learned, never both |
| SwarmNodes.SwarmNode.HoldoutAccuracy | swarmint/node/swarm_node.py:89-92 | scores 0 on an empty holdout without looking at the model, else the accuracy, or raises exactly when the shapes do not stack or combine |
| SwarmNodes.SwarmNode.CountVotes | swarmint/node/swarm_node.py:99-107 | per label, the distinct senders with a claim in the region |
| SwarmNodes.SwarmNode.Corroborate | swarmint/node/swarm_node.py:94-112 | buffers the claim and promotes it only on a quorum of distinct senders that no other label outvotes |
| SwarmNodes.SwarmNode.Promote | swarmint/node/swarm_node.py:148-151 | screens a list of claims one by one, each seeing the ones before it |
| SwarmNodes.SwarmNode.JudgeCandidate | swarmint/node/swarm_node.py:156-173 | commits, rolls back or ignores a candidate and moves the sender's trust accordingly; scoring may raise |
| SwarmNodes.SwarmNode.Receive | swarmint/node/swarm_node.py:136-173 | the whole new node state after a gossip message of any shapes, including every early exit and every raise |
| SwarmNodes.SwarmNode.SubmitCorrectionClaim | swarmint/node/swarm_node.py:177-208 | the whole new state and the reply, or the raise, after an anonymous correction of any shape |
| SwarmNodes.SwarmNode.CalibrateTrust | swarmint/node/swarm_node.py:226-246 | trust after asking every other peer to label the holdout |
| GossipLaws.CorroboratedExactly | swarmint/node/swarm_node.py:94-112 | promoted if and only if at least three senders claim the label in the region, the claimant included, and no other label has more claimants there |
| GossipLaws.WhoReachesTheMerge | swarmint/node/swarm_node.py:136-156 | of a message exactly the prototypes whose label the holdout covers and those the quorum promotes reach the merge, the covered ones first; the others leave claims among the last 500 |
| CommitLaws.DegradedExactly | swarmint/node/swarm_node.py:158-164 | a candidate counts as degraded if and only if it gets more than a fiftieth of the holdout less right |
| CommitLaws.ExtremeCandidates | swarmint/node/swarm_node.py:158-164 | one right on every sample never is degraded; one right on none is if and only if the model had more than a fiftieth right |
| CommitLaws.CoveredNews | swarmint/node/swarm_node.py:136-173 | a new prototype of a covered label, with room for it, is committed and trust becomes 0.7 t + 0.3, or is rolled back and trust becomes 0.7 t, the latter if and only if a contradiction overrules it or the holdout loses by it |
| CommitLaws.CoveredDuplicate | swarmint/node/swarm_node.py:167-168 | a prototype the model holds already changes nothing |
| CommitLaws.CorrectionNews | swarmint/node/swarm_node.py:177-208 | a correction without the quorum leaves its claim behind; with it, it is committed or rolled back like gossip at trust one half, and answered accordingly |
| RaiseLaws.ComparingRaises | swarmint/core/prototype_model.py:98-102 | learning raises before changing anything if and only if the label's prototypes have several shapes or one does not combine with the sample |
| RaiseLaws.LearningCompletes | swarmint/core/prototype_model.py:94-143 | it completes if and only if it gets past that and the sample is absorbed, or there is room for it, or with it every label still has one shape |
| RaiseLaws.MergingRaises | swarmint/core/prototype_model.py:147-187 | merging raises if and only if the model mixes shapes and either a new prototype of its first shape gets compared or the model is over budget with a label of several shapes |
| RaiseLaws.ScoringRaises | swarmint/core/prototype_model.py:82-90 | scoring raises if and only if the samples do not stack, or there are samples and the prototypes do not stack or combine with them |
| RaiseLaws.RaisedCorrections | swarmint/node/swarm_node.py:198-200 | a correction whose merge raises changes nothing beyond its claim and is answered with the error |
| NodeLedger.HoldoutIsRecentHistory | swarmint/node/swarm_node.py:80-87 | the holdout is always exactly the last 60 samples held out |
| NodeRuns.StepKinds | swarmint/node/swarm_node.py:136-208 | gossip and corrections either change the quarantine alone or attempt one merge of screened prototypes |
| NodeRuns.CorroboratedHasQuorum | swarmint/node/swarm_node.py:94-112 | a promoted claim has a set of at least three distinct senders that claimed its label in its region |
| NodeRuns.EveryLabelIsSourced | swarmint/node/swarm_node.py:80-208 | in every run each label in the model was observed locally or backed by a quorum around one prototype |
| NodeRuns.ColludersCannotIntroduceALabel | swarmint/node/swarm_node.py:94-112 | fewer than three colluders alone never get a label of their own into the model |
| NodeLedger.QuarantineIsRecentHistory | swarmint/node/swarm_node.py:66-108 | the quarantine is always exactly the last 500 claims buffered |
| NodeLedger.MinorityIsRefused | swarmint/node/swarm_node.py:94-112 | a camp below the quorum, or outnumbered by another label's claimants there, is refused |
| NodeLedger.TrustStaysInUnit | swarmint/node/swarm_node.py:136-246 | all trust values stay in [0, 1] in every run |
| NodeLedger.FloorIsAbsorbing | swarmint/node/swarm_node.py:139-141 | over any run a sender below the trust floor stays exactly there until a calibration asks it, and none of its gossip changes anything |
| NodeLedger.RejectionsAreBudgeted | swarmint/node/swarm_node.py:139-173 | over any run one sender's rolled-back merges never exceed four plus six times its committed ones and the calibrations that asked it |
| NodeLedger.MergesCostLittle | swarmint/node/swarm_node.py:156-172 | while the holdout is fixed k commits cost at most k times DEGRADE_EPS of its accuracy, and no commit means an untouched model |
| NodeLedger.VersionCountsEverything | swarmint/core/version.py:21-22 | the version counter is the number of samples learned to the end plus merges committed, under the node's own id |
| NodeShapes.CommitShape | swarmint/node/swarm_node.py:153-172 | a candidate that is committed has a foreign shape or size if and only if the batch opens an empty model with a foreign vector that an empty holdout or broadcasting lets pass |
| NodeShapes.StepFitsExactly | swarmint/node/swarm_node.py:80-208 | a step keeps the model in its own vector space and budget if and only if it does not open an empty model with a foreign vector |
| NodeShapes.ModelFitsExactly | swarmint/node/swarm_node.py:80-208 | the same over whole runs, whatever shapes arrive |
| NodeShapes.OnceStartedFits | swarmint/core/prototype_model.py:165-173 | a model that once holds a prototype of its own shape keeps its shape and budget for the rest of any run |
| NodeShapes.ThreeCorrections | swarmint/node/swarm_node.py:89-90 | on a fresh node three corrections of a vector of any length get it committed and reported promoted |
| NodeShapes.ForeignShapeBlocks | swarmint/node/swarm_node.py:156-158 | while model and holdout do not combine, gossip and corrections change the quarantine alone |
| Identity.ReplayGuard.Record | swarmint/network/identity.py:66-71 | the guard is a FIFO window of nonces |
| Identity.VerifyEnvelope | swarmint/network/identity.py:82-110 | accepts exactly authentic, timely, unseen envelopes, reports a replay only for otherwise good ones, and records nothing else |
| Identity.SignedIsAuthentic | swarmint/network/identity.py:48-52 | what an identity signs is accepted while fresh |
| Identity.AcceptedExactlyWhen | swarmint/network/identity.py:55-71 | a valid envelope is accepted if and only if its nonce is not among the last `capacity` recordings |
| Identity.CapturedEnvelopeReturns | swarmint/network/identity.py:66-71 | for a window of any size, an envelope accepted at 0 is accepted again at 2, inside its skew, after as many others as the window holds |
| Identity.AcceptKeepsGuard | swarmint/network/identity.py:82-110 | every acceptance keeps the window exact and repeats of a nonce at least `capacity` recordings apart |
| Identity.AcceptedAtMostOnce | swarmint/network/identity.py:55-110 | if few enough recordings fall in any window of twice the clock skew, no envelope is accepted twice |
| UdpBuses.Dedup | swarmint/network/udp_bus.py:129-138 | relay candidates keep every id and repeat none |
| UdpBuses.FirstReachable | swarmint/network/udp_bus.py:147-153 | a relay address is found if and only if some candidate other than the recipient is reachable |
| UdpBuses.UdpBus.RelayTargetAddr | swarmint/network/udp_bus.py:140-153 | the address to relay through, for relay-only recipients |
| UdpBuses.UdpBus.Send | swarmint/network/udp_bus.py:168-202 | the datagrams and counters of a chunked, possibly wrapped send |
| UdpBuses.UdpBus.ForwardRelay | swarmint/network/udp_bus.py:235-247 | forwards the blob untouched to a target it can reach |
| UdpBuses.UdpBus.ReceiveRelayed | swarmint/network/udp_bus.py:249-277 | verifies the origin's own envelope, learns the way back, hands over the inner message |
| UdpBuses.UdpBus.OnDatagram | swarmint/network/udp_bus.py:204-231 | the whole effect of one datagram: new state, messages handed over, datagrams sent |
| UdpBuses.ChunksRebuild | swarmint/network/udp_bus.py:184-189 | chunks concatenate back to the payload, each within the size, and there are no more than needed |
| Delivery.DirectDelivery | swarmint/network/udp_bus.py:168-231 | if the sender holds the receiver's address, the receiver's application gets exactly the chunks that fitted and were not lost, in order and in the sender's name; with none dropped, the payload whole |
| Delivery.RelayHop | swarmint/network/udp_bus.py:194-247 | a wrapped chunk reaches the relay and leaves it as one datagram around the untouched inner envelope |
| Delivery.LastHop | swarmint/network/udp_bus.py:249-277 | the destination hands over the origin's chunk, both envelopes passing one replay window |
| Delivery.RelayedDelivery | swarmint/network/udp_bus.py:168-277 | the same round trip through a relay that holds the target's address, each datagram going where it was dialled: the payload whole, in order, in the origin's name |
| Delivery.AnswersGoBack | swarmint/network/udp_bus.py:204-214 | after an accepted datagram an answer that needs no relay is dialled to the address it came from |
| Delivery.ChunksAccounted | swarmint/network/udp_bus.py:155-202 | every chunk was sent, found too large or lost, and counted as that, with the bytes sent |
| Delivery.ArrivalAccounted | swarmint/network/udp_bus.py:204-277 | every arriving datagram is counted in bytes, and every failed verification, inner ones included |
| Delivery.ForwardAccounted | swarmint/network/udp_bus.py:235-247 | what a relay forwards is counted in number and bytes |
| RelayNetwork.ArrivesLogs | swarmint/network/udp_bus.py:204-277 | direct or relayed, an arrival keeps the shared replay window exact and hands over just what it accepted |
| RelayNetwork.CascadeSpendsWork | swarmint/network/udp_bus.py:204-247 | along any chain of deliveries the datagrams already sent plus those a datagram can still cause never grow |
| RelayNetwork.ChunkCausesAtMostTwo | swarmint/network/udp_bus.py:190-247 | one application chunk causes at most two datagrams, so relaying cannot loop |
| RelayNetwork.NetAlwaysInvariant | swarmint/network/udp_bus.py:168-277 | in every run every honest bus has an exact window and only honest signatures in its log |
| RelayNetwork.HandedIsAuthentic | swarmint/network/udp_bus.py:204-277 | a message handed over in an honest node's name was asked for by that node's application, through any relays |
| RelayNetwork.HandedToAnother | swarmint/network/udp_bus.py:204-231 | a two-step run in which the only request names one recipient and another node's handler gets the message |
| RelayNetwork.HandedIsKnown | swarmint/network/udp_bus.py:204-277 | in every run a node is handed only kinds it has a codec for |
| RelayNetwork.HandedToAnotherExactly | swarmint/network/udp_bus.py:204-277 | some run whose only request names one recipient hands the message to another node if and only if that node has a codec for its kind |
| RelayNetwork.HandedAtMostOnce | swarmint/network/udp_bus.py:204-277 | acceptances of one nonce, direct or relayed, are at least `capacity` others apart, and below the rate no envelope is accepted twice |
| RelayNetwork.HonestTrafficIsDerivable | swarmint/network/udp_bus.py:155-247 | the adversary's reach covers all that honest buses send |
| RelayNetwork.RelayForwards | swarmint/network/udp_bus.py:235-247 | an honest relay passes on exactly the origin's envelope |
| RelayNetwork.DestinationUnwraps | swarmint/network/udp_bus.py:249-277 | a relayed chunk is handed over in its origin's name and the reply has a relay to use |
| RelayNetwork.RelayFailover | swarmint/network/udp_bus.py:140-153 | a peer is reached through a relay if and only if relaying is on, the peer is relay-only and any shared relay other than itself is up |
| RelayNetwork.RelayLearnedOnce | swarmint/network/udp_bus.py:263-277 | a relay an origin was heard through joins the known ones once, behind them, and the origin is relayed to from then on |
| UpdateChains.UpdateChain.ComputeModelDigest | swarmint/core/update_chain.py:45-59 | the digest of the sorted part hashes |
| UpdateChains.DigestIsTheContents | swarmint/core/update_chain.py:45-59 | two models have one digest if and only if they hold the same labels and vectors, in any order |
| UpdateChains.UpdateChain.Checkpoint | swarmint/core/update_chain.py:97-110 | appends a signed entry that commits to all before it |
| UpdateChains.VerifyChain | swarmint/core/update_chain.py:116-147 | accepts exactly valid chains, else names the first bad entry and its first flaw |
| UpdateChains.OwnPrefixVerifies | swarmint/core/update_chain.py:97-147 | every prefix of what the owner built is accepted |
| UpdateChains.LinkCommits | swarmint/core/update_chain.py:33-42 | agreeing on one entry hash means agreeing on all history up to it |
| UpdateChains.AcceptedIsAPrefixOfOne | swarmint/core/update_chain.py:116-147 | even from an owner with several chains, an accepted chain is a prefix of one of them |
| UpdateChains.AcceptedExactlyPrefixes | swarmint/core/update_chain.py:97-147 | for a given owner, accepted if and only if a prefix of what it built |
| UpdateChains.OwnersMayMix | swarmint/core/update_chain.py:134-136 | without an expected owner a two-owner chain is accepted |
| UpdateChains.OwnerCheckAddsExactly | swarmint/core/update_chain.py:134-136 | naming the owner adds exactly that every entry is the owner's |
| Reassembly.ChunksToServe | swarmint/node/net_node.py:363-368 | chunks join to the list, and an empty list still gives one chunk |
| Reassembly.Serve | swarmint/node/net_node.py:359-370 | numbered chunk responses for a list, empty or not |
| Reassembly.PendingFetch.OnResponse | swarmint/node/net_node.py:372-381 | a response fills its slot; the fetch completes at the announced count if no slot is missing |
| Reassembly.ReassembledExactly | swarmint/node/net_node.py:321-381 | from an honest server, in any order with repeats, a fetch completes if and only if every chunk came, with exactly what was served |
| Reassembly.FetchedChainVerifies | swarmint/node/net_node.py:383-400 | an honest owner's chain passes the audit after being cut up and reassembled |
| Reassembly.FetchedChainIsAPrefix | swarmint/node/net_node.py:383-400 | whatever responses arrive, as long as no signature in them is forged, only a prefix of what the owner built passes |
| HolePunch.HolePuncher.Handle | swarmint/network/nat.py:52-77 | new state and messages posted for each kind of handshake message |
| HolePunch.HolePuncher.Connect | swarmint/network/nat.py:81-100 | the rendezvous tells both ends where the other is, if it knows both |
| HolePunch.HolePuncher.Begin | swarmint/network/nat.py:104-109 | learns the peer's address and posts five punches |
| HolePunch.HolePuncher.Mark | swarmint/network/nat.py:111-115 | marks a peer reachable and wakes whoever waits for it |
| HolePunch.HandlingSheds | swarmint/network/nat.py:52-109 | handling a message posts strictly less than it weighs |
| HolePunch.RunsDieOut | swarmint/network/nat.py:52-109 | every run of deliveries and losses is shorter than its initial load |
| HolePunch.OneRequestCausesAtMost22 | swarmint/network/nat.py:52-109 | one connect request causes at most 22 further datagrams, whatever is lost, reordered or sent astray |
| HolePunch.AcksStayTrue | swarmint/network/nat.py:70-77 | an acknowledgement under way from B to A means B has marked A reachable |
| HolePunch.FivePunches | swarmint/network/nat.py:104-109 | told of a peer, a node keeps the address and fires five punches at it |
| HolePunch.PunchIsAcked | swarmint/network/nat.py:70-75 | whoever a punch reaches marks its sender and acknowledges to where the punch came from |
| HolePunch.ReflexiveDiscovery | swarmint/network/nat.py:52-60 | who asks where it was seen from is answered with the address its question came from |
| HolePunch.ReflexiveLearned | swarmint/network/nat.py:61-63 | and a node waiting for that answer keeps the address in it |
| HolePunch.DiscoveryGoesFirst | swarmint/network/nat.py:81-100 | the rendezvous dials the target where discovery has it, else where its bus does, tells it where the request came from and tells the requester what it dialled |
| HolePunch.RequestIsRelayed | swarmint/network/nat.py:81-100 | if nobody is wrong about the target, each end is told where the other is, at where that end is |
| HolePunch.HandshakeCompletes | swarmint/network/nat.py:52-115 | with datagrams going only where they were dialled and nobody wrong about the target, a connect request played out without loss in any order leaves each end reachable to the other and its waiter told |
| Federation.BeaconRegistry.Record | swarmint/network/federation.py:137-157 | an older advert never replaces a newer one, reachability survives a refresh, and only first sightings are reported new |
| Federation.BeaconRegistry.Expire | swarmint/network/federation.py:165-171 | drops beacons unheard for 90 s and clears reachability after 45 s without a pong |
| Federation.FederationService.MaybeBridge | swarmint/network/federation.py:258-270 | bridges only a reachable, unbridged beacon with our nonempty fingerprint |
| Federation.FederationService.OnGossip | swarmint/network/federation.py:301-320 | the whole effect of a batch of signed adverts, new beacons being pinged |
| Federation.FederationService.OnPong | swarmint/network/federation.py:322-331 | only a nonce still pending marks, and marks the beacon it was issued to |
| Federation.FederationService.Tick | swarmint/network/federation.py:396-417 | pings and bridges every listed beacon, then expires |
| BeaconLaws.NewsIsPinged | swarmint/network/federation.py:301-339 | a verified advert of an unlisted beacon lists it unproven, makes it dialable where it says and sends one ping whose nonce stands for it |
| BeaconLaws.OthersAreIgnored | swarmint/network/federation.py:301-314 | anything else leaves no more than its nonce behind |
| BeaconLaws.AnswerIsBelieved | swarmint/network/federation.py:258-331 | an answer to an outstanding ping proves its beacon reachable now and bridges with it if its space is ours and it was not bridged before |
| BeaconLaws.HeardThenBridged | swarmint/network/federation.py:258-339 | a beacon of our space that answers its first ping is bridged with |
| BeaconLaws.TickDoesItAll | swarmint/network/federation.py:396-417 | a tick pings every listed beacon, bridges with the reachable ones of our space, and keeps exactly those heard within 90 s, reachable exactly if they answered within 45 s |
| FederationRuns.FedAlways | swarmint/network/federation.py:258-417 | in every run each entry is backed by an accepted advert, each reachable one by a pong to our ping, each bridge unique |
| FederationRuns.FreshAfterTick | swarmint/network/federation.py:301-417 | after a tick each listed beacon was heard within the TTL in an envelope the replay window did not remember, and each reachable one answered our ping in time |
| Zombies.DeadBeaconIsDropped | swarmint/network/federation.py:301-417 | a beacon that signed nothing new is off the list a TTL after its last acceptance, whatever is echoed, while no more than `capacity` acceptances followed any of its envelopes |
| Zombies.EchoRelistsExactly | swarmint/network/federation.py:304-315 | an echoed advert lists its dead beacon again if and only if its nonce has been forgotten |
| Zombies.EchoRenewsExactly | swarmint/network/federation.py:304-315 | an echoed advert of a beacon still listed counts as heard now if and only if its nonce has been forgotten and no newer advert is listed |
| Zombies.EchoRevives | swarmint/network/federation.py:301-417 | for a window of any size, a run in which a beacon that signed once is dropped and, after as many other envelopes as the window holds, listed again as heard now |
| FederationRuns.SilentBeaconIsDropped | swarmint/network/federation.py:165-171 | a beacon with no advert accepted within the TTL is gone after the tick |
| FederationRuns.BridgedAtMostOnce | swarmint/network/federation.py:258-270 | the bridge callback fires at most once per beacon and only on equal nonempty fingerprints |
| Directory.NewestWins | swarmint/network/federation.py:137-157 | the directory lists per beacon, never ourselves, its latest-arrived newest advert |
| Directory.SameAdvertsSameDirectory | swarmint/network/federation.py:137-157 | order, repetition and timing of unambiguous adverts do not matter |
| Directory.OrderFreeExactly | swarmint/network/federation.py:144-145 | the order matters if and only if some beacon's newest timestamp carries two different adverts |
| Directory.ReportedNewOnce | swarmint/network/federation.py:146-157 | each listed beacon is reported new exactly once |
| Directory.DialsTheListedExactly | swarmint/network/federation.py:301-320 | after an advert the dialled address is the listed one if and only if the advert was not stale or named the same address |
| Directory.StaleAdvertMovesTheDial | swarmint/network/federation.py:144-145 | after a newer and then an older advert the newer is listed and the older one's address is dialled |
| Census.SwarmCensus.OnCensus | swarmint/network/federation.py:282-299 | credits each reported peer to the reporting beacon |
| Census.SwarmCensus.Expire | swarmint/network/federation.py:359-365 | a peer survives on its live sources alone, dated by the latest |
| Census.CensusIsExact | swarmint/network/federation.py:282-365 | after aging, beacon b vouches for p if and only if its last report of p is recent, and p is listed if and only if somebody vouches, dated by the latest such report |
| Census.ReportLearns | swarmint/network/federation.py:287-299 | a report adds the topics it names for a peer, moves its endpoint to the last one named and dates it now |
| Census.ReportLeavesOthers | swarmint/network/federation.py:287-299 | whoever it does not mention stays as it was, and the node itself is never listed |
| Census.AgingForgetsNothing | swarmint/network/federation.py:359-365 | a peer that survives aging keeps its endpoint and topics |
| ClassCoverage.RequiredIsLeast | swarmint/sim/run_multiproc.py:125-135 | the least per-node count, at least the one asked for, that leaves enough slots |
| ClassCoverage.PickClassIsFirstLargest | swarmint/sim/run_multiproc.py:166 | the first class with most replicas outstanding is next |
| ClassCoverage.PickNodeIsFirstEmptiest | swarmint/sim/run_multiproc.py:169-174 | it goes to the first emptiest eligible node, and there is none only if no node is eligible |
| ClassCoverage.PlanFillsSlots | swarmint/sim/run_multiproc.py:153-158 | the even split uses up all slots |
| ClassCoverage.PlanIsEven | swarmint/sim/run_multiproc.py:153-158 | planned numbers of nodes differ by at most one, the first classes getting more |
| ClassCoverage.CoverCounts | swarmint/sim/run_multiproc.py:164-176 | a class covers as many nodes as hold it |
| ClassCoverage.AssignClasses | swarmint/sim/run_multiproc.py:138-179 | fails exactly on too few slots, no class, or more classes per node than exist; else every node ends with exactly its count of distinct classes |
| ClassCoverage.GreedyEnds | swarmint/sim/run_multiproc.py:165-176 | the loop ends with nothing outstanding: each class is on plan, or stuck below it for good |
| ClassCoverage.UnstuckIsComplete | swarmint/sim/run_multiproc.py:165-179 | if no class gets stuck, all slots are taken and topping up changes nothing |
| ClassCoverage.StuckStaysShort | swarmint/sim/run_multiproc.py:171-179 | a stuck class stays below its plan whatever topping up does |
| ClassCoverage.PlanKeptExactly | swarmint/sim/run_multiproc.py:165-179 | in terms of the loop: every class ends on its planned number of nodes if and only if none got stuck |
| ClassCoverage.CoverageExactly | swarmint/sim/run_multiproc.py:138-179 | in terms of the loop: the minimum holds if and only if every stuck class had already reached it |
| Rotation.NoEarlyRepeat | swarmint/sim/run_multiproc.py:164-176 | fewer than k turns of the nodes never make whole turns of the classes when k times their gcd is at most the number of classes |
| Rotation.NoRepeat | swarmint/sim/run_multiproc.py:164-176 | then classes dealt out in turn never meet a node that has them |
| Rotation.GreedyRotates | swarmint/sim/run_multiproc.py:166-176 | and the greedy loop deals them out just so, step by step |
| Rotation.EverywhereNeverSticks | swarmint/sim/run_multiproc.py:169-173 | with every class on every node no class gets stuck either |
| Rotation.CoverageGuaranteed | swarmint/sim/run_multiproc.py:138-179 | under that condition on the arguments every class ends on exactly its planned number of distinct nodes, and on the minimum |
| CoverageBounds.StuckIsWellSpread | swarmint/sim/run_multiproc.py:171-173 | when a class gets stuck, only nodes that hold it have room, which bounds what it is short |
| CoverageBounds.EveryClassWellSpread | swarmint/sim/run_multiproc.py:138-179 | for all arguments every class's final count satisfies that bound |
| CoverageBounds.AtLeastHalfThePlan | swarmint/sim/run_multiproc.py:138-179 | for all arguments no class ends on less than half its planned number of nodes |
| CoverageBounds.MinimumFromTheNumbers | swarmint/sim/run_multiproc.py:138-179 | a minimum below the bound, computed from the arguments alone, always holds |
| ClassCoverage.SlotsAreNotEnough | swarmint/sim/run_multiproc.py:149-176 | three nodes, three classes, two each: enough slots for a minimum of two, yet one class ends on one node |
| Calibrations.HandleQuery | swarmint/inference/rpc.py:100-104 | a reply carries the peer's answer to each row, under the chunk's index |
| Calibrations.InferenceService.Begin | swarmint/inference/rpc.py:157-171 | registers an empty table and asks every chunk once |
| Calibrations.InferenceService.OnReply | swarmint/inference/rpc.py:192-200 | a reply fills a position of its own request and is counted, unless out of range |
| Calibrations.InferenceService.Finish | swarmint/inference/rpc.py:172-188 | scores the joined labels against the snapshot, or raises exactly at a hole in the table and leaves trust alone |
| Calibrations.QueryAnswered | swarmint/inference/rpc.py:100-104 | a chunk is asked for under its own index and answered under it, with the answers to just that chunk |
| Calibrations.PositionWraps | swarmint/inference/rpc.py:192-197 | an index names a position of the table if and only if it does so from the front or, negative, from the back |
| Calibrations.FlatExactly | swarmint/inference/rpc.py:179 | a table joins if and only if it is full, and then to the answers to the chunks end to end |
| Calibrations.TableExactly | swarmint/inference/rpc.py:150-200 | after any honest replies the wait is over at the right count, and the labels are the direct ones if and only if every chunk was answered |
| Calibrations.CompleteExactlyWithoutRepeats | swarmint/inference/rpc.py:192-200 | at the reply that ends the wait the labels are the direct ones if and only if none came twice |
| Calibrations.ScoredDirectly | swarmint/inference/rpc.py:150-200 | each reply arriving once, in any order, gives the peer the trust the direct form gives |
| Calibrations.RepeatedReplySpoils | swarmint/inference/rpc.py:198 | one reply repeated ends the wait and leaves trust as it was |
| CalibrationRounds.CalibratedAllSnoc | swarmint/node/swarm_node.py:226-246 | one more peer in the direct form is one more scoring |
| CalibrationRounds.EachOnItsOwn | swarmint/node/swarm_node.py:233-246 | in the direct form a peer's new trust depends on its own answers alone |
| CalibrationRounds.RoundRefinesDirect | swarmint/inference/rpc.py:150-200 | with replies interleaved, late or lost, each peer scored so far has exactly its direct trust and nobody else's moved |
| CalibrationRounds.AllHeardIsDirect | swarmint/inference/rpc.py:150-200 | once every other peer was scored the whole trust map is the direct result |
| CalibrationLaws.CalibrationFormula | swarmint/node/swarm_node.py:226-246 | each other peer ends with half its old trust plus half the share of its answers that were right, both counted as sets of samples; without an answer it keeps its trust |
| CalibrationLaws.ExtremeAnswers | swarmint/node/swarm_node.py:236-246 | all answers right, and only that, gives half the old trust plus a half; all wrong, and only that, gives half |
| CalibrationLaws.AbstainingIsFree | swarmint/node/swarm_node.py:239-240 | samples a peer abstains on do not count |
| CalibrationLaws.BetterAnswersPay | swarmint/node/swarm_node.py:236-246 | turning wrong answers right always raises trust |
| CalibrationLaws.RoundFormula | swarmint/inference/rpc.py:150-200 | over the network, at any point of any round, a peer whose table was read has the trust that formula gives it, and the others the trust from before |

## Left out

- MergeTheorems.MergeOrderInvariantExactly: speaks of unions that fit the budget; beyond it pruning breaks distance and weight ties by position, and `OverflowOrderMatters` shows order mattering for compatible batches; no exact condition is given there.
- PrototypeModels.PrototypeModel.Prune: removes the lightest prototype by index, as intended, and so do the theorems about learning, merging and nodes; where the list removal raises instead is stated in `Removal.dfy`.
- Removals.RaisesExactly: speaks of one shape; what comparing empty arrays or arrays that do not combine yields depends on the numpy version.
- PrototypeModels.PrototypeModel.Learn: where weights off the wire sum to zero the first vector is kept, where floats would give NaN; float32 rounding is not modelled, and vectors have one axis.
- SwarmNodes.SwarmNode.CalibrateTrust: a peer is its answer function, so abstention by confidence and deliberate lying are whatever that function does.
- Prototypes travel as values; sharing of prototype objects between nodes of one process is not modelled.
- UdpBuses.UdpBus.Send: the encoded length of an envelope is an abstract function, and rebinding a lost transport is omitted.
- UdpBuses.UdpBus.OnDatagram: a body whose decoder raises is dropped after its nonce and return address were recorded; decoding itself is not modelled.
- Delivery.RelayedDelivery: assumes no loss and room in the datagrams on both hops; what losses do to a chunk is stated for the direct path.
- Ed25519, SHA-1, SHA-256 and msgpack: ideal signatures, injective hashes and injective encodings stand in for them.
- HolePunch.HolePuncher.Handle: addresses are opaque, so their parsing is not modelled; futures are a told-or-not flag; each node has one address.
- HolePunch.HandshakeCompletes: where some node is wrong about the target the punches may go astray, and no exact condition is given for when they do.
- CommitLaws.CoveredNews: exact for messages of one prototype; for longer ones what reaches the merge and what the merge keeps are stated apart.
- Federation.FederationService.Tick: the fan-out of adverts and census entries to other beacons and the own advert are sends only and are omitted.
- Federation.FederationService.OnPong: as in swarmint, any sender holding a pending nonce may answer for the beacon it was issued to; nonces are not assumed secret.
- Census.CensusIsExact: assumes a clock that does not run backwards.
- Calibrations.InferenceService.Begin: the holdout is taken to stack, that is to be of one shape.
- Rotation.CoverageGuaranteed: goes one way; outside its condition no condition on the arguments is given for a class to get stuck.
- Calibrations.InferenceService.Finish: assumes the wait resolved; sockets, event loop and timeouts appear only as the steps a round may take.
- CalibrationRounds.AllHeardIsDirect: assumes, like the direct form, that a peer's answers do not change during the round.
- The random choices of topping up, sampling and gossip targets are left open rather than modelled.
- Gossip sampling, aggregation of answers, confidence margins, embeddings, datasets, simulations, status pages, command line, the Kademlia and WebRTC transports: statistical code, I/O, or easy members only.
