# The layer-1 core, modelled and proved

A Dafny model of the layer-1 core of the Go chain: the HotStuff consensus engine with its vote
accounting, the ledger it commits to, the codecs and Merkle proofs around them, and the bookkeeping of
synchronisation, staking, mempool, issuance, base fee and batching.

Each component is described twice. Functions on values say what an operation does; on them the
properties are proved, over all inputs and over whole runs; some of them say what an operation does
without naming its function, from the message and the state alone. Classes and methods with the loops, cursors
and field updates of the Go code are proved to compute exactly those functions. Where Go leaves a choice
open (map iteration, the order of equal keys in a sort, which history entries a trim deletes) the
operation is a relation or takes the choice as a parameter, so the theorems hold for every choice.

| file | component |
|---|---|
| `Words.dfy`, `HexText.dfy` | 64-bit words, wrapping, big-endian numbers, byte comparison; hexadecimal text with its two decoders |
| `ValidatorSets.dfy` | stake-weighted validator set, quorum test, proposer choice |
| `ConsensusTypes.dfy`, `DoubleSigns.dfy`, `Finality.dfy` | phases and signed bytes, double-sign detector, finality gadget |
| `EngineModel.dfy` | the engine as a state machine |
| `EngineInvariants.dfy`, `EngineSteps.dfy`, `EngineRuns.dfy` | its invariant, preservation by every handler, theorems over runs |
| `EngineDeeds.dfy`, `EngineEffects.dfy`, `EngineRecords.dfy` | what each event does, read off its message and the state before it: position, lock, votes, decisions, registry |
| `CommitVotes.dfy`, `OwnQuorums.dfy` | the commit votes each step signs, and a discipline for casting them |
| `Accusations.dfy` | whom the double-sign detector accuses over whole runs |
| `HotStuff.dfy` | the engine as a class, handler by handler |
| `Replicas.dfy` | several engines with the set of all signatures ever made |
| `QcCodec.dfy`, `Rlp.dfy` | certificate and transaction codecs |
| `QcLayout.dfy`, `RlpForms.dfy` | at which offset or item the two wire forms hold each field |
| `Merkle.dfy`, `Spv.dfy` | the two Merkle proof schemes |
| `ChainStore.dfy`, `BlockContents.dfy` | slice chain and persistent chain; what their blocks carry and what a hash binds |
| `StateSync.dfy`, `Staking.dfy`, `TxPool.dfy`, `Economics.dfy`, `FeeMarket.dfy`, `Sequencer.dfy` | reorder buffer, staking, mempool, issuance, base fee, batch filter |

## Modelling choices

- A Go `uint64` is an integer below 2^64 and wrapping is explicit. A statement that needs the absence of
  wrapping says so, as in "the tripled stake fits 64 bits".
- Signatures are symbolic: a signature names its signer and the signed bytes. In `Replicas.dfy` a
  delivered message carries only signatures somebody has made. Signing always succeeds. A received
  certificate is judged as `QC.IsValid` judges it, by the signers it lists.
- SHA-256 is a parameter of which only the output length is assumed. Binding is stated as "equal, or
  these two strings collide", with a function that computes the two strings.
- Block production and validation, the commit call, clocks, slashing verdicts, rotation results, the
  block serializer (assumed to be undone by its inverse) and the appliers' answers are parameters.
- Votes and timeouts are kept by address, since Go makes their map keys with the encoder, which is
  injective. Certificates are kept by text, since a received one carries the sender's texts, and `hexDecode`
  reads many texts as one address.
- A commit call has three answers: refused, committed, or an error after the block was added. The engine
  cannot tell the last from the first.

## What the code does that its names and comments do not say

The model follows the code in each of these. Every one has a lemma that shows the input or
the exact condition under which the code does meet the property, and where both exist, both.

- An unsigned vote skips verification but counts (`Replicas.UnsignedVoteDecides`). The registry stays
  signed exactly when every recorded message is signed (`EngineRuns.SignedIffMessageSigned`), and
  agreement is proved for runs whose delivered votes are signed.
- The view timer at view 2^64 - 1 wraps to view 0 (`EngineSteps.TimerOrder`).
- The commit call may add the block and still return an error, when indexing its transactions fails
  (`internal/layer1/ledger/persistent_chain.go:113-122`). The engine then stays on a height already taken
  (`EngineRuns.ErrorAfterAddingStrands`); it is where its chain is throughout a run exactly when that never
  happens (`EngineRuns.OnChainIff`).
- A commit vote is cast for the prepared certificate's hash, which no change of view or height clears, so
  votes that overtake each other make an engine sign two commit hashes at one position
  (`CommitVotes.OvertakenVoteSwitches`). `CommitVotes.OneCommitIff` has the exact condition,
  `OwnQuorums.OrderlyRunsCommitOnce` a discipline that meets it, and `Replicas.HonestAgreement` is agreement
  under it.
- Beside an accepted timeout certificate, the justification of a new-view message is not checked and may become
  the lock (`EngineEffects.UncheckedLock`); every other lock was formed here or is a valid certificate
  (`EngineEffects.LockComesFrom`).
- An epoch lasts one height more than the configured length (`EngineEffects.EpochsLastOneMore`).
- Proposals and votes are signed without a mark that tells them apart (`ConsensusTypes.ProposalIsVoteIff`).
- Deciding in one view does not bind the next: two replicas may decide differently at one height, each vote
  being its signer's only one at its position (`Replicas.ViewsDisagree`). `CommitVotes.OneCommitIff` and
  `Replicas.HonestAgreement`, taken per height, have the exact condition and what follows from it.
- An unsigned vote also reaches the double-sign detector, so one forged vote removes a validator that voted
  once (`Accusations.ForgedVoteRemoves`); accusations are fair exactly when every vote put before the detector
  was signed (`Accusations.FairIff`).
- `QC.IsValid` and `validateTimeoutCert` count texts, and `hexDecode` takes both letter cases, skips a
  leading blank and stops quietly at a second character that is no digit. One validator may so be counted
  several times (`ValidatorSets.TwoCasesCountTwice`); the count is right exactly when no two texts name one
  validator with stake (`ValidatorSets.CountedOnceIff`).
- `decide` saves its state before the height moves, so a start from saved state resumes at or below the
  height already committed; a restart keeps the relation exactly when nothing was saved
  (`EngineRuns.RestartKeepsIff`).
- The detector fills a position's entry from whatever it sees first. A second proposal is reported only when
  the first thing seen there was the same proposer's (`DoubleSigns.ReportedIff`), and an entry opened by a
  vote names the empty address as its proposer (`DoubleSigns.EmptyAddressAccused`).
- The products in the quorum test wrap for very large stakes; the test is right for every set with a given
  total exactly while three times the total fits 64 bits (`ValidatorSets.QuorumTestExactIff`).
- The threshold of a checkpoint counts a repeated address each time it is listed, its vote once; the height
  is finalized exactly when the distinct voters reach the threshold (`Finality.FinalizesIff`).
- `DecodeQC` rejects a certificate whose last signature has S = 0 (`QcCodec.RoundTrip`).
- The RLP item decoder panics on huge length fields (`Rlp.PanicsExactlyOnHugeLength`).
- `VerifyProof` is not told the depth of the tree. Verification is sound for one length of proofs exactly
  when that length is the depth (`Merkle.LengthDecides`), and equal roots bind lists of two lengths exactly
  when the lengths are equal (`Merkle.BindsIff`). An index out of range opens a leaf too
  (`Merkle.Soundness`, `Merkle.Completeness`).
- The light client takes inner nodes for transactions. What it accepts is a node of the tree exactly when that
  holds below the transactions that are the bytes of a pair (`Spv.OpensNodesIff`). In blocks without such
  transactions and without a collision, it is a transaction exactly when there are at most two
  (`Spv.OpensTransactionsIff`).
- The light client rejects the honest proof in a block of one transaction (`Spv.InclusionComplete`).
- A chain with a block added by hash never validates (`ChainStore.PlaceholdersNeverValidate`).
- A block's hash covers neither its state root nor its signature (`BlockContents.HashBinds`).
- Asking a running sync for a higher target throws away the blocks that came early
  (`StateSync.AimsAtTheHighest`).
- A validator that unstaked everything can never stake again (`Staking.DeactivatedForGood`).
- A sync with target 2^64 - 1 never finishes (`StateSync.LastHeightNeverFinishes`), and no batch is
  requested from the last 99 heights (`StateSync.RequestsStartAtTheGap`).
- A slash takes less than its fraction once stake times fraction reaches 2^64
  (`Staking.SlashIsProportionalIff`).
- The price of a replacement transaction can wrap below the price it replaces
  (`TxPool.ReplacementPaysMoreIff`).
- From zero the base fee rises to one, and a raise beyond 2^64 - 1 wraps. The bounds of one step, its
  monotony and the floor at seven each hold exactly outside those cases (`FeeMarket.StepBoundIff`,
  `FeeMarket.MonotoneIff`, `FeeMarket.SevenIsAFloorIff`).
- Fees count as issuance and the burnt share is recorded without being subtracted
  (`Economics.SupplyStaysCapped` states what the supply then is).

## Model

| member | source | states |
|---|---|---|
| Replicas.AccountableAgreement | internal/layer1/consensus/hotstuff.go:926-995 | In every run of any number of replicas whose delivered votes are signed, two decisions for different hashes, at whatever positions, counted in one validator set whose tripled stake fits 64 bits, have more than a third of the stake in common, and each common validator signed commit votes for both hashes |
| Replicas.HonestAgreement | internal/layer1/consensus/hotstuff.go:1331-1451 | Agreement between the engines themselves: if the keys of a group with at most a third of the stake may sign anything, every other key signs only through its one replica, and no event asks an honest replica to switch its commit vote at a position, then no two decisions at one height and view differ; if none asks it to switch at a height, no two decisions at one height differ, in whatever views |
| Replicas.HonestSignOnceIff | internal/layer1/consensus/hotstuff.go:1280-1329 | The premise, exactly, for positions and for heights: over every run of the system, all keys outside the group sign at most one commit hash there if and only if no event of an honest replica asks it to switch there |
| Replicas.Agreement | internal/layer1/consensus/hotstuff.go:1331-1451 | The step from that premise: if everybody outside a group with at most a third of the stake signs at most one commit hash per position, no two decisions at one height and view differ; if per height, none at one height |
| Replicas.ViewsDisagree | internal/layer1/consensus/hotstuff.go:808-924 | The condition per height is needed: for every two hashes a signed run in which the only validator signs one commit hash per position, though two at the height, and two replicas decide the two hashes at one height, in different views |
| CommitVotes.OneCommitIff | internal/layer1/consensus/hotstuff.go:1280-1329 | Over every run of one engine: it signs at most one commit hash per position, or per height, if and only if no event asks for a commit vote where it has signed, or is about to sign, one for another hash; the guard is read off the state before the event |
| OwnQuorums.OrderlyRunsCommitOnce | internal/layer1/consensus/hotstuff.go:1280-1329 | A discipline that suffices: one commit hash per position is signed over every run in which each completed pre-commit quorum finds the prepared certificate of its own position, nobody leaves the set while the height stays, no proposal reads as a commit vote, the history is never trimmed and the local stake is at most a third |
| OwnQuorums.StepPrepares | internal/layer1/consensus/hotstuff.go:868-992 | Every new prepared certificate is of the position the step works at, and a supermajority whose remote members the detector remembers prepared its hash |
| CommitVotes.StepCommits | internal/layer1/consensus/hotstuff.go:1280-1329 | Every event makes the local key sign exactly the commit votes its guards announce: the prepared hash when a pre-commit quorum completes, the proposed hash when the proposer completes both quorums alone, and the vote a proposal has the bytes of |
| CommitVotes.OvertakenVoteSwitches | internal/layer1/consensus/hotstuff.go:1280-1329 | The failing input: four signed votes of a validator that votes for one hash per position and phase, two of them out of order, make the engine sign commit votes for two hashes at one position |
| Replicas.OneDecisionPerHeight | internal/layer1/consensus/hotstuff.go:1331-1451 | Between restarts a replica never decides twice at one height, signed votes or not |
| Replicas.PlayKeepsInv | internal/layer1/consensus/hotstuff.go:745-806 | Every replica of every run of the system keeps the engine invariant, with all signatures ever made as the known ones |
| Replicas.SignedRunsStaySigned | internal/layer1/consensus/hotstuff.go:926-995 | If every delivered vote message carries a signature, no replica ever records an unsigned vote |
| Replicas.UnsignedVoteDecides | internal/layer1/consensus/hotstuff.go:931-942 | The signature condition is needed: one unsigned commit vote in the name of a sole validator leads to a decision although nobody signed anything |
| EngineEffects.StartsClean | internal/layer1/consensus/hotstuff.go:194-314 | Where a new engine stands before and after its start without saved state |
| EngineEffects.StartsAt | internal/layer1/consensus/hotstuff.go:253-314 | Where any engine stands after a start: at the saved position if a state with a height was saved, otherwise at the requested height in view 0 |
| EngineEffects.LockComesFrom | internal/layer1/consensus/hotstuff.go:808-1278 | Every event: a new lock has at least the view of the old one, and either was formed from a prepare quorum counted at this event or is a certificate the message brought whose listed and signed texts are a supermajority; the one exception is exact, a new-view message that brings a timeout certificate and beside it an invalid justification of a higher view |
| EngineEffects.UncheckedLock | internal/layer1/consensus/hotstuff.go:1258-1260 | The failing input of that exception: beside any accepted timeout certificate, any certificate at all of a higher view becomes the lock |
| EngineEffects.ProposalVotedIff | internal/layer1/consensus/hotstuff.go:808-924 | A delivered proposal makes the local key sign exactly one prepare vote if the engine is in phase prepare there, the sender leads the view and signed it or sent it unsigned, the detector does not object, its justification (if any) is a supermajority by its texts, the block is valid and no local prepare vote is recorded; and signs nothing otherwise |
| EngineEffects.CommitQuorumDecidesIff | internal/layer1/consensus/hotstuff.go:1331-1357 | A commit vote that completes its quorum while the commit call succeeds on the next height is a decision for its hash if and only if the lock is absent, has no hash, is of another height or is of that hash; otherwise the engine stays where it is |
| EngineEffects.DecisionsRespectLocks | internal/layer1/consensus/hotstuff.go:1331-1337 | Over every run, each decision was made by a step that left a lock allowing it: a decision made while locked at its height on a hash is for that hash |
| EngineEffects.StepDecides | internal/layer1/consensus/hotstuff.go:1331-1451 | Every event records exactly the decision its guards announce, with the votes counted, and then the chain, the epoch, the set, the saved state and the position are those after a commit |
| EngineEffects.TimeoutMovesIff | internal/layer1/consensus/hotstuff.go:1025-1092 | A delivered timeout at the engine's height changes the view if and only if its view is later, a member signed it, its certificate (if any) is a supermajority by its texts, and the sender has none recorded for that view; then view and published view are the message's, the phase is prepare, the registries are empty, and the timeout is recorded unless a quorum was sent on or the cap cut it off; one that does not stand changes nothing |
| EngineEffects.StepPosition | internal/layer1/consensus/hotstuff.go:745-806 | The exact position after every event, published and not: where a message, a timeout, the timer, a decision and an applied block each leave the engine |
| EngineEffects.NewViewRestarts | internal/layer1/consensus/hotstuff.go:1213-1278 | What a new-view message does, exactly: it takes the engine to its view in any case, and restarts that view, takes in the certificates and forgets earlier timeouts when it is signed and brings a valid certificate or a timeout certificate of members |
| EngineEffects.StepSigns | internal/layer1/consensus/hotstuff.go:579-664 | Every event makes the local key sign exactly what its guards announce: proposal and cascading votes of a proposer, the vote that follows a quorum, the timer's timeout |
| EngineEffects.StepEpoch | internal/layer1/consensus/hotstuff.go:1356-1381 | Every event: the epoch ends exactly with a decision at or beyond its start plus the configured length, which installs the set built from the staking records if there is one; otherwise the set changes only by a slashed double-signer |
| EngineEffects.EpochOfRun | internal/layer1/consensus/hotstuff.go:1664-1694 | Over every run, the epoch is the one that the list of its decisions leads to from height one |
| EngineEffects.EpochsLastOneMore | internal/layer1/consensus/hotstuff.go:1356-1356 | An engine that decides every height from one on has epochs of one height more than the configured length |
| EngineEffects.StepDoes | internal/layer1/consensus/hotstuff.go:745-806 | Every event does to the engine exactly what is read off its message and the state before it, with guards written in signatures, stakes and the detector's answers |
| EngineRecords.StepCounts | internal/layer1/consensus/hotstuff.go:926-995 | The votes an event enters into the registry are exactly the message's, if it stands and contradicts none, and the local ones that follow; nothing else enters or leaves while the position lasts |
| EngineRecords.TrimKeepsIff | internal/layer1/consensus/hotstuff.go:997-1023 | Which registries outlive a trim, exactly: all but the oldest beyond 2048 and those more than ten heights below |
| EngineRecords.StepPending | internal/layer1/consensus/hotstuff.go:849-857 | The pending block of the height after every proposal, vote and own proposal: an acceptable proposal's if there is none, gone once a commit that the lock allows is attempted |
| EngineRuns.ExactlyOnceCommit | internal/layer1/consensus/hotstuff.go:364-389 | Over every interleaving of the locked handlers with the two steps of applying a synced block, heights enter the chain consecutively and once each; whenever no apply is between its steps, the engine works on chain height plus one exactly when the last block was not added by a commit call that returned an error |
| EngineRuns.OnChainIff | internal/layer1/ledger/persistent_chain.go:113-122 | The engine is where its chain is at every point of a run if and only if no commit call of the run returned an error after adding its block, that is, every block came by `decide` or by an apply |
| EngineRuns.ErrorAfterAddingStrands | internal/layer1/consensus/hotstuff.go:1358-1362 | The failing input: a decision whose commit call adds the block and then returns an error leaves the engine on the height just taken, unfinalized, where no later call can succeed |
| EngineRuns.RestartKeepsIff | internal/layer1/consensus/hotstuff.go:1331-1451 | Over every run: `Start` on chain height plus one gets there if and only if no state was saved, which is exactly if no block was committed by `decide`; with a saved state it resumes at or below the chain height |
| EngineRuns.ProgressOrder | internal/layer1/consensus/hotstuff.go:1453-1494 | While the view counter does not wrap, (height, view) never decreases between any two points of a run, the published height and view equal the state fields, and a set lock stays set with a view that never decreases |
| EngineRuns.DecideFinalizes | internal/layer1/consensus/hotstuff.go:1331-1451 | In every run, a step that commits through `decide` leaves the last finalized height at exactly that height, and the engine on the next |
| EngineRuns.RunKeeps | internal/layer1/consensus/hotstuff.go:745-806 | Every reachable state satisfies the whole engine invariant: mirrored position, consecutive commits, signed registries, agreement with the detector, backed decisions |
| EngineRuns.OneHashPerVoter | internal/layer1/consensus/hotstuff.go:944-961 | In every reachable state whose detector history was not trimmed, a validator other than the local one appears under at most one hash per height, view and phase, although view changes clear the registry and not the detector |
| EngineRuns.OneQuorumPerPhase | internal/layer1/consensus/hotstuff.go:944-995 | Then, with the local stake at most a third, at most one hash per height, view and phase has a supermajority |
| EngineRuns.QuorumFormsValidQC | internal/layer1/consensus/hotstuff.go:1852-1897 | While all recorded votes were signed, voters and cached signers of every ballot coincide, a certificate formed for it is valid exactly when the ballot has a supermajority, and each of its signatures verifies |
| EngineRuns.FormedQCValidity | internal/layer1/consensus/hotstuff.go:1866-1897 | A formed certificate is valid exactly when the cached signers are a supermajority: its texts are the encoder's, so each signer counts once |
| EngineRuns.ReceivedQCValidity | internal/layer1/consensus/validator_set.go:253-277 | A received certificate is valid exactly when the signers it names are a supermajority, provided no two of its listed and signed texts name one validator with stake |
| EngineRuns.SignedIffMessageSigned | internal/layer1/consensus/hotstuff.go:926-971 | Recording an accepted vote keeps every registry entry signed if and only if the message carries a signature or repeats a recorded vote |
| EngineSteps.StepKeeps | internal/layer1/consensus/hotstuff.go:745-806 | Every event keeps the invariant, only adds to signatures, decisions and commits, finalizes what it decides, and never moves the position back unless the view wraps |
| EngineSteps.HandleKeeps | internal/layer1/consensus/hotstuff.go:745-806 | So does the dispatch of every message kind, with the view change it may begin with |
| EngineSteps.HandleProposalKeeps | internal/layer1/consensus/hotstuff.go:808-924 | So does handling a proposal, whichever check refuses it and whether it double-signs |
| EngineSteps.HandleVoteKeeps | internal/layer1/consensus/hotstuff.go:926-995 | So does handling a vote, including the quorum it may complete in each phase |
| EngineSteps.HandleTimeoutKeeps | internal/layer1/consensus/hotstuff.go:1025-1092 | So does handling a timeout |
| EngineSteps.HandleNewViewKeeps | internal/layer1/consensus/hotstuff.go:1213-1278 | So does handling a new-view message, by certificate or by justification |
| EngineSteps.ProposeKeeps | internal/layer1/consensus/hotstuff.go:477-577 | So does proposing, through all three self-votes and an immediate decision |
| EngineSteps.DecideKeeps | internal/layer1/consensus/hotstuff.go:1331-1451 | So does deciding under a commit quorum, forbidden by the lock, refused by the chain, added with an error, or committed |
| EngineSteps.CommitFailedKeeps | internal/layer1/ledger/persistent_chain.go:113-122 | So does a commit call that returns an error, whether or not it added the block |
| EngineSteps.CommittedKeeps | internal/layer1/consensus/hotstuff.go:1364-1451 | A committed decision is recorded with its voters, finalizes its height and moves to the next |
| EngineSteps.TimerKeeps | internal/layer1/consensus/hotstuff.go:1496-1564 | So does the view timer; the position moves forward unless the view wraps |
| EngineSteps.TimerOrder | internal/layer1/consensus/hotstuff.go:1496-1564 | A timer step keeps the order of positions if and only if it is not the case that the view is 2^64 - 1 and view 0 has a timeout quorum |
| EngineSteps.ApplyKeeps | internal/layer1/consensus/hotstuff.go:364-389 | So do both steps of applying a synced block |
| EngineSteps.FinalizedKeepsFinality | internal/layer1/consensus/hotstuff.go:1383-1400 | Committing the height above the chain makes it the last finalized height and leaves no later checkpoint |
| EngineInvariants.AcceptedVoteAgrees | internal/layer1/consensus/engine.go:100-142 | A vote the detector accepted enters the registry without contradicting what the detector remembers |
| EngineInvariants.TrimDropsRegistries | internal/layer1/consensus/hotstuff.go:997-1023 | Pruning drops a registry whole or leaves it as it is |
| HotStuff.HotStuffEngine.constructor | internal/layer1/consensus/hotstuff.go:194-240 | A new engine is the model's initial state |
| HotStuff.HotStuffEngine.SignOwn | internal/layer1/consensus/hotstuff.go:585-603 | A local vote is signed, recorded, cached and remembered as own |
| HotStuff.HotStuffEngine.UpdateView | internal/layer1/consensus/hotstuff.go:1453-1494 | A view change resets the phase, clears the registries and drops the pending block of the height |
| HotStuff.HotStuffEngine.HandleDoubleSign | internal/layer1/consensus/hotstuff.go:1593-1618 | A slashed double-signer leaves the validator set |
| HotStuff.HotStuffEngine.FinalizeCheckpoint | internal/layer1/consensus/hotstuff.go:1383-1395 | The checkpoint loop casts one vote per validator |
| HotStuff.HotStuffEngine.FinalizeBlock | internal/layer1/consensus/hotstuff.go:1364-1440 | Commit, checkpoint, rotation and saved state after a successful commit |
| HotStuff.HotStuffEngine.CommitFailed | internal/layer1/consensus/hotstuff.go:1358-1362 | A commit call that returned an error has grown the chain or not |
| HotStuff.HotStuffEngine.Decide | internal/layer1/consensus/hotstuff.go:1331-1451 | The state after `decide` is the model's in every branch |
| HotStuff.HotStuffEngine.AdvancePhase | internal/layer1/consensus/hotstuff.go:1280-1329 | The vote cast on advancing is for the prepared certificate's hash |
| HotStuff.HotStuffEngine.SelfVote | internal/layer1/consensus/hotstuff.go:579-664 | The proposer's own votes cascade through the phases exactly as far as each quorum reaches |
| HotStuff.HotStuffEngine.Propose | internal/layer1/consensus/hotstuff.go:477-577 | The guards of proposing and the block they lead to |
| HotStuff.HotStuffEngine.VoteForProposal | internal/layer1/consensus/hotstuff.go:868-923 | One prepare vote while the registry of the view lasts (a new-view message for the current view clears it), and the quorum it may complete |
| HotStuff.HotStuffEngine.HandleProposal | internal/layer1/consensus/hotstuff.go:808-924 | The state after a proposal is the model's in every branch |
| HotStuff.HotStuffEngine.AfterQuorum | internal/layer1/consensus/hotstuff.go:972-992 | What a completed quorum does in each phase |
| HotStuff.HotStuffEngine.TrimVotes | internal/layer1/consensus/hotstuff.go:997-1023 | Oldest registries beyond the cap go, then those ten heights back |
| HotStuff.HotStuffEngine.HandleVote | internal/layer1/consensus/hotstuff.go:926-995 | The state after a vote is the model's in every branch |
| HotStuff.HotStuffEngine.TrimTimeouts | internal/layer1/consensus/hotstuff.go:1094-1103 | Oldest timeout views beyond the cap go |
| HotStuff.HotStuffEngine.HandleTimeout | internal/layer1/consensus/hotstuff.go:1025-1092 | The state after a timeout is the model's in every branch |
| HotStuff.HotStuffEngine.VerifySigners | internal/layer1/consensus/hotstuff.go:1181-1200 | The loop accepts exactly when every text of the certificate names a member whose signature verifies, and sums the stake named by each text |
| HotStuff.HotStuffEngine.ValidateTimeoutCert | internal/layer1/consensus/hotstuff.go:1171-1206 | A timeout certificate passes exactly when it is for this height, non-empty, all signatures verify and the stake counted text by text is a supermajority; by `CountedOnceIff` that is the signers' stake exactly when no two texts name one of them |
| HotStuff.HotStuffEngine.HandleNewView | internal/layer1/consensus/hotstuff.go:1213-1278 | The state after a new-view message is the model's in every branch |
| HotStuff.HotStuffEngine.HandleMessage | internal/layer1/consensus/hotstuff.go:745-806 | The state after any message is the model's |
| HotStuff.HotStuffEngine.OnTimer | internal/layer1/consensus/hotstuff.go:1496-1564 | The state after the view timer is the model's |
| HotStuff.HotStuffEngine.CommitSyncedBlock | internal/layer1/consensus/hotstuff.go:364-377 | The commit outside the lock happens exactly at chain height plus one |
| HotStuff.HotStuffEngine.FinishSyncedBlock | internal/layer1/consensus/hotstuff.go:378-389 | The update under the lock moves past the applied height |
| HotStuff.HotStuffEngine.Start | internal/layer1/consensus/hotstuff.go:253-314 | A saved state with a height overrides the requested height |
| ConsensusTypes.VoteDataBinds | internal/layer1/consensus/hotstuff.go:1834-1842 | The bytes of a vote determine height, view, phase and hash |
| ConsensusTypes.ProposalIsVoteIff | internal/layer1/consensus/hotstuff.go:1827-1842 | Proposals and votes share their byte form: the bytes of a proposal are those of a given vote exactly when the block hash has at least 17 bytes, byte 16 is the phase, and the rest holds height, view and hash |
| ConsensusTypes.VoteIsNotTimeout | internal/layer1/consensus/hotstuff.go:1834-1850 | No vote signs the bytes of a timeout |
| ConsensusTypes.SignedBytesRead | internal/layer1/consensus/hotstuff.go:1827-1850 | At which offset each signed byte string holds which big-endian number, the phase number and the hash |
| ValidatorSets.QuorumsIntersect | internal/layer1/consensus/validator_set.go:141-160 | Two supermajorities share more than a third of the stake |
| ValidatorSets.SuperMajorityMeaning | internal/layer1/consensus/validator_set.go:141-160 | While the tripled stake fits 64 bits, the wrapped test means more than two thirds of the stake |
| ValidatorSets.QuorumStakeIsThreshold | internal/layer1/consensus/validator_set.go:162-164 | `CalculateQuorumStake` is the least stake that passes the supermajority test |
| ValidatorSets.QuorumTestExactIff | internal/layer1/consensus/validator_set.go:141-160 | The bound is exact: for a given total, the wrapped test is right for every well-formed set and every group of signers if and only if three times the total fits 64 bits |
| ValidatorSets.WrappedQuorumFails | internal/layer1/consensus/validator_set.go:141-160 | For every total beyond the bound, a set of two validators with that total in which the test misjudges the first of them |
| ValidatorSets.StakeInUnionIntersection | internal/layer1/consensus/validator_set.go:141-160 | Stake of a union plus stake of the intersection is the sum of the stakes |
| ValidatorSets.CountedOnceIff | internal/layer1/consensus/validator_set.go:253-277 | For every validator list and every set of texts: the stake counted text by text is the stake of the signers named if and only if no two of the texts name one validator with stake |
| ValidatorSets.TextStakeAtLeast | internal/layer1/consensus/validator_set.go:253-277 | Texts never count for less than the signers they name |
| ValidatorSets.TextStakeGrows | internal/layer1/consensus/validator_set.go:253-277 | One more text adds the stake of the validator it names, already counted or not |
| ValidatorSets.CanonicalCountsOnce | internal/layer1/consensus/validator_set.go:228-240 | The condition a caller can check: texts as the encoder writes them count every signer once |
| ValidatorSets.TextQuorum | internal/layer1/consensus/validator_set.go:141-160 | The texts of a set of addresses pass the test exactly when the addresses are a supermajority |
| ValidatorSets.TwoCasesCountTwice | internal/layer1/consensus/validator_set.go:228-277 | The failing certificate: the two letter cases of one address make half the stake a supermajority |
| ValidatorSets.ProposerFairness | internal/layer1/consensus/validator_set.go:104-128 | For every view, the residues modulo the total stake that elect validator j number exactly the stake of validator (j - view mod n) mod n |
| ValidatorSets.SeedBytesRead | internal/layer1/consensus/validator_set.go:104-112 | The proposer seed is hashed from height, view and epoch, at fixed offsets |
| ValidatorSets.PickMeaning | internal/layer1/consensus/validator_set.go:113-124 | The accumulator loop always finds an entry, and finds entry i exactly for the residues in its stake interval, so the fallback is not reached |
| ValidatorSets.BuiltMeans | internal/layer1/consensus/validator_set.go:38-55 | A built set has each active validator out of jail as often as the input lists it, nobody else, and is in the order of the addresses |
| ValidatorSets.InputOrderIrrelevant | internal/layer1/consensus/validator_set.go:38-55 | With distinct addresses, all sets that may be built from any order of the input are one set, hence map iteration in epoch rotation does not matter |
| ValidatorSets.BuiltIsSorted | internal/layer1/consensus/validator_set.go:38-55 | With distinct addresses the entries are strictly sorted, whatever the sort does with equal keys |
| ValidatorSets.NewSetWellFormed | internal/layer1/consensus/validator_set.go:38-55 | With distinct addresses, a new set is sorted with a true total exactly when the total fits 64 bits |
| ValidatorSets.AddedWellFormed | internal/layer1/consensus/validator_set.go:166-179 | Adding, however the sort leaves equal addresses, keeps that exactly when the address is present or the new total fits |
| ValidatorSets.RemovedWellFormed | internal/layer1/consensus/validator_set.go:181-198 | Removing always keeps it, and the address is gone |
| ValidatorSets.UpdatedWellFormed | internal/layer1/consensus/validator_set.go:200-211 | Restaking keeps it exactly when the address is absent or the new total fits |
| ValidatorSets.ValidatorSet.constructor | internal/layer1/consensus/validator_set.go:38-55 | A new object holds the eligible entries by rising address, equal addresses in any order, and their wrapped total |
| ValidatorSets.ValidatorSet.CollectEligible | internal/layer1/consensus/validator_set.go:38-55 | The constructor loop keeps the active, unjailed entries and sums their stake |
| ValidatorSets.ValidatorSet.GetValidator | internal/layer1/consensus/validator_set.go:57-64 | The lookup loop finds an entry exactly when the address is present, and its stake is the one quorums count |
| ValidatorSets.ValidatorSet.StakeNamed | internal/layer1/consensus/validator_set.go:141-160 | The stake of the validator a text names, or nothing |
| ValidatorSets.ValidatorSet.HasSuperMajority | internal/layer1/consensus/validator_set.go:141-160 | The counting loop gives the verdict over the signed texts, whatever the order of the map |
| ValidatorSets.ValidatorSet.IsValidQC | internal/layer1/consensus/validator_set.go:253-277 | Repeated and unsigned texts do not count towards a certificate; every other text counts for the validator it names |
| ValidatorSets.ValidatorSet.SelectProposer | internal/layer1/consensus/validator_set.go:104-128 | The loop elects by the seed residue and rotates by the view |
| ValidatorSets.ValidatorSet.AddValidator | internal/layer1/consensus/validator_set.go:166-179 | The set is again by rising address, equal addresses in any order, with the new entry counted, or the call refused |
| ValidatorSets.ValidatorSet.RemoveValidator | internal/layer1/consensus/validator_set.go:181-198 | The first entry with the address goes, with its stake |
| ValidatorSets.ValidatorSet.UpdateStake | internal/layer1/consensus/validator_set.go:200-211 | The first entry with the address is restaked and the total adjusted |
| Accusations.FairIff | internal/layer1/consensus/hotstuff.go:926-948 | Over every run that never trimmed the history, and for any set of signatures: every accusation over votes names a key that signed both of them, and every remembered vote was signed, if and only if every vote put before the detector was signed |
| Accusations.ConflictsDeserved | internal/layer1/consensus/hotstuff.go:926-948 | Hence every vote conflict on record then names a key that signed both hashes, at that position and in one phase |
| Accusations.ForgedVoteRemoves | internal/layer1/consensus/hotstuff.go:926-948 | The failing input, for every set, member and two hashes: an unsigned vote in the name of a member and the one vote it signed make a conflict on record, and the slash removes the member |
| Accusations.StepTakes | internal/layer1/consensus/hotstuff.go:926-948 | Every event adds to the remembered votes exactly the vote put before the detector that contradicts none, and to the vote conflicts at most the one that does |
| DoubleSigns.CheckVoteRemembers | internal/layer1/consensus/engine.go:100-142 | Until a trim, a conflict is reported exactly when another hash is remembered, an accepted vote is remembered afterwards, and nothing else changes |
| DoubleSigns.RememberedWasShown | internal/layer1/consensus/engine.go:100-142 | Over every run of votes and proposals, whatever vote is remembered was presented earlier, trims included |
| DoubleSigns.EvidenceIsGenuine | internal/layer1/consensus/engine.go:62-142 | Over every run of votes and proposals, each recorded conflict names two different hashes that were both presented in the validator's name at that position, votes in one phase; only a conflict that accuses a proposer with an empty address may be otherwise |
| DoubleSigns.EmptyAddressAccused | internal/layer1/consensus/engine.go:62-98 | The exception: after any vote at a position, one proposal in the empty address's name is recorded as its second |
| DoubleSigns.ReportedIff | internal/layer1/consensus/engine.go:62-142 | While the history was never trimmed, exactly what is reported: a vote that differs from the validator's first one there in that phase, and a proposal that differs from the same proposer's when that one was the first thing seen at the position; once a vote came first, no proposer with an address is reported |
| DoubleSigns.HistoryHoldsFirsts | internal/layer1/consensus/engine.go:62-142 | An untrimmed history holds what was shown first at each position and nothing else |
| DoubleSigns.TrimmedIff | internal/layer1/consensus/engine.go:164-177 | Over every run, the history is trimmed exactly when more than ten thousand positions were shown, and until then has an entry for each; so the premise of an untrimmed history is one a caller can count |
| DoubleSigns.HistoryStaysBounded | internal/layer1/consensus/engine.go:164-177 | A history that drops half of its positions whenever it has one too many never holds more than ten thousand |
| DoubleSigns.DoubleSignDetector.CheckVote | internal/layer1/consensus/engine.go:100-142 | The method changes history and evidence as the model says |
| DoubleSigns.DoubleSignDetector.CheckProposal | internal/layer1/consensus/engine.go:62-98 | The method changes history and evidence as the model says |
| DoubleSigns.DoubleSignDetector.TrimHistory | internal/layer1/consensus/engine.go:164-177 | A full history loses a legal choice of entries, a smaller one nothing |
| Finality.CheckpointFinalizes | internal/layer1/consensus/engine.go:207-240 | A fresh checkpoint that receives one vote from each of its distinct validators is final, and its height the last finalized |
| Finality.FinalizesIff | internal/layer1/consensus/engine.go:207-240 | For every list of voters, repetitions included: the checkpoint loop finalizes the height if and only if the distinct voters reach the threshold, which is taken of the whole list |
| Finality.RepeatedVoters | internal/layer1/consensus/engine.go:223-240 | Under the default ratio a list of four or more entries that all name one validator does not finalize |
| Finality.FinalityGadget.AddVote | internal/layer1/consensus/engine.go:223-240 | The vote goes to the open checkpoint of the height and finalizes it at the threshold |
| Finality.FinalityGadget.CreateCheckpoint | internal/layer1/consensus/engine.go:207-221 | The checkpoint is appended, open and without votes |
| ChainStore.RunRefines | internal/layer1/ledger/persistent_chain.go:77-217 | Over every sequence of additions, reads, foreign writes and restarts, the persistent chain stands for the slice chain that took the same operations, and every reply is the slice chain's |
| ChainStore.RunFromGenesis | internal/layer1/ledger/persistent_chain.go:27-75 | From an empty store on: blocks stand on their parents, the cache order lists its keys once each within capacity, and each height reads as the slice chain's |
| ChainStore.AddRefines | internal/layer1/ledger/persistent_chain.go:77-125 | Adding a block grows both chains by it or changes nothing, also when indexing fails afterwards |
| ChainStore.AddByHashRefines | internal/layer1/ledger/persistent_chain.go:127-189 | Adding by hash does the same, given a hash and a proposer |
| ChainStore.GetRefines | internal/layer1/ledger/persistent_chain.go:191-217 | A height reads as the slice chain's block, from cache or store, and a missing height as none |
| ChainStore.GetByHashRefines | internal/layer1/ledger/persistent_chain.go:219-244 | A hash reads as the latest block of the chain with that hash, or none |
| ChainStore.OpenStarts | internal/layer1/ledger/persistent_chain.go:52-75 | Opening a store without a chain starts at genesis |
| ChainStore.OpenRestores | internal/layer1/ledger/persistent_chain.go:415-435 | Opening the store of a chain brings back that chain, whatever genesis is configured |
| ChainStore.BatchExtends | internal/layer1/ledger/persistent_chain.go:104-112 | One batch turns the store of a chain into the store of the longer chain |
| ChainStore.KeysDiffer | internal/layer1/ledger/persistent_chain.go:478-496 | Block, hash, height and tip keys never collide and block keys determine their height |
| ChainStore.ForeignEntriesKeep | internal/layer1/ledger/persistent_chain.go:307-317 | Receipts and index entries never disturb the chain's entries |
| ChainStore.CachedKeepsValid | internal/layer1/ledger/persistent_chain.go:437-455 | Caching keeps the order duplicate-free, equal to the keys and within capacity |
| ChainStore.CacheEvictsWhenFull | internal/layer1/ledger/persistent_chain.go:437-455 | A thousand blocks stay cached before the one used longest ago makes room, and only that one goes |
| ChainStore.TouchedKeeps | internal/layer1/ledger/persistent_chain.go:457-476 | Touching permutes the order and puts the height last |
| ChainStore.ValidatesIff | internal/layer1/ledger/chain.go:168-190 | A chain built by additions validates exactly when every block after genesis verifies |
| ChainStore.PlaceholdersNeverValidate | internal/layer1/ledger/chain.go:83-120 | A chain that contains a block added by hash never validates, since that block has no signature |
| ChainStore.Blockchain.AddBlock | internal/layer1/ledger/chain.go:55-81 | The slice grows by a verified block on the tip, or stays |
| ChainStore.Blockchain.AddBlockByHash | internal/layer1/ledger/chain.go:83-120 | The slice grows by the made-up block on the tip, or stays |
| ChainStore.Blockchain.GetBlock | internal/layer1/ledger/chain.go:122-131 | The block at a height, if there is one |
| ChainStore.Blockchain.Validate | internal/layer1/ledger/chain.go:168-190 | The loop checks height, parent and verification of every block |
| ChainStore.VerifyBlock | internal/layer1/ledger/block.go:58-89 | The checks of `Block.Verify`, transactions included |
| ChainStore.BytesToUint64 | internal/layer1/ledger/persistent_chain.go:498-507 | The first eight bytes as a number, or an error |
| ChainStore.PersistentBlockchain.Start | internal/layer1/ledger/persistent_chain.go:27-50 | Load what the store holds, or write genesis |
| ChainStore.PersistentBlockchain.TouchCache | internal/layer1/ledger/persistent_chain.go:457-476 | The listed height moves to the end of the order |
| ChainStore.PersistentBlockchain.CacheBlock | internal/layer1/ledger/persistent_chain.go:437-455 | The block is cached and the oldest height evicted beyond capacity |
| ChainStore.PersistentBlockchain.AddBlock | internal/layer1/ledger/persistent_chain.go:77-125 | The whole new state of adding a block |
| ChainStore.PersistentBlockchain.AddBlockByHash | internal/layer1/ledger/persistent_chain.go:127-189 | The whole new state of adding by hash |
| ChainStore.PersistentBlockchain.GetBlock | internal/layer1/ledger/persistent_chain.go:191-217 | The block read and the cache after reading |
| ChainStore.PersistentBlockchain.GetBlockByHash | internal/layer1/ledger/persistent_chain.go:219-244 | The block read through the hash index |
| BlockContents.AddedIffWellMade | internal/layer1/ledger/persistent_chain.go:77-125 | A block is added if and only if it stands on the tip, above genesis names a parent and has a 64-byte signature, is at most an hour ahead, carries verified transactions, its transactions hash is the Merkle root over the hashes of its own transaction hashes (or the hash of nothing), and neither economics nor the write refuses it |
| BlockContents.StoredBlocksAreWellMade | internal/layer1/ledger/persistent_chain.go:77-217 | Over every run from an empty store, whatever block is read above genesis was so made when it was added, or is the block made up for a hash |
| BlockContents.MadeUpIff | internal/layer1/ledger/persistent_chain.go:127-189 | When a block is made up for a hash, exactly, and what the tip then is |
| BlockContents.PayloadReads | internal/layer1/ledger/block.go:40-49 | At which offset the signing bytes of a block hold which field |
| BlockContents.HashBinds | internal/layer1/ledger/block.go:51-56 | Two blocks without a consensus hash and with one hash share every field the hash covers, or the two named strings collide; state root, signature and nonce are not covered |
| BlockContents.TransactionsHashBinds | internal/layer1/ledger/block.go:109-125 | Two well-made blocks with as many transactions and one transactions hash carry the same transaction hashes, or the two named strings collide |
| BlockContents.TipBindsChain | internal/layer1/ledger/block.go:40-56 | Two chains of one length and one tip hash have the same header at every height above genesis and the same signing bytes at genesis, or the two named strings collide |
| Rlp.TransactionRoundTrip | internal/layer1/ledger/rlp.go:90-249 | Decoding the bytes `TxHash` hashes returns the transaction if and only if it is canonical: parity below the value it is shifted by and, for legacy, no typed fields and no wrap |
| Rlp.ParityTransactionsAreCanonical | internal/layer1/ledger/rlp.go:213-249 | Parity 0 or 1 with 2 * chain id + 36 below 2^64 is canonical for all three types |
| Rlp.TransactionBytesUnique | internal/layer1/ledger/rlp.go:213-249 | Canonical transactions with equal bytes are equal |
| Rlp.SigningBytesBind | internal/layer1/ledger/rlp.go:180-211 | Two signing pre-images are equal if and only if type and every signed field are equal |
| Rlp.PanicsExactlyOnHugeLength | internal/layer1/ledger/rlp.go:44-77 | The item decoder slices out of range exactly when eight length bytes announce more than fits an `int` beside the header |
| Rlp.DecodesToReceived | internal/layer1/ledger/rlp.go:90-171 | What any encoded transaction decodes to, canonical or not |
| Rlp.WireVIff | internal/layer1/ledger/rlp.go:157-168 | A legacy `v` gives back chain and parity exactly under that condition |
| Rlp.FieldDecodes | internal/layer1/ledger/rlp.go:29-77 | An encoded field followed by anything decodes to its payload and leaves the rest |
| Rlp.FieldsDecode | internal/layer1/ledger/rlp.go:106-114 | A concatenation of encoded fields decodes to exactly their payloads |
| Rlp.StrippedIsShortest | internal/layer1/ledger/rlp.go:323-340 | Dropping the leading zeros of the eight-byte form leaves the shortest form |
| Rlp.DecodeRLPItem | internal/layer1/ledger/rlp.go:29-77 | The item decoder equals the specification, wrapping lengths included |
| Rlp.DecodeLong | internal/layer1/ledger/rlp.go:44-57 | The long form, with its length read in wrapping arithmetic |
| Rlp.DecodeRLPBigInt | internal/layer1/ledger/rlp.go:79-88 | The low 64 bits of the big-endian number |
| Rlp.DecodeRLPTransaction | internal/layer1/ledger/rlp.go:90-171 | The transaction decoder equals the specification in every error case |
| Rlp.RlpEncodeWithPrefix | internal/layer1/ledger/rlp.go:342-360 | Short and long prefixes |
| Rlp.RlpEncodeBytes | internal/layer1/ledger/rlp.go:313-321 | Byte strings |
| Rlp.RlpEncodeUint64 | internal/layer1/ledger/rlp.go:323-340 | Numbers in shortest form |
| Rlp.RlpEncodeList | internal/layer1/ledger/rlp.go:305-311 | A list is the prefixed concatenation |
| Rlp.EncodeAccessList | internal/layer1/ledger/rlp.go:173-178 | The access list keeps its raw payload |
| Rlp.SigningPreimage | internal/layer1/ledger/rlp.go:180-211 | The bytes that `SigningHash` hashes |
| Rlp.TxPreimage | internal/layer1/ledger/rlp.go:213-249 | The bytes that `TxHash` hashes |
| RlpForms.LegacyForms | internal/layer1/ledger/rlp.go:180-249 | The legacy pre-images read back item by item: what is signed and what is hashed agree in the first six items, nonce to data; then come the chain id and two empty items in the one, the wire value and the signature in the other |
| RlpForms.TypedForms | internal/layer1/ledger/rlp.go:180-249 | The typed pre-images read back: both start with the type, and what is signed are the first nine of the twelve items of what is hashed, each field at its index |
| RlpForms.DecoderReads | internal/layer1/ledger/rlp.go:90-171 | From which item the decoder takes each field, and which item counts it refuses |
| QcCodec.RoundTrip | internal/layer1/consensus/validator_set.go:279-395 | A certificate survives the wire if and only if it lists exactly its signers, keeps the size limits, and its last signature has a non-zero S |
| QcCodec.DecodeAfterEncode | internal/layer1/consensus/validator_set.go:279-395 | Within the limits, decoding gives the certificate back or, when it ends with a zero S, rejects it |
| QcCodec.SignedCertificatesSurvive | internal/layer1/consensus/validator_set.go:279-395 | Certificates with 20-byte addresses in hexadecimal and non-zero 256-bit R and S survive |
| QcCodec.DecodedIsTransportable | internal/layer1/consensus/validator_set.go:305-395 | Whatever bytes arrive, an accepted certificate lists exactly its signers and keeps every limit |
| QcCodec.EntryUndone | internal/layer1/consensus/validator_set.go:345-391 | A signer entry is read back unless it ends the data with a zero S |
| QcCodec.EntriesUndone | internal/layer1/consensus/validator_set.go:345-391 | A list of signer entries is read back unless the last S is zero |
| QcCodec.EncodeQC | internal/layer1/consensus/validator_set.go:279-303 | The encoder loop writes the specified bytes |
| QcCodec.DecodeQC | internal/layer1/consensus/validator_set.go:305-395 | The decoder loop over the reader computes the specified result, errors included |
| QcCodec.Reader.ReadNumber | internal/layer1/consensus/validator_set.go:317-325 | A fixed-size number is read whole or not at all |
| QcCodec.Reader.ReadBytes | internal/layer1/consensus/validator_set.go:334-337 | A raw read fails only at the end of the data and otherwise pads with zeros |
| QcLayout.HeadingLayout | internal/layer1/consensus/validator_set.go:279-288 | At which offset an encoded certificate holds which field, in big-endian numbers |
| QcLayout.SignerLayout | internal/layer1/consensus/validator_set.go:289-300 | Each listed signer in turn: address, R and S behind their lengths, and nothing of a signature for one that did not sign |
| Merkle.Completeness | internal/layer1/crypto/merkle.go:8-92 | For every non-empty leaf list and every `int` index, the generated proof of the leaf that the index opens verifies, odd levels included; within range that is the leaf at the index |
| Merkle.Binding | internal/layer1/crypto/merkle.go:8-35 | Two leaf lists of one length with one root are equal, or the two strings the extractor names collide |
| Merkle.Soundness | internal/layer1/crypto/merkle.go:77-92 | A proof of the tree's depth that verifies for any `int` index, in range or not, carries the leaf that index opens, or the named strings collide |
| Merkle.BindsIff | internal/layer1/crypto/merkle.go:8-35 | For every two lengths: all leaf lists of these lengths with one root are equal, or the named strings collide, if and only if the lengths are equal |
| Merkle.SameRootsAgree | internal/layer1/crypto/merkle.go:8-35 | For every two lengths, two lists of one repeated leaf each that have one root |
| Merkle.RepeatedLeafKeepsRoot | internal/layer1/crypto/merkle.go:18-21 | From any list to a longer one: repeating the last leaf of any odd list longer than one keeps the root under every hash |
| Merkle.LengthDecides | internal/layer1/crypto/merkle.go:77-92 | For every number of leaves and every proof length: all accepted proofs of that length, for any index, are sound in every tree of that many leaves if and only if the length is the depth of the tree |
| Merkle.WrongLengthOpens | internal/layer1/crypto/merkle.go:77-92 | For every number of leaves and every other length, an accepted opening of something that is no leaf |
| Merkle.InnerNodesOpen | internal/layer1/crypto/merkle.go:77-92 | In every tree and for every length below the depth, two joined nodes of a level are accepted as data |
| Merkle.LongerProofsOpen | internal/layer1/crypto/merkle.go:77-92 | In every tree whose first leaf continues a chain of hashes, whatever began the chain is accepted by a proof longer than the tree is deep |
| Merkle.LevelsBind | internal/layer1/crypto/merkle.go:18-30 | Two different levels with one root exhibit a collision |
| Merkle.SignIsNotRead | internal/layer1/crypto/merkle.go:77-92 | The verifier accepts an index exactly when it accepts its negative, with any data and proof |
| Merkle.RootIsLastNode | internal/layer1/crypto/merkle.go:8-35 | The root is the last node of the tree given by positions: each node the hash of its left child before its right one, a missing right child being the left one again |
| Merkle.ProofNodes | internal/layer1/crypto/merkle.go:37-75 | Entry by entry, a proof is the other child beside the path on that level of this tree |
| Merkle.NewMerkleTree | internal/layer1/crypto/merkle.go:8-35 | The level loop computes the root |
| Merkle.GenerateProof | internal/layer1/crypto/merkle.go:37-75 | The level loop collects the siblings, and an index out of range is refused |
| Merkle.ProofLevel | internal/layer1/crypto/merkle.go:50-72 | The inner loop finds the sibling while it builds the next level |
| Merkle.VerifyProof | internal/layer1/crypto/merkle.go:77-92 | The fold over the proof, with truncating division of the index |
| Merkle.EqualHash | internal/layer1/crypto/merkle.go:94-104 | Byte-wise comparison is equality |
| Spv.InclusionComplete | internal/layer1/spv/verifier.go:36-85 | The honest proof of every transaction is accepted if and only if the block has at least two transactions |
| Spv.FoldReachesTop | internal/layer1/spv/verifier.go:118-159 | Folding sorted pairs along the proof reaches the node the level reduction ends with, promoted odd nodes included, although the fold knows no index |
| Spv.ProofIsEmptyIffAlone | internal/layer1/spv/verifier.go:118-159 | A proof is empty only in a tree of one node |
| Spv.PairHashSymmetric | internal/layer1/spv/verifier.go:64-75 | The hash of a pair does not depend on which child is on the path |
| Spv.OpensNodesIff | internal/layer1/spv/verifier.go:36-85 | For every block: every hash the client accepts against its top is a node of the tree, or the named strings collide, if and only if that is so of each digest half of a transaction that is the bytes of a pair |
| Spv.InclusionSound | internal/layer1/spv/verifier.go:36-85 | What an accepted proof means in such a block: its hash is a node of the tree, or the named strings collide |
| Spv.NoneStartsWithZeroSuffices | internal/layer1/spv/verifier.go:36-85 | A condition quick to check: no transaction starts with a zero byte |
| Spv.OpensTransactionsIff | internal/layer1/spv/verifier.go:36-85 | For every block without such transactions and without a collision among what its tree hashed: every accepted hash is a transaction's if and only if the block has at most two transactions |
| Spv.FirstInnerNodeAccepted | internal/layer1/spv/verifier.go:36-85 | From three transactions on, the first inner node is accepted, is no transaction's hash and exhibits no collision |
| Spv.AcceptedIsVerified | internal/layer1/spv/verifier.go:36-85 | The verifier accepts a hash against a top exactly when its text is listed and its proof folds to the top |
| Spv.FoldOpens | internal/layer1/spv/verifier.go:64-85 | In any block, a proof that folds to the top starts from a node, exhibits a collision, or passes through a transaction that is the bytes of a pair |
| Spv.BelowALeafOpens | internal/layer1/spv/verifier.go:64-85 | Below a transaction that is the bytes of a pair, both halves fold to the top |
| Spv.InnerNodesVerify | internal/layer1/spv/verifier.go:36-85 | In any block, on every level below the top, every node is accepted as a transaction hash when it is listed |
| Spv.TopIsLastNode | internal/layer1/spv/verifier.go:118-159 | The top is the last node of the tree given by positions: a zero byte and the two children, the smaller first, hashed, and an only child moved up as it is |
| Spv.ProofIsBeside | internal/layer1/spv/verifier.go:118-159 | A proof is the nodes beside its path in this tree, level by level, where there are any |
| HexText.RoundTrip | internal/layer1/spv/verifier.go:55-62 | Both decoders read back what the encoder wrote |
| HexText.StrictIsLenient | internal/layer1/consensus/validator_set.go:228-240 | Whatever the strict decoder reads, the validator set's decoder reads the same |
| HexText.PairMeans | internal/layer1/consensus/validator_set.go:228-240 | How two characters are read, exactly: two digits of either case alike by both decoders; the lenient one also takes a digit before a character that is none, or behind a blank |
| HexText.HexDecode | internal/layer1/consensus/validator_set.go:228-240 | The loop of `hexDecode`: pairs scanned one by one, quiet at a second character that is no digit |
| Spv.BuildMerkleProof | internal/layer1/spv/verifier.go:118-159 | The level loop collects the siblings there are |
| Spv.ReduceLevel | internal/layer1/spv/verifier.go:138-153 | The inner loop builds the next level, promoting an odd node |
| Spv.GenerateTransactionMerkleProof | internal/layer1/spv/verifier.go:105-116 | The proof of a transaction, or none for an index out of range |
| Spv.VerifyTransactionInclusion | internal/layer1/spv/verifier.go:36-85 | The verifier accepts exactly what the specification accepts |
| StateSync.AppliedInOrder | internal/layer1/consensus/state_sync.go:46-175 | Over every run with targets below 2^64 - 1, each session applies its first height, the next and so on with no gap or repeat, and while it runs everything buffered lies above the current height |
| StateSync.FinishesIff | internal/layer1/consensus/state_sync.go:124-175 | With a willing applier a session finishes if and only if every height up to the target arrived, and until then stands at the least missing one |
| StateSync.OrderIndependent | internal/layer1/consensus/state_sync.go:124-175 | Two deliveries of the same heights in any orders leave the session in the same place |
| StateSync.LastHeightNeverFinishes | internal/layer1/consensus/state_sync.go:149-172 | The bound is exact: with target 2^64 - 1 no delivery finishes the session |
| StateSync.DrainKeeps | internal/layer1/consensus/state_sync.go:149-168 | The drain loop applies consecutive heights and stops below anything still buffered |
| StateSync.DeliverKeeps | internal/layer1/consensus/state_sync.go:124-175 | Every delivery keeps the invariant, failing appliers included |
| StateSync.RequestsStartAtTheGap | internal/layer1/consensus/state_sync.go:243-264 | A request starts at the missing height, is at most a batch, ends by the target, and is made exactly while its end does not wrap |
| StateSync.AnsweredRequestAdvances | internal/layer1/consensus/state_sync.go:243-264 | An answered request takes the session past the whole batch |
| StateSync.AimsAtTheHighest | internal/layer1/consensus/state_sync.go:46-73 | Over every run, a session aims at the highest height it was asked for since it began, and asking again leaves it where it stands with an empty buffer |
| StateSync.StateSyncer.StartSync | internal/layer1/consensus/state_sync.go:46-73 | A start begins, extends or ignores a session |
| StateSync.StateSyncer.ApplyBlock | internal/layer1/consensus/state_sync.go:124-175 | The new state, the blocks applied and the error of one delivery |
| StateSync.StateSyncer.DrainPending | internal/layer1/consensus/state_sync.go:149-168 | The loop of `ApplyBlock` equals the specification |
| StateSync.StateSyncer.ResyncFromHeight | internal/layer1/consensus/state_sync.go:272-277 | The restart |
| StateSync.StateSyncer.Stop | internal/layer1/consensus/state_sync.go:196-202 | The stop |
| StateSync.StateSyncer.RequestNextBatch | internal/layer1/consensus/state_sync.go:243-264 | The range requested next |
| Staking.RunConserves | internal/layer1/consensus/staking.go:66-214 | Over every run, with any amounts, the total is the sum of stakes and stake plus slashed is self-stake modulo 2^64, and replaying the log gives the total and every stake |
| Staking.RunConservesTruly | internal/layer1/consensus/staking.go:66-214 | While less than 2^64 was ever staked these hold in unbounded integers, and the total is everything staked less everything unstaked and slashed |
| Staking.TotalIsTrueIff | internal/layer1/consensus/staking.go:257-261 | The total is the true sum exactly while that sum is below 2^64 |
| Staking.SlashIsProportionalIff | internal/layer1/consensus/staking.go:155-162 | A slash takes the stated fraction exactly when the product fits 64 bits, and never more |
| Staking.SlashKeeps | internal/layer1/consensus/staking.go:145-179 | The clamp keeps the books balanced when the product wraps |
| Staking.StakeKeeps | internal/layer1/consensus/staking.go:66-106 | Staking keeps the books, and a refused stake changes nothing |
| Staking.UnstakeKeeps | internal/layer1/consensus/staking.go:108-143 | Unstaking keeps the books, and a refused one changes nothing |
| Staking.RecordsAreLives | internal/layer1/consensus/staking.go:66-214 | Over every run, the record of a validator is what the operations that name it make of it, one after the other; nobody else's operations touch it |
| Staking.DeactivatedForGood | internal/layer1/consensus/staking.go:81-89 | Over every run, a validator that unstaked everything has no stake from then on, whatever anybody asks for |
| Staking.SucceedsIff | internal/layer1/consensus/staking.go:66-214 | Which operations succeed, exactly |
| Staking.StakingModule.Stake | internal/layer1/consensus/staking.go:66-106 | The whole new state of staking |
| Staking.StakingModule.Unstake | internal/layer1/consensus/staking.go:108-143 | The whole new state of unstaking |
| Staking.StakingModule.Slash | internal/layer1/consensus/staking.go:145-179 | The whole new state of a slash and its amount |
| Staking.StakingModule.Jail | internal/layer1/consensus/staking.go:181-195 | Jailing changes only the jail fields |
| Staking.StakingModule.Unjail | internal/layer1/consensus/staking.go:197-214 | Release only after the jail time |
| TxPool.RunKeeps | internal/layer1/ledger/pool.go:68-349 | Over every run, with every choice map order and sorting leave open, the price list is a descending permutation of the pending transactions and size and per-sender limits hold |
| TxPool.AddKeeps | internal/layer1/ledger/pool.go:68-134 | Adding keeps that whichever replaceable transaction is found first; only an added transaction changes the pool |
| TxPool.EvictsExactly | internal/layer1/ledger/pool.go:306-322 | `Evict(count)` removes exactly min(count, size) transactions |
| TxPool.EvictsCheapest | internal/layer1/ledger/pool.go:306-322 | Nothing evicted was priced above a survivor |
| TxPool.ReplacementPaysMoreIff | internal/layer1/ledger/pool.go:108-119 | The replacement price guarantees more than a tenth above the replaced price exactly when it does not wrap |
| TxPool.RemovedKeeps | internal/layer1/ledger/pool.go:244-255 | Removing keeps the pool valid, whatever the hash |
| TxPool.RemovedAllKeeps | internal/layer1/ledger/pool.go:189-196 | Removing confirmed transactions keeps the pool valid |
| TxPool.SameSize | internal/layer1/ledger/pool.go:244-255 | List and map have the same size |
| TxPool.ListedOnce | internal/layer1/ledger/pool.go:341-349 | No hash is listed twice |
| TxPool.AddedIff | internal/layer1/ledger/pool.go:68-134 | A transaction is added if and only if it has a sender, is not pending, pays the least price, names the pool's chain or none, is within its sender's share and not behind its account, and there is room or it outbids a pending one of its sender and nonce; with room nothing else changes, without exactly one goes |
| TxPool.PendingWasAdmissible | internal/layer1/ledger/pool.go:68-134 | Over every run, whatever is pending was admissible when it was added |
| TxPool.TxPool.Add | internal/layer1/ledger/pool.go:68-134 | Every status and state `Add` may end in |
| TxPool.TxPool.Admit | internal/layer1/ledger/pool.go:72-102 | The admission checks in their order |
| TxPool.TxPool.CountAccountTxs | internal/layer1/ledger/pool.go:257-265 | The count of a sender's transactions |
| TxPool.TxPool.FindReplaceable | internal/layer1/ledger/pool.go:108-119 | A replaceable transaction, or none exists |
| TxPool.TxPool.RemoveLocked | internal/layer1/ledger/pool.go:244-255 | Map and list lose the transaction |
| TxPool.TxPool.RemoveConfirmed | internal/layer1/ledger/pool.go:189-196 | All named transactions go |
| TxPool.TxPool.Evict | internal/layer1/ledger/pool.go:306-322 | The tail of the list goes and the list is rebuilt |
| TxPool.TxPool.RebuildByGasPrice | internal/layer1/ledger/pool.go:341-349 | The rebuilt list is a descending permutation of the map |
| TxPool.TxPool.Clear | internal/layer1/ledger/pool.go:222-229 | The empty pool |
| Economics.NestedHalving | internal/layer1/ledger/economics.go:78-81 | Halving once per epoch with rounding is division by the power of two |
| Economics.IssuanceBound | internal/layer1/ledger/economics.go:200-212 | The rewards of any number of heights sum to at most twice an interval at full reward |
| Economics.SupplyStaysCapped | internal/layer1/ledger/economics.go:134-162 | Over every run from within the cap, circulating supply stays within it and is the initial supply plus accepted rewards plus accepted fees |
| Economics.FeeFreeBlocksNeverFail | internal/layer1/ledger/economics.go:134-162 | Fee-free blocks at rising heights are never refused when the cap leaves room for twice an interval of rewards |
| Economics.DefaultNeverFails | internal/layer1/ledger/economics.go:24-43 | The default configuration leaves that room |
| Economics.SharesWithinFees | internal/layer1/ledger/economics.go:214-232 | Validator and burn shares stay within the fees and rounding loses less than two units |
| Economics.RewardInInterval | internal/layer1/ledger/economics.go:200-212 | The reward at a height of the k-th interval is the block reward divided by two to the k, and nothing from the sixty-fourth on |
| Economics.FeeOfOne | internal/layer1/ledger/economics.go:214-232 | One transaction pays its price for all the gas it asks for |
| Economics.FeesAdd | internal/layer1/ledger/economics.go:214-232 | Blocks pay what their parts pay |
| Economics.ReceiptAccounts | internal/layer1/ledger/economics.go:134-162 | The receipt of an accepted block accounts for the change of state: issuance, fees and burnt amount are the differences, the shares whole hundredths of the fees rounded down |
| Economics.Economics.CalculateBlockReward | internal/layer1/ledger/economics.go:69-84 | The halving loop computes the reward |
| Economics.Economics.CalculateFees | internal/layer1/ledger/economics.go:86-107 | The fee loop computes total and shares |
| Economics.Economics.ProcessBlock | internal/layer1/ledger/economics.go:134-162 | The whole new state and receipt of a block, or nothing |
| FeeMarket.GrowthOverRuns | internal/layer1/ledger/fee_market.go:35-71 | For runs in which no sum reaches 2^64 (the condition `StepBoundIff` shows each step needs), n updates keep a positive fee between (7/8)^n and (9/8)^n of where it began |
| FeeMarket.StepBoundIff | internal/layer1/ledger/fee_market.go:35-71 | For every fee and block: one update keeps the nine-eighths bound exactly unless the fee is zero and the block below target, and the seven-eighths bound exactly unless the sum wraps |
| FeeMarket.MonotoneIff | internal/layer1/ledger/fee_market.go:35-71 | For every fee: the new fee is monotone in the gas used exactly when the fee is at least one and the raise by the fullest block does not wrap |
| FeeMarket.FixedIff | internal/layer1/ledger/fee_market.go:35-71 | The fees no block changes are exactly one to seven |
| FeeMarket.SmallFeesStay | internal/layer1/ledger/fee_market.go:35-71 | A fee from one to seven stays over any run |
| FeeMarket.SevenIsAFloorIff | internal/layer1/ledger/fee_market.go:35-71 | Over every run, a fee that reached seven stays at seven or above if and only if no sum wraps to less than seven |
| FeeMarket.EmptyBlocksReachSeven | internal/layer1/ledger/fee_market.go:58-70 | Empty blocks bring every fee of seven or more to exactly seven after the computed number of steps and keep it there |
| FeeMarket.FeeMarket.Update | internal/layer1/ledger/fee_market.go:35-71 | The update computes the specified fee |
| FeeMarket.FeeMarket.CalculateTip | internal/layer1/ledger/fee_market.go:97-103 | Base fee and tip add up to the price, or there is no tip |
| Sequencer.SelectionIsSafe | internal/layer1/sequencer/sequencer.go:195-213 | The selection is in order, without repetition, and within both budgets in unwrapped sums |
| Sequencer.SelectionIsMaximal | internal/layer1/sequencer/sequencer.go:195-213 | Nothing left out could join the final selection without breaking a budget |
| Sequencer.FirstFit | internal/layer1/sequencer/sequencer.go:195-213 | First fit: a transaction is kept if and only if it fits both budgets beside the kept ones before it |
| Sequencer.FilterBatch | internal/layer1/sequencer/sequencer.go:195-213 | The wrapped sums and overflow tests compute exactly that selection |

## Left out

- Liveness of consensus: timers and message arrivals are arbitrary steps; nothing says they happen.
- `HandleMessage`, which sorts messages into channels before they reach the locked handlers, and the goroutines, channels and dropped messages around it; rate limiting, broadcasts, logging, audit log, metrics and liveness tracking.
- The runtime diagnostics of `verifyInvariants`; the relations among them that hold in every reachable state are part of the engine invariant.
- `handleDowntimeSlash`, `processAutoUnjail`, `applyEpochSlashing` and reward distribution inside the engine: the set an epoch change installs is a parameter, any strictly sorted set whose total is the wrapped sum of its stakes, which is what `NewValidatorSet` builds from distinct addresses.
- The engine's three timeout maps are one map, since they gain and lose keys together.
- Order and repetition of the texts a certificate lists: the engine model keeps them as a set, of which `IsValidQC` is handed an arbitrary listing; the codec model keeps the list.
- The signature on a new-view message, which covers its JSON payload: it is not among the signatures an engine is recorded to have made.
- Floating point: the finality threshold is the exact product of a real fraction, and the slashing fraction enters as whole billionths.
- The clock, except as a number: jail times, unbonding times and the block timestamp test take it as a parameter.
- Aliasing of slices and pointers that callers keep (cached blocks, event validators): slices and records are values.
- The hash index of the in-memory `Blockchain` and its eviction.
- `ProcessReorg`, `ImportStateSnapshot`, snapshots and fork weight, which bypass the chain invariants.
- `GetBlocks` and `PersistentBlockchain.Validate`, loops over `GetBlock`.
- Recovery of public keys from RLP transactions, and the conversion to a ledger transaction.
- The record of which heights were already requested in state sync, which nothing but itself reads.
- `CalculateFeesFromGasUsed` and `InflationRate`: the first is `CalculateFees` with another gas column, the second is floating point.
- The decision of `createBlock` whether to filter a batch at all, and everything else in the sequencer.
- Cryptography, storage engines, networking, RPC, virtual machines, rollups and the upper layers.
- FeeMarket.GrowthOverRuns: is stated for runs in which no sum reaches 2^64; after a sum wraps to zero the next step may raise the fee without ratio.
- OwnQuorums.OrderlyRunsCommitOnce: is stated while the chain is below the last `uint64` height, where `height + 1` wraps.
- Accusations.FairIff: is about conflicts over votes; a proposal's signature names no position, so `DoubleSigns.EvidenceIsGenuine` is what is stated of conflicts over proposals.
- Replicas.AccountableAgreement: is stated for two decisions counted in the same validator set, since epochs may install different ones.
- EngineRuns.OneHashPerVoter: says nothing after the detector's history was trimmed, because a trim forgets votes.
- EngineRuns.ProgressOrder: is stated for runs whose view counter does not wrap; `EngineSteps.TimerOrder` gives the exact condition of one step.
