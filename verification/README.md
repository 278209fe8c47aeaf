# Verified model of the concord consensus core

Package `concord` agrees on a piece of data among validators with voting power. This project models its five
connected parts and proves what they are for, over every input, every run and every interleaving:

* the **proposer scheduler** and the **validator-set updates** (`Proposers`, `Scheduler`, `Levels`, `Fairness`,
  `Waiting`, `ChangeSets`, `Merging`, `ChangePipeline`, `ChangeEffects`, `Memberships`, `Standing`, `ProposerSets`,
  `Runs`);
* the **canonical wire codec**, which implements the "Base 128 Varints" and "Length-Delimited Records" sections of the
  Protocol Buffers encoding guide (`Varints`, `Canonical`, `UnknownFields`, `WireFormat`, `Malformed`,
  `CanonicalBuffers`);
* the **vote set** (`Votes`, `VoteSets`, `VoteSetInvariant`, `VoteOrigins`, `Tallies`, `Signals`, `StrayVotes`, `VoteSetObjects`);
* **commits** and their **verifiers** (`Quorums`, `Commits`, `CommitContents`, `Certificates`, `CommitValidity`,
  `Verifiers`, `Leniency`, `TrustLevels`);
* the **one-round agreement protocol** (`Proposals`, `Agreement`, `Provenance`, `AgreementRuns`, `Disagreement`,
  `Progress`, `Rounds`).

`Int64`, `Sums`, `Bytes`, `Options` and `Sorting` are the vocabulary: bounded integers over `int`, sums of lists and
maps, byte strings with their order, optional values, and sorting.

Code that changes state is written as classes and loops (`ProposerSets.ProposerSet`, `VoteSetObjects.VoteSet`,
`Rounds.Round`, the loops of `CanonicalBuffers` and `Verifiers`) and proved equal to a transition on values or to a
declarative condition; the theorems about whole runs are proved of those transitions and conditions. What each
transition computes is stated a second time without naming it: entry by entry in `Memberships`, `Standing`,
`CommitContents` and `Leniency`, field by field in `WireFormat` and `Malformed`, answer by answer in `VoteOrigins`,
event by event in `Provenance`. A method that the source guards with a mutex is one atomic step.

Foreign code is a parameter: signature verification, address derivation and the timestamp codec are function fields of
`Votes.Crypto`, so every theorem holds for all of them. Two things are assumed of them. The timestamp codec reads back
what it wrote, where a lemma lists `Canonical.TimesRoundTrip`. In the agreement, a delivered vote whose signature
verifies under an honest key was signed by its holder (`Agreement.Unforged`, a condition of the delivery step); where
a theorem is about an honest proposer it lists the same for proposals (`Provenance.UnforgedProposals`). The lemmas that construct runs also assume that each validator can sign and that no other honest key accepts its signatures
(`AgreementRuns.Keyed`). A Go panic is a value of the model (`Fairness.Panic`, `None`, `Certificates.Panics`, `Verifiers.Panicked`, `VoteSets.SignBytesPanic`)
or, where it cannot happen, an `assert false` on the branch.

## Where code and comments differ

The model follows the code.

* `safeMul` misjudges two families (`Int64.SafeMulExactly`): a product of exactly the smallest int64 fits but is
  reported, and the smallest int64 as the first operand is never reported. Its only caller passes a total power first,
  so only the first family is met there: LightTrusting turns down, say, a total of 2 with the numerator 2^64 - 2^62
  (`Certificates.OverflowExactly`).
* `VerifyCommitLightTrusting` converts its uint64 operands to int64. A numerator above the int64 range becomes negative,
  and a level far above 1 is then accepted on one signature: `TrustLevels.ExcessiveLevelAccepted` is an input,
  `TrustLevels.SoundExactly` says which levels are honoured and `TrustLevels.HonouredSigners` what acceptance at one of
  them proves.
* A newcomer is priced at -1.125 times the total so that leaving and rejoining does not reset a negative priority. A
  member further down than that, which the window of twice the total allows, is overtaken by a newcomer and would gain
  by rejoining: `Standing.TrailsExactly` gives the exact condition, `Standing.NewcomerOvertakes` an input,
  `Standing.NewcomersTrail` the law for sets in which nobody is below the lowest priority an election leaves.
* The vectors for precommits and prevotes in `concord/vote_test.go` are of messages with height 1 and round 1
  (`WireFormat.VoteVectors`), but the code signs height 0 and round 0 (`Votes.SignBytesSay`).
* `RescalePriorities` can divide by zero, under the exact guard of `Scheduler.ZeroDivisorExactly`; no window the package
  computes meets it.
* The `VoteSet` comment says that every vote of `.votes` has an entry in `.votesByBlock`. A conflicting vote for the
  majority block whose block nobody claimed replaces the canonical vote and enters no block: `StrayVotes.StrayExists`
  gives the calls, `StrayVotes.StrayExactly` and `StrayVotes.StrayRuns` the exact condition. The invariant allows this.
* The done channel is not always closed when a majority stands: a peer claim can let a conflicting vote reach the
  quorum, and a call with a conflict returns before the signal. `Signals.DoneCanLagBehind` gives the calls,
  `Signals.SilenceExactly` and `Signals.SilentRuns` the exact condition before a call and in all runs,
  `VoteSetInvariant.DoneWithoutClaims` the case without claims.
* `MakeCommit` is described as a certificate for a majority. For a majority on nil it returns a commit that
  `VerifyCommit` turns down (`CommitValidity.CommitCertifies`, both directions; `Disagreement.NilCommitReturned`, a run).

## Model

| member | source | states |
|---|---|---|
| Int64.SafeAdd | concord/proposer_set.go:1038-1045 | the flag is set exactly when the mathematical sum leaves int64, otherwise the sum is exact |
| Int64.SafeSub | concord/proposer_set.go:1047-1054 | the flag is set exactly when the mathematical difference leaves int64, otherwise it is exact |
| Int64.SafeMulExactly | concord/proposer_set.go:1078-1099 | the overflow flag of safeMul is right if and only if, for MinInt64 as the first operand, the second is 0 or 1, and otherwise the product is not exactly MinInt64; where it is right and not set the product is exact |
| Int64.SafeMulFails | concord/proposer_set.go:1084-1096 | both families have members: 2 times -2^62 and 1 times MinInt64 are reported though they fit, MinInt64 times 2 is not reported |
| Bytes.LessExactly | concord/proposer.go:74-79 | the order of addresses: the first byte that differs decides, and a proper prefix comes first |
| Proposers.MostestBeatsAll | concord/proposer_set.go:219-225 | the left-to-right scan ends on the one validator with the highest priority, of equals the one with the lowest address |
| Proposers.CompareProposerPriority | concord/proposer.go:64-84 | the result is the argument with the higher priority, on a tie the one with the lower address |
| Scheduler.RescaleFits | concord/proposer_set.go:144-165 | without overflow of diff and diff+diffMax-1 rescaling never divides by zero, brings every pair of priorities within the window, grows no priority, and is the identity inside the window |
| Scheduler.RescaleExactly | concord/proposer_set.go:144-165 | what rescaling computes: every priority is divided, toward zero, by the smallest whole number that brings the spread within the window; nothing else changes |
| Scheduler.RescaleKeepsOrder | concord/proposer_set.go:144-165 | rescaling keeps the order of the priorities |
| Scheduler.RescaleAnyway | concord/proposer_set.go:144-165 | the same on any list, also where the difference or the sum wraps and the divisor is negative |
| Scheduler.DiffExactly | concord/proposer_set.go:198-217 | the computed difference is exact up to MaxInt64 and reflected beyond |
| Scheduler.ZeroDivisorExactly | concord/proposer_set.go:158-162 | RescalePriorities divides by zero if and only if the window is positive, the (wrapped) priority difference exceeds it, and the difference plus twice the window exceeds 2^64 + 1 |
| Scheduler.NeverZeroDivisor | concord/proposer_set.go:128-129 | so it never does for a window of at most half of MaxInt64, and with it for every window the package uses |
| Scheduler.LargeWindowDividesByZero | concord/proposer_set.go:158-162 | called with a window just below MaxInt64, RescalePriorities divides by zero on priorities MaxInt64 and 0 |
| Scheduler.ShiftCentres | concord/proposer_set.go:182-235 | centring by the Euclidean average never clips when the spread fits, keeps the spread, leaves a sum in [0, n), and is the identity on such a sum |
| Scheduler.ShiftExactly | concord/proposer_set.go:182-235 | centring any list takes the average, rounded down, off each priority, stopping at the int64 bounds |
| Scheduler.NormalizeFits | concord/proposer_set.go:125-130 | rescaling and centring together end centred, with spread and every priority within twice the total, without saturating |
| Scheduler.NormalizeExactly | concord/proposer_set.go:125-130 | what both compute together: priorities divided by the smallest whole number that brings their spread within twice the total, shifted by one constant to a sum in [0, n) |
| Scheduler.IncrementIsExact | concord/proposer_set.go:167-179 | without overflow of the additions one increment saturates nowhere, adds to each its power, takes the total from the elected one only, which held at least 1, and conserves the sum |
| Scheduler.ElectedExactly | concord/proposer_set.go:167-179 | the elected validator has the most after the additions, of equals the lowest address, also where additions saturate |
| Scheduler.IncrementSaturates | concord/proposer_set.go:167-179 | one pass on any list: the sum, and for the elected one the payment, each stopped at the int64 bounds |
| Fairness.SelectedExactly | concord/proposer_set.go:132-139 | the validator a call records is the one that had the most after the additions of the last pass and that alone paid the total in it |
| Fairness.SumConserved | concord/proposer_set.go:167-179 | any number of exact increments conserves the priority sum |
| Fairness.PriorityFormula | concord/proposer_set.go:134-136 | after k increments a priority is its start plus k powers less one total for each time its owner was elected |
| Fairness.AnyTimes | concord/proposer_set.go:117-139 | from any set, centred or not, whose first rescaling does not overflow, and if T(H(n)+5) fits int64 for the harmonic number H(n): after any calls with any positive counts the next call overflows nowhere, conserves the sum, follows the priority formula and keeps every priority between -2T and T(H(n)+1), after every pass |
| Fairness.LinearRoom | concord/proposer_set.go:128-138 | the linear condition (n+1)(2T+1) <= MaxInt64 implies that room |
| Levels.LevelStep | concord/proposer_set.go:167-179 | an exact pass keeps every choice of k of the n validators at or below k times base + T(H(n) - H(k)), so no run gets a validator further ahead than the harmonic numbers allow |
| Levels.SingleLevel | concord/proposer_set.go:167-179 | one validator is then never more than T(H(n) - 1) above the level a run starts from |
| Levels.HarmonicLog | concord/proposer_set.go:128-138 | H(n) is no more than the number of bits of n |
| Fairness.NoStarvation | concord/proposer_set.go:134-136 | in any n(2T+1) consecutive passes of one call every validator with power is elected |
| Waiting.ShortWait | concord/proposer_set.go:134-136 | a validator of power w is elected in any m consecutive passes of one call with m*w > T(H(n)+3) |
| Waiting.WaitAcrossCalls | concord/proposer_set.go:117-139 | the same wait across calls with one pass each, if none of them but the first rescales: who waits longer has seen a rescaling |
| Waiting.FewNeverRescale | concord/proposer_set.go:144-165 | a fresh set of up to three validators is never rescaled by any number of single calls |
| Waiting.FewNeverStarve | concord/proposer_set.go:117-139 | so up to three validators never wait longer across single calls, without further condition |
| Fairness.ExactProportionality | concord/proposer_set.go:117-139 | from a fresh set with T within int32, T increments elect each validator exactly as often as its power and return every priority to zero, without clipping |
| Fairness.ExactRoundRobin | concord/proposer_set.go:71-81 | n equal validators of a fresh set are elected in turn, position (passes so far + k) mod n, however the passes are grouped into calls |
| Fairness.Batching | concord/proposer_set.go:133-136 | one call with k ends like k calls with 1 whenever nothing clips and no intermediate spread exceeds the window |
| Runs.NoClippingEver | concord/proposer_set.go:19-26 | in every run, from the empty set or from the update and the increment inside NewValidatorSet, on through updates and single increments, and calls with any number of passes where T(H(n)+1) is at most three times the cap, no tally, no clip and no overflow guard leaves the exact integers, and priorities stay within [-2T, 3T] after each update or single increment |
| Runs.ModestPowerIsSmall | concord/proposer_set.go:19-26 | where the total is at most a twenty-first of the cap, that covers calls with any number of passes on sets of any size |
| Runs.FirstUpdateIsFresh | concord/proposer_set.go:592-642 | the first update of an empty set, by NewValidatorSet or by UpdateWithChangeSet, leaves every priority at zero, all powers positive, sorted |
| Runs.NewSetSpelled | concord/proposer_set.go:71-81 | a new set has exactly the listed validators, the highest power first; the first has been elected once and is the proposer, so it has its power less the total as priority, everybody else its power |
| ChangeSets.UpdateIsDetermined | concord/proposer_set.go:592-642 | the description of the result of an update admits one result only |
| ChangeSets.OrderIndependence | concord/proposer_set.go:376-377 | permuting the change list changes neither success nor the resulting set, priorities included |
| Merging.MergeSorted | concord/proposer_set.go:504-539 | the merge of two lists sorted by address is sorted by address |
| Merging.MergeOverrides | concord/proposer_set.go:504-539 | the merged list is the map of the existing entries overridden by the updates |
| Merging.WithoutRemoves | concord/proposer_set.go:562-586 | the removal pass takes out exactly the listed members, keeps the order and never runs off the list |
| ChangePipeline.MergedIsChanged | concord/proposer_set.go:626-631 | prices, merge and removals on sorted lists produce the changed map: old map overridden by updates, minus removals, old priorities kept, newcomers at -1.125 times the total before removals |
| ChangePipeline.TotalsFromDeltas | concord/proposer_set.go:428-455 | the totals before and after removals are the old total plus the sum of the deltas, less the removed power |
| ChangeEffects.NewcomerBounds | concord/proposer_set.go:479-498 | the total before removals is below twice the cap and the priority of a newcomer fits int64 |
| ChangeEffects.UpdateEffects | concord/proposer_set.go:592-642 | whatever the old priorities and also with members of power zero, the updated set has the keys and powers of the changed map and its total, listed from the highest power down, equal powers by address |
| ChangeEffects.UpdateCentres | concord/proposer_set.go:635-637 | whenever the arithmetic of an update is exact, the new priorities sum to [0, n) and spread at most 2T |
| ChangeEffects.UpdatesAreExact | concord/proposer_set.go:626-637 | the arithmetic of an accepted update, from newcomer priority to centring, is exact on sets with priorities within three times the cap |
| ChangeEffects.TalliesAreExact | concord/proposer_set.go:447-454 | no running sum of verifyRemovals or verifyUpdates leaves int64, on any distinct deletions and in any order of the updates, as the loop stops above the cap |
| Memberships.AcceptedExactly | concord/proposer_set.go:592-624 | the lists that succeed, change by change: distinct non-empty addresses, powers up to 2^60 - 1, removals only where allowed and of members, somebody left, and a total up to 2^60 - 1 |
| Memberships.TotalsSpelled | concord/proposer_set.go:428-455 | the totals before and after removals from the change list in the order it came |
| Memberships.UpdateSpelled | concord/proposer_set.go:592-642 | the updated set, entry by entry: added and updated validators as listed, unmentioned members as they were, nobody removed, in the order of the list |
| Standing.PriceExactly | concord/proposer_set.go:486-492 | a newcomer enters with minus nine eighths of the total before removals, rounded toward zero |
| Standing.UpdatePriorities | concord/proposer_set.go:626-637 | every priority after an update: what the member enters with, its old priority or the price, divided by the smallest whole number that brings the spread within twice the new total, shifted by one constant to a sum in [0, n) |
| Standing.StandingKept | concord/proposer_set.go:626-637 | an update keeps the order in which members enter, and within the window every difference |
| Standing.NewcomersTrail | concord/proposer_set.go:486-489 | leaving and rejoining never gains: a newcomer enters below 1 - T, the lowest priority an election leaves at the total T before removals, and if no staying member is below that, every newcomer ends at or below every old member |
| Standing.TrailsExactly | concord/proposer_set.go:486-492 | a newcomer enters at or below a member if and only if that member is not below minus nine eighths, rounded, of the total before removals; within the window it ends so under the same condition |
| Standing.NewcomerOvertakes | concord/proposer_set.go:486-492 | an input on which a newcomer enters above a member: price 23 at a total of 21, and a member at -30 |
| ProposerSets.ProcessChanges | concord/proposer_set.go:374-408 | succeeds exactly on distinct non-empty addresses with powers in [0, Max], then splits the sorted list; each error names a change that causes it |
| ProposerSets.PastTheCap | concord/proposer_set.go:447-453 | in ascending order a running sum that has passed the cap ends above it, so the early exit errs exactly when the final total is too high |
| ProposerSets.RemovalsCount | concord/proposer_set.go:608-608 | there are as many removals as members exactly when every member is removed |
| ProposerSets.LooksEmptyExactly | concord/proposer_set.go:606-610 | the test for an empty result, read off the change list: nobody is added and as many addresses are removed as there are members |
| ProposerSets.ProposerSet.VerifyRemovals | concord/proposer_set.go:543-557 | succeeds exactly when every deletion is of a member and returns their summed power, in int64 throughout; the panic on more deletions than members cannot be reached |
| ProposerSets.ProposerSet.VerifyUpdates | concord/proposer_set.go:428-455 | succeeds exactly when the final total is within the cap and returns the total before removals, in int64 throughout |
| ProposerSets.ProposerSet.ComputeNewPriorities | concord/proposer_set.go:479-498 | members keep their priority, a newcomer gets minus nine eighths of the updated total, rounded toward zero; nothing else changes |
| ProposerSets.ProposerSet.ApplyUpdates | concord/proposer_set.go:504-539 | replaces the list by the merge of its sorted form with the updates inside the allocated capacity |
| ProposerSets.ProposerSet.ApplyRemovals | concord/proposer_set.go:562-586 | replaces the list by itself without the deletions, never indexing an exhausted list |
| ProposerSets.ProposerSet.CheckChanges | concord/proposer_set.go:597-624 | the checks pass exactly on the acceptable change lists and change nothing; the error is that of the first check that fails |
| ProposerSets.ProposerSet.UpdateWithChangeSet | concord/proposer_set.go:592-642 | succeeds exactly on the acceptable lists, then holds the updated set, listed from the highest power down and by address among equals, with its total in the cache; the error is that of the first check that fails, and the set is then unchanged |
| ProposerSets.ProposerSet.RescalePriorities | concord/proposer_set.go:144-165 | panics exactly on an empty set or under the zero-divisor guard, changing nothing; otherwise the in-place loop is the rescaling that RescaleExactly and RescaleAnyway spell out |
| ProposerSets.ProposerSet.ComputeAvgProposerPriority | concord/proposer_set.go:182-195 | the average is the Euclidean quotient of the sum and always fits int64 |
| ProposerSets.ProposerSet.IncrementProposerPriority | concord/proposer_set.go:117-139 | panics exactly on an empty set or a count below one, changing nothing; otherwise ends in the state of the call on values and records the validator elected by the last pass, with its priority after it |
| ProposerSets.ProposerSet.UpdateTotalVotingPower | concord/proposer_set.go:299-313 | caches the exact total; the panic above the cap cannot be reached |
| ProposerSets.NewValidatorSet | concord/proposer_set.go:71-81 | panics exactly on a non-empty list that the first update refuses; otherwise a first update of the empty set, then one increment: exactly the listed validators, the strongest first and recorded as proposer, with the priorities after one election |
| Varints.VarintSizeIsLength | concord/pb/canonical.pb.go:540-542 | the closed form of sovCanonical is the number of bytes written |
| Varints.ReadBack | concord/pb/canonical.pb.go:457-466 | a varint read back from inside any buffer is the value written and the index behind it |
| Canonical.SizeIsLength | concord/pb/canonical.pb.go:512-538 | Size is exactly the number of bytes Marshal writes |
| Canonical.VoteRoundTrip | concord/pb/canonical.pb.go:839-1028 | Unmarshal of Marshal into a zero value gives the canonical vote back |
| Canonical.EncodingInjective | concord/pb/canonical.pb.go:390-455 | equal encodings come from equal canonical votes |
| UnknownFields.SkipsField | concord/pb/canonical.pb.go:1029-1106 | skipping lands right behind any well-formed field, groups nested to any depth included, at any depth of open groups |
| UnknownFields.UnknownFieldsIgnored | concord/pb/canonical.pb.go:1012-1025 | unknown fields of any kind before and after a marshalled vote do not change what Unmarshal returns |
| WireFormat.WireForm | concord/pb/canonical.pb.go:405-455 | Marshal writes, in order of their numbers, field 1 as a varint, 2 and 3 as fixed 64-bit, 4, 5 and 6 as records; zero values are left out, the time never |
| WireFormat.UnmarshalMeans | concord/pb/canonical.pb.go:839-1028 | Unmarshal of any list of fields, in any order, repeated or unknown, into any value: the fields act one after the other, and a known field of the wrong wire type is refused |
| WireFormat.UnmarshalHashMeans | concord/pb/canonical.pb.go:546-629 | the same for the data hash inside a vote |
| WireFormat.EmptyVoteVector | concord/vote_test.go:61-65 | the first test vector of vote sign bytes |
| WireFormat.VoteVectors | concord/vote_test.go:66-95 | the other two, as messages with height 1 and round 1 |
| Malformed.ReadVarintExactly | concord/pb/canonical.pb.go:845-859 | every varint, padded ones included: up to ten bytes are a number modulo 2^64, ten bytes that all announce another one overflow, otherwise the data must not end |
| Malformed.ReadTagExactly | concord/pb/canonical.pb.go:860-867 | the low 32 bits of a field number count, signed, and must be positive; an end-group tag is refused first |
| Malformed.ReadLengthExactly | concord/pb/canonical.pb.go:925-935 | a length that leaves int64 is invalid, one that leaves the data an unexpected end |
| Malformed.BadTagRefused | concord/pb/canonical.pb.go:862-871 | a tag that is no field, ends no group, or gives a known field the wrong wire type is refused with its error |
| Malformed.BadWireTypeRefused | concord/pb/canonical.pb.go:1009-1022 | nor is an unknown field of a wire type that does not exist passed over |
| Malformed.CutExactly | concord/pb/canonical.pb.go:839-1028 | a marshalled vote cut anywhere inside a field is refused as an unexpected end; cut between two fields it reads as the fields in front of the cut |
| Canonical.DelimitedInjective | concord/vote.go:97-105 | the length prefix keeps different messages different |
| CanonicalBuffers.EncodeVarintCanonical | concord/pb/canonical.pb.go:457-466 | writes the varint right before the offset and leaves everything behind it |
| CanonicalBuffers.MarshalToSizedBuffer | concord/pb/canonical.pb.go:405-455 | writing backwards fills the sized buffer exactly with the encoding, in bounds; fails exactly when the time cannot be encoded |
| CanonicalBuffers.Marshal | concord/pb/canonical.pb.go:390-398 | returns the encoding or the error of the timestamp codec |
| CanonicalBuffers.SkipCanonical | concord/pb/canonical.pb.go:1029-1106 | skips one field with nested groups, terminates on every input and moves forward |
| CanonicalBuffers.UnmarshalHash | concord/pb/canonical.pb.go:546-629 | the loop over indices, with its varint, length and skip loops, is the recursive parser, terminates on every byte string and reads inside it only |
| CanonicalBuffers.Unmarshal | concord/pb/canonical.pb.go:839-1028 | the loop over indices, with its switch over the fields and their varint, length, fixed-width and skip loops, is the recursive parser, terminates on every byte string and reads inside it only |
| Votes.SignBytesInjective | concord/canonical.go:47-56 | equal sign bytes mean equal chain, type, hash and time |
| Votes.SignBytesSay | concord/vote.go:97-105 | read back, the signed bytes are the type, hash, time and chain of the vote, at height and round zero |
| Votes.SignBytesExist | concord/canonical.go:18-36 | sign bytes exist exactly for empty and 32-byte hashes, times with a wire form and messages that fit a slice |
| Proposals.ProposalBytesInjective | concord/canonical.go:39-45 | equal proposal bytes mean equal identifier, data and time: a signature on one proposal counts for no other |
| Proposals.ProposalFields | concord/pb/canonical.pb.go:333-388 | the proposal bytes field by field: type 32, the data as hash, the time, the identifier |
| Proposals.ProposalBytesExist | concord/proposal.go:91-99 | they exist exactly for data that is empty or 32 bytes long, times with a wire form and messages that fit a slice |
| Proposals.ProposalIsNoVote | concord/proposal.go:91-99 | the sign bytes of a proposal are never those of a prevote or precommit |
| VoteSetInvariant.RunInv | concord/vote_set.go:134-330 | after every sequence of AddVote and SetPeerMaj23: sums equal stored power, bit arrays match, block votes are for their block and have a canonical vote, canonical votes are in their block or for the majority with the slot there empty, the majority is set exactly when a tracked block has a quorum and its voters' canonical votes are for it, blocks number at most canonical votes plus claims |
| VoteSetInvariant.MajorityIsFinal | concord/vote_set.go:274-285 | a majority never changes and a signal is never withdrawn, whatever comes later |
| VoteSetInvariant.DoneWithoutClaims | concord/vote_set.go:193-201 | without claims the signal is given exactly when a tracked block has reached the quorum |
| Signals.SilenceExactly | concord/vote_set.go:184-203 | one call, in terms of the state before: it leaves a majority unannounced exactly if it is an accepted conflicting vote whose claimed block it lifts to the first quorum; the silence ends exactly with a valid first vote of a validator; the signal is given exactly by a valid first vote while a majority stands or is just reached |
| Signals.SilentRuns | concord/vote_set.go:184-203 | in every run a majority stands unannounced exactly if some call met that guard and nobody voted validly for the first time since |
| Signals.DoneExactly | concord/vote_set.go:193-201 | in every run, also with claims, the signal has been given exactly if some call met the guard of the signal |
| Signals.SilentMajority | concord/vote_set.go:186-188 | two validators of power 2, a claim and a follower: every such run has all power in, a majority, and no signal |
| Signals.DoneCanLagBehind | concord/vote_set.go:186-188 | a concrete configuration and four calls with a majority and no signal |
| StrayVotes.StrayExactly | concord/vote_set.go:225-260 | one call, in terms of the state before: a canonical vote gets outside its block exactly if it is an accepted conflicting vote for the majority, whose block nobody claimed; one outside stays outside |
| StrayVotes.StrayRuns | concord/vote_set.go:225-260 | in every run a canonical vote is in no block exactly if some call met that guard |
| StrayVotes.StrayExists | concord/vote_set.go:45-46 | a concrete configuration of four validators and five calls after which a canonical vote is in no block |
| VoteOrigins.AddVoteOrigin | concord/vote_set.go:218-289 | AddVote stores nothing but its argument, under its own index, after every check passed |
| VoteOrigins.AnswersMean | concord/vote_set.go:113-203 | each answer of AddVote has its exact meaning for the vote and the state: new, conflicting and tracked or not, duplicate, different signature, or invalid; no rejected vote changes the state |
| VoteOrigins.AnswersExactly | concord/vote_set.go:134-183 | each error of AddVote has its own exact condition, in the order of the checks: index, address, type, repeated or different signature, key address, sign bytes, signature |
| VoteOrigins.OthersUntouched | concord/vote_set.go:218-289 | a vote changes no slot of another validator, no other block and no claim, except that a new majority takes over the votes of its block |
| VoteOrigins.ClaimsRecorded | concord/vote_set.go:307-313 | in every run the record of a peer is its first claim |
| VoteOrigins.ClaimAnswers | concord/vote_set.go:297-330 | in every run SetPeerMaj23 errs exactly if the first claim of the peer was for another hash; only a first claim changes anything, namely the record and the mark of its block |
| VoteOrigins.SumsFit | concord/vote_set.go:648-653 | no sum exceeds the total power, so int64 sums are exact |
| Tallies.OneMajority | concord/vote_set.go:274-285 | with one vote per validator at most one block can hold a quorum |
| Tallies.RunIsTally | concord/vote_set.go:134-203 | if no validator cast two different valid votes and nobody claims, the state is a function of which valid votes arrived |
| Tallies.OrderIndependence | concord/vote_set.go:134-203 | under the same condition every delivery order, with duplicates and invalid votes, ends in the same state, signal included |
| VoteSetObjects.BlockTally.AddVerifiedVote | concord/vote_set.go:646-653 | the block counts a validator once |
| VoteSetObjects.VoteSet.AddVerifiedVote | concord/vote_set.go:218-289 | on shared block objects the update is the transition on values; the duplicate panic cannot be reached |
| VoteSetObjects.VoteSet.AddVote | concord/vote_set.go:134-203 | state and answer are those of the transition on values; the panic on a vote not added cannot be reached |
| VoteSetObjects.VoteSet.SetPeerMaj23 | concord/vote_set.go:297-330 | the first claim of a peer is recorded and its block tracked; a second, different one is refused without effect |
| VoteSetObjects.VoteSet.MakeCommit | concord/vote_set.go:596-620 | the loop builds the commit of the state, or panics exactly when the type is wrong, no majority stands or a stored hash is malformed |
| VoteSetObjects.CommitToVoteSet | concord/commit.go:54-66 | the loop over signatures ends in the replayed state, or panics exactly when the replay does |
| Commits.MakeCommitNeverPanics | concord/vote_set.go:596-620 | in a reachable state MakeCommit panics exactly on a wrong type or a missing majority |
| Commits.CommitRoundTrip | concord/commit.go:51-81 | CommitToVoteSet of MakeCommit never panics, finds the same majority, is done, and its MakeCommit is the same commit |
| Commits.ReachableRoundTrip | concord/commit.go:322-335 | the round trip holds from every reachable precommit set with a majority |
| CommitContents.CommitSpelled | concord/vote_set.go:596-620 | the commit signature by signature: votes for the majority and for nil with address, time and signature, all others absent; the exact condition of each panic |
| CommitContents.RestoredExactly | concord/commit.go:54-66 | CommitToVoteSet of any commit panics exactly if some signature is of an unknown flag, beyond the set, or not the validator's under its address; otherwise the set holds exactly those votes and the majority among them |
| CommitValidity.CommitCertifies | concord/proposer_set.go:668-711 | the commit of a reachable precommit set passes VerifyCommit if and only if its majority hash is complete, and its signatures carry their validators' addresses |
| Disagreement.NilCommitReturned | concord/conciliator.go:130-135 | a concrete setup and run in which a node returns a commit for nil, which VerifyCommit turns down |
| Certificates.FullImpliesLight | concord/proposer_set.go:719-757 | what VerifyCommit accepts, VerifyCommitLight accepts |
| Certificates.ThresholdAtMostTwoThirds | concord/proposer_set.go:778-783 | a trust level of at most two thirds whose product fits needs no more than two thirds of the total, in the int64 conversions of the code |
| Certificates.OverflowExactly | concord/proposer_set.go:778-782 | a trust level is turned down as too large exactly when the product leaves int64 or is exactly MinInt64 |
| Certificates.LightImpliesTrusting | concord/proposer_set.go:767-818 | what VerifyCommitLight accepts with own addresses, VerifyCommitLightTrusting accepts on the same set for any such trust level |
| Certificates.ConflictNeedsAThird | concord/proposer_set.go:730-756 | two accepted commits with different hashes: validators with more than a third of the power validly signed both, over different bytes |
| Certificates.TrustingSigners | concord/proposer_set.go:785-815 | acceptance by the loop means distinct members holding more than its threshold validly signed |
| TrustLevels.ThresholdForm | concord/proposer_set.go:778-783 | what a trust level that is not turned down asks for, with either operand above MaxInt64 read as negative |
| TrustLevels.SoundExactly | concord/proposer_set.go:778-783 | it asks for floor(T*num/den) or more if and only if: with num at most MaxInt64, den is too or T*num + den < 2^64; with num above, den is too and num <= den |
| TrustLevels.HonouredSigners | concord/proposer_set.go:767-818 | LightTrusting acceptance at such a level means distinct members with power above floor(T*num/den) validly signed |
| TrustLevels.NegativeAccepts | concord/proposer_set.go:785-815 | a negative threshold accepts exactly if the first signature that names a member checks |
| TrustLevels.ExcessiveLevelAccepted | concord/proposer_set.go:779-783 | at the level (2^64 - 1)/1 a total of 3 gives the threshold -3, and a commit signed by one of three validators is accepted |
| Verifiers.VerifyCommit | concord/proposer_set.go:668-711 | accepts exactly if size and hash fit, every present signature checks, and those for the block have over two thirds; each error is the first that applies, too little power only when every present signature checks |
| Verifiers.VerifyCommitLight | concord/proposer_set.go:719-757 | accepts exactly if some prefix of checked signatures for the block passes two thirds, whatever follows it; each error is the first that applies, too little power only when every signature for the block checks |
| Verifiers.VerifyCommitLightTrusting | concord/proposer_set.go:767-818 | accepts exactly if some prefix of checked signatures by distinct members passes the threshold; each error, also a double vote, is the first that applies |
| Verifiers.TrustingLoop | concord/proposer_set.go:785-817 | the loop with its map of seen validators decides the condition above |
| Leniency.AttestsExactly | concord/proposer_set.go:691-695 | a signature checks exactly if the key signed the precommit for the hash, or for nil under the nil flag, with its time; the panics are unknown flags and votes without sign bytes |
| Leniency.FullExactly | concord/proposer_set.go:668-711 | VerifyCommit accepts exactly if size and hash fit, all present signatures attest, and three times the power for the block exceeds twice the total |
| Leniency.LightExactly | concord/proposer_set.go:719-757 | VerifyCommitLight accepts exactly if size and hash fit and some first signatures, those for nil aside, attest and have that power |
| Leniency.LightIgnoresTheRest | concord/proposer_set.go:748-753 | once the first k signatures suffice, the commit is accepted whatever stands behind them |
| Leniency.LightIsLaxer | concord/proposer_set_test.go:746-792 | a concrete commit with a bad fourth signature, for the block or for nil, that the light verifier accepts and VerifyCommit refuses |
| Leniency.TrustingExactly | concord/proposer_set.go:785-815 | LightTrusting accepts, beyond a threshold, exactly if some first signatures name at least one member, distinct members only, attest, and have more than the threshold |
| Leniency.TrustingIgnoresStrangers | concord/proposer_set.go:785-797 | signatures for nil and of strangers to the set never matter, however malformed |
| Leniency.TrustingIgnoresTheRest | concord/proposer_set.go:809-813 | nor does anything behind the position at which the members named so far suffice |
| Quorums.QuorumOverlap | concord/vote_set.go:268-268 | two choices of validators beyond two thirds share more than one third |
| Agreement.FindSelf | concord/conciliator.go:102-107 | the last entry of the set with the node's own key, or -1 |
| Agreement.NetRunInv | concord/conciliator.go:94-136 | in every interleaving: an honest key signs votes for one hash only, both vote sets of every node satisfy their invariant, votes stored under an honest index are that node's, and a returned commit is for the precommit majority |
| Agreement.AgreementHolds | concord/conciliator.go:94-136 | if validators outside the honest set hold at most a third of the power, any two honest nodes that return have commits with the same hash |
| Agreement.CommitWasValidated | concord/conciliator.go:119-124 | the hash of a returned commit is one some honest node validated and prevoted |
| Agreement.ReturnedCommitCertifies | concord/conciliator.go:130-135 | a returned commit passes VerifyCommit exactly when it is not for nil |
| Agreement.ReturnStep | concord/conciliator.go:130-135 | the wait ends only with a majority, so MakeCommit in AgreeOn never panics |
| Agreement.HonestVotesSuffice | concord/round.go:102-107 | a node that holds the precommits of all honest nodes for one hash has that majority and its signal, if the others hold less than a third |
| Provenance.DataWasSigned | concord/round.go:80-93 | in every run whatever data an honest node waits for, votes on or returns came in a received proposal whose signature verifies under the proposer's key |
| Provenance.SignsOwnProposal | concord/round.go:49-74 | an honest key signs no proposal but the one its AgreeOn was called with, and only under the proposer's address |
| Provenance.StartsOnce | concord/conciliator.go:94-111 | no honest node proposes twice |
| Provenance.IdleIsNew | concord/conciliator.go:101-111 | before AgreeOn is called nothing reaches a node: it has no votes, no proposal and no signature |
| Provenance.OneIndexPerKey | concord/conciliator.go:102-107 | no key takes part under two indices, also in a set that lists it twice |
| Provenance.HonestProposerDecides | concord/round.go:80-93 | with an honest proposer, whose proposal signatures nobody forges, that data is what the proposer was asked to propose |
| Provenance.HonestProposerAgrees | concord/conciliator.go:94-136 | so any two honest nodes take, vote on and return the same data |
| Provenance.ReturnedCommitIsForTheData | concord/conciliator.go:113-135 | with at most a third faulty besides, what a node returns is the proposer's data together with a commit for the hash that validation gives that data |
| Provenance.PrecommitFollowsPrevotes | concord/conciliator.go:124-130 | a node precommits only over a majority of prevotes cast by more than two thirds of the power |
| Provenance.HeldVotesAreSigned | concord/conciliator.go:138-187 | every vote an honest node holds was received, is well-formed, and is signed by the validator it counts for |
| AgreementRuns.EveryPlanRuns | concord/conciliator.go:94-136 | every setup whose validators can sign and every assignment of hashes: if each honest node can hear over two thirds of the power for the hash it is to return, a run exists in which every honest node returns that hash |
| AgreementRuns.HonestNodesReturn | concord/conciliator.go:94-136 | the protocol completes: with over two thirds of the power honest, any number of validators, some run lets every honest node return the common hash |
| Progress.UnanimousNodesReturn | concord/conciliator.go:94-136 | no reachable net is stuck: with less than a third faulty, no honest node failed and all honest votes so far for one hash, some continuation lets every honest node return that hash, whatever has been sent before |
| Disagreement.DisagreementExactly | concord/conciliator.go:94-136 | for every setup whose validators can sign: two honest nodes can return different hashes if and only if two validators are honest and the honest ones can be divided so that the faulty ones complete a quorum on either side |
| Disagreement.DivisionNeedsAThird | concord/vote_set.go:268-268 | such a division exists only if more than a third of the power is faulty |
| Disagreement.OneThirdExactly | concord/conciliator.go:94-136 | where the honest power can be halved, some run disagrees if and only if more than a third of the power is faulty |
| Disagreement.TrioExactly | concord/conciliator.go:94-136 | concrete setups for all powers w, w and faulty f: a disagreeing run exists if and only if f > w |
| Rounds.Round.constructor | concord/round.go:33-45 | the round under the index found for the node's own key is a new node of the protocol |
| Rounds.Round.Propose | concord/round.go:49-74 | signs and publishes exactly if the node has the proposer's address, the signer answers and the proposal bytes exist, and is the start step |
| Rounds.Round.RcvProposal | concord/round.go:80-93 | a proposal enters the channel exactly when it is signed by the proposer and the channel is free; each other reply has its exact condition, a bad signature before a full channel |
| Rounds.Round.VotePrevote | concord/round.go:110-119 | the prevote published is exactly the one for the validated hash under the node's own index and address, and is the prevote step |
| Rounds.Round.VotePrecommit | concord/round.go:110-119 | the precommit published is exactly the one for the node's own hash under its own index and address, and is the precommit step |
| Rounds.Round.Finish | concord/conciliator.go:130-135 | the commit of the precommit set is the return step |
| Rounds.Round.RcvVote | concord/round.go:121-125 | the vote goes to the set of its type, whose answer is returned, and leaves the other alone; it is the delivery step |

## Left out

- ChangeEffects.UpdatesAreExact: for priorities beyond three times the cap, which only a set decoded from outside or built by ValidatorSetFromExistingValidators can have (`Runs.NoClippingEver`), exactness is not claimed.
- ProposerSets.ProcessChanges: an empty address counts as a duplicate, as in the code; which of several errors of processChanges is reported is fixed only up to the list.
- Standing.NewcomersTrail: requires that no staying member is below 1 - T, without which it is false (`Standing.NewcomerOvertakes`); the condition without this bound is `Standing.TrailsExactly`.
- Runs.NoClippingEver: calls with more than one pass are covered on sets with T(H(n)+1) at most three times the cap, which holds for every n while T is at most a twenty-first of the cap (`Runs.ModestPowerIsSmall`); single increments and updates are covered without a limit.
- VoteSetObjects.CommitToVoteSet: commits with more than 2^31-1 signatures, whose index no longer fits an int32, are excluded; the same holds for the verifiers.
- Rounds.Round: waiting is a precondition on the signal instead of a blocked goroutine; contexts and cancellation are the failing step.
- ProposerSet pointers: entries are values in a list, so the sharing between `Proposer` and an entry of `Proposers` is not modelled; the recorded proposer is a snapshot.
- GetProposer, findProposer and findPreviousProposer: the agreement takes the proposer of the common set as given.
- Validator sets with duplicate addresses, negative powers, totals above the cap, or cached totals that disagree with the list.
- Waiting.WaitAcrossCalls: with more than three validators, and when single calls rescale again and again, no bound on the wait is stated; every rescaling divides what a validator has accrued.
- Unmarshal into a value that is not the zero value is modelled, the partially filled message after an error is not.
- A panic of a node on a vote whose time has no encoding counts as a refused vote in the agreement; times that came over the wire have one.
- Rounds and heights never reach the sign bytes, so the agreement covers one AgreeOn per honest node and identifier.
- Provenance.ReturnedCommitIsForTheData: the bytes AgreeOn returns need not hash to the commit's data hash when a faulty proposer signs two proposals; then only their signature is claimed (`Provenance.DataWasSigned`).
- Publishing, topics, message envelopes, timeouts, locks and goroutines are I/O; delivery is a step of the protocol at any time after the round exists.
- Key generation, signatures, Merkle roots, the bit-array library, the timestamp codec and MarshalDelimited's buffer handling are foreign code.
- Vote set accessors, Commit.BitArray and Commit.Hash memoisation, String, JSON and the field-copying protobuf conversions have no hard content.
- The other generated protobuf messages repeat the codec modelled here; of CanonicalProposal only the encoder is modelled.
- round_state.go, peer_round_state.go and the unused messages of msgs.go.
