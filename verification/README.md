# Governance of the subtensor runtime, verified

A Dafny model of three parts of the runtime, with proofs about every run of them:

- **The collective pallet** (`pallets/collective/src/lib.rs`): motions are proposed, voted on, closed early or after their
  time, dispatched and removed; votes are purged when members change. `Collective.dfy` gives every call as a function of
  the storage; the dispatch of an approved motion is any list of further calls, nested to any depth, undone when the
  dispatch fails. `Pallet.dfy` is the same pallet as a class that updates its storage in place (vector pushes,
  `swap_remove`, `retain`, sort and binary search, a push that only the roll-back undoes); each of its methods is proved
  equal to the function, so every theorem about runs holds of the class.
- **The governance wiring** (`runtime/src/lib.rs`): Senate seats, exchange of senators, the majority gate, the scheduler's
  order on origins, and the EVM balance converter.
- **`CheckNonce`** (`runtime/src/check_nonce.rs`): pool tags and nonce bumps.

How the run theorems are built: a run is flattened into moves, one storage change each (`Runs.Flatten`); every move keeps
an invariant (`Invariants.Inv`) with these parts: the three stores agree, the motion indices are partitioned into open and
removed, the vote vectors are what the event log replays to, the log passes an audit written without reference to the
code (`History.Audit`), and the Senate stays within its maximum. Claims about history (timing, majority, last votes) are
then read off the log. Lemmas that require `Inv` therefore hold in every state reached from genesis
(`Runs.EveryRunIsSound`).

Files: `Words` (u32 arithmetic), `Vectors`, `Motions` (one motion's votes), `Decisions` (verdicts), `Collective`,
`History`, `Invariants`, `Runs`, `Effects` (each call in full), `Dispatching`, `Governance`, `Findings` (concrete runs),
`Pallet` (the class), `Origins`, `BalanceConverter`, `Nonces`.

## What the proofs brought out

- A motion's threshold is fixed when it is proposed. If the Senate grows before the close, the motion can be dispatched
  by a minority: `Findings.GrownSenateDispatchesWithoutMajority`. Approval means a strict majority exactly while the seats
  are fewer than twice the threshold and below 2^32 - 1 (`Governance.ApprovalsAreMajoritiesExactly`).
- Changing the Senate's membership directly leaves a leaver's votes standing, because that membership pallet's change hook
  is `()`: `Findings.DirectRemovalLeavesVote`. Its calls are exposed (line 1555 of `runtime/src/lib.rs`), so this is root's
  `remove_member`, and also FRAME's signed `change_key`, which the model covers as `DropSenator` followed by `AddSenator`.
  The exact condition for one removal is `Governance.DropKeepsRollExactly`; for a whole run,
  `Governance.RunKeepsRollExactly`.
- A motion is removed after its dispatch, so a dispatch that closes its own motion again runs it twice:
  `Findings.SelfCloseDispatchesTwice`; the exact condition is `Dispatching.DispatchedOnceExactly`. The dispatch is taken as
  given: a proposal cannot encode its own hash, so it would have to reach a stored call that does, and `close` wants root,
  which a dispatched motion gets through `sudo` (line 1135 of `pallets/subtensor/src/macros/dispatches.rs`).
- Saturating cross multiplication makes `cmp_privilege` intransitive on huge counts: `Origins.SaturationBreaksPrivilege`.
  It compares two fractions rightly exactly as `Origins.PrivilegeIsFraction` says, and all fractions of up to n seats
  exactly when n is at most 2^16 (`Origins.PrivilegeIsFractionUpTo`), so a Senate of 12 is safe.
- Replay protection ends when an account's nonce has gone all the way round: it is guaranteed exactly for up to 2^32
  submissions of an account, and a longer chain of fee-free transactions is accepted whole
  (`Nonces.ReplayProtectionExactly`, `Nonces.ChainIsAccepted`).

Where the code and its comments differ, the model follows the code: `propose` never executes directly, whatever the
threshold (comment at lines 514-519); `close` is for root only, not for any signed account (lines 36 and 625); the length
bound of `close` is compared with the plain encoded length, without the 4 extra bytes that lines 638-639 and 921-922
mention (the pallet's own tests hand it the plain length); reaching the threshold does not close a motion by itself
(lines 34-35), a close call does.

## Model

| member | source | states |
|---|---|---|
| Words.MachineArithmetic | pallets/collective/src/lib.rs:793-876 | the saturating operations clamp the true result to 0 .. 2^32 - 1 and the `as u32` cast drops whole multiples of 2^32 |
| Vectors.FindPosition | pallets/collective/src/lib.rs:767-768 | the search loop finds the first position, or none exactly when the account is absent |
| Vectors.SwapRemoveDropsOne | pallets/collective/src/lib.rs:771-790 | `swap_remove` moves the last element into the gap; on a vector without duplicates it drops exactly one element and creates no duplicate |
| Vectors.WithoutOrder | pallets/collective/src/lib.rs:1061-1062 | what `retain` keeps stands in its old order |
| Vectors.RetainOthers | pallets/collective/src/lib.rs:993-995 | the retain loop drops exactly the occurrences of one element |
| Vectors.SortSorts | pallets/collective/src/lib.rs:1057-1058 | sorting gives a sorted permutation |
| Vectors.BinarySearch | pallets/collective/src/lib.rs:1061-1062 | on a sorted list the search finds exactly the members |
| Vectors.RetainNotFound | pallets/collective/src/lib.rs:1057-1064 | retaining what a binary search does not find equals the plain membership filter |
| Motions.HasVotedIsMembership | pallets/collective/src/lib.rs:1025-1028 | the two position searches answer membership in the map of votes |
| Motions.TalliesCountVoters | pallets/collective/src/lib.rs:793-794 | the vector lengths are the numbers of supporters and opponents in the map |
| Motions.CastVoteRefinesMap | pallets/collective/src/lib.rs:767-791 | casting is one update of the map account -> vote; a duplicate is exactly a vote the map already holds; vectors stay duplicate-free and disjoint |
| Motions.CastVoteOrder | pallets/collective/src/lib.rs:773-790 | a vote joins its side at the end, and on the other side the last vote takes the place the account leaves |
| Motions.PurgeRefinesMap | pallets/collective/src/lib.rs:1004-1006 | purging subtracts exactly the given accounts from the map and keeps the vectors well-formed |
| Decisions.EarlyExactlyWhenDecided | pallets/collective/src/lib.rs:824-825 | early approval (disapproval) is allowed exactly when every way the missing seats could vote approves (rejects) |
| Decisions.EarlyExclusive | pallets/collective/src/lib.rs:824-848 | both early tests can hold together exactly when there is an aye and more votes than seats |
| Decisions.EarlyAgreesWithTimed | pallets/collective/src/lib.rs:824-881 | each early verdict is the one the timed computation gives on the same tally for either default vote, saturation included |
| Decisions.TimedPathFollowsDefault | pallets/collective/src/lib.rs:866-881 | the timed path has ayes + nays < seats, fills the tally to exactly the seats on the default's side only, and approves exactly when the default vote is yes |
| Decisions.StrategiesAgreeExactly | pallets/collective/src/lib.rs:99-126 | the two default-vote strategies agree on all timed tallies exactly under a condition on threshold and seats |
| Decisions.StrategiesCoincide | pallets/collective/src/lib.rs:99-126 | a motion whose seats at proposal are at most the seats at close gets the same verdict under both strategies |
| History.ReplayIsLastWord | pallets/collective/src/lib.rs:755-806 | the map of a motion replayed from the log holds each account's last vote that no purge, removal or re-proposal has taken back |
| Invariants.MoveKeeps | pallets/collective/src/lib.rs:697-1070 | every single storage change keeps the stores in agreement, the indices partitioned, the vectors sourced in the log and the log audited |
| Invariants.ClosedAudits | pallets/collective/src/lib.rs:821-913 | the logged verdict is justified by the standing votes, the threshold, the seats and the end block; a timed tally counts the abstentions on the winning side and leaves the other side's votes as cast |
| Runs.Flatten | pallets/collective/src/lib.rs:536-1070 | every call, with everything its dispatch does, is a sequence of legal single storage changes |
| Runs.EveryRunIsSound | pallets/collective/src/lib.rs:697-1070 | over every run from genesis: no duplicate hashes, at most MaxProposals, Proposals = keys of ProposalOf = keys of Voting, and the other parts of the invariant |
| Runs.VectorsHoldLastWords | pallets/collective/src/lib.rs:755-806 | over every run the aye and nay vectors of an open motion hold each account's last word, once |
| Runs.VotingAnswersLastWord | pallets/collective/src/lib.rs:767-806 | DuplicateVote, the first-vote flag and `has_voted` are what the last word says; a vote changes one last word only |
| Runs.StaleReferencesFail | pallets/collective/src/lib.rs:761-765 | once (hash, index) is handed out and not open, no later vote, query or close with it succeeds, even if the hash is proposed again |
| Runs.ClosingErases | pallets/collective/src/lib.rs:959-998 | concluding or disapproving a motion, whatever its dispatch did, erases the hash from all three stores and makes all its indices stale |
| Runs.MotionsAreConserved | pallets/collective/src/lib.rs:724-742 | proposals made = motions open + removals; an index leaves at most once, and exactly when it was handed out and is not open |
| Runs.TimedCloseWaits | pallets/collective/src/lib.rs:866-869 | over every run a timed close comes after all the duration its motion was proposed with, at least MotionDuration, or at the last block there is |
| Runs.VerdictFromLog | pallets/collective/src/lib.rs:821-881 | the whole verdict on an open motion as a function of its last votes: when there is one, whether it approves (prime and majority defaults included), whether it is timed, and both numbers of its tally |
| Runs.PrimeDecidesTimedClose | pallets/collective/src/lib.rs:871-881 | under `PrimeDefaultVote` a timed close approves exactly when the prime's last word is aye |
| Runs.StrategiesCoincideInRuns | pallets/collective/src/lib.rs:99-126 | in every reachable state both strategies close a motion alike while the seats have not shrunk since the proposal |
| Effects.SeatsCountElectorate | runtime/src/lib.rs:568-572 | the seats are the size of the members or of the Senate modulo 2^32, for a Senate exactly |
| Effects.LookupFindsLoggedMotion | pallets/collective/src/lib.rs:761-765 | a lookup finds exactly the motion the log leaves open under the index, and says which of hash and index is wrong |
| Effects.LookupErrorsSurface | pallets/collective/src/lib.rs:1014-1023 | a vote and a query fail as their lookup does |
| Effects.ProposeAcceptedExactly | pallets/collective/src/lib.rs:543-730 | a proposal is accepted, or refused for the first reason in the code's order, without a trace |
| Effects.ProposeOpensMotion | pallets/collective/src/lib.rs:716-742 | an accepted proposal is stored as given and opens a motion with the next index, threshold seats/2 + 1 and no votes; no other motion and nothing of the governance changes |
| Effects.VoteTakenExactly | pallets/collective/src/lib.rs:579-597 | a vote is refused for the first reason in the code's order, without a trace, or taken with the first-vote flag the last word gives |
| Effects.VoteSetsOneEntry | pallets/collective/src/lib.rs:773-803 | a vote that is taken sets one entry of one ballot and changes nothing else |
| Effects.CloseConcludesExactly | pallets/collective/src/lib.rs:809-943 | a close fails for the first reason in the code's order, the bounds being those of the proposal as it was proposed and checked only if the motion passes; otherwise it concludes with the verdict |
| Effects.CloseRemovesOneMotion | pallets/collective/src/lib.rs:959-998 | a concluded close announces verdict and origin, and removes its motion alone from the state its dispatch leaves |
| Effects.PlainCloseTouchesOneMotion | pallets/collective/src/lib.rs:849-913 | a close that is not approved, or whose dispatch fails, changes no other motion and nothing of the governance |
| Effects.DisapprovalTouchesOneMotion | pallets/collective/src/lib.rs:614-621 | `disapprove_proposal` always succeeds, closes the one motion and changes no other and nothing of the governance |
| Effects.ChangeMembersEffect | pallets/collective/src/lib.rs:1043-1070 | stores the list, resets the prime, purges the outgoing accounts in order, and no more |
| Effects.SetMembersEffect | pallets/collective/src/lib.rs:451-454 | stores the list sorted, sets the prime, purges the accounts its diff names, and no more |
| Effects.SetPrimeEffect | pallets/collective/src/lib.rs:1072-1074 | sets the prime and nothing else |
| Effects.SenateCallsEffect | runtime/src/lib.rs:536-544 | who may join and leave the Senate, with which error otherwise, whose votes go, and that nothing else changes |
| Effects.SwapExchangesSenators | runtime/src/lib.rs:546-552 | a swap succeeds exactly for a senator and a newcomer (or itself), with which error otherwise; the leaver's votes are gone, all else stands; a refused swap purges nothing |
| Collective.RunInParts | pallets/collective/src/lib.rs:967-968 | a run of two lists of calls is the second run after the first |
| Collective.RunOne | pallets/collective/src/lib.rs:967-968 | a run of one call is the call |
| Dispatching.DispatchedOnceExactly | pallets/collective/src/lib.rs:959-979 | over every run each index is dispatched at most once exactly when no motion is approved again during its own dispatch |
| Dispatching.AvoidingRunsDoNotReenter | pallets/collective/src/lib.rs:959-979 | calls whose dispatches never close their own hash again satisfy that condition in any state |
| Governance.RemoveVotesIsExact | pallets/collective/src/lib.rs:1000-1012 | `remove_votes` clears the account everywhere exactly when its motions are listed in Proposals, and touches no other vote |
| Governance.MemberChangePurges | pallets/collective/src/lib.rs:1057-1069 | a member change erases exactly the outgoing votes in every open motion, keeps order, index, threshold and end, stores the list and resets the prime |
| Governance.SetMembersReplaces | pallets/collective/src/lib.rs:426-462 | `set_members` stores the new list sorted, sets the prime and erases exactly the votes of the accounts the diff against the old list names |
| Governance.SetMembersKeepsMembersVotes | pallets/collective/src/lib.rs:453-455 | when the diff is old minus new, an old member's votes stay exactly if the member does |
| Governance.MemberChangeKeepsRoll | pallets/collective/src/lib.rs:1043-1069 | voters stay members through a change exactly when the outgoing list covers every dropped voter |
| Governance.DropKeepsRollExactly | runtime/src/lib.rs:541-544 | removing a senator without purging keeps all voters senators exactly when the senator has no open vote |
| Governance.RunKeepsRollExactly | runtime/src/lib.rs:534-594 | all voters stay on the roll through every state of a run, inside dispatches too, exactly when every member change names the voters it drops and no senator with an open vote is dropped without a purge |
| Governance.SenateCallKeepsRoll | runtime/src/lib.rs:536-552 | adding, swapping and retiring senators keep all voters on the roll |
| Governance.VotesFitSeats | pallets/collective/src/tests.rs:115-154 | over every such run, in the member and the Senate configuration, ayes + nays fit the seats, the u32 tallies are exact and the early tests exclude each other |
| Governance.DispatchedWithMajority | pallets/collective/src/lib.rs:551-554 | over every run a motion is dispatched with at least its threshold of ayes, and passes the Senate's majority gate if the seats have not grown since the proposal and are below 2^32 - 1 |
| Governance.ApprovalsAreMajoritiesExactly | pallets/collective/src/lib.rs:821-881 | closing approves only with a strict majority, whatever the votes, strategy and prime, exactly when the seats are below twice the threshold and below 2^32 - 1 |
| Findings.DirectRemovalLeavesVote | runtime/src/lib.rs:634-645 | a run after which a standing vote belongs to no senator |
| Findings.GrownSenateDispatchesWithoutMajority | pallets/collective/src/lib.rs:821-844 | a run that dispatches with an origin the majority gate rejects |
| Findings.SelfCloseDispatchesTwice | pallets/collective/src/lib.rs:967-977 | a run, with a dispatch that closes its own motion taken as given, that dispatches one motion twice |
| Pallet.CollectivePallet.constructor | pallets/collective/src/lib.rs:1082-1090 | genesis: the given members, no prime, nothing proposed |
| Pallet.CollectivePallet.ProposeMotion | pallets/collective/src/lib.rs:537-560 | proposer, duration and the remaining checks in order, threshold seats/2 + 1; a refusal leaves at most the pushed hash |
| Pallet.CollectivePallet.DoProposeProposed | pallets/collective/src/lib.rs:697-751 | opens the motion or reports the first failed check; the hash stays pushed exactly when the counter refuses |
| Pallet.CollectivePallet.VoteOn | pallets/collective/src/lib.rs:755-806 | the in-place vote equals the vote function, first-vote flag included |
| Pallet.CollectivePallet.Poll | runtime/src/lib.rs:585-592 | a vote with its outcome: refused without change, or taken with the first-vote flag |
| Pallet.CollectivePallet.HasVotedOn | pallets/collective/src/lib.rs:1014-1029 | the query equals the query function |
| Pallet.CollectivePallet.EraseProposal | pallets/collective/src/lib.rs:989-998 | the removal in place equals the removal function |
| Pallet.CollectivePallet.DropVotes | pallets/collective/src/lib.rs:1000-1012 | the loop over Proposals equals the purge of one account |
| Pallet.CollectivePallet.ReplaceMembers | pallets/collective/src/lib.rs:1043-1070 | the sort, binary searches and loop equal the plain purge of the outgoing accounts |
| Pallet.CollectivePallet.SwapMember | runtime/src/lib.rs:546-552 | purges, then exchanges; a refusal leaves the purge done, for the caller's roll-back |
| Pallet.CollectivePallet.DoClose | pallets/collective/src/lib.rs:809-917 | the close in place, dispatch included, equals the close function |
| Pallet.CollectivePallet.DoApproveProposal | pallets/collective/src/lib.rs:959-979 | announces, dispatches in a storage layer of its own, then removes the motion |
| Pallet.CollectivePallet.Execute | pallets/collective/src/lib.rs:536-674 | one call in its storage layer equals the call function, roll-back included |
| Pallet.CollectivePallet.RunCalls | pallets/collective/src/lib.rs:536-674 | a list of calls equals the run function |
| Origins.GatesAdmitExactly | pallets/collective/src/lib.rs:1154-1197 | over every origin: both proportion gates admit voting origins only, and exactly those whose products compare so, saturation included |
| Origins.MajorityGateExact | runtime/src/lib.rs:595-596 | over every origin: the majority gate admits exactly voting origins with twice the ayes above the seats and the seats below 2^32 - 1 |
| Origins.ThresholdGuaranteesGate | runtime/src/lib.rs:595-596 | every count from the threshold up passes the gate exactly when the seats are below twice the threshold and below 2^32 - 1 |
| Origins.PrivilegeComparesExactly | runtime/src/lib.rs:873-899 | the whole comparison: equal origins are equal, root outranks the others, voting origins compare by their cross products clamped at 2^32 - 1, nothing else compares, and it reverses with its operands |
| Origins.PrivilegeIsFraction | runtime/src/lib.rs:873-896 | for positive counts `cmp_privilege` compares the fractions of ayes exactly when saturation keeps the order of the cross products |
| Origins.PrivilegeIsTotalPreorder | runtime/src/lib.rs:873-896 | there it is reflexive, total and transitive |
| Origins.SaturationBreaksPrivilege | runtime/src/lib.rs:891-895 | three tallies, beyond any Senate, on which saturation makes it intransitive |
| Origins.PrivilegeIsFractionUpTo | runtime/src/lib.rs:873-896 | it compares the fractions of all tallies of up to n seats exactly when n is at most 2^16 |
| Origins.StrictGateIsFraction | pallets/collective/src/lib.rs:1154-1172 | the strict gate compares the fraction of ayes with N/D, with the exact exception saturation makes |
| Origins.WeakGateIsFraction | pallets/collective/src/lib.rs:1179-1197 | the at-least gate does too, with its own exact exception |
| Origins.StrictGateIsMonotone | pallets/collective/src/lib.rs:1154-1172 | an origin of at least the privilege of an admitted one is admitted exactly when N times its count stays below 2^32 - 1 |
| Origins.WeakGateIsMonotone | pallets/collective/src/lib.rs:1179-1197 | an origin of at least the privilege of a rightly admitted one is admitted, saturated or not |
| BalanceConverter.ConvertsExactly | runtime/src/lib.rs:1305-1353 | which amounts convert either way, and to what |
| BalanceConverter.SubstrateRoundTrip | runtime/src/lib.rs:1305-1353 | a Substrate amount survives the round trip exactly when it fits in 64 bits |
| BalanceConverter.EvmRoundTrip | runtime/src/lib.rs:1305-1353 | an EVM amount that converts comes back less than 10^9 lower, never higher |
| BalanceConverter.SplittingLosesAtMost | runtime/src/lib.rs:1330-1353 | k parts of a convertible total all convert, and together fall at most k - 1 units short of it |
| Nonces.ValidateExactly | runtime/src/check_nonce.rs:105-139 | the pool takes exactly unsigned and paid, not yet used transactions, with which error otherwise; the tags and the nonce it hands on |
| Nonces.PrepareExactly | runtime/src/check_nonce.rs:150-161 | refuses exactly a nonce above the one handed on, as Future; otherwise stores the next nonce and changes nothing else of any account |
| Nonces.SubmitExactly | runtime/src/check_nonce.rs:105-161 | a signed transaction goes through exactly at the current nonce and with its entry paid for, with which error otherwise; an unsigned one changes nothing |
| Nonces.UnknownAccountsStartAtZero | runtime/src/check_nonce.rs:108-115 | an account without an entry starts at nonce 0 and can pay for nothing |
| Nonces.ProcessAcceptsExactly | runtime/src/check_nonce.rs:105-161 | a block accepts each transaction exactly if it goes through where it stands, and skips the others without a trace |
| Nonces.AcceptedNoncesCountUp | runtime/src/check_nonce.rs:116-160 | whatever is submitted, an account's accepted nonces count up gap-free from its initial nonce (modulo 2^32) and nothing else of any account changes |
| Nonces.ReplayProtectionExactly | runtime/src/check_nonce.rs:116-160 | that no (account, nonce) is ever accepted twice is guaranteed exactly for up to 2^32 submissions of the account |
| Nonces.ChainIsAccepted | runtime/src/check_nonce.rs:150-161 | a chain of any length of fee-free transactions, each at the nonce the one before leaves, is accepted whole |
| Nonces.PoolOrderIsConsecutive | runtime/src/check_nonce.rs:120-133 | distinct provided tags and required tags provided earlier force consecutive nonces per account through any interleaving |
| Nonces.PoolOrderIsBlockOrder | runtime/src/check_nonce.rs:105-161 | among pool-valid transactions, the pool's tag order is exactly the order in which all pass `validate` and `prepare` without wrap-around |
| Nonces.System.ValidateTx | runtime/src/check_nonce.rs:105-139 | the stepwise check equals the function |
| Nonces.System.PrepareTx | runtime/src/check_nonce.rs:150-161 | the nonce bump in place equals the function; a rejection changes nothing |
| Nonces.System.ApplyBlock | runtime/src/check_nonce.rs:95-161 | a block applies in order and keeps exactly the accepted transactions |

## Left out

- Proposal contents, hashing and SCALE encoding: a proposal is its hash, encoded length and weight; tags are pairs; no lemma needs an injective hash.
- What a dispatch does outside the pallet and the Senate's membership: a dispatch is any list of the modelled calls plus success or failure. `Advance` may occur inside a dispatch too, so the theorems cover more runs than the chain has.
- Origin checks of `close`, `disapprove_proposal` and `set_members` (root or a configured origin): a call they refuse changes nothing; likewise the coldkey ownership check of `do_vote_root`.
- `execute`: dispatches a member's call without touching the pallet's storage.
- FRAME's member diff and `pallet_membership`: not part of this repository. The diff that `set_members` acts on is a parameter of the call, with no assumption on it (FRAME's merge gives old minus new for sorted lists without duplicates); the Senate is a set of accounts with a maximum size.
- Weights returned to the caller, fees (`Pays`), logging and the `MaxMembers` warning.
- `RawOrigin` checks by enumeration (`EnsureMember`, `EnsureMembers`, `ensure_members`), proxy filters and call filters: finite tables and single comparisons.
- `post_dispatch_details` of `CheckNonce`: only refunds weight.
- `admin-utils`, staking, swap, epoch, drand, crowdloan, commitments, precompiles, the node and the subnets: outside the governance core.
- Findings.SelfCloseDispatchesTwice: whether a real proposal can reach a close of its own hash with root origin is not modelled.
