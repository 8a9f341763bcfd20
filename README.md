# Quadratic-voting governance contract

This project models `VotingContractMock`, the governance contract behind a charity-funding system's quadratic voting.

- **Create:** anyone may create a spending proposal for a charity. It opens for voting at the next block and stays open through `duration` further blocks: created at block `now`, it accepts votes at blocks `now + 1` through `now + 1 + duration` inclusive.
- **Vote:** each identity may vote once per proposal while the proposal is open. The stake must be a perfect square, at least the configured minimum. The vote weighs the square root of the stake.
- **Execute:** once the window has closed, a proposal whose summed weight reaches the voting threshold can be executed, exactly once.
- **Configure:** five configuration fields can be changed, only by the treasury identity: the threshold, the minimum stake and three identities.

The model has four layers:

- **`Quadratic`:** the integer square root that gives a vote its weight, with the proof that the root-squared-equals-stake check accepts exactly the perfect squares.
- **`Governance`:** the contract's state record as a value, with one pure transition function per operation. Each returns an `Outcome` (the `{ ok, value }` result and the next state). The block height and the caller are explicit parameters. It also defines the invariant `Inv`:
  - the proposal ids are exactly `0 .. nextProposalId - 1`;
  - every status flag is the negation of `executed`;
  - every vote has a positive weight whose square is its stake;
  - the voter lists are free of duplicates and list exactly the vote keys;
  - every `totalVotes` is the sum of the weights of that proposal's votes.
- **`GovernanceProofs`:** properties of the state machine:
  - every operation keeps `Inv`;
  - the errors come in the contract's order;
  - a second vote and a second execution always fail;
  - over any history of calls from `reset`, the invariant holds and nothing already recorded is lost.
- **`VotingMock`:** the contract object as a class.
  - Its fields are the contract's state record plus the ambient `blockHeight` and `caller`.
  - Proposals are `ProposalRecord` objects stored in a map. A vote and an execution update the stored object through its reference, as the contract does.
  - A ghost field `model` holds the abstract state; `Valid()` ties the fields and the stored objects to it.
  - Every method is proved to return what the matching `Governance` transition returns, and to move `model` exactly as that transition does.
  - The three lifecycle methods (`CreateProposal`, `VoteOnProposal`, `ExecuteProposal`) are each split into a checking method (`Try…`) and a committing method (`AddRecord`, `RecordVote`, `RecordExecution`) so that each proof stays small.

Module `VoteKeys` justifies keying votes by the pair `(proposalId, voter)` instead of the contract's string `"<id>-<voter>"`. For a stored, non-negative id, that string determines both the id and the voter.

Module `Scenarios` replays the test cases of `tests/Voting.test.ts` on the class. Each method creates a fresh contract, makes the same calls at the same block heights, and states the expected outcomes as its postcondition. These are proved by the verifier, not executed.

Notes:

- **Caller and block height:** the tests assign `blockHeight` and `caller` directly. The class offers `SetBlockHeight` and `SetCaller` for this; they change that one field and nothing else.
- **Threshold error:** when the threshold is not met, `executeProposal` returns `ERR_INVALID_THRESHOLD` (116). The model uses that error.
- **`ERR_VOTING_CLOSED`:** `executeProposal` reports this error at every height up to and including `endTime`: before the window opens, while it is open, and exactly at its end. The model keeps both the name and this behaviour.

## Model

| member | source | states |
|---|---|---|
| Quadratic.ISqrt | tests/Voting.test.ts:186 | the weight of an amount n is the largest r with r * r <= n, so r * r <= n < (r + 1) * (r + 1) |
| Quadratic.RootOfSquare | tests/Voting.test.ts:186-187 | the weight of a stake k * k is exactly k |
| Quadratic.RootCheckIffSquare | tests/Voting.test.ts:186-187 | the check root * root == amount holds exactly when the amount is a perfect square |
| Quadratic.SquareMonotone | tests/Voting.test.ts:186 | for non-negative numbers, comparing squares compares the numbers |
| VoteKeys.DecimalInjective | tests/Voting.test.ts:107 | distinct natural numbers have distinct decimal forms |
| VoteKeys.SignedKey | tests/Voting.test.ts:107 | a vote key starts with '-' exactly when its proposal id is negative |
| VoteKeys.FirstDashAfterDigits | tests/Voting.test.ts:107 | in a key built from a decimal id, the first '-' is the separator just after the id |
| VoteKeys.Decimal | tests/Voting.test.ts:107 | the decimal form of a proposal id, as the key template writes it: at least one character, all digits |
| VoteKeys.IdString | tests/Voting.test.ts:107 | the id as the key template writes it: non-empty, starting with '-' exactly for a negative id, and all digits for a non-negative one |
| VoteKeys.VoteKey | tests/Voting.test.ts:107 | the key `${proposalId}-${voter}`: the id's form, then '-', then the voter. For a non-negative id its first '-' is that separator, so the key splits back into id and voter |
| VoteKeys.VoteKeyInjective | tests/Voting.test.ts:107 | the key of a non-negative id and a voter equals the key of (id', voter') only if id' == id and voter' == voter, even for a negative id' |
| Governance.Code | tests/Voting.test.ts:4-28 | every error kind some path returns maps to its numeric code, all within 100..124 |
| Governance.CodesDistinct | tests/Voting.test.ts:4-28 | two error kinds share a code exactly when they are the same kind |
| Governance.Init | tests/Voting.test.ts:84-100 | the reset state satisfies the invariant, has no proposals or votes and a zero counter, and only the default treasury identity is authorised (the default caller is not) |
| Governance.SetVotingThreshold | tests/Voting.test.ts:126-131 | NotAuthorized unless the caller is the treasury, then InvalidThreshold outside (0, 100]. It succeeds exactly when both hold, and then replaces only the threshold. On error the state is unchanged |
| Governance.SetMinVoteAmount | tests/Voting.test.ts:133-138 | NotAuthorized unless the caller is the treasury, then InvalidVoteAmount for a value <= 0. It succeeds exactly when both hold, and then replaces only the minimum. On error the state is unchanged |
| Governance.SetStakingContract | tests/Voting.test.ts:140-144 | succeeds exactly for the treasury caller and replaces only the staking identity; otherwise NotAuthorized with the state unchanged |
| Governance.SetTreasuryContract | tests/Voting.test.ts:146-150 | succeeds exactly for the current treasury caller and replaces only the treasury identity. Afterwards exactly the new identity is authorised. Otherwise NotAuthorized with the state unchanged |
| Governance.SetCharityRegistryContract | tests/Voting.test.ts:152-156 | succeeds exactly for the treasury caller and replaces only the registry identity; otherwise NotAuthorized with the state unchanged |
| Governance.CreateProposal | tests/Voting.test.ts:158-177 | MaxProposalsExceeded, then InvalidDuration, then InvalidAmount, in that order, each leaving the state unchanged. On success the id is the old counter. The new state is the old one with exactly three changes: the proposal stored under that id (start now + 1, end now + 1 + duration, no votes, not executed, the caller as proposer), its status true, and the counter one higher |
| Governance.VoteOnProposal | tests/Voting.test.ts:179-194 | a missing proposal gives ProposalNotFound, and every error leaves the state unchanged. Success requires an open window, no earlier vote by the caller, an amount at least the minimum and positive, and a perfect square. The new state is then the old one with exactly three changes: weight w with w * w == amount recorded under (id, caller), exactly w added to the proposal's total, and the caller appended to its voter list |
| Governance.ExecuteProposal | tests/Voting.test.ts:196-205 | ProposalNotFound, then VotingClosed while now <= endTime, and every error leaves the state unchanged. Success requires a closed window, not executed and the threshold reached. The new state is then the old one with exactly two changes: the proposal marked executed and its status false |
| GovernanceProofs.TallyAppend | tests/Voting.test.ts:189-192 | appending a voter adds that voter's recorded weight to the tally |
| GovernanceProofs.TallyFrame | tests/Voting.test.ts:188-189 | a tally depends only on the weights of the voters it lists |
| GovernanceProofs.TallyNonNegative | tests/Voting.test.ts:189 | with positive recorded weights, every tally is non-negative |
| GovernanceProofs.TotalVotesNonNegative | tests/Voting.test.ts:189 | in a valid state no proposal has a negative total |
| GovernanceProofs.KeysCount | tests/Voting.test.ts:223-225 | a map whose keys are exactly 0 .. n - 1 has n entries |
| GovernanceProofs.ProposalCountIsSize | tests/Voting.test.ts:223-225 | in a valid state the counter equals the number of stored proposals |
| GovernanceProofs.CreatePreservesInv | tests/Voting.test.ts:158-177 | createProposal keeps the invariant |
| GovernanceProofs.AddProposalPreservesInv | tests/Voting.test.ts:164-175 | storing a positive, unexecuted, vote-free proposal under the next id, with status true and the counter advanced, keeps the invariant |
| GovernanceProofs.MarkExecutedPreservesInv | tests/Voting.test.ts:202-203 | marking a proposal executed, with status false, keeps the invariant |
| GovernanceProofs.RecordVotePreservesInv | tests/Voting.test.ts:188-192 | recording a first vote with positive weight squaring to the stake keeps the invariant, including totals equal to the sum of weights and voter lists matching vote keys |
| GovernanceProofs.RecordVoteKeepsRecords | tests/Voting.test.ts:188-189 | recording such a vote keeps the configuration, key, status and well-formedness parts of the invariant |
| GovernanceProofs.RecordVoteKeepsTallies | tests/Voting.test.ts:188-189 | recording a first vote keeps every total equal to the sum of its voters' weights |
| GovernanceProofs.RecordVoteKeepsVoterLists | tests/Voting.test.ts:190-192 | recording a first vote keeps the voter lists duplicate-free and in agreement with the vote keys |
| GovernanceProofs.VotePreservesInv | tests/Voting.test.ts:179-194 | voteOnProposal keeps the invariant |
| GovernanceProofs.AcceptedVoteIsRecorded | tests/Voting.test.ts:184-192 | an accepted vote is the caller's first, has a positive weight squaring to the stake, and its effect is exactly that vote recorded |
| GovernanceProofs.VoteAccepted | tests/Voting.test.ts:180-193 | a vote passing every check returns true, and its new state is exactly the state with the vote recorded |
| GovernanceProofs.SameLedgerPreservesInv | tests/Voting.test.ts:126-156 | a change confined to a still-valid configuration keeps the invariant |
| GovernanceProofs.ExecutePreservesInv | tests/Voting.test.ts:196-205 | executeProposal keeps the invariant |
| GovernanceProofs.SettersPreserveInv | tests/Voting.test.ts:126-156 | each of the five setters keeps the invariant |
| GovernanceProofs.CreateWindow | tests/Voting.test.ts:158-163 | creation succeeds exactly when the cap, duration and amount allow it. The new proposal is scheduled at every height up to the creating block now, active exactly at heights now + 1 through now + 1 + duration, and closed at every height after |
| GovernanceProofs.VoteErrorOrder | tests/Voting.test.ts:180-187 | in a valid state, each vote error happens exactly when the earlier checks pass and its own check fails, and success exactly when all pass. InvalidProposalId never happens |
| GovernanceProofs.SquareVoteRecordsRoot | tests/Voting.test.ts:186-192 | a first in-window stake n * n (n > 0, at least the minimum) succeeds. It records weight n, raises the total by n and lists the caller |
| GovernanceProofs.SecondVoteRejected | tests/Voting.test.ts:184 | after a successful vote, the same caller's next vote on that proposal fails whatever the amount and height, leaving the state unchanged (so the total too). It fails with AlreadyVoted while the window is open |
| GovernanceProofs.ExecuteErrorOrder | tests/Voting.test.ts:197-201 | in a valid state, each execution error happens exactly when the earlier checks pass and its own fails, and success exactly when the window is closed and the threshold is reached |
| GovernanceProofs.ExecuteOnce | tests/Voting.test.ts:200-202 | after a successful execution a second attempt fails at any height and changes nothing, with ProposalAlreadyExecuted once the window has closed |
| GovernanceProofs.TreasuryHandOver | tests/Voting.test.ts:146-150 | after the treasury hands over, a threshold or minimum change is refused as NotAuthorized exactly for callers other than the new treasury |
| GovernanceProofs.ApplyConfig | tests/Voting.test.ts:126-156 | a setter call touches only the configuration fields and keeps a valid configuration valid |
| GovernanceProofs.ApplyPreservesInv | tests/Voting.test.ts:126-205 | any single call keeps the invariant |
| GovernanceProofs.LifecyclePreservesInv | tests/Voting.test.ts:158-205 | any create, vote or execute call keeps the invariant |
| GovernanceProofs.ApplyExtends | tests/Voting.test.ts:126-205 | any single call keeps every proposal, its window and its executed flag once set, and every recorded vote |
| GovernanceProofs.LifecycleExtends | tests/Voting.test.ts:158-205 | create, vote and execute never remove a proposal, a vote or an execution |
| GovernanceProofs.CreateExtends | tests/Voting.test.ts:158-177 | creation loses nothing: every proposal keeps its window and executed flag, and every vote stays recorded |
| GovernanceProofs.VoteExtends | tests/Voting.test.ts:179-194 | a vote keeps every proposal's window and flag and every earlier vote |
| GovernanceProofs.ExecuteExtends | tests/Voting.test.ts:196-205 | execution loses nothing: every proposal keeps its window, an executed flag never reverts, and every vote stays recorded |
| GovernanceProofs.SameLedgerExtends | tests/Voting.test.ts:126-156 | a configuration change loses nothing |
| GovernanceProofs.ExtendsTransitive | tests/Voting.test.ts:158-205 | losing nothing composes over consecutive calls |
| GovernanceProofs.RunPreservesInv | tests/Voting.test.ts:126-205 | any sequence of calls from a valid state keeps the invariant and loses nothing |
| GovernanceProofs.Reachable | tests/Voting.test.ts:84-100 | every state reachable from reset by any calls satisfies the invariant |
| GovernanceProofs.NoDoubleVote | tests/Voting.test.ts:184 | once a caller has voted on a proposal, no later vote of theirs on it succeeds, whatever calls come in between |
| GovernanceProofs.NoDoubleExecution | tests/Voting.test.ts:200 | once a proposal is executed, no later execution of it succeeds, whatever calls come in between |
| VotingMock.ProposalRecord.constructor | tests/Voting.test.ts:165-173 | a new stored proposal holds the given contents with no votes and not executed |
| VotingMock.ProposalRecord.AddVotes | tests/Voting.test.ts:189 | the stored total grows by the weight in place, and executed is untouched |
| VotingMock.VotingContractMock.constructor | tests/Voting.test.ts:80-82 | a new contract is valid, in the reset state, at block 0 with the default caller |
| VotingMock.VotingContractMock.Reset | tests/Voting.test.ts:84-100 | installs the reset state, block height 0 and the default caller, and the object is valid |
| VotingMock.VotingContractMock.SetBlockHeight | tests/Voting.test.ts:77 | moves the block height only; the contract state is unchanged and stays valid |
| VotingMock.VotingContractMock.SetCaller | tests/Voting.test.ts:78 | changes the caller only; the contract state is unchanged and stays valid |
| VotingMock.VotingContractMock.GetProposal | tests/Voting.test.ts:102-104 | present exactly for ids 0 .. nextProposalId - 1, as the stored contents, with a positive amount and start before end |
| VotingMock.VotingContractMock.GetVote | tests/Voting.test.ts:106-108 | present exactly for voters listed on an existing proposal, and then the vote stored under (proposalId, voter), with a positive weight squaring to the stake |
| VotingMock.VotingContractMock.GetProposalVoters | tests/Voting.test.ts:110-112 | absent only when nobody voted. When present it is the stored voter list of the proposal, in voting order. It belongs to an existing proposal, is non-empty and duplicate-free, and lists exactly the voters with a vote recorded |
| VotingMock.VotingContractMock.GetProposalStatus | tests/Voting.test.ts:114-116 | present exactly for existing proposals, and true exactly when not executed |
| VotingMock.VotingContractMock.GetNextProposalId | tests/Voting.test.ts:118-120 | the number of proposals created so far, within 0 .. maxProposals |
| VotingMock.VotingContractMock.GetVotingThreshold | tests/Voting.test.ts:122-124 | the stored threshold, which always lies in (0, 100] |
| VotingMock.VotingContractMock.GetTotalVotes | tests/Voting.test.ts:207-209 | for an existing proposal, the sum of its voters' weights; otherwise 0; never negative |
| VotingMock.VotingContractMock.HasVoted | tests/Voting.test.ts:211-213 | true exactly when the voter is listed on an existing proposal |
| VotingMock.VotingContractMock.GetQuadraticWeight | tests/Voting.test.ts:215-217 | positive exactly when the voter has voted, with its square the stake; otherwise 0 |
| VotingMock.VotingContractMock.IsProposalActive | tests/Voting.test.ts:219-221 | true exactly when the proposal exists and has not been executed, whatever the block height; false for a missing one |
| VotingMock.VotingContractMock.GetProposalCount | tests/Voting.test.ts:223-225 | the number of stored proposals, equal to the number of status flags |
| VotingMock.VotingContractMock.SetVotingThreshold | tests/Voting.test.ts:126-131 | returns and changes the state exactly as Governance.SetVotingThreshold; the object stays valid, and the caller, height and proposal objects are untouched |
| VotingMock.VotingContractMock.SetMinVoteAmount | tests/Voting.test.ts:133-138 | returns and changes the state exactly as Governance.SetMinVoteAmount, and the object stays valid |
| VotingMock.VotingContractMock.SetStakingContract | tests/Voting.test.ts:140-144 | returns and changes the state exactly as Governance.SetStakingContract, and the object stays valid |
| VotingMock.VotingContractMock.SetTreasuryContract | tests/Voting.test.ts:146-150 | returns and changes the state exactly as Governance.SetTreasuryContract, and the object stays valid |
| VotingMock.VotingContractMock.SetCharityRegistryContract | tests/Voting.test.ts:152-156 | returns and changes the state exactly as Governance.SetCharityRegistryContract, and the object stays valid |
| VotingMock.VotingContractMock.CreateProposal | tests/Voting.test.ts:158-177 | returns and changes the state exactly as Governance.CreateProposal at the current height and caller, and the object stays valid. On success one fresh record is added under the new id; on error the record map is unchanged |
| VotingMock.VotingContractMock.TryCreate | tests/Voting.test.ts:159-176 | the checks and the commit of createProposal, following Governance.CreateProposal |
| VotingMock.VotingContractMock.AddRecord | tests/Voting.test.ts:164-175 | stores the record under the next id, sets its status true and advances the counter, with the abstract state moved accordingly |
| VotingMock.VotingContractMock.VoteOnProposal | tests/Voting.test.ts:179-194 | returns and changes the state exactly as Governance.VoteOnProposal at the current height and caller; the object stays valid and the record map is unchanged |
| VotingMock.VotingContractMock.TryVote | tests/Voting.test.ts:180-193 | the checks and the commit of voteOnProposal, following Governance.VoteOnProposal; the invalid-id branch is proved unreachable |
| VotingMock.VotingContractMock.RecordVote | tests/Voting.test.ts:188-192 | stores the vote, adds its weight to the stored record in place and appends the caller to the voter list, as GovernanceProofs.RecordsVote describes |
| VotingMock.VotingContractMock.ExecuteProposal | tests/Voting.test.ts:196-205 | returns and changes the state exactly as Governance.ExecuteProposal at the current height; the object stays valid and the record map is unchanged |
| VotingMock.VotingContractMock.TryExecute | tests/Voting.test.ts:197-204 | the checks and the commit of executeProposal, following Governance.ExecuteProposal |
| VotingMock.VotingContractMock.RecordExecution | tests/Voting.test.ts:202-203 | marks the stored record executed in place and its status false, with the abstract state moved accordingly |
| Scenarios.CreateFirst | tests/Voting.test.ts:236-249 | creating (1, 1000, 10) at block 0 after reset yields id 0 and the one-proposal state |
| Scenarios.VoteFirst | tests/Voting.test.ts:263-275 | a first vote of k * k on proposal 0 at block 1 succeeds with weight k |
| Scenarios.ExecuteVoted | tests/Voting.test.ts:316-327 | at block 12 a proposal whose weight reaches the default threshold is executed |
| Scenarios.ExecuteAgain | tests/Voting.test.ts:337-346 | executing an executed proposal fails with ProposalAlreadyExecuted and changes nothing |
| Scenarios.ExecuteBelowThreshold | tests/Voting.test.ts:348-356 | a weight below the default threshold fails with InvalidThreshold and changes nothing |
| Scenarios.NotASquare | tests/Voting.test.ts:380-386 | the root of 101 is 10, so 101 is not a square |
| Scenarios.Fresh | tests/Voting.test.ts:231-234 | the per-test set-up gives a valid contract in the reset state |
| Scenarios.WithProposal | tests/Voting.test.ts:264 | after creating (1, 1000, 10) the contract holds exactly proposal 0 |
| Scenarios.WithVote | tests/Voting.test.ts:264-266 | after a vote of k * k at block 1 the contract holds that vote |
| Scenarios.CreatesProposal | tests/Voting.test.ts:236-249 | creation yields id 0; the proposal is (1, 1000, start 1, end 11, 0 votes, not executed, ST1TEST), with status true |
| Scenarios.RejectsInvalidDuration | tests/Voting.test.ts:251-255 | a zero duration fails with InvalidDuration |
| Scenarios.RejectsInvalidAmount | tests/Voting.test.ts:257-261 | a zero amount fails with InvalidAmount |
| Scenarios.VotesSuccessfully | tests/Voting.test.ts:263-275 | a vote of 100 at block 1 succeeds, is recorded as (100, 10), gives a total of 10 and lists ST1TEST |
| Scenarios.RejectsVoteOnMissingProposal | tests/Voting.test.ts:277-281 | a vote on proposal 99 fails with ProposalNotFound |
| Scenarios.RejectsSecondVote | tests/Voting.test.ts:283-290 | a second vote of 200 fails with AlreadyVoted |
| Scenarios.RejectsZeroVote | tests/Voting.test.ts:292-298 | a vote of 0 fails with InvalidVoteAmount |
| Scenarios.RejectsVoteBeforeStart | tests/Voting.test.ts:300-306 | a vote at block 0 fails with ProposalInactive |
| Scenarios.RejectsVoteAfterEnd | tests/Voting.test.ts:308-314 | a vote at block 12 fails with ProposalInactive |
| Scenarios.ExecutesProposal | tests/Voting.test.ts:316-327 | after a vote of 2500, execution at block 12 succeeds; the proposal is executed with total 50 and its status is false |
| Scenarios.RejectsExecutionWhileOpen | tests/Voting.test.ts:329-335 | execution at block 10 fails with VotingClosed |
| Scenarios.RejectsSecondExecution | tests/Voting.test.ts:337-346 | the first execution succeeds and the second fails with ProposalAlreadyExecuted |
| Scenarios.RejectsExecutionBelowThreshold | tests/Voting.test.ts:348-356 | with a single vote of 100, execution fails with InvalidThreshold |
| Scenarios.SetsVotingThreshold | tests/Voting.test.ts:358-364 | the treasury sets the threshold to 60, and the getter reads back 60 |
| Scenarios.RejectsUnauthorizedThreshold | tests/Voting.test.ts:366-370 | the default caller may not set the threshold |
| Scenarios.SetsMinVoteAmount | tests/Voting.test.ts:372-378 | the treasury sets the minimum to 10 |
| Scenarios.RejectsNonSquareVote | tests/Voting.test.ts:380-386 | a vote of 101 fails with CalculationError |
| Scenarios.GetsTotalVotes | tests/Voting.test.ts:388-393 | after a vote of 100 the total is 10 |
| Scenarios.ChecksHasVoted | tests/Voting.test.ts:395-401 | ST1TEST has voted and ST2OTHER has not |
| Scenarios.ChecksQuadraticWeight | tests/Voting.test.ts:403-409 | ST1TEST's weight is 10 and ST2OTHER's is 0 |
| Scenarios.CountsProposals | tests/Voting.test.ts:411-415 | two creations give a count of 2 |

## Left out

- Floating-point square root: the contract takes `Math.floor(Math.sqrt(amount))`. The model uses the exact integer square root, which the floating-point form agrees with only as long as the amounts are exactly representable.
- JavaScript number semantics: every number is an unbounded integer. Fractional, NaN, infinite and imprecise (above 2^53) ids, amounts, durations, heights and thresholds are not modelled.
- Scenario error codes: the scenarios state the error kinds the tests expect. The numeric codes the tests compare are given once, by `Governance.Code`.
- `VotingMock.VotingContractMock.GetProposalVoters`: returns the voter list as a value, not the live array. A caller that pushes onto the returned array would change the contract in the source, and this aliasing is not modelled. The contract's own in-place `push` is modelled as reassigning the list.
- `VotingMock.VotingContractMock.GetProposal`: returns the proposal's contents as a value, not the live object. Writes through the returned reference are not modelled.
- `VotingMock.VotingContractMock.GetVote`: returns the stored vote as a value, not the live object the contract holds. Writes through the returned reference would change the contract in the source; they are not modelled.
- Error constants: the ones no code path returns (for example `ERR_INSUFFICIENT_STAKE`, `ERR_OVERFLOW`, `ERR_NO_VOTES`) have no error kind.
- The defensive `proposalId >= nextProposalId` check of `voteOnProposal`: it is kept in the model as a branch that `GovernanceProofs.VoteErrorOrder` and `TryVote` prove unreachable.
- The staking, treasury and charity-registry contracts themselves: they appear only as identity strings, with no behaviour of their own.
- The vitest harness (`describe`, `it`, `expect`, `beforeEach`): the test cases are the methods of module `Scenarios` instead.
- The `uintCV` serialisation test: it exercises only a foreign library call.
