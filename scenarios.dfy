/**
 * The test suite's cases, replayed on the contract object: each method
 * builds a fresh contract, drives it through the same calls at the same
 * block heights and states the observed results as its postcondition.
 */
module Scenarios {
  import opened Quadratic
  import opened Governance
  import opened VotingMock

  // ---------------------------------------------------------------------------
  // The states the cases pass through
  // ---------------------------------------------------------------------------

  /** Proposal 0 as created at block 0: charity 1, amount 1000, open from block 1 to 11. */
  function FirstProposal(): Proposal {
    Proposal(1, 1000, 1, 11, 0, false, DefaultCaller)
  }

  function Proposed(): State {
    Init().(proposals := map[0 := FirstProposal()], proposalStatus := map[0 := true], nextProposalId := 1)
  }

  /** Proposed, with the default caller's vote of amount (weight w) on proposal 0. */
  function Voted(amount: int, w: int): State {
    Proposed().(
      proposals := map[0 := FirstProposal().(totalVotes := w)],
      votes := map[(0, DefaultCaller) := Vote(amount, w)],
      proposalVoters := map[0 := [DefaultCaller]])
  }

  lemma CreateFirst()
    ensures Governance.CreateProposal(Init(), DefaultCaller, 0, 1, 1000, 10) == Outcome(Ok(0), Proposed())
  {
    assert Init().nextProposalId == 0 && Init().maxProposals == MaxProposals;
  }

  /** During the window, a first vote of k * k weighs k. */
  lemma VoteFirst(amount: int, k: nat)
    requires 0 < k && k * k == amount
    ensures Governance.VoteOnProposal(Proposed(), DefaultCaller, 1, 0, amount) == Outcome(Ok(true), Voted(amount, k))
  {
    RootOfSquare(k);
    var s := Proposed();
    assert s.proposals[0] == FirstProposal() && PhaseAt(FirstProposal(), 1) == Active;
    assert (0, DefaultCaller) !in s.votes && s.minVoteAmount == 1 && 0 < amount;
    assert Voters(s, 0) + [DefaultCaller] == [DefaultCaller];
    assert s.votes[(0, DefaultCaller) := Vote(amount, k)] == map[(0, DefaultCaller) := Vote(amount, k)];
    assert s.proposalVoters[0 := [DefaultCaller]] == map[0 := [DefaultCaller]];
    assert s.proposals[0 := FirstProposal().(totalVotes := k)] == map[0 := FirstProposal().(totalVotes := k)];
    assert GovernanceProofs.RecordsVote(s, Voted(amount, k), 0, DefaultCaller, Vote(amount, ISqrt(amount)));
    GovernanceProofs.VoteAccepted(Proposed(), Voted(amount, k), DefaultCaller, 1, 0, amount);
  }

  /** After the window, a proposal whose weight reaches the threshold is executed. */
  lemma ExecuteVoted(amount: int, k: nat)
    requires DefaultThreshold <= k
    ensures Governance.ExecuteProposal(Voted(amount, k), 12, 0) == Outcome(Ok(true), Executed(amount, k))
  {
    assert Voted(amount, k).proposals[0] == FirstProposal().(totalVotes := k);
  }

  /** Voted, with proposal 0 executed. */
  function Executed(amount: int, w: int): State {
    Voted(amount, w).(
      proposals := map[0 := FirstProposal().(totalVotes := w, executed := true)],
      proposalStatus := map[0 := false])
  }

  /** An executed proposal is not executed again. */
  lemma ExecuteAgain(amount: int, k: nat)
    ensures Governance.ExecuteProposal(Executed(amount, k), 12, 0) == Outcome(Err(ProposalAlreadyExecuted), Executed(amount, k))
  {
    assert Executed(amount, k).proposals[0] == FirstProposal().(totalVotes := k, executed := true);
  }

  /** A weight below the threshold blocks execution once the window has closed. */
  lemma ExecuteBelowThreshold(amount: int, k: nat)
    requires k < DefaultThreshold
    ensures Governance.ExecuteProposal(Voted(amount, k), 12, 0) == Outcome(Err(InvalidThreshold), Voted(amount, k))
  {
    assert Voted(amount, k).proposals[0] == FirstProposal().(totalVotes := k);
  }

  // ---------------------------------------------------------------------------
  // Set-up
  // ---------------------------------------------------------------------------

  /** The set-up run before every case: a new contract, reset. */
  method Fresh() returns (c: VotingContractMock)
    ensures fresh(c) && c.Valid() && c.model == Init() && c.proposals == map[]
    ensures c.blockHeight == 0 && c.caller == DefaultCaller
  {
    c := new VotingContractMock();
    c.Reset();
  }

  /** A fresh contract holding proposal 0, created at block 0. */
  method WithProposal() returns (c: VotingContractMock)
    ensures fresh(c) && c.Valid() && forall i :: i in c.proposals ==> fresh(c.proposals[i])
    ensures c.blockHeight == 0 && c.caller == DefaultCaller
    ensures c.model == Proposed()
  {
    c := Fresh();
    CreateFirst();
    var r := c.CreateProposal(1, 1000, 10);
  }

  /** WithProposal, then the default caller's vote of amount k * k at block 1. */
  method WithVote(amount: int, k: nat) returns (c: VotingContractMock)
    requires 0 < k && k * k == amount
    ensures fresh(c) && c.Valid() && forall i :: i in c.proposals ==> fresh(c.proposals[i])
    ensures c.blockHeight == 1 && c.caller == DefaultCaller
    ensures c.model == Voted(amount, k)
  {
    c := WithProposal();
    c.SetBlockHeight(1);
    VoteFirst(amount, k);
    var r := c.VoteOnProposal(0, amount);
  }

  // ---------------------------------------------------------------------------
  // The cases
  // ---------------------------------------------------------------------------

  method CreatesProposal() returns (r: Result<int>, p: Option<Proposal>, status: Option<bool>)
    ensures r == Ok(0)
    ensures p == Some(Proposal(1, 1000, 1, 11, 0, false, "ST1TEST"))
    ensures status == Some(true)
  {
    var c := Fresh();
    r := c.CreateProposal(1, 1000, 10);
    p := c.GetProposal(0);
    status := c.GetProposalStatus(0);
  }

  method RejectsInvalidDuration() returns (r: Result<int>)
    ensures r == Err(InvalidDuration)
  {
    var c := Fresh();
    r := c.CreateProposal(1, 1000, 0);
  }

  method RejectsInvalidAmount() returns (r: Result<int>)
    ensures r == Err(InvalidAmount)
  {
    var c := Fresh();
    r := c.CreateProposal(1, 0, 10);
  }

  method VotesSuccessfully() returns (r: Result<bool>, v: Option<Vote>, total: int, voters: Option<seq<string>>)
    ensures r == Ok(true)
    ensures v == Some(Vote(100, 10))
    ensures total == 10
    ensures voters.Some? && "ST1TEST" in voters.value
  {
    var c := WithProposal();
    c.SetBlockHeight(1);
    VoteFirst(100, 10);
    r := c.VoteOnProposal(0, 100);
    v := c.GetVote(0, "ST1TEST");
    total := c.GetTotalVotes(0);
    voters := c.GetProposalVoters(0);
  }

  method RejectsVoteOnMissingProposal() returns (r: Result<bool>)
    ensures r == Err(ProposalNotFound)
  {
    var c := Fresh();
    r := c.VoteOnProposal(99, 100);
  }

  method RejectsSecondVote() returns (r: Result<bool>)
    ensures r == Err(AlreadyVoted)
  {
    var c := WithVote(100, 10);
    r := c.VoteOnProposal(0, 200);
  }

  method RejectsZeroVote() returns (r: Result<bool>)
    ensures r == Err(InvalidVoteAmount)
  {
    var c := WithProposal();
    c.SetBlockHeight(1);
    r := c.VoteOnProposal(0, 0);
  }

  method RejectsVoteBeforeStart() returns (r: Result<bool>)
    ensures r == Err(ProposalInactive)
  {
    var c := WithProposal();
    c.SetBlockHeight(0);
    r := c.VoteOnProposal(0, 100);
  }

  method RejectsVoteAfterEnd() returns (r: Result<bool>)
    ensures r == Err(ProposalInactive)
  {
    var c := WithProposal();
    c.SetBlockHeight(12);
    r := c.VoteOnProposal(0, 100);
  }

  /** A vote of 2500 weighs 50, exactly the default threshold. */
  method ExecutesProposal() returns (r: Result<bool>, p: Option<Proposal>, status: Option<bool>)
    ensures r == Ok(true)
    ensures p.Some? && p.value.executed && p.value.totalVotes == 50
    ensures status == Some(false)
  {
    var c := WithVote(2500, 50);
    c.SetBlockHeight(12);
    ExecuteVoted(2500, 50);
    r := c.ExecuteProposal(0);
    p := c.GetProposal(0);
    status := c.GetProposalStatus(0);
  }

  /** At block 10 the window (blocks 1 to 11) is still open. */
  method RejectsExecutionWhileOpen() returns (r: Result<bool>)
    ensures r == Err(VotingClosed)
  {
    var c := WithProposal();
    c.SetBlockHeight(10);
    r := c.ExecuteProposal(0);
  }

  method RejectsSecondExecution() returns (first: Result<bool>, second: Result<bool>)
    ensures first == Ok(true)
    ensures second == Err(ProposalAlreadyExecuted)
  {
    var c := WithVote(2500, 50);
    c.SetBlockHeight(12);
    ExecuteVoted(2500, 50);
    first := c.ExecuteProposal(0);
    ExecuteAgain(2500, 50);
    second := c.ExecuteProposal(0);
  }

  /** A single vote of 100 weighs 10, below the threshold of 50. */
  method RejectsExecutionBelowThreshold() returns (r: Result<bool>)
    ensures r == Err(InvalidThreshold)
  {
    var c := WithVote(100, 10);
    c.SetBlockHeight(12);
    ExecuteBelowThreshold(100, 10);
    r := c.ExecuteProposal(0);
  }

  method SetsVotingThreshold() returns (r: Result<bool>, threshold: int)
    ensures r == Ok(true) && threshold == 60
  {
    var c := Fresh();
    c.SetCaller(c.treasuryContract);
    r := c.SetVotingThreshold(60);
    threshold := c.GetVotingThreshold();
  }

  method RejectsUnauthorizedThreshold() returns (r: Result<bool>)
    ensures r == Err(NotAuthorized)
  {
    var c := Fresh();
    r := c.SetVotingThreshold(60);
  }

  method SetsMinVoteAmount() returns (r: Result<bool>, minimum: int)
    ensures r == Ok(true) && minimum == 10
  {
    var c := Fresh();
    c.SetCaller(c.treasuryContract);
    r := c.SetMinVoteAmount(10);
    minimum := c.minVoteAmount;
  }

  /** 101 lies strictly between the squares 100 and 121. */
  lemma NotASquare()
    ensures ISqrt(101) == 10
  {
    var k := ISqrt(101);
    SquareMonotone(k, 11);
    SquareMonotone(10, k + 1);
  }

  method RejectsNonSquareVote() returns (r: Result<bool>)
    ensures r == Err(CalculationError)
  {
    var c := WithProposal();
    c.SetBlockHeight(1);
    NotASquare();
    r := c.VoteOnProposal(0, 101);
  }

  method GetsTotalVotes() returns (total: int)
    ensures total == 10
  {
    var c := WithVote(100, 10);
    total := c.GetTotalVotes(0);
  }

  method ChecksHasVoted() returns (voter: bool, other: bool)
    ensures voter && !other
  {
    var c := WithVote(100, 10);
    voter := c.HasVoted(0, "ST1TEST");
    other := c.HasVoted(0, "ST2OTHER");
  }

  method ChecksQuadraticWeight() returns (voter: int, other: int)
    ensures voter == 10 && other == 0
  {
    var c := WithVote(100, 10);
    voter := c.GetQuadraticWeight(0, "ST1TEST");
    other := c.GetQuadraticWeight(0, "ST2OTHER");
  }

  method CountsProposals() returns (count: int)
    ensures count == 2
  {
    var c := Fresh();
    var first := c.CreateProposal(1, 1000, 10);
    var second := c.CreateProposal(2, 2000, 20);
    count := c.GetProposalCount();
  }
}
