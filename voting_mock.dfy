/**
 * The contract object itself: a class whose fields are the contract's state
 * record, plus the ambient block height and caller that a test sets before
 * each call. Proposals are live objects held in a map; a vote and an
 * execution update the stored object in place, as the contract does.
 *
 * The ghost field `model` is the abstract state of module Governance;
 * Valid() ties every real field and every stored object to it. Every method
 * is proved to return what the matching transition of module Governance
 * returns and to move `model` exactly as that transition does, so every
 * property proved in module GovernanceProofs holds of the object as well.
 */
module VotingMock {
  import opened Quadratic
  import opened Governance
  import GovernanceProofs

  /** A stored proposal, shared between the map and whoever holds a reference to it. */
  class ProposalRecord {
    const charityId: int
    const amount: int
    const startTime: int
    const endTime: int
    const proposer: string
    /** The two fields the contract updates through the stored reference. */
    var totalVotes: int
    var executed: bool
    /** The id the record is stored under; it tells records of different ids apart. */
    ghost const slot: int

    /** A new proposal has no votes and has not been executed. */
    constructor (ghost slot: int, charityId: int, amount: int, startTime: int, endTime: int, proposer: string)
      ensures this.slot == slot
      ensures View() == Proposal(charityId, amount, startTime, endTime, 0, false, proposer)
    {
      this.slot := slot;
      this.charityId := charityId;
      this.amount := amount;
      this.startTime := startTime;
      this.endTime := endTime;
      this.totalVotes := 0;
      this.executed := false;
      this.proposer := proposer;
    }

    /** Adds a vote's weight to the running total, in place. */
    method AddVotes(weight: int)
      modifies this
      ensures totalVotes == old(totalVotes) + weight && executed == old(executed)
    {
      totalVotes := totalVotes + weight;
    }

    /**
     * The record holds the contents p: View() == p, spelled out field by field,
     * which is the form the proofs over many records reason with most cheaply.
     */
    ghost predicate Holds(p: Proposal)
      reads this
    {
      && charityId == p.charityId && amount == p.amount && startTime == p.startTime
      && endTime == p.endTime && totalVotes == p.totalVotes && executed == p.executed
      && proposer == p.proposer
    }

    /** The record's current contents as a value. */
    function View(): Proposal
      reads this
    {
      Proposal(charityId, amount, startTime, endTime, totalVotes, executed, proposer)
    }
  }

  class VotingContractMock {
    var nextProposalId: int
    var maxProposals: int
    var votingThreshold: int
    var minVoteAmount: int
    var stakingContract: string
    var treasuryContract: string
    var charityRegistryContract: string
    var proposals: map<int, ProposalRecord>
    var votes: map<(int, string), Vote>
    var proposalVoters: map<int, seq<string>>
    var proposalStatus: map<int, bool>
    /** The ambient block height and caller; a test assigns them between calls. */
    var blockHeight: int
    var caller: string

    /** The abstract state the fields and the stored objects represent. */
    ghost var model: State

    /**
     * The fields hold the abstract state: the scalar fields and the maps of
     * votes, voters and flags are its fields, and each stored object holds
     * the abstract proposal of its id. Each object also knows its own id, so
     * no object is stored under two ids and updating one through its
     * reference leaves the others alone.
     */
    ghost predicate Represents()
      reads this, proposals.Values
    {
      && nextProposalId == model.nextProposalId
      && maxProposals == model.maxProposals
      && votingThreshold == model.votingThreshold
      && minVoteAmount == model.minVoteAmount
      && stakingContract == model.stakingContract
      && treasuryContract == model.treasuryContract
      && charityRegistryContract == model.charityRegistryContract
      && votes == model.votes
      && proposalVoters == model.proposalVoters
      && proposalStatus == model.proposalStatus
      && proposals.Keys == model.proposals.Keys
      && (forall i :: i in proposals ==> proposals[i].slot == i && proposals[i].Holds(model.proposals[i]))
    }

    ghost predicate Valid()
      reads this, proposals.Values
    {
      Represents() && Inv(model)
    }

    constructor ()
      ensures Valid() && model == Init()
      ensures blockHeight == 0 && caller == DefaultCaller
    {
      new;
      Reset();
    }

    /** Installs the initial state and the default block height and caller. */
    method Reset()
      modifies this
      ensures Valid() && model == Init()
      ensures blockHeight == 0 && caller == DefaultCaller
    {
      var init := Init();
      assert Inv(init);
      nextProposalId := init.nextProposalId;
      maxProposals := init.maxProposals;
      votingThreshold := init.votingThreshold;
      minVoteAmount := init.minVoteAmount;
      stakingContract := init.stakingContract;
      treasuryContract := init.treasuryContract;
      charityRegistryContract := init.charityRegistryContract;
      proposals := map[];
      votes := init.votes;
      proposalVoters := init.proposalVoters;
      proposalStatus := init.proposalStatus;
      blockHeight := 0;
      caller := DefaultCaller;
      model := init;
      assert Represents();
    }

    /** Moves the ambient block height, as a test does by assigning the field. */
    method SetBlockHeight(height: int)
      requires Valid()
      modifies this
      ensures Valid() && model == old(model) && proposals == old(proposals)
      ensures blockHeight == height && caller == old(caller)
    {
      blockHeight := height;
    }

    /** Changes the ambient caller, as a test does by assigning the field. */
    method SetCaller(who: string)
      requires Valid()
      modifies this
      ensures Valid() && model == old(model) && proposals == old(proposals)
      ensures caller == who && blockHeight == old(blockHeight)
    {
      caller := who;
    }

    // -------------------------------------------------------------------------
    // Getters
    // -------------------------------------------------------------------------

    /** The stored proposal: present exactly for the ids 0 .. nextProposalId - 1. */
    function GetProposal(id: int): (r: Option<Proposal>)
      requires Valid()
      reads this, proposals.Values
      ensures r.Some? <==> 0 <= id < nextProposalId
      ensures r.Some? ==> r.value == model.proposals[id]
      ensures r.Some? ==> 0 < r.value.amount && r.value.startTime < r.value.endTime
    {
      if id in proposals then Some(proposals[id].View()) else None
    }

    /** A vote is recorded exactly for the voters listed on the proposal, with a square amount. */
    function GetVote(proposalId: int, voter: string): (r: Option<Vote>)
      requires Valid()
      reads this, proposals.Values
      ensures r.Some? <==> proposalId in proposals && voter in Voters(model, proposalId)
      ensures r.Some? ==> r.value == model.votes[(proposalId, voter)]
      ensures r.Some? ==> 0 < r.value.quadraticWeight && r.value.quadraticWeight * r.value.quadraticWeight == r.value.voteAmount
    {
      if (proposalId, voter) in votes then Some(votes[(proposalId, voter)]) else None
    }

    /** A voter list is present only once someone voted; it lists each voter once. */
    function GetProposalVoters(id: int): (r: Option<seq<string>>)
      requires Valid()
      reads this, proposals.Values
      ensures r.None? ==> forall v :: (id, v) !in votes
      ensures r.Some? ==> id in proposals && r.value != [] && NoDuplicates(r.value)
      ensures r.Some? ==> forall v :: v in r.value <==> (id, v) in votes
      ensures r.Some? ==> r.value == Voters(model, id)
    {
      if id in proposalVoters then Some(proposalVoters[id]) else None
    }

    /** The status flag exists for every proposal and says it has not been executed. */
    function GetProposalStatus(id: int): (r: Option<bool>)
      requires Valid()
      reads this, proposals.Values
      ensures r.Some? <==> id in proposals
      ensures r.Some? ==> (r.value <==> !proposals[id].executed)
    {
      if id in proposalStatus then Some(proposalStatus[id]) else None
    }

    /** The next id is the number of proposals created so far. */
    function GetNextProposalId(): (r: int)
      requires Valid()
      reads this, proposals.Values
      ensures r == |model.proposals|
      ensures 0 <= r <= maxProposals
    {
      GovernanceProofs.ProposalCountIsSize(model);
      nextProposalId
    }

    function GetVotingThreshold(): (r: int)
      requires Valid()
      reads this, proposals.Values
      ensures r == model.votingThreshold
      ensures 0 < r <= 100
    {
      votingThreshold
    }

    /** The total of a proposal is the sum of its voters' weights; 0 when there is no proposal. */
    function GetTotalVotes(proposalId: int): (r: int)
      requires Valid()
      reads this, proposals.Values
      ensures proposalId in proposals ==> r == Tally(votes, proposalId, Voters(model, proposalId))
      ensures proposalId !in proposals ==> r == 0
      ensures 0 <= r
    {
      if proposalId in proposals then
        GovernanceProofs.TotalVotesNonNegative(model, proposalId);
        proposals[proposalId].totalVotes
      else 0
    }

    /** A voter has voted exactly when listed on the proposal. */
    function HasVoted(proposalId: int, voter: string): (r: bool)
      requires Valid()
      reads this, proposals.Values
      ensures r <==> proposalId in proposals && voter in Voters(model, proposalId)
    {
      GetVote(proposalId, voter).Some?
    }

    /** The weight of a vote, positive exactly when the voter has voted; 0 otherwise. */
    function GetQuadraticWeight(proposalId: int, voter: string): (r: int)
      requires Valid()
      reads this, proposals.Values
      ensures 0 < r <==> HasVoted(proposalId, voter)
      ensures 0 <= r
      ensures HasVoted(proposalId, voter) ==> r * r == votes[(proposalId, voter)].voteAmount
    {
      var v := GetVote(proposalId, voter);
      if v.Some? then v.value.quadraticWeight else 0
    }

    /** A proposal is active when it exists and has not been executed. */
    function IsProposalActive(proposalId: int): (r: bool)
      requires Valid()
      reads this, proposals.Values
      ensures r <==> proposalId in proposals && !model.proposals[proposalId].executed
    {
      var s := GetProposalStatus(proposalId);
      s.Some? && s.value
    }

    /** The number of proposals ever created. */
    function GetProposalCount(): (r: int)
      requires Valid()
      reads this, proposals.Values
      ensures r == |proposals| && r == |proposalStatus|
    {
      GovernanceProofs.ProposalCountIsSize(model);
      GovernanceProofs.KeysCount(proposalStatus, nextProposalId);
      assert |proposals| == |model.proposals| by {
        assert proposals.Keys == model.proposals.Keys;
      }
      nextProposalId
    }

    // -------------------------------------------------------------------------
    // Configuration
    // -------------------------------------------------------------------------

    method SetVotingThreshold(newThreshold: int) returns (r: Result<bool>)
      requires Valid()
      modifies this
      ensures Valid()
      ensures Outcome(r, model) == Governance.SetVotingThreshold(old(model), caller, newThreshold)
      ensures caller == old(caller) && blockHeight == old(blockHeight) && proposals == old(proposals)
    {
      ghost var o := Governance.SetVotingThreshold(model, caller, newThreshold);
      GovernanceProofs.SameLedgerPreservesInv(model, o.state);
      if caller != treasuryContract {
        r := Err(NotAuthorized);
      } else if newThreshold <= 0 || newThreshold > 100 {
        r := Err(InvalidThreshold);
      } else {
        votingThreshold := newThreshold;
        r := Ok(true);
      }
      model := o.state;
    }

    method SetMinVoteAmount(newMin: int) returns (r: Result<bool>)
      requires Valid()
      modifies this
      ensures Valid()
      ensures Outcome(r, model) == Governance.SetMinVoteAmount(old(model), caller, newMin)
      ensures caller == old(caller) && blockHeight == old(blockHeight) && proposals == old(proposals)
    {
      ghost var o := Governance.SetMinVoteAmount(model, caller, newMin);
      GovernanceProofs.SameLedgerPreservesInv(model, o.state);
      if caller != treasuryContract {
        r := Err(NotAuthorized);
      } else if newMin <= 0 {
        r := Err(InvalidVoteAmount);
      } else {
        minVoteAmount := newMin;
        r := Ok(true);
      }
      model := o.state;
    }

    method SetStakingContract(newContract: string) returns (r: Result<bool>)
      requires Valid()
      modifies this
      ensures Valid()
      ensures Outcome(r, model) == Governance.SetStakingContract(old(model), caller, newContract)
      ensures caller == old(caller) && blockHeight == old(blockHeight) && proposals == old(proposals)
    {
      ghost var o := Governance.SetStakingContract(model, caller, newContract);
      GovernanceProofs.SameLedgerPreservesInv(model, o.state);
      if caller != treasuryContract {
        r := Err(NotAuthorized);
      } else {
        stakingContract := newContract;
        r := Ok(true);
      }
      model := o.state;
    }

    method SetTreasuryContract(newContract: string) returns (r: Result<bool>)
      requires Valid()
      modifies this
      ensures Valid()
      ensures Outcome(r, model) == Governance.SetTreasuryContract(old(model), caller, newContract)
      ensures caller == old(caller) && blockHeight == old(blockHeight) && proposals == old(proposals)
    {
      ghost var o := Governance.SetTreasuryContract(model, caller, newContract);
      GovernanceProofs.SameLedgerPreservesInv(model, o.state);
      if caller != treasuryContract {
        r := Err(NotAuthorized);
      } else {
        treasuryContract := newContract;
        r := Ok(true);
      }
      model := o.state;
    }

    method SetCharityRegistryContract(newContract: string) returns (r: Result<bool>)
      requires Valid()
      modifies this
      ensures Valid()
      ensures Outcome(r, model) == Governance.SetCharityRegistryContract(old(model), caller, newContract)
      ensures caller == old(caller) && blockHeight == old(blockHeight) && proposals == old(proposals)
    {
      ghost var o := Governance.SetCharityRegistryContract(model, caller, newContract);
      GovernanceProofs.SameLedgerPreservesInv(model, o.state);
      if caller != treasuryContract {
        r := Err(NotAuthorized);
      } else {
        charityRegistryContract := newContract;
        r := Ok(true);
      }
      model := o.state;
    }

    // -------------------------------------------------------------------------
    // The proposal lifecycle
    // -------------------------------------------------------------------------

    /**
     * Creates a proposal whose voting window opens at the next block; a new
     * object is stored under the next id and the existing objects are kept.
     */
    method CreateProposal(charityId: int, amount: int, duration: int) returns (r: Result<int>)
      requires Valid()
      modifies this
      ensures Valid()
      ensures Outcome(r, model) == Governance.CreateProposal(old(model), caller, blockHeight, charityId, amount, duration)
      ensures caller == old(caller) && blockHeight == old(blockHeight)
      ensures r.Ok? ==> proposals == old(proposals)[r.value := proposals[r.value]] && fresh(proposals[r.value])
      ensures r.Err? ==> proposals == old(proposals)
    {
      GovernanceProofs.CreatePreservesInv(model, caller, blockHeight, charityId, amount, duration);
      r := TryCreate(charityId, amount, duration);
    }

    /** The checks and updates of CreateProposal, relying only on the next id being unused. */
    method TryCreate(charityId: int, amount: int, duration: int) returns (r: Result<int>)
      requires Represents() && nextProposalId !in proposals
      modifies this
      ensures Represents()
      ensures Outcome(r, model) == Governance.CreateProposal(old(model), caller, blockHeight, charityId, amount, duration)
      ensures caller == old(caller) && blockHeight == old(blockHeight)
      ensures r.Ok? ==> proposals == old(proposals)[r.value := proposals[r.value]] && fresh(proposals[r.value])
      ensures r.Err? ==> proposals == old(proposals)
    {
      if nextProposalId >= maxProposals {
        r := Err(MaxProposalsExceeded);
      } else if duration <= 0 {
        r := Err(InvalidDuration);
      } else if amount <= 0 {
        r := Err(InvalidAmount);
      } else {
        var startTime := blockHeight + 1;
        var endTime := startTime + duration;
        var id := nextProposalId;
        var proposal := new ProposalRecord(id, charityId, amount, startTime, endTime, caller);
        AddRecord(proposal);
        r := Ok(id);
      }
    }

    /** Stores a new record under the next id and marks it active. */
    method AddRecord(proposal: ProposalRecord)
      requires Represents() && nextProposalId !in proposals && proposal.slot == nextProposalId
      modifies this
      ensures Represents()
      ensures proposals == old(proposals)[old(nextProposalId) := proposal]
      ensures model == old(model).(
        proposals := old(model.proposals)[old(nextProposalId) := proposal.View()],
        proposalStatus := old(model.proposalStatus)[old(nextProposalId) := true],
        nextProposalId := old(nextProposalId) + 1)
      ensures caller == old(caller) && blockHeight == old(blockHeight)
    {
      var id := nextProposalId;
      proposals := proposals[id := proposal];
      proposalStatus := proposalStatus[id := true];
      nextProposalId := nextProposalId + 1;
      model := model.(proposals := model.proposals[id := proposal.View()], proposalStatus := proposalStatus,
        nextProposalId := nextProposalId);
    }

    /** Casts the caller's quadratic vote; the stored proposal object is updated in place. */
    method VoteOnProposal(proposalId: int, voteAmount: int) returns (r: Result<bool>)
      requires Valid()
      modifies this, proposals.Values
      ensures Valid()
      ensures Outcome(r, model) == Governance.VoteOnProposal(old(model), caller, blockHeight, proposalId, voteAmount)
      ensures caller == old(caller) && blockHeight == old(blockHeight) && proposals == old(proposals)
    {
      GovernanceProofs.VotePreservesInv(model, caller, blockHeight, proposalId, voteAmount);
      r := TryVote(proposalId, voteAmount);
    }

    /** The checks and updates of VoteOnProposal, relying only on stored ids being below the next id. */
    method TryVote(proposalId: int, voteAmount: int) returns (r: Result<bool>)
      requires Represents() && (proposalId in proposals ==> proposalId < nextProposalId)
      modifies this, proposals.Values
      ensures Represents()
      ensures Outcome(r, model) == Governance.VoteOnProposal(old(model), caller, blockHeight, proposalId, voteAmount)
      ensures caller == old(caller) && blockHeight == old(blockHeight) && proposals == old(proposals)
    {
      if proposalId !in proposals {
        r := Err(ProposalNotFound);
      } else {
        var proposal := proposals[proposalId];
        // The ids in use are exactly 0 .. nextProposalId - 1, so the contract's
        // defensive InvalidProposalId check never fires.
        assert proposalId < nextProposalId;
        if blockHeight < proposal.startTime || blockHeight > proposal.endTime || proposal.executed {
          r := Err(ProposalInactive);
        } else if (proposalId, caller) in votes {
          r := Err(AlreadyVoted);
        } else if voteAmount < minVoteAmount || voteAmount <= 0 {
          r := Err(InvalidVoteAmount);
        } else {
          var sqrtAmount := ISqrt(voteAmount);
          if sqrtAmount * sqrtAmount != voteAmount {
            r := Err(CalculationError);
          } else {
            ghost var s := model;
            RecordVote(proposal, proposalId, Vote(voteAmount, sqrtAmount));
            GovernanceProofs.VoteAccepted(s, model, caller, blockHeight, proposalId, voteAmount);
            r := Ok(true);
          }
        }
      }
    }

    /**
     * Records the caller's vote on the stored record `proposal`: the vote
     * under its key, the weight added to the record in place, and the caller
     * appended to the proposal's voter list.
     */
    method RecordVote(proposal: ProposalRecord, proposalId: int, vote: Vote)
      requires Represents() && proposalId in proposals && proposals[proposalId] == proposal
      modifies this, proposal
      ensures Represents()
      ensures GovernanceProofs.RecordsVote(old(model), model, proposalId, caller, vote)
      ensures caller == old(caller) && blockHeight == old(blockHeight) && proposals == old(proposals)
    {
      ghost var s := model;
      model := s.(
        votes := s.votes[(proposalId, caller) := vote],
        proposals := s.proposals[proposalId := s.proposals[proposalId].(totalVotes := s.proposals[proposalId].totalVotes + vote.quadraticWeight)],
        proposalVoters := s.proposalVoters[proposalId := Voters(s, proposalId) + [caller]]);
      votes := votes[(proposalId, caller) := vote];
      proposal.AddVotes(vote.quadraticWeight);
      var voters := if proposalId in proposalVoters then proposalVoters[proposalId] else [];
      voters := voters + [caller];
      proposalVoters := proposalVoters[proposalId := voters];
    }

    /** Executes a closed proposal that reached the threshold; the stored object is updated in place. */
    method ExecuteProposal(proposalId: int) returns (r: Result<bool>)
      requires Valid()
      modifies this, proposals.Values
      ensures Valid()
      ensures Outcome(r, model) == Governance.ExecuteProposal(old(model), blockHeight, proposalId)
      ensures caller == old(caller) && blockHeight == old(blockHeight) && proposals == old(proposals)
    {
      GovernanceProofs.ExecutePreservesInv(model, blockHeight, proposalId);
      r := TryExecute(proposalId);
    }

    /** The checks and updates of ExecuteProposal. */
    method TryExecute(proposalId: int) returns (r: Result<bool>)
      requires Represents()
      modifies this, proposals.Values
      ensures Represents()
      ensures Outcome(r, model) == Governance.ExecuteProposal(old(model), blockHeight, proposalId)
      ensures caller == old(caller) && blockHeight == old(blockHeight) && proposals == old(proposals)
    {
      if proposalId !in proposals {
        r := Err(ProposalNotFound);
      } else {
        var proposal := proposals[proposalId];
        if blockHeight <= proposal.endTime {
          r := Err(VotingClosed);
        } else if proposal.executed {
          r := Err(ProposalAlreadyExecuted);
        } else if proposal.totalVotes < votingThreshold {
          r := Err(InvalidThreshold);
        } else {
          RecordExecution(proposal, proposalId);
          r := Ok(true);
        }
      }
    }

    /** Marks the stored record `proposal` executed in place and clears its status flag. */
    method RecordExecution(proposal: ProposalRecord, proposalId: int)
      requires Represents() && proposalId in proposals && proposals[proposalId] == proposal
      modifies this, proposal
      ensures Represents()
      ensures model == old(model).(
        proposals := old(model.proposals)[proposalId := old(model.proposals[proposalId]).(executed := true)],
        proposalStatus := old(model.proposalStatus)[proposalId := false])
      ensures caller == old(caller) && blockHeight == old(blockHeight) && proposals == old(proposals)
    {
      proposal.executed := true;
      proposalStatus := proposalStatus[proposalId := false];
      model := model.(proposals := model.proposals[proposalId := proposal.View()], proposalStatus := proposalStatus);
    }
  }
}
