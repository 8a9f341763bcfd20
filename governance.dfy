/**
 * The governance contract as a value-level state machine: the state record,
 * the transition of every operation (create, vote, execute, the five
 * configuration setters), the invariant the state keeps, and the lemmas that
 * connect them. The imperative contract object in module VotingMock is proved
 * to follow these transitions exactly.
 *
 * Caller identity and block height are ambient in the contract; here they are
 * explicit parameters.
 */
module Governance {
  import opened Quadratic

  // ---------------------------------------------------------------------------
  // Errors and results
  // ---------------------------------------------------------------------------

  /** The error kinds some path of the contract returns. */
  datatype Error =
    | NotAuthorized
    | ProposalNotFound
    | ProposalInactive
    | AlreadyVoted
    | VotingClosed
    | InvalidVoteAmount
    | CalculationError
    | InvalidProposalId
    | InvalidThreshold
    | ProposalAlreadyExecuted
    | MaxProposalsExceeded
    | InvalidDuration
    | InvalidAmount

  /** The numeric error code the contract reports for each kind. */
  function Code(e: Error): (c: nat)
    ensures 100 <= c <= 124
  {
    match e
    case NotAuthorized => 100
    case ProposalNotFound => 101
    case ProposalInactive => 102
    case AlreadyVoted => 104
    case VotingClosed => 105
    case InvalidVoteAmount => 106
    case CalculationError => 108
    case InvalidProposalId => 110
    case InvalidThreshold => 116
    case ProposalAlreadyExecuted => 117
    case MaxProposalsExceeded => 119
    case InvalidDuration => 120
    case InvalidAmount => 124
  }

  /** Different error kinds are reported with different codes. */
  lemma CodesDistinct(e: Error, e': Error)
    ensures Code(e) == Code(e') <==> e == e'
  {
  }

  /** The contract's `{ ok, value }` result: a value, or an error code. */
  datatype Result<T> = Ok(value: T) | Err(error: Error)

  datatype Option<T> = None | Some(value: T)

  // ---------------------------------------------------------------------------
  // Data model
  // ---------------------------------------------------------------------------

  datatype Proposal = Proposal(
    charityId: int,
    amount: int,
    startTime: int,
    endTime: int,
    totalVotes: int,
    executed: bool,
    proposer: string)

  datatype Vote = Vote(voteAmount: int, quadraticWeight: int)

  /**
   * The whole contract state. A vote is keyed by the pair
   * (proposal id, voter); module VoteKeys shows that the contract's string key
   * identifies the same pair.
   */
  datatype State = State(
    nextProposalId: int,
    maxProposals: int,
    votingThreshold: int,
    minVoteAmount: int,
    stakingContract: string,
    treasuryContract: string,
    charityRegistryContract: string,
    proposals: map<int, Proposal>,
    votes: map<(int, string), Vote>,
    proposalVoters: map<int, seq<string>>,
    proposalStatus: map<int, bool>)

  /** What an operation returns, together with the state after it. */
  datatype Outcome<T> = Outcome(result: Result<T>, state: State)

  const MaxProposals := 1000
  const DefaultThreshold := 50
  const DefaultMinVoteAmount := 1
  const DefaultAuthority := "SP000000000000000000002Q6VF78"
  const DefaultCaller := "ST1TEST"

  // ---------------------------------------------------------------------------
  // Derived views
  // ---------------------------------------------------------------------------

  /** The voter list of a proposal, empty when nobody has voted yet. */
  function Voters(s: State, id: int): seq<string> {
    if id in s.proposalVoters then s.proposalVoters[id] else []
  }

  /** The weight recorded for voter v on proposal id, 0 when there is no vote. */
  function Weight(votes: map<(int, string), Vote>, id: int, v: string): int {
    if (id, v) in votes then votes[(id, v)].quadraticWeight else 0
  }

  /** The sum of the weights recorded for the listed voters on proposal id. */
  function Tally(votes: map<(int, string), Vote>, id: int, voters: seq<string>): int
    decreases |voters|
  {
    if voters == [] then 0
    else Tally(votes, id, voters[..|voters| - 1]) + Weight(votes, id, voters[|voters| - 1])
  }

  predicate NoDuplicates(xs: seq<string>) {
    forall i, j :: 0 <= i < j < |xs| ==> xs[i] != xs[j]
  }

  /** The lifecycle phase of a proposal at a block height; it is never stored. */
  datatype Phase = Scheduled | Active | Closed | Executed

  function PhaseAt(p: Proposal, now: int): Phase {
    if p.executed then Executed
    else if now < p.startTime then Scheduled
    else if now <= p.endTime then Active
    else Closed
  }

  /** Only the treasury identity may change the configuration. */
  predicate Authorized(s: State, caller: string) {
    caller == s.treasuryContract
  }

  // ---------------------------------------------------------------------------
  // The invariant
  // ---------------------------------------------------------------------------

  ghost predicate ConfigValid(s: State) {
    && 0 <= s.nextProposalId <= s.maxProposals
    && 0 < s.votingThreshold <= 100
    && 0 < s.minVoteAmount
  }

  /** Proposal ids are exactly 0 .. nextProposalId - 1. */
  ghost predicate ProposalKeys(s: State) {
    forall i :: i in s.proposals <==> 0 <= i < s.nextProposalId
  }

  /** Every proposal has a status flag, and the flag is the negation of executed. */
  ghost predicate StatusMirrorsExecuted(s: State) {
    && (forall i :: i in s.proposalStatus <==> i in s.proposals)
    && (forall i :: i in s.proposals ==> s.proposalStatus[i] == !s.proposals[i].executed)
  }

  ghost predicate ProposalsWellFormed(s: State) {
    forall i :: i in s.proposals ==> 0 < s.proposals[i].amount && s.proposals[i].startTime < s.proposals[i].endTime
  }

  /** Every recorded vote has a positive weight whose square is the staked amount. */
  ghost predicate VotesWellFormed(s: State) {
    forall k :: k in s.votes ==>
      0 < s.votes[k].quadraticWeight && s.votes[k].quadraticWeight * s.votes[k].quadraticWeight == s.votes[k].voteAmount
  }

  /** The voter lists are duplicate-free and list exactly the keys of the votes. */
  ghost predicate VotersMatchVotes(s: State) {
    && (forall i :: i in s.proposalVoters ==>
          i in s.proposals && s.proposalVoters[i] != [] && NoDuplicates(s.proposalVoters[i]))
    && (forall k :: k in s.votes ==> k.0 in s.proposals && k.1 in Voters(s, k.0))
    && (forall i, v :: i in s.proposals && v in Voters(s, i) ==> (i, v) in s.votes)
  }

  /** Each proposal's totalVotes is the sum of the weights of its votes. */
  ghost predicate TalliesMatch(s: State) {
    forall i :: i in s.proposals ==> s.proposals[i].totalVotes == Tally(s.votes, i, Voters(s, i))
  }

  ghost predicate Inv(s: State) {
    && ConfigValid(s)
    && ProposalKeys(s)
    && StatusMirrorsExecuted(s)
    && ProposalsWellFormed(s)
    && VotesWellFormed(s)
    && VotersMatchVotes(s)
    && TalliesMatch(s)
  }

  // ---------------------------------------------------------------------------
  // Operations
  // ---------------------------------------------------------------------------

  /** The state `reset` installs (and the constructor, through it). */
  function Init(): (s: State)
    ensures Inv(s)
    ensures s.proposals == map[] && s.votes == map[] && s.nextProposalId == 0
    ensures Authorized(s, DefaultAuthority) && !Authorized(s, DefaultCaller)
  {
    State(0, MaxProposals, DefaultThreshold, DefaultMinVoteAmount,
          DefaultAuthority, DefaultAuthority, DefaultAuthority,
          map[], map[], map[], map[])
  }

  function SetVotingThreshold(s: State, caller: string, newThreshold: int): (o: Outcome<bool>)
    ensures !Authorized(s, caller) ==> o.result == Err(NotAuthorized)
    ensures Authorized(s, caller) && !(0 < newThreshold <= 100) ==> o.result == Err(InvalidThreshold)
    ensures o.result.Ok? <==> Authorized(s, caller) && 0 < newThreshold <= 100
    ensures o.result.Err? ==> o.state == s
    ensures o.result.Ok? ==> o.result.value && o.state == s.(votingThreshold := newThreshold)
  {
    if caller != s.treasuryContract then Outcome(Err(NotAuthorized), s)
    else if newThreshold <= 0 || newThreshold > 100 then Outcome(Err(InvalidThreshold), s)
    else Outcome(Ok(true), s.(votingThreshold := newThreshold))
  }

  function SetMinVoteAmount(s: State, caller: string, newMin: int): (o: Outcome<bool>)
    ensures !Authorized(s, caller) ==> o.result == Err(NotAuthorized)
    ensures Authorized(s, caller) && newMin <= 0 ==> o.result == Err(InvalidVoteAmount)
    ensures o.result.Ok? <==> Authorized(s, caller) && 0 < newMin
    ensures o.result.Err? ==> o.state == s
    ensures o.result.Ok? ==> o.result.value && o.state == s.(minVoteAmount := newMin)
  {
    if caller != s.treasuryContract then Outcome(Err(NotAuthorized), s)
    else if newMin <= 0 then Outcome(Err(InvalidVoteAmount), s)
    else Outcome(Ok(true), s.(minVoteAmount := newMin))
  }

  function SetStakingContract(s: State, caller: string, newContract: string): (o: Outcome<bool>)
    ensures o.result.Ok? <==> Authorized(s, caller)
    ensures o.result.Err? ==> o.result.error == NotAuthorized && o.state == s
    ensures o.result.Ok? ==> o.result.value && o.state == s.(stakingContract := newContract)
  {
    if caller != s.treasuryContract then Outcome(Err(NotAuthorized), s)
    else Outcome(Ok(true), s.(stakingContract := newContract))
  }

  /** The current treasury, not the new one, must authorise the hand-over. */
  function SetTreasuryContract(s: State, caller: string, newContract: string): (o: Outcome<bool>)
    ensures o.result.Ok? <==> Authorized(s, caller)
    ensures o.result.Err? ==> o.result.error == NotAuthorized && o.state == s
    ensures o.result.Ok? ==> o.result.value && o.state == s.(treasuryContract := newContract)
    ensures o.result.Ok? ==> forall c :: Authorized(o.state, c) <==> c == newContract
  {
    if caller != s.treasuryContract then Outcome(Err(NotAuthorized), s)
    else Outcome(Ok(true), s.(treasuryContract := newContract))
  }

  function SetCharityRegistryContract(s: State, caller: string, newContract: string): (o: Outcome<bool>)
    ensures o.result.Ok? <==> Authorized(s, caller)
    ensures o.result.Err? ==> o.result.error == NotAuthorized && o.state == s
    ensures o.result.Ok? ==> o.result.value && o.state == s.(charityRegistryContract := newContract)
  {
    if caller != s.treasuryContract then Outcome(Err(NotAuthorized), s)
    else Outcome(Ok(true), s.(charityRegistryContract := newContract))
  }

  /**
   * Creating a proposal at block height `now`: the voting window runs from
   * block now + 1 through block now + 1 + duration, both included.
   */
  function CreateProposal(s: State, caller: string, now: int, charityId: int, amount: int, duration: int)
    : (o: Outcome<int>)
    ensures s.nextProposalId >= s.maxProposals ==> o.result == Err(MaxProposalsExceeded)
    ensures s.nextProposalId < s.maxProposals && duration <= 0 ==> o.result == Err(InvalidDuration)
    ensures s.nextProposalId < s.maxProposals && 0 < duration && amount <= 0 ==> o.result == Err(InvalidAmount)
    ensures o.result.Err? ==> o.state == s
    ensures o.result.Ok? ==>
      var id := o.result.value;
      && id == s.nextProposalId
      && o.state == s.(
           proposals := s.proposals[id := Proposal(charityId, amount, now + 1, now + 1 + duration, 0, false, caller)],
           proposalStatus := s.proposalStatus[id := true],
           nextProposalId := id + 1)
  {
    if s.nextProposalId >= s.maxProposals then Outcome(Err(MaxProposalsExceeded), s)
    else if duration <= 0 then Outcome(Err(InvalidDuration), s)
    else if amount <= 0 then Outcome(Err(InvalidAmount), s)
    else
      var startTime := now + 1;
      var endTime := startTime + duration;
      var id := s.nextProposalId;
      var p := Proposal(charityId, amount, startTime, endTime, 0, false, caller);
      Outcome(Ok(id), s.(
        proposals := s.proposals[id := p],
        proposalStatus := s.proposalStatus[id := true],
        nextProposalId := id + 1))
  }

  /** Casting a quadratic vote on proposal `id` at block height `now`. */
  function VoteOnProposal(s: State, caller: string, now: int, id: int, voteAmount: int): (o: Outcome<bool>)
    ensures id !in s.proposals ==> o.result == Err(ProposalNotFound)
    ensures o.result.Err? ==> o.state == s
    ensures o.result.Ok? ==>
      && id in s.proposals
      && PhaseAt(s.proposals[id], now) == Active
      && (id, caller) !in s.votes
      && s.minVoteAmount <= voteAmount
      && 0 < voteAmount
      && IsSquare(voteAmount)
    ensures o.result.Ok? ==>
      var w := ISqrt(voteAmount);
      && w * w == voteAmount
      && o.state == s.(
           votes := s.votes[(id, caller) := Vote(voteAmount, w)],
           proposals := s.proposals[id := s.proposals[id].(totalVotes := s.proposals[id].totalVotes + w)],
           proposalVoters := s.proposalVoters[id := Voters(s, id) + [caller]])
  {
    if id !in s.proposals then Outcome(Err(ProposalNotFound), s)
    else if id >= s.nextProposalId then Outcome(Err(InvalidProposalId), s)
    else
      var p := s.proposals[id];
      if now < p.startTime || now > p.endTime || p.executed then Outcome(Err(ProposalInactive), s)
      else if (id, caller) in s.votes then Outcome(Err(AlreadyVoted), s)
      else if voteAmount < s.minVoteAmount || voteAmount <= 0 then Outcome(Err(InvalidVoteAmount), s)
      else
        var w := ISqrt(voteAmount);
        if w * w != voteAmount then
          Outcome(Err(CalculationError), s)
        else
          RootCheckIffSquare(voteAmount);
          Outcome(Ok(true), s.(
            votes := s.votes[(id, caller) := Vote(voteAmount, w)],
            proposals := s.proposals[id := p.(totalVotes := p.totalVotes + w)],
            proposalVoters := s.proposalVoters[id := Voters(s, id) + [caller]]))
  }

  /** Executing proposal `id` at block height `now`, once its window has closed. */
  function ExecuteProposal(s: State, now: int, id: int): (o: Outcome<bool>)
    ensures id !in s.proposals ==> o.result == Err(ProposalNotFound)
    ensures id in s.proposals && now <= s.proposals[id].endTime ==> o.result == Err(VotingClosed)
    ensures o.result.Err? ==> o.state == s
    ensures o.result.Ok? ==>
      && id in s.proposals
      && !s.proposals[id].executed
      && s.proposals[id].endTime < now
      && s.votingThreshold <= s.proposals[id].totalVotes
      && o.state == s.(
           proposals := s.proposals[id := s.proposals[id].(executed := true)],
           proposalStatus := s.proposalStatus[id := false])
      && PhaseAt(o.state.proposals[id], now) == Executed
  {
    if id !in s.proposals then Outcome(Err(ProposalNotFound), s)
    else
      var p := s.proposals[id];
      if now <= p.endTime then Outcome(Err(VotingClosed), s)
      else if p.executed then Outcome(Err(ProposalAlreadyExecuted), s)
      else if p.totalVotes < s.votingThreshold then Outcome(Err(InvalidThreshold), s)
      else Outcome(Ok(true), s.(
        proposals := s.proposals[id := p.(executed := true)],
        proposalStatus := s.proposalStatus[id := false]))
  }
}
