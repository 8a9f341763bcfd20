/**
 * Properties of the governance state machine: every operation keeps the
 * invariant, the errors come in the documented order, a voter votes at most
 * once per proposal, a proposal is executed at most once, and all of this
 * holds along any history of calls starting from the reset state.
 */
module GovernanceProofs {
  import opened Quadratic
  import opened Governance

  // ---------------------------------------------------------------------------
  // Tallies
  // ---------------------------------------------------------------------------

  /** Appending a voter adds that voter's recorded weight to the tally. */
  lemma TallyAppend(votes: map<(int, string), Vote>, id: int, vs: seq<string>, v: string)
    ensures Tally(votes, id, vs + [v]) == Tally(votes, id, vs) + Weight(votes, id, v)
  {
    assert (vs + [v])[..|vs|] == vs;
  }

  /** The tally depends only on the weights of the listed voters. */
  lemma {:induction false} TallyFrame(
    votes: map<(int, string), Vote>, votes': map<(int, string), Vote>, id: int, vs: seq<string>)
    requires forall v :: v in vs ==> Weight(votes, id, v) == Weight(votes', id, v)
    ensures Tally(votes, id, vs) == Tally(votes', id, vs)
  {
    if vs != [] {
      var init := vs[..|vs| - 1];
      assert forall v :: v in init ==> v in vs;
      TallyFrame(votes, votes', id, init);
    }
  }

  /** With positive recorded weights every tally of listed voters is non-negative. */
  lemma {:induction false} TallyNonNegative(s: State, id: int, vs: seq<string>)
    requires VotesWellFormed(s)
    ensures 0 <= Tally(s.votes, id, vs)
  {
    if vs != [] {
      TallyNonNegative(s, id, vs[..|vs| - 1]);
    }
  }

  /** Consequently no proposal ever has a negative vote total. */
  lemma TotalVotesNonNegative(s: State, id: int)
    requires Inv(s) && id in s.proposals
    ensures 0 <= s.proposals[id].totalVotes
  {
    TallyNonNegative(s, id, Voters(s, id));
  }

  // ---------------------------------------------------------------------------
  // The proposal count
  // ---------------------------------------------------------------------------

  /** A map whose keys are exactly 0 .. n - 1 has n entries. */
  lemma {:induction false} KeysCount<V>(m: map<int, V>, n: nat)
    requires forall i :: i in m <==> 0 <= i < n
    ensures |m| == n
  {
    if n == 0 {
      assert forall i :: i !in m.Keys;
      assert m.Keys == {};
    } else {
      var m' := m - {n - 1};
      assert m.Keys == m'.Keys + {n - 1};
      KeysCount(m', n - 1);
    }
  }

  /** The proposal counter is the number of proposals ever created. */
  lemma ProposalCountIsSize(s: State)
    requires Inv(s)
    ensures |s.proposals| == s.nextProposalId
  {
    KeysCount(s.proposals, s.nextProposalId);
  }

  // ---------------------------------------------------------------------------
  // Each operation keeps the invariant
  // ---------------------------------------------------------------------------

  lemma CreatePreservesInv(s: State, caller: string, now: int, charityId: int, amount: int, duration: int)
    requires Inv(s)
    ensures Inv(CreateProposal(s, caller, now, charityId, amount, duration).state)
  {
    var o := CreateProposal(s, caller, now, charityId, amount, duration);
    if o.result.Ok? {
      AddProposalPreservesInv(s, o.state, o.state.proposals[s.nextProposalId]);
    }
  }

  /** Adding a fresh, unexecuted, positive proposal with no votes under the next id keeps the invariant. */
  lemma AddProposalPreservesInv(s: State, t: State, p: Proposal)
    requires Inv(s)
    requires s.nextProposalId < s.maxProposals
    requires 0 < p.amount && p.startTime < p.endTime && p.totalVotes == 0 && !p.executed
    requires t == s.(
      proposals := s.proposals[s.nextProposalId := p],
      proposalStatus := s.proposalStatus[s.nextProposalId := true],
      nextProposalId := s.nextProposalId + 1)
    ensures Inv(t)
  {
    assert s.nextProposalId !in s.proposalVoters;
    assert forall i :: Voters(t, i) == Voters(s, i);
  }

  /** Marking an existing proposal executed, and its status inactive, keeps the invariant. */
  lemma MarkExecutedPreservesInv(s: State, t: State, id: int)
    requires Inv(s) && id in s.proposals
    requires t == s.(
      proposals := s.proposals[id := s.proposals[id].(executed := true)],
      proposalStatus := s.proposalStatus[id := false])
    ensures Inv(t)
  {
    assert forall i :: Voters(t, i) == Voters(s, i);
  }

  /**
   * t is s with vote v of voter recorded on proposal id: the vote stored
   * under (id, voter), its weight added to the total, the voter appended.
   */
  ghost predicate RecordsVote(s: State, t: State, id: int, voter: string, v: Vote) {
    && id in s.proposals
    && t == s.(
         votes := s.votes[(id, voter) := v],
         proposals := s.proposals[id := s.proposals[id].(totalVotes := s.proposals[id].totalVotes + v.quadraticWeight)],
         proposalVoters := s.proposalVoters[id := Voters(s, id) + [voter]])
  }

  /**
   * Recording a first vote whose weight is positive and squares to the staked
   * amount keeps the invariant.
   */
  lemma RecordVotePreservesInv(s: State, t: State, id: int, voter: string, v: Vote)
    requires Inv(s) && RecordsVote(s, t, id, voter, v)
    requires (id, voter) !in s.votes
    requires 0 < v.quadraticWeight && v.quadraticWeight * v.quadraticWeight == v.voteAmount
    ensures Inv(t)
  {
    RecordVoteKeepsVoterLists(s, t, id, voter, v);
    RecordVoteKeepsTallies(s, t, id, voter, v);
    RecordVoteKeepsRecords(s, t, id, voter, v);
  }

  lemma RecordVoteKeepsRecords(s: State, t: State, id: int, voter: string, v: Vote)
    requires ConfigValid(s) && ProposalKeys(s) && StatusMirrorsExecuted(s)
    requires ProposalsWellFormed(s) && VotesWellFormed(s)
    requires RecordsVote(s, t, id, voter, v)
    requires 0 < v.quadraticWeight && v.quadraticWeight * v.quadraticWeight == v.voteAmount
    ensures ConfigValid(t) && ProposalKeys(t) && StatusMirrorsExecuted(t)
    ensures ProposalsWellFormed(t) && VotesWellFormed(t)
  {
  }

  lemma RecordVoteKeepsTallies(s: State, t: State, id: int, voter: string, v: Vote)
    requires TalliesMatch(s) && VotersMatchVotes(s)
    requires RecordsVote(s, t, id, voter, v) && (id, voter) !in s.votes
    ensures TalliesMatch(t)
  {
    var vs := Voters(s, id);
    assert voter !in vs;
    forall i | i in t.proposals
      ensures t.proposals[i].totalVotes == Tally(t.votes, i, Voters(t, i))
    {
      if i == id {
        assert Voters(t, id) == vs + [voter];
        TallyAppend(t.votes, id, vs, voter);
        TallyFrame(s.votes, t.votes, id, vs);
      } else {
        assert Voters(t, i) == Voters(s, i);
        TallyFrame(s.votes, t.votes, i, Voters(s, i));
      }
    }
  }

  lemma RecordVoteKeepsVoterLists(s: State, t: State, id: int, voter: string, v: Vote)
    requires VotersMatchVotes(s)
    requires RecordsVote(s, t, id, voter, v) && (id, voter) !in s.votes
    ensures VotersMatchVotes(t)
  {
    var vs := Voters(s, id);
    assert voter !in vs;
    assert Voters(t, id) == vs + [voter];
    assert NoDuplicates(vs + [voter]) by {
      forall a, b | 0 <= a < b < |vs + [voter]|
        ensures (vs + [voter])[a] != (vs + [voter])[b]
      {
        if b == |vs| {
          assert (vs + [voter])[a] == vs[a];
        }
      }
    }
    forall k | k in t.votes
      ensures k.0 in t.proposals && k.1 in Voters(t, k.0)
    {
      if k != (id, voter) {
        assert k in s.votes;
        assert k.1 in Voters(s, k.0);
      }
    }
    forall i, u | i in t.proposals && u in Voters(t, i)
      ensures (i, u) in t.votes
    {
      if i != id {
        assert Voters(t, i) == Voters(s, i);
      } else if u != voter {
        assert u in vs;
      }
    }
  }

  lemma VotePreservesInv(s: State, caller: string, now: int, id: int, amount: int)
    requires Inv(s)
    ensures Inv(VoteOnProposal(s, caller, now, id, amount).state)
  {
    var o := VoteOnProposal(s, caller, now, id, amount);
    if o.result.Ok? {
      AcceptedVoteIsRecorded(s, caller, now, id, amount);
      RecordVotePreservesInv(s, o.state, id, caller, Vote(amount, ISqrt(amount)));
    }
  }

  /** An accepted vote is a first vote with a positive root weight, recorded as such. */
  lemma AcceptedVoteIsRecorded(s: State, caller: string, now: int, id: int, amount: int)
    requires VoteOnProposal(s, caller, now, id, amount).result.Ok?
    ensures 0 < amount && 0 < ISqrt(amount) && ISqrt(amount) * ISqrt(amount) == amount
    ensures (id, caller) !in s.votes
    ensures RecordsVote(s, VoteOnProposal(s, caller, now, id, amount).state, id, caller, Vote(amount, ISqrt(amount)))
  {
  }

  /**
   * A vote that passes every check is accepted, and its effect is exactly
   * the recorded vote.
   */
  lemma VoteAccepted(s: State, t: State, caller: string, now: int, id: int, amount: int)
    requires id in s.proposals && id < s.nextProposalId
    requires PhaseAt(s.proposals[id], now) == Active
    requires (id, caller) !in s.votes
    requires s.minVoteAmount <= amount && 0 < amount
    requires ISqrt(amount) * ISqrt(amount) == amount
    requires RecordsVote(s, t, id, caller, Vote(amount, ISqrt(amount)))
    ensures VoteOnProposal(s, caller, now, id, amount) == Outcome(Ok(true), t)
  {
  }

  /**
   * A change that leaves proposals, votes, voter lists, status flags and the
   * counter alone keeps the invariant when the configuration stays valid.
   */
  lemma SameLedgerPreservesInv(s: State, t: State)
    requires Inv(s) && ConfigValid(t)
    requires t.nextProposalId == s.nextProposalId
    requires t.proposals == s.proposals && t.votes == s.votes
    requires t.proposalVoters == s.proposalVoters && t.proposalStatus == s.proposalStatus
    ensures Inv(t)
  {
    assert forall i :: Voters(t, i) == Voters(s, i);
  }

  lemma ExecutePreservesInv(s: State, now: int, id: int)
    requires Inv(s)
    ensures Inv(ExecuteProposal(s, now, id).state)
  {
    var o := ExecuteProposal(s, now, id);
    if o.result.Ok? {
      MarkExecutedPreservesInv(s, o.state, id);
    }
  }

  /** The setters change one configuration field and keep the invariant. */
  lemma SettersPreserveInv(s: State, caller: string, n: int, c: string)
    requires Inv(s)
    ensures Inv(SetVotingThreshold(s, caller, n).state)
    ensures Inv(SetMinVoteAmount(s, caller, n).state)
    ensures Inv(SetStakingContract(s, caller, c).state)
    ensures Inv(SetTreasuryContract(s, caller, c).state)
    ensures Inv(SetCharityRegistryContract(s, caller, c).state)
  {
    SameLedgerPreservesInv(s, SetVotingThreshold(s, caller, n).state);
    SameLedgerPreservesInv(s, SetMinVoteAmount(s, caller, n).state);
    SameLedgerPreservesInv(s, SetStakingContract(s, caller, c).state);
    SameLedgerPreservesInv(s, SetTreasuryContract(s, caller, c).state);
    SameLedgerPreservesInv(s, SetCharityRegistryContract(s, caller, c).state);
  }

  // ---------------------------------------------------------------------------
  // createProposal
  // ---------------------------------------------------------------------------

  /**
   * Creation succeeds exactly when the cap, the duration and the amount allow
   * it; the new proposal is scheduled up to the creating block, open for
   * voting at every block from the next one through `duration` more blocks,
   * and closed at every block after.
   */
  lemma CreateWindow(s: State, caller: string, now: int, charityId: int, amount: int, duration: int)
    ensures CreateProposal(s, caller, now, charityId, amount, duration).result.Ok?
        <==> s.nextProposalId < s.maxProposals && 0 < duration && 0 < amount
    ensures
      var o := CreateProposal(s, caller, now, charityId, amount, duration);
      o.result.Ok? ==>
        var p := o.state.proposals[o.result.value];
        && (forall h :: h <= now ==> PhaseAt(p, h) == Scheduled)
        && (forall h :: PhaseAt(p, h) == Active <==> now + 1 <= h <= now + 1 + duration)
        && (forall h :: now + 1 + duration < h ==> PhaseAt(p, h) == Closed)
  {
  }

  // ---------------------------------------------------------------------------
  // voteOnProposal
  // ---------------------------------------------------------------------------

  /**
   * The errors of a vote, in the order the contract checks them. The
   * defensive invalid-id check never fires, because proposal ids are exactly
   * 0 .. nextProposalId - 1.
   */
  lemma VoteErrorOrder(s: State, caller: string, now: int, id: int, amount: int)
    requires Inv(s)
    ensures
      var r := VoteOnProposal(s, caller, now, id, amount).result;
      && (r == Err(ProposalNotFound) <==> id !in s.proposals)
      && r != Err(InvalidProposalId)
      && (r == Err(ProposalInactive) <==> id in s.proposals && PhaseAt(s.proposals[id], now) != Active)
      && (r == Err(AlreadyVoted) <==>
            id in s.proposals && PhaseAt(s.proposals[id], now) == Active && (id, caller) in s.votes)
      && (r == Err(InvalidVoteAmount) <==>
            id in s.proposals && PhaseAt(s.proposals[id], now) == Active && (id, caller) !in s.votes
            && (amount < s.minVoteAmount || amount <= 0))
      && (r == Err(CalculationError) <==>
            id in s.proposals && PhaseAt(s.proposals[id], now) == Active && (id, caller) !in s.votes
            && s.minVoteAmount <= amount && 0 < amount && !IsSquare(amount))
      && (r.Ok? <==>
            id in s.proposals && PhaseAt(s.proposals[id], now) == Active && (id, caller) !in s.votes
            && s.minVoteAmount <= amount && 0 < amount && IsSquare(amount))
  {
    if 0 < amount {
      RootCheckIffSquare(amount);
    }
  }

  /**
   * Staking n * n on an open proposal one has not voted on (with n * n at
   * least the minimum) succeeds and records weight n, which is added to the
   * proposal's total.
   */
  lemma SquareVoteRecordsRoot(s: State, caller: string, now: int, id: int, n: nat)
    requires Inv(s)
    requires id in s.proposals && PhaseAt(s.proposals[id], now) == Active
    requires (id, caller) !in s.votes
    requires 0 < n && s.minVoteAmount <= n * n
    ensures
      var o := VoteOnProposal(s, caller, now, id, n * n);
      && o.result == Ok(true)
      && o.state.votes[(id, caller)] == Vote(n * n, n)
      && o.state.proposals[id].totalVotes == s.proposals[id].totalVotes + n
      && caller in Voters(o.state, id)
  {
    RootOfSquare(n);
  }

  /**
   * After a successful vote, the same caller's next vote on the same proposal
   * fails, whatever the amount and the block height: with AlreadyVoted while
   * the window is open, and nothing changes.
   */
  lemma SecondVoteRejected(s: State, caller: string, now: int, id: int, amount: int, now': int, amount': int)
    requires Inv(s)
    requires VoteOnProposal(s, caller, now, id, amount).result.Ok?
    ensures
      var t := VoteOnProposal(s, caller, now, id, amount).state;
      var o := VoteOnProposal(t, caller, now', id, amount');
      && o.result.Err?
      && o.state == t
      && (PhaseAt(t.proposals[id], now') == Active ==> o.result == Err(AlreadyVoted))
  {
    var t := VoteOnProposal(s, caller, now, id, amount).state;
    assert id < s.nextProposalId == t.nextProposalId;
    assert id in t.proposals && (id, caller) in t.votes;
  }

  // ---------------------------------------------------------------------------
  // executeProposal
  // ---------------------------------------------------------------------------

  /** The errors of an execution, in the order the contract checks them. */
  lemma ExecuteErrorOrder(s: State, now: int, id: int)
    requires Inv(s)
    ensures
      var r := ExecuteProposal(s, now, id).result;
      && (r == Err(ProposalNotFound) <==> id !in s.proposals)
      && (r == Err(VotingClosed) <==> id in s.proposals && now <= s.proposals[id].endTime)
      && (r == Err(ProposalAlreadyExecuted) <==>
            id in s.proposals && s.proposals[id].endTime < now && s.proposals[id].executed)
      && (r == Err(InvalidThreshold) <==>
            id in s.proposals && PhaseAt(s.proposals[id], now) == Closed
            && s.proposals[id].totalVotes < s.votingThreshold)
      && (r.Ok? <==>
            id in s.proposals && PhaseAt(s.proposals[id], now) == Closed
            && s.votingThreshold <= s.proposals[id].totalVotes)
  {
  }

  /**
   * A successful execution cannot be repeated: a second attempt fails at any
   * later block height, with AlreadyExecuted once the window has closed.
   */
  lemma ExecuteOnce(s: State, now: int, id: int, now': int)
    requires ExecuteProposal(s, now, id).result.Ok?
    ensures
      var t := ExecuteProposal(s, now, id).state;
      var o := ExecuteProposal(t, now', id);
      && o.result.Err?
      && o.state == t
      && (t.proposals[id].endTime < now' ==> o.result == Err(ProposalAlreadyExecuted))
  {
  }

  // ---------------------------------------------------------------------------
  // Configuration
  // ---------------------------------------------------------------------------

  /**
   * After the treasury hands over to a new identity, exactly that identity
   * may change the configuration; a non-treasury caller changes nothing.
   */
  lemma TreasuryHandOver(s: State, caller: string, newTreasury: string, caller': string, n: int)
    requires SetTreasuryContract(s, caller, newTreasury).result.Ok?
    ensures
      var t := SetTreasuryContract(s, caller, newTreasury).state;
      && (SetVotingThreshold(t, caller', n).result == Err(NotAuthorized) <==> caller' != newTreasury)
      && (SetMinVoteAmount(t, caller', n).result == Err(NotAuthorized) <==> caller' != newTreasury)
  {
  }

  // ---------------------------------------------------------------------------
  // Histories of calls
  // ---------------------------------------------------------------------------

  /** A call of one of the three lifecycle operations. */
  datatype LifecycleCall =
    | Create(charityId: int, amount: int, duration: int)
    | CastVote(proposalId: int, voteAmount: int)
    | Execute(proposalId: int)

  /** A call of one of the five configuration setters. */
  datatype ConfigCall =
    | SetThreshold(threshold: int)
    | SetMinVote(minimum: int)
    | SetStaking(staking: string)
    | SetTreasury(treasury: string)
    | SetRegistry(registry: string)

  datatype Call = Lifecycle(lifecycle: LifecycleCall) | Configure(config: ConfigCall)

  /** A call together with its ambient caller identity and block height. */
  datatype Tx = Tx(caller: string, height: int, call: Call)

  function ApplyLifecycle(s: State, caller: string, now: int, call: LifecycleCall): State {
    match call
    case Create(c, a, d) => CreateProposal(s, caller, now, c, a, d).state
    case CastVote(id, a) => VoteOnProposal(s, caller, now, id, a).state
    case Execute(id) => ExecuteProposal(s, now, id).state
  }

  /** A setter touches the configuration only, and keeps it valid. */
  function ApplyConfig(s: State, caller: string, call: ConfigCall): (t: State)
    ensures t.nextProposalId == s.nextProposalId && t.maxProposals == s.maxProposals
    ensures t.proposals == s.proposals && t.votes == s.votes
    ensures t.proposalVoters == s.proposalVoters && t.proposalStatus == s.proposalStatus
    ensures ConfigValid(s) ==> ConfigValid(t)
  {
    match call
    case SetThreshold(n) => SetVotingThreshold(s, caller, n).state
    case SetMinVote(n) => SetMinVoteAmount(s, caller, n).state
    case SetStaking(c) => SetStakingContract(s, caller, c).state
    case SetTreasury(c) => SetTreasuryContract(s, caller, c).state
    case SetRegistry(c) => SetCharityRegistryContract(s, caller, c).state
  }

  function Apply(s: State, tx: Tx): State {
    match tx.call
    case Lifecycle(l) => ApplyLifecycle(s, tx.caller, tx.height, l)
    case Configure(c) => ApplyConfig(s, tx.caller, c)
  }

  function Run(s: State, txs: seq<Tx>): State
    decreases |txs|
  {
    if txs == [] then s else Run(Apply(s, txs[0]), txs[1..])
  }

  /** Nothing is ever lost: proposals stay, executed stays set, votes stay as recorded. */
  ghost predicate Extends(s: State, t: State) {
    && s.nextProposalId <= t.nextProposalId
    && (forall i :: i in s.proposals ==>
          && i in t.proposals
          && (s.proposals[i].executed ==> t.proposals[i].executed)
          && t.proposals[i].startTime == s.proposals[i].startTime
          && t.proposals[i].endTime == s.proposals[i].endTime)
    && (forall k :: k in s.votes ==> k in t.votes && t.votes[k] == s.votes[k])
  }

  lemma ApplyPreservesInv(s: State, tx: Tx)
    requires Inv(s)
    ensures Inv(Apply(s, tx))
  {
    match tx.call
    case Lifecycle(l) => LifecyclePreservesInv(s, tx.caller, tx.height, l);
    case Configure(c) => SameLedgerPreservesInv(s, ApplyConfig(s, tx.caller, c));
  }

  lemma LifecyclePreservesInv(s: State, caller: string, now: int, call: LifecycleCall)
    requires Inv(s)
    ensures Inv(ApplyLifecycle(s, caller, now, call))
  {
    match call
    case Create(c, a, d) => CreatePreservesInv(s, caller, now, c, a, d);
    case CastVote(id, a) => VotePreservesInv(s, caller, now, id, a);
    case Execute(id) => ExecutePreservesInv(s, now, id);
  }

  /** A single call never removes a proposal, a vote or an execution. */
  lemma ApplyExtends(s: State, tx: Tx)
    requires ProposalKeys(s)
    ensures Extends(s, Apply(s, tx))
  {
    match tx.call
    case Lifecycle(l) => LifecycleExtends(s, tx.caller, tx.height, l);
    case Configure(c) => SameLedgerExtends(s, ApplyConfig(s, tx.caller, c));
  }

  lemma LifecycleExtends(s: State, caller: string, now: int, call: LifecycleCall)
    requires ProposalKeys(s)
    ensures Extends(s, ApplyLifecycle(s, caller, now, call))
  {
    match call
    case Create(c, a, d) => CreateExtends(s, caller, now, c, a, d);
    case CastVote(id, a) => VoteExtends(s, caller, now, id, a);
    case Execute(id) => ExecuteExtends(s, now, id);
  }

  lemma CreateExtends(s: State, caller: string, now: int, charityId: int, amount: int, duration: int)
    requires ProposalKeys(s)
    ensures Extends(s, CreateProposal(s, caller, now, charityId, amount, duration).state)
  {
  }

  lemma VoteExtends(s: State, caller: string, now: int, id: int, amount: int)
    ensures Extends(s, VoteOnProposal(s, caller, now, id, amount).state)
  {
  }

  lemma ExecuteExtends(s: State, now: int, id: int)
    ensures Extends(s, ExecuteProposal(s, now, id).state)
  {
  }

  lemma SameLedgerExtends(s: State, t: State)
    requires t.nextProposalId == s.nextProposalId
    requires t.proposals == s.proposals && t.votes == s.votes
    ensures Extends(s, t)
  {
  }

  lemma {:induction false} ExtendsTransitive(s: State, t: State, u: State)
    requires Extends(s, t) && Extends(t, u)
    ensures Extends(s, u)
  {
  }

  /** Every state reachable from a valid state satisfies the invariant and extends it. */
  lemma {:induction false} RunPreservesInv(s: State, txs: seq<Tx>)
    requires Inv(s)
    ensures Inv(Run(s, txs))
    ensures Extends(s, Run(s, txs))
    decreases |txs|
  {
    if txs != [] {
      var s1 := Apply(s, txs[0]);
      ApplyPreservesInv(s, txs[0]);
      ApplyExtends(s, txs[0]);
      RunPreservesInv(s1, txs[1..]);
      ExtendsTransitive(s, s1, Run(s1, txs[1..]));
    }
  }

  /** Every state reachable from reset satisfies the invariant. */
  lemma Reachable(txs: seq<Tx>)
    ensures Inv(Run(Init(), txs))
  {
    RunPreservesInv(Init(), txs);
  }

  /**
   * Once a caller has voted on a proposal, no later vote of that caller on
   * that proposal succeeds, whatever happens in between.
   */
  lemma NoDoubleVote(s: State, caller: string, now: int, id: int, amount: int,
                     txs: seq<Tx>, now': int, amount': int)
    requires Inv(s)
    requires VoteOnProposal(s, caller, now, id, amount).result.Ok?
    ensures
      var t := Run(VoteOnProposal(s, caller, now, id, amount).state, txs);
      VoteOnProposal(t, caller, now', id, amount').result.Err?
  {
    var s1 := VoteOnProposal(s, caller, now, id, amount).state;
    VotePreservesInv(s, caller, now, id, amount);
    RunPreservesInv(s1, txs);
  }

  /**
   * Once a proposal has been executed, no later execution of it succeeds,
   * whatever happens in between.
   */
  lemma NoDoubleExecution(s: State, now: int, id: int, txs: seq<Tx>, now': int)
    requires Inv(s)
    requires ExecuteProposal(s, now, id).result.Ok?
    ensures ExecuteProposal(Run(ExecuteProposal(s, now, id).state, txs), now', id).result.Err?
  {
    var s1 := ExecuteProposal(s, now, id).state;
    ExecutePreservesInv(s, now, id);
    RunPreservesInv(s1, txs);
  }
}
