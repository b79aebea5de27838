/** Execution safety of the on-chain program over whole runs: where every vote,
    every proposal and every execution came from. */
module ChainSafety {
  import opened Machine
  import opened BuildHashes
  import opened Domain
  import opened OnChainSpec
  import opened ChainInvariant

  // ---------- one transaction ----------

  /** `after` is `before` further along: what was pinned at creation is pinned. */
  ghost predicate Pinned(before: Proposal, after: Proposal) {
    && after == before.(approvals := after.approvals, executed := after.executed, cancelled := after.cancelled)
    && before.approvals <= after.approvals
    && (before.executed ==> after == before)
    && (before.cancelled ==> after == before)
  }

  /** The transaction creates proposal `id` as `p`. */
  ghost predicate Creates(s: ChainState, tx: Tx, id: u64, p: Proposal) {
    && tx.ix.ProposeUpgrade?
    && Process(s, tx).result.Ok?
    && s.gov.Some? && !s.gov.value.paused && s.gov.value.proposalCount == id
    && (tx.signer == s.gov.value.authority || tx.signer in s.gov.value.guardians)
    && tx.ix.buildHash != ZERO_HASH
    && p.id == id && p.programId == tx.ix.programId && p.buildHash == tx.ix.buildHash && p.proposer == tx.signer
    && p.eta == tx.now + s.gov.value.timelockSeconds
  }

  /** The transaction is `voter`'s vote for proposal `id`, cast as a guardian. */
  ghost predicate Votes(s: ChainState, tx: Tx, id: u64, voter: Key) {
    && tx.ix == ApproveUpgrade(id) && tx.signer == voter
    && Process(s, tx).result.Ok?
    && s.gov.Some? && !s.gov.value.paused && voter in s.gov.value.guardians
  }

  /** The transaction executes proposal `id` with every gate open. */
  ghost predicate ExecutesSafely(s: ChainState, tx: Tx, id: u64) {
    && tx.ix == ExecuteUpgrade(id)
    && Process(s, tx).result.Ok?
    && s.gov.Some? && !s.gov.value.paused
    && id in s.proposals && !s.proposals[id].executed && !s.proposals[id].cancelled
    && 1 <= s.gov.value.threshold <= |Voters(s.markers, id)|
    && s.proposals[id].eta <= tx.now
  }

  lemma NewMarker(s: ChainState, tx: Tx, m: Seeds)
    requires m in Process(s, tx).state.markers && m !in s.markers
    ensures Votes(s, tx, m.proposal, m.guardian)
  {
  }

  lemma NewProposal(s: ChainState, tx: Tx, id: u64)
    requires id in Process(s, tx).state.proposals && id !in s.proposals
    ensures Creates(s, tx, id, Process(s, tx).state.proposals[id])
  {
  }

  ghost predicate KeepsPinned(s: ChainState, t: ChainState, id: u64)
    requires id in s.proposals
  {
    id in t.proposals && Pinned(s.proposals[id], t.proposals[id])
  }

  lemma ProposeAdds(s: ChainState, signer: Key, now: i64, programId: Key, buildHash: Bytes32)
    ensures var t := ProposeIx(s, signer, now, programId, buildHash).state;
            t.proposals == s.proposals
            || (s.gov.Some? && s.gov.value.proposalCount !in s.proposals
                && t.proposals.Keys == s.proposals.Keys + {s.gov.value.proposalCount}
                && t.proposals - {s.gov.value.proposalCount} == s.proposals
                && !t.proposals[s.gov.value.proposalCount].executed)
  {
  }

  lemma ProposePins(s: ChainState, signer: Key, now: i64, programId: Key, buildHash: Bytes32, id: u64)
    requires id in s.proposals
    ensures KeepsPinned(s, ProposeIx(s, signer, now, programId, buildHash).state, id)
  {
    var t := ProposeIx(s, signer, now, programId, buildHash).state;
    ProposeAdds(s, signer, now, programId, buildHash);
    if t.proposals != s.proposals {
      assert id in t.proposals - {s.gov.value.proposalCount};
    }
    assert t.proposals[id] == s.proposals[id];
  }

  lemma ApprovePins(s: ChainState, signer: Key, other: u64, id: u64)
    requires id in s.proposals
    ensures KeepsPinned(s, ApproveIx(s, signer, other).state, id)
  {
  }

  lemma ExecutePins(s: ChainState, now: i64, other: u64, id: u64)
    requires id in s.proposals
    ensures KeepsPinned(s, ExecuteIx(s, now, other).state, id)
  {
  }

  lemma CancelPins(s: ChainState, signer: Key, other: u64, id: u64)
    requires id in s.proposals
    ensures KeepsPinned(s, CancelIx(s, signer, other).state, id)
  {
  }

  predicate TouchesProposals(ix: Instruction) {
    ix.ProposeUpgrade? || ix.ApproveUpgrade? || ix.ExecuteUpgrade? || ix.CancelProposal?
  }

  lemma AdminLeavesProposals(s: ChainState, tx: Tx)
    requires !TouchesProposals(tx.ix)
    ensures Process(s, tx).state.proposals == s.proposals
  {
  }

  lemma ProposalTxPins(s: ChainState, tx: Tx, id: u64)
    requires TouchesProposals(tx.ix) && id in s.proposals
    ensures KeepsPinned(s, Process(s, tx).state, id)
  {
    match tx.ix
    case ProposeUpgrade(programId, buildHash) => ProposePins(s, tx.signer, tx.now, programId, buildHash, id);
    case ApproveUpgrade(other) => ApprovePins(s, tx.signer, other, id);
    case ExecuteUpgrade(other) => ExecutePins(s, tx.now, other, id);
    case CancelProposal(other) => CancelPins(s, tx.signer, other, id);
  }

  lemma StaysPinned(s: ChainState, tx: Tx, id: u64)
    requires id in s.proposals
    ensures KeepsPinned(s, Process(s, tx).state, id)
  {
    if TouchesProposals(tx.ix) {
      ProposalTxPins(s, tx, id);
    } else {
      AdminLeavesProposals(s, tx);
    }
  }

  ghost predicate Executed(s: ChainState, id: u64) {
    id in s.proposals && s.proposals[id].executed
  }

  lemma ProposeExecutesNone(s: ChainState, signer: Key, now: i64, programId: Key, buildHash: Bytes32, id: u64)
    requires Executed(ProposeIx(s, signer, now, programId, buildHash).state, id)
    ensures Executed(s, id)
  {
    var t := ProposeIx(s, signer, now, programId, buildHash).state;
    ProposeAdds(s, signer, now, programId, buildHash);
    if t.proposals != s.proposals {
      assert id in t.proposals - {s.gov.value.proposalCount};
    }
  }

  lemma OnlyExecuteExecutes(s: ChainState, tx: Tx, id: u64)
    requires !tx.ix.ExecuteUpgrade? && Executed(Process(s, tx).state, id)
    ensures Executed(s, id)
  {
    match tx.ix
    case ProposeUpgrade(programId, buildHash) =>
      ProposeExecutesNone(s, tx.signer, tx.now, programId, buildHash, id);
    case ApproveUpgrade(_) =>
    case CancelProposal(_) =>
    case _ => AdminLeavesProposals(s, tx);
  }

  lemma NewExecution(s: ChainState, tx: Tx, id: u64)
    requires Inv(s) && Executed(Process(s, tx).state, id)
    ensures Executed(s, id) || ExecutesSafely(s, tx, id)
  {
    if tx.ix.ExecuteUpgrade? {
      assert id in s.proposals && Sound(s, id);
    } else {
      OnlyExecuteExecutes(s, tx, id);
    }
  }

  ghost predicate InitializesWith(s: ChainState, tx: Tx, timelock: i64) {
    tx.ix.Initialize? && tx.ix.timelockSeconds == timelock && Process(s, tx).result.Ok?
  }

  lemma TimelockStep(s: ChainState, tx: Tx)
    requires Process(s, tx).state.gov.Some?
    ensures var timelock := Process(s, tx).state.gov.value.timelockSeconds;
            if s.gov.Some? then s.gov.value.timelockSeconds == timelock else InitializesWith(s, tx, timelock)
  {
  }

  // ---------- whole runs ----------

  lemma {:induction false} PinnedOverRun(txs: seq<Tx>, i: nat, j: nat, id: u64)
    requires i <= j <= |txs| && id in ChainAt(txs, i).proposals
    ensures id in ChainAt(txs, j).proposals
    ensures Pinned(ChainAt(txs, i).proposals[id], ChainAt(txs, j).proposals[id])
    decreases j
  {
    if i == j {
    } else {
      PinnedOverRun(txs, i, j - 1, id);
      StaysPinned(ChainAt(txs, j - 1), txs[j - 1], id);
    }
  }

  /** Every proposal was created by one propose, with the pinned contents. */
  lemma {:induction false} Origin(txs: seq<Tx>, n: nat, id: u64) returns (c: nat)
    requires n <= |txs| && id in ChainAt(txs, n).proposals
    ensures c < n && Creates(ChainAt(txs, c), txs[c], id, ChainAt(txs, n).proposals[id])
    ensures id !in ChainAt(txs, c).proposals && id in ChainAt(txs, c + 1).proposals
  {
    if n == 0 {
      assert false;
    } else if id in ChainAt(txs, n - 1).proposals {
      c := Origin(txs, n - 1, id);
      PinnedOverRun(txs, n - 1, n, id);
    } else {
      c := n - 1;
      NewProposal(ChainAt(txs, c), txs[c], id);
    }
  }

  /** Every marker was put there by its guardian's own vote, cast while a guardian. */
  lemma {:induction false} VoteOrigin(txs: seq<Tx>, n: nat, id: u64, voter: Key) returns (a: nat)
    requires n <= |txs| && Seeds(id, voter) in ChainAt(txs, n).markers
    ensures a < n && Votes(ChainAt(txs, a), txs[a], id, voter)
  {
    if n == 0 {
      assert false;
    } else if Seeds(id, voter) in ChainAt(txs, n - 1).markers {
      a := VoteOrigin(txs, n - 1, id, voter);
    } else {
      a := n - 1;
      NewMarker(ChainAt(txs, a), txs[a], Seeds(id, voter));
    }
  }

  lemma {:induction false} TimelockOrigin(txs: seq<Tx>, n: nat) returns (i: nat)
    requires n <= |txs| && ChainAt(txs, n).gov.Some?
    ensures i < n && InitializesWith(ChainAt(txs, i), txs[i], ChainAt(txs, n).gov.value.timelockSeconds)
  {
    if n == 0 {
      assert false;
    } else {
      TimelockStep(ChainAt(txs, n - 1), txs[n - 1]);
      if ChainAt(txs, n - 1).gov.Some? {
        i := TimelockOrigin(txs, n - 1);
      } else {
        i := n - 1;
      }
    }
  }

  lemma LastExecution(txs: seq<Tx>, n: nat, id: u64)
    requires n < |txs| && Executed(ChainAt(txs, n + 1), id)
    ensures Executed(ChainAt(txs, n), id) || ExecutesSafely(ChainAt(txs, n), txs[n], id)
  {
    EveryStateSound(txs, n);
    NewExecution(ChainAt(txs, n), txs[n], id);
  }

  lemma {:induction false} ExecutionOrigin(txs: seq<Tx>, n: nat, id: u64) returns (e: nat)
    requires n <= |txs| && Executed(ChainAt(txs, n), id)
    ensures e < n && ExecutesSafely(ChainAt(txs, e), txs[e], id)
  {
    if n == 0 {
      assert false;
    } else {
      LastExecution(txs, n - 1, id);
      if Executed(ChainAt(txs, n - 1), id) {
        e := ExecutionOrigin(txs, n - 1, id);
      } else {
        e := n - 1;
      }
    }
  }

  /** `voter` voted for `id` at some point before `n`, as a guardian of the time. */
  ghost predicate VotedAsGuardian(txs: seq<Tx>, n: nat, id: u64, voter: Key)
    requires n <= |txs|
  {
    exists a :: 0 <= a < n && Votes(ChainAt(txs, a), txs[a], id, voter)
  }

  /** Execution safety. An executed proposal was executed by a transaction `e`
      that found the program unpaused and at least the then-current threshold of
      distinct voters, each of whom had voted as a guardian of the time, no
      earlier than its creation time plus the timelock fixed at initialize. It was
      never cancelled, and what propose pinned is what it still holds. */
  lemma ExecutionSafety(txs: seq<Tx>, n: nat, id: u64) returns (i: nat, c: nat, e: nat)
    requires n <= |txs| && Executed(ChainAt(txs, n), id)
    ensures i < c < e < n
    ensures txs[i].ix.Initialize? && Succeeds(txs, i)
    ensures Creates(ChainAt(txs, c), txs[c], id, ChainAt(txs, n).proposals[id])
    ensures ExecutesSafely(ChainAt(txs, e), txs[e], id)
    ensures txs[e].now >= txs[c].now + txs[i].ix.timelockSeconds
    ensures forall voter :: voter in Voters(ChainAt(txs, e).markers, id) ==> VotedAsGuardian(txs, e, id, voter)
    ensures !ChainAt(txs, n).proposals[id].cancelled
  {
    c := Origin(txs, n, id);
    i := TimelockOrigin(txs, c);
    e := ExecutionOrigin(txs, n, id);
    PinnedOverRun(txs, e, n, id);
    if e <= c {
      PinnedOverRun(txs, e, c, id);
      assert false;
    }
    forall voter | voter in Voters(ChainAt(txs, e).markers, id)
      ensures VotedAsGuardian(txs, e, id, voter)
    {
      InVoters(ChainAt(txs, e).markers, id);
      var a := VoteOrigin(txs, e, id, voter);
    }
    EveryStateSound(txs, n);
    assert Sound(ChainAt(txs, n), id);
  }

  /** A proposal is executed at most once, and never both executed and cancelled. */
  lemma ExecutedOnce(txs: seq<Tx>, i: nat, j: nat, id: u64)
    requires i < j < |txs|
    requires txs[i].ix == ExecuteUpgrade(id) && Succeeds(txs, i)
    ensures txs[j].ix == ExecuteUpgrade(id) ==> !Succeeds(txs, j)
    ensures txs[j].ix == CancelProposal(id) ==> !Succeeds(txs, j)
  {
    PinnedOverRun(txs, i + 1, j, id);
  }

  /** Cancelling is final too, though on-chain a repeated cancel succeeds. */
  lemma CancelledForGood(txs: seq<Tx>, i: nat, j: nat, id: u64)
    requires i < j < |txs|
    requires txs[i].ix == CancelProposal(id) && Succeeds(txs, i)
    ensures txs[j].ix == ExecuteUpgrade(id) || txs[j].ix == ApproveUpgrade(id) ==> !Succeeds(txs, j)
    ensures txs[j].ix == CancelProposal(id) && Succeeds(txs, j) ==> ChainAt(txs, j + 1) == ChainAt(txs, j)
  {
    PinnedOverRun(txs, i + 1, j, id);
    if txs[j].ix == CancelProposal(id) && Succeeds(txs, j) {
      var s := ChainAt(txs, j);
      assert s.proposals[id := s.proposals[id]] == s.proposals;
    }
  }
}
