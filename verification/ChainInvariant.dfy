/** What every on-chain transaction keeps: dense proposal ids, vote counters that
    equal the marker sets, a valid guardian configuration. */
module ChainInvariant {
  import opened Machine
  import opened GovernanceRules
  import opened BuildHashes
  import opened Domain
  import opened OnChainSpec

  ghost predicate Sound(s: ChainState, id: u64)
    requires id in s.proposals
  {
    var p := s.proposals[id];
    && p.id == id
    && p.buildHash != ZERO_HASH
    && p.approvals == |Voters(s.markers, id)|
    && (p.executed ==> !p.cancelled && p.approvals >= 1)
  }

  ghost predicate MarkersSound(s: ChainState) {
    forall m :: m in s.markers ==> m.proposal in s.proposals && s.markers[m] == Approval(m.proposal, m.guardian)
  }

  ghost predicate Governed(s: ChainState, gov: Governance) {
    && ValidConfig(gov.guardians, gov.threshold)
    && gov.timelockSeconds >= 0
    && forall id: u64 :: id in s.proposals <==> id < gov.proposalCount
  }

  ghost predicate Inv(s: ChainState) {
    && (if s.gov.None? then s == GENESIS else Governed(s, s.gov.value))
    && (forall id :: id in s.proposals ==> Sound(s, id))
    && MarkersSound(s)
  }

  lemma VotersOfNewMarker(markers: map<Seeds, Approval>, m: Seeds, a: Approval, id: u64)
    requires m !in markers
    ensures Voters(markers[m := a], id)
         == if id == m.proposal then Voters(markers, id) + {m.guardian} else Voters(markers, id)
    ensures m.guardian !in Voters(markers, m.proposal)
  {
    var after := markers[m := a];
    assert forall g :: Seeds(id, g) in after <==> Seeds(id, g) in markers || (id == m.proposal && g == m.guardian);
    InVoters(after, id);
    InVoters(markers, id);
    InVoters(markers, m.proposal);
    assert Seeds(m.proposal, m.guardian) == m;
  }

  lemma InVoters(markers: map<Seeds, Approval>, id: u64)
    ensures forall g :: g in Voters(markers, id) <==> Seeds(id, g) in markers
  {
    forall g
      ensures g in Voters(markers, id) <==> Seeds(id, g) in markers
    {
      if Seeds(id, g) in markers {
        var m := Seeds(id, g);
        assert m.proposal == id && m.guardian == g;
      }
    }
  }

  lemma ProposeSound(s: ChainState, signer: Key, now: i64, programId: Key, buildHash: Bytes32, i: u64)
    requires Inv(s) && i in ProposeIx(s, signer, now, programId, buildHash).state.proposals
    ensures Sound(ProposeIx(s, signer, now, programId, buildHash).state, i)
  {
    if i in s.proposals {
      assert Sound(s, i);
    } else {
      InVoters(s.markers, i);
      assert Voters(s.markers, i) == {};
    }
  }

  lemma ProposeGoverned(s: ChainState, signer: Key, now: i64, programId: Key, buildHash: Bytes32)
    requires Inv(s)
    ensures var t := ProposeIx(s, signer, now, programId, buildHash).state;
            (if t.gov.None? then t == GENESIS else Governed(t, t.gov.value)) && MarkersSound(t)
  {
  }

  lemma ProposeKeeps(s: ChainState, signer: Key, now: i64, programId: Key, buildHash: Bytes32)
    requires Inv(s)
    ensures Inv(ProposeIx(s, signer, now, programId, buildHash).state)
  {
    var t := ProposeIx(s, signer, now, programId, buildHash).state;
    ProposeGoverned(s, signer, now, programId, buildHash);
    forall i | i in t.proposals
      ensures Sound(t, i)
    {
      ProposeSound(s, signer, now, programId, buildHash, i);
    }
  }

  lemma NewMarkerCounts(markers: map<Seeds, Approval>, m: Seeds, a: Approval, id: u64)
    requires m !in markers
    ensures |Voters(markers[m := a], id)| == |Voters(markers, id)| + if id == m.proposal then 1 else 0
  {
    VotersOfNewMarker(markers, m, a, id);
  }

  lemma ApproveCounts(s: ChainState, signer: Key, id: u64)
    requires ApproveIx(s, signer, id).result.Ok?
    ensures var p := s.proposals[id];
            && !p.executed && p.approvals < U8_MAX
            && Seeds(id, signer) !in s.markers
            && ApproveIx(s, signer, id).state
               == s.(proposals := s.proposals[id := p.(approvals := p.approvals + 1)],
                     markers := s.markers[Seeds(id, signer) := Approval(id, signer)])
  {
  }

  lemma ApproveSound(s: ChainState, signer: Key, id: u64, i: u64)
    requires Inv(s) && i in s.proposals && ApproveIx(s, signer, id).result.Ok?
    ensures Sound(ApproveIx(s, signer, id).state, i)
  {
    assert Sound(s, i);
    ApproveCounts(s, signer, id);
    NewMarkerCounts(s.markers, Seeds(id, signer), Approval(id, signer), i);
  }

  lemma ApproveKeeps(s: ChainState, signer: Key, id: u64)
    requires Inv(s)
    ensures Inv(ApproveIx(s, signer, id).state)
  {
    var r := ApproveIx(s, signer, id);
    if r.result.Ok? {
      forall i | i in r.state.proposals
        ensures Sound(r.state, i)
      {
        ApproveSound(s, signer, id, i);
      }
    }
  }

  lemma ExecuteKeeps(s: ChainState, now: i64, id: u64)
    requires Inv(s)
    ensures Inv(ExecuteIx(s, now, id).state)
  {
    var r := ExecuteIx(s, now, id);
    forall i | i in r.state.proposals
      ensures Sound(r.state, i)
    {
      assert Sound(s, i);
    }
  }

  lemma CancelKeeps(s: ChainState, signer: Key, id: u64)
    requires Inv(s)
    ensures Inv(CancelIx(s, signer, id).state)
  {
    var r := CancelIx(s, signer, id);
    forall i | i in r.state.proposals
      ensures Sound(r.state, i)
    {
      assert Sound(s, i);
    }
  }

  lemma AdminKeeps(s: ChainState, t: ChainState)
    requires Inv(s) && s.gov.Some? && t == s.(gov := t.gov) && t.gov.Some?
    requires t.gov.value.proposalCount == s.gov.value.proposalCount
    requires t.gov.value.timelockSeconds >= 0 && ValidConfig(t.gov.value.guardians, t.gov.value.threshold)
    ensures Inv(t)
  {
    forall i | i in t.proposals
      ensures Sound(t, i)
    {
      assert Sound(s, i);
    }
  }

  /** Governance instructions either do nothing or change governance alone. */
  lemma AdminTxKeeps(s: ChainState, tx: Tx)
    requires Inv(s)
    requires tx.ix.SetGuardians? || tx.ix.SetPaused? || tx.ix.TransferAuthority? || tx.ix.AcceptAuthority?
    ensures Inv(Process(s, tx).state)
  {
    if s.gov.Some? {
      AdminKeeps(s, Process(s, tx).state);
    }
  }

  lemma InitializeKeeps(s: ChainState, signer: Key, guardians: seq<Key>, threshold: u8, timelock: i64)
    requires Inv(s)
    ensures Inv(InitializeIx(s, signer, guardians, threshold, timelock).state)
  {
  }

  lemma ProcessKeeps(s: ChainState, tx: Tx)
    requires Inv(s)
    ensures Inv(Process(s, tx).state)
  {
    match tx.ix
    case Initialize(guardians, threshold, timelock) => InitializeKeeps(s, tx.signer, guardians, threshold, timelock);
    case ProposeUpgrade(programId, buildHash) => ProposeKeeps(s, tx.signer, tx.now, programId, buildHash);
    case ApproveUpgrade(id) => ApproveKeeps(s, tx.signer, id);
    case ExecuteUpgrade(id) => ExecuteKeeps(s, tx.now, id);
    case CancelProposal(id) => CancelKeeps(s, tx.signer, id);
    case _ => AdminTxKeeps(s, tx);
  }

  /** Every state of every transaction sequence satisfies the invariant. */
  lemma {:induction false} EveryStateSound(txs: seq<Tx>, k: nat)
    requires k <= |txs|
    ensures Inv(ChainAt(txs, k))
  {
    if k == 0 {
    } else {
      EveryStateSound(txs, k - 1);
      ProcessKeeps(ChainAt(txs, k - 1), txs[k - 1]);
    }
  }

  /** Vote conservation on-chain: the counter is exactly the number of distinct
      guardians holding a marker for the proposal. */
  lemma ChainVotesConserved(txs: seq<Tx>, k: nat, id: u64)
    requires k <= |txs| && id in ChainAt(txs, k).proposals
    ensures ChainAt(txs, k).proposals[id].approvals == |Voters(ChainAt(txs, k).markers, id)|
    ensures forall m :: m in ChainAt(txs, k).markers ==> ChainAt(txs, k).markers[m] == Approval(m.proposal, m.guardian)
  {
    EveryStateSound(txs, k);
    assert Sound(ChainAt(txs, k), id);
  }

  /** Dense ids on-chain: the proposals are exactly those below the counter, each
      under its own id, so propose never meets an existing account at its seeds;
      and the governance account always holds a valid configuration. */
  lemma ChainIdsDense(txs: seq<Tx>, k: nat)
    requires k <= |txs| && ChainAt(txs, k).gov.Some?
    ensures var s := ChainAt(txs, k);
            && (forall id: u64 :: id in s.proposals <==> id < s.gov.value.proposalCount)
            && (forall id :: id in s.proposals ==> s.proposals[id].id == id)
            && ValidConfig(s.gov.value.guardians, s.gov.value.threshold) && s.gov.value.timelockSeconds >= 0
            && forall signer, now: i64, programId, hash: Bytes32 ::
                 ProposeIx(s, signer, now, programId, hash).result != Err(AccountInUse)
  {
    EveryStateSound(txs, k);
    assert forall id :: id in ChainAt(txs, k).proposals ==> Sound(ChainAt(txs, k), id);
  }
}
