/** Which instructions the program refuses, with which error; a refused one rolls
    back. */
module ChainRefusals {
  import opened Machine
  import opened GovernanceRules
  import opened BuildHashes
  import opened Domain
  import opened OnChainSpec

  /** Why a guardian set is no council. */
  ghost function CouncilRefusal(guardians: seq<Key>, threshold: u8): Option<ProgramError> {
    if |guardians| == 0 then Some(EmptySet)
    else if |guardians| > 16 then Some(TooManyGuardiansInSet)
    else if !Distinct(guardians) then Some(DuplicateInSet)
    else if !(1 <= threshold <= |guardians|) then Some(ThresholdOutOfRange)
    else None
  }

  ghost function ProposeRefusal(s: ChainState, gov: Governance, tx: Tx, hash: Bytes32): Option<ProgramError> {
    if gov.proposalCount in s.proposals then Some(AccountInUse)
    else if gov.paused then Some(ProgramPaused)
    else if forall i :: 0 <= i < 32 ==> hash[i] == 0 then Some(ZeroBuildHash)
    else if tx.signer != gov.authority && tx.signer !in gov.guardians then Some(GuardianRequired)
    else if !(I64_MIN <= tx.now + gov.timelockSeconds <= I64_MAX) || gov.proposalCount == U64_MAX then
      Some(ArithmeticOverflow)
    else None
  }

  ghost function ClosedRefusal(p: Proposal): Option<ProgramError> {
    if p.executed then Some(AlreadyExecuted) else if p.cancelled then Some(ProposalCancelledError) else None
  }

  ghost function ApproveRefusal(s: ChainState, gov: Governance, signer: Key, id: u64): Option<ProgramError> {
    if id !in s.proposals then Some(AccountMissing)
    else if Seeds(id, signer) in s.markers then Some(AccountInUse)
    else if gov.paused then Some(ProgramPaused)
    else if signer !in gov.guardians then Some(GuardianRequired)
    else if ClosedRefusal(s.proposals[id]).Some? then ClosedRefusal(s.proposals[id])
    else if s.proposals[id].approvals == 255 then Some(ArithmeticOverflow)
    else None
  }

  ghost function ExecuteRefusal(s: ChainState, gov: Governance, now: i64, id: u64): Option<ProgramError> {
    if id !in s.proposals then Some(AccountMissing)
    else if gov.paused then Some(ProgramPaused)
    else if ClosedRefusal(s.proposals[id]).Some? then ClosedRefusal(s.proposals[id])
    else if s.proposals[id].approvals < gov.threshold then Some(BelowThreshold)
    else if now < s.proposals[id].eta then Some(TimelockNotElapsed)
    else None
  }

  ghost function CancelRefusal(s: ChainState, gov: Governance, signer: Key, id: u64): Option<ProgramError> {
    if id !in s.proposals then Some(AccountMissing)
    else if signer != gov.authority then Some(Unauthorized)
    else if s.proposals[id].executed then Some(AlreadyExecuted)
    else None
  }

  ghost function AcceptRefusal(gov: Governance, signer: Key): Option<ProgramError> {
    if gov.pendingAuthority == DEFAULT_KEY then Some(NoPendingAuthority)
    else if gov.pendingAuthority != signer then Some(NotPendingAuthority)
    else None
  }

  /** Authority-only instructions refuse any other signer. */
  ghost function AdminRefusals(gov: Governance, tx: Tx): Option<ProgramError> {
    if tx.signer != gov.authority then Some(Unauthorized)
    else if tx.ix.SetGuardians? then CouncilRefusal(tx.ix.guardians, tx.ix.threshold)
    else None
  }

  ghost function InitializeRefusal(s: ChainState, ix: Instruction): Option<ProgramError>
    requires ix.Initialize?
  {
    if s.gov.Some? then Some(AccountInUse)
    else if ix.timelockSeconds < 0 then Some(InvalidTimelock)
    else CouncilRefusal(ix.guardians, ix.threshold)
  }

  ghost function Refusal(s: ChainState, tx: Tx): Option<ProgramError> {
    if tx.ix.Initialize? then InitializeRefusal(s, tx.ix)
    else if s.gov.None? then Some(AccountMissing)
    else
      var gov := s.gov.value;
      match tx.ix
      case ProposeUpgrade(_, hash) => ProposeRefusal(s, gov, tx, hash)
      case ApproveUpgrade(id) => ApproveRefusal(s, gov, tx.signer, id)
      case ExecuteUpgrade(id) => ExecuteRefusal(s, gov, tx.now, id)
      case CancelProposal(id) => CancelRefusal(s, gov, tx.signer, id)
      case AcceptAuthority => AcceptRefusal(gov, tx.signer)
      case _ => AdminRefusals(gov, tx)
  }

  /** The receipt names the refusal there is reason for and rolls back, or there is
      none and it is a success. */
  ghost predicate Answers(s: ChainState, r: Receipt, refusal: Option<ProgramError>) {
    match refusal
    case Some(e) => r == Receipt(s, Err(e))
    case None => r.result.Ok?
  }

  lemma CouncilAnswers(guardians: seq<Key>, threshold: u8)
    ensures Fault(guardians, threshold).None? <==> CouncilRefusal(guardians, threshold).None?
    ensures Fault(guardians, threshold).Some? ==>
              CouncilRefusal(guardians, threshold) == Some(MapConfigErr(Fault(guardians, threshold).value))
  {
  }

  lemma AdminAnswers(s: ChainState, tx: Tx)
    requires s.gov.Some? && (tx.ix.SetGuardians? || tx.ix.SetPaused? || tx.ix.TransferAuthority?)
    ensures Answers(s, Process(s, tx), AdminRefusals(s.gov.value, tx))
  {
    if tx.ix.SetGuardians? {
      CouncilAnswers(tx.ix.guardians, tx.ix.threshold);
    }
  }

  lemma InitializeAnswers(s: ChainState, tx: Tx)
    requires tx.ix.Initialize?
    ensures Answers(s, Process(s, tx), InitializeRefusal(s, tx.ix))
  {
    CouncilAnswers(tx.ix.guardians, tx.ix.threshold);
  }

  lemma ProposeAnswers(s: ChainState, tx: Tx, programId: Key, hash: Bytes32)
    requires s.gov.Some?
    ensures Answers(s, ProposeIx(s, tx.signer, tx.now, programId, hash), ProposeRefusal(s, s.gov.value, tx, hash))
  {
    ZeroHashOnly(hash);
  }

  lemma ApproveAnswers(s: ChainState, signer: Key, id: u64)
    requires s.gov.Some?
    ensures Answers(s, ApproveIx(s, signer, id), ApproveRefusal(s, s.gov.value, signer, id))
  {
  }

  lemma ExecuteAnswers(s: ChainState, now: i64, id: u64)
    requires s.gov.Some?
    ensures Answers(s, ExecuteIx(s, now, id), ExecuteRefusal(s, s.gov.value, now, id))
  {
  }

  lemma CancelAnswers(s: ChainState, signer: Key, id: u64)
    requires s.gov.Some?
    ensures Answers(s, CancelIx(s, signer, id), CancelRefusal(s, s.gov.value, signer, id))
  {
  }

  lemma NothingToGovern(s: ChainState, tx: Tx)
    requires s.gov.None? && !tx.ix.Initialize?
    ensures Process(s, tx) == Receipt(s, Err(AccountMissing))
  {
  }

  /** Every instruction is refused with exactly the error there is reason for, the
      first one in the order of its constraints and checks, and then changes nothing;
      it succeeds when there is none. */
  lemma RefusedExactly(s: ChainState, tx: Tx)
    ensures Answers(s, Process(s, tx), Refusal(s, tx))
  {
    if tx.ix.Initialize? {
      InitializeAnswers(s, tx);
    } else if s.gov.None? {
      NothingToGovern(s, tx);
    } else {
      match tx.ix
      case ProposeUpgrade(programId, hash) => ProposeAnswers(s, tx, programId, hash);
      case ApproveUpgrade(id) => ApproveAnswers(s, tx.signer, id);
      case ExecuteUpgrade(id) => ExecuteAnswers(s, tx.now, id);
      case CancelProposal(id) => CancelAnswers(s, tx.signer, id);
      case AcceptAuthority =>
      case _ => AdminAnswers(s, tx);
    }
  }
}
