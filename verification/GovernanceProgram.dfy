/** The on-chain program as an object over its accounts. A handler works on
    deserialised copies and writes them back only when it succeeds. A ghost history
    ties every object to the transactions it has processed, so that the theorems
    about transaction sequences are theorems about these objects. */
module GovernancePrograms {
  import opened Machine
  import opened GovernanceRules
  import opened BuildHashes
  import opened Domain
  import opened OnChainSpec
  import Inv = ChainInvariant
  import Safety = ChainSafety
  import Handover = ChainGovernance

  class GovernanceProgram {
    var governance: Option<Governance>
    var proposals: map<u64, Proposal>
    var approvals: map<Seeds, Approval>

    /** The transactions processed so far, failed ones included. */
    ghost var history: seq<Tx>

    ghost predicate Valid()
      reads this
    {
      State() == ChainAt(history, |history|)
    }

    ghost function State(): ChainState
      reads this
    {
      ChainState(governance, proposals, approvals)
    }

    constructor ()
      ensures Valid() && State() == GENESIS && history == []
    {
      governance, proposals, approvals := None, map[], map[];
      history := [];
    }

    method Initialize(authority: Key, guardians: seq<Key>, threshold: u8, timelockSeconds: i64)
      returns (r: Result<Unit, ProgramError>)
      requires Valid()
      modifies this
      ensures Valid()
      ensures history
           == old(history) + [Tx(authority, 0, Instruction.Initialize(guardians, threshold, timelockSeconds))]
      ensures Receipt(State(), r)
           == Process(old(State()), Tx(authority, 0, Instruction.Initialize(guardians, threshold, timelockSeconds)))
    {
      Extend(GENESIS, history, Tx(authority, 0, Instruction.Initialize(guardians, threshold, timelockSeconds)));
      history := history + [Tx(authority, 0, Instruction.Initialize(guardians, threshold, timelockSeconds))];
      if governance.Some? {
        return Err(AccountInUse);
      }
      if timelockSeconds < 0 {
        return Err(InvalidTimelock);
      }
      var checked := ValidateOnChain(guardians, threshold);
      if checked.Err? {
        return Err(MapConfigErr(checked.error));
      }
      governance := Some(Governance(authority, DEFAULT_KEY, guardians, threshold, timelockSeconds, false, 0));
      return Ok(Unit);
    }

    /** The `AdminOnly` account constraints. */
    method CheckAdmin(signer: Key) returns (r: Option<ProgramError>)
      ensures r == AdminRefusal(State(), signer)
    {
      if governance.None? {
        return Some(AccountMissing);
      }
      if governance.value.authority != signer {
        return Some(Unauthorized);
      }
      return None;
    }

    method SetGuardians(signer: Key, guardians: seq<Key>, threshold: u8) returns (r: Result<Unit, ProgramError>)
      requires Valid()
      modifies this
      ensures Valid() && history == old(history) + [Tx(signer, 0, Instruction.SetGuardians(guardians, threshold))]
      ensures Receipt(State(), r)
           == Process(old(State()), Tx(signer, 0, Instruction.SetGuardians(guardians, threshold)))
    {
      Extend(GENESIS, history, Tx(signer, 0, Instruction.SetGuardians(guardians, threshold)));
      history := history + [Tx(signer, 0, Instruction.SetGuardians(guardians, threshold))];
      var refusal := CheckAdmin(signer);
      if refusal.Some? {
        return Err(refusal.value);
      }
      var checked := ValidateOnChain(guardians, threshold);
      if checked.Err? {
        return Err(MapConfigErr(checked.error));
      }
      var gov := governance.value;
      gov := gov.(guardians := guardians);
      gov := gov.(threshold := threshold);
      governance := Some(gov);
      return Ok(Unit);
    }

    method SetPaused(signer: Key, paused: bool) returns (r: Result<Unit, ProgramError>)
      requires Valid()
      modifies this
      ensures Valid() && history == old(history) + [Tx(signer, 0, Instruction.SetPaused(paused))]
      ensures Receipt(State(), r) == Process(old(State()), Tx(signer, 0, Instruction.SetPaused(paused)))
    {
      Extend(GENESIS, history, Tx(signer, 0, Instruction.SetPaused(paused)));
      history := history + [Tx(signer, 0, Instruction.SetPaused(paused))];
      var refusal := CheckAdmin(signer);
      if refusal.Some? {
        return Err(refusal.value);
      }
      governance := Some(governance.value.(paused := paused));
      return Ok(Unit);
    }

    method TransferAuthority(signer: Key, newAuthority: Key) returns (r: Result<Unit, ProgramError>)
      requires Valid()
      modifies this
      ensures Valid() && history == old(history) + [Tx(signer, 0, Instruction.TransferAuthority(newAuthority))]
      ensures Receipt(State(), r) == Process(old(State()), Tx(signer, 0, Instruction.TransferAuthority(newAuthority)))
      ensures r.Ok? ==>
                && old(governance).Some? && governance == Some(old(governance).value.(pendingAuthority := newAuthority))
                && proposals == old(proposals) && approvals == old(approvals)
    {
      Extend(GENESIS, history, Tx(signer, 0, Instruction.TransferAuthority(newAuthority)));
      history := history + [Tx(signer, 0, Instruction.TransferAuthority(newAuthority))];
      var refusal := CheckAdmin(signer);
      if refusal.Some? {
        return Err(refusal.value);
      }
      governance := Some(governance.value.(pendingAuthority := newAuthority));
      return Ok(Unit);
    }

    method AcceptAuthority(newAuthority: Key) returns (r: Result<Unit, ProgramError>)
      requires Valid()
      modifies this
      ensures Valid() && history == old(history) + [Tx(newAuthority, 0, Instruction.AcceptAuthority)]
      ensures Receipt(State(), r) == Process(old(State()), Tx(newAuthority, 0, Instruction.AcceptAuthority))
      ensures r.Ok? ==> Handover.HandsOver(old(State()), State(), newAuthority)
    {
      Extend(GENESIS, history, Tx(newAuthority, 0, Instruction.AcceptAuthority));
      history := history + [Tx(newAuthority, 0, Instruction.AcceptAuthority)];
      if governance.None? {
        return Err(AccountMissing);
      }
      var gov := governance.value;
      if gov.pendingAuthority == DEFAULT_KEY {
        return Err(NoPendingAuthority);
      }
      if gov.pendingAuthority != newAuthority {
        return Err(NotPendingAuthority);
      }
      gov := gov.(authority := gov.pendingAuthority);
      gov := gov.(pendingAuthority := DEFAULT_KEY);
      governance := Some(gov);
      return Ok(Unit);
    }

    method ProposeUpgrade(proposer: Key, now: i64, programId: Key, buildHash: Bytes32)
      returns (r: Result<Unit, ProgramError>)
      requires Valid()
      modifies this
      ensures Valid() && history == old(history) + [Tx(proposer, now, Instruction.ProposeUpgrade(programId, buildHash))]
      ensures Receipt(State(), r)
           == Process(old(State()), Tx(proposer, now, Instruction.ProposeUpgrade(programId, buildHash)))
    {
      Extend(GENESIS, history, Tx(proposer, now, Instruction.ProposeUpgrade(programId, buildHash)));
      history := history + [Tx(proposer, now, Instruction.ProposeUpgrade(programId, buildHash))];
      if governance.None? {
        return Err(AccountMissing);
      }
      var gov := governance.value;
      if gov.proposalCount in proposals {
        return Err(AccountInUse);
      }
      if gov.paused {
        return Err(ProgramPaused);
      }
      if buildHash == ZERO_HASH {
        return Err(ZeroBuildHash);
      }
      if !(proposer == gov.authority || gov.IsGuardian(proposer)) {
        return Err(GuardianRequired);
      }
      var eta := CheckedAddI64(now, gov.timelockSeconds);
      if eta.None? {
        return Err(ArithmeticOverflow);
      }
      var proposal := Proposal(gov.proposalCount, programId, buildHash, proposer, eta.value, 0, false, false);
      var count := CheckedIncU64(gov.proposalCount);
      if count.None? {
        return Err(ArithmeticOverflow);
      }
      gov := gov.(proposalCount := count.value);
      governance := Some(gov);
      proposals := proposals[proposal.id := proposal];
      return Ok(Unit);
    }

    method ApproveUpgrade(guardian: Key, id: u64) returns (r: Result<Unit, ProgramError>)
      requires Valid()
      modifies this
      ensures Valid() && history == old(history) + [Tx(guardian, 0, Instruction.ApproveUpgrade(id))]
      ensures Receipt(State(), r) == Process(old(State()), Tx(guardian, 0, Instruction.ApproveUpgrade(id)))
    {
      Extend(GENESIS, history, Tx(guardian, 0, Instruction.ApproveUpgrade(id)));
      history := history + [Tx(guardian, 0, Instruction.ApproveUpgrade(id))];
      if governance.None? || id !in proposals {
        return Err(AccountMissing);
      }
      if Seeds(id, guardian) in approvals {
        return Err(AccountInUse);
      }
      if governance.value.paused {
        return Err(ProgramPaused);
      }
      if !governance.value.IsGuardian(guardian) {
        return Err(GuardianRequired);
      }
      var proposal := proposals[id];
      if proposal.executed {
        return Err(AlreadyExecuted);
      }
      if proposal.cancelled {
        return Err(ProposalCancelledError);
      }
      var approval := Approval(id, guardian);
      var count := CheckedIncU8(proposal.approvals);
      if count.None? {
        return Err(ArithmeticOverflow);
      }
      proposal := proposal.(approvals := count.value);
      approvals := approvals[Seeds(id, guardian) := approval];
      proposals := proposals[id := proposal];
      return Ok(Unit);
    }

    method ExecuteUpgrade(caller: Key, now: i64, id: u64) returns (r: Result<Unit, ProgramError>)
      requires Valid()
      modifies this
      ensures Valid() && history == old(history) + [Tx(caller, now, Instruction.ExecuteUpgrade(id))]
      ensures Receipt(State(), r) == Process(old(State()), Tx(caller, now, Instruction.ExecuteUpgrade(id)))
    {
      Extend(GENESIS, history, Tx(caller, now, Instruction.ExecuteUpgrade(id)));
      history := history + [Tx(caller, now, Instruction.ExecuteUpgrade(id))];
      if governance.None? || id !in proposals {
        return Err(AccountMissing);
      }
      var gov, proposal := governance.value, proposals[id];
      if gov.paused {
        return Err(ProgramPaused);
      }
      if proposal.executed {
        return Err(AlreadyExecuted);
      }
      if proposal.cancelled {
        return Err(ProposalCancelledError);
      }
      if !(proposal.approvals >= gov.threshold) {
        return Err(BelowThreshold);
      }
      if !(now >= proposal.eta) {
        return Err(TimelockNotElapsed);
      }
      proposals := proposals[id := proposal.(executed := true)];
      return Ok(Unit);
    }

    method CancelProposal(authority: Key, id: u64) returns (r: Result<Unit, ProgramError>)
      requires Valid()
      modifies this
      ensures Valid() && history == old(history) + [Tx(authority, 0, Instruction.CancelProposal(id))]
      ensures Receipt(State(), r) == Process(old(State()), Tx(authority, 0, Instruction.CancelProposal(id)))
    {
      Extend(GENESIS, history, Tx(authority, 0, Instruction.CancelProposal(id)));
      history := history + [Tx(authority, 0, Instruction.CancelProposal(id))];
      if governance.None? || id !in proposals {
        return Err(AccountMissing);
      }
      if governance.value.authority != authority {
        return Err(Unauthorized);
      }
      var proposal := proposals[id];
      if proposal.executed {
        return Err(AlreadyExecuted);
      }
      proposals := proposals[id := proposal.(cancelled := true)];
      return Ok(Unit);
    }
  }

  /** The accounts of a program object satisfy the invariant of every run, and an
      executed proposal among them was executed with every gate open. */
  lemma ProgramObeysRuns(program: GovernanceProgram, id: u64) returns (e: nat)
    requires program.Valid()
    ensures Inv.Inv(program.State())
    ensures id in program.proposals && program.proposals[id].executed ==>
              e < |program.history| && Safety.ExecutesSafely(ChainAt(program.history, e), program.history[e], id)
  {
    Inv.EveryStateSound(program.history, |program.history|);
    if id in program.proposals && program.proposals[id].executed {
      e := Safety.ExecutionOrigin(program.history, |program.history|, id);
    } else {
      e := 0;
    }
  }
}
