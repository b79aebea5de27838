/** What each on-chain instruction does, as a function on the accounts
    (anchor/programs/securedeploy-core/src/lib.rs, state.rs). A program-derived
    account is a map entry under its seeds, `init` is "no entry yet", the signer
    and the clock come with the transaction, and a failed instruction rolls back. */
module OnChainSpec {
  import opened Machine
  import opened GovernanceRules
  import opened BuildHashes
  import opened Domain

  /** `Pubkey::default()` in base58. */
  const DEFAULT_KEY: Key := "11111111111111111111111111111111"

  datatype Governance = Governance(
    authority: Key,
    pendingAuthority: Key,
    guardians: seq<Key>,
    threshold: u8,
    timelockSeconds: i64,
    paused: bool,
    proposalCount: u64)
  {
    predicate IsGuardian(key: Key) {
      key in guardians
    }
  }

  datatype Proposal = Proposal(
    id: u64,
    programId: Key,
    buildHash: Bytes32,
    proposer: Key,
    eta: i64,
    approvals: u8,
    executed: bool,
    cancelled: bool)

  /** Seeds of an approval marker, and the marker's content. */
  datatype Seeds = Seeds(proposal: u64, guardian: Key)
  datatype Approval = Approval(proposalId: u64, guardian: Key)

  datatype ChainState = ChainState(
    gov: Option<Governance>,
    proposals: map<u64, Proposal>,
    markers: map<Seeds, Approval>)

  /** Program errors, and Anchor's own for absent and already created accounts. */
  datatype ProgramError =
    | AccountMissing
    | AccountInUse
    | ProgramPaused
    | Unauthorized
    | GuardianRequired
    | NoPendingAuthority
    | NotPendingAuthority
    | EmptySet
    | TooManyGuardiansInSet
    | DuplicateInSet
    | ThresholdOutOfRange
    | InvalidTimelock
    | AlreadyExecuted
    | ProposalCancelledError
    | BelowThreshold
    | TimelockNotElapsed
    | ArithmeticOverflow
    | ZeroBuildHash

  function MapConfigErr(e: ConfigError): ProgramError {
    match e
    case Empty => EmptySet
    case TooMany => TooManyGuardiansInSet
    case Duplicate => DuplicateInSet
    case BadThreshold => ThresholdOutOfRange
  }

  datatype Instruction =
    | Initialize(guardians: seq<Key>, threshold: u8, timelockSeconds: i64)
    | SetGuardians(guardians: seq<Key>, threshold: u8)
    | SetPaused(paused: bool)
    | TransferAuthority(newAuthority: Key)
    | AcceptAuthority
    | ProposeUpgrade(programId: Key, buildHash: Bytes32)
    | ApproveUpgrade(id: u64)
    | ExecuteUpgrade(id: u64)
    | CancelProposal(id: u64)

  datatype Tx = Tx(signer: Key, now: i64, ix: Instruction)

  datatype Receipt = Receipt(state: ChainState, result: Result<Unit, ProgramError>)

  function Fail(s: ChainState, e: ProgramError): Receipt {
    Receipt(s, Err(e))
  }

  function Done(s: ChainState): Receipt {
    Receipt(s, Ok(Unit))
  }

  ghost function InitializeIx(s: ChainState, signer: Key, guardians: seq<Key>, threshold: u8, timelock: i64): Receipt {
    if s.gov.Some? then Fail(s, AccountInUse)
    else if timelock < 0 then Fail(s, InvalidTimelock)
    else match Fault(guardians, threshold)
      case Some(fault) => Fail(s, MapConfigErr(fault))
      case None => Done(s.(gov := Some(Governance(signer, DEFAULT_KEY, guardians, threshold, timelock, false, 0))))
  }

  /** `AdminOnly`: the governance account exists and the signer is its authority. */
  function AdminRefusal(s: ChainState, signer: Key): Option<ProgramError> {
    if s.gov.None? then Some(AccountMissing)
    else if s.gov.value.authority != signer then Some(Unauthorized)
    else None
  }

  ghost function SetGuardiansIx(s: ChainState, signer: Key, guardians: seq<Key>, threshold: u8): Receipt {
    if AdminRefusal(s, signer).Some? then Fail(s, AdminRefusal(s, signer).value)
    else match Fault(guardians, threshold)
      case Some(fault) => Fail(s, MapConfigErr(fault))
      case None => Done(s.(gov := Some(s.gov.value.(guardians := guardians, threshold := threshold))))
  }

  function SetPausedIx(s: ChainState, signer: Key, paused: bool): Receipt {
    if AdminRefusal(s, signer).Some? then Fail(s, AdminRefusal(s, signer).value)
    else Done(s.(gov := Some(s.gov.value.(paused := paused))))
  }

  function TransferAuthorityIx(s: ChainState, signer: Key, newAuthority: Key): Receipt {
    if AdminRefusal(s, signer).Some? then Fail(s, AdminRefusal(s, signer).value)
    else Done(s.(gov := Some(s.gov.value.(pendingAuthority := newAuthority))))
  }

  function AcceptAuthorityIx(s: ChainState, signer: Key): Receipt {
    if s.gov.None? then Fail(s, AccountMissing)
    else if s.gov.value.pendingAuthority == DEFAULT_KEY then Fail(s, NoPendingAuthority)
    else if s.gov.value.pendingAuthority != signer then Fail(s, NotPendingAuthority)
    else Done(s.(gov := Some(s.gov.value.(authority := signer, pendingAuthority := DEFAULT_KEY))))
  }

  function ProposeIx(s: ChainState, signer: Key, now: i64, programId: Key, buildHash: Bytes32): Receipt {
    if s.gov.None? then Fail(s, AccountMissing)
    else
      var gov := s.gov.value;
      if gov.proposalCount in s.proposals then Fail(s, AccountInUse)
      else if gov.paused then Fail(s, ProgramPaused)
      else if buildHash == ZERO_HASH then Fail(s, ZeroBuildHash)
      else if signer != gov.authority && !gov.IsGuardian(signer) then Fail(s, GuardianRequired)
      else match (CheckedAddI64(now, gov.timelockSeconds), CheckedIncU64(gov.proposalCount))
        case (Some(eta), Some(count)) =>
          var proposal := Proposal(gov.proposalCount, programId, buildHash, signer, eta, 0, false, false);
          Done(s.(gov := Some(gov.(proposalCount := count)), proposals := s.proposals[gov.proposalCount := proposal]))
        case _ => Fail(s, ArithmeticOverflow)
  }

  function ApproveIx(s: ChainState, signer: Key, id: u64): Receipt {
    if s.gov.None? || id !in s.proposals then Fail(s, AccountMissing)
    else if Seeds(id, signer) in s.markers then Fail(s, AccountInUse)
    else if s.gov.value.paused then Fail(s, ProgramPaused)
    else if !s.gov.value.IsGuardian(signer) then Fail(s, GuardianRequired)
    else
      var p := s.proposals[id];
      if p.executed then Fail(s, AlreadyExecuted)
      else if p.cancelled then Fail(s, ProposalCancelledError)
      else match CheckedIncU8(p.approvals)
        case None => Fail(s, ArithmeticOverflow)
        case Some(approvals) =>
          Done(s.(proposals := s.proposals[id := p.(approvals := approvals)],
                  markers := s.markers[Seeds(id, signer) := Approval(id, signer)]))
  }

  function ExecuteIx(s: ChainState, now: i64, id: u64): Receipt {
    if s.gov.None? || id !in s.proposals then Fail(s, AccountMissing)
    else if s.gov.value.paused then Fail(s, ProgramPaused)
    else
      var p := s.proposals[id];
      if p.executed then Fail(s, AlreadyExecuted)
      else if p.cancelled then Fail(s, ProposalCancelledError)
      else if p.approvals < s.gov.value.threshold then Fail(s, BelowThreshold)
      else if now < p.eta then Fail(s, TimelockNotElapsed)
      else Done(s.(proposals := s.proposals[id := p.(executed := true)]))
  }

  function CancelIx(s: ChainState, signer: Key, id: u64): Receipt {
    if s.gov.None? || id !in s.proposals then Fail(s, AccountMissing)
    else if s.gov.value.authority != signer then Fail(s, Unauthorized)
    else if s.proposals[id].executed then Fail(s, AlreadyExecuted)
    else Done(s.(proposals := s.proposals[id := s.proposals[id].(cancelled := true)]))
  }

  ghost function Process(s: ChainState, tx: Tx): Receipt {
    match tx.ix
    case Initialize(guardians, threshold, timelock) => InitializeIx(s, tx.signer, guardians, threshold, timelock)
    case SetGuardians(guardians, threshold) => SetGuardiansIx(s, tx.signer, guardians, threshold)
    case SetPaused(paused) => SetPausedIx(s, tx.signer, paused)
    case TransferAuthority(newAuthority) => TransferAuthorityIx(s, tx.signer, newAuthority)
    case AcceptAuthority => AcceptAuthorityIx(s, tx.signer)
    case ProposeUpgrade(programId, buildHash) => ProposeIx(s, tx.signer, tx.now, programId, buildHash)
    case ApproveUpgrade(id) => ApproveIx(s, tx.signer, id)
    case ExecuteUpgrade(id) => ExecuteIx(s, tx.now, id)
    case CancelProposal(id) => CancelIx(s, tx.signer, id)
  }

  const GENESIS: ChainState := ChainState(None, map[], map[])

  /** The accounts after the first `k` transactions, starting from `s`. */
  ghost function ChainFrom(s: ChainState, txs: seq<Tx>, k: nat): ChainState
    requires k <= |txs|
  {
    if k == 0 then s else Process(ChainFrom(s, txs, k - 1), txs[k - 1]).state
  }

  /** .. and starting from a chain without any accounts. */
  ghost function ChainAt(txs: seq<Tx>, k: nat): ChainState
    requires k <= |txs|
  {
    ChainFrom(GENESIS, txs, k)
  }

  lemma {:induction false} PrefixUnaffected(s: ChainState, txs: seq<Tx>, more: seq<Tx>, k: nat)
    requires k <= |txs|
    ensures ChainFrom(s, txs + more, k) == ChainFrom(s, txs, k)
  {
    if k == 0 {
    } else {
      PrefixUnaffected(s, txs, more, k - 1);
      assert (txs + more)[k - 1] == txs[k - 1];
    }
  }

  /** One more transaction at the end. */
  lemma Extend(s: ChainState, txs: seq<Tx>, tx: Tx)
    ensures (txs + [tx])[|txs|] == tx
    ensures ChainFrom(s, txs + [tx], |txs|) == ChainFrom(s, txs, |txs|)
    ensures ChainFrom(s, txs + [tx], |txs + [tx]|) == Process(ChainFrom(s, txs, |txs|), tx).state
  {
    PrefixUnaffected(s, txs, [tx], |txs|);
    assert (txs + [tx])[|txs|] == tx;
  }

  /** One more transaction at the front. */
  lemma {:induction false} Prepend(s: ChainState, tx: Tx, rest: seq<Tx>, k: nat)
    requires k <= |rest|
    ensures ChainFrom(s, [tx] + rest, k + 1) == ChainFrom(Process(s, tx).state, rest, k)
  {
    if k == 0 {
      assert ChainFrom(s, [tx] + rest, 0) == s;
    } else {
      Prepend(s, tx, rest, k - 1);
      assert ([tx] + rest)[k] == rest[k - 1];
    }
  }

  /** A continuation picks up where the first transactions left off. */
  lemma {:induction false} Continue(s: ChainState, txs: seq<Tx>, more: seq<Tx>, k: nat)
    requires k <= |more|
    ensures ChainFrom(s, txs + more, |txs| + k) == ChainFrom(ChainFrom(s, txs, |txs|), more, k)
  {
    if k == 0 {
      PrefixUnaffected(s, txs, more, |txs|);
    } else {
      Continue(s, txs, more, k - 1);
      assert (txs + more)[|txs| + k - 1] == more[k - 1];
    }
  }

  ghost predicate Succeeds(txs: seq<Tx>, k: nat)
    requires k < |txs|
  {
    Process(ChainAt(txs, k), txs[k]).result.Ok?
  }

  /** The distinct guardians whose markers exist for a proposal. */
  ghost function Voters(markers: map<Seeds, Approval>, id: u64): set<Key> {
    set m | m in markers && m.proposal == id :: m.guardian
  }
}
