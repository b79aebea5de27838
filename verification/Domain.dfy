/** The data the audit engine works on (crates/securedeploy-core/src/domain.rs,
    error.rs and crates/securedeploy-types/src/lib.rs). Keys and program ids are
    their base58 text, which is how the engine stores them. */
module Domain {
  import opened Machine
  import opened GovernanceRules

  type Key = string

  datatype ProposalStatus = Pending | Approved | Executed | Cancelled {
    predicate Final() {
      Executed? || Cancelled?
    }
  }

  datatype Severity = Info | Low | Medium | High | Critical

  datatype ThreatClass =
    | MissingSignerCheck
    | MissingOwnerCheck
    | AccountConfusion
    | ArbitraryCpi
    | PdaSeedCollision
    | IntegerOverflow
    | Reinitialization
    | TypeCosplay
    | UpgradeAuthorityAbuse
    | UnboundedAccount

  datatype ProposalRecord = ProposalRecord(
    id: u64,
    programId: string,
    buildHash: string,
    proposer: Key,
    eta: i64,
    approvals: u8,
    threshold: u8,
    status: ProposalStatus,
    createdAt: i64)

  datatype FindingRecord = FindingRecord(
    id: string,
    programId: string,
    threat: ThreatClass,
    severity: Severity,
    title: string,
    resolved: bool,
    createdAt: i64)

  datatype GovernanceConfig = GovernanceConfig(
    authority: Key,
    guardians: seq<Key>,
    threshold: u8,
    timelockSeconds: i64,
    paused: bool,
    proposalCount: u64)
  {
    predicate IsGuardian(key: Key) {
      key in guardians
    }
  }

  /** `GovernanceConfig::new`. */
  function NewConfig(authority: Key, guardians: seq<Key>, threshold: u8, timelockSeconds: i64): GovernanceConfig {
    GovernanceConfig(authority, guardians, threshold, timelockSeconds, false, 0)
  }

  datatype DomainEvent =
    | ProposalCreated(id: u64, programId: string)
    | ProposalApproved(id: u64, approvals: u8)
    | ProposalExecuted(id: u64)
    | ProposalCancelled(id: u64)
    | FindingRaised(finding: string, severity: Severity)
    | PauseChanged(paused: bool)

  /** Engine errors; the formatted messages are reduced to the id they name. */
  datatype EngineError =
    | Store(duplicateFinding: string)
    | Domain(rule: SecureError)
    | NotFound(proposal: u64)

  datatype EngineStats = EngineStats(proposals: nat, executed: nat, findings: nat, openFindings: nat)
}
