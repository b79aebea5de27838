/** What each engine call does when calls run one at a time, as functions on
    values (crates/securedeploy-core/src/engine.rs). A call is split into what
    it reads from the proposal store and the effect it decides on, so that the
    same decision can be run over either store. */
module EngineSpec {
  import opened Machine
  import opened GovernanceRules
  import opened BuildHashes
  import opened Domain

  datatype Call =
    | SetPaused(paused: bool)
    | SetGuardians(guardians: seq<Key>, threshold: u8)
    | Propose(programId: string, hashHex: string, proposer: Key)
    | Approve(id: u64, guardian: Key)
    | Execute(id: u64)
    | Cancel(id: u64)
    | RaiseFinding(finding: string, programId: string, threat: ThreatClass, severity: Severity, title: string)

  /** A call with the clock readings it meets; only Propose reads twice. */
  datatype Request = Request(call: Call, now: i64, later: i64)

  datatype Reply = Done | Proposal(record: ProposalRecord) | Finding(finding: FindingRecord)

  type Votes = map<u64, set<Key>>

  datatype Effect = Effect(
    config: GovernanceConfig,
    votes: Votes,
    write: Option<ProposalRecord>,
    event: Option<DomainEvent>,
    reply: Result<Reply, EngineError>)

  datatype EngineState = EngineState(
    config: GovernanceConfig,
    votes: Votes,
    proposals: map<u64, ProposalRecord>,
    findings: map<string, FindingRecord>,
    events: seq<DomainEvent>)

  datatype Outcome = Outcome(state: EngineState, reply: Result<Reply, EngineError>)

  function VotersOf(votes: Votes, id: u64): set<Key> {
    if id in votes then votes[id] else {}
  }

  function Refuse(config: GovernanceConfig, votes: Votes, error: EngineError): Effect {
    Effect(config, votes, None, None, Err(error))
  }

  ghost function SetGuardiansEffect(config: GovernanceConfig, votes: Votes, guardians: seq<Key>, threshold: u8)
    : Effect
  {
    match Fault(guardians, threshold)
    case Some(fault) => Refuse(config, votes, Domain(Explain(fault, threshold, |guardians|)))
    case None => Effect(config.(guardians := guardians, threshold := threshold), votes, None, None, Ok(Done))
  }

  function NewRecord(config: GovernanceConfig, programId: string, hash: Bytes32, proposer: Key, eta: i64,
                     createdAt: i64): ProposalRecord
  {
    ProposalRecord(config.proposalCount, programId, HexEncode(hash), proposer, eta, 0, config.threshold, Pending,
                   createdAt)
  }

  /** A new record is stored, then counted if the counter allows, then announced. */
  function RegisterEffect(config: GovernanceConfig, votes: Votes, record: ProposalRecord): Effect {
    match CheckedIncU64(config.proposalCount)
    case None => Effect(config, votes, Some(record), None, Err(Domain(Overflow)))
    case Some(count) =>
      Effect(config.(proposalCount := count), votes, Some(record),
             Some(ProposalCreated(record.id, record.programId)), Ok(Proposal(record)))
  }

  function ProposeEffect(config: GovernanceConfig, votes: Votes, programId: string, hashHex: string, proposer: Key,
                         now: i64, later: i64): Effect
  {
    if config.paused then Refuse(config, votes, Domain(Paused))
    else match FromHex(hashHex)
      case Err(e) => Refuse(config, votes, Domain(e))
      case Ok(hash) =>
        if proposer != config.authority && !config.IsGuardian(proposer) then Refuse(config, votes, Domain(NotGuardian))
        else match ComputeEta(now, config.timelockSeconds)
          case Err(e) => Refuse(config, votes, Domain(e))
          case Ok(eta) =>
            RegisterEffect(config, votes, NewRecord(config, programId, hash, proposer, eta, later))
  }

  /** The rules a propose must pass before it makes a record. */
  predicate Admissible(config: GovernanceConfig, hashHex: string, proposer: Key, now: i64) {
    && !config.paused && FromHex(hashHex).Ok?
    && (proposer == config.authority || proposer in config.guardians)
    && ComputeEta(now, config.timelockSeconds).Ok?
  }

  /** The record as it stands after the `voters` have all voted. */
  function Tallied(record: ProposalRecord, voters: set<Key>): ProposalRecord {
    var approvals := TruncU8(|voters|);
    record.(approvals := approvals, status := if approvals >= record.threshold then Approved else record.status)
  }

  function ApproveEffect(config: GovernanceConfig, votes: Votes, found: Option<ProposalRecord>, id: u64, guardian: Key)
    : Effect
  {
    if config.paused then Refuse(config, votes, Domain(Paused))
    else if !config.IsGuardian(guardian) then Refuse(config, votes, Domain(NotGuardian))
    else if found.None? then Refuse(config, votes, NotFound(id))
    else if found.value.status.Final() then Refuse(config, votes, Domain(AlreadyFinalized))
    else if guardian in VotersOf(votes, id) then Refuse(config, votes, Domain(DuplicateApproval))
    else
      var voters := VotersOf(votes, id) + {guardian};
      var record := Tallied(found.value, voters);
      Effect(config, votes[id := voters], Some(record), Some(ProposalApproved(id, record.approvals)),
             Ok(Proposal(record)))
  }

  function ExecuteEffect(config: GovernanceConfig, votes: Votes, found: Option<ProposalRecord>, id: u64, now: i64)
    : Effect
  {
    if config.paused then Refuse(config, votes, Domain(Paused))
    else if found.None? then Refuse(config, votes, NotFound(id))
    else if found.value.status.Final() then Refuse(config, votes, Domain(AlreadyFinalized))
    else match CanExecute(now, found.value.eta, found.value.approvals, found.value.threshold)
      case Err(e) => Refuse(config, votes, Domain(e))
      case Ok(_) =>
        var record := found.value.(status := Executed);
        Effect(config, votes, Some(record), Some(ProposalExecuted(id)), Ok(Proposal(record)))
  }

  function CancelEffect(config: GovernanceConfig, votes: Votes, found: Option<ProposalRecord>, id: u64): Effect {
    if found.None? then Refuse(config, votes, NotFound(id))
    else if found.value.status.Final() then Refuse(config, votes, Domain(AlreadyFinalized))
    else
      var record := found.value.(status := Cancelled);
      Effect(config, votes, Some(record), Some(ProposalCancelled(id)), Ok(Proposal(record)))
  }

  /** The proposal a call asks the store for. */
  function Wanted(call: Call): Option<u64> {
    match call
    case Approve(id, _) => Some(id)
    case Execute(id) => Some(id)
    case Cancel(id) => Some(id)
    case _ => None
  }

  /** The effect a governance call decides on, given what the store answered. */
  ghost function Decide(config: GovernanceConfig, votes: Votes, found: Option<ProposalRecord>, req: Request): Effect
    requires !req.call.RaiseFinding?
  {
    match req.call
    case SetPaused(paused) => Effect(config.(paused := paused), votes, None, Some(PauseChanged(paused)), Ok(Done))
    case SetGuardians(guardians, threshold) => SetGuardiansEffect(config, votes, guardians, threshold)
    case Propose(programId, hashHex, proposer) =>
      ProposeEffect(config, votes, programId, hashHex, proposer, req.now, req.later)
    case Approve(id, guardian) => ApproveEffect(config, votes, found, id, guardian)
    case Execute(id) => ExecuteEffect(config, votes, found, id, req.now)
    case Cancel(id) => CancelEffect(config, votes, found, id)
  }

  function Lookup<K, V>(m: map<K, V>, k: K): Option<V> {
    if k in m then Some(m[k]) else None
  }

  function Published(events: seq<DomainEvent>, event: Option<DomainEvent>): seq<DomainEvent> {
    if event.Some? then events + [event.value] else events
  }

  function Stored(proposals: map<u64, ProposalRecord>, write: Option<ProposalRecord>): map<u64, ProposalRecord> {
    if write.Some? then proposals[write.value.id := write.value] else proposals
  }

  function Apply(s: EngineState, e: Effect): Outcome {
    Outcome(s.(config := e.config, votes := e.votes, proposals := Stored(s.proposals, e.write),
               events := Published(s.events, e.event)), e.reply)
  }

  function RaiseFindingStep(s: EngineState, req: Request): Outcome
    requires req.call.RaiseFinding?
  {
    var call := req.call;
    if call.finding in s.findings then Outcome(s, Err(Store(call.finding)))
    else
      var record := FindingRecord(call.finding, call.programId, call.threat, call.severity, call.title, false, req.now);
      Outcome(s.(findings := s.findings[call.finding := record],
                 events := s.events + [FindingRaised(call.finding, call.severity)]), Ok(Finding(record)))
  }

  ghost function Found(proposals: map<u64, ProposalRecord>, call: Call): Option<ProposalRecord> {
    if Wanted(call).Some? then Lookup(proposals, Wanted(call).value) else None
  }

  /** One whole engine call over the in-memory store. */
  ghost function Step(s: EngineState, req: Request): Outcome {
    if req.call.RaiseFinding? then RaiseFindingStep(s, req)
    else Apply(s, Decide(s.config, s.votes, Found(s.proposals, req.call), req))
  }

  /** The engine right after construction over empty stores. */
  function Fresh(config: GovernanceConfig): EngineState {
    EngineState(config, map[], map[], map[], [])
  }

  ghost predicate Startable(config: GovernanceConfig) {
    && ValidConfig(config.guardians, config.threshold)
    && config == NewConfig(config.authority, config.guardians, config.threshold, config.timelockSeconds)
  }

  /** The state after the first `k` requests of a run that starts in `s`. */
  ghost function StateFrom(s: EngineState, run: seq<Request>, k: nat): EngineState
    requires k <= |run|
  {
    if k == 0 then s else Step(StateFrom(s, run, k - 1), run[k - 1]).state
  }

  /** .. and of a run of an engine just constructed over empty stores. */
  ghost function StateAt(config: GovernanceConfig, run: seq<Request>, k: nat): EngineState
    requires k <= |run|
  {
    StateFrom(Fresh(config), run, k)
  }

  lemma {:induction false} PrefixUnaffected(s: EngineState, run: seq<Request>, more: seq<Request>, k: nat)
    requires k <= |run|
    ensures StateFrom(s, run + more, k) == StateFrom(s, run, k)
  {
    if k == 0 {
    } else {
      PrefixUnaffected(s, run, more, k - 1);
      assert (run + more)[k - 1] == run[k - 1];
    }
  }

  /** One more request at the end of a run. */
  lemma Extend(s: EngineState, run: seq<Request>, req: Request)
    ensures StateFrom(s, run + [req], |run + [req]|) == Step(StateFrom(s, run, |run|), req).state
  {
    PrefixUnaffected(s, run, [req], |run|);
    assert (run + [req])[|run|] == req;
  }

  /** One more request at the front of a run. */
  lemma {:induction false} Prepend(s: EngineState, req: Request, rest: seq<Request>, k: nat)
    requires k <= |rest|
    ensures StateFrom(s, [req] + rest, k + 1) == StateFrom(Step(s, req).state, rest, k)
  {
    if k == 0 {
      assert StateFrom(s, [req] + rest, 0) == s;
    } else {
      Prepend(s, req, rest, k - 1);
      assert ([req] + rest)[k] == rest[k - 1];
    }
  }

  ghost function ReplyAt(config: GovernanceConfig, run: seq<Request>, k: nat): Result<Reply, EngineError>
    requires k < |run|
  {
    Step(StateAt(config, run, k), run[k]).reply
  }

  predicate IsExecuted(r: ProposalRecord) {
    r.status.Executed?
  }

  predicate IsOpen(r: FindingRecord) {
    !r.resolved
  }

  /** The keys of the values that satisfy `p`. */
  ghost function KeysWhere<K, V>(m: map<K, V>, p: V -> bool): set<K> {
    set k | k in m && p(m[k])
  }

  ghost function ExecutedIds(proposals: map<u64, ProposalRecord>): set<u64> {
    KeysWhere(proposals, IsExecuted)
  }

  ghost function OpenIds(findings: map<string, FindingRecord>): set<string> {
    KeysWhere(findings, IsOpen)
  }

  /** What `stats` reports of a state. */
  ghost function StatsOf(s: EngineState): EngineStats {
    EngineStats(|s.proposals|, |ExecutedIds(s.proposals)|, |s.findings|, |OpenIds(s.findings)|)
  }

  /** The result as the wire type of the call that returned it. */
  function RecordReply(r: Result<ProposalRecord, EngineError>): Result<Reply, EngineError> {
    if r.Ok? then Ok(Proposal(r.value)) else Err(r.error)
  }

  function FindingReply(r: Result<FindingRecord, EngineError>): Result<Reply, EngineError> {
    if r.Ok? then Ok(Finding(r.value)) else Err(r.error)
  }

  function UnitReply(r: Result<Unit, EngineError>): Result<Reply, EngineError> {
    if r.Ok? then Ok(Done) else Err(r.error)
  }
}
