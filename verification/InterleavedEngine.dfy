/** The engine with calls interleaved: every call is cut at its lock acquisitions,
    clock readings and await points (crates/securedeploy-core/src/engine.rs), and
    between two cuts any other call may run, time may move, or a call may be
    dropped for good (a request timeout drops the future at an await). A run is a
    sequence of scheduler actions. Findings take no part. */
module InterleavedEngine {
  import opened Machine
  import opened GovernanceRules
  import opened BuildHashes
  import opened Domain
  import opened EngineSpec

  /** Where a call in flight is, with its local variables. */
  datatype PausePc =
    | PauseWrite(paused: bool)
    | PausePublish(paused: bool)

  datatype ProposePc =
    | ProposeGate(programId: string, hashHex: string, proposer: Key)
    | ProposeRead(programId: string, hash: Bytes32, proposer: Key)
    | ProposeStamp(draft: ProposalRecord)
    | ProposeStore(record: ProposalRecord)
    | ProposeCount(record: ProposalRecord)
    | ProposePublish(record: ProposalRecord)

  datatype ApprovePc =
    | ApproveGate(id: u64, guardian: Key)
    | ApproveMember(id: u64, guardian: Key)
    | ApproveFetch(id: u64, guardian: Key)
    | ApproveVote(id: u64, guardian: Key, record: ProposalRecord)
    | ApproveStore(id: u64, record: ProposalRecord)
    | ApprovePublish(id: u64, record: ProposalRecord)

  datatype ExecutePc =
    | ExecuteGate(id: u64)
    | ExecuteFetch(id: u64)
    | ExecuteCheck(id: u64, record: ProposalRecord)
    | ExecuteStore(id: u64, record: ProposalRecord)
    | ExecutePublish(id: u64, record: ProposalRecord)

  datatype CancelPc =
    | CancelFetch(id: u64)
    | CancelStore(id: u64, record: ProposalRecord)
    | CancelPublish(id: u64, record: ProposalRecord)

  datatype Pc =
    | Pausing(u: PausePc)
    | Rotating(guardians: seq<Key>, threshold: u8) // validation is local, then one write lock
    | Proposing(p: ProposePc)
    | Approving(a: ApprovePc)
    | Executing(e: ExecutePc)
    | Cancelling(c: CancelPc)

  type Flight = map<nat, Pc>

  type Answer = Result<Reply, EngineError>

  /** The engine's shared state, the clock, the calls in flight, and the last
      answer each caller got. */
  datatype World = World(core: EngineState, now: i64, flight: Flight, answers: map<nat, Answer>)

  datatype Action =
    | Start(caller: nat, call: Call)
    | Advance(caller: nat)
    | Drop(caller: nat)
    | Tick(now: i64)

  /** Where a call goes after a cut. */
  datatype Course = Goto(pc: Pc) | Return(answer: Answer)

  /** What one cut does: its effect on the shared state, and where the call goes. */
  datatype Move = Move(
    config: GovernanceConfig,
    votes: Votes,
    write: Option<ProposalRecord>,
    event: Option<DomainEvent>,
    course: Course)

  /** The first cut of a call. */
  function Entry(call: Call): Option<Pc> {
    match call
    case SetPaused(paused) => Some(Pausing(PauseWrite(paused)))
    case SetGuardians(guardians, threshold) => Some(Rotating(guardians, threshold))
    case Propose(programId, hashHex, proposer) => Some(Proposing(ProposeGate(programId, hashHex, proposer)))
    case Approve(id, guardian) => Some(Approving(ApproveGate(id, guardian)))
    case Execute(id) => Some(Executing(ExecuteGate(id)))
    case Cancel(id) => Some(Cancelling(CancelFetch(id)))
    case RaiseFinding(_, _, _, _, _) => None
  }

  function Go(s: EngineState, pc: Pc): Move {
    Move(s.config, s.votes, None, None, Goto(pc))
  }

  function Fail(s: EngineState, error: EngineError): Move {
    Move(s.config, s.votes, None, None, Return(Err(error)))
  }

  function Put(s: EngineState, record: ProposalRecord, pc: Pc): Move {
    Move(s.config, s.votes, Some(record), None, Goto(pc))
  }

  function Announce(s: EngineState, event: DomainEvent, reply: Reply): Move {
    Move(s.config, s.votes, None, Some(event), Return(Ok(reply)))
  }

  function ProposeCut(s: EngineState, now: i64, pc: ProposePc): Move {
    match pc
    case ProposeGate(programId, hashHex, proposer) =>
      if s.config.paused then Fail(s, Domain(Paused))
      else (match FromHex(hashHex)
        case Err(e) => Fail(s, Domain(e))
        case Ok(hash) => Go(s, Proposing(ProposeRead(programId, hash, proposer))))
    case ProposeRead(programId, hash, proposer) =>
      // one read lock covers the guardian check, the clock and the id
      if proposer != s.config.authority && !s.config.IsGuardian(proposer) then Fail(s, Domain(NotGuardian))
      else (match ComputeEta(now, s.config.timelockSeconds)
        case Err(e) => Fail(s, Domain(e))
        case Ok(eta) => Go(s, Proposing(ProposeStamp(NewRecord(s.config, programId, hash, proposer, eta, 0)))))
    case ProposeStamp(draft) => Go(s, Proposing(ProposeStore(draft.(createdAt := now))))
    case ProposeStore(record) => Put(s, record, Proposing(ProposeCount(record)))
    case ProposeCount(record) =>
      (match CheckedIncU64(s.config.proposalCount)
       case None => Fail(s, Domain(Overflow))
       case Some(count) =>
         Move(s.config.(proposalCount := count), s.votes, None, None, Goto(Proposing(ProposePublish(record)))))
    case ProposePublish(record) => Announce(s, ProposalCreated(record.id, record.programId), Proposal(record))
  }

  /** What approve, execute and cancel do with the record they fetch. */
  function Fetch(s: EngineState, id: u64): Result<ProposalRecord, EngineError> {
    if id !in s.proposals then Err(NotFound(id))
    else if s.proposals[id].status.Final() then Err(Domain(AlreadyFinalized))
    else Ok(s.proposals[id])
  }

  function ApproveCut(s: EngineState, pc: ApprovePc): Move {
    match pc
    case ApproveGate(id, guardian) =>
      if s.config.paused then Fail(s, Domain(Paused)) else Go(s, Approving(ApproveMember(id, guardian)))
    case ApproveMember(id, guardian) =>
      if !s.config.IsGuardian(guardian) then Fail(s, Domain(NotGuardian))
      else Go(s, Approving(ApproveFetch(id, guardian)))
    case ApproveFetch(id, guardian) =>
      (match Fetch(s, id)
       case Err(e) => Fail(s, e)
       case Ok(record) => Go(s, Approving(ApproveVote(id, guardian, record))))
    case ApproveVote(id, guardian, record) =>
      // the write lock on the voter map covers the insert and the count
      if guardian in VotersOf(s.votes, id) then Fail(s, Domain(DuplicateApproval))
      else
        var voters := VotersOf(s.votes, id) + {guardian};
        Move(s.config, s.votes[id := voters], None, None, Goto(Approving(ApproveStore(id, Tallied(record, voters)))))
    case ApproveStore(id, record) => Put(s, record, Approving(ApprovePublish(id, record)))
    case ApprovePublish(id, record) => Announce(s, ProposalApproved(id, record.approvals), Proposal(record))
  }

  function ExecuteCut(s: EngineState, now: i64, pc: ExecutePc): Move {
    match pc
    case ExecuteGate(id) =>
      if s.config.paused then Fail(s, Domain(Paused)) else Go(s, Executing(ExecuteFetch(id)))
    case ExecuteFetch(id) =>
      (match Fetch(s, id)
       case Err(e) => Fail(s, e)
       case Ok(record) => Go(s, Executing(ExecuteCheck(id, record))))
    case ExecuteCheck(id, record) =>
      (match CanExecute(now, record.eta, record.approvals, record.threshold)
       case Err(e) => Fail(s, Domain(e))
       case Ok(_) => Go(s, Executing(ExecuteStore(id, record.(status := Executed)))))
    case ExecuteStore(id, record) => Put(s, record, Executing(ExecutePublish(id, record)))
    case ExecutePublish(id, record) => Announce(s, ProposalExecuted(id), Proposal(record))
  }

  function CancelCut(s: EngineState, pc: CancelPc): Move {
    match pc
    case CancelFetch(id) =>
      (match Fetch(s, id)
       case Err(e) => Fail(s, e)
       case Ok(record) => Go(s, Cancelling(CancelStore(id, record.(status := Cancelled)))))
    case CancelStore(id, record) => Put(s, record, Cancelling(CancelPublish(id, record)))
    case CancelPublish(id, record) => Announce(s, ProposalCancelled(id), Proposal(record))
  }

  function PauseCut(s: EngineState, pc: PausePc): Move {
    match pc
    case PauseWrite(paused) =>
      Move(s.config.(paused := paused), s.votes, None, None, Goto(Pausing(PausePublish(paused))))
    case PausePublish(paused) => Announce(s, PauseChanged(paused), Done)
  }

  ghost function RotateCut(s: EngineState, guardians: seq<Key>, threshold: u8): Move {
    match Fault(guardians, threshold)
    case Some(fault) => Fail(s, Domain(Explain(fault, threshold, |guardians|)))
    case None =>
      Move(s.config.(guardians := guardians, threshold := threshold), s.votes, None, None, Return(Ok(Done)))
  }

  /** What a call in flight does up to its next cut. */
  ghost function Cut(s: EngineState, now: i64, pc: Pc): Move {
    match pc
    case Pausing(u) => PauseCut(s, u)
    case Rotating(guardians, threshold) => RotateCut(s, guardians, threshold)
    case Proposing(p) => ProposeCut(s, now, p)
    case Approving(a) => ApproveCut(s, a)
    case Executing(e) => ExecuteCut(s, now, e)
    case Cancelling(c) => CancelCut(s, c)
  }

  /** The shared state after a move. */
  function Moved(s: EngineState, m: Move): EngineState {
    s.(config := m.config, votes := m.votes, proposals := Stored(s.proposals, m.write),
       events := Published(s.events, m.event))
  }

  function Land(w: World, caller: nat, m: Move): World {
    match m.course
    case Goto(pc) => World(Moved(w.core, m), w.now, w.flight[caller := pc], w.answers)
    case Return(answer) => World(Moved(w.core, m), w.now, w.flight - {caller}, w.answers[caller := answer])
  }

  /** One scheduler action; an action that does not apply changes nothing. */
  ghost function Next(w: World, a: Action): World {
    match a
    case Start(caller, call) =>
      if caller in w.flight || Entry(call).None? then w else w.(flight := w.flight[caller := Entry(call).value])
    case Advance(caller) =>
      if caller in w.flight then Land(w, caller, Cut(w.core, w.now, w.flight[caller])) else w
    case Drop(caller) => w.(flight := w.flight - {caller})
    case Tick(now) => w.(now := now)
  }

  function Boot(config: GovernanceConfig): World {
    World(Fresh(config), 0, map[], map[])
  }

  /** The world after the first `k` actions of a run. */
  ghost function WorldAt(config: GovernanceConfig, run: seq<Action>, k: nat): World
    requires k <= |run|
  {
    if k == 0 then Boot(config) else Next(WorldAt(config, run, k - 1), run[k - 1])
  }
}
