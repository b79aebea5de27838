/** Which calls the engine refuses, and with which error. */
module EngineRefusals {
  import opened Machine
  import opened GovernanceRules
  import opened BuildHashes
  import opened Domain
  import opened EngineSpec

  /** Why a text is no build hash. */
  ghost function HashRefusal(text: string): Option<SecureError> {
    if !(|text| % 2 == 0 && IsBase16(text)) then Some(InvalidLength(64, Utf8Length(text)))
    else if |text| != 64 then Some(InvalidLength(32, |text| / 2))
    else if forall i :: 0 <= i < |text| ==> text[i] == '0' then Some(EmptyBuildHash)
    else None
  }

  /** Why a guardian set is no council. */
  ghost function CouncilRefusal(guardians: seq<Key>, threshold: u8): Option<SecureError> {
    if |guardians| == 0 then Some(EmptyGuardianSet)
    else if |guardians| > 16 then Some(TooManyGuardians(16))
    else if !Distinct(guardians) then Some(DuplicateGuardian)
    else if !(1 <= threshold <= |guardians|) then Some(InvalidThreshold(threshold, |guardians|))
    else None
  }

  ghost function ProposeRefusal(s: EngineState, call: Call, now: i64): Option<EngineError>
    requires call.Propose?
  {
    if s.config.paused then Some(Domain(Paused))
    else if HashRefusal(call.hashHex).Some? then Some(Domain(HashRefusal(call.hashHex).value))
    else if call.proposer != s.config.authority && call.proposer !in s.config.guardians then Some(Domain(NotGuardian))
    else if !(I64_MIN <= now + s.config.timelockSeconds <= I64_MAX) || s.config.proposalCount == U64_MAX then
      Some(Domain(Overflow))
    else None
  }

  ghost function ApproveRefusal(s: EngineState, id: u64, guardian: Key): Option<EngineError> {
    if s.config.paused then Some(Domain(Paused))
    else if guardian !in s.config.guardians then Some(Domain(NotGuardian))
    else if id !in s.proposals then Some(NotFound(id))
    else if s.proposals[id].status.Executed? || s.proposals[id].status.Cancelled? then Some(Domain(AlreadyFinalized))
    else if id in s.votes && guardian in s.votes[id] then Some(Domain(DuplicateApproval))
    else None
  }

  /** A timelock that has not elapsed is reported with the wait as an i64. */
  ghost function ExecuteRefusal(s: EngineState, id: u64, now: i64): Option<EngineError> {
    if s.config.paused then Some(Domain(Paused))
    else if id !in s.proposals then Some(NotFound(id))
    else
      var r := s.proposals[id];
      if r.status.Executed? || r.status.Cancelled? then Some(Domain(AlreadyFinalized))
      else if r.approvals < r.threshold then Some(Domain(ThresholdNotMet(r.approvals, r.threshold)))
      else if now < r.eta then Some(Domain(TimelockActive(WrappingSub(r.eta, now))))
      else None
  }

  ghost function CancelRefusal(s: EngineState, id: u64): Option<EngineError> {
    if id !in s.proposals then Some(NotFound(id))
    else if s.proposals[id].status.Executed? || s.proposals[id].status.Cancelled? then Some(Domain(AlreadyFinalized))
    else None
  }

  ghost function Refusal(s: EngineState, req: Request): Option<EngineError> {
    match req.call
    case SetPaused(_) => None
    case SetGuardians(guardians, threshold) =>
      if CouncilRefusal(guardians, threshold).Some? then Some(Domain(CouncilRefusal(guardians, threshold).value))
      else None
    case Propose(_, _, _) => ProposeRefusal(s, req.call, req.now)
    case Approve(id, guardian) => ApproveRefusal(s, id, guardian)
    case Execute(id) => ExecuteRefusal(s, id, req.now)
    case Cancel(id) => CancelRefusal(s, id)
    case RaiseFinding(finding, _, _, _, _) => if finding in s.findings then Some(Store(finding)) else None
  }

  /** The answer is the refusal there is reason for, or else not an error. */
  ghost predicate Answers(reply: Result<Reply, EngineError>, refusal: Option<EngineError>) {
    match refusal
    case Some(e) => reply == Err(e)
    case None => reply.Ok?
  }

  lemma HashAnswers(text: string)
    ensures FromHex(text).Ok? <==> HashRefusal(text).None?
    ensures FromHex(text).Err? ==> HashRefusal(text) == Some(FromHex(text).error)
  {
    FromHexRefusals(text);
    FromHexAcceptsExactly(text);
  }

  lemma CouncilAnswers(guardians: seq<Key>, threshold: u8)
    ensures Fault(guardians, threshold).None? <==> CouncilRefusal(guardians, threshold).None?
    ensures Fault(guardians, threshold).Some? ==>
              CouncilRefusal(guardians, threshold)
              == Some(Explain(Fault(guardians, threshold).value, threshold, |guardians|))
  {
  }

  lemma ProposeAnswers(s: EngineState, req: Request)
    requires req.call.Propose?
    ensures Answers(Step(s, req).reply, ProposeRefusal(s, req.call, req.now))
  {
    HashAnswers(req.call.hashHex);
  }

  lemma ApproveAnswers(s: EngineState, id: u64, guardian: Key)
    ensures Answers(ApproveEffect(s.config, s.votes, Lookup(s.proposals, id), id, guardian).reply,
                    ApproveRefusal(s, id, guardian))
  {
  }

  lemma ExecuteAnswers(s: EngineState, id: u64, now: i64)
    ensures Answers(ExecuteEffect(s.config, s.votes, Lookup(s.proposals, id), id, now).reply,
                    ExecuteRefusal(s, id, now))
  {
  }

  lemma CancelAnswers(s: EngineState, id: u64)
    ensures Answers(CancelEffect(s.config, s.votes, Lookup(s.proposals, id), id).reply, CancelRefusal(s, id))
  {
  }

  lemma AdminAnswers(s: EngineState, req: Request)
    requires req.call.SetPaused? || req.call.SetGuardians?
    ensures Answers(Step(s, req).reply, Refusal(s, req))
  {
    if req.call.SetGuardians? {
      CouncilAnswers(req.call.guardians, req.call.threshold);
    }
  }

  /** Every call is refused with exactly the error there is reason for, the first one
      in the order of the engine's checks, and accepted when there is none. */
  lemma RefusedExactly(s: EngineState, req: Request)
    ensures Answers(Step(s, req).reply, Refusal(s, req))
  {
    match req.call
    case SetPaused(_) => AdminAnswers(s, req);
    case SetGuardians(_, _) => AdminAnswers(s, req);
    case Propose(_, _, _) => ProposeAnswers(s, req);
    case Approve(id, guardian) => ApproveAnswers(s, id, guardian);
    case Execute(id) => ExecuteAnswers(s, id, req.now);
    case Cancel(id) => CancelAnswers(s, id);
    case RaiseFinding(_, _, _, _, _) =>
  }
}
