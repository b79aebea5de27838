/** Does the engine mirror the on-chain rules? A forward simulation between the
    one-at-a-time engine and the on-chain program, with the exact calls on which
    the two part ways. */
module Simulation {
  import opened Machine
  import opened GovernanceRules
  import opened BuildHashes
  import opened Domain
  import opened EngineSpec
  import Life = EngineLifecycle
  import Chain = OnChainSpec
  import Inv = ChainInvariant

  /** The transaction that puts an engine request on-chain: governance actions are
      signed by the authority, votes by the guardian. A finding, or a hash text
      that is not 32 bytes of base16, has no on-chain counterpart. */
  ghost function Translate(authority: Key, req: Request): Option<Chain.Tx> {
    match req.call
    case SetPaused(paused) => Some(Chain.Tx(authority, req.now, Chain.SetPaused(paused)))
    case SetGuardians(guardians, threshold) =>
      Some(Chain.Tx(authority, req.now, Chain.SetGuardians(guardians, threshold)))
    case Propose(programId, hashHex, proposer) =>
      var raw := HexDecode(hashHex);
      if raw.Some? && |raw.value| == 32 then
        Some(Chain.Tx(proposer, req.now, Chain.ProposeUpgrade(programId, raw.value)))
      else None
    case Approve(id, guardian) => Some(Chain.Tx(guardian, req.now, Chain.ApproveUpgrade(id)))
    case Execute(id) => Some(Chain.Tx(authority, req.now, Chain.ExecuteUpgrade(id)))
    case Cancel(id) => Some(Chain.Tx(authority, req.now, Chain.CancelProposal(id)))
    case RaiseFinding(_, _, _, _, _) => None
  }

  ghost predicate SameGovernance(config: GovernanceConfig, gov: Chain.Governance) {
    && gov.authority == config.authority
    && gov.guardians == config.guardians
    && gov.threshold == config.threshold
    && gov.timelockSeconds == config.timelockSeconds
    && gov.paused == config.paused
    && gov.proposalCount == config.proposalCount
  }

  ghost predicate SameProposal(r: ProposalRecord, p: Chain.Proposal) {
    && r.id == p.id
    && r.programId == p.programId
    && r.buildHash == HexEncode(p.buildHash)
    && r.proposer == p.proposer
    && r.eta == p.eta
    && r.approvals == p.approvals
    && (r.status.Executed? <==> p.executed)
    && (r.status.Cancelled? <==> p.cancelled)
  }

  ghost predicate RelatedAt(e: EngineState, c: Chain.ChainState, id: u64) {
    && (id in e.proposals <==> id in c.proposals)
    && (id in e.proposals ==> SameProposal(e.proposals[id], c.proposals[id]))
    && VotersOf(e.votes, id) == Chain.Voters(c.markers, id)
  }

  ghost predicate Related(e: EngineState, c: Chain.ChainState) {
    && c.gov.Some? && SameGovernance(e.config, c.gov.value)
    && forall id: u64 :: id < U64_MAX ==> RelatedAt(e, c, id)
  }

  /** Both sides in reachable, corresponding states. */
  ghost predicate Joined(e: EngineState, c: Chain.ChainState) {
    Related(e, c) && Life.Inv(e) && Inv.Inv(c)
  }

  // ---------- where the verdicts differ ----------

  ghost predicate LiveRecord(e: EngineState, id: u64) {
    !e.config.paused && id in e.proposals && !e.proposals[id].status.Final()
  }

  /** The 256th vote: the engine's counter wraps, the program's overflows. */
  ghost predicate VoteWraps(e: EngineState, id: u64, guardian: Key) {
    && LiveRecord(e, id) && guardian in e.config.guardians
    && guardian !in VotersOf(e.votes, id) && |VotersOf(e.votes, id)| == U8_MAX
  }

  /** The counter lies between the pinned and the current threshold. */
  ghost predicate ThresholdsSplit(e: EngineState, id: u64, now: i64) {
    && LiveRecord(e, id) && now >= e.proposals[id].eta
    && (e.proposals[id].approvals >= e.proposals[id].threshold) != (e.proposals[id].approvals >= e.config.threshold)
  }

  /** The calls after which the two sides are no longer in step. */
  ghost predicate Diverges(e: EngineState, req: Request) {
    match req.call
    case Approve(id, guardian) => VoteWraps(e, id, guardian)
    case Execute(id) => ThresholdsSplit(e, id, req.now)
    case _ => false
  }

  /** A repeated cancel: refused by the engine, a successful no-op on-chain. */
  ghost predicate RepeatsCancel(e: EngineState, req: Request) {
    req.call.Cancel? && req.call.id in e.proposals && e.proposals[req.call.id].status.Cancelled?
  }

  ghost predicate SmallId(call: Call) {
    Wanted(call).Some? ==> Wanted(call).value < U64_MAX
  }

  // ---------- one call ----------

  /** The engine's records and voters of every other proposal are untouched. */
  ghost predicate EngineElsewhere(e: EngineState, e': EngineState, id: u64) {
    forall i: u64 :: i != id && i < U64_MAX ==>
      Lookup(e'.proposals, i) == Lookup(e.proposals, i) && VotersOf(e'.votes, i) == VotersOf(e.votes, i)
  }

  /** So are the chain's accounts of every other proposal. */
  ghost predicate ChainElsewhere(c: Chain.ChainState, c': Chain.ChainState, id: u64) {
    forall i: u64 :: i != id && i < U64_MAX ==>
      && Lookup(c'.proposals, i) == Lookup(c.proposals, i)
      && Chain.Voters(c'.markers, i) == Chain.Voters(c.markers, i)
  }

  lemma OthersRelated(e: EngineState, c: Chain.ChainState, e': EngineState, c': Chain.ChainState, id: u64)
    requires Related(e, c)
    requires c'.gov.Some? && SameGovernance(e'.config, c'.gov.value)
    requires EngineElsewhere(e, e', id) && ChainElsewhere(c, c', id)
    requires id < U64_MAX ==> RelatedAt(e', c', id)
    ensures Related(e', c')
  {
    forall i: u64 | i < U64_MAX
      ensures RelatedAt(e', c', i)
    {
      assert RelatedAt(e, c, i);
      if i != id {
        assert i in e.proposals <==> Lookup(e.proposals, i).Some?;
        assert i in e'.proposals <==> Lookup(e'.proposals, i).Some?;
        assert i in c.proposals <==> Lookup(c.proposals, i).Some?;
        assert i in c'.proposals <==> Lookup(c'.proposals, i).Some?;
      }
    }
  }

  /** The rules both sides apply to a proposal. */
  ghost predicate Proposable(config: GovernanceConfig, raw: Bytes32, proposer: Key, now: i64) {
    && !config.paused
    && raw != ZERO_HASH
    && (proposer == config.authority || proposer in config.guardians)
    && I64_MIN <= now + config.timelockSeconds <= I64_MAX
    && config.proposalCount < U64_MAX
  }

  lemma EngineProposes(config: GovernanceConfig, votes: Votes, programId: string, hashHex: string, raw: Bytes32,
                       proposer: Key, now: i64, later: i64)
    requires HexDecode(hashHex) == Some(raw)
    ensures var eff := ProposeEffect(config, votes, programId, hashHex, proposer, now, later);
            && eff.votes == votes
            && (eff.reply.Ok? <==> Proposable(config, raw, proposer, now))
            && (if eff.reply.Ok? then
                  && eff.config == config.(proposalCount := config.proposalCount + 1)
                  && eff.write == Some(NewRecord(config, programId, raw, proposer, now + config.timelockSeconds, later))
                else
                  eff.config == config && (eff.write.Some? ==> eff.write.value.id == U64_MAX))
  {
    assert FromHex(hashHex) == FromBytes(raw);
  }

  lemma ProgramProposes(config: GovernanceConfig, c: Chain.ChainState, programId: string, raw: Bytes32,
                        proposer: Key, now: i64)
    requires c.gov.Some? && SameGovernance(config, c.gov.value) && config.proposalCount !in c.proposals
    ensures var r := Chain.ProposeIx(c, proposer, now, programId, raw);
            && (r.result.Ok? <==> Proposable(config, raw, proposer, now))
            && (if r.result.Ok? then
                  var p := Chain.Proposal(config.proposalCount, programId, raw, proposer,
                                          now + config.timelockSeconds, 0, false, false);
                  && r.state.markers == c.markers && r.state.proposals == c.proposals[config.proposalCount := p]
                  && r.state.gov == Some(c.gov.value.(proposalCount := config.proposalCount + 1))
                else
                  r.state == c)
  {
  }

  lemma ProposeSimulated(e: EngineState, c: Chain.ChainState, eff: Effect, c': Chain.ChainState, id: u64)
    requires Joined(e, c)
    requires c'.gov.Some? && SameGovernance(eff.config, c'.gov.value)
    requires eff.votes == e.votes && c'.markers == c.markers
    requires eff.write.Some? && eff.write.value.id == id && id == e.config.proposalCount
    requires id in c'.proposals && c'.proposals == c.proposals[id := c'.proposals[id]]
    requires SameProposal(eff.write.value, c'.proposals[id])
    ensures Related(Apply(e, eff).state, c')
  {
    var e' := Apply(e, eff).state;
    if id < U64_MAX {
      assert RelatedAt(e, c, id);
    }
    OthersRelated(e, c, e', c', id);
  }

  /** What both sides know of a proposal a guardian is about to approve. */
  ghost predicate SamePosition(e: EngineState, c: Chain.ChainState, id: u64, guardian: Key) {
    && c.gov.Some? && SameGovernance(e.config, c.gov.value)
    && (id in e.proposals <==> id in c.proposals)
    && (id in e.proposals ==>
          && (e.proposals[id].status.Final() <==> c.proposals[id].executed || c.proposals[id].cancelled)
          && c.proposals[id].approvals == |VotersOf(e.votes, id)|)
    && (guardian in VotersOf(e.votes, id) <==> Chain.Seeds(id, guardian) in c.markers)
  }

  lemma ApprovePosition(e: EngineState, c: Chain.ChainState, id: u64, guardian: Key)
    requires Joined(e, c) && id < U64_MAX
    ensures SamePosition(e, c, id, guardian)
  {
    assert RelatedAt(e, c, id);
    Inv.InVoters(c.markers, id);
    if id in e.proposals {
      assert Inv.Sound(c, id);
    }
  }

  lemma VerdictFromPosition(e: EngineState, c: Chain.ChainState, id: u64, guardian: Key)
    requires SamePosition(e, c, id, guardian)
    ensures var eff := ApproveEffect(e.config, e.votes, Lookup(e.proposals, id), id, guardian);
            var r := Chain.ApproveIx(c, guardian, id);
            (eff.reply.Ok? <==> r.result.Ok?) <==> !VoteWraps(e, id, guardian)
  {
  }

  /** Approve is accepted by both or by neither, except at the 256th vote. */
  lemma ApproveVerdict(e: EngineState, c: Chain.ChainState, id: u64, guardian: Key)
    requires Joined(e, c) && id < U64_MAX
    ensures var eff := ApproveEffect(e.config, e.votes, Lookup(e.proposals, id), id, guardian);
            var r := Chain.ApproveIx(c, guardian, id);
            (eff.reply.Ok? <==> r.result.Ok?) <==> !VoteWraps(e, id, guardian)
    ensures id in e.proposals ==> id in c.proposals && c.proposals[id].approvals == |VotersOf(e.votes, id)|
    ensures guardian in VotersOf(e.votes, id) <==> Chain.Seeds(id, guardian) in c.markers
  {
    ApprovePosition(e, c, id, guardian);
    VerdictFromPosition(e, c, id, guardian);
  }

  lemma ApproveSimulated(e: EngineState, c: Chain.ChainState, id: u64, guardian: Key)
    requires Joined(e, c) && id < U64_MAX && !VoteWraps(e, id, guardian)
    ensures var eff := ApproveEffect(e.config, e.votes, Lookup(e.proposals, id), id, guardian);
            Related(Apply(e, eff).state, Chain.ApproveIx(c, guardian, id).state)
  {
    var eff := ApproveEffect(e.config, e.votes, Lookup(e.proposals, id), id, guardian);
    ApproveVerdict(e, c, id, guardian);
    ApproveOutcomes(e, c, id, guardian);
    if eff.reply.Ok? {
      VoteSimulated(e, c, Apply(e, eff).state, Chain.ApproveIx(c, guardian, id).state, id, guardian);
    }
  }

  /** Guardian `guardian` voted: the engine's record and voter set. */
  ghost predicate EngineVoted(e: EngineState, e': EngineState, id: u64, guardian: Key) {
    && id in e.proposals && !e.proposals[id].status.Final() && guardian !in VotersOf(e.votes, id)
    && var voters := VotersOf(e.votes, id) + {guardian};
    && var record := Tallied(e.proposals[id], voters);
    && e'.config == e.config && e'.votes == e.votes[id := voters]
    && e'.proposals == e.proposals[record.id := record]
  }

  /** .. and the program's counter and marker. */
  ghost predicate ChainVoted(c: Chain.ChainState, c': Chain.ChainState, id: u64, guardian: Key) {
    && id in c.proposals && c.proposals[id].approvals < U8_MAX && Chain.Seeds(id, guardian) !in c.markers
    && c' == c.(proposals := c.proposals[id := c.proposals[id].(approvals := c.proposals[id].approvals + 1)],
                markers := c.markers[Chain.Seeds(id, guardian) := Chain.Approval(id, guardian)])
  }

  lemma ApproveOutcomes(e: EngineState, c: Chain.ChainState, id: u64, guardian: Key)
    ensures var eff := ApproveEffect(e.config, e.votes, Lookup(e.proposals, id), id, guardian);
            if eff.reply.Ok? then EngineVoted(e, Apply(e, eff).state, id, guardian) else Apply(e, eff).state == e
    ensures var r := Chain.ApproveIx(c, guardian, id);
            if r.result.Ok? then ChainVoted(c, r.state, id, guardian) else r.state == c
  {
  }

  lemma EngineVotedElsewhere(e: EngineState, e': EngineState, id: u64, guardian: Key)
    requires EngineVoted(e, e', id, guardian) && e.proposals[id].id == id
    ensures EngineElsewhere(e, e', id)
  {
  }

  lemma ChainVotedElsewhere(c: Chain.ChainState, c': Chain.ChainState, id: u64, guardian: Key)
    requires ChainVoted(c, c', id, guardian)
    ensures ChainElsewhere(c, c', id)
    ensures Chain.Voters(c'.markers, id) == Chain.Voters(c.markers, id) + {guardian}
  {
    OtherVoters(c, id, guardian);
  }

  lemma VoteRelated(e: EngineState, c: Chain.ChainState, e': EngineState, c': Chain.ChainState, id: u64, guardian: Key)
    requires RelatedAt(e, c, id) && EngineVoted(e, e', id, guardian) && ChainVoted(c, c', id, guardian)
    requires e.proposals[id].id == id && |VotersOf(e.votes, id)| == c.proposals[id].approvals
    ensures RelatedAt(e', c', id)
  {
    ChainVotedElsewhere(c, c', id, guardian);
    assert |VotersOf(e.votes, id) + {guardian}| == |VotersOf(e.votes, id)| + 1;
  }

  lemma VoteSimulated(e: EngineState, c: Chain.ChainState, e': EngineState, c': Chain.ChainState, id: u64,
                      guardian: Key)
    requires Joined(e, c) && id < U64_MAX && EngineVoted(e, e', id, guardian) && ChainVoted(c, c', id, guardian)
    requires |VotersOf(e.votes, id)| == c.proposals[id].approvals
    ensures Related(e', c')
  {
    assert RelatedAt(e, c, id) && e.proposals[id].id == id;
    EngineVotedElsewhere(e, e', id, guardian);
    ChainVotedElsewhere(c, c', id, guardian);
    VoteRelated(e, c, e', c', id, guardian);
    OthersRelated(e, c, e', c', id);
  }

  lemma OtherVoters(c: Chain.ChainState, id: u64, guardian: Key)
    requires Chain.Seeds(id, guardian) !in c.markers
    ensures var after := c.markers[Chain.Seeds(id, guardian) := Chain.Approval(id, guardian)];
            && Chain.Voters(after, id) == Chain.Voters(c.markers, id) + {guardian}
            && forall i: u64 :: i != id ==> Chain.Voters(after, i) == Chain.Voters(c.markers, i)
  {
    forall i: u64
      ensures var after := c.markers[Chain.Seeds(id, guardian) := Chain.Approval(id, guardian)];
              Chain.Voters(after, i)
              == if i == id then Chain.Voters(c.markers, i) + {guardian} else Chain.Voters(c.markers, i)
    {
      Inv.VotersOfNewMarker(c.markers, Chain.Seeds(id, guardian), Chain.Approval(id, guardian), i);
    }
  }

  /** After the 256th vote the two sides disagree on who voted. */
  lemma WrapSeparates(e: EngineState, c: Chain.ChainState, id: u64, guardian: Key)
    requires Joined(e, c) && id < U64_MAX && VoteWraps(e, id, guardian)
    ensures var eff := ApproveEffect(e.config, e.votes, Lookup(e.proposals, id), id, guardian);
            !RelatedAt(Apply(e, eff).state, Chain.ApproveIx(c, guardian, id).state, id)
  {
    ApproveVerdict(e, c, id, guardian);
    Inv.InVoters(c.markers, id);
  }

  /** Execute is accepted by both or by neither, except when the counter lies
      between the pinned threshold and the current one. */
  lemma ExecuteVerdict(e: EngineState, c: Chain.ChainState, id: u64, now: i64)
    requires Joined(e, c) && id < U64_MAX
    ensures var eff := ExecuteEffect(e.config, e.votes, Lookup(e.proposals, id), id, now);
            var r := Chain.ExecuteIx(c, now, id);
            (eff.reply.Ok? <==> r.result.Ok?) <==> !ThresholdsSplit(e, id, now)
  {
    assert RelatedAt(e, c, id);
  }

  /** .. and the two sides correspond afterwards except in that case. */
  lemma ExecuteSimulated(e: EngineState, c: Chain.ChainState, id: u64, now: i64)
    requires Joined(e, c) && id < U64_MAX
    ensures var eff := ExecuteEffect(e.config, e.votes, Lookup(e.proposals, id), id, now);
            var r := Chain.ExecuteIx(c, now, id);
            && (ThresholdsSplit(e, id, now) ==> !RelatedAt(Apply(e, eff).state, r.state, id))
            && (!ThresholdsSplit(e, id, now) ==> Related(Apply(e, eff).state, r.state))
  {
    var eff := ExecuteEffect(e.config, e.votes, Lookup(e.proposals, id), id, now);
    var r := Chain.ExecuteIx(c, now, id);
    ExecuteVerdict(e, c, id, now);
    assert RelatedAt(e, c, id);
    if eff.reply.Ok? && r.result.Ok? {
      CloseSimulated(e, c, eff, r.state, id);
    }
  }

  /** Cancel, signed by the authority, is accepted by both or by neither, except
      that repeating it succeeds on-chain; both sides stay in step regardless. */
  lemma CancelVerdict(e: EngineState, c: Chain.ChainState, id: u64)
    requires Joined(e, c) && id < U64_MAX
    ensures var eff := CancelEffect(e.config, e.votes, Lookup(e.proposals, id), id);
            var r := Chain.CancelIx(c, e.config.authority, id);
            && ((eff.reply.Ok? <==> r.result.Ok?) <==> !(id in e.proposals && e.proposals[id].status.Cancelled?))
            && Related(Apply(e, eff).state, r.state)
  {
    var eff := CancelEffect(e.config, e.votes, Lookup(e.proposals, id), id);
    var r := Chain.CancelIx(c, e.config.authority, id);
    assert RelatedAt(e, c, id);
    if eff.reply.Ok? {
      CloseSimulated(e, c, eff, r.state, id);
    } else if r.result.Ok? {
      assert r.state == c by {
        assert c.proposals[id := c.proposals[id].(cancelled := true)] == c.proposals;
      }
    }
  }

  lemma CloseSimulated(e: EngineState, c: Chain.ChainState, eff: Effect, c': Chain.ChainState, id: u64)
    requires Joined(e, c) && id < U64_MAX && id in e.proposals && id in c.proposals
    requires eff.config == e.config && eff.votes == e.votes && c' == c.(proposals := c'.proposals)
    requires eff.write.Some? && eff.write.value.id == id
    requires id in c'.proposals && c'.proposals == c.proposals[id := c'.proposals[id]]
    requires SameProposal(eff.write.value, c'.proposals[id])
    ensures Related(Apply(e, eff).state, c')
  {
    assert RelatedAt(e, c, id);
    OthersRelated(e, c, Apply(e, eff).state, c', id);
  }

  /** What pausing and rotating do on each side: the governance changes alike. */
  lemma AdminOutcomes(e: EngineState, c: Chain.ChainState, req: Request)
    requires c.gov.Some? && SameGovernance(e.config, c.gov.value) && (req.call.SetPaused? || req.call.SetGuardians?)
    ensures var e', r := Step(e, req).state, Chain.Process(c, Translate(e.config.authority, req).value);
            && (Step(e, req).reply.Ok? <==> r.result.Ok?)
            && e'.proposals == e.proposals && e'.votes == e.votes
            && r.state == c.(gov := r.state.gov) && r.state.gov.Some?
            && SameGovernance(e'.config, r.state.gov.value)
  {
  }

  /** Pausing and rotating guardians: same verdict, same governance afterwards. */
  lemma AdminSimulated(e: EngineState, c: Chain.ChainState, req: Request)
    requires Joined(e, c) && (req.call.SetPaused? || req.call.SetGuardians?)
    ensures SameVerdict(e, c, req) && StillRelated(e, c, req)
  {
    AdminOutcomes(e, c, req);
    GovernanceOnly(e, c, Step(e, req).state, Chain.Process(c, Translate(e.config.authority, req).value).state);
  }

  /** A change that leaves proposals, votes and markers alone. */
  lemma GovernanceOnly(e: EngineState, c: Chain.ChainState, e': EngineState, c': Chain.ChainState)
    requires Related(e, c) && c'.gov.Some? && SameGovernance(e'.config, c'.gov.value)
    requires e'.proposals == e.proposals && e'.votes == e.votes && c' == c.(gov := c'.gov)
    ensures Related(e', c')
  {
    OthersRelated(e, c, e', c', U64_MAX);
  }

  ghost predicate SameVerdict(e: EngineState, c: Chain.ChainState, req: Request)
    requires Translate(e.config.authority, req).Some?
  {
    Step(e, req).reply.Ok? <==> Chain.Process(c, Translate(e.config.authority, req).value).result.Ok?
  }

  ghost predicate StillRelated(e: EngineState, c: Chain.ChainState, req: Request)
    requires Translate(e.config.authority, req).Some?
  {
    Related(Step(e, req).state, Chain.Process(c, Translate(e.config.authority, req).value).state)
  }

  lemma ProposeRefused(e: EngineState, c: Chain.ChainState, eff: Effect)
    requires Joined(e, c) && eff.config == e.config && eff.votes == e.votes
    requires eff.write.Some? ==> eff.write.value.id == U64_MAX
    ensures Related(Apply(e, eff).state, c)
  {
    OthersRelated(e, c, Apply(e, eff).state, c, U64_MAX);
  }

  lemma ProposePair(e: EngineState, c: Chain.ChainState, programId: string, hashHex: string, raw: Bytes32,
                    proposer: Key, now: i64, later: i64)
    requires Joined(e, c) && HexDecode(hashHex) == Some(raw)
    ensures var eff := ProposeEffect(e.config, e.votes, programId, hashHex, proposer, now, later);
            var r := Chain.ProposeIx(c, proposer, now, programId, raw);
            (eff.reply.Ok? <==> r.result.Ok?) && Related(Apply(e, eff).state, r.state)
  {
    var eff := ProposeEffect(e.config, e.votes, programId, hashHex, proposer, now, later);
    var r := Chain.ProposeIx(c, proposer, now, programId, raw);
    EngineProposes(e.config, e.votes, programId, hashHex, raw, proposer, now, later);
    ProgramProposes(e.config, c, programId, raw, proposer, now);
    if r.result.Ok? {
      ProposeSimulated(e, c, eff, r.state, e.config.proposalCount);
    } else {
      ProposeRefused(e, c, eff);
    }
  }

  lemma ProposeCall(e: EngineState, c: Chain.ChainState, req: Request)
    requires Joined(e, c) && req.call.Propose? && Translate(e.config.authority, req).Some?
    ensures SameVerdict(e, c, req) && StillRelated(e, c, req)
  {
    var call := req.call;
    ProposePair(e, c, call.programId, call.hashHex, HexDecode(call.hashHex).value, call.proposer, req.now, req.later);
  }

  lemma ApproveCallVerdict(e: EngineState, c: Chain.ChainState, req: Request)
    requires Joined(e, c) && req.call.Approve? && req.call.id < U64_MAX
    ensures SameVerdict(e, c, req) <==> !Diverges(e, req)
  {
    ApproveVerdict(e, c, req.call.id, req.call.guardian);
  }

  lemma ApproveCallState(e: EngineState, c: Chain.ChainState, req: Request)
    requires Joined(e, c) && req.call.Approve? && req.call.id < U64_MAX
    ensures StillRelated(e, c, req) <==> !Diverges(e, req)
  {
    if Diverges(e, req) {
      WrapSeparates(e, c, req.call.id, req.call.guardian);
    } else {
      ApproveSimulated(e, c, req.call.id, req.call.guardian);
    }
  }

  lemma ExecuteCallVerdict(e: EngineState, c: Chain.ChainState, req: Request)
    requires Joined(e, c) && req.call.Execute? && req.call.id < U64_MAX
    ensures SameVerdict(e, c, req) <==> !Diverges(e, req)
  {
    ExecuteVerdict(e, c, req.call.id, req.now);
  }

  lemma ExecuteCallState(e: EngineState, c: Chain.ChainState, req: Request)
    requires Joined(e, c) && req.call.Execute? && req.call.id < U64_MAX
    ensures StillRelated(e, c, req) <==> !Diverges(e, req)
  {
    ExecuteSimulated(e, c, req.call.id, req.now);
  }

  lemma CancelCall(e: EngineState, c: Chain.ChainState, req: Request)
    requires Joined(e, c) && req.call.Cancel? && req.call.id < U64_MAX
    ensures SameVerdict(e, c, req) <==> !RepeatsCancel(e, req)
    ensures StillRelated(e, c, req)
  {
    CancelVerdict(e, c, req.call.id);
  }

  /** One call from corresponding states, exactly: the verdicts are equal if and
      only if the call neither diverges nor repeats a cancel, and the states
      correspond again if and only if it does not diverge. */
  lemma CallSimulated(e: EngineState, c: Chain.ChainState, req: Request)
    requires Joined(e, c) && SmallId(req.call) && Translate(e.config.authority, req).Some?
    ensures SameVerdict(e, c, req) <==> !Diverges(e, req) && !RepeatsCancel(e, req)
    ensures StillRelated(e, c, req) <==> !Diverges(e, req)
  {
    match req.call
    case SetPaused(_) => AdminSimulated(e, c, req);
    case SetGuardians(_, _) => AdminSimulated(e, c, req);
    case Propose(_, _, _) => ProposeCall(e, c, req);
    case Approve(_, _) =>
      ApproveCallVerdict(e, c, req);
      ApproveCallState(e, c, req);
    case Execute(_) =>
      ExecuteCallVerdict(e, c, req);
      ExecuteCallState(e, c, req);
    case Cancel(_) => CancelCall(e, c, req);
  }

  // ---------- whole runs ----------

  /** The on-chain history of the first `k` requests: initialize, then whatever
      each request translates to. */
  ghost function History(config: GovernanceConfig, run: seq<Request>, k: nat): seq<Chain.Tx>
    requires k <= |run|
  {
    if k == 0 then
      [Chain.Tx(config.authority, 0, Chain.Initialize(config.guardians, config.threshold, config.timelockSeconds))]
    else
      var tx := Translate(config.authority, run[k - 1]);
      History(config, run, k - 1) + if tx.Some? then [tx.value] else []
  }

  ghost function Mirror(config: GovernanceConfig, run: seq<Request>, k: nat): Chain.ChainState
    requires k <= |run|
  {
    Chain.ChainAt(History(config, run, k), |History(config, run, k)|)
  }

  lemma MirrorStep(config: GovernanceConfig, run: seq<Request>, k: nat)
    requires k < |run|
    ensures var tx := Translate(config.authority, run[k]);
            Mirror(config, run, k + 1) ==
            if tx.Some? then Chain.Process(Mirror(config, run, k), tx.value).state else Mirror(config, run, k)
  {
    var tx := Translate(config.authority, run[k]);
    if tx.Some? {
      Chain.Extend(Chain.GENESIS, History(config, run, k), tx.value);
    } else {
      assert History(config, run, k + 1) == History(config, run, k);
    }
  }

  lemma DecideKeepsAuthority(config: GovernanceConfig, votes: Votes, found: Option<ProposalRecord>, req: Request)
    requires !req.call.RaiseFinding?
    ensures Decide(config, votes, found, req).config.authority == config.authority
  {
  }

  lemma StepKeepsAuthority(e: EngineState, req: Request)
    ensures Step(e, req).state.config.authority == e.config.authority
  {
    if !req.call.RaiseFinding? {
      DecideKeepsAuthority(e.config, e.votes, Found(e.proposals, req.call), req);
    }
  }

  /** A request without on-chain counterpart changes nothing the chain shows. */
  lemma UntranslatedKeeps(e: EngineState, c: Chain.ChainState, req: Request)
    requires Joined(e, c) && Translate(e.config.authority, req).None?
    ensures Related(Step(e, req).state, c)
    ensures req.call.Propose? ==> Step(e, req).reply.Err?
  {
    OthersRelated(e, c, Step(e, req).state, c, U64_MAX);
  }

  /** Initialize demands one thing more than the engine's constructor: a timelock
      that is not negative. */
  lemma InitializeVerdict(config: GovernanceConfig, now: i64)
    ensures Chain.Process(Chain.GENESIS, Chain.Tx(config.authority, now,
              Chain.Initialize(config.guardians, config.threshold, config.timelockSeconds))).result.Ok?
            <==> ValidConfig(config.guardians, config.threshold) && config.timelockSeconds >= 0
  {
  }

  lemma InitialStates(config: GovernanceConfig)
    requires Startable(config) && config.timelockSeconds >= 0
    ensures Joined(Fresh(config), Mirror(config, [], 0))
  {
    Life.RunInvariant(config, [], 0);
    var txs := History(config, [], 0);
    Inv.EveryStateSound(txs, 1);
    var c := Chain.ChainAt(txs, 1);
    assert Chain.ChainAt(txs, 0) == Chain.GENESIS;
    forall id: u64 | id < U64_MAX
      ensures RelatedAt(Fresh(config), c, id)
    {
      Inv.InVoters(c.markers, id);
      assert Chain.Voters(c.markers, id) == {};
    }
  }

  ghost predicate SmallIds(run: seq<Request>, k: nat)
    requires k <= |run|
  {
    forall j :: 0 <= j < k ==> SmallId(run[j].call)
  }

  ghost predicate DivergesAt(config: GovernanceConfig, run: seq<Request>, j: nat)
    requires j < |run|
  {
    Diverges(StateAt(config, run, j), run[j])
  }

  /** None of the first `k` requests diverges. */
  ghost predicate InStep(config: GovernanceConfig, run: seq<Request>, k: nat)
    requires k <= |run|
  {
    forall j :: 0 <= j < k ==> !DivergesAt(config, run, j)
  }

  /** The chain after a request: what its transaction makes of it, if it has one. */
  ghost function Followed(c: Chain.ChainState, authority: Key, req: Request): Chain.ChainState {
    var tx := Translate(authority, req);
    if tx.Some? then Chain.Process(c, tx.value).state else c
  }

  lemma OnlyTranslatedDiverge(e: EngineState, req: Request)
    requires Translate(e.config.authority, req).None?
    ensures !Diverges(e, req)
  {
  }

  lemma StepMirrors(e: EngineState, c: Chain.ChainState, req: Request)
    requires Joined(e, c) && SmallId(req.call)
    ensures Related(Step(e, req).state, Followed(c, e.config.authority, req)) <==> !Diverges(e, req)
  {
    if Translate(e.config.authority, req).Some? {
      CallSimulated(e, c, req);
    } else {
      OnlyTranslatedDiverge(e, req);
      UntranslatedKeeps(e, c, req);
    }
  }

  /** Engine and on-chain history correspond after `k` requests. */
  ghost predicate Mirrored(config: GovernanceConfig, run: seq<Request>, k: nat)
    requires k <= |run|
  {
    Related(StateAt(config, run, k), Mirror(config, run, k))
  }

  lemma {:induction false} AuthorityStays(config: GovernanceConfig, run: seq<Request>, k: nat)
    requires k <= |run|
    ensures StateAt(config, run, k).config.authority == config.authority
  {
    if k == 0 {
    } else {
      AuthorityStays(config, run, k - 1);
      StepKeepsAuthority(StateAt(config, run, k - 1), run[k - 1]);
    }
  }

  lemma MirroredJoined(config: GovernanceConfig, run: seq<Request>, k: nat)
    requires Startable(config) && k <= |run| && Mirrored(config, run, k)
    ensures Joined(StateAt(config, run, k), Mirror(config, run, k))
  {
    Life.RunInvariant(config, run, k);
    Inv.EveryStateSound(History(config, run, k), |History(config, run, k)|);
  }

  lemma MirroredAtStart(config: GovernanceConfig, run: seq<Request>)
    requires Startable(config) && config.timelockSeconds >= 0
    ensures Mirrored(config, run, 0)
  {
    InitialStates(config);
    assert History(config, run, 0) == History(config, [], 0);
  }

  /** While they correspond, the next request keeps them so or diverges. */
  lemma NextMirrored(config: GovernanceConfig, run: seq<Request>, k: nat)
    requires Startable(config) && k < |run| && SmallId(run[k].call) && Mirrored(config, run, k)
    ensures Mirrored(config, run, k + 1) <==> !DivergesAt(config, run, k)
  {
    MirroredJoined(config, run, k);
    AuthorityStays(config, run, k);
    StepMirrors(StateAt(config, run, k), Mirror(config, run, k), run[k]);
    MirrorStep(config, run, k);
  }

  /** Two sides that start out together, and after each step are together exactly
      if that step was not a divergence, are together all along exactly while
      nothing diverges. */
  lemma {:induction false} Along(together: nat -> bool, diverges: nat -> bool, k: nat)
    requires together(0)
    requires forall j: nat :: j < k && together(j) ==> (together(j + 1) <==> !diverges(j))
    ensures (forall j: nat :: j < k ==> !diverges(j)) <==> forall j: nat :: j <= k ==> together(j)
  {
    if k == 0 {
    } else {
      Along(together, diverges, k - 1);
      assert together(k - 1) ==> (together(k - 1 + 1) <==> !diverges(k - 1));
    }
  }

  lemma StepsMirror(config: GovernanceConfig, run: seq<Request>, k: nat)
    requires Startable(config) && config.timelockSeconds >= 0 && k <= |run| && SmallIds(run, k)
    ensures Mirrored(config, run, 0)
    ensures forall j: nat :: j < k && Mirrored(config, run, j) ==>
              (Mirrored(config, run, j + 1) <==> !DivergesAt(config, run, j))
  {
    MirroredAtStart(config, run);
    forall j: nat | j < k && Mirrored(config, run, j)
      ensures Mirrored(config, run, j + 1) <==> !DivergesAt(config, run, j)
    {
      NextMirrored(config, run, j);
    }
  }

  /** The exact condition: engine and program correspond all along the first `k`
      requests if and only if none of these diverges. */
  lemma MirrorsExactly(config: GovernanceConfig, run: seq<Request>, k: nat)
    requires Startable(config) && config.timelockSeconds >= 0 && k <= |run| && SmallIds(run, k)
    ensures InStep(config, run, k) <==> forall j :: 0 <= j <= k ==> Mirrored(config, run, j)
  {
    var together := (j: nat) => j <= k && Mirrored(config, run, j);
    var diverges := (j: nat) => j < k && DivergesAt(config, run, j);
    StepsMirror(config, run, k);
    Along(together, diverges, k);
    assert forall j: nat :: j < k ==> (diverges(j) <==> DivergesAt(config, run, j));
    assert forall j: nat :: j <= k ==> (together(j) <==> Mirrored(config, run, j));
  }

  /** Forward simulation: while no request diverges, the engine and the program
      stay in corresponding states. */
  lemma EngineMirrorsProgram(config: GovernanceConfig, run: seq<Request>, k: nat)
    requires Startable(config) && config.timelockSeconds >= 0 && k <= |run|
    requires SmallIds(run, k) && InStep(config, run, k)
    ensures Joined(StateAt(config, run, k), Mirror(config, run, k))
    ensures StateAt(config, run, k).config.authority == config.authority
  {
    MirrorsExactly(config, run, k);
    MirroredJoined(config, run, k);
    AuthorityStays(config, run, k);
  }

  /** .. and along the way each translated request is accepted on-chain exactly
      when the engine accepts it, a repeated cancel excepted. */
  lemma VerdictsMirror(config: GovernanceConfig, run: seq<Request>, k: nat)
    requires Startable(config) && config.timelockSeconds >= 0 && k < |run|
    requires SmallIds(run, k) && InStep(config, run, k)
    requires SmallId(run[k].call) && Translate(config.authority, run[k]).Some?
    ensures var e := StateAt(config, run, k);
            (ReplyAt(config, run, k).Ok? <==>
               Chain.Process(Mirror(config, run, k), Translate(config.authority, run[k]).value).result.Ok?)
            <==> !DivergesAt(config, run, k) && !RepeatsCancel(e, run[k])
  {
    EngineMirrorsProgram(config, run, k);
    CallSimulated(StateAt(config, run, k), Mirror(config, run, k), run[k]);
  }
}
