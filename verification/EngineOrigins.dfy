/** Where everything the engine stores comes from, read off the requests of a run:
    each record from one accepted propose, each finding from one accepted
    raise_finding, the configuration from the requests that set it, and each event
    from one accepted call. */
module EngineOrigins {
  import opened Machine
  import opened GovernanceRules
  import opened BuildHashes
  import opened Domain
  import opened EngineSpec
  import opened EngineLifecycle
  import opened EngineRuns

  // ---------- what one call touches ----------

  /** An accepted call about proposal `id` stores one record under its id, publishes
      one event and answers with the record; a refused one changes nothing. */
  ghost predicate Rewrites(s: EngineState, o: Outcome, id: u64) {
    if o.reply.Ok? then
      && id in s.proposals && o.reply.value.Proposal? && o.reply.value.record.id == s.proposals[id].id
      && |o.state.events| == |s.events| + 1 && !o.state.events[|s.events|].FindingRaised?
      && var r := o.reply.value.record;
      o.state == s.(votes := o.state.votes, proposals := s.proposals[r.id := r],
                    events := s.events + [o.state.events[|s.events|]])
    else
      o.state == s
  }

  lemma ApproveRewrites(s: EngineState, id: u64, guardian: Key)
    ensures Rewrites(s, Apply(s, ApproveEffect(s.config, s.votes, Lookup(s.proposals, id), id, guardian)), id)
  {
  }

  lemma ExecuteRewrites(s: EngineState, id: u64, now: i64)
    ensures Rewrites(s, Apply(s, ExecuteEffect(s.config, s.votes, Lookup(s.proposals, id), id, now)), id)
  {
  }

  lemma CancelRewrites(s: EngineState, id: u64)
    ensures Rewrites(s, Apply(s, CancelEffect(s.config, s.votes, Lookup(s.proposals, id), id)), id)
  {
  }

  lemma CallRewrites(s: EngineState, req: Request)
    requires Wanted(req.call).Some?
    ensures Rewrites(s, Step(s, req), Wanted(req.call).value)
  {
    match req.call
    case Approve(id, guardian) => ApproveRewrites(s, id, guardian);
    case Execute(id) => ExecuteRewrites(s, id, req.now);
    case Cancel(id) => CancelRewrites(s, id);
  }

  /** Pausing and rotating touch the configuration, and pausing publishes. */
  lemma AdminTouches(s: EngineState, req: Request)
    requires req.call.SetPaused? || req.call.SetGuardians?
    ensures var o := Step(s, req);
            && o.state == s.(config := o.state.config, events := o.state.events)
            && o.state.config.proposalCount == s.config.proposalCount
            && o.state.events
               == (if req.call.SetPaused? then s.events + [PauseChanged(req.call.paused)] else s.events)
            && (req.call.SetPaused? ==> o.reply == Ok(Done))
  {
  }

  /** A propose that is accepted stores, counts, publishes and answers; one that is
      refused touches at most the record under the last id. */
  lemma ProposeTouches(s: EngineState, req: Request)
    requires req.call.Propose?
    ensures var o, id := Step(s, req), s.config.proposalCount;
            if o.reply.Ok? then
              && id < U64_MAX && o.reply.value.Proposal? && o.reply.value.record.id == id
              && var r := o.reply.value.record;
              o.state == s.(config := s.config.(proposalCount := id + 1), proposals := s.proposals[id := r],
                            events := s.events + [ProposalCreated(id, r.programId)])
            else
              && o.state == s.(proposals := o.state.proposals)
              && (o.state.proposals == s.proposals
                  || (id == U64_MAX && o.state.proposals.Keys == s.proposals.Keys + {id}))
  {
    ProposeEnds(s.config, s.votes, req.call.programId, req.call.hashHex, req.call.proposer, req.now, req.later);
  }

  // ---------- records ----------

  /** What a propose request, met under this configuration, makes of its arguments. */
  ghost predicate MadeFrom(config: GovernanceConfig, req: Request, r: ProposalRecord) {
    && req.call.Propose?
    && !config.paused && (req.call.proposer == config.authority || req.call.proposer in config.guardians)
    && r.id == config.proposalCount
    && r.programId == req.call.programId
    && r.buildHash == LowerAll(req.call.hashHex)
    && r.proposer == req.call.proposer
    && r.eta == req.now + config.timelockSeconds
    && r.threshold == config.threshold
    && r.createdAt == req.later
  }

  /** A record nobody has voted on yet. */
  ghost predicate Untouched(s: EngineState, id: u64)
    requires id in s.proposals
  {
    s.proposals[id].approvals == 0 && s.proposals[id].status.Pending? && VotersOf(s.votes, id) == {}
  }

  ghost predicate Proposes(s: EngineState, req: Request) {
    req.call.Propose? && Step(s, req).reply.Ok?
  }

  lemma HashText(hashHex: string)
    requires FromHex(hashHex).Ok?
    ensures HexEncode(FromHex(hashHex).value) == LowerAll(hashHex)
  {
    FromHexAcceptsExactly(hashHex);
  }

  lemma ProposeMakes(s: EngineState, req: Request)
    requires Inv(s) && Proposes(s, req)
    ensures var t, id := Step(s, req).state, s.config.proposalCount;
            && id !in s.proposals && id in t.proposals && t.config.proposalCount == id + 1
            && MadeFrom(s.config, req, t.proposals[id]) && Untouched(t, id)
            && Step(s, req).reply == Ok(Proposal(t.proposals[id]))
  {
    assert Tracked(s, s.config.proposalCount);
    HashText(req.call.hashHex);
  }

  lemma OthersAddNone(s: EngineState, req: Request)
    requires Inv(s) && !req.call.Propose?
    ensures Step(s, req).state.proposals.Keys == s.proposals.Keys
    ensures Step(s, req).state.config.proposalCount == s.config.proposalCount
  {
    if Wanted(req.call).Some? {
      CallRewrites(s, req);
    } else if req.call.RaiseFinding? {
      RaiseExactly(s, req);
    } else {
      AdminTouches(s, req);
    }
  }

  lemma OnlyProposeAdds(s: EngineState, req: Request, id: u64)
    requires Inv(s) && id !in s.proposals && id in Step(s, req).state.proposals && id < U64_MAX
    ensures Proposes(s, req) && id == s.config.proposalCount
  {
    if req.call.Propose? {
      ProposeTouches(s, req);
    } else {
      OthersAddNone(s, req);
    }
  }

  /** Record `r`, as it now stands, was made by request `c` of the run. */
  ghost predicate MadeAt(config: GovernanceConfig, run: seq<Request>, c: nat, r: ProposalRecord)
    requires c < |run|
  {
    Proposes(StateAt(config, run, c), run[c]) && MadeFrom(StateAt(config, run, c).config, run[c], r)
  }

  lemma StillMadeAt(config: GovernanceConfig, run: seq<Request>, c: nat, before: ProposalRecord, after: ProposalRecord)
    requires c < |run| && MadeAt(config, run, c, before) && Advances(before, after)
    ensures MadeAt(config, run, c, after)
  {
  }

  lemma MadeJustNow(config: GovernanceConfig, run: seq<Request>, k: nat, id: u64)
    requires Startable(config) && k < |run| && id < U64_MAX
    requires id !in StateAt(config, run, k).proposals && id in StateAt(config, run, k + 1).proposals
    ensures MadeAt(config, run, k, StateAt(config, run, k + 1).proposals[id])
  {
    RunInvariant(config, run, k);
    OnlyProposeAdds(StateAt(config, run, k), run[k], id);
    ProposeMakes(StateAt(config, run, k), run[k]);
  }

  lemma {:induction false} RecordMade(config: GovernanceConfig, run: seq<Request>, k: nat, id: u64) returns (c: nat)
    requires Startable(config) && k <= |run| && id < U64_MAX && id in StateAt(config, run, k).proposals
    ensures c < k && MadeAt(config, run, c, StateAt(config, run, k).proposals[id])
  {
    if k == 0 {
      assert false;
    } else if id in StateAt(config, run, k - 1).proposals {
      c := RecordMade(config, run, k - 1, id);
      NextStateAdvances(config, run, k - 1, id);
      StillMadeAt(config, run, c, StateAt(config, run, k - 1).proposals[id], StateAt(config, run, k).proposals[id]);
    } else {
      c := k - 1;
      MadeJustNow(config, run, c, id);
    }
  }

  ghost predicate ProposedAt(config: GovernanceConfig, run: seq<Request>, k: nat)
    requires k < |run|
  {
    Proposes(StateAt(config, run, k), run[k])
  }

  ghost function CountAt(config: GovernanceConfig, run: seq<Request>, k: nat): nat
    requires k <= |run|
  {
    StateAt(config, run, k).config.proposalCount
  }

  lemma CountOfStep(s: EngineState, req: Request)
    requires Inv(s)
    ensures Step(s, req).state.config.proposalCount == s.config.proposalCount + if Proposes(s, req) then 1 else 0
  {
    if req.call.Propose? {
      ProposeTouches(s, req);
    } else {
      OthersAddNone(s, req);
    }
  }

  /** The count starts at zero and goes up by one exactly on an accepted propose. */
  lemma CountStep(config: GovernanceConfig, run: seq<Request>, k: nat)
    requires Startable(config) && k < |run|
    ensures CountAt(config, run, 0) == 0
    ensures CountAt(config, run, k + 1) == CountAt(config, run, k) + if ProposedAt(config, run, k) then 1 else 0
  {
    RunInvariant(config, run, k);
    CountOfStep(StateAt(config, run, k), run[k]);
  }

  /** Request `c` is an accepted propose that hands out this id. */
  ghost predicate HandsOut(config: GovernanceConfig, run: seq<Request>, c: nat, id: u64)
    requires c < |run|
  {
    ProposedAt(config, run, c) && CountAt(config, run, c) == id
  }

  lemma HandsOutNew(config: GovernanceConfig, run: seq<Request>, c: nat, id: u64)
    requires Startable(config) && c < |run| && HandsOut(config, run, c, id)
    ensures id !in StateAt(config, run, c).proposals && id in StateAt(config, run, c + 1).proposals
  {
    RunInvariant(config, run, c);
    ProposeMakes(StateAt(config, run, c), run[c]);
  }

  lemma StaysStored(config: GovernanceConfig, run: seq<Request>, i: nat, j: nat, id: u64)
    requires Startable(config) && i <= j <= |run| && id < U64_MAX && id in StateAt(config, run, i).proposals
    ensures id in StateAt(config, run, j).proposals
  {
    RecordsOnlyAdvance(config, run, i, j, id);
  }

  /** No two accepted proposes of a run hand out the same id. */
  lemma NotTwice(config: GovernanceConfig, run: seq<Request>, c: nat, d: nat, id: u64)
    requires Startable(config) && c < d < |run| && id < U64_MAX && HandsOut(config, run, c, id)
    ensures !HandsOut(config, run, d, id)
  {
    HandsOutNew(config, run, c, id);
    StaysStored(config, run, c + 1, d, id);
    if HandsOut(config, run, d, id) {
      HandsOutNew(config, run, d, id);
    }
  }

  /** Request `c` is the only accepted propose of the run that hands out this id. */
  ghost predicate OnlyMaker(config: GovernanceConfig, run: seq<Request>, c: nat, id: u64)
    requires c < |run|
  {
    forall d :: 0 <= d < |run| && d != c ==> !HandsOut(config, run, d, id)
  }

  /** Where a record comes from: exactly one accepted propose of the run made it,
      unpaused and by the authority or a guardian, from its own arguments and from the
      configuration it met: the next id, the text of the hash in lower case, the first
      clock reading plus the timelock as eta, the threshold then in force, the second
      clock reading as creation time. The call answered with that record, which had no
      votes then. */
  lemma RecordOrigin(config: GovernanceConfig, run: seq<Request>, k: nat, id: u64) returns (c: nat)
    requires Startable(config) && k <= |run| && id < U64_MAX && id in StateAt(config, run, k).proposals
    ensures c < k && MadeFrom(StateAt(config, run, c).config, run[c], StateAt(config, run, k).proposals[id])
    ensures var t := StateAt(config, run, c + 1);
            id in t.proposals && Untouched(t, id) && ReplyAt(config, run, c) == Ok(Proposal(t.proposals[id]))
    ensures OnlyMaker(config, run, c, id)
  {
    c := RecordMade(config, run, k, id);
    RunInvariant(config, run, k);
    RunInvariant(config, run, c);
    ProposeMakes(StateAt(config, run, c), run[c]);
    MakerIsAlone(config, run, c, id);
  }

  lemma MakerIsAlone(config: GovernanceConfig, run: seq<Request>, c: nat, id: u64)
    requires Startable(config) && c < |run| && id < U64_MAX && HandsOut(config, run, c, id)
    ensures OnlyMaker(config, run, c, id)
  {
    forall d | 0 <= d < |run| && d != c
      ensures !HandsOut(config, run, d, id)
    {
      if c < d {
        NotTwice(config, run, c, d, id);
      } else if HandsOut(config, run, d, id) {
        NotTwice(config, run, d, c, id);
      }
    }
  }

  // ---------- findings ----------

  ghost predicate Raises(s: EngineState, req: Request) {
    req.call.RaiseFinding? && Step(s, req).reply.Ok?
  }

  /** What a raise_finding request makes of its arguments. */
  ghost predicate ReportedBy(req: Request, f: FindingRecord) {
    && req.call.RaiseFinding?
    && f.id == req.call.finding && f.programId == req.call.programId && f.threat == req.call.threat
    && f.severity == req.call.severity && f.title == req.call.title
    && !f.resolved && f.createdAt == req.now
  }

  /** raise_finding: a new id is stored, published and answered with, a known one is
      refused and changes nothing. */
  lemma RaiseExactly(s: EngineState, req: Request)
    requires req.call.RaiseFinding?
    ensures var o, id := Step(s, req), req.call.finding;
            if id in s.findings then o == Outcome(s, Err(Store(id)))
            else
              && id in o.state.findings && ReportedBy(req, o.state.findings[id])
              && o.reply == Ok(Finding(o.state.findings[id]))
              && o.state == s.(findings := s.findings[id := o.state.findings[id]],
                               events := s.events + [FindingRaised(id, req.call.severity)])
  {
  }

  lemma OthersLeaveFindings(s: EngineState, req: Request)
    requires !req.call.RaiseFinding?
    ensures Step(s, req).state.findings == s.findings
  {
    if Wanted(req.call).Some? {
      CallRewrites(s, req);
    } else if req.call.Propose? {
      ProposeTouches(s, req);
    } else {
      AdminTouches(s, req);
    }
  }

  lemma FindingsStep(s: EngineState, req: Request, id: string)
    requires id in Step(s, req).state.findings
    ensures if id in s.findings then
              Step(s, req).state.findings[id] == s.findings[id] && !(Raises(s, req) && req.call.finding == id)
            else Raises(s, req) && ReportedBy(req, Step(s, req).state.findings[id])
  {
    if req.call.RaiseFinding? {
      RaiseExactly(s, req);
    } else {
      OthersLeaveFindings(s, req);
    }
  }

  lemma FindingsStay(s: EngineState, req: Request, id: string)
    requires id in s.findings
    ensures id in Step(s, req).state.findings && Step(s, req).state.findings[id] == s.findings[id]
  {
    if req.call.RaiseFinding? {
      RaiseExactly(s, req);
    } else {
      OthersLeaveFindings(s, req);
    }
  }

  /** Request `c` is the only accepted raise_finding of the first `k` for this id. */
  ghost predicate OnlyReport(config: GovernanceConfig, run: seq<Request>, c: nat, k: nat, id: string)
    requires k <= |run|
  {
    forall d :: 0 <= d < k && d != c && Raises(StateAt(config, run, d), run[d]) ==> run[d].call.finding != id
  }

  lemma {:induction false} NoneReported(config: GovernanceConfig, run: seq<Request>, k: nat, id: string, c: nat)
    requires k <= |run| && id !in StateAt(config, run, k).findings
    ensures OnlyReport(config, run, c, k, id)
  {
    if k == 0 {
    } else {
      if id in StateAt(config, run, k - 1).findings {
        FindingsStay(StateAt(config, run, k - 1), run[k - 1], id);
        assert false;
      }
      NoneReported(config, run, k - 1, id, c);
      if Raises(StateAt(config, run, k - 1), run[k - 1]) {
        RaiseExactly(StateAt(config, run, k - 1), run[k - 1]);
      }
    }
  }

  /** Where a finding comes from: exactly one accepted raise_finding of the run so far
      reported it, with that request's id, program, threat, severity, title and time,
      unresolved, and answered with it. */
  lemma {:induction false} FindingOrigin(config: GovernanceConfig, run: seq<Request>, k: nat, id: string)
    returns (c: nat)
    requires k <= |run| && id in StateAt(config, run, k).findings
    ensures c < k && ReportedBy(run[c], StateAt(config, run, k).findings[id])
    ensures run[c].call.finding == id && ReplyAt(config, run, c) == Ok(Finding(StateAt(config, run, k).findings[id]))
    ensures OnlyReport(config, run, c, k, id)
  {
    if k == 0 {
      assert false;
    } else {
      FindingsStep(StateAt(config, run, k - 1), run[k - 1], id);
      if id in StateAt(config, run, k - 1).findings {
        c := FindingOrigin(config, run, k - 1, id);
      } else {
        c := k - 1;
        RaiseExactly(StateAt(config, run, c), run[c]);
        NoneReported(config, run, c, id, c);
      }
    }
  }

  /** The events about one finding, in order. */
  function FindingEvents(events: seq<DomainEvent>, id: string): seq<DomainEvent> {
    if |events| == 0 then []
    else
      var n := |events| - 1;
      FindingEvents(events[..n], id)
      + if events[n].FindingRaised? && events[n].finding == id then [events[n]] else []
  }

  lemma FindingEventsSnoc(events: seq<DomainEvent>, e: DomainEvent, id: string)
    ensures FindingEvents(events + [e], id)
         == FindingEvents(events, id) + if e.FindingRaised? && e.finding == id then [e] else []
  {
    assert (events + [e])[..|events|] == events;
  }

  lemma OthersPublish(s: EngineState, req: Request)
    requires !req.call.RaiseFinding?
    ensures var t, n := Step(s, req).state, |s.events|;
            t.events == s.events
            || (|t.events| == n + 1 && t.events == s.events + [t.events[n]] && !t.events[n].FindingRaised?)
  {
    if Wanted(req.call).Some? {
      CallRewrites(s, req);
    } else if req.call.Propose? {
      ProposeTouches(s, req);
    } else {
      AdminTouches(s, req);
    }
  }

  /** What the log says of one finding id. */
  ghost predicate Logged(s: EngineState, id: string) {
    FindingEvents(s.events, id) == if id in s.findings then [FindingRaised(id, s.findings[id].severity)] else []
  }

  lemma LoggedStep(s: EngineState, req: Request, id: string)
    requires Logged(s, id)
    ensures Logged(Step(s, req).state, id)
  {
    if req.call.RaiseFinding? {
      RaiseExactly(s, req);
      FindingEventsSnoc(s.events, FindingRaised(req.call.finding, req.call.severity), id);
    } else {
      OthersLeaveFindings(s, req);
      OthersPublish(s, req);
      if Step(s, req).state.events != s.events {
        FindingEventsSnoc(s.events, Step(s, req).state.events[|s.events|], id);
      }
    }
  }

  /** The events about a finding: one, with its severity, once it is stored; none for
      an id that is not. */
  lemma {:induction false} FindingEventOnce(config: GovernanceConfig, run: seq<Request>, k: nat, id: string)
    requires k <= |run|
    ensures Logged(StateAt(config, run, k), id)
  {
    if k == 0 {
    } else {
      FindingEventOnce(config, run, k - 1, id);
      LoggedStep(StateAt(config, run, k - 1), run[k - 1], id);
    }
  }

  // ---------- configuration ----------

  datatype Council = Council(guardians: seq<Key>, threshold: u8)

  /** The council the requests alone put in force: the latest valid rotation's, or the
      initial one. */
  ghost function CouncilAfter(config: GovernanceConfig, run: seq<Request>, k: nat): Council
    requires k <= |run|
  {
    if k == 0 then Council(config.guardians, config.threshold)
    else
      var call := run[k - 1].call;
      if call.SetGuardians? && ValidConfig(call.guardians, call.threshold) then Council(call.guardians, call.threshold)
      else CouncilAfter(config, run, k - 1)
  }

  /** The pause flag the requests alone leave: the latest set_paused's, or unpaused. */
  function PausedAfter(run: seq<Request>, k: nat): bool
    requires k <= |run|
  {
    if k == 0 then false
    else if run[k - 1].call.SetPaused? then run[k - 1].call.paused
    else PausedAfter(run, k - 1)
  }

  ghost predicate SameButCount(c: GovernanceConfig, d: GovernanceConfig) {
    c == d.(proposalCount := c.proposalCount)
  }

  lemma OthersLeaveConfig(s: EngineState, req: Request)
    requires !req.call.SetPaused? && !req.call.SetGuardians?
    ensures SameButCount(Step(s, req).state.config, s.config)
  {
    if Wanted(req.call).Some? {
      CallRewrites(s, req);
    } else if req.call.Propose? {
      ProposeTouches(s, req);
    } else {
      RaiseExactly(s, req);
    }
  }

  lemma ConfigStep(s: EngineState, req: Request)
    ensures var c, call := Step(s, req).state.config, req.call;
            && c.authority == s.config.authority && c.timelockSeconds == s.config.timelockSeconds
            && c.paused == (if call.SetPaused? then call.paused else s.config.paused)
            && Council(c.guardians, c.threshold)
               == if call.SetGuardians? && ValidConfig(call.guardians, call.threshold)
                  then Council(call.guardians, call.threshold) else Council(s.config.guardians, s.config.threshold)
  {
    if !req.call.SetPaused? && !req.call.SetGuardians? {
      OthersLeaveConfig(s, req);
    }
  }

  /** Where the configuration comes from, field by field: authority and timelock never
      change, guardians and threshold are the latest valid rotation's, and the pause
      flag is the latest set_paused's. */
  lemma {:induction false} ConfigTrail(config: GovernanceConfig, run: seq<Request>, k: nat)
    requires Startable(config) && k <= |run|
    ensures var c := StateAt(config, run, k).config;
            && c.authority == config.authority && c.timelockSeconds == config.timelockSeconds
            && Council(c.guardians, c.threshold) == CouncilAfter(config, run, k)
            && c.paused == PausedAfter(run, k)
  {
    if k == 0 {
    } else {
      ConfigTrail(config, run, k - 1);
      ConfigStep(StateAt(config, run, k - 1), run[k - 1]);
    }
  }

  // ---------- events and replies ----------

  /** An accepted call publishes exactly one event, a rotation and a refused call none,
      and the event of a pause carries its flag. */
  lemma OneEventPerCall(s: EngineState, req: Request)
    ensures var o := Step(s, req);
            var n := |s.events|;
            && |o.state.events| == n + (if o.reply.Ok? && !req.call.SetGuardians? then 1 else 0)
            && o.state.events[..n] == s.events
            && (req.call.SetPaused? ==> o.reply == Ok(Done) && o.state.events[n] == PauseChanged(req.call.paused))
  {
    if Wanted(req.call).Some? {
      CallRewrites(s, req);
    } else if req.call.Propose? {
      ProposeTouches(s, req);
    } else if req.call.RaiseFinding? {
      RaiseExactly(s, req);
    } else {
      AdminTouches(s, req);
    }
  }

  /** A call about a proposal that is accepted answers with the record as stored. */
  lemma AnswersWithStored(s: EngineState, req: Request)
    requires Inv(s) && (req.call.Propose? || Wanted(req.call).Some?) && Step(s, req).reply.Ok?
    ensures var t, reply := Step(s, req).state, Step(s, req).reply.value;
            && reply.Proposal? && reply.record.id in t.proposals && t.proposals[reply.record.id] == reply.record
            && reply.record.id == if req.call.Propose? then s.config.proposalCount else Wanted(req.call).value
  {
    if req.call.Propose? {
      ProposeTouches(s, req);
    } else {
      CallRewrites(s, req);
    }
  }
}
