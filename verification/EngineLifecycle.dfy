/** What every run of one-at-a-time engine calls keeps: dense ids, exact vote
    counts, the proposal life cycle, the event grammar and the statistics
    (crates/securedeploy-core/src/engine.rs). The id u64::MAX is the one id the
    counter can never pass, so the per-proposal facts are about smaller ids. */
module EngineLifecycle {
  import opened Machine
  import opened GovernanceRules
  import opened BuildHashes
  import opened Domain
  import opened MemoryStores
  import opened EngineSpec

  // ---------- event projections ----------

  predicate About(e: DomainEvent, id: u64) {
    match e
    case ProposalCreated(i, _) => i == id
    case ProposalApproved(i, _) => i == id
    case ProposalExecuted(i) => i == id
    case ProposalCancelled(i) => i == id
    case _ => false
  }

  /** The events about one proposal, in order. */
  function EventsFor(events: seq<DomainEvent>, id: u64): seq<DomainEvent> {
    if |events| == 0 then []
    else
      var n := |events| - 1;
      EventsFor(events[..n], id) + if About(events[n], id) then [events[n]] else []
  }

  /** Approved(1), Approved(2), .., Approved(n), each counter as a u8. */
  function ApprovalEvents(id: u64, n: nat): seq<DomainEvent> {
    if n == 0 then [] else ApprovalEvents(id, n - 1) + [ProposalApproved(id, TruncU8(n))]
  }

  function ClosingEvents(id: u64, status: ProposalStatus): seq<DomainEvent> {
    match status
    case Executed => [ProposalExecuted(id)]
    case Cancelled => [ProposalCancelled(id)]
    case _ => []
  }

  /** Created, then the approvals in order, then at most one closing event. */
  function Grammar(record: ProposalRecord, n: nat): seq<DomainEvent> {
    [ProposalCreated(record.id, record.programId)] + ApprovalEvents(record.id, n)
    + ClosingEvents(record.id, record.status)
  }

  /** The pause flag as a subscriber reconstructs it. */
  function LastPause(events: seq<DomainEvent>): bool {
    if |events| == 0 then false
    else
      var n := |events| - 1;
      if events[n].PauseChanged? then events[n].paused else LastPause(events[..n])
  }

  predicate Pausable(e: DomainEvent) {
    e.ProposalCreated? || e.ProposalApproved? || e.ProposalExecuted?
  }

  function ExecutedCount(events: seq<DomainEvent>): nat {
    if |events| == 0 then 0
    else
      var n := |events| - 1;
      ExecutedCount(events[..n]) + if events[n].ProposalExecuted? then 1 else 0
  }

  // ---------- the invariant ----------

  /** One record against the voters who voted on it and the events about it. */
  ghost predicate Tracks(record: ProposalRecord, voters: set<Key>, events: seq<DomainEvent>) {
    && 1 <= record.threshold <= MAX_GUARDIANS
    && record.approvals == TruncU8(|voters|)
    && (record.status.Executed? ==> |voters| >= record.threshold)
    && (!record.status.Final() ==> (record.status.Approved? <==> |voters| >= record.threshold))
    && Canonical(record.buildHash)
    && events == Grammar(record, |voters|)
  }

  ghost predicate Tracked(s: EngineState, id: u64) {
    if id in s.proposals then Tracks(s.proposals[id], VotersOf(s.votes, id), EventsFor(s.events, id))
    else id !in s.votes && EventsFor(s.events, id) == []
  }

  ghost predicate PauseRespected(events: seq<DomainEvent>) {
    forall k :: 0 <= k < |events| && Pausable(events[k]) ==> !LastPause(events[..k])
  }

  ghost predicate DenseIds(s: EngineState) {
    && (forall id: u64 :: id < U64_MAX ==> (id in s.proposals <==> id < s.config.proposalCount))
    && (U64_MAX in s.proposals ==> s.config.proposalCount == U64_MAX)
    && KeyedById(s.proposals)
  }

  ghost predicate FindingsOpen(s: EngineState) {
    forall id :: id in s.findings ==> !s.findings[id].resolved
  }

  ghost predicate Inv(s: EngineState) {
    && ValidConfig(s.config.guardians, s.config.threshold)
    && DenseIds(s)
    && (forall id: u64 :: id < U64_MAX ==> Tracked(s, id))
    && s.config.paused == LastPause(s.events)
    && PauseRespected(s.events)
    && (s.config.proposalCount < U64_MAX ==> |ExecutedIds(s.proposals)| == ExecutedCount(s.events))
    && FindingsOpen(s)
  }

  // ---------- preservation ----------

  lemma EventsForSnoc(events: seq<DomainEvent>, e: DomainEvent, id: u64)
    ensures EventsFor(events + [e], id) == EventsFor(events, id) + if About(e, id) then [e] else []
    ensures LastPause(events + [e]) == if e.PauseChanged? then e.paused else LastPause(events)
    ensures ExecutedCount(events + [e]) == ExecutedCount(events) + if e.ProposalExecuted? then 1 else 0
  {
    assert (events + [e])[..|events|] == events;
  }

  lemma PauseRespectedSnoc(events: seq<DomainEvent>, e: DomainEvent)
    requires PauseRespected(events)
    requires Pausable(e) ==> !LastPause(events)
    ensures PauseRespected(events + [e])
  {
    forall k | 0 <= k < |events| + 1 && Pausable((events + [e])[k])
      ensures !LastPause((events + [e])[..k])
    {
      if k < |events| {
        assert (events + [e])[..k] == events[..k];
      } else {
        assert (events + [e])[..k] == events;
      }
    }
  }

  /** Who voted on any other proposal is unchanged. */
  ghost predicate VotesElsewhere(before: Votes, after: Votes, id: u64) {
    forall i: u64 :: i != id ==> (i in after <==> i in before) && VotersOf(after, i) == VotersOf(before, i)
  }

  lemma NewVotesElsewhere(votes: Votes, id: u64, voters: set<Key>)
    ensures VotesElsewhere(votes, votes[id := voters], id)
  {
  }

  /** An effect that only concerns proposal `id` leaves every other one tracked. */
  lemma OthersTracked(s: EngineState, e: Effect, id: u64)
    requires e.write.Some? ==> e.write.value.id == id
    requires e.event.Some? ==> forall i: u64 :: i != id ==> !About(e.event.value, i)
    requires VotesElsewhere(s.votes, e.votes, id)
    requires forall i: u64 :: i < U64_MAX ==> Tracked(s, i)
    ensures forall i: u64 :: i < U64_MAX && i != id ==> Tracked(Apply(s, e).state, i)
  {
    forall i: u64 | i < U64_MAX && i != id
      ensures Tracked(Apply(s, e).state, i)
    {
      assert Tracked(s, i);
      if e.event.Some? {
        EventsForSnoc(s.events, e.event.value, i);
      }
    }
  }

  lemma QuietKeeps(s: EngineState, e: Effect)
    requires Inv(s)
    requires e.write.None? && e.votes == s.votes && ValidConfig(e.config.guardians, e.config.threshold)
    requires e.config.proposalCount == s.config.proposalCount
    requires if e.event.Some? then e.event.value == PauseChanged(e.config.paused)
             else e.config.paused == s.config.paused
    ensures Inv(Apply(s, e).state)
  {
    OthersTracked(s, e, U64_MAX);
    if e.event.Some? {
      EventsForSnoc(s.events, e.event.value, 0);
      PauseRespectedSnoc(s.events, e.event.value);
    }
  }

  /** A write about proposal `id` keeps the invariant once `id` itself is tracked. */
  lemma WriteKeeps(s: EngineState, e: Effect, id: u64)
    requires Inv(s)
    requires e.write.Some? && e.write.value.id == id
    requires e.event.Some? ==> !e.event.value.PauseChanged? && (forall i: u64 :: i != id ==> !About(e.event.value, i))
    requires e.event.Some? && Pausable(e.event.value) ==> !s.config.paused
    requires VotesElsewhere(s.votes, e.votes, id)
    requires ValidConfig(e.config.guardians, e.config.threshold) && e.config.paused == s.config.paused
    requires DenseIds(Apply(s, e).state)
    requires id < U64_MAX ==> Tracked(Apply(s, e).state, id)
    requires e.config.proposalCount < U64_MAX ==>
               |ExecutedIds(Apply(s, e).state.proposals)| == ExecutedCount(Apply(s, e).state.events)
    ensures Inv(Apply(s, e).state)
  {
    OthersTracked(s, e, id);
    if e.event.Some? {
      EventsForSnoc(s.events, e.event.value, id);
      PauseRespectedSnoc(s.events, e.event.value);
    }
  }

  lemma NewRecordTracks(config: GovernanceConfig, programId: string, hash: Bytes32, proposer: Key, eta: i64, later: i64)
    requires ValidConfig(config.guardians, config.threshold) && hash != ZERO_HASH
    ensures var record := NewRecord(config, programId, hash, proposer, eta, later);
            Tracks(record, {}, [ProposalCreated(record.id, programId)])
  {
    HashRoundTrip(hash);
  }

  /** Replacing a live record by one that is not executed. */
  lemma SameExecuted(proposals: map<u64, ProposalRecord>, record: ProposalRecord)
    requires record.id in proposals ==> !proposals[record.id].status.Executed?
    requires !record.status.Executed?
    ensures ExecutedIds(proposals[record.id := record]) == ExecutedIds(proposals)
  {
  }

  lemma CreateDense(s: EngineState, e: Effect)
    requires DenseIds(s) && s.config.proposalCount < U64_MAX
    requires e.config == s.config.(proposalCount := s.config.proposalCount + 1)
    requires e.write.Some? && e.write.value.id == s.config.proposalCount
    ensures DenseIds(Apply(s, e).state)
  {
  }

  /** Storing a new record under the next id. */
  lemma CreateKeeps(s: EngineState, e: Effect, programId: string, hash: Bytes32, proposer: Key, eta: i64, later: i64)
    requires Inv(s) && !s.config.paused && hash != ZERO_HASH
    requires s.config.proposalCount < U64_MAX
    requires var record := NewRecord(s.config, programId, hash, proposer, eta, later);
             e == Effect(s.config.(proposalCount := s.config.proposalCount + 1), s.votes, Some(record),
                         Some(ProposalCreated(record.id, programId)), Ok(Proposal(record)))
    ensures Inv(Apply(s, e).state)
  {
    var id, t := s.config.proposalCount, Apply(s, e).state;
    assert Tracked(s, id);
    EventsForSnoc(s.events, e.event.value, id);
    NewRecordTracks(s.config, programId, hash, proposer, eta, later);
    SameExecuted(s.proposals, e.write.value);
    CreateDense(s, e);
    WriteKeeps(s, e, id);
  }

  /** The three ways a propose can end: refused, stored uncounted, or created. */
  lemma ProposeEnds(config: GovernanceConfig, votes: Votes, programId: string, hashHex: string, proposer: Key,
                    now: i64, later: i64)
    ensures var e := ProposeEffect(config, votes, programId, hashHex, proposer, now, later);
            if e.write.None? then e == Refuse(config, votes, e.reply.error)
            else
              && !config.paused && FromHex(hashHex).Ok?
              && var record := NewRecord(config, programId, FromHex(hashHex).value, proposer, e.write.value.eta, later);
              && e.write == Some(record)
              && if config.proposalCount == U64_MAX then
                   e == Effect(config, votes, Some(record), None, Err(Domain(Overflow)))
                 else
                   e == Effect(config.(proposalCount := config.proposalCount + 1), votes, Some(record),
                               Some(ProposalCreated(record.id, programId)), Ok(Proposal(record)))
  {
  }

  /** The record that is stored but never counted, under the last id. */
  lemma OverflowKeeps(s: EngineState, record: ProposalRecord)
    requires Inv(s) && s.config.proposalCount == U64_MAX && record.id == U64_MAX
    ensures Inv(Apply(s, Effect(s.config, s.votes, Some(record), None, Err(Domain(Overflow)))).state)
  {
    WriteKeeps(s, Effect(s.config, s.votes, Some(record), None, Err(Domain(Overflow))), U64_MAX);
  }

  lemma ProposeKeeps(s: EngineState, programId: string, hashHex: string, proposer: Key, now: i64, later: i64)
    requires Inv(s)
    ensures Inv(Apply(s, ProposeEffect(s.config, s.votes, programId, hashHex, proposer, now, later)).state)
  {
    var e := ProposeEffect(s.config, s.votes, programId, hashHex, proposer, now, later);
    ProposeEnds(s.config, s.votes, programId, hashHex, proposer, now, later);
    if e.write.None? {
      QuietKeeps(s, e);
    } else if s.config.proposalCount == U64_MAX {
      OverflowKeeps(s, e.write.value);
    } else {
      CreateKeeps(s, e, programId, FromHex(hashHex).value, proposer, e.write.value.eta, later);
    }
  }

  lemma TallyTracks(record: ProposalRecord, voters: set<Key>, g: Key, events: seq<DomainEvent>)
    requires Tracks(record, voters, events) && !record.status.Final() && g !in voters
    ensures var after := Tallied(record, voters + {g});
            Tracks(after, voters + {g}, events + [ProposalApproved(record.id, after.approvals)])
  {
    var after := Tallied(record, voters + {g});
    var n := |voters|;
    assert |voters + {g}| == n + 1;
    assert n + 1 == record.threshold ==> TruncU8(n + 1) == n + 1;
    assert ApprovalEvents(record.id, n + 1)
        == ApprovalEvents(record.id, n) + [ProposalApproved(record.id, after.approvals)];
    assert events + [ProposalApproved(record.id, after.approvals)] == Grammar(after, n + 1);
  }

  lemma RewriteDense(s: EngineState, e: Effect)
    requires DenseIds(s) && e.config == s.config && e.write.Some? && e.write.value.id in s.proposals
    ensures DenseIds(Apply(s, e).state)
  {
  }

  lemma VoteTracked(s: EngineState, e: Effect, id: u64, guardian: Key)
    requires id < U64_MAX && Tracked(s, id) && id in s.proposals && s.proposals[id].id == id
    requires !s.proposals[id].status.Final() && guardian !in VotersOf(s.votes, id)
    requires var voters := VotersOf(s.votes, id) + {guardian};
             var record := Tallied(s.proposals[id], voters);
             e == Effect(s.config, s.votes[id := voters], Some(record), Some(ProposalApproved(id, record.approvals)),
                         Ok(Proposal(record)))
    ensures Tracked(Apply(s, e).state, id)
  {
    EventsForSnoc(s.events, e.event.value, id);
    TallyTracks(s.proposals[id], VotersOf(s.votes, id), guardian, EventsFor(s.events, id));
  }

  /** Storing one more vote. */
  lemma VoteKeeps(s: EngineState, e: Effect, id: u64, guardian: Key)
    requires Inv(s) && !s.config.paused
    requires id in s.proposals && !s.proposals[id].status.Final() && guardian !in VotersOf(s.votes, id)
    requires var voters := VotersOf(s.votes, id) + {guardian};
             var record := Tallied(s.proposals[id], voters);
             e == Effect(s.config, s.votes[id := voters], Some(record), Some(ProposalApproved(id, record.approvals)),
                         Ok(Proposal(record)))
    ensures Inv(Apply(s, e).state)
  {
    EventsForSnoc(s.events, e.event.value, id);
    RewriteDense(s, e);
    NewVotesElsewhere(s.votes, id, VotersOf(s.votes, id) + {guardian});
    SameExecuted(s.proposals, e.write.value);
    if id < U64_MAX {
      assert Tracked(s, id);
      VoteTracked(s, e, id, guardian);
    }
    WriteKeeps(s, e, id);
  }

  lemma ApproveKeeps(s: EngineState, id: u64, guardian: Key)
    requires Inv(s)
    ensures Inv(Apply(s, ApproveEffect(s.config, s.votes, Lookup(s.proposals, id), id, guardian)).state)
  {
    var e := ApproveEffect(s.config, s.votes, Lookup(s.proposals, id), id, guardian);
    if e.write.None? {
      QuietKeeps(s, e);
    } else {
      VoteKeeps(s, e, id, guardian);
    }
  }

  lemma CloseTracked(s: EngineState, e: Effect, id: u64, status: ProposalStatus, event: DomainEvent)
    requires Tracked(s, id) && id in s.proposals && s.proposals[id].id == id && !s.proposals[id].status.Final()
    requires status.Final() && ClosingEvents(id, status) == [event]
    requires status.Executed? ==> s.proposals[id].approvals >= s.proposals[id].threshold
    requires var record := s.proposals[id].(status := status);
             e == Effect(s.config, s.votes, Some(record), Some(event), Ok(Proposal(record)))
    ensures Tracked(Apply(s, e).state, id)
  {
    var t := Apply(s, e).state;
    EventsForSnoc(s.events, event, id);
    assert EventsFor(t.events, id) == Grammar(t.proposals[id], |VotersOf(s.votes, id)|);
  }

  /** The executed ids, and the events that say so, both count a closing. */
  lemma CloseCounts(s: EngineState, id: u64, status: ProposalStatus, event: DomainEvent)
    requires id in s.proposals && s.proposals[id].id == id && !s.proposals[id].status.Executed?
    requires event.ProposalExecuted? <==> status.Executed?
    ensures var t := s.proposals[id := s.proposals[id].(status := status)];
            && |ExecutedIds(t)| == |ExecutedIds(s.proposals)| + (if status.Executed? then 1 else 0)
            && ExecutedCount(s.events + [event]) == ExecutedCount(s.events) + (if status.Executed? then 1 else 0)
  {
    var t := s.proposals[id := s.proposals[id].(status := status)];
    EventsForSnoc(s.events, event, id);
    assert ExecutedIds(t) == if status.Executed? then ExecutedIds(s.proposals) + {id} else ExecutedIds(s.proposals);
  }

  /** Storing a closing status. */
  lemma CloseKeeps(s: EngineState, e: Effect, id: u64, status: ProposalStatus, event: DomainEvent)
    requires Inv(s)
    requires id in s.proposals && !s.proposals[id].status.Final()
    requires status.Final() && ClosingEvents(id, status) == [event]
    requires status.Executed? ==> !s.config.paused && s.proposals[id].approvals >= s.proposals[id].threshold
    requires var record := s.proposals[id].(status := status);
             e == Effect(s.config, s.votes, Some(record), Some(event), Ok(Proposal(record)))
    ensures Inv(Apply(s, e).state)
  {
    RewriteDense(s, e);
    CloseCounts(s, id, status, event);
    if id < U64_MAX {
      assert Tracked(s, id);
      CloseTracked(s, e, id, status, event);
    }
    WriteKeeps(s, e, id);
  }

  lemma ExecuteKeeps(s: EngineState, id: u64, now: i64)
    requires Inv(s)
    ensures Inv(Apply(s, ExecuteEffect(s.config, s.votes, Lookup(s.proposals, id), id, now)).state)
  {
    var e := ExecuteEffect(s.config, s.votes, Lookup(s.proposals, id), id, now);
    if e.write.None? {
      QuietKeeps(s, e);
    } else {
      CloseKeeps(s, e, id, Executed, ProposalExecuted(id));
    }
  }

  lemma CancelKeeps(s: EngineState, id: u64)
    requires Inv(s)
    ensures Inv(Apply(s, CancelEffect(s.config, s.votes, Lookup(s.proposals, id), id)).state)
  {
    var e := CancelEffect(s.config, s.votes, Lookup(s.proposals, id), id);
    if e.write.None? {
      QuietKeeps(s, e);
    } else {
      CloseKeeps(s, e, id, Cancelled, ProposalCancelled(id));
    }
  }

  lemma FindingKeeps(s: EngineState, req: Request)
    requires Inv(s) && req.call.RaiseFinding?
    ensures Inv(RaiseFindingStep(s, req).state)
  {
    var t := RaiseFindingStep(s, req).state;
    if t != s {
      var e := FindingRaised(req.call.finding, req.call.severity);
      forall i: u64 | i < U64_MAX
        ensures Tracked(t, i)
      {
        assert Tracked(s, i);
        EventsForSnoc(s.events, e, i);
      }
      EventsForSnoc(s.events, e, 0);
      PauseRespectedSnoc(s.events, e);
    }
  }

  lemma ProposalCallKeeps(s: EngineState, req: Request)
    requires Inv(s) && (req.call.Propose? || Wanted(req.call).Some?)
    ensures Inv(Step(s, req).state)
  {
    match req.call
    case Propose(programId, hashHex, proposer) => ProposeKeeps(s, programId, hashHex, proposer, req.now, req.later);
    case Approve(id, guardian) => ApproveKeeps(s, id, guardian);
    case Execute(id) => ExecuteKeeps(s, id, req.now);
    case Cancel(id) => CancelKeeps(s, id);
  }

  lemma AdminCallKeeps(s: EngineState, req: Request)
    requires Inv(s) && (req.call.SetPaused? || req.call.SetGuardians?)
    ensures Inv(Step(s, req).state)
  {
    QuietKeeps(s, Decide(s.config, s.votes, None, req));
  }

  lemma StepKeeps(s: EngineState, req: Request)
    requires Inv(s)
    ensures Inv(Step(s, req).state)
  {
    if req.call.RaiseFinding? {
      FindingKeeps(s, req);
    } else if req.call.SetPaused? || req.call.SetGuardians? {
      AdminCallKeeps(s, req);
    } else {
      ProposalCallKeeps(s, req);
    }
  }

  /** Every state of every run satisfies the invariant. */
  lemma {:induction false} RunInvariant(config: GovernanceConfig, run: seq<Request>, k: nat)
    requires Startable(config) && k <= |run|
    ensures Inv(StateAt(config, run, k))
  {
    if k == 0 {
      forall id: u64 | id < U64_MAX
        ensures Tracked(Fresh(config), id)
      {
      }
      assert ExecutedIds(map[]) == {};
    } else {
      RunInvariant(config, run, k - 1);
      StepKeeps(StateAt(config, run, k - 1), run[k - 1]);
    }
  }
}
