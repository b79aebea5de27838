/** The engine's promises over whole runs of one-at-a-time calls, read off the
    invariant of EngineLifecycle. */
module EngineRuns {
  import opened Machine
  import opened GovernanceRules
  import opened BuildHashes
  import opened Domain
  import opened MemoryStores
  import opened EngineSpec
  import opened EngineLifecycle

  /** Vote conservation: the stored counter is the size of the voter set as a
      u8, so it is the exact size just when at most 255 guardians voted. */
  lemma VotesConserved(config: GovernanceConfig, run: seq<Request>, k: nat, id: u64)
    requires Startable(config) && k <= |run| && id < U64_MAX
    requires id in StateAt(config, run, k).proposals
    ensures var s := StateAt(config, run, k);
            var n := |VotersOf(s.votes, id)|;
            && s.proposals[id].approvals == n % 0x100
            && (s.proposals[id].approvals == n <==> n <= U8_MAX)
  {
    RunInvariant(config, run, k);
    assert Tracked(StateAt(config, run, k), id);
  }

  /** A live record is Approved exactly when the voter set reached its pinned
      threshold. The stored counter tells the same unless it has wrapped back
      below the threshold. */
  lemma ApprovedExactly(config: GovernanceConfig, run: seq<Request>, k: nat, id: u64)
    requires Startable(config) && k <= |run| && id < U64_MAX
    requires id in StateAt(config, run, k).proposals
    requires !StateAt(config, run, k).proposals[id].status.Final()
    ensures var s := StateAt(config, run, k);
            var record, n := s.proposals[id], |VotersOf(s.votes, id)|;
            && (record.status.Approved? <==> n >= record.threshold)
            && ((record.status.Approved? <==> record.approvals >= record.threshold)
                <==> n < record.threshold || n % 0x100 >= record.threshold)
  {
    RunInvariant(config, run, k);
    assert Tracked(StateAt(config, run, k), id);
  }

  /** Every reachable configuration would still pass validation. */
  lemma ConfigStaysValid(config: GovernanceConfig, run: seq<Request>, k: nat)
    requires Startable(config) && k <= |run|
    ensures ValidConfig(StateAt(config, run, k).config.guardians, StateAt(config, run, k).config.threshold)
  {
    RunInvariant(config, run, k);
  }

  lemma {:induction false} ApprovalEventsAt(id: u64, n: nat, i: nat)
    requires i < n
    ensures |ApprovalEvents(id, n)| == n
    ensures ApprovalEvents(id, n)[i] == ProposalApproved(id, TruncU8(i + 1))
  {
    if n <= 1 {
    } else {
      ApprovalEventsAt(id, n - 1, if i < n - 1 then i else 0);
    }
  }

  lemma GrammarSpelt(record: ProposalRecord, n: nat)
    ensures var events := Grammar(record, n);
            && |events| == 1 + n + (if record.status.Final() then 1 else 0)
            && events[0] == ProposalCreated(record.id, record.programId)
            && (forall i :: 1 <= i <= n ==> events[i] == ProposalApproved(record.id, i % 0x100))
            && (record.status.Executed? ==> events[n + 1] == ProposalExecuted(record.id))
            && (record.status.Cancelled? ==> events[n + 1] == ProposalCancelled(record.id))
  {
    ApprovalEventsLength(record.id, n);
    forall i | 1 <= i <= n
      ensures Grammar(record, n)[i] == ProposalApproved(record.id, i % 0x100)
    {
      ApprovalEventsAt(record.id, n, i - 1);
    }
  }

  lemma {:induction false} ApprovalEventsLength(id: u64, n: nat)
    ensures |ApprovalEvents(id, n)| == n
  {
    if n == 0 {
    } else {
      ApprovalEventsLength(id, n - 1);
    }
  }

  /** Event grammar: the events about a proposal are Created, then Approved with
      counters 1, 2, .. in order, one per voter, then Executed or Cancelled
      exactly when the record is; an id never proposed has no events. */
  lemma EventGrammar(config: GovernanceConfig, run: seq<Request>, k: nat, id: u64)
    requires Startable(config) && k <= |run| && id < U64_MAX
    ensures var s := StateAt(config, run, k);
            var events := EventsFor(s.events, id);
            if id !in s.proposals then events == []
            else
              var record, n := s.proposals[id], |VotersOf(s.votes, id)|;
              && |events| == 1 + n + (if record.status.Final() then 1 else 0)
              && events[0] == ProposalCreated(id, record.programId)
              && (forall i :: 1 <= i <= n ==> events[i] == ProposalApproved(id, i % 0x100))
              && (record.status.Executed? ==> events[n + 1] == ProposalExecuted(id))
              && (record.status.Cancelled? ==> events[n + 1] == ProposalCancelled(id))
  {
    RunInvariant(config, run, k);
    var s := StateAt(config, run, k);
    assert Tracked(s, id);
    if id in s.proposals {
      GrammarSpelt(s.proposals[id], |VotersOf(s.votes, id)|);
    }
  }

  lemma {:induction false} PauseSince(events: seq<DomainEvent>, p: nat, q: nat)
    requires p < q <= |events|
    requires events[p].PauseChanged?
    requires forall i :: p < i < q ==> !events[i].PauseChanged?
    ensures LastPause(events[..q]) == events[p].paused
    decreases q
  {
    assert events[..q][..q - 1] == events[..q - 1];
    if q - 1 == p {
    } else {
      PauseSince(events, p, q - 1);
    }
  }

  /** From a PauseChanged(true) to the next PauseChanged event no proposal is
      created, approved or executed. */
  lemma PauseSilences(config: GovernanceConfig, run: seq<Request>, k: nat, p: nat, q: nat)
    requires Startable(config) && k <= |run|
    requires p < q < |StateAt(config, run, k).events|
    requires StateAt(config, run, k).events[p] == PauseChanged(true)
    requires forall i :: p < i < q ==> !StateAt(config, run, k).events[i].PauseChanged?
    ensures !Pausable(StateAt(config, run, k).events[q])
  {
    RunInvariant(config, run, k);
    PauseSince(StateAt(config, run, k).events, p, q);
  }

  lemma {:induction false} CountingUp(l: seq<ProposalRecord>, i: nat)
    requires Ascending(l) && i < |l|
    ensures i <= l[i].id
  {
    if i == 0 {
    } else {
      CountingUp(l, i - 1);
    }
  }

  lemma {:induction false} CountingDown(l: seq<ProposalRecord>, bound: nat, i: nat)
    requires Ascending(l) && i < |l| && l[|l| - 1].id < bound
    ensures l[i].id + (|l| - 1 - i) < bound
    decreases |l| - i
  {
    if i == |l| - 1 {
    } else {
      CountingDown(l, bound, i + 1);
    }
  }

  ghost function IdsBelow(n: nat): (ids: set<u64>)
    requires n <= U64_MAX
    ensures forall id: u64 :: id in ids <==> id < n
  {
    if n == 0 then {} else IdsBelow(n - 1) + {n - 1}
  }

  lemma {:induction false} IdsBelowCardinality(n: nat)
    requires n <= U64_MAX
    ensures |IdsBelow(n)| == n
  {
    if n == 0 {
    } else {
      IdsBelowCardinality(n - 1);
      assert n - 1 !in IdsBelow(n - 1);
    }
  }

  /** Dense ids: below u64::MAX the stored ids are exactly 0..count-1, each under
      its own id, and the listing returns them in that order. */
  lemma DenseListing(config: GovernanceConfig, run: seq<Request>, k: nat, l: seq<ProposalRecord>)
    requires Startable(config) && k <= |run|
    requires StateAt(config, run, k).config.proposalCount < U64_MAX
    requires IsListing(StateAt(config, run, k).proposals, l)
    ensures var s := StateAt(config, run, k);
            && s.proposals.Keys == IdsBelow(s.config.proposalCount)
            && |l| == s.config.proposalCount
            && forall i :: 0 <= i < |l| ==> l[i].id == i && l[i] == s.proposals[i]
  {
    RunInvariant(config, run, k);
    var s := StateAt(config, run, k);
    var n := s.config.proposalCount;
    assert s.proposals.Keys == IdsBelow(n);
    IdsBelowCardinality(n);
    assert |s.proposals| == |s.proposals.Keys|;
    forall i | 0 <= i < |l|
      ensures l[i].id == i
    {
      CountingUp(l, i);
      CountingDown(l, n, i);
    }
  }

  /** The statistics agree with the run: one proposal per id handed out, one
      executed record per Executed event, every finding open. */
  lemma StatsExact(config: GovernanceConfig, run: seq<Request>, k: nat)
    requires Startable(config) && k <= |run|
    requires StateAt(config, run, k).config.proposalCount < U64_MAX
    ensures var s := StateAt(config, run, k);
            StatsOf(s) == EngineStats(s.config.proposalCount, ExecutedCount(s.events), |s.findings|, |s.findings|)
  {
    RunInvariant(config, run, k);
    var s := StateAt(config, run, k);
    assert s.proposals.Keys == IdsBelow(s.config.proposalCount);
    IdsBelowCardinality(s.config.proposalCount);
    assert |s.proposals| == |s.proposals.Keys|;
    assert OpenIds(s.findings) == s.findings.Keys;
  }

  /** `after` is `before` further along: only the counter and the status may
      differ, a final record is frozen and an Approved one never reverts. */
  ghost predicate Advances(before: ProposalRecord, after: ProposalRecord) {
    && after == before.(approvals := after.approvals, status := after.status)
    && (before.status.Final() ==> after == before)
    && (before.status.Approved? ==> !after.status.Pending?)
  }

  lemma AdvancesTransitive(a: ProposalRecord, b: ProposalRecord, c: ProposalRecord)
    requires Advances(a, b) && Advances(b, c)
    ensures Advances(a, c)
  {
  }

  /** The record under `id` after an effect is applied. */
  ghost predicate AdvancesTo(s: EngineState, e: Effect, id: u64)
    requires id in s.proposals
  {
    && id in Stored(s.proposals, e.write)
    && Advances(s.proposals[id], Stored(s.proposals, e.write)[id])
  }

  lemma ProposeAdvances(s: EngineState, programId: string, hashHex: string, proposer: Key, now: i64, later: i64,
                        id: u64)
    requires Inv(s) && id in s.proposals && id < U64_MAX
    ensures AdvancesTo(s, ProposeEffect(s.config, s.votes, programId, hashHex, proposer, now, later), id)
  {
    assert s.config.proposalCount != id;
  }

  lemma ApproveAdvances(s: EngineState, other: u64, guardian: Key, id: u64)
    requires Inv(s) && id in s.proposals
    ensures AdvancesTo(s, ApproveEffect(s.config, s.votes, Lookup(s.proposals, other), other, guardian), id)
  {
  }

  lemma ExecuteAdvances(s: EngineState, other: u64, now: i64, id: u64)
    requires Inv(s) && id in s.proposals
    ensures AdvancesTo(s, ExecuteEffect(s.config, s.votes, Lookup(s.proposals, other), other, now), id)
  {
  }

  lemma CancelAdvances(s: EngineState, other: u64, id: u64)
    requires Inv(s) && id in s.proposals
    ensures AdvancesTo(s, CancelEffect(s.config, s.votes, Lookup(s.proposals, other), other), id)
  {
  }

  lemma StepAdvances(s: EngineState, req: Request, id: u64)
    requires Inv(s) && id in s.proposals && id < U64_MAX
    ensures id in Step(s, req).state.proposals
    ensures Advances(s.proposals[id], Step(s, req).state.proposals[id])
  {
    match req.call
    case Propose(programId, hashHex, proposer) =>
      ProposeAdvances(s, programId, hashHex, proposer, req.now, req.later, id);
    case Approve(other, guardian) => ApproveAdvances(s, other, guardian, id);
    case Execute(other) => ExecuteAdvances(s, other, req.now, id);
    case Cancel(other) => CancelAdvances(s, other, id);
    case SetPaused(_) =>
    case SetGuardians(_, _) =>
    case RaiseFinding(_, _, _, _, _) =>
  }

  /** Finality and pinning over any stretch of a run: program, hash, proposer,
      eta, threshold and creation time never change, and Executed and Cancelled
      are never left. */
  lemma {:induction false} RecordsOnlyAdvance(config: GovernanceConfig, run: seq<Request>, i: nat, j: nat, id: u64)
    requires Startable(config) && i <= j <= |run| && id < U64_MAX
    requires id in StateAt(config, run, i).proposals
    ensures id in StateAt(config, run, j).proposals
    ensures Advances(StateAt(config, run, i).proposals[id], StateAt(config, run, j).proposals[id])
    decreases j
  {
    if i == j {
    } else {
      RecordsOnlyAdvance(config, run, i, j - 1, id);
      NextStateAdvances(config, run, j - 1, id);
      AdvancesTransitive(StateAt(config, run, i).proposals[id], StateAt(config, run, j - 1).proposals[id],
                         StateAt(config, run, j).proposals[id]);
    }
  }

  lemma NextStateAdvances(config: GovernanceConfig, run: seq<Request>, k: nat, id: u64)
    requires Startable(config) && k < |run| && id < U64_MAX && id in StateAt(config, run, k).proposals
    ensures id in StateAt(config, run, k + 1).proposals
    ensures Advances(StateAt(config, run, k).proposals[id], StateAt(config, run, k + 1).proposals[id])
  {
    RunInvariant(config, run, k);
    StepAdvances(StateAt(config, run, k), run[k], id);
  }

  /** The pinned hash is the canonical text of a nonzero hash in every state. */
  lemma HashStaysCanonical(config: GovernanceConfig, run: seq<Request>, k: nat, id: u64)
    requires Startable(config) && k <= |run| && id < U64_MAX
    requires id in StateAt(config, run, k).proposals
    ensures Canonical(StateAt(config, run, k).proposals[id].buildHash)
  {
    RunInvariant(config, run, k);
    assert Tracked(StateAt(config, run, k), id);
  }

  ghost predicate Executed(s: EngineState, id: u64) {
    id in s.proposals && s.proposals[id].status.Executed?
  }

  /** Request `e` executed proposal `id`, with every gate open: not paused, the
      record Approved by at least its threshold of distinct voters, eta reached. */
  ghost predicate ExecutesSafely(s: EngineState, req: Request, id: u64) {
    && req.call == Execute(id)
    && id in s.proposals
    && !s.config.paused
    && s.proposals[id].status.Approved?
    && 1 <= s.proposals[id].threshold <= |VotersOf(s.votes, id)|
    && s.proposals[id].eta <= req.now
    && Step(s, req).reply.Ok?
  }

  /** No effect but an execute's writes an Executed record. */
  ghost predicate WritesLive(e: Effect) {
    e.write.Some? ==> !e.write.value.status.Executed?
  }

  lemma ApproveWritesLive(s: EngineState, id: u64, guardian: Key)
    ensures WritesLive(ApproveEffect(s.config, s.votes, Lookup(s.proposals, id), id, guardian))
  {
  }

  lemma ProposeWritesLive(s: EngineState, programId: string, hashHex: string, proposer: Key, now: i64, later: i64)
    ensures WritesLive(ProposeEffect(s.config, s.votes, programId, hashHex, proposer, now, later))
  {
  }

  lemma ExecuteWritesSafely(s: EngineState, req: Request, id: u64)
    requires Inv(s) && id < U64_MAX && req.call.Execute?
    requires Executed(Step(s, req).state, id)
    ensures Executed(s, id) || ExecutesSafely(s, req, id)
  {
    assert Tracked(s, id);
  }

  lemma OnlyExecuteExecutes(s: EngineState, req: Request, id: u64)
    requires Inv(s) && id < U64_MAX
    requires Executed(Step(s, req).state, id)
    ensures Executed(s, id) || ExecutesSafely(s, req, id)
  {
    match req.call
    case Propose(programId, hashHex, proposer) =>
      ProposeWritesLive(s, programId, hashHex, proposer, req.now, req.later);
    case Approve(other, guardian) => ApproveWritesLive(s, other, guardian);
    case Execute(_) => ExecuteWritesSafely(s, req, id);
    case Cancel(_) =>
    case SetPaused(_) =>
    case SetGuardians(_, _) =>
    case RaiseFinding(_, _, _, _, _) =>
  }

  lemma LastExecution(config: GovernanceConfig, run: seq<Request>, k: nat, id: u64)
    requires Startable(config) && k < |run| && id < U64_MAX && Executed(StateAt(config, run, k + 1), id)
    ensures Executed(StateAt(config, run, k), id) || ExecutesSafely(StateAt(config, run, k), run[k], id)
  {
    RunInvariant(config, run, k);
    OnlyExecuteExecutes(StateAt(config, run, k), run[k], id);
  }

  /** Every executed record was executed once, by a request that met every gate. */
  lemma {:induction false} ExecutionOrigin(config: GovernanceConfig, run: seq<Request>, k: nat, id: u64)
    returns (e: nat)
    requires Startable(config) && k <= |run| && id < U64_MAX
    requires Executed(StateAt(config, run, k), id)
    ensures e < k && ExecutesSafely(StateAt(config, run, e), run[e], id)
  {
    if k == 0 {
      assert false;
    } else {
      LastExecution(config, run, k - 1, id);
      if Executed(StateAt(config, run, k - 1), id) {
        e := ExecutionOrigin(config, run, k - 1, id);
      } else {
        e := k - 1;
      }
    }
  }

  /** No proposal is executed by two requests of one run. */
  lemma ExecutedOnce(config: GovernanceConfig, run: seq<Request>, i: nat, j: nat, id: u64)
    requires Startable(config) && i < j < |run| && id < U64_MAX
    requires run[i].call == Execute(id) && ReplyAt(config, run, i).Ok?
    ensures run[j].call == Execute(id) ==> ReplyAt(config, run, j).Err?
  {
    NowExecuted(config, run, i, id);
    StaysExecuted(config, run, i + 1, j, id);
    ExecutedBlocks(StateAt(config, run, j), run[j], id);
  }

  lemma NowExecuted(config: GovernanceConfig, run: seq<Request>, i: nat, id: u64)
    requires Startable(config) && i < |run| && run[i].call == Execute(id) && ReplyAt(config, run, i).Ok?
    ensures Executed(StateAt(config, run, i + 1), id)
  {
    RunInvariant(config, run, i);
    ExecuteStores(StateAt(config, run, i), run[i], id);
  }

  lemma StaysExecuted(config: GovernanceConfig, run: seq<Request>, i: nat, j: nat, id: u64)
    requires Startable(config) && i <= j <= |run| && id < U64_MAX && Executed(StateAt(config, run, i), id)
    ensures Executed(StateAt(config, run, j), id)
  {
    RecordsOnlyAdvance(config, run, i, j, id);
  }

  lemma ExecutedBlocks(s: EngineState, req: Request, id: u64)
    requires Executed(s, id)
    ensures req.call == Execute(id) ==> Step(s, req).reply.Err?
  {
  }

  lemma ExecuteStores(s: EngineState, req: Request, id: u64)
    requires Inv(s) && req.call == Execute(id) && Step(s, req).reply.Ok?
    ensures Executed(Step(s, req).state, id)
  {
  }
}
