/** Can a live proposal of the engine still be executed? On-chain it always can;
    in the engine a rotation, or a vote counter that wrapped, may leave it without
    enough guardians who have yet to vote. This module gives the exact condition. */
module EngineProgress {
  import opened Machine
  import opened GovernanceRules
  import opened Domain
  import opened EngineSpec
  import opened EngineLifecycle

  ghost predicate Live(s: EngineState, id: u64) {
    id in s.proposals && !s.proposals[id].status.Final()
  }

  /** The current guardians who have not voted on the proposal. */
  ghost function Unspent(s: EngineState, id: u64): set<Key> {
    Members(s.config.guardians) - VotersOf(s.votes, id)
  }

  /** The guardians in force can still carry the counter to the pinned threshold. */
  ghost predicate WithinReach(s: EngineState, id: u64)
    requires id in s.proposals
  {
    s.proposals[id].approvals + |Unspent(s, id)| >= s.proposals[id].threshold
  }

  /** Votes still missing under the pinned threshold. */
  ghost function Missing(s: EngineState, id: u64): nat
    requires id in s.proposals
  {
    var threshold, approvals := s.proposals[id].threshold, s.proposals[id].approvals;
    if approvals < threshold then threshold - approvals else 0
  }

  ghost predicate WithoutRotation(run: seq<Request>) {
    forall i :: 0 <= i < |run| ==> !run[i].call.SetGuardians?
  }

  /** Run from `s`, these requests end with the proposal executed. */
  ghost predicate Executes(s: EngineState, run: seq<Request>, id: u64) {
    var t := StateFrom(s, run, |run|);
    id in t.proposals && t.proposals[id].status.Executed?
  }

  // ---------- out of reach for good ----------

  ghost predicate Stranded(s: EngineState, id: u64) {
    && id in s.proposals && !s.proposals[id].status.Executed?
    && (s.proposals[id].status.Cancelled? || !WithinReach(s, id))
  }

  /** What an effect does to the proposal leaves it stranded. */
  ghost predicate Strands(s: EngineState, e: Effect, id: u64) {
    Stranded(Apply(s, e).state, id)
  }

  /** An effect that leaves guardians, voters and record alone, or cancels it. */
  lemma LeavesStranded(s: EngineState, e: Effect, id: u64)
    requires Stranded(s, id)
    requires e.config.guardians == s.config.guardians && VotersOf(e.votes, id) == VotersOf(s.votes, id)
    requires e.write.Some? && e.write.value.id == id ==> e.write.value.status.Cancelled?
    ensures Strands(s, e, id)
  {
    assert Unspent(Apply(s, e).state, id) == Unspent(s, id);
  }

  lemma ProposeWritesNew(s: EngineState, programId: string, hashHex: string, proposer: Key, now: i64, later: i64)
    ensures var e := ProposeEffect(s.config, s.votes, programId, hashHex, proposer, now, later);
            && e.config.guardians == s.config.guardians && e.votes == s.votes
            && (e.write.Some? ==> e.write.value.id == s.config.proposalCount)
  {
  }

  lemma ProposeStrands(s: EngineState, programId: string, hashHex: string, proposer: Key, now: i64, later: i64, id: u64)
    requires Inv(s) && Stranded(s, id) && id < U64_MAX
    ensures Strands(s, ProposeEffect(s.config, s.votes, programId, hashHex, proposer, now, later), id)
  {
    assert s.config.proposalCount != id;
    ProposeWritesNew(s, programId, hashHex, proposer, now, later);
    LeavesStranded(s, ProposeEffect(s.config, s.votes, programId, hashHex, proposer, now, later), id);
  }

  /** One more vote uses up one guardian, so the reach stays what it was. */
  lemma VoteUsesUp(s: EngineState, id: u64, guardian: Key)
    requires guardian in s.config.guardians && guardian !in VotersOf(s.votes, id)
    ensures var votes := s.votes[id := VotersOf(s.votes, id) + {guardian}];
            |Unspent(s.(votes := votes), id)| == |Unspent(s, id)| - 1
  {
    var votes := s.votes[id := VotersOf(s.votes, id) + {guardian}];
    assert Unspent(s.(votes := votes), id) == Unspent(s, id) - {guardian};
  }

  lemma TruncSuccessor(n: nat)
    requires TruncU8(n) < U8_MAX
    ensures TruncU8(n + 1) == TruncU8(n) + 1
  {
  }

  /** .. and below the threshold the counter goes up by one. */
  lemma VoteCounts(s: EngineState, id: u64, guardian: Key)
    requires Inv(s) && id in s.proposals && id < U64_MAX && guardian !in VotersOf(s.votes, id)
    requires s.proposals[id].approvals < s.proposals[id].threshold
    ensures Tallied(s.proposals[id], VotersOf(s.votes, id) + {guardian}).approvals == s.proposals[id].approvals + 1
  {
    assert Tracked(s, id);
    assert |VotersOf(s.votes, id) + {guardian}| == |VotersOf(s.votes, id)| + 1;
    TruncSuccessor(|VotersOf(s.votes, id)|);
  }

  lemma VoteStrands(s: EngineState, other: u64, guardian: Key, id: u64)
    requires Inv(s) && Stranded(s, id) && id < U64_MAX
    ensures Strands(s, ApproveEffect(s.config, s.votes, Lookup(s.proposals, other), other, guardian), id)
  {
    var e := ApproveEffect(s.config, s.votes, Lookup(s.proposals, other), other, guardian);
    if e.write.None? || other != id {
      LeavesStranded(s, e, id);
    } else {
      VoteUsesUp(s, id, guardian);
      VoteCounts(s, id, guardian);
    }
  }

  lemma ExecuteStrands(s: EngineState, other: u64, now: i64, id: u64)
    requires Inv(s) && Stranded(s, id)
    ensures Strands(s, ExecuteEffect(s.config, s.votes, Lookup(s.proposals, other), other, now), id)
  {
    LeavesStranded(s, ExecuteEffect(s.config, s.votes, Lookup(s.proposals, other), other, now), id);
  }

  lemma CancelStrands(s: EngineState, other: u64, id: u64)
    requires Inv(s) && Stranded(s, id)
    ensures Strands(s, CancelEffect(s.config, s.votes, Lookup(s.proposals, other), other), id)
  {
    LeavesStranded(s, CancelEffect(s.config, s.votes, Lookup(s.proposals, other), other), id);
  }

  lemma ProposalCallStrands(s: EngineState, req: Request, id: u64)
    requires Inv(s) && Stranded(s, id) && id < U64_MAX && (req.call.Propose? || Wanted(req.call).Some?)
    ensures Stranded(Step(s, req).state, id)
  {
    match req.call
    case Propose(programId, hashHex, proposer) =>
      ProposeStrands(s, programId, hashHex, proposer, req.now, req.later, id);
    case Approve(other, guardian) => VoteStrands(s, other, guardian, id);
    case Execute(other) => ExecuteStrands(s, other, req.now, id);
    case Cancel(other) => CancelStrands(s, other, id);
  }

  lemma StaysStranded(s: EngineState, req: Request, id: u64)
    requires Inv(s) && Stranded(s, id) && id < U64_MAX && !req.call.SetGuardians?
    ensures Stranded(Step(s, req).state, id)
  {
    if req.call.Propose? || Wanted(req.call).Some? {
      ProposalCallStrands(s, req, id);
    }
  }

  lemma {:induction false} StrandedForGood(s: EngineState, run: seq<Request>, k: nat, id: u64)
    requires Inv(s) && Stranded(s, id) && id < U64_MAX && k <= |run| && WithoutRotation(run)
    ensures Inv(StateFrom(s, run, k)) && Stranded(StateFrom(s, run, k), id)
  {
    if k == 0 {
    } else {
      StrandedForGood(s, run, k - 1, id);
      StepKeeps(StateFrom(s, run, k - 1), run[k - 1]);
      StaysStranded(StateFrom(s, run, k - 1), run[k - 1], id);
    }
  }

  // ---------- within reach ----------

  /** Request number `i` of the run is accepted, at time `t`. */
  ghost predicate Accepted(s: EngineState, run: seq<Request>, i: nat, t: i64)
    requires i < |run|
  {
    run[i].now == t && Step(StateFrom(s, run, i), run[i]).reply.Ok?
  }

  /** Every request of the run is accepted, at time `t`. */
  ghost predicate AllAccepted(s: EngineState, run: seq<Request>, t: i64) {
    forall i :: 0 <= i < |run| ==> Accepted(s, run, i, t)
  }

  /** Approvals by these guardians, then an execute. */
  ghost predicate VotesThenExecutes(plan: seq<Request>, guardians: seq<Key>, id: u64) {
    && |plan| > 0
    && plan[|plan| - 1].call == Execute(id)
    && forall i :: 0 <= i < |plan| - 1 ==>
         plan[i].call.Approve? && plan[i].call.id == id && plan[i].call.guardian in guardians
  }

  /** The run is accepted throughout and executes the proposal. */
  ghost predicate Finishes(s: EngineState, run: seq<Request>, id: u64, t: i64) {
    AllAccepted(s, run, t) && Executes(s, run, id)
  }

  lemma AcceptedLater(s: EngineState, req: Request, rest: seq<Request>, i: nat, t: i64)
    requires i < |rest| && Accepted(Step(s, req).state, rest, i, t)
    ensures Accepted(s, [req] + rest, i + 1, t)
  {
    Prepend(s, req, rest, i);
    assert ([req] + rest)[i + 1] == rest[i];
  }

  lemma AcceptedCons(s: EngineState, req: Request, rest: seq<Request>, t: i64)
    requires req.now == t && Step(s, req).reply.Ok? && AllAccepted(Step(s, req).state, rest, t)
    ensures AllAccepted(s, [req] + rest, t)
  {
    assert StateFrom(s, [req] + rest, 0) == s;
    forall i | 0 < i < |[req] + rest|
      ensures Accepted(s, [req] + rest, i, t)
    {
      AcceptedLater(s, req, rest, i - 1, t);
    }
  }

  lemma FinishesCons(s: EngineState, req: Request, rest: seq<Request>, id: u64, t: i64)
    requires req.now == t && Step(s, req).reply.Ok? && Finishes(Step(s, req).state, rest, id, t)
    ensures Finishes(s, [req] + rest, id, t)
  {
    AcceptedCons(s, req, rest, t);
    Prepend(s, req, rest, |rest|);
  }

  ghost predicate Ready(s: EngineState, id: u64, t: i64) {
    && Inv(s) && id < U64_MAX && Live(s, id) && WithinReach(s, id)
    && !s.config.paused && t >= s.proposals[id].eta
  }

  lemma ExecuteNow(s: EngineState, id: u64, t: i64)
    requires Ready(s, id, t) && Missing(s, id) == 0
    ensures Finishes(s, [Request(Execute(id), t, t)], id, t)
  {
    var run := [Request(Execute(id), t, t)];
    assert StateFrom(s, run, 0) == s;
    assert StateFrom(s, run, 1) == Step(s, run[0]).state;
  }

  lemma VoteAccepted(s: EngineState, id: u64, g: Key, t: i64)
    requires Ready(s, id, t) && g in s.config.guardians && g !in VotersOf(s.votes, id)
    ensures var o := Step(s, Request(Approve(id, g), t, t));
            var voters := VotersOf(s.votes, id) + {g};
            && o.reply.Ok? && o.state.config == s.config && o.state.votes == s.votes[id := voters]
            && id in o.state.proposals && o.state.proposals[id] == Tallied(s.proposals[id], voters)
  {
  }

  /** .. and leaves the proposal in reach, with one vote less missing. */
  lemma VoteKeepsReady(s: EngineState, s': EngineState, id: u64, g: Key, t: i64)
    requires Ready(s, id, t) && Missing(s, id) > 0 && g in s.config.guardians && g !in VotersOf(s.votes, id)
    requires var voters := VotersOf(s.votes, id) + {g};
             && s'.config == s.config && s'.votes == s.votes[id := voters]
             && id in s'.proposals && s'.proposals[id] == Tallied(s.proposals[id], voters)
    requires Inv(s')
    ensures Ready(s', id, t) && Missing(s', id) == Missing(s, id) - 1
  {
    VoteUsesUp(s, id, g);
    VoteCounts(s, id, g);
    assert Unspent(s', id) == Unspent(s.(votes := s'.votes), id);
  }

  /** While votes are missing, some guardian in force can cast one more. */
  lemma MissingVote(s: EngineState, id: u64, t: i64) returns (g: Key)
    requires Ready(s, id, t) && Missing(s, id) > 0
    ensures g in s.config.guardians
    ensures var o := Step(s, Request(Approve(id, g), t, t));
            && o.reply.Ok? && Ready(o.state, id, t) && o.state.config == s.config
            && Missing(o.state, id) == Missing(s, id) - 1
  {
    assert |Unspent(s, id)| > 0;
    g :| g in Unspent(s, id);
    var req := Request(Approve(id, g), t, t);
    StepKeeps(s, req);
    VoteAccepted(s, id, g, t);
    VoteKeepsReady(s, Step(s, req).state, id, g, t);
  }

  lemma PlanCons(g: Key, rest: seq<Request>, guardians: seq<Key>, id: u64, t: i64)
    requires g in guardians && VotesThenExecutes(rest, guardians, id)
    ensures VotesThenExecutes([Request(Approve(id, g), t, t)] + rest, guardians, id)
  {
  }

  lemma {:induction false} FinishActive(s: EngineState, id: u64, t: i64) returns (plan: seq<Request>)
    requires Ready(s, id, t)
    ensures |plan| == Missing(s, id) + 1 && VotesThenExecutes(plan, s.config.guardians, id)
    ensures Finishes(s, plan, id, t)
    decreases Missing(s, id)
  {
    if Missing(s, id) == 0 {
      plan := [Request(Execute(id), t, t)];
      ExecuteNow(s, id, t);
    } else {
      var g := MissingVote(s, id, t);
      var req := Request(Approve(id, g), t, t);
      var rest := FinishActive(Step(s, req).state, id, t);
      FinishesCons(s, req, rest, id, t);
      PlanCons(g, rest, s.config.guardians, id, t);
      plan := [req] + rest;
    }
  }

  /** The plan for a proposal within reach, from time `t` on: an unpause if need be,
      exactly the missing votes by guardians in force, one execute. */
  ghost predicate IsPlan(s: EngineState, plan: seq<Request>, id: u64, t: i64)
    requires id in s.proposals
  {
    var unpause := if s.config.paused then 1 else 0;
    && Finishes(s, plan, id, t)
    && |plan| == unpause + Missing(s, id) + 1
    && (s.config.paused ==> plan[0] == Request(SetPaused(false), t, t))
    && VotesThenExecutes(plan[unpause..], s.config.guardians, id)
  }

  lemma Unpaused(s: EngineState, id: u64, t: i64)
    requires Inv(s) && id < U64_MAX && Live(s, id) && WithinReach(s, id) && t >= s.proposals[id].eta
    ensures var o := Step(s, Request(SetPaused(false), t, t));
            o.reply.Ok? && Ready(o.state, id, t) && o.state.config.guardians == s.config.guardians
            && Missing(o.state, id) == Missing(s, id)
  {
    StepKeeps(s, Request(SetPaused(false), t, t));
  }

  lemma PlanExists(s: EngineState, id: u64, t: i64) returns (plan: seq<Request>)
    requires Inv(s) && id < U64_MAX && Live(s, id) && WithinReach(s, id) && t >= s.proposals[id].eta
    ensures IsPlan(s, plan, id, t)
  {
    if s.config.paused {
      var req := Request(SetPaused(false), t, t);
      Unpaused(s, id, t);
      var rest := FinishActive(Step(s, req).state, id, t);
      FinishesCons(s, req, rest, id, t);
      plan := [req] + rest;
      assert plan[1..] == rest;
    } else {
      plan := FinishActive(s, id, t);
      assert plan[0..] == plan;
    }
  }

  lemma VotesDoNotRotate(plan: seq<Request>, guardians: seq<Key>, id: u64)
    requires VotesThenExecutes(plan, guardians, id)
    ensures WithoutRotation(plan)
  {
  }

  lemma PlanDoesNotRotate(s: EngineState, plan: seq<Request>, id: u64, t: i64)
    requires id in s.proposals && IsPlan(s, plan, id, t)
    ensures WithoutRotation(plan)
  {
    if s.config.paused {
      VotesDoNotRotate(plan[1..], s.config.guardians, id);
      assert plan == [plan[0]] + plan[1..];
    } else {
      VotesDoNotRotate(plan[0..], s.config.guardians, id);
      assert plan == plan[0..];
    }
  }

  // ---------- the promises ----------

  /** A live proposal within reach is carried to execution by a plan that fits any
      clock from `from` on. */
  lemma ReachableFinishes(config: GovernanceConfig, run: seq<Request>, k: nat, id: u64, from: i64)
    returns (plan: seq<Request>)
    requires Startable(config) && k <= |run| && id < U64_MAX
    requires Live(StateAt(config, run, k), id) && WithinReach(StateAt(config, run, k), id)
    ensures var s := StateAt(config, run, k);
            IsPlan(s, plan, id, if from >= s.proposals[id].eta then from else s.proposals[id].eta)
  {
    RunInvariant(config, run, k);
    var s := StateAt(config, run, k);
    plan := PlanExists(s, id, if from >= s.proposals[id].eta then from else s.proposals[id].eta);
  }

  /** A live proposal out of reach is executed by no requests short of a rotation. */
  lemma OutOfReachForGood(config: GovernanceConfig, run: seq<Request>, k: nat, id: u64, more: seq<Request>)
    requires Startable(config) && k <= |run| && id < U64_MAX && Live(StateAt(config, run, k), id)
    requires !WithinReach(StateAt(config, run, k), id) && WithoutRotation(more)
    ensures !Executes(StateAt(config, run, k), more, id)
  {
    RunInvariant(config, run, k);
    StrandedForGood(StateAt(config, run, k), more, |more|, id);
  }

  /** Progress, exactly: after any run, a live proposal can still be executed
      without a further rotation if and only if its counter plus the guardians in
      force who have not voted reaches its pinned threshold. */
  lemma ExecutableExactly(config: GovernanceConfig, run: seq<Request>, k: nat, id: u64)
    requires Startable(config) && k <= |run| && id < U64_MAX && Live(StateAt(config, run, k), id)
    ensures WithinReach(StateAt(config, run, k), id)
            <==> exists more :: WithoutRotation(more) && Executes(StateAt(config, run, k), more, id)
  {
    RunInvariant(config, run, k);
    var s := StateAt(config, run, k);
    if WithinReach(s, id) {
      var plan := PlanExists(s, id, s.proposals[id].eta);
      PlanDoesNotRotate(s, plan, id, s.proposals[id].eta);
      assert Executes(s, plan, id);
    } else {
      forall more | WithoutRotation(more)
        ensures !Executes(s, more, id)
      {
        OutOfReachForGood(config, run, k, id, more);
      }
    }
  }
}
