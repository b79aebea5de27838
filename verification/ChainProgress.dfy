/** No proposal gets stuck on-chain: a live one can always be carried to execution. */
module ChainProgress {
  import opened Machine
  import opened GovernanceRules
  import opened Domain
  import opened OnChainSpec
  import opened ChainInvariant

  ghost predicate Live(s: ChainState, id: u64) {
    s.gov.Some? && id in s.proposals && !s.proposals[id].executed && !s.proposals[id].cancelled
  }

  /** Votes still missing under the threshold now in force. */
  ghost function Missing(s: ChainState, id: u64): nat
    requires Live(s, id)
  {
    var threshold, approvals := s.gov.value.threshold, s.proposals[id].approvals;
    if approvals < threshold then threshold - approvals else 0
  }

  // ---------- plans ----------

  /** Transaction number `i` of the plan succeeds, at time `t`. */
  ghost predicate Accepted(s: ChainState, plan: seq<Tx>, i: nat, t: i64)
    requires i < |plan|
  {
    plan[i].now == t && Process(ChainFrom(s, plan, i), plan[i]).result.Ok?
  }

  ghost predicate AllAccepted(s: ChainState, plan: seq<Tx>, t: i64) {
    forall i :: 0 <= i < |plan| ==> Accepted(s, plan, i, t)
  }

  ghost predicate Executed(s: ChainState, id: u64) {
    id in s.proposals && s.proposals[id].executed
  }

  /** From `s` on, the plan succeeds throughout at time `t` and executes `id`. */
  ghost predicate Achieves(s: ChainState, plan: seq<Tx>, id: u64, t: i64) {
    AllAccepted(s, plan, t) && Executed(ChainFrom(s, plan, |plan|), id)
  }

  /** Approvals by these guardians, then an execute. */
  ghost predicate VotesThenExecutes(plan: seq<Tx>, guardians: seq<Key>, id: u64) {
    && |plan| > 0
    && plan[|plan| - 1].ix == ExecuteUpgrade(id)
    && forall i :: 0 <= i < |plan| - 1 ==> plan[i].ix == ApproveUpgrade(id) && plan[i].signer in guardians
  }

  lemma AcceptedLater(s: ChainState, tx: Tx, rest: seq<Tx>, i: nat, t: i64)
    requires i < |rest| && Accepted(Process(s, tx).state, rest, i, t)
    ensures Accepted(s, [tx] + rest, i + 1, t)
  {
    Prepend(s, tx, rest, i);
    assert ([tx] + rest)[i + 1] == rest[i];
  }

  lemma AcceptedCons(s: ChainState, tx: Tx, rest: seq<Tx>, t: i64)
    requires tx.now == t && Process(s, tx).result.Ok? && AllAccepted(Process(s, tx).state, rest, t)
    ensures AllAccepted(s, [tx] + rest, t)
  {
    assert ChainFrom(s, [tx] + rest, 0) == s;
    forall i | 0 < i < |[tx] + rest|
      ensures Accepted(s, [tx] + rest, i, t)
    {
      AcceptedLater(s, tx, rest, i - 1, t);
    }
  }

  lemma AchievesCons(s: ChainState, tx: Tx, rest: seq<Tx>, id: u64, t: i64)
    requires tx.now == t && Process(s, tx).result.Ok? && Achieves(Process(s, tx).state, rest, id, t)
    ensures Achieves(s, [tx] + rest, id, t)
  {
    AcceptedCons(s, tx, rest, t);
    Prepend(s, tx, rest, |rest|);
  }

  lemma VoteCons(tx: Tx, rest: seq<Tx>, guardians: seq<Key>, id: u64)
    requires tx.ix == ApproveUpgrade(id) && tx.signer in guardians && VotesThenExecutes(rest, guardians, id)
    ensures VotesThenExecutes([tx] + rest, guardians, id)
  {
  }

  // ---------- from one state ----------

  ghost predicate Ready(s: ChainState, id: u64, t: i64) {
    Inv(s) && Live(s, id) && !s.gov.value.paused && t >= s.proposals[id].eta
  }

  lemma VoteAccepted(s: ChainState, id: u64, g: Key, t: i64)
    requires Ready(s, id, t) && Missing(s, id) > 0
    requires g in s.gov.value.guardians && Seeds(id, g) !in s.markers
    ensures var r := Process(s, Tx(g, t, ApproveUpgrade(id)));
            && r.result.Ok? && Live(r.state, id) && r.state.gov == s.gov
            && r.state.proposals[id].eta == s.proposals[id].eta
            && Missing(r.state, id) == Missing(s, id) - 1
  {
  }

  /** While votes are missing, some current guardian can cast one more. */
  lemma MissingVote(s: ChainState, id: u64, t: i64) returns (tx: Tx)
    requires Ready(s, id, t) && Missing(s, id) > 0
    ensures tx.ix == ApproveUpgrade(id) && tx.now == t && tx.signer in s.gov.value.guardians
    ensures var r := Process(s, tx);
            && r.result.Ok? && Ready(r.state, id, t) && r.state.gov == s.gov
            && Missing(r.state, id) == Missing(s, id) - 1
  {
    assert Sound(s, id);
    var g := UnspentGuardian(s.gov.value.guardians, s.gov.value.threshold, Voters(s.markers, id));
    InVoters(s.markers, id);
    tx := Tx(g, t, ApproveUpgrade(id));
    VoteAccepted(s, id, g, t);
    ProcessKeeps(s, tx);
  }

  lemma ExecuteNow(s: ChainState, id: u64, t: i64)
    requires Ready(s, id, t) && Missing(s, id) == 0
    ensures Achieves(s, [Tx(s.gov.value.authority, t, ExecuteUpgrade(id))], id, t)
  {
    var plan := [Tx(s.gov.value.authority, t, ExecuteUpgrade(id))];
    assert ChainFrom(s, plan, 0) == s;
    assert ChainFrom(s, plan, 1) == Process(s, plan[0]).state;
  }

  /** With the program active, the missing votes come from current guardians who
      have not voted, then anyone executes. */
  lemma {:induction false} FinishActive(s: ChainState, id: u64, t: i64) returns (plan: seq<Tx>)
    requires Ready(s, id, t)
    ensures |plan| == Missing(s, id) + 1 && VotesThenExecutes(plan, s.gov.value.guardians, id)
    ensures Achieves(s, plan, id, t)
    decreases Missing(s, id)
  {
    if Missing(s, id) == 0 {
      plan := [Tx(s.gov.value.authority, t, ExecuteUpgrade(id))];
      ExecuteNow(s, id, t);
    } else {
      var tx := MissingVote(s, id, t);
      var rest := FinishActive(Process(s, tx).state, id, t);
      AchievesCons(s, tx, rest, id, t);
      VoteCons(tx, rest, s.gov.value.guardians, id);
      plan := [tx] + rest;
    }
  }

  /** The plan for a live proposal: an unpause by the authority if need be, exactly
      the missing votes by current guardians, one execute. */
  ghost predicate IsPlan(s: ChainState, plan: seq<Tx>, id: u64, t: i64)
    requires Live(s, id)
  {
    var unpause := if s.gov.value.paused then 1 else 0;
    && Achieves(s, plan, id, t)
    && |plan| == unpause + Missing(s, id) + 1
    && (s.gov.value.paused ==> plan[0] == Tx(s.gov.value.authority, t, SetPaused(false)))
    && VotesThenExecutes(plan[unpause..], s.gov.value.guardians, id)
  }

  lemma Unpaused(s: ChainState, id: u64, t: i64)
    requires Inv(s) && Live(s, id) && t >= s.proposals[id].eta
    ensures var r := Process(s, Tx(s.gov.value.authority, t, SetPaused(false)));
            && r.result.Ok? && Ready(r.state, id, t) && Missing(r.state, id) == Missing(s, id)
            && r.state.gov.value.guardians == s.gov.value.guardians
  {
    ProcessKeeps(s, Tx(s.gov.value.authority, t, SetPaused(false)));
  }

  lemma PlanExists(s: ChainState, id: u64, t: i64) returns (plan: seq<Tx>)
    requires Inv(s) && Live(s, id) && t >= s.proposals[id].eta
    ensures IsPlan(s, plan, id, t)
  {
    if s.gov.value.paused {
      var tx := Tx(s.gov.value.authority, t, SetPaused(false));
      Unpaused(s, id, t);
      var rest := FinishActive(Process(s, tx).state, id, t);
      AchievesCons(s, tx, rest, id, t);
      plan := [tx] + rest;
      assert plan[1..] == rest;
    } else {
      plan := FinishActive(s, id, t);
      assert plan[0..] == plan;
    }
  }

  // ---------- the promise ----------

  /** The run `all` ends with `id` executed, and everything after its first
      `start` transactions succeeds, at time `t`. */
  ghost predicate Finishes(all: seq<Tx>, start: nat, id: u64, t: i64) {
    && (forall i :: start <= i < |all| ==> all[i].now == t && Succeeds(all, i))
    && Executed(ChainAt(all, |all|), id)
  }

  lemma StepContinues(txs: seq<Tx>, plan: seq<Tx>, i: nat, t: i64)
    requires i < |plan| && Accepted(ChainAt(txs, |txs|), plan, i, t)
    ensures (txs + plan)[|txs| + i].now == t && Succeeds(txs + plan, |txs| + i)
  {
    Continue(GENESIS, txs, plan, i);
    assert (txs + plan)[|txs| + i] == plan[i];
  }

  lemma PlanContinues(txs: seq<Tx>, plan: seq<Tx>, id: u64, t: i64)
    requires Achieves(ChainAt(txs, |txs|), plan, id, t)
    ensures Finishes(txs + plan, |txs|, id, t)
  {
    Continue(GENESIS, txs, plan, |plan|);
    forall i | |txs| <= i < |txs + plan|
      ensures (txs + plan)[i].now == t && Succeeds(txs + plan, i)
    {
      StepContinues(txs, plan, i - |txs|, t);
    }
  }

  /** Progress: after any transactions at all, a live proposal is executed by a
      continuation that fits any clock from `from` on: the authority unpauses if
      need be, exactly the missing votes are cast by current guardians, and an
      execute follows, all succeeding once eta is reached. */
  lemma NoProposalIsStuck(txs: seq<Tx>, id: u64, from: i64) returns (plan: seq<Tx>)
    requires Live(ChainAt(txs, |txs|), id)
    ensures var s := ChainAt(txs, |txs|);
            var t := if from >= s.proposals[id].eta then from else s.proposals[id].eta;
            IsPlan(s, plan, id, t) && Finishes(txs + plan, |txs|, id, t)
  {
    EveryStateSound(txs, |txs|);
    var s := ChainAt(txs, |txs|);
    var t := if from >= s.proposals[id].eta then from else s.proposals[id].eta;
    plan := PlanExists(s, id, t);
    PlanContinues(txs, plan, id, t);
  }
}
