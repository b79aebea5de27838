/** Quorum safety of the engine in every interleaving. */
module InterleavedSafety {
  import opened Machine
  import opened GovernanceRules
  import opened Domain
  import opened EngineSpec
  import opened InterleavedEngine

  // ---------- invariant ----------

  /** A record, wherever it is, never claims more votes than were cast. */
  ghost predicate Backed(votes: Votes, r: ProposalRecord) {
    && 1 <= r.threshold <= MAX_GUARDIANS
    && r.approvals <= |VotersOf(votes, r.id)|
    && (r.status.Executed? ==> r.threshold <= r.approvals)
  }

  /** The record a call in flight carries. */
  function Carried(pc: Pc): Option<ProposalRecord> {
    match pc
    case Proposing(ProposeStamp(r)) => Some(r)
    case Proposing(ProposeStore(r)) => Some(r)
    case Proposing(ProposeCount(r)) => Some(r)
    case Proposing(ProposePublish(r)) => Some(r)
    case Approving(ApproveVote(_, _, r)) => Some(r)
    case Approving(ApproveStore(_, r)) => Some(r)
    case Approving(ApprovePublish(_, r)) => Some(r)
    case Executing(ExecuteCheck(_, r)) => Some(r)
    case Executing(ExecuteStore(_, r)) => Some(r)
    case Executing(ExecutePublish(_, r)) => Some(r)
    case Cancelling(CancelStore(_, r)) => Some(r)
    case Cancelling(CancelPublish(_, r)) => Some(r)
    case _ => None
  }

  /** What a call in flight knows about the record it carries. */
  ghost predicate CarriesOwn(pc: Pc) {
    match pc
    case Proposing(ProposeStamp(r)) => r.status.Pending?
    case Proposing(ProposeStore(r)) => r.status.Pending?
    case Approving(ApproveVote(id, _, r)) => r.id == id && !r.status.Final()
    case Approving(ApproveStore(id, r)) => r.id == id && !r.status.Final()
    case Executing(ExecuteCheck(id, r)) => r.id == id
    case Executing(ExecuteStore(id, r)) => r.id == id && r.status.Executed?
    case Cancelling(CancelStore(id, r)) => r.id == id && r.status.Cancelled?
    case _ => true
  }

  ghost predicate PcSound(votes: Votes, pc: Pc) {
    CarriesOwn(pc) && (Carried(pc).Some? ==> Backed(votes, Carried(pc).value))
  }

  ghost predicate CoreSound(s: EngineState) {
    && ValidConfig(s.config.guardians, s.config.threshold)
    && forall id :: id in s.proposals ==> s.proposals[id].id == id && Backed(s.votes, s.proposals[id])
  }

  ghost predicate FlightSound(votes: Votes, flight: Flight) {
    forall caller :: caller in flight ==> PcSound(votes, flight[caller])
  }

  ghost predicate Sound(w: World) {
    CoreSound(w.core) && FlightSound(w.core.votes, w.flight)
  }

  /** Voter sets only grow. */
  ghost predicate VotesGrow(before: Votes, after: Votes) {
    forall id: u64 :: VotersOf(before, id) <= VotersOf(after, id)
  }

  lemma BackedGrows(before: Votes, after: Votes, r: ProposalRecord)
    requires VotesGrow(before, after) && Backed(before, r)
    ensures Backed(after, r)
  {
    SubsetCardinality(VotersOf(before, r.id), VotersOf(after, r.id));
  }

  lemma FlightGrows(before: Votes, after: Votes, flight: Flight)
    requires VotesGrow(before, after) && FlightSound(before, flight)
    ensures FlightSound(after, flight)
  {
    forall caller | caller in flight
      ensures PcSound(after, flight[caller])
    {
      if Carried(flight[caller]).Some? {
        BackedGrows(before, after, Carried(flight[caller]).value);
      }
    }
  }

  /** A move keeps the configuration valid, takes no vote back, stores only what is
      backed, and goes on with nothing else. */
  ghost predicate MoveSound(s: EngineState, m: Move) {
    && ValidConfig(m.config.guardians, m.config.threshold)
    && VotesGrow(s.votes, m.votes)
    && (m.write.Some? ==> Backed(s.votes, m.write.value))
    && (m.course.Goto? ==> PcSound(m.votes, m.course.pc))
  }

  lemma MovedSound(s: EngineState, m: Move)
    requires CoreSound(s) && MoveSound(s, m)
    ensures CoreSound(Moved(s, m))
  {
    var t := Moved(s, m);
    forall id | id in t.proposals
      ensures t.proposals[id].id == id && Backed(t.votes, t.proposals[id])
    {
      BackedGrows(s.votes, t.votes, t.proposals[id]);
    }
  }

  lemma LandSound(w: World, caller: nat, m: Move)
    requires Sound(w) && MoveSound(w.core, m)
    ensures Sound(Land(w, caller, m))
  {
    MovedSound(w.core, m);
    FlightGrows(w.core.votes, m.votes, w.flight);
  }

  lemma ProposeCutSound(s: EngineState, now: i64, pc: ProposePc)
    requires CoreSound(s) && PcSound(s.votes, Proposing(pc))
    ensures MoveSound(s, ProposeCut(s, now, pc))
  {
  }

  lemma TallyBacked(votes: Votes, r: ProposalRecord, voters: set<Key>)
    requires Backed(votes, r) && !r.status.Final() && VotersOf(votes, r.id) == voters
    ensures Backed(votes, Tallied(r, voters)) && !Tallied(r, voters).status.Final()
  {
  }

  lemma VoteCutSound(s: EngineState, id: u64, guardian: Key, record: ProposalRecord)
    requires CoreSound(s) && PcSound(s.votes, Approving(ApproveVote(id, guardian, record)))
    ensures MoveSound(s, ApproveCut(s, ApproveVote(id, guardian, record)))
  {
    var m := ApproveCut(s, ApproveVote(id, guardian, record));
    if guardian !in VotersOf(s.votes, id) {
      BackedGrows(s.votes, m.votes, record);
      TallyBacked(m.votes, record, VotersOf(m.votes, id));
    }
  }

  lemma ApproveCutSound(s: EngineState, pc: ApprovePc)
    requires CoreSound(s) && PcSound(s.votes, Approving(pc))
    ensures MoveSound(s, ApproveCut(s, pc))
  {
    if pc.ApproveVote? {
      VoteCutSound(s, pc.id, pc.guardian, pc.record);
    }
  }

  lemma ExecuteCutSound(s: EngineState, now: i64, pc: ExecutePc)
    requires CoreSound(s) && PcSound(s.votes, Executing(pc))
    ensures MoveSound(s, ExecuteCut(s, now, pc))
  {
  }

  lemma CancelCutSound(s: EngineState, pc: CancelPc)
    requires CoreSound(s) && PcSound(s.votes, Cancelling(pc))
    ensures MoveSound(s, CancelCut(s, pc))
  {
  }

  lemma CutSound(s: EngineState, now: i64, pc: Pc)
    requires CoreSound(s) && PcSound(s.votes, pc)
    ensures MoveSound(s, Cut(s, now, pc))
  {
    match pc
    case Pausing(_) =>
    case Rotating(_, _) =>
    case Proposing(p) => ProposeCutSound(s, now, p);
    case Approving(a) => ApproveCutSound(s, a);
    case Executing(e) => ExecuteCutSound(s, now, e);
    case Cancelling(c) => CancelCutSound(s, c);
  }

  lemma NextSound(w: World, a: Action)
    requires Sound(w)
    ensures Sound(Next(w, a))
  {
    match a
    case Advance(caller) => if caller in w.flight {
        CutSound(w.core, w.now, w.flight[caller]);
        LandSound(w, caller, Cut(w.core, w.now, w.flight[caller]));
      }
    case Start(_, _) =>
    case Drop(_) =>
    case Tick(_) =>
  }

  lemma {:induction false} RunSound(config: GovernanceConfig, run: seq<Action>, k: nat)
    requires Startable(config) && k <= |run|
    ensures Sound(WorldAt(config, run, k))
  {
    if k == 0 {
    } else {
      RunSound(config, run, k - 1);
      NextSound(WorldAt(config, run, k - 1), run[k - 1]);
    }
  }

  // ---------- tracing a call backwards ----------

  /** The action puts the caller at cut `pc`: its call starts there, or moves there. */
  ghost predicate Enters(w: World, a: Action, caller: nat, pc: Pc) {
    || (a.Start? && a.caller == caller && caller !in w.flight && Entry(a.call) == Some(pc))
    || (a == Advance(caller) && caller in w.flight && Cut(w.core, w.now, w.flight[caller]).course == Goto(pc))
  }

  ghost predicate Waits(w: World, caller: nat, pc: Pc) {
    caller in w.flight && w.flight[caller] == pc
  }

  lemma EntersOrWaits(w: World, a: Action, caller: nat)
    requires caller in Next(w, a).flight
    ensures Enters(w, a, caller, Next(w, a).flight[caller]) || Waits(w, caller, Next(w, a).flight[caller])
  {
  }

  lemma LastAction(config: GovernanceConfig, run: seq<Action>, k: nat, caller: nat, pc: Pc)
    requires k < |run| && Waits(WorldAt(config, run, k + 1), caller, pc)
    ensures Enters(WorldAt(config, run, k), run[k], caller, pc) || Waits(WorldAt(config, run, k), caller, pc)
  {
    EntersOrWaits(WorldAt(config, run, k), run[k], caller);
  }

  ghost predicate WaitsFrom(config: GovernanceConfig, run: seq<Action>, j: nat, k: nat, caller: nat, pc: Pc)
    requires k <= |run|
  {
    forall i :: j < i <= k ==> Waits(WorldAt(config, run, i), caller, pc)
  }

  lemma WaitsOn(config: GovernanceConfig, run: seq<Action>, j: nat, k: nat, caller: nat, pc: Pc)
    requires j <= k < |run| && WaitsFrom(config, run, j, k, caller, pc)
    requires Waits(WorldAt(config, run, k + 1), caller, pc)
    ensures WaitsFrom(config, run, j, k + 1, caller, pc)
  {
  }

  lemma NoneWaitsAtBoot(config: GovernanceConfig, run: seq<Action>, caller: nat, pc: Pc)
    ensures !Waits(WorldAt(config, run, 0), caller, pc)
  {
  }

  /** A call waiting at `pc` got there by some action, and has waited there since. */
  lemma {:induction false} CameFrom(config: GovernanceConfig, run: seq<Action>, k: nat, caller: nat, pc: Pc)
    returns (j: nat)
    requires k <= |run| && Waits(WorldAt(config, run, k), caller, pc)
    ensures j < k && Enters(WorldAt(config, run, j), run[j], caller, pc) && WaitsFrom(config, run, j, k, caller, pc)
  {
    if k == 0 {
      NoneWaitsAtBoot(config, run, caller, pc);
      assert false;
    } else {
      LastAction(config, run, k - 1, caller, pc);
      if Enters(WorldAt(config, run, k - 1), run[k - 1], caller, pc) {
        j := k - 1;
      } else {
        j := CameFrom(config, run, k - 1, caller, pc);
      }
      WaitsOn(config, run, j, k - 1, caller, pc);
    }
  }

  /** The caller's cut, if the action lets one run. */
  function Running(w: World, a: Action): Option<Pc> {
    if a.Advance? && a.caller in w.flight then Some(w.flight[a.caller]) else None
  }

  // ---------- every vote was checked ----------

  /** The action is a vote on `id` passing the guardian check. */
  ghost predicate PassesMembership(w: World, a: Action, id: u64, guardian: Key) {
    Running(w, a) == Some(Approving(ApproveMember(id, guardian))) && guardian in w.core.config.guardians
  }

  ghost predicate WasGuardianWhenChecked(config: GovernanceConfig, run: seq<Action>, k: nat, id: u64, g: Key)
    requires k <= |run|
  {
    exists j :: 0 <= j < k && PassesMembership(WorldAt(config, run, j), run[j], id, g)
  }

  lemma ApproveCutVotes(s: EngineState, pc: ApprovePc)
    ensures ApproveCut(s, pc).votes == s.votes || (pc.ApproveVote? && ApproveCut(s, pc).course.Goto?)
    ensures pc.ApproveVote? && ApproveCut(s, pc).course.Goto? ==>
              ApproveCut(s, pc).votes == s.votes[pc.id := VotersOf(s.votes, pc.id) + {pc.guardian}]
  {
  }

  lemma OtherCutsDoNotVote(s: EngineState, now: i64, pc: Pc)
    requires !pc.Approving?
    ensures Cut(s, now, pc).votes == s.votes
  {
  }

  lemma OnlyVotesVote(s: EngineState, now: i64, pc: Pc, id: u64, g: Key) returns (record: ProposalRecord)
    requires g in VotersOf(Cut(s, now, pc).votes, id) && g !in VotersOf(s.votes, id)
    ensures pc == Approving(ApproveVote(id, g, record))
  {
    if pc.Approving? {
      ApproveCutVotes(s, pc.a);
      record := pc.a.record;
    } else {
      OtherCutsDoNotVote(s, now, pc);
      assert false;
    }
  }

  lemma NewVote(w: World, a: Action, id: u64, g: Key) returns (record: ProposalRecord)
    requires g in VotersOf(Next(w, a).core.votes, id) && g !in VotersOf(w.core.votes, id)
    ensures Running(w, a) == Some(Approving(ApproveVote(id, g, record)))
  {
    assert a.Advance? && a.caller in w.flight;
    record := OnlyVotesVote(w.core, w.now, w.flight[a.caller], id, g);
  }

  lemma BeforeVote(w: World, a: Action, caller: nat, id: u64, g: Key, record: ProposalRecord)
    requires Enters(w, a, caller, Approving(ApproveVote(id, g, record)))
    ensures Waits(w, caller, Approving(ApproveFetch(id, g)))
  {
  }

  lemma BeforeVoteFetch(w: World, a: Action, caller: nat, id: u64, g: Key)
    requires Enters(w, a, caller, Approving(ApproveFetch(id, g)))
    ensures PassesMembership(w, a, id, g)
  {
  }

  /** A call about to vote passed the guardian check before. */
  lemma VoterChecked(config: GovernanceConfig, run: seq<Action>, k: nat, caller: nat, id: u64, g: Key,
                     record: ProposalRecord)
    requires k <= |run| && Waits(WorldAt(config, run, k), caller, Approving(ApproveVote(id, g, record)))
    ensures WasGuardianWhenChecked(config, run, k, id, g)
  {
    var fetch := CameFrom(config, run, k, caller, Approving(ApproveVote(id, g, record)));
    BeforeVote(WorldAt(config, run, fetch), run[fetch], caller, id, g, record);
    var member := CameFrom(config, run, fetch, caller, Approving(ApproveFetch(id, g)));
    BeforeVoteFetch(WorldAt(config, run, member), run[member], caller, id, g);
  }

  lemma {:induction false} EveryVoterChecked(config: GovernanceConfig, run: seq<Action>, k: nat, id: u64, g: Key)
    requires k <= |run| && g in VotersOf(WorldAt(config, run, k).core.votes, id)
    ensures WasGuardianWhenChecked(config, run, k, id, g)
  {
    if k == 0 {
      assert false;
    } else if g in VotersOf(WorldAt(config, run, k - 1).core.votes, id) {
      EveryVoterChecked(config, run, k - 1, id, g);
    } else {
      var record := NewVote(WorldAt(config, run, k - 1), run[k - 1], id, g);
      VoterChecked(config, run, k - 1, run[k - 1].caller, id, g, record);
    }
  }

  // ---------- every execution was one gated call ----------

  /** The action is an execute of `id` finding the engine unpaused. */
  ghost predicate FindsActive(w: World, a: Action, id: u64) {
    Running(w, a) == Some(Executing(ExecuteGate(id))) && !w.core.config.paused
  }

  /** The action is an execute of `id` fetching the live record `r`. */
  ghost predicate FetchesLive(w: World, a: Action, id: u64, r: ProposalRecord) {
    Running(w, a) == Some(Executing(ExecuteFetch(id))) && Fetch(w.core, id) == Ok(r)
  }

  /** The action is an execute of `id` passing the gate with record `r`. */
  ghost predicate PassesGate(w: World, a: Action, id: u64, r: ProposalRecord) {
    Running(w, a) == Some(Executing(ExecuteCheck(id, r))) && r.approvals >= r.threshold && w.now >= r.eta
  }

  /** The action is an execute of `id` storing record `r`. */
  ghost predicate StoresExecuted(w: World, a: Action, id: u64, r: ProposalRecord) {
    Running(w, a) == Some(Executing(ExecuteStore(id, r)))
  }

  /** The four actions of one execute call that lead to its store. */
  datatype Execution = Execution(caller: nat, active: nat, fetch: nat, gate: nat, store: nat)

  ghost predicate InFlightFrom(config: GovernanceConfig, run: seq<Action>, j: nat, k: nat, caller: nat)
    requires k <= |run|
  {
    forall i :: j <= i <= k ==> caller in WorldAt(config, run, i).flight
  }

  /** One and the same call found the engine unpaused, fetched `before`, passed the
      gate with it and stored it as executed, in flight all the while. */
  ghost predicate OneExecution(config: GovernanceConfig, run: seq<Action>, x: Execution, id: u64,
                               before: ProposalRecord)
    requires x.active < x.fetch < x.gate < x.store < |run|
  {
    && run[x.active] == run[x.fetch] == run[x.gate] == run[x.store] == Advance(x.caller)
    && InFlightFrom(config, run, x.active, x.store, x.caller)
    && FindsActive(WorldAt(config, run, x.active), run[x.active], id)
    && FetchesLive(WorldAt(config, run, x.fetch), run[x.fetch], id, before)
    && PassesGate(WorldAt(config, run, x.gate), run[x.gate], id, before)
    && StoresExecuted(WorldAt(config, run, x.store), run[x.store], id, before.(status := Executed))
  }

  lemma OnlyExecuteStores(s: EngineState, now: i64, pc: Pc, r: ProposalRecord)
    requires CarriesOwn(pc) && Cut(s, now, pc).write == Some(r) && r.status.Executed?
    ensures pc == Executing(ExecuteStore(r.id, r))
  {
  }

  lemma NewExecuted(w: World, a: Action, id: u64)
    requires Sound(w) && id in Next(w, a).core.proposals && Next(w, a).core.proposals[id].status.Executed?
    requires id in w.core.proposals ==> Next(w, a).core.proposals[id] != w.core.proposals[id]
    ensures StoresExecuted(w, a, id, Next(w, a).core.proposals[id])
  {
    var r := Next(w, a).core.proposals[id];
    assert a.Advance? && a.caller in w.flight;
    var pc := w.flight[a.caller];
    assert PcSound(w.core.votes, pc);
    assert Cut(w.core, w.now, pc).write == Some(r);
    OnlyExecuteStores(w.core, w.now, pc, r);
  }

  lemma BeforeStore(w: World, a: Action, caller: nat, id: u64, r: ProposalRecord) returns (before: ProposalRecord)
    requires Enters(w, a, caller, Executing(ExecuteStore(id, r)))
    ensures a == Advance(caller) && Waits(w, caller, Executing(ExecuteCheck(id, before)))
    ensures PassesGate(w, a, id, before) && r == before.(status := Executed)
  {
    before := w.flight[caller].e.record;
  }

  lemma BeforeCheck(w: World, a: Action, caller: nat, id: u64, r: ProposalRecord)
    requires Enters(w, a, caller, Executing(ExecuteCheck(id, r)))
    ensures a == Advance(caller) && Waits(w, caller, Executing(ExecuteFetch(id))) && FetchesLive(w, a, id, r)
  {
  }

  lemma BeforeFetch(w: World, a: Action, caller: nat, id: u64)
    requires Enters(w, a, caller, Executing(ExecuteFetch(id)))
    ensures a == Advance(caller) && Waits(w, caller, Executing(ExecuteGate(id))) && FindsActive(w, a, id)
  {
  }

  lemma InFlightOn(config: GovernanceConfig, run: seq<Action>, i: nat, j: nat, k: nat, caller: nat, pc: Pc)
    requires i <= j <= k <= |run| && InFlightFrom(config, run, i, j, caller)
    requires WaitsFrom(config, run, j, k, caller, pc)
    ensures InFlightFrom(config, run, i, k, caller)
  {
  }

  /** A call about to store an executed record, traced back to its unpaused check. */
  lemma ExecutionTrace(config: GovernanceConfig, run: seq<Action>, store: nat, id: u64, r: ProposalRecord)
    returns (x: Execution, before: ProposalRecord)
    requires store < |run| && StoresExecuted(WorldAt(config, run, store), run[store], id, r)
    ensures x.active < x.fetch < x.gate < x.store == store && OneExecution(config, run, x, id, before)
    ensures r == before.(status := Executed)
  {
    var caller := run[store].caller;
    var gate := CameFrom(config, run, store, caller, Executing(ExecuteStore(id, r)));
    before := BeforeStore(WorldAt(config, run, gate), run[gate], caller, id, r);
    var fetch := CameFrom(config, run, gate, caller, Executing(ExecuteCheck(id, before)));
    BeforeCheck(WorldAt(config, run, fetch), run[fetch], caller, id, before);
    var active := CameFrom(config, run, fetch, caller, Executing(ExecuteFetch(id)));
    BeforeFetch(WorldAt(config, run, active), run[active], caller, id);
    InFlightOn(config, run, active, active, fetch, caller, Executing(ExecuteFetch(id)));
    InFlightOn(config, run, active, fetch, gate, caller, Executing(ExecuteCheck(id, before)));
    InFlightOn(config, run, active, gate, store, caller, Executing(ExecuteStore(id, r)));
    x := Execution(caller, active, fetch, gate, store);
  }

  /** A stored Executed record was stored by such a call. */
  lemma {:induction false} ExecutedBy(config: GovernanceConfig, run: seq<Action>, k: nat, id: u64)
    returns (x: Execution, before: ProposalRecord)
    requires Startable(config) && k <= |run| && id in WorldAt(config, run, k).core.proposals
    requires WorldAt(config, run, k).core.proposals[id].status.Executed?
    ensures x.active < x.fetch < x.gate < x.store < k && OneExecution(config, run, x, id, before)
    ensures WorldAt(config, run, k).core.proposals[id] == before.(status := Executed)
  {
    if k == 0 {
      assert false;
    } else {
      var s, r := WorldAt(config, run, k - 1).core, WorldAt(config, run, k).core.proposals[id];
      if id in s.proposals && s.proposals[id] == r {
        x, before := ExecutedBy(config, run, k - 1, id);
      } else {
        RunSound(config, run, k - 1);
        NewExecuted(WorldAt(config, run, k - 1), run[k - 1], id);
        x, before := ExecutionTrace(config, run, k - 1, id, r);
      }
    }
  }

  // ---------- the promises ----------

  /** In every interleaving, no record, stored or in flight, ever claims more
      approvals than distinct guardians voted, the u8 wrap-around included. */
  lemma NoPhantomVotes(config: GovernanceConfig, run: seq<Action>, k: nat)
    requires Startable(config) && k <= |run|
    ensures var w := WorldAt(config, run, k);
            && (forall id :: id in w.core.proposals ==>
                  w.core.proposals[id].approvals <= |VotersOf(w.core.votes, id)|)
            && (forall caller :: caller in w.flight && Carried(w.flight[caller]).Some? ==>
                  var r := Carried(w.flight[caller]).value; r.approvals <= |VotersOf(w.core.votes, r.id)|)
  {
    RunSound(config, run, k);
  }

  /** Everyone in the voter set of `id` passed the guardian check for it before. */
  ghost predicate VotersChecked(config: GovernanceConfig, run: seq<Action>, k: nat, id: u64)
    requires k <= |run|
  {
    forall g :: g in VotersOf(WorldAt(config, run, k).core.votes, id) ==> WasGuardianWhenChecked(config, run, k, id, g)
  }

  lemma VotersAreChecked(config: GovernanceConfig, run: seq<Action>, k: nat, id: u64)
    requires k <= |run|
    ensures VotersChecked(config, run, k, id)
  {
    forall g | g in VotersOf(WorldAt(config, run, k).core.votes, id)
      ensures WasGuardianWhenChecked(config, run, k, id, g)
    {
      EveryVoterChecked(config, run, k, id, g);
    }
  }

  /** Quorum safety in every interleaving. A stored Executed record was stored by
      one execute call that found the engine unpaused, then fetched the live record,
      then passed the gate at an instant no earlier than its eta, in flight all the
      while. When it fetched the record, and so when it passed the gate, at least
      the record's threshold of distinct guardians had voted, and everyone in the
      voter set had passed the guardian check for this proposal by then. */
  lemma QuorumUnderInterleaving(config: GovernanceConfig, run: seq<Action>, k: nat, id: u64)
    returns (x: Execution, before: ProposalRecord)
    requires Startable(config) && k <= |run| && id in WorldAt(config, run, k).core.proposals
    requires WorldAt(config, run, k).core.proposals[id].status.Executed?
    ensures x.active < x.fetch < x.gate < x.store < k && OneExecution(config, run, x, id, before)
    ensures WorldAt(config, run, k).core.proposals[id] == before.(status := Executed)
    ensures 1 <= before.threshold <= before.approvals
    ensures before.approvals <= |VotersOf(WorldAt(config, run, x.fetch).core.votes, id)|
    ensures before.approvals <= |VotersOf(WorldAt(config, run, x.gate).core.votes, id)|
    ensures VotersChecked(config, run, x.fetch, id) && VotersChecked(config, run, x.gate, id)
    ensures VotersChecked(config, run, k, id)
  {
    x, before := ExecutedBy(config, run, k, id);
    FetchBacked(config, run, x.fetch, id, before);
    GateBacked(config, run, x.gate, id, before);
    VotersAreChecked(config, run, x.fetch, id);
    VotersAreChecked(config, run, x.gate, id);
    VotersAreChecked(config, run, k, id);
  }

  lemma FetchBacked(config: GovernanceConfig, run: seq<Action>, j: nat, id: u64, r: ProposalRecord)
    requires Startable(config) && j < |run| && FetchesLive(WorldAt(config, run, j), run[j], id, r)
    ensures r.approvals <= |VotersOf(WorldAt(config, run, j).core.votes, id)|
  {
    RunSound(config, run, j);
  }

  lemma GateBacked(config: GovernanceConfig, run: seq<Action>, j: nat, id: u64, r: ProposalRecord)
    requires Startable(config) && j < |run| && PassesGate(WorldAt(config, run, j), run[j], id, r)
    ensures 1 <= r.threshold && r.approvals <= |VotersOf(WorldAt(config, run, j).core.votes, id)|
  {
    RunSound(config, run, j);
    assert PcSound(WorldAt(config, run, j).core.votes, Executing(ExecuteCheck(id, r)));
  }
}
