/** When is an executed or cancelled record final under interleaving? Not always:
    a call that fetched the record before it closed can still store its stale
    copy. This module gives the exact condition. */
module InterleavedFinality {
  import opened Machine
  import opened BuildHashes
  import opened Domain
  import opened EngineSpec
  import opened InterleavedEngine
  import opened InterleavedSafety

  /** The world after further actions. */
  ghost function After(w: World, more: seq<Action>): World
    decreases |more|
  {
    if |more| == 0 then w else After(Next(w, more[0]), more[1..])
  }

  /** The call in flight can still replace the stored record `r` by another. */
  ghost predicate Threatens(votes: Votes, r: ProposalRecord, pc: Pc) {
    match pc
    case Proposing(ProposeStamp(draft)) => draft.id == r.id
    case Proposing(ProposeStore(draft)) => draft.id == r.id
    case Approving(ApproveVote(_, guardian, stale)) => stale.id == r.id && guardian !in VotersOf(votes, r.id)
    case Approving(ApproveStore(_, stale)) => stale.id == r.id
    case Executing(ExecuteCheck(_, stale)) =>
      stale.id == r.id && stale.approvals >= stale.threshold && stale.(status := Executed) != r
    case Executing(ExecuteStore(_, stale)) => stale.id == r.id && stale != r
    case Cancelling(CancelStore(_, stale)) => stale.id == r.id && stale != r
    case _ => false
  }

  ghost predicate Closed(w: World, id: u64) {
    id in w.core.proposals && w.core.proposals[id].status.Final()
  }

  ghost predicate NoThreat(votes: Votes, r: ProposalRecord, flight: Flight) {
    forall caller :: caller in flight ==> !Threatens(votes, r, flight[caller])
  }

  /** The id has been counted, and no call in flight holds another version. */
  ghost predicate Secure(w: World, id: u64)
    requires id in w.core.proposals
  {
    && id < w.core.config.proposalCount
    && NoThreat(w.core.votes, w.core.proposals[id], w.flight)
  }

  // ---------- secure records stay ----------

  ghost predicate Kept(w: World, w': World, id: u64)
    requires id in w.core.proposals
  {
    id in w'.core.proposals && w'.core.proposals[id] == w.core.proposals[id] && Secure(w', id)
  }

  /** The move leaves the closed record at `id` as it is, and carries no threat on. */
  ghost predicate Spares(s: EngineState, m: Move, id: u64)
    requires id in s.proposals
  {
    && (m.write.Some? && m.write.value.id == id ==> m.write.value == s.proposals[id])
    && s.config.proposalCount <= m.config.proposalCount
    && VotesGrow(s.votes, m.votes)
    && (m.course.Goto? ==> !Threatens(m.votes, s.proposals[id], m.course.pc))
  }

  lemma ThreatsFade(before: Votes, after: Votes, r: ProposalRecord, flight: Flight)
    requires VotesGrow(before, after) && NoThreat(before, r, flight)
    ensures NoThreat(after, r, flight)
  {
    forall caller | caller in flight
      ensures !Threatens(after, r, flight[caller])
    {
      assert !Threatens(before, r, flight[caller]);
    }
  }

  lemma LandKept(w: World, caller: nat, m: Move, id: u64)
    requires Closed(w, id) && Secure(w, id) && Spares(w.core, m, id)
    ensures Kept(w, Land(w, caller, m), id)
  {
    ThreatsFade(w.core.votes, m.votes, w.core.proposals[id], w.flight);
  }

  /** What a call knows when it is no threat to the closed record at `id`. */
  ghost predicate Harmless(s: EngineState, pc: Pc, id: u64) {
    && CoreSound(s) && PcSound(s.votes, pc)
    && id in s.proposals && s.proposals[id].status.Final() && id < s.config.proposalCount
    && !Threatens(s.votes, s.proposals[id], pc)
  }

  lemma ProposeSpares(s: EngineState, now: i64, pc: ProposePc, id: u64)
    requires Harmless(s, Proposing(pc), id)
    ensures Spares(s, ProposeCut(s, now, pc), id)
  {
  }

  lemma ApproveSpares(s: EngineState, pc: ApprovePc, id: u64)
    requires Harmless(s, Approving(pc), id)
    ensures Spares(s, ApproveCut(s, pc), id)
  {
  }

  lemma ExecuteSpares(s: EngineState, now: i64, pc: ExecutePc, id: u64)
    requires Harmless(s, Executing(pc), id)
    ensures Spares(s, ExecuteCut(s, now, pc), id)
  {
  }

  lemma CancelSpares(s: EngineState, pc: CancelPc, id: u64)
    requires Harmless(s, Cancelling(pc), id)
    ensures Spares(s, CancelCut(s, pc), id)
  {
  }

  lemma CutSpares(s: EngineState, now: i64, pc: Pc, id: u64)
    requires Harmless(s, pc, id)
    ensures Spares(s, Cut(s, now, pc), id)
  {
    match pc
    case Pausing(_) =>
    case Rotating(_, _) =>
    case Proposing(p) => ProposeSpares(s, now, p, id);
    case Approving(a) => ApproveSpares(s, a, id);
    case Executing(e) => ExecuteSpares(s, now, e, id);
    case Cancelling(c) => CancelSpares(s, c, id);
  }

  lemma EntryHarmless(votes: Votes, r: ProposalRecord, call: Call)
    ensures Entry(call).Some? ==> !Threatens(votes, r, Entry(call).value)
  {
  }

  lemma NextKept(w: World, a: Action, id: u64)
    requires Sound(w) && Closed(w, id) && Secure(w, id)
    ensures Kept(w, Next(w, a), id)
  {
    match a
    case Start(_, call) => EntryHarmless(w.core.votes, w.core.proposals[id], call);
    case Advance(caller) => if caller in w.flight {
        CutSpares(w.core, w.now, w.flight[caller], id);
        LandKept(w, caller, Cut(w.core, w.now, w.flight[caller]), id);
      }
    case Drop(_) =>
    case Tick(_) =>
  }

  lemma {:induction false} SecureStays(w: World, more: seq<Action>, id: u64)
    requires Sound(w) && Closed(w, id) && Secure(w, id)
    ensures id in After(w, more).core.proposals && After(w, more).core.proposals[id] == w.core.proposals[id]
    decreases |more|
  {
    if |more| == 0 {
    } else {
      NextKept(w, more[0], id);
      NextSound(w, more[0]);
      SecureStays(Next(w, more[0]), more[1..], id);
    }
  }

  // ---------- insecure records can be replaced ----------

  ghost predicate Replaced(w: World, w': World, id: u64)
    requires id in w.core.proposals
  {
    id !in w'.core.proposals || w'.core.proposals[id] != w.core.proposals[id]
  }

  lemma After1(w: World, a: Action)
    ensures After(w, [a]) == Next(w, a)
  {
    assert After(w, [a]) == After(Next(w, a), [a][1..]);
  }

  lemma AfterCons(w: World, a: Action, rest: seq<Action>)
    ensures After(w, [a] + rest) == After(Next(w, a), rest)
  {
    assert ([a] + rest)[1..] == rest;
  }

  ghost predicate AboutToStore(pc: Pc) {
    match pc
    case Proposing(p) => p.ProposeStore?
    case Approving(a) => a.ApproveStore?
    case Executing(e) => e.ExecuteStore?
    case Cancelling(c) => c.CancelStore?
    case _ => false
  }

  /** A call about to store another version stores it. */
  lemma StoreReplaces(w: World, caller: nat, id: u64) returns (more: seq<Action>)
    requires Sound(w) && Closed(w, id) && caller in w.flight
    requires Threatens(w.core.votes, w.core.proposals[id], w.flight[caller])
    requires AboutToStore(w.flight[caller])
    ensures Replaced(w, After(w, more), id)
  {
    assert PcSound(w.core.votes, w.flight[caller]);
    more := [Advance(caller)];
    After1(w, Advance(caller));
  }

  /** A call one cut before its store moves up to it. */
  lemma CutReplaces(w: World, caller: nat, id: u64) returns (more: seq<Action>)
    requires Sound(w) && Closed(w, id) && caller in w.flight
    requires Threatens(w.core.votes, w.core.proposals[id], w.flight[caller]) && !AboutToStore(w.flight[caller])
    requires w.flight[caller].Executing? ==> w.now >= w.flight[caller].e.record.eta
    ensures Replaced(w, After(w, more), id)
  {
    assert PcSound(w.core.votes, w.flight[caller]);
    NextSound(w, Advance(caller));
    var rest := StoreReplaces(Next(w, Advance(caller)), caller, id);
    AfterCons(w, Advance(caller), rest);
    more := [Advance(caller)] + rest;
  }

  /** A threat comes true, given the right instant. */
  lemma ThreatReplaces(w: World, caller: nat, id: u64) returns (more: seq<Action>)
    requires Sound(w) && Closed(w, id) && caller in w.flight
    requires Threatens(w.core.votes, w.core.proposals[id], w.flight[caller])
    ensures Replaced(w, After(w, more), id)
  {
    var pc := w.flight[caller];
    assert PcSound(w.core.votes, pc);
    if AboutToStore(pc) {
      more := StoreReplaces(w, caller, id);
    } else if pc.Executing? {
      var eta := pc.e.record.eta;
      NextSound(w, Tick(eta));
      var rest := CutReplaces(Next(w, Tick(eta)), caller, id);
      AfterCons(w, Tick(eta), rest);
      more := [Tick(eta)] + rest;
    } else {
      more := CutReplaces(w, caller, id);
    }
  }

  lemma {:induction false} IdleCaller(busy: set<nat>) returns (caller: nat)
    ensures caller !in busy
    ensures forall x :: x in busy ==> x < caller
    decreases busy
  {
    if busy == {} {
      caller := 0;
    } else {
      var x :| x in busy;
      var rest := IdleCaller(busy - {x});
      caller := if x < rest then rest else x + 1;
      forall y | y in busy
        ensures y < caller
      {
        assert y == x || y in busy - {x};
      }
    }
  }

  /** Anyone may unpause the engine on the way. */
  lemma Unpause(w: World, caller: nat)
    requires Sound(w) && caller !in w.flight
    ensures var steps := [Start(caller, SetPaused(false)), Advance(caller), Drop(caller)];
            && After(w, steps) == w.(core := w.core.(config := w.core.config.(paused := false)))
            && Sound(After(w, steps))
  {
    var w1 := Next(w, Start(caller, SetPaused(false)));
    var w2 := Next(w1, Advance(caller));
    var w3 := Next(w2, Drop(caller));
    NextSound(w, Start(caller, SetPaused(false)));
    NextSound(w1, Advance(caller));
    NextSound(w2, Drop(caller));
    assert w3.flight == w.flight;
    var steps := [Start(caller, SetPaused(false)), Advance(caller), Drop(caller)];
    assert steps[1..] == [Advance(caller), Drop(caller)] && [Advance(caller), Drop(caller)][1..] == [Drop(caller)];
    assert After(w, steps) == After(w1, steps[1..]) == After(w2, [Drop(caller)]);
    After1(w2, Drop(caller));
  }

  lemma GateOpens(w: World, caller: nat, hash: Bytes32)
    requires !w.core.config.paused && hash != ZERO_HASH
    requires Waits(w, caller, Proposing(ProposeGate("", HexEncode(hash), w.core.config.authority)))
    ensures var pc := Proposing(ProposeRead("", hash, w.core.config.authority));
            Next(w, Advance(caller)) == w.(flight := w.flight[caller := pc])
  {
    HashRoundTrip(hash);
  }

  lemma AuthorityDrafts(w: World, caller: nat, hash: Bytes32)
    requires w.now == 0
    requires Waits(w, caller, Proposing(ProposeRead("", hash, w.core.config.authority)))
    ensures var v := Next(w, Advance(caller));
            && v.core == w.core && caller in v.flight
            && v.flight[caller].Proposing? && v.flight[caller].p.ProposeStamp?
            && v.flight[caller].p.draft.id == w.core.config.proposalCount
  {
  }

  /** .. and a fresh propose by the authority then holds a draft under the next id. */
  lemma DraftNext(w: World, caller: nat, hash: Bytes32) returns (steps: seq<Action>)
    requires Sound(w) && caller !in w.flight && !w.core.config.paused && hash != ZERO_HASH
    ensures var v := After(w, steps);
            && Sound(v) && v.core == w.core && caller in v.flight
            && v.flight[caller].Proposing? && v.flight[caller].p.ProposeStamp?
            && v.flight[caller].p.draft.id == w.core.config.proposalCount
  {
    var call := Propose("", HexEncode(hash), w.core.config.authority);
    var w1 := Next(w, Tick(0));
    var w2 := Next(w1, Start(caller, call));
    var w3 := Next(w2, Advance(caller));
    GateOpens(w2, caller, hash);
    AuthorityDrafts(w3, caller, hash);
    NextSound(w, Tick(0));
    NextSound(w1, Start(caller, call));
    NextSound(w2, Advance(caller));
    NextSound(w3, Advance(caller));
    After1(w3, Advance(caller));
    AfterCons(w2, Advance(caller), [Advance(caller)]);
    AfterCons(w1, Start(caller, call), [Advance(caller)] + [Advance(caller)]);
    AfterCons(w, Tick(0), [Start(caller, call)] + ([Advance(caller)] + [Advance(caller)]));
    steps := [Tick(0)] + ([Start(caller, call)] + ([Advance(caller)] + [Advance(caller)]));
  }

  lemma {:induction false} AfterConcat(w: World, a: seq<Action>, b: seq<Action>)
    ensures After(w, a + b) == After(After(w, a), b)
    decreases |a|
  {
    if |a| == 0 {
      assert a + b == b;
    } else {
      assert (a + b)[0] == a[0] && (a + b)[1..] == a[1..] + b;
      AfterConcat(Next(w, a[0]), a[1..], b);
    }
  }

  lemma NonzeroHash() returns (hash: Bytes32)
    ensures hash != ZERO_HASH
  {
    hash := ZERO_HASH[0 := 1];
    assert hash[0] != ZERO_HASH[0];
  }

  /** A record whose id was never counted is overwritten by the next propose. */
  lemma UncountedReplaced(w: World, id: u64) returns (more: seq<Action>)
    requires Sound(w) && Closed(w, id) && id == w.core.config.proposalCount
    ensures Replaced(w, After(w, more), id)
  {
    var caller := IdleCaller(w.flight.Keys);
    var hash := NonzeroHash();
    var unpause := [Start(caller, SetPaused(false)), Advance(caller), Drop(caller)];
    Unpause(w, caller);
    var v := After(w, unpause);
    var draft := DraftNext(v, caller, hash);
    var u := After(v, draft);
    var rest := ThreatReplaces(u, caller, id);
    AfterConcat(v, draft, rest);
    AfterConcat(w, unpause, draft + rest);
    more := unpause + (draft + rest);
  }

  // ---------- ids never run ahead of the counter ----------

  ghost predicate IdsCounted(s: EngineState) {
    forall id :: id in s.proposals ==> id <= s.config.proposalCount
  }

  ghost predicate CarriesCounted(pc: Pc, count: u64) {
    Carried(pc).Some? ==> Carried(pc).value.id <= count
  }

  ghost predicate Counted(w: World) {
    && IdsCounted(w.core)
    && forall caller :: caller in w.flight ==> CarriesCounted(w.flight[caller], w.core.config.proposalCount)
  }

  ghost predicate MoveCounted(s: EngineState, m: Move) {
    && s.config.proposalCount <= m.config.proposalCount
    && (m.write.Some? ==> m.write.value.id <= s.config.proposalCount)
    && (m.course.Goto? ==> CarriesCounted(m.course.pc, m.config.proposalCount))
  }

  lemma LandCounted(w: World, caller: nat, m: Move)
    requires Counted(w) && MoveCounted(w.core, m)
    ensures Counted(Land(w, caller, m))
  {
  }

  /** What a cut relies on: the caller's own record and the stored ones are counted. */
  ghost predicate Reckoned(s: EngineState, pc: Pc) {
    && IdsCounted(s) && CarriesCounted(pc, s.config.proposalCount)
    && forall id :: id in s.proposals ==> s.proposals[id].id == id
  }

  lemma ProposeCounted(s: EngineState, now: i64, pc: ProposePc)
    requires Reckoned(s, Proposing(pc))
    ensures MoveCounted(s, ProposeCut(s, now, pc))
  {
  }

  lemma ApproveCounted(s: EngineState, pc: ApprovePc)
    requires Reckoned(s, Approving(pc))
    ensures MoveCounted(s, ApproveCut(s, pc))
  {
  }

  lemma ExecuteCounted(s: EngineState, now: i64, pc: ExecutePc)
    requires Reckoned(s, Executing(pc))
    ensures MoveCounted(s, ExecuteCut(s, now, pc))
  {
  }

  lemma CancelCounted(s: EngineState, pc: CancelPc)
    requires Reckoned(s, Cancelling(pc))
    ensures MoveCounted(s, CancelCut(s, pc))
  {
  }

  lemma CutCounted(s: EngineState, now: i64, pc: Pc)
    requires Reckoned(s, pc)
    ensures MoveCounted(s, Cut(s, now, pc))
  {
    match pc
    case Pausing(_) =>
    case Rotating(_, _) =>
    case Proposing(p) => ProposeCounted(s, now, p);
    case Approving(a) => ApproveCounted(s, a);
    case Executing(e) => ExecuteCounted(s, now, e);
    case Cancelling(c) => CancelCounted(s, c);
  }

  lemma NextCounted(w: World, a: Action)
    requires Sound(w) && Counted(w)
    ensures Counted(Next(w, a))
  {
    match a
    case Advance(caller) => if caller in w.flight {
        CutCounted(w.core, w.now, w.flight[caller]);
        LandCounted(w, caller, Cut(w.core, w.now, w.flight[caller]));
      }
    case Start(_, _) =>
    case Drop(_) =>
    case Tick(_) =>
  }

  lemma {:induction false} RunCounted(config: GovernanceConfig, run: seq<Action>, k: nat)
    requires Startable(config) && k <= |run|
    ensures Counted(WorldAt(config, run, k))
  {
    if k == 0 {
    } else {
      RunCounted(config, run, k - 1);
      RunSound(config, run, k - 1);
      NextCounted(WorldAt(config, run, k - 1), run[k - 1]);
    }
  }

  // ---------- the exact condition ----------

  /** The record at `id` keeps its exact contents in every continuation. */
  ghost predicate Forever(w: World, id: u64)
    requires id in w.core.proposals
  {
    forall more: seq<Action> ::
      id in After(w, more).core.proposals && After(w, more).core.proposals[id] == w.core.proposals[id]
  }

  lemma SecureForever(w: World, id: u64)
    requires Sound(w) && Closed(w, id) && Secure(w, id)
    ensures Forever(w, id)
  {
    forall more: seq<Action>
      ensures id in After(w, more).core.proposals && After(w, more).core.proposals[id] == w.core.proposals[id]
    {
      SecureStays(w, more, id);
    }
  }

  lemma InsecureReplaced(w: World, id: u64)
    requires Sound(w) && Counted(w) && Closed(w, id) && !Secure(w, id)
    ensures !Forever(w, id)
  {
    if id == w.core.config.proposalCount {
      var more := UncountedReplaced(w, id);
      assert Replaced(w, After(w, more), id);
    } else {
      var caller :| caller in w.flight && Threatens(w.core.votes, w.core.proposals[id], w.flight[caller]);
      var more := ThreatReplaces(w, caller, id);
      assert Replaced(w, After(w, more), id);
    }
  }

  /** Finality under interleaving: an executed or cancelled record keeps its exact
      contents in every continuation if and only if its id has been counted and no
      call in flight holds another version it could still store. */
  lemma FinalityExactly(config: GovernanceConfig, run: seq<Action>, k: nat, id: u64)
    requires Startable(config) && k <= |run| && Closed(WorldAt(config, run, k), id)
    ensures Secure(WorldAt(config, run, k), id) <==> Forever(WorldAt(config, run, k), id)
  {
    RunSound(config, run, k);
    RunCounted(config, run, k);
    if Secure(WorldAt(config, run, k), id) {
      SecureForever(WorldAt(config, run, k), id);
    } else {
      InsecureReplaced(WorldAt(config, run, k), id);
    }
  }
}
