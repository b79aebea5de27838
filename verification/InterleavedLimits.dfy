/** A run that reaches a cancelled record which is not final: an approve that
    fetched the record before the cancel is still in flight. */
module InterleavedLimits {
  import opened BuildHashes
  import opened Domain
  import opened EngineSpec
  import opened InterleavedEngine
  import opened InterleavedAtomic
  import opened InterleavedFinality

  const ALONE: seq<Key> := ["first"]

  function Council(): GovernanceConfig {
    NewConfig("authority", ALONE, 1, 0)
  }

  function FirstProposal(hash: Bytes32): Call {
    Propose("program", HexEncode(hash), "authority")
  }

  /** Call 0 proposes to the end; call 1 approves up to its vote; call 2 cancels
      up to its store. */
  function Schedule(hash: Bytes32): seq<Action> {
    [Start(0, FirstProposal(hash)), Tick(0), Advance(0), Advance(0),
     Tick(0), Advance(0), Advance(0), Advance(0), Advance(0),
     Start(1, Approve(0, "first")), Advance(1), Advance(1), Advance(1),
     Start(2, Cancel(0)), Advance(2), Advance(2)]
  }

  function Stored(hash: Bytes32): ProposalRecord {
    NewRecord(Council(), "program", hash, "authority", 0, 0)
  }

  /** A stretch of one caller's advances in a run is that many turns. */
  lemma {:induction false} Stretch(config: GovernanceConfig, run: seq<Action>, i: nat, caller: nat, n: nat)
    requires i + n <= |run| && forall j :: i <= j < i + n ==> run[j] == Advance(caller)
    ensures WorldAt(config, run, i + n) == Turns(WorldAt(config, run, i), caller, n)
    decreases n
  {
    if n == 0 {
    } else {
      Stretch(config, run, i + 1, caller, n - 1);
    }
  }

  /** Proposal 0 is stored and counted, and no call is in flight. */
  ghost predicate Quiet(w: World, hash: Bytes32) {
    && w.core.config == Council().(proposalCount := 1) && w.core.votes == map[] && w.flight == map[]
    && 0 in w.core.proposals && w.core.proposals[0] == Stored(hash)
  }

  lemma ProposeStores(hash: Bytes32)
    requires hash != ZERO_HASH
    ensures var s := Step(Fresh(Council()), Request(FirstProposal(hash), 0, 0)).state;
            && s.config == Council().(proposalCount := 1) && s.votes == map[]
            && 0 in s.proposals && s.proposals[0] == Stored(hash)
  {
    HashRoundTrip(hash);
  }

  lemma ProposeBegins(hash: Bytes32)
    ensures WorldAt(Council(), Schedule(hash), 2) == Begun(Boot(Council()), 0, FirstProposal(hash), 0)
  {
    var run := Schedule(hash);
    assert WorldAt(Council(), run, 1) == Next(Boot(Council()), run[0]);
  }

  lemma ProposeDrafts(hash: Bytes32)
    ensures var begun := Begun(Boot(Council()), 0, FirstProposal(hash), 0);
            WorldAt(Council(), Schedule(hash), 5) == Next(Turns(begun, 0, 2), Tick(0))
  {
    ProposeBegins(hash);
    Stretch(Council(), Schedule(hash), 2, 0, 2);
    assert Schedule(hash)[4] == Tick(0);
  }

  lemma ProposeGoesOn(hash: Bytes32)
    ensures WorldAt(Council(), Schedule(hash), 9) == Turns(WorldAt(Council(), Schedule(hash), 5), 0, 4)
  {
    Stretch(Council(), Schedule(hash), 5, 0, 4);
  }

  lemma ProposeRunsAlone(hash: Bytes32)
    ensures WorldAt(Council(), Schedule(hash), 9) == RunsAlone(Boot(Council()), 0, FirstProposal(hash), 0, 0)
  {
    ProposeDrafts(hash);
    ProposeGoesOn(hash);
  }

  lemma ApproveRuns(hash: Bytes32)
    ensures var run := Schedule(hash);
            WorldAt(Council(), run, 13) == Turns(Next(WorldAt(Council(), run, 9), Start(1, Approve(0, "first"))), 1, 3)
  {
    var run := Schedule(hash);
    assert run[9] == Start(1, Approve(0, "first"));
    Stretch(Council(), run, 10, 1, 3);
  }

  lemma CancelRuns(hash: Bytes32)
    ensures var run := Schedule(hash);
            WorldAt(Council(), run, 16) == Turns(Next(WorldAt(Council(), run, 13), Start(2, Cancel(0))), 2, 2)
  {
    var run := Schedule(hash);
    assert run[13] == Start(2, Cancel(0));
    Stretch(Council(), run, 14, 2, 2);
  }

  lemma ProposeCompletes(hash: Bytes32)
    requires hash != ZERO_HASH
    ensures Quiet(WorldAt(Council(), Schedule(hash), 9), hash)
  {
    ProposeRunsAlone(hash);
    AloneIsAtomic(Boot(Council()), 0, FirstProposal(hash), 0, 0);
    ProposeStores(hash);
  }

  /** What the approve has in hand when the cancel comes. */
  function Stale(hash: Bytes32): Pc {
    Approving(ApproveVote(0, "first", Stored(hash)))
  }

  lemma ApproveHolds(hash: Bytes32, w: World)
    requires Quiet(w, hash)
    ensures Turns(Next(w, Start(1, Approve(0, "first"))), 1, 3) == w.(flight := map[1 := Stale(hash)])
  {
    assert ALONE[0] == "first";
    TurnsAlone(w, 1, w.core, Approving(ApproveGate(0, "first")), 3);
    QuietCut(w.core, w.now, Approving(ApproveGate(0, "first")), 3);
    QuietCut(w.core, w.now, Approving(ApproveMember(0, "first")), 2);
    QuietCut(w.core, w.now, Approving(ApproveFetch(0, "first")), 1);
  }

  lemma CancelStores(hash: Bytes32, w: World)
    requires 0 in w.core.proposals && w.core.proposals[0] == Stored(hash) && 2 !in w.flight
    ensures var cancelled := Stored(hash).(status := Cancelled);
            Turns(Next(w, Start(2, Cancel(0))), 2, 2)
            == w.(core := w.core.(proposals := w.core.proposals[0 := cancelled]),
                  flight := w.flight[2 := Cancelling(CancelPublish(0, cancelled))])
  {
    var cancelled := Stored(hash).(status := Cancelled);
    TurnsAlone(w, 2, w.core, Cancelling(CancelFetch(0)), 2);
    QuietCut(w.core, w.now, Cancelling(CancelFetch(0)), 2);
    FirstCut(w.core, w.now, Cancelling(CancelStore(0, cancelled)), 1);
  }

  lemma CancelCloses(hash: Bytes32, w: World)
    requires Quiet(w.(flight := map[]), hash) && w.flight == map[1 := Stale(hash)]
    ensures var v := Turns(Next(w, Start(2, Cancel(0))), 2, 2);
            Closed(v, 0) && !Secure(v, 0)
  {
    CancelStores(hash, w);
    var v := Turns(Next(w, Start(2, Cancel(0))), 2, 2);
    assert Threatens(v.core.votes, v.core.proposals[0], v.flight[1]);
  }

  /** So finality is not unconditional under interleaving: this run ends with a
      cancelled record that some continuation changes. */
  lemma CancelledNotFinal(hash: Bytes32)
    requires hash != ZERO_HASH
    ensures Startable(Council())
    ensures var w := WorldAt(Council(), Schedule(hash), 16);
            Closed(w, 0) && !Forever(w, 0)
  {
    var run := Schedule(hash);
    ProposeCompletes(hash);
    ApproveRuns(hash);
    ApproveHolds(hash, WorldAt(Council(), run, 9));
    CancelRuns(hash);
    CancelCloses(hash, WorldAt(Council(), run, 13));
    FinalityExactly(Council(), run, 16, 0);
  }
}
