/** A run on which the engine and the on-chain program part ways: rotating to a
    lower threshold between proposing and executing. */
module SimulationLimits {
  import opened Machine
  import opened GovernanceRules
  import opened BuildHashes
  import opened Domain
  import opened EngineSpec
  import opened Simulation

  const COUNCIL: seq<Key> := ["first", "second"]

  function Council(): GovernanceConfig {
    NewConfig("authority", COUNCIL, 2, 0)
  }

  lemma CouncilValid(threshold: u8)
    requires 1 <= threshold <= 2
    ensures ValidConfig(COUNCIL, threshold)
  {
    assert |COUNCIL[0]| != |COUNCIL[1]|;
  }

  /** Propose, one approval, rotate to threshold 1, execute. */
  function Requests(hash: Bytes32): seq<Request> {
    [Request(Propose("program", HexEncode(hash), "authority"), 0, 0),
     Request(Approve(0, "first"), 0, 0),
     Request(SetGuardians(COUNCIL, 1), 0, 0),
     Request(Execute(0), 0, 0)]
  }

  lemma AuthorityProposes(hash: Bytes32)
    requires hash != ZERO_HASH
    ensures var s := Step(Fresh(Council()), Requests(hash)[0]).state;
            && s.config == Council().(proposalCount := 1) && s.votes == map[]
            && 0 in s.proposals && s.proposals[0] == NewRecord(Council(), "program", hash, "authority", 0, 0)
  {
    HashRoundTrip(hash);
  }

  lemma FirstApproves(hash: Bytes32, s: EngineState)
    requires s.config == Council().(proposalCount := 1) && s.votes == map[] && 0 in s.proposals
    requires s.proposals[0] == NewRecord(Council(), "program", hash, "authority", 0, 0)
    ensures var t := Step(s, Requests(hash)[1]).state;
            && t.config == s.config && 0 in t.proposals && t.proposals[0] == s.proposals[0].(approvals := 1)
    ensures !Diverges(s, Requests(hash)[1])
  {
    assert "first" in COUNCIL by {
      assert COUNCIL[0] == "first";
    }
    assert VotersOf(s.votes, 0) + {"first"} == {"first"};
  }

  lemma CouncilRotates(hash: Bytes32, s: EngineState)
    requires s.config == Council().(proposalCount := 1) && 0 in s.proposals
    ensures var t := Step(s, Requests(hash)[2]).state;
            t.config == s.config.(threshold := 1) && t.proposals == s.proposals
  {
    CouncilValid(1);
  }

  lemma RunStates(hash: Bytes32)
    requires hash != ZERO_HASH
    ensures var s, t := StateAt(Council(), Requests(hash), 1), StateAt(Council(), Requests(hash), 2);
            && s.config == Council().(proposalCount := 1) && s.votes == map[] && 0 in s.proposals
            && s.proposals[0] == NewRecord(Council(), "program", hash, "authority", 0, 0)
            && t.config == s.config && 0 in t.proposals && t.proposals[0] == s.proposals[0].(approvals := 1)
  {
    assert StateAt(Council(), Requests(hash), 0) == Fresh(Council());
    AuthorityProposes(hash);
    FirstApproves(hash, StateAt(Council(), Requests(hash), 1));
  }

  /** The state just before the execute: one vote, threshold 2 pinned, 1 in force. */
  lemma BeforeExecute(hash: Bytes32)
    requires hash != ZERO_HASH
    ensures var s := StateAt(Council(), Requests(hash), 3);
            ThresholdsSplit(s, 0, 0) && s.proposals[0].approvals < s.proposals[0].threshold
  {
    RunStates(hash);
    CouncilRotates(hash, StateAt(Council(), Requests(hash), 2));
  }

  lemma OthersInStep(run: seq<Request>, j: nat)
    requires j < |run| && !run[j].call.Approve? && !run[j].call.Execute?
    ensures !DivergesAt(Council(), run, j)
  {
  }

  lemma InStepUntilThen(hash: Bytes32)
    requires hash != ZERO_HASH
    ensures SmallIds(Requests(hash), 3) && InStep(Council(), Requests(hash), 3)
  {
    RunStates(hash);
    OthersInStep(Requests(hash), 0);
    FirstApproves(hash, StateAt(Council(), Requests(hash), 1));
    OthersInStep(Requests(hash), 2);
  }

  lemma EngineRefuses(s: EngineState)
    requires ThresholdsSplit(s, 0, 0) && s.proposals[0].approvals < s.proposals[0].threshold
    ensures Step(s, Request(Execute(0), 0, 0)).reply.Err?
  {
  }

  /** The claim that the engine mirrors the on-chain rules is not unconditional:
      after these in-step requests the program executes and the engine refuses. */
  lemma LoweredThresholdSplits(hash: Bytes32)
    requires hash != ZERO_HASH
    ensures Startable(Council()) && Council().timelockSeconds >= 0
    ensures var run := Requests(hash);
            && SmallIds(run, 3) && InStep(Council(), run, 3)
            && ReplyAt(Council(), run, 3).Err?
            && Chain.Process(Mirror(Council(), run, 3), Translate("authority", run[3]).value).result.Ok?
  {
    CouncilValid(2);
    BeforeExecute(hash);
    InStepUntilThen(hash);
    EngineRefuses(StateAt(Council(), Requests(hash), 3));
    VerdictsMirror(Council(), Requests(hash), 3);
  }
}
