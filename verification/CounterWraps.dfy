/** The engine's vote counter does wrap: a run of 272 requests casts 256 votes on
    one proposal under 16 disjoint guardian sets. Up to the last vote the program
    on-chain is in step; on the last one the two part ways, and the engine is left
    with a proposal its guardians can no longer execute. */
module CounterWraps {
  import opened Machine
  import opened GovernanceRules
  import opened BuildHashes
  import opened Domain
  import opened EngineSpec
  import opened Simulation
  import Progress = EngineProgress
  import ChainInv = ChainInvariant
  import Tight = ChainVoteBoundTight

  function Founding(): GovernanceConfig {
    NewConfig(Tight.ADMIN, Tight.Block(0), 1, 0)
  }

  lemma FoundingStarts()
    ensures Startable(Founding()) && Founding().timelockSeconds >= 0
  {
    Tight.BlockValid(0);
  }

  /** Exactly the guardians 0..v-1 have voted on proposal 0, which is live, and
      `guardians` are in force. */
  ghost predicate Stage(s: EngineState, v: nat, guardians: seq<Key>)
    requires v <= 256
  {
    && !s.config.paused && s.config.guardians == guardians
    && Progress.Live(s, 0) && s.proposals[0].id == 0 && s.proposals[0].threshold == 1
    && (v > 0 ==> s.proposals[0].status.Approved?)
    && s.proposals[0].approvals == v % 256 && |VotersOf(s.votes, 0)| == v
    && forall i :: 0 <= i < 256 ==> (Tight.Guardian(i) in VotersOf(s.votes, 0) <==> i < v)
  }

  function OpeningRequest(hash: Bytes32): Request {
    Request(Propose("program", HexEncode(hash), Tight.ADMIN), 0, 0)
  }

  function Rotation(b: nat): Request
    requires b < 16
  {
    Request(SetGuardians(Tight.Block(b), 1), 0, 0)
  }

  function Vote(v: nat): Request
    requires v < 256
  {
    Request(Approve(0, Tight.Guardian(v)), 0, 0)
  }

  lemma ProposeStage(hash: Bytes32)
    requires hash != ZERO_HASH
    ensures Stage(Step(Fresh(Founding()), OpeningRequest(hash)).state, 0, Tight.Block(0))
  {
    HashRoundTrip(hash);
  }

  lemma RotateStage(s: EngineState, v: nat, b: nat)
    requires v <= 256 && b < 16 && Stage(s, v, s.config.guardians)
    ensures Stage(Step(s, Rotation(b)).state, v, Tight.Block(b))
  {
    Tight.BlockValid(b);
  }

  lemma InItsBlock(v: nat)
    requires v < 256
    ensures Tight.Guardian(v) in Tight.Block(Tight.BlockOf(v))
  {
    assert Tight.Block(Tight.BlockOf(v))[v - 16 * Tight.BlockOf(v)] == Tight.Guardian(v);
  }

  lemma VoteEffect(s: EngineState, v: nat)
    requires v < 256 && Stage(s, v, Tight.Block(Tight.BlockOf(v)))
    ensures var o := Step(s, Vote(v));
            var voters := VotersOf(s.votes, 0) + {Tight.Guardian(v)};
            && o.reply.Ok? && o.state.config == s.config && VotersOf(o.state.votes, 0) == voters
            && 0 in o.state.proposals && o.state.proposals[0] == Tallied(s.proposals[0], voters)
  {
    InItsBlock(v);
  }

  lemma VoteStage(s: EngineState, v: nat)
    requires v < 256 && Stage(s, v, Tight.Block(Tight.BlockOf(v)))
    ensures Stage(Step(s, Vote(v)).state, v + 1, Tight.Block(Tight.BlockOf(v)))
  {
    VoteEffect(s, v);
    assert |VotersOf(s.votes, 0) + {Tight.Guardian(v)}| == v + 1;
    forall i | 0 <= i < 256 && i != v
      ensures Tight.Guardian(i) != Tight.Guardian(v)
    {
      Tight.GuardiansDiffer(if i < v then i else v, if i < v then v else i);
    }
  }

  // ---------- the run ----------

  /** Propose, then 256 votes at most, rotating to the next block when one is used up. */
  function Requests(hash: Bytes32, v: nat): seq<Request>
    requires v <= 256
  {
    if v == 0 then [OpeningRequest(hash)]
    else if Tight.LastBlock(v) != Tight.LastBlock(v - 1) then
      Requests(hash, v - 1) + [Rotation(Tight.LastBlock(v))] + [Vote(v - 1)]
    else Requests(hash, v - 1) + [Vote(v - 1)]
  }

  lemma {:induction false} RequestCount(hash: Bytes32, v: nat)
    requires v <= 256
    ensures |Requests(hash, v)| == 1 + v + Tight.LastBlock(v)
  {
    if v == 0 {
    } else {
      RequestCount(hash, v - 1);
    }
  }

  /** The run so far is in step with the chain and has reached this stage. */
  ghost predicate Reaches(run: seq<Request>, v: nat, guardians: seq<Key>)
    requires v <= 256
  {
    && SmallIds(run, |run|) && InStep(Founding(), run, |run|)
    && Stage(StateAt(Founding(), run, |run|), v, guardians)
  }

  lemma SameBefore(run: seq<Request>, req: Request, j: nat)
    requires j < |run|
    ensures DivergesAt(Founding(), run + [req], j) <==> DivergesAt(Founding(), run, j)
  {
    PrefixUnaffected(Fresh(Founding()), run, [req], j);
    assert (run + [req])[j] == run[j];
  }

  lemma InStepPrefix(run: seq<Request>, req: Request)
    requires InStep(Founding(), run, |run|)
    ensures InStep(Founding(), run + [req], |run|)
  {
    forall j | 0 <= j < |run|
      ensures !DivergesAt(Founding(), run + [req], j)
    {
      SameBefore(run, req, j);
    }
  }

  lemma LastDiverges(run: seq<Request>, req: Request)
    ensures DivergesAt(Founding(), run + [req], |run|) <==> Diverges(StateAt(Founding(), run, |run|), req)
  {
    PrefixUnaffected(Fresh(Founding()), run, [req], |run|);
    assert (run + [req])[|run|] == req;
  }

  lemma InStepSnoc(run: seq<Request>, req: Request)
    requires InStep(Founding(), run, |run|) && !Diverges(StateAt(Founding(), run, |run|), req)
    ensures InStep(Founding(), run + [req], |run + [req]|)
  {
    InStepPrefix(run, req);
    LastDiverges(run, req);
  }

  lemma SmallIdsSnoc(run: seq<Request>, req: Request)
    requires SmallIds(run, |run|) && SmallId(req.call)
    ensures SmallIds(run + [req], |run + [req]|)
  {
  }

  lemma RotationReaches(run: seq<Request>, v: nat, b: nat, guardians: seq<Key>)
    requires v <= 256 && b < 16 && Reaches(run, v, guardians)
    ensures Reaches(run + [Rotation(b)], v, Tight.Block(b))
  {
    RotateStage(StateAt(Founding(), run, |run|), v, b);
    Extend(Fresh(Founding()), run, Rotation(b));
    InStepSnoc(run, Rotation(b));
    SmallIdsSnoc(run, Rotation(b));
  }

  lemma VoteReaches(run: seq<Request>, v: nat)
    requires v < 255 && Reaches(run, v, Tight.Block(Tight.BlockOf(v)))
    ensures Reaches(run + [Vote(v)], v + 1, Tight.Block(Tight.BlockOf(v)))
  {
    VoteStage(StateAt(Founding(), run, |run|), v);
    Extend(Fresh(Founding()), run, Vote(v));
    InStepSnoc(run, Vote(v));
    SmallIdsSnoc(run, Vote(v));
  }

  lemma OpeningReaches(hash: Bytes32)
    requires hash != ZERO_HASH
    ensures Reaches(Requests(hash, 0), 0, Tight.Block(0))
  {
    var run := Requests(hash, 0);
    ProposeStage(hash);
    assert StateAt(Founding(), run, 0) == Fresh(Founding());
    assert StateAt(Founding(), run, 1) == Step(Fresh(Founding()), run[0]).state;
  }

  /** The first 255 votes, all in step. */
  lemma {:induction false} VotesReach(hash: Bytes32, v: nat)
    requires hash != ZERO_HASH && v <= 255
    ensures Reaches(Requests(hash, v), v, Tight.Block(Tight.LastBlock(v)))
  {
    if v == 0 {
      OpeningReaches(hash);
    } else {
      VotesReach(hash, v - 1);
      var run := Requests(hash, v - 1);
      if Tight.LastBlock(v) != Tight.LastBlock(v - 1) {
        RotationReaches(run, v - 1, Tight.LastBlock(v), Tight.Block(Tight.LastBlock(v - 1)));
        VoteReaches(run + [Rotation(Tight.LastBlock(v))], v - 1);
      } else {
        VoteReaches(run, v - 1);
      }
    }
  }

  // ---------- the 256th vote ----------

  /** On-chain the 256th vote meets the checked addition. */
  lemma ProgramOverflows(e: EngineState, c: Chain.ChainState, guardian: Key)
    requires Joined(e, c) && VoteWraps(e, 0, guardian)
    ensures Chain.ApproveIx(c, guardian, 0).result == Err(Chain.ArithmeticOverflow)
  {
    assert RelatedAt(e, c, 0);
    ChainInv.InVoters(c.markers, 0);
    assert ChainInv.Sound(c, 0);
  }

  /** After it nobody is left to vote, and the counter is below the threshold. */
  lemma WrappedOutOfReach(s: EngineState)
    requires Stage(s, 256, Tight.Block(15))
    ensures !Progress.WithinReach(s, 0)
  {
    forall g | g in Members(s.config.guardians)
      ensures g in VotersOf(s.votes, 0)
    {
      var j :| 0 <= j < 16 && Tight.Block(15)[j] == g;
      assert g == Tight.Guardian(16 * 15 + j);
    }
    assert Progress.Unspent(s, 0) == {};
  }

  /** What the 256th vote does to the engine. */
  lemma LastVote(s: EngineState)
    requires Stage(s, 255, Tight.Block(15))
    ensures VoteWraps(s, 0, Tight.Guardian(255)) && Step(s, Vote(255)).reply.Ok?
    ensures var t := Step(s, Vote(255)).state;
            && 0 in t.proposals && t.proposals[0].approvals == 0 && |VotersOf(t.votes, 0)| == 256
            && t.proposals[0].status.Approved? && !Progress.WithinReach(t, 0)
  {
    InItsBlock(255);
    VoteEffect(s, 255);
    VoteStage(s, 255);
    WrappedOutOfReach(Step(s, Vote(255)).state);
  }

  /** The run up to the 256th vote and the run with it. */
  lemma LastRequest(hash: Bytes32)
    requires hash != ZERO_HASH
    ensures |Requests(hash, 255)| == 271 && Requests(hash, 256) == Requests(hash, 255) + [Vote(255)]
    ensures Reaches(Requests(hash, 255), 255, Tight.Block(15))
  {
    RequestCount(hash, 255);
    VotesReach(hash, 255);
  }

  /** The last request answers and moves on from where the first 271 led. */
  lemma RunEnds(run: seq<Request>, req: Request)
    ensures StateAt(Founding(), run + [req], |run|) == StateAt(Founding(), run, |run|)
    ensures ReplyAt(Founding(), run + [req], |run|) == Step(StateAt(Founding(), run, |run|), req).reply
    ensures StateAt(Founding(), run + [req], |run| + 1) == Step(StateAt(Founding(), run, |run|), req).state
  {
    PrefixUnaffected(Fresh(Founding()), run, [req], |run|);
    assert (run + [req])[|run|] == req;
  }

  /** The wrap, as the engine sees it. */
  ghost predicate Wraps(run: seq<Request>) {
    && |run| == 272 && run[271] == Vote(255)
    && SmallIds(run, 272) && InStep(Founding(), run, 271)
    && VoteWraps(StateAt(Founding(), run, 271), 0, Tight.Guardian(255))
    && ReplyAt(Founding(), run, 271).Ok?
  }

  /** The proposal it leaves behind: no votes counted, 256 cast, out of reach. */
  ghost predicate Wrapped(s: EngineState) {
    && 0 in s.proposals && s.proposals[0].approvals == 0 && |VotersOf(s.votes, 0)| == 256
    && s.proposals[0].status.Approved?
    && forall more | Progress.WithoutRotation(more) :: !Progress.Executes(s, more, 0)
  }

  lemma EngineWraps(hash: Bytes32)
    requires hash != ZERO_HASH
    ensures Wraps(Requests(hash, 256)) && Wrapped(StateAt(Founding(), Requests(hash, 256), 272))
  {
    var before, run := Requests(hash, 255), Requests(hash, 256);
    FoundingStarts();
    LastRequest(hash);
    LastVote(StateAt(Founding(), before, 271));
    RunEnds(before, Vote(255));
    InStepPrefix(before, Vote(255));
    SmallIdsSnoc(before, Vote(255));
    forall more | Progress.WithoutRotation(more)
      ensures !Progress.Executes(StateAt(Founding(), run, 272), more, 0)
    {
      Progress.OutOfReachForGood(Founding(), run, 272, 0, more);
    }
  }

  lemma JoinedUntilThen(run: seq<Request>)
    requires Wraps(run)
    ensures Joined(StateAt(Founding(), run, 271), Mirror(Founding(), run, 271))
  {
    FoundingStarts();
    SmallIdsFewer(run);
    EngineMirrorsProgram(Founding(), run, 271);
  }

  lemma ProgramRefuses(run: seq<Request>)
    requires Wraps(run)
    ensures Chain.Process(Mirror(Founding(), run, 271), Translate(Tight.ADMIN, Vote(255)).value).result
         == Err(Chain.ArithmeticOverflow)
  {
    JoinedUntilThen(run);
    ProgramOverflows(StateAt(Founding(), run, 271), Mirror(Founding(), run, 271), Tight.Guardian(255));
    VoteTransaction(Mirror(Founding(), run, 271));
  }

  lemma VoteTransaction(c: Chain.ChainState)
    ensures Chain.Process(c, Translate(Tight.ADMIN, Vote(255)).value) == Chain.ApproveIx(c, Tight.Guardian(255), 0)
  {
  }

  lemma SmallIdsFewer(run: seq<Request>)
    requires |run| == 272 && SmallIds(run, 272)
    ensures SmallIds(run, 271)
  {
  }

  /** Exact vote counting does fail, after 15 rotations and 256 votes: the run of
      272 requests is in step with the chain up to its last one, the 256th vote.
      The engine accepts it and its counter reads 0 with 256 voters; the program
      refuses it with an overflow. The proposal is then live and marked Approved,
      yet no requests short of another rotation execute it. */
  lemma CounterWrapsAt256(hash: Bytes32)
    requires hash != ZERO_HASH
    ensures Startable(Founding()) && Founding().timelockSeconds >= 0
    ensures Wraps(Requests(hash, 256)) && Wrapped(StateAt(Founding(), Requests(hash, 256), 272))
    ensures Chain.Process(Mirror(Founding(), Requests(hash, 256), 271), Translate(Tight.ADMIN, Vote(255)).value).result
         == Err(Chain.ArithmeticOverflow)
  {
    FoundingStarts();
    EngineWraps(hash);
    ProgramRefuses(Requests(hash, 256));
  }
}
