/** The vote bound is tight: runs that reach 16 votes per guardian set, and one
    that meets the Overflow branch of approve after 15 rotations. */
module ChainVoteBoundTight {
  import opened Machine
  import opened GovernanceRules
  import opened BuildHashes
  import opened Domain
  import opened OnChainSpec
  import opened ChainVoteBound
  import Progress = ChainProgress

  const ADMIN: Key := "admin"

  /** 256 different guardian keys, in 16 blocks of 16. */
  function Guardian(i: nat): (k: Key)
    requires i < 256
    ensures |k| == 1
  {
    [(i + 0x100) as char]
  }

  lemma GuardiansDiffer(i: nat, j: nat)
    requires i < j < 256
    ensures Guardian(i) != Guardian(j)
  {
    assert Guardian(i)[0] != Guardian(j)[0];
  }

  function Block(b: nat): (s: seq<Key>)
    requires b < 16
    ensures |s| == 16
    ensures forall j :: 0 <= j < 16 ==> s[j] == Guardian(16 * b + j)
  {
    seq(16, j requires 0 <= j < 16 => Guardian(16 * b + j))
  }

  lemma BlockValid(b: nat)
    requires b < 16
    ensures ValidConfig(Block(b), 1)
  {
    forall i, j | 0 <= i < j < 16
      ensures Block(b)[i] != Block(b)[j]
    {
      GuardiansDiffer(16 * b + i, 16 * b + j);
    }
  }

  /** The block the first `v` voters have reached. */
  function BlockOf(v: nat): (b: nat)
    requires v < 256
    ensures b < 16 && 16 * b <= v < 16 * b + 16
  {
    v / 16
  }

  /** Proposal 0 is live with the votes of guardians 0..v-1, and these guardians
      are in force. */
  ghost predicate Stage(s: ChainState, v: nat, guardians: seq<Key>)
    requires v <= 256
  {
    && Progress.Live(s, 0) && !s.gov.value.paused && s.gov.value.authority == ADMIN
    && s.gov.value.guardians == guardians
    && s.proposals[0].approvals == v
    && forall i :: v <= i < 256 ==> Seeds(0, Guardian(i)) !in s.markers
  }

  function Rotation(b: nat): Tx
    requires b < 16
  {
    Tx(ADMIN, 0, SetGuardians(Block(b), 1))
  }

  function Vote(v: nat): Tx
    requires v < 256
  {
    Tx(Guardian(v), 0, ApproveUpgrade(0))
  }

  lemma RotateStage(s: ChainState, v: nat, b: nat, guardians: seq<Key>)
    requires v <= 256 && b < 16 && Stage(s, v, guardians)
    ensures Process(s, Rotation(b)).result.Ok? && Stage(Process(s, Rotation(b)).state, v, Block(b))
  {
    BlockValid(b);
  }

  lemma VoteStage(s: ChainState, v: nat)
    requires v < 255 && Stage(s, v, Block(BlockOf(v)))
    ensures Process(s, Vote(v)).result.Ok? && Stage(Process(s, Vote(v)).state, v + 1, Block(BlockOf(v)))
  {
    assert Block(BlockOf(v))[v - 16 * BlockOf(v)] == Guardian(v);
    forall i | v < i < 256
      ensures Guardian(i) != Guardian(v)
    {
      GuardiansDiffer(v, i);
    }
  }

  lemma {:induction false} RotationsPrefix(txs: seq<Tx>, more: seq<Tx>, from: nat, until: nat)
    requires from <= until <= |txs|
    ensures Rotations(txs + more, from, until) == Rotations(txs, from, until)
  {
    if from == until {
    } else {
      RotationsPrefix(txs, more, from, until - 1);
      PrefixUnaffected(GENESIS, txs, more, until - 1);
      assert (txs + more)[until - 1] == txs[until - 1];
    }
  }

  /** One more transaction adds one rotation if it is one. */
  lemma RotationsSnoc(txs: seq<Tx>, tx: Tx)
    requires 1 <= |txs|
    ensures Rotations(txs + [tx], 1, |txs| + 1) ==
            Rotations(txs, 1, |txs|)
            + (if tx.ix.SetGuardians? && Process(ChainAt(txs, |txs|), tx).result.Ok? then 1 else 0)
  {
    RotationsPrefix(txs, [tx], 1, |txs|);
    PrefixUnaffected(GENESIS, txs, [tx], |txs|);
    assert (txs + [tx])[|txs|] == tx;
  }

  /** A run that initializes, proposes, and has come to this stage with this many
      rotations since. */
  ghost predicate Reaches(txs: seq<Tx>, v: nat, guardians: seq<Key>, rotations: nat)
    requires v <= 256
  {
    && |txs| >= 2 && txs[1].ix.ProposeUpgrade? && Succeeds(txs, 1)
    && Stage(ChainAt(txs, |txs|), v, guardians)
    && Rotations(txs, 1, |txs|) == rotations
  }

  lemma Opening(hash: Bytes32) returns (txs: seq<Tx>)
    requires hash != ZERO_HASH
    ensures Reaches(txs, 0, Block(0), 0)
  {
    var init := Tx(ADMIN, 0, Initialize(Block(0), 1, 0));
    var propose := Tx(ADMIN, 0, ProposeUpgrade(ADMIN, hash));
    txs := [init, propose];
    BlockValid(0);
    assert ChainAt(txs, 0) == GENESIS;
    var s1 := ChainAt(txs, 1);
    assert s1 == Process(GENESIS, init).state;
    assert s1.gov.value.guardians == Block(0) && s1.proposals == map[] && s1.markers == map[];
    var s2 := ChainAt(txs, 2);
    assert s2 == Process(s1, propose).state;
  }

  /** The opening of a run is the opening of its extensions. */
  lemma StaysOpened(txs: seq<Tx>, tx: Tx)
    requires |txs| >= 2 && txs[1].ix.ProposeUpgrade? && Succeeds(txs, 1)
    ensures (txs + [tx])[1].ix.ProposeUpgrade? && Succeeds(txs + [tx], 1)
  {
    PrefixUnaffected(GENESIS, txs, [tx], 1);
    assert (txs + [tx])[1] == txs[1];
  }

  /** One more successful transaction: where the run then stands. */
  lemma OneMore(txs: seq<Tx>, tx: Tx)
    requires |txs| >= 2 && Process(ChainAt(txs, |txs|), tx).result.Ok?
    ensures ChainAt(txs + [tx], |txs + [tx]|) == Process(ChainAt(txs, |txs|), tx).state
    ensures Rotations(txs + [tx], 1, |txs + [tx]|) == Rotations(txs, 1, |txs|) + if tx.ix.SetGuardians? then 1 else 0
  {
    Extend(GENESIS, txs, tx);
    RotationsSnoc(txs, tx);
  }

  lemma RotationReaches(txs: seq<Tx>, v: nat, b: nat, guardians: seq<Key>, rotations: nat)
    requires v <= 256 && b < 16 && Reaches(txs, v, guardians, rotations)
    ensures Reaches(txs + [Rotation(b)], v, Block(b), rotations + 1)
  {
    RotateStage(ChainAt(txs, |txs|), v, b, guardians);
    OneMore(txs, Rotation(b));
    StaysOpened(txs, Rotation(b));
  }

  lemma VoteReaches(txs: seq<Tx>, v: nat, rotations: nat)
    requires v < 255 && Reaches(txs, v, Block(BlockOf(v)), rotations)
    ensures Reaches(txs + [Vote(v)], v + 1, Block(BlockOf(v)), rotations)
  {
    VoteStage(ChainAt(txs, |txs|), v);
    OneMore(txs, Vote(v));
    StaysOpened(txs, Vote(v));
  }

  /** The block in force once `v` votes are cast. */
  function LastBlock(v: nat): (b: nat)
    requires v <= 256
    ensures b < 16
  {
    if v == 0 then 0 else BlockOf(v - 1)
  }

  lemma NextVote(before: seq<Tx>, v: nat, b: nat) returns (txs: seq<Tx>)
    requires v < 255 && b == BlockOf(v) && Reaches(before, v, Block(b), b)
    ensures Reaches(txs, v + 1, Block(LastBlock(v + 1)), LastBlock(v + 1))
  {
    VoteReaches(before, v, b);
    txs := before + [Vote(v)];
  }

  /** A run with `v` votes on proposal 0 and one rotation per completed block. */
  lemma {:induction false} VotingRun(hash: Bytes32, v: nat) returns (txs: seq<Tx>)
    requires hash != ZERO_HASH && v <= 255
    ensures Reaches(txs, v, Block(LastBlock(v)), LastBlock(v))
    decreases v
  {
    if v == 0 {
      txs := Opening(hash);
    } else {
      var before := VotingRun(hash, v - 1);
      var b, last := LastBlock(v), LastBlock(v - 1);
      if b == last {
        txs := NextVote(before, v - 1, b);
      } else {
        RotationReaches(before, v - 1, b, Block(last), last);
        txs := NextVote(before + [Rotation(b)], v - 1, b);
      }
    }
  }

  /** The bound of VotesBounded is attained for up to 14 rotations. */
  lemma BoundAttained(hash: Bytes32, rotations: nat) returns (txs: seq<Tx>)
    requires hash != ZERO_HASH && rotations <= 14
    ensures |txs| >= 2 && txs[1].ix.ProposeUpgrade? && Succeeds(txs, 1)
    ensures Rotations(txs, 1, |txs|) == rotations
    ensures 0 in ChainAt(txs, |txs|).proposals
    ensures ChainAt(txs, |txs|).proposals[0].approvals == MAX_GUARDIANS * (1 + rotations)
  {
    txs := VotingRun(hash, 16 * (1 + rotations));
  }

  lemma LastVoteOverflows(s: ChainState)
    requires Stage(s, 255, Block(15))
    ensures Process(s, Vote(255)).result == Err(ArithmeticOverflow)
  {
    assert Block(15)[15] == Guardian(255);
  }

  /** .. and 15 rotations suffice for approve to overflow. */
  lemma OverflowAttained(hash: Bytes32) returns (txs: seq<Tx>)
    requires hash != ZERO_HASH
    ensures |txs| >= 2 && txs[1].ix.ProposeUpgrade? && Succeeds(txs, 1)
    ensures Rotations(txs, 1, |txs|) == 15
    ensures Process(ChainAt(txs, |txs|), Vote(255)).result == Err(ArithmeticOverflow)
  {
    txs := VotingRun(hash, 255);
    LastVoteOverflows(ChainAt(txs, |txs|));
  }
}
