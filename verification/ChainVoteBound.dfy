/** How far the vote counter can go: at most 16 votes per guardian set in force
    since the proposal was created. */
module ChainVoteBound {
  import opened Machine
  import opened GovernanceRules
  import opened Domain
  import opened OnChainSpec
  import opened ChainInvariant
  import opened ChainSafety

  /** Successful guardian rotations among transactions from .. until-1. */
  ghost function Rotations(txs: seq<Tx>, from: nat, until: nat): nat
    requires from <= until <= |txs|
  {
    if until == from then 0
    else Rotations(txs, from, until - 1) + if txs[until - 1].ix.SetGuardians? && Succeeds(txs, until - 1) then 1 else 0
  }

  ghost function GuardiansOf(s: ChainState): set<Key> {
    if s.gov.Some? then Members(s.gov.value.guardians) else {}
  }

  /** Everyone who was a guardian in some state from `from` to `until`. */
  ghost function InForce(txs: seq<Tx>, from: nat, until: nat): set<Key>
    requires from <= until <= |txs|
  {
    GuardiansOf(ChainAt(txs, until)) + if until == from then {} else InForce(txs, from, until - 1)
  }

  lemma AtMostSixteen(s: ChainState)
    requires Inv(s)
    ensures |GuardiansOf(s)| <= MAX_GUARDIANS
  {
    if s.gov.Some? {
      DistinctCardinality(s.gov.value.guardians);
    }
  }

  lemma OnlyRotationChangesGuardians(s: ChainState, tx: Tx)
    requires s.gov.Some?
    ensures Process(s, tx).state.gov.Some?
    ensures (tx.ix.SetGuardians? && Process(s, tx).result.Ok?) || GuardiansOf(Process(s, tx).state) == GuardiansOf(s)
  {
  }

  lemma UnionSize<T>(a: set<T>, b: set<T>)
    ensures |a + b| <= |a| + |b|
  {
    assert a + b == a + (b - a);
    SubsetCardinality(b - a, b);
  }

  lemma {:induction false} InForceBound(txs: seq<Tx>, from: nat, until: nat)
    requires from <= until <= |txs| && ChainAt(txs, from).gov.Some?
    ensures ChainAt(txs, until).gov.Some?
    ensures GuardiansOf(ChainAt(txs, until)) <= InForce(txs, from, until)
    ensures |InForce(txs, from, until)| <= MAX_GUARDIANS * (1 + Rotations(txs, from, until))
    decreases until
  {
    EveryStateSound(txs, until);
    AtMostSixteen(ChainAt(txs, until));
    if until == from {
      assert InForce(txs, from, until) == GuardiansOf(ChainAt(txs, until));
    } else {
      InForceBound(txs, from, until - 1);
      OnlyRotationChangesGuardians(ChainAt(txs, until - 1), txs[until - 1]);
      if txs[until - 1].ix.SetGuardians? && Succeeds(txs, until - 1) {
        UnionSize(GuardiansOf(ChainAt(txs, until)), InForce(txs, from, until - 1));
      } else {
        assert InForce(txs, from, until) == InForce(txs, from, until - 1);
      }
    }
  }

  /** Every voter on a proposal was a guardian in some state since its creation. */
  lemma {:induction false} VotersInForce(txs: seq<Tx>, c: nat, n: nat, id: u64)
    requires c <= n <= |txs| && ChainAt(txs, c).gov.Some? && id !in ChainAt(txs, c).proposals
    ensures Voters(ChainAt(txs, n).markers, id) <= InForce(txs, c, n)
    decreases n
  {
    if n == c {
      EveryStateSound(txs, c);
      InVoters(ChainAt(txs, c).markers, id);
    } else {
      VotersInForce(txs, c, n - 1, id);
      InForceBound(txs, c, n - 1);
      forall v | v in Voters(ChainAt(txs, n).markers, id)
        ensures v in InForce(txs, c, n)
      {
        InVoters(ChainAt(txs, n).markers, id);
        InVoters(ChainAt(txs, n - 1).markers, id);
        if v !in Voters(ChainAt(txs, n - 1).markers, id) {
          NewMarker(ChainAt(txs, n - 1), txs[n - 1], Seeds(id, v));
          assert v in GuardiansOf(ChainAt(txs, n - 1));
        }
      }
    }
  }

  /** The vote counter never exceeds 16 times one more than the rotations since
      the proposal was created. */
  lemma VotesBounded(txs: seq<Tx>, n: nat, id: u64) returns (c: nat)
    requires n <= |txs| && id in ChainAt(txs, n).proposals
    ensures c < n && Creates(ChainAt(txs, c), txs[c], id, ChainAt(txs, n).proposals[id])
    ensures ChainAt(txs, n).proposals[id].approvals <= MAX_GUARDIANS * (1 + Rotations(txs, c, n))
  {
    c := Origin(txs, n, id);
    EveryStateSound(txs, n);
    assert Sound(ChainAt(txs, n), id);
    VotersInForce(txs, c, n, id);
    InForceBound(txs, c, n);
    SubsetCardinality(Voters(ChainAt(txs, n).markers, id), InForce(txs, c, n));
  }

  /** The Overflow branch of approve needs at least 15 rotations of the whole
      guardian set since the proposal was created. */
  lemma OverflowNeedsRotations(txs: seq<Tx>, n: nat, id: u64) returns (c: nat)
    requires n < |txs| && txs[n].ix == ApproveUpgrade(id)
    requires Process(ChainAt(txs, n), txs[n]).result == Err(ArithmeticOverflow)
    ensures c < n && id in ChainAt(txs, n).proposals
    ensures Creates(ChainAt(txs, c), txs[c], id, ChainAt(txs, n).proposals[id])
    ensures Rotations(txs, c, n) >= 15
  {
    var s, g := ChainAt(txs, n), txs[n].signer;
    c := Origin(txs, n, id);
    EveryStateSound(txs, n);
    assert Sound(s, id);
    VotersInForce(txs, c, n, id);
    InForceBound(txs, c, n);
    InVoters(s.markers, id);
    var all := Voters(s.markers, id) + {g};
    assert g in GuardiansOf(s) && |all| == 256;
    SubsetCardinality(all, InForce(txs, c, n));
  }
}
