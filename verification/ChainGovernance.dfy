/** What the on-chain governance account holds after any transactions, read off the
    transactions alone, and the two-step handover of the authority. */
module ChainGovernance {
  import opened Machine
  import opened Domain
  import opened OnChainSpec
  import opened ChainSafety
  import opened ChainAuthority

  // ---------- one transaction ----------

  predicate SetsCouncil(ix: Instruction) {
    ix.Initialize? || ix.SetGuardians?
  }

  predicate SetsPause(ix: Instruction) {
    ix.Initialize? || ix.SetPaused?
  }

  /** The council a transaction that sets one asks for. */
  ghost predicate HoldsCouncil(gov: Governance, ix: Instruction)
    requires SetsCouncil(ix)
  {
    gov.guardians == ix.guardians && gov.threshold == ix.threshold
  }

  /** The pause flag a transaction that sets it asks for; initialize starts unpaused. */
  ghost predicate HoldsPause(gov: Governance, ix: Instruction)
    requires SetsPause(ix)
  {
    gov.paused == (ix.SetPaused? && ix.paused)
  }

  lemma CouncilStep(s: ChainState, tx: Tx)
    requires Process(s, tx).state.gov.Some?
    ensures var gov := Process(s, tx).state.gov.value;
            if SetsCouncil(tx.ix) && Process(s, tx).result.Ok? then HoldsCouncil(gov, tx.ix)
            else s.gov.Some? && gov.guardians == s.gov.value.guardians && gov.threshold == s.gov.value.threshold
  {
  }

  lemma PauseStep(s: ChainState, tx: Tx)
    requires Process(s, tx).state.gov.Some?
    ensures var gov := Process(s, tx).state.gov.value;
            if SetsPause(tx.ix) && Process(s, tx).result.Ok? then HoldsPause(gov, tx.ix)
            else s.gov.Some? && gov.paused == s.gov.value.paused
  {
  }

  lemma CountStep(s: ChainState, tx: Tx)
    requires Process(s, tx).state.gov.Some?
    ensures var count := Process(s, tx).state.gov.value.proposalCount;
            if s.gov.None? then count == 0
            else count == s.gov.value.proposalCount
                          + if tx.ix.ProposeUpgrade? && Process(s, tx).result.Ok? then 1 else 0
    ensures s.gov.None? ==> !(tx.ix.ProposeUpgrade? && Process(s, tx).result.Ok?)
  {
  }

  lemma NothingBeforeInitialize(s: ChainState, tx: Tx)
    requires Process(s, tx).state.gov.None?
    ensures s.gov.None? && !(tx.ix.ProposeUpgrade? && Process(s, tx).result.Ok?)
  {
  }

  // ---------- whole runs ----------

  /** Successful proposes among the first `n` transactions. */
  ghost function Proposes(txs: seq<Tx>, n: nat): nat
    requires n <= |txs|
  {
    if n == 0 then 0 else Proposes(txs, n - 1) + if txs[n - 1].ix.ProposeUpgrade? && Succeeds(txs, n - 1) then 1 else 0
  }

  /** Transaction `r` is the latest successful one of its kind before `n`. */
  ghost predicate LatestCouncil(txs: seq<Tx>, r: nat, n: nat)
    requires n <= |txs|
  {
    && r < n && SetsCouncil(txs[r].ix) && Succeeds(txs, r)
    && forall j :: r < j < n ==> !(SetsCouncil(txs[j].ix) && Succeeds(txs, j))
  }

  ghost predicate LatestPause(txs: seq<Tx>, p: nat, n: nat)
    requires n <= |txs|
  {
    && p < n && SetsPause(txs[p].ix) && Succeeds(txs, p)
    && forall j :: p < j < n ==> !(SetsPause(txs[j].ix) && Succeeds(txs, j))
  }

  lemma {:induction false} CouncilOrigin(txs: seq<Tx>, n: nat) returns (r: nat)
    requires n <= |txs| && ChainAt(txs, n).gov.Some?
    ensures LatestCouncil(txs, r, n) && HoldsCouncil(ChainAt(txs, n).gov.value, txs[r].ix)
  {
    if n == 0 {
      assert false;
    } else {
      CouncilStep(ChainAt(txs, n - 1), txs[n - 1]);
      if SetsCouncil(txs[n - 1].ix) && Succeeds(txs, n - 1) {
        r := n - 1;
      } else {
        r := CouncilOrigin(txs, n - 1);
      }
    }
  }

  lemma {:induction false} PauseOrigin(txs: seq<Tx>, n: nat) returns (p: nat)
    requires n <= |txs| && ChainAt(txs, n).gov.Some?
    ensures LatestPause(txs, p, n) && HoldsPause(ChainAt(txs, n).gov.value, txs[p].ix)
  {
    if n == 0 {
      assert false;
    } else {
      PauseStep(ChainAt(txs, n - 1), txs[n - 1]);
      if SetsPause(txs[n - 1].ix) && Succeeds(txs, n - 1) {
        p := n - 1;
      } else {
        p := PauseOrigin(txs, n - 1);
      }
    }
  }

  lemma {:induction false} CountIsProposes(txs: seq<Tx>, n: nat)
    requires n <= |txs|
    ensures if ChainAt(txs, n).gov.None? then Proposes(txs, n) == 0
            else ChainAt(txs, n).gov.value.proposalCount == Proposes(txs, n)
  {
    if n == 0 {
    } else {
      CountIsProposes(txs, n - 1);
      if ChainAt(txs, n).gov.Some? {
        CountStep(ChainAt(txs, n - 1), txs[n - 1]);
      } else {
        NothingBeforeInitialize(ChainAt(txs, n - 1), txs[n - 1]);
      }
    }
  }

  /** Where the governance account comes from, field by field: guardians and
      threshold are those of the latest successful initialize or rotation, the pause
      flag is that of the latest successful initialize or pause, the timelock is that
      of initialize, and the count is the number of successful proposes. No other
      transaction touches any of them. */
  lemma GovernanceTrail(txs: seq<Tx>, n: nat) returns (council: nat, pause: nat, init: nat)
    requires n <= |txs| && ChainAt(txs, n).gov.Some?
    ensures LatestCouncil(txs, council, n) && HoldsCouncil(ChainAt(txs, n).gov.value, txs[council].ix)
    ensures LatestPause(txs, pause, n) && HoldsPause(ChainAt(txs, n).gov.value, txs[pause].ix)
    ensures init < n && InitializesWith(ChainAt(txs, init), txs[init], ChainAt(txs, n).gov.value.timelockSeconds)
    ensures ChainAt(txs, n).gov.value.proposalCount == Proposes(txs, n)
  {
    council := CouncilOrigin(txs, n);
    pause := PauseOrigin(txs, n);
    init := TimelockOrigin(txs, n);
    CountIsProposes(txs, n);
  }

  // ---------- the handover ----------

  lemma PendingKept(s: ChainState, tx: Tx)
    requires s.gov.Some?
    requires !(tx.ix.TransferAuthority? && Process(s, tx).result.Ok?)
    requires !(tx.ix == AcceptAuthority && Process(s, tx).result.Ok?)
    ensures Process(s, tx).state.gov.Some?
    ensures Process(s, tx).state.gov.value.pendingAuthority == s.gov.value.pendingAuthority
  {
  }

  lemma NominationPends(s: ChainState, tx: Tx, nominee: Key)
    requires tx.ix == TransferAuthority(nominee) && Process(s, tx).result.Ok?
    ensures Process(s, tx).state.gov.Some? && Process(s, tx).state.gov.value.pendingAuthority == nominee
  {
  }

  /** The latest nomination stands until another one or an accept. */
  lemma {:induction false} NominationStands(txs: seq<Tx>, t: nat, n: nat, nominee: Key)
    requires t < n <= |txs| && Nominates(txs, t, nominee) && Untouched(txs, t, n)
    ensures ChainAt(txs, n).gov.Some? && ChainAt(txs, n).gov.value.pendingAuthority == nominee
    decreases n
  {
    if n == t + 1 {
      NominationPends(ChainAt(txs, t), txs[t], nominee);
    } else {
      NominationStands(txs, t, n - 1, nominee);
      PendingKept(ChainAt(txs, n - 1), txs[n - 1]);
    }
  }

  /** Accepting moves the nominee to authority and clears the nomination, and leaves
      every other account and field alone. */
  ghost predicate HandsOver(s: ChainState, t: ChainState, key: Key) {
    && s.gov.Some? && t.gov.Some?
    && t.gov.value.authority == key && t.gov.value.pendingAuthority == DEFAULT_KEY
    && t.gov.value.guardians == s.gov.value.guardians && t.gov.value.threshold == s.gov.value.threshold
    && t.gov.value.timelockSeconds == s.gov.value.timelockSeconds && t.gov.value.paused == s.gov.value.paused
    && t.gov.value.proposalCount == s.gov.value.proposalCount
    && t.proposals == s.proposals && t.markers == s.markers
  }

  lemma AcceptExactly(s: ChainState, tx: Tx)
    requires s.gov.Some? && tx.ix == AcceptAuthority
    ensures var nominee, r := s.gov.value.pendingAuthority, Process(s, tx);
            && (r.result.Ok? <==> tx.signer == nominee && nominee != DEFAULT_KEY)
            && (r.result.Ok? ==> HandsOver(s, r.state, nominee))
            && (r.result.Err? ==> r.state == s)
  {
  }

  /** While a nomination stands, an accept succeeds if and only if the nominee signs
      it and is not the default key; it then completes the handover. */
  lemma HandoverExactly(txs: seq<Tx>, t: nat, n: nat, nominee: Key)
    requires t < n < |txs| && Nominates(txs, t, nominee) && Untouched(txs, t, n) && txs[n].ix == AcceptAuthority
    ensures Succeeds(txs, n) <==> txs[n].signer == nominee && nominee != DEFAULT_KEY
    ensures Succeeds(txs, n) ==> HandsOver(ChainAt(txs, n), ChainAt(txs, n + 1), nominee)
  {
    NominationStands(txs, t, n, nominee);
    AcceptExactly(ChainAt(txs, n), txs[n]);
  }

  lemma NominateAndAccept(s: ChainState, key: Key, now: i64, later: i64)
    requires s.gov.Some?
    ensures var nominate := Process(s, Tx(s.gov.value.authority, now, TransferAuthority(key)));
            var accept := Process(nominate.state, Tx(key, later, AcceptAuthority));
            && nominate.result.Ok?
            && (accept.result.Ok? <==> key != DEFAULT_KEY)
            && (accept.result.Ok? ==> HandsOver(s, accept.state, key))
  {
  }

  /** From every reachable state the authority can hand over to any key but the
      default one: a nomination and an accept by the nominee both succeed, and leave
      everything else as it was. */
  lemma HandoverCompletes(txs: seq<Tx>, key: Key, now: i64, later: i64)
    requires ChainAt(txs, |txs|).gov.Some? && key != DEFAULT_KEY
    ensures var s, n := ChainAt(txs, |txs|), |txs|;
            var all := txs + [Tx(s.gov.value.authority, now, TransferAuthority(key)), Tx(key, later, AcceptAuthority)];
            Succeeds(all, n) && Succeeds(all, n + 1) && HandsOver(s, ChainAt(all, n + 2), key)
  {
    var s, n := ChainAt(txs, |txs|), |txs|;
    var nominate, accept := Tx(s.gov.value.authority, now, TransferAuthority(key)), Tx(key, later, AcceptAuthority);
    var all := txs + [nominate, accept];
    NominateAndAccept(s, key, now, later);
    Continue(GENESIS, txs, [nominate, accept], 0);
    Continue(GENESIS, txs, [nominate, accept], 1);
    Continue(GENESIS, txs, [nominate, accept], 2);
    assert all[n] == nominate && all[n + 1] == accept;
    assert ChainFrom(s, [nominate, accept], 0) == s;
  }
}
