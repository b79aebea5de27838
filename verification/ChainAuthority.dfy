/** Who can become the authority on-chain. */
module ChainAuthority {
  import opened Domain
  import opened OnChainSpec

  ghost predicate Nominates(txs: seq<Tx>, t: nat, nominee: Key)
    requires t < |txs|
  {
    txs[t].ix == TransferAuthority(nominee) && Succeeds(txs, t)
  }

  ghost predicate Accepts(txs: seq<Tx>, a: nat)
    requires a < |txs|
  {
    txs[a].ix == AcceptAuthority && Succeeds(txs, a)
  }

  /** Neither a nomination nor an accept took effect strictly between. */
  ghost predicate Untouched(txs: seq<Tx>, t: nat, a: nat)
    requires a <= |txs|
  {
    forall j :: t < j < a ==> !(txs[j].ix.TransferAuthority? && Succeeds(txs, j)) && !Accepts(txs, j)
  }

  /** The pending key is the nominee of the latest nomination, made by the
      authority of the time and not yet accepted. */
  ghost predicate PendingFrom(txs: seq<Tx>, n: nat, t: nat, nominee: Key)
    requires n <= |txs|
  {
    && t < n && Nominates(txs, t, nominee) && Untouched(txs, t, n)
    && ChainAt(txs, t).gov.Some? && txs[t].signer == ChainAt(txs, t).gov.value.authority
  }

  lemma PendingStep(s: ChainState, tx: Tx)
    requires Process(s, tx).state.gov.Some?
    requires Process(s, tx).state.gov.value.pendingAuthority != DEFAULT_KEY
    ensures var pending := Process(s, tx).state.gov.value.pendingAuthority;
            if tx.ix.TransferAuthority? && Process(s, tx).result.Ok? then
              tx.ix.newAuthority == pending && s.gov.Some? && s.gov.value.authority == tx.signer
            else
              s.gov.Some? && s.gov.value.pendingAuthority == pending
              && !(tx.ix == AcceptAuthority && Process(s, tx).result.Ok?)
  {
  }

  lemma {:induction false} PendingOrigin(txs: seq<Tx>, n: nat) returns (t: nat)
    requires n <= |txs| && ChainAt(txs, n).gov.Some?
    requires ChainAt(txs, n).gov.value.pendingAuthority != DEFAULT_KEY
    ensures PendingFrom(txs, n, t, ChainAt(txs, n).gov.value.pendingAuthority)
  {
    if n == 0 {
      assert false;
    } else {
      var s, tx := ChainAt(txs, n - 1), txs[n - 1];
      PendingStep(s, tx);
      if tx.ix.TransferAuthority? && Process(s, tx).result.Ok? {
        t := n - 1;
      } else {
        t := PendingOrigin(txs, n - 1);
      }
    }
  }

  lemma AuthorityStep(s: ChainState, tx: Tx)
    requires Process(s, tx).state.gov.Some?
    ensures var authority := Process(s, tx).state.gov.value.authority;
            if s.gov.None? then tx.ix.Initialize? && Process(s, tx).result.Ok? && tx.signer == authority
            else if tx.ix == AcceptAuthority && Process(s, tx).result.Ok? then
              tx.signer == authority && s.gov.value.pendingAuthority == authority && authority != DEFAULT_KEY
            else s.gov.value.authority == authority
  {
  }

  /** How the key in force came to be the authority: it initialized the program
      and nobody has accepted since, or its accept was the last one, as the most
      recent nominee of the authority that nominated it. */
  datatype Title = Initializer(i: nat) | Successor(a: nat, t: nat)

  ghost predicate HoldsBy(txs: seq<Tx>, n: nat, title: Title, key: Key)
    requires n <= |txs|
  {
    match title
    case Initializer(i) =>
      && i < n && txs[i].ix.Initialize? && Succeeds(txs, i) && txs[i].signer == key
      && forall j :: i < j < n ==> !Accepts(txs, j)
    case Successor(a, t) =>
      && t < a < n && Accepts(txs, a) && txs[a].signer == key && key != DEFAULT_KEY
      && PendingFrom(txs, a, t, key)
      && forall j :: a < j < n ==> !Accepts(txs, j)
  }

  lemma LastAccept(txs: seq<Tx>, a: nat) returns (title: Title)
    requires a < |txs| && Accepts(txs, a)
    ensures ChainAt(txs, a + 1).gov.Some?
    ensures HoldsBy(txs, a + 1, title, ChainAt(txs, a + 1).gov.value.authority)
  {
    AuthorityStep(ChainAt(txs, a), txs[a]);
    var t := PendingOrigin(txs, a);
    title := Successor(a, t);
  }

  lemma StillHolds(txs: seq<Tx>, n: nat, title: Title, key: Key)
    requires n < |txs| && HoldsBy(txs, n, title, key) && !Accepts(txs, n)
    ensures HoldsBy(txs, n + 1, title, key)
  {
  }

  /** Authority chain: the authority in force always holds by such a title. */
  lemma {:induction false} AuthorityChain(txs: seq<Tx>, n: nat) returns (title: Title)
    requires n <= |txs| && ChainAt(txs, n).gov.Some?
    ensures HoldsBy(txs, n, title, ChainAt(txs, n).gov.value.authority)
  {
    if n == 0 {
      assert false;
    } else {
      AuthorityStep(ChainAt(txs, n - 1), txs[n - 1]);
      if ChainAt(txs, n - 1).gov.None? {
        title := Initializer(n - 1);
      } else if Accepts(txs, n - 1) {
        title := LastAccept(txs, n - 1);
      } else {
        title := AuthorityChain(txs, n - 1);
        StillHolds(txs, n - 1, title, ChainAt(txs, n).gov.value.authority);
      }
    }
  }

  /** One nomination serves at most one accept: between any two accepts there is
      another nomination. */
  lemma NominationUsedOnce(txs: seq<Tx>, a: nat, b: nat) returns (t: nat)
    requires a < b < |txs| && Accepts(txs, a) && Accepts(txs, b)
    ensures a < t < b && Nominates(txs, t, txs[b].signer)
  {
    t := PendingOrigin(txs, b);
  }
}
