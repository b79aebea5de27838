/** The engine behaves the same over the Postgres store, whose upsert rewrites
    two columns on conflict, as over the in-memory store, which overwrites whole
    records: the engine only ever stores fresh ids or records it read back with a
    new counter and status. */
module StoreEquivalence {
  import opened Machine
  import opened Domain
  import opened MemoryStores
  import opened PostgresStores
  import opened EngineSpec
  import opened EngineLifecycle
  import opened EngineRuns

  /** An engine state whose proposals live in the table; `proposals` of the
      shared part is unused and stays empty. */
  datatype PgState = PgState(shared: EngineState, rows: Table)

  datatype PgOutcome = PgOutcome(state: PgState, reply: Result<Reply, EngineError>)

  ghost function PgFound(rows: Table, call: Call): Option<ProposalRecord> {
    if Wanted(call).Some? then GetRow(rows, Wanted(call).value) else None
  }

  /** One engine call over the table: the same decisions, other reads and writes. */
  ghost function PgStep(s: PgState, req: Request): PgOutcome {
    if req.call.RaiseFinding? then
      var o := RaiseFindingStep(s.shared, req);
      PgOutcome(s.(shared := o.state), o.reply)
    else
      var e := Decide(s.shared.config, s.shared.votes, PgFound(s.rows, req.call), req);
      PgOutcome(PgState(s.shared.(config := e.config, votes := e.votes, events := Published(s.shared.events, e.event)),
                        if e.write.Some? then UpsertRow(s.rows, e.write.value) else s.rows), e.reply)
  }

  ghost function PgStateAt(config: GovernanceConfig, run: seq<Request>, k: nat): PgState
    requires k <= |run|
  {
    if k == 0 then PgState(Fresh(config), map[]) else PgStep(PgStateAt(config, run, k - 1), run[k - 1]).state
  }

  /** Same engine, and every lookup answers the same. */
  ghost predicate SameStore(m: EngineState, p: PgState) {
    && p.shared == m.(proposals := map[])
    && KeyedByRowId(p.rows)
    && forall id: u64 :: GetRow(p.rows, id) == Lookup(m.proposals, id)
  }

  lemma CastsInvert(id: u64)
    ensures AsU64(AsI64(id)) == id
  {
  }

  /** Both upserts agree on a record that is new, or read back and re-stamped. */
  lemma WriteAgrees(proposals: map<u64, ProposalRecord>, rows: Table, r: ProposalRecord)
    requires KeyedByRowId(rows)
    requires forall id: u64 :: GetRow(rows, id) == Lookup(proposals, id)
    requires r.id in proposals ==> r == proposals[r.id].(approvals := r.approvals, status := r.status)
    ensures KeyedByRowId(UpsertRow(rows, r))
    ensures forall id: u64 :: GetRow(UpsertRow(rows, r), id) == Lookup(proposals[r.id := r], id)
  {
    RowRoundTrip(r);
    assert GetRow(rows, r.id) == Lookup(proposals, r.id);
    if AsI64(r.id) in rows {
      UpsertOverwritesExactly(rows, r);
    }
    forall id: u64
      ensures GetRow(UpsertRow(rows, r), id) == Lookup(proposals[r.id := r], id)
    {
      CastsInvert(id);
      CastsInvert(r.id);
      assert GetRow(rows, id) == Lookup(proposals, id);
      assert id != r.id ==> AsI64(id) != AsI64(r.id);
    }
  }

  /** A write both stores agree on: a new id, or the stored record re-stamped. */
  ghost predicate Restamps(s: EngineState, e: Effect) {
    e.write.Some? && e.write.value.id in s.proposals ==>
      var r := e.write.value;
      r == s.proposals[r.id].(approvals := r.approvals, status := r.status)
  }

  lemma ProposeRestamps(s: EngineState, programId: string, hashHex: string, proposer: Key, now: i64, later: i64)
    requires Inv(s) && s.config.proposalCount < U64_MAX
    ensures Restamps(s, ProposeEffect(s.config, s.votes, programId, hashHex, proposer, now, later))
  {
    assert s.config.proposalCount !in s.proposals;
    ProposeEnds(s.config, s.votes, programId, hashHex, proposer, now, later);
  }

  lemma RewriteRestamps(s: EngineState, req: Request)
    requires Inv(s) && Wanted(req.call).Some?
    ensures Restamps(s, Decide(s.config, s.votes, Found(s.proposals, req.call), req))
  {
  }

  /** The engine's writes are of the kind both stores agree on. */
  lemma EngineWritesAreRestamps(s: EngineState, req: Request)
    requires Inv(s) && !req.call.RaiseFinding? && s.config.proposalCount < U64_MAX
    ensures Restamps(s, Decide(s.config, s.votes, Found(s.proposals, req.call), req))
  {
    if req.call.Propose? {
      ProposeRestamps(s, req.call.programId, req.call.hashHex, req.call.proposer, req.now, req.later);
    } else if Wanted(req.call).Some? {
      RewriteRestamps(s, req);
    }
  }

  lemma StepAgrees(m: EngineState, p: PgState, req: Request)
    requires Inv(m) && SameStore(m, p)
    requires Step(m, req).state.config.proposalCount < U64_MAX
    ensures SameStore(Step(m, req).state, PgStep(p, req).state)
    ensures Step(m, req).reply == PgStep(p, req).reply
  {
    if !req.call.RaiseFinding? {
      assert PgFound(p.rows, req.call) == Found(m.proposals, req.call);
      var e := Decide(m.config, m.votes, Found(m.proposals, req.call), req);
      StepCounts(m, req);
      EngineWritesAreRestamps(m, req);
      if e.write.Some? {
        WriteAgrees(m.proposals, p.rows, e.write.value);
      }
    }
  }

  lemma StepCounts(s: EngineState, req: Request)
    ensures s.config.proposalCount <= Step(s, req).state.config.proposalCount
  {
    match req.call
    case SetPaused(_) =>
    case SetGuardians(_, _) =>
    case Propose(_, _, _) =>
    case Approve(_, _) =>
    case Execute(_) =>
    case Cancel(_) =>
    case RaiseFinding(_, _, _, _, _) =>
  }

  lemma CountOnlyGrows(config: GovernanceConfig, run: seq<Request>, k: nat)
    requires k < |run|
    ensures StateAt(config, run, k).config.proposalCount <= StateAt(config, run, k + 1).config.proposalCount
  {
    StepCounts(StateAt(config, run, k), run[k]);
  }

  /** Over every run that has not used up the ids, the two engines are in the
      same state and every lookup agrees. */
  lemma {:induction false} StoresAgree(config: GovernanceConfig, run: seq<Request>, k: nat)
    requires Startable(config) && k <= |run|
    requires StateAt(config, run, k).config.proposalCount < U64_MAX
    ensures SameStore(StateAt(config, run, k), PgStateAt(config, run, k))
  {
    if k == 0 {
    } else {
      CountOnlyGrows(config, run, k - 1);
      StoresAgree(config, run, k - 1);
      RunInvariant(config, run, k - 1);
      StepAgrees(StateAt(config, run, k - 1), PgStateAt(config, run, k - 1), run[k - 1]);
    }
  }

  /** .. and every request of the run gets the same reply. */
  lemma RepliesAgree(config: GovernanceConfig, run: seq<Request>, k: nat)
    requires Startable(config) && k < |run|
    requires StateAt(config, run, k + 1).config.proposalCount < U64_MAX
    ensures ReplyAt(config, run, k) == PgStep(PgStateAt(config, run, k), run[k]).reply
  {
    CountOnlyGrows(config, run, k);
    StoresAgree(config, run, k);
    RunInvariant(config, run, k);
    StepAgrees(StateAt(config, run, k), PgStateAt(config, run, k), run[k]);
  }

  function Mapped(l: seq<Row>): (r: seq<ProposalRecord>)
    ensures |r| == |l|
    ensures forall i :: 0 <= i < |l| ==> r[i] == MapRow(l[i])
  {
    if |l| == 0 then [] else Mapped(l[..|l| - 1]) + [MapRow(l[|l| - 1])]
  }

  lemma ListsAgreeOn(m: map<u64, ProposalRecord>, t: Table, rows: seq<Row>, l: seq<ProposalRecord>)
    requires KeyedByRowId(t) && KeyedById(m)
    requires forall id: u64 :: GetRow(t, id) == Lookup(m, id)
    requires forall id :: id in m ==> id <= I64_MAX
    requires IsRowListing(t, rows) && IsListing(m, l)
    ensures Mapped(rows) == l
  {
    SameSize(m, t);
    var mapped := Mapped(rows);
    forall i | 0 <= i < |rows|
      ensures mapped[i].id in m && m[mapped[i].id] == mapped[i] && mapped[i].id == rows[i].id
    {
      assert GetRow(t, AsU64(rows[i].id)) == Lookup(m, AsU64(rows[i].id));
    }
    ListingUnique(m, mapped, l);
  }

  /** Ordering by the signed column is ordering by id exactly while the ids fit
      an i64: up to 2^63 proposals the two lists are the same sequence, and with
      more they never are. */
  lemma ListsAgreeExactly(config: GovernanceConfig, run: seq<Request>, k: nat, rows: seq<Row>, l: seq<ProposalRecord>)
    requires Startable(config) && k <= |run|
    requires StateAt(config, run, k).config.proposalCount < U64_MAX
    requires IsRowListing(PgStateAt(config, run, k).rows, rows)
    requires IsListing(StateAt(config, run, k).proposals, l)
    ensures Mapped(rows) == l <==> StateAt(config, run, k).config.proposalCount <= I64_MAX + 1
  {
    StoresAgree(config, run, k);
    RunInvariant(config, run, k);
    DenseListing(config, run, k, l);
    ListsAgreeWhen(StateAt(config, run, k), PgStateAt(config, run, k).rows, rows, l);
  }

  /** .. over states with dense ids, listed in order. */
  lemma ListsAgreeWhen(m: EngineState, t: Table, rows: seq<Row>, l: seq<ProposalRecord>)
    requires Inv(m) && KeyedByRowId(t) && m.config.proposalCount < U64_MAX
    requires forall id: u64 :: GetRow(t, id) == Lookup(m.proposals, id)
    requires IsRowListing(t, rows) && IsListing(m.proposals, l)
    requires |l| == m.config.proposalCount && forall i :: 0 <= i < |l| ==> l[i].id == i
    ensures Mapped(rows) == l <==> m.config.proposalCount <= I64_MAX + 1
  {
    if m.config.proposalCount <= I64_MAX + 1 {
      ListsAgreeOn(m.proposals, t, rows, l);
    } else if Mapped(rows) == l {
      OutOfOrder(rows, l);
    }
  }

  /** The signed order puts id 2^63 before id 0. */
  lemma {:induction false} OutOfOrder(rows: seq<Row>, l: seq<ProposalRecord>)
    requires |rows| == |l| && |l| > I64_MAX + 1
    requires forall i, j :: 0 <= i < j < |rows| ==> rows[i].id < rows[j].id
    requires l[0].id == 0 && l[I64_MAX + 1].id == I64_MAX + 1
    ensures Mapped(rows) != l
  {
    assert rows[0].id < rows[I64_MAX + 1].id;
  }

  /** The counts agree as well, and are the number of ids handed out. */
  lemma CountsAgree(config: GovernanceConfig, run: seq<Request>, k: nat)
    requires Startable(config) && k <= |run|
    requires StateAt(config, run, k).config.proposalCount < U64_MAX
    ensures var s := StateAt(config, run, k);
            |s.proposals| == |PgStateAt(config, run, k).rows| == s.config.proposalCount
  {
    StoresAgree(config, run, k);
    StatsExact(config, run, k);
    SameSize(StateAt(config, run, k).proposals, PgStateAt(config, run, k).rows);
  }

  lemma SameSize(m: map<u64, ProposalRecord>, t: Table)
    requires forall id: u64 :: GetRow(t, id) == Lookup(m, id)
    ensures |m| == |t|
  {
    ImageSize(m.Keys);
    var image := Signed(m.Keys);
    forall x: i64
      ensures x in t.Keys <==> x in image
    {
      assert GetRow(t, AsU64(x)) == Lookup(m, AsU64(x));
      assert AsI64(AsU64(x)) == x;
    }
    assert t.Keys == image;
    assert |m| == |m.Keys| && |t| == |t.Keys|;
  }

  ghost function Signed(ids: set<u64>): set<i64> {
    set id | id in ids :: AsI64(id)
  }

  lemma {:induction false} ImageSize(ids: set<u64>)
    ensures |Signed(ids)| == |ids|
    decreases ids
  {
    if ids == {} {
    } else {
      var id :| id in ids;
      ImageSize(ids - {id});
      forall other | other in ids - {id}
        ensures AsI64(other) != AsI64(id)
      {
        CastsInvert(other);
        CastsInvert(id);
      }
      assert Signed(ids) == Signed(ids - {id}) + {AsI64(id)};
      assert AsI64(id) !in Signed(ids - {id});
    }
  }
}
