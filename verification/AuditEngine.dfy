/** The audit engine as an object over its stores, config lock and voter map
    (crates/securedeploy-core/src/engine.rs). Clock readings are parameters.
    Each method is proved against the one-call semantics of EngineSpec, and a
    ghost history ties every object to the run it has made, so that the theorems
    about runs are theorems about these objects. */
module AuditEngines {
  import opened Machine
  import opened GovernanceRules
  import opened BuildHashes
  import opened Domain
  import opened MemoryStores
  import opened EngineSpec
  import Life = EngineLifecycle
  import Runs = EngineRuns

  class AuditEngine {
    const proposals: InMemoryProposalStore
    const findings: InMemoryFindingStore
    const events: EventLog
    var config: GovernanceConfig
    var approvals: map<u64, set<Key>>

    /** The state the engine started in, and the calls it has had since. */
    ghost const origin: EngineState
    ghost var history: seq<Request>

    ghost predicate Valid()
      reads this, proposals, findings, events
    {
      proposals.Valid() && findings.Valid() && State() == StateFrom(origin, history, |history|)
    }

    /** The engine started from `GovernanceConfig::new` over empty stores. */
    ghost predicate Founded() {
      Startable(origin.config) && origin == Fresh(origin.config)
    }

    ghost function State(): EngineState
      reads this, proposals, findings, events
    {
      EngineState(config, approvals, proposals.records, findings.records, events.published)
    }

    constructor (proposals: InMemoryProposalStore, findings: InMemoryFindingStore, events: EventLog,
                 config: GovernanceConfig)
      requires proposals.Valid() && findings.Valid()
      ensures this.proposals == proposals && this.findings == findings && this.events == events
      ensures Valid()
      ensures State() == EngineState(config, map[], proposals.records, findings.records, events.published)
      ensures origin == State() && history == []
    {
      origin := EngineState(config, map[], proposals.records, findings.records, events.published);
      history := [];
      this.proposals, this.findings, this.events := proposals, findings, events;
      this.config := config;
      approvals := map[];
    }

    /** `AuditEngine::new`: no engine comes of an invalid guardian set. */
    static method New(proposals: InMemoryProposalStore, findings: InMemoryFindingStore, events: EventLog,
                      config: GovernanceConfig) returns (r: Result<AuditEngine, EngineError>)
      requires proposals.Valid() && findings.Valid()
      ensures r.Ok? <==> ValidConfig(config.guardians, config.threshold)
      ensures r.Ok? ==> fresh(r.value) && r.value.Valid() && r.value.proposals == proposals
      ensures r.Ok? ==>
                && r.value.State() == EngineState(config, map[], proposals.records, findings.records, events.published)
                && r.value.origin == r.value.State() && r.value.history == []
      ensures r.Err? ==>
                var fault := Fault(config.guardians, config.threshold).value;
                r.error == EngineError.Domain(Explain(fault, config.threshold, |config.guardians|))
    {
      var checked := ValidateGuardians(config.guardians, config.threshold);
      if checked.Err? {
        return Err(EngineError.Domain(checked.error));
      }
      var engine := new AuditEngine(proposals, findings, events, config);
      return Ok(engine);
    }

    method SetPaused(paused: bool) returns (r: Result<Unit, EngineError>)
      requires Valid()
      modifies this, events
      ensures Valid() && history == old(history) + [Request(Call.SetPaused(paused), 0, 0)]
      ensures Outcome(State(), UnitReply(r)) == Step(old(State()), Request(Call.SetPaused(paused), 0, 0))
    {
      Extend(origin, history, Request(Call.SetPaused(paused), 0, 0));
      history := history + [Request(Call.SetPaused(paused), 0, 0)];
      config := config.(paused := paused);
      events.Publish(PauseChanged(paused));
      return Ok(Unit);
    }

    method SetGuardians(guardians: seq<Key>, threshold: u8) returns (r: Result<Unit, EngineError>)
      requires Valid()
      modifies this
      ensures Valid() && history == old(history) + [Request(Call.SetGuardians(guardians, threshold), 0, 0)]
      ensures Outcome(State(), UnitReply(r))
           == Step(old(State()), Request(Call.SetGuardians(guardians, threshold), 0, 0))
    {
      Extend(origin, history, Request(Call.SetGuardians(guardians, threshold), 0, 0));
      history := history + [Request(Call.SetGuardians(guardians, threshold), 0, 0)];
      var checked := ValidateGuardians(guardians, threshold);
      if checked.Err? {
        return Err(EngineError.Domain(checked.error));
      }
      config := config.(guardians := guardians);
      config := config.(threshold := threshold);
      return Ok(Unit);
    }

    method EnsureActive() returns (r: Result<Unit, EngineError>)
      ensures r == if config.paused then Err(EngineError.Domain(Paused)) else Ok(Unit)
    {
      if config.paused {
        return Err(EngineError.Domain(Paused));
      }
      return Ok(Unit);
    }

    method Propose(programId: string, hashHex: string, proposer: Key, now: i64, later: i64)
      returns (r: Result<ProposalRecord, EngineError>)
      requires Valid()
      modifies this, proposals, events
      ensures Valid() && history == old(history) + [Request(Call.Propose(programId, hashHex, proposer), now, later)]
      ensures Outcome(State(), RecordReply(r))
           == Step(old(State()), Request(Call.Propose(programId, hashHex, proposer), now, later))
    {
      Extend(origin, history, Request(Call.Propose(programId, hashHex, proposer), now, later));
      history := history + [Request(Call.Propose(programId, hashHex, proposer), now, later)];
      var admitted := AdmitProposal(programId, hashHex, proposer, now, later);
      if admitted.Err? {
        return Err(admitted.error);
      }
      var (hash, eta) := admitted.value;
      var id, threshold := config.proposalCount, config.threshold;
      var record := ProposalRecord(id, programId, HexEncode(hash), proposer, eta, 0, threshold, Pending, later);
      r := Register(record);
    }

    /** The checks of propose, up to the end of its read lock. */
    method AdmitProposal(ghost programId: string, hashHex: string, proposer: Key, now: i64, ghost later: i64)
      returns (r: Result<(Bytes32, i64), EngineError>)
      ensures r.Ok? <==> Admissible(config, hashHex, proposer, now)
      ensures ProposeEffect(config, approvals, programId, hashHex, proposer, now, later)
           == match r
              case Err(e) => Refuse(config, approvals, e)
              case Ok((hash, eta)) =>
                RegisterEffect(config, approvals, NewRecord(config, programId, hash, proposer, eta, later))
    {
      var active := EnsureActive();
      if active.Err? {
        return Err(active.error);
      }
      var hash := ParseBuildHash(hashHex);
      if hash.Err? {
        return Err(EngineError.Domain(hash.error));
      }
      if proposer != config.authority && !config.IsGuardian(proposer) {
        return Err(EngineError.Domain(NotGuardian));
      }
      var eta := ComputeEta(now, config.timelockSeconds);
      if eta.Err? {
        return Err(EngineError.Domain(eta.error));
      }
      return Ok((hash.value, eta.value));
    }

    /** The end of propose: the record is stored before it is counted and announced. */
    method Register(record: ProposalRecord) returns (r: Result<ProposalRecord, EngineError>)
      requires proposals.Valid() && findings.Valid()
      modifies this`config, proposals, events
      ensures proposals.Valid() && findings.Valid()
      ensures Outcome(State(), RecordReply(r)) == Apply(old(State()), RegisterEffect(old(config), approvals, record))
    {
      proposals.Upsert(record);
      var count := CheckedIncU64(config.proposalCount);
      if count.None? {
        return Err(EngineError.Domain(Overflow));
      }
      config := config.(proposalCount := count.value);
      events.Publish(ProposalCreated(record.id, record.programId));
      return Ok(record);
    }

    /** The opening of approve, execute and cancel: a record that is not final. */
    method FetchLive(id: u64) returns (r: Result<ProposalRecord, EngineError>)
      ensures r == if id !in proposals.records then Err(NotFound(id))
                   else if proposals.records[id].status.Final() then Err(EngineError.Domain(AlreadyFinalized))
                   else Ok(proposals.records[id])
    {
      var found := proposals.Get(id);
      if found.None? {
        return Err(NotFound(id));
      }
      var record := found.value;
      if record.status.Executed? || record.status.Cancelled? {
        return Err(EngineError.Domain(AlreadyFinalized));
      }
      return Ok(record);
    }

    /** The end of approve, execute and cancel: the record is stored, then announced. */
    method Save(record: ProposalRecord, event: DomainEvent) returns (r: Result<ProposalRecord, EngineError>)
      requires proposals.Valid() && findings.Valid()
      modifies proposals, events
      ensures proposals.Valid() && findings.Valid() && r == Ok(record)
      ensures proposals.records == old(proposals.records)[record.id := record]
      ensures events.published == old(events.published) + [event]
    {
      proposals.Upsert(record);
      events.Publish(event);
      return Ok(record);
    }

    /** The checks of approve, up to the record it fetches. */
    method AdmitVote(id: u64, guardian: Key) returns (r: Result<ProposalRecord, EngineError>)
      ensures r.Ok? <==> !config.paused && guardian in config.guardians && id in proposals.records
                         && !proposals.records[id].status.Final()
      ensures r.Ok? ==> r.value == proposals.records[id]
      ensures r.Err? ==>
                ApproveEffect(config, approvals, Lookup(proposals.records, id), id, guardian)
                == Refuse(config, approvals, r.error)
    {
      var active := EnsureActive();
      if active.Err? {
        return Err(active.error);
      }
      if !config.IsGuardian(guardian) {
        return Err(EngineError.Domain(NotGuardian));
      }
      r := FetchLive(id);
    }

    /** The block of approve under the voter map's lock, and the status that follows
        from the new count. */
    method CastVote(record: ProposalRecord, id: u64, guardian: Key) returns (r: Result<ProposalRecord, EngineError>)
      modifies this`approvals
      ensures var before := VotersOf(old(approvals), id);
              if guardian in before then
                r == Err(EngineError.Domain(DuplicateApproval)) && approvals == old(approvals)
              else
                && r == Ok(Tallied(record, before + {guardian}))
                && approvals == old(approvals)[id := before + {guardian}]
    {
      var voters := if id in approvals then approvals[id] else {};
      if guardian in voters {
        return Err(EngineError.Domain(DuplicateApproval));
      }
      voters := voters + {guardian};
      approvals := approvals[id := voters];
      var tallied := record.(approvals := TruncU8(|voters|));
      if tallied.approvals >= tallied.threshold {
        tallied := tallied.(status := Approved);
      }
      return Ok(tallied);
    }

    method Approve(id: u64, guardian: Key) returns (r: Result<ProposalRecord, EngineError>)
      requires Valid()
      modifies this, proposals, events
      ensures Valid() && history == old(history) + [Request(Call.Approve(id, guardian), 0, 0)]
      ensures Outcome(State(), RecordReply(r)) == Step(old(State()), Request(Call.Approve(id, guardian), 0, 0))
    {
      Extend(origin, history, Request(Call.Approve(id, guardian), 0, 0));
      history := history + [Request(Call.Approve(id, guardian), 0, 0)];
      var admitted := AdmitVote(id, guardian);
      if admitted.Err? {
        return admitted;
      }
      var cast := CastVote(admitted.value, id, guardian);
      if cast.Err? {
        return cast;
      }
      r := Save(cast.value, ProposalApproved(id, cast.value.approvals));
    }

    method Execute(id: u64, now: i64) returns (r: Result<ProposalRecord, EngineError>)
      requires Valid()
      modifies this`history, proposals, events
      ensures Valid() && history == old(history) + [Request(Call.Execute(id), now, 0)]
      ensures Outcome(State(), RecordReply(r)) == Step(old(State()), Request(Call.Execute(id), now, 0))
    {
      Extend(origin, history, Request(Call.Execute(id), now, 0));
      history := history + [Request(Call.Execute(id), now, 0)];
      var active := EnsureActive();
      if active.Err? {
        return Err(active.error);
      }
      var live := FetchLive(id);
      if live.Err? {
        return live;
      }
      var record := live.value;
      var gate := CanExecute(now, record.eta, record.approvals, record.threshold);
      if gate.Err? {
        return Err(EngineError.Domain(gate.error));
      }
      r := Save(record.(status := Executed), ProposalExecuted(id));
    }

    method Cancel(id: u64) returns (r: Result<ProposalRecord, EngineError>)
      requires Valid()
      modifies this`history, proposals, events
      ensures Valid() && history == old(history) + [Request(Call.Cancel(id), 0, 0)]
      ensures Outcome(State(), RecordReply(r)) == Step(old(State()), Request(Call.Cancel(id), 0, 0))
    {
      Extend(origin, history, Request(Call.Cancel(id), 0, 0));
      history := history + [Request(Call.Cancel(id), 0, 0)];
      var live := FetchLive(id);
      if live.Err? {
        return live;
      }
      var record := live.value;
      r := Save(record.(status := Cancelled), ProposalCancelled(id));
    }

    method RaiseFinding(id: string, programId: string, threat: ThreatClass, severity: Severity, title: string, now: i64)
      returns (r: Result<FindingRecord, EngineError>)
      requires Valid()
      modifies this`history, findings, events
      ensures Valid()
      ensures history == old(history) + [Request(Call.RaiseFinding(id, programId, threat, severity, title), now, 0)]
      ensures Outcome(State(), FindingReply(r))
           == Step(old(State()), Request(Call.RaiseFinding(id, programId, threat, severity, title), now, 0))
    {
      Extend(origin, history, Request(Call.RaiseFinding(id, programId, threat, severity, title), now, 0));
      history := history + [Request(Call.RaiseFinding(id, programId, threat, severity, title), now, 0)];
      var record := FindingRecord(id, programId, threat, severity, title, false, now);
      var inserted := findings.Insert(record);
      if inserted.Err? {
        return Err(inserted.error);
      }
      events.Publish(FindingRaised(id, severity));
      return Ok(record);
    }

    /** Counters over the two listings: what the calls so far add up to. */
    method Stats() returns (stats: EngineStats)
      requires Valid()
      ensures stats == StatsOf(State())
      ensures Founded() && config.proposalCount < U64_MAX ==>
                stats == EngineStats(config.proposalCount, Life.ExecutedCount(events.published),
                                     |findings.records|, |findings.records|)
    {
      if Founded() && config.proposalCount < U64_MAX {
        Runs.StatsExact(origin.config, history, |history|);
      }
      var ps := proposals.List();
      var fs := findings.List();
      var executed := CountWhere(ps, IsExecuted, proposals.records, ProposalKey);
      var open := CountWhere(fs, IsOpen, findings.records, FindingKey);
      return EngineStats(|ps|, executed, |fs|, open);
    }
  }

  /** An engine founded over empty stores keeps the invariant of every run. */
  lemma EngineObeysRuns(engine: AuditEngine)
    requires engine.Valid() && engine.Founded()
    ensures Life.Inv(engine.State())
    ensures engine.State() == StateAt(engine.origin.config, engine.history, |engine.history|)
  {
    Life.RunInvariant(engine.origin.config, engine.history, |engine.history|);
  }

  /** How many of the listed values satisfy `p`: as many as there are in the map. */
  method CountWhere<K, V>(l: seq<V>, p: V -> bool, ghost m: map<K, V>, ghost key: V -> K) returns (n: nat)
    requires Lists(m, l, key)
    ensures n == |KeysWhere(m, p)|
  {
    n := 0;
    ghost var seen: set<K> := {};
    for i := 0 to |l|
      invariant n == |seen| && seen <= KeysWhere(m, p)
      invariant forall j :: 0 <= j < i && p(l[j]) ==> key(l[j]) in seen
      invariant forall j :: i <= j < |l| ==> key(l[j]) !in seen
    {
      if p(l[i]) {
        n := n + 1;
        seen := seen + {key(l[i])};
      }
    }
    forall k | k in KeysWhere(m, p)
      ensures k in seen
    {
      var i := ListCovers(m, l, key, k);
    }
    assert seen == KeysWhere(m, p);
  }
}
