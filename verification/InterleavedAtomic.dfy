/** The two engine semantics agree where they must: a call that runs from start
    to end with nothing in between does what the one-call semantics says. */
module InterleavedAtomic {
  import opened Machine
  import opened BuildHashes
  import opened Domain
  import opened EngineSpec
  import opened InterleavedEngine

  // ---------- a call on its own ----------

  /** The shared state, and where the one call has got to. */
  datatype Solo = Solo(core: EngineState, course: Course)

  /** What `n` cuts of a call do to the shared state when nothing runs in between. */
  ghost function Alone(s: EngineState, now: i64, pc: Pc, n: nat): Solo
    decreases n
  {
    if n == 0 then Solo(s, Goto(pc))
    else
      var m := Cut(s, now, pc);
      match m.course
      case Goto(next) => Alone(Moved(s, m), now, next, n - 1)
      case Return(_) => Solo(Moved(s, m), m.course)
  }

  /** A call that has answered as the one-call semantics does, with its effect. */
  function Ended(o: Outcome): Solo {
    Solo(o.state, Return(o.reply))
  }

  lemma FirstCut(s: EngineState, now: i64, pc: Pc, n: nat)
    requires n > 0
    ensures var m := Cut(s, now, pc);
            Alone(s, now, pc, n) ==
            if m.course.Goto? then Alone(Moved(s, m), now, m.course.pc, n - 1) else Solo(Moved(s, m), m.course)
  {
  }

  /** A cut that leaves the shared state alone. */
  lemma QuietCut(s: EngineState, now: i64, pc: Pc, n: nat)
    requires n > 0 && Cut(s, now, pc) == Move(s.config, s.votes, None, None, Cut(s, now, pc).course)
    ensures var course := Cut(s, now, pc).course;
            Alone(s, now, pc, n) == if course.Goto? then Alone(s, now, course.pc, n - 1) else Solo(s, course)
  {
    FirstCut(s, now, pc, n);
    assert Moved(s, Cut(s, now, pc)) == s;
  }

  lemma AdminAlone(s: EngineState, call: Call, now: i64)
    requires call.SetPaused? || call.SetGuardians?
    ensures Alone(s, now, Entry(call).value, 6) == Ended(Step(s, Request(call, now, now)))
  {
    FirstCut(s, now, Entry(call).value, 6);
    if call.SetPaused? {
      var m := PauseCut(s, PauseWrite(call.paused));
      FirstCut(Moved(s, m), now, Pausing(PausePublish(call.paused)), 5);
    }
  }

  lemma CancelAlone(s: EngineState, id: u64, now: i64)
    ensures Alone(s, now, Cancelling(CancelFetch(id)), 6) == Ended(Step(s, Request(Cancel(id), now, now)))
  {
    QuietCut(s, now, Cancelling(CancelFetch(id)), 6);
    if Fetch(s, id).Ok? {
      CloseAlone(s, now, id, s.proposals[id].(status := Cancelled));
    }
  }

  lemma CloseAlone(s: EngineState, now: i64, id: u64, record: ProposalRecord)
    ensures Alone(s, now, Cancelling(CancelStore(id, record)), 5)
         == Solo(s.(proposals := s.proposals[record.id := record], events := s.events + [ProposalCancelled(id)]),
                 Return(Ok(Proposal(record))))
  {
    var stored := s.(proposals := s.proposals[record.id := record]);
    FirstCut(s, now, Cancelling(CancelStore(id, record)), 5);
    FirstCut(stored, now, Cancelling(CancelPublish(id, record)), 4);
  }

  lemma VoteAlone(s: EngineState, now: i64, id: u64, guardian: Key, record: ProposalRecord)
    requires guardian !in VotersOf(s.votes, id)
    ensures var voters := VotersOf(s.votes, id) + {guardian};
            var tallied := Tallied(record, voters);
            Alone(s, now, Approving(ApproveVote(id, guardian, record)), 3)
            == Solo(s.(votes := s.votes[id := voters], proposals := s.proposals[tallied.id := tallied],
                       events := s.events + [ProposalApproved(id, tallied.approvals)]),
                    Return(Ok(Proposal(tallied))))
  {
    var voters := VotersOf(s.votes, id) + {guardian};
    var tallied := Tallied(record, voters);
    var voted := s.(votes := s.votes[id := voters]);
    var stored := voted.(proposals := s.proposals[tallied.id := tallied]);
    FirstCut(s, now, Approving(ApproveVote(id, guardian, record)), 3);
    FirstCut(voted, now, Approving(ApproveStore(id, tallied)), 2);
    FirstCut(stored, now, Approving(ApprovePublish(id, tallied)), 1);
  }

  lemma FetchedAlone(s: EngineState, now: i64, id: u64, guardian: Key)
    requires !s.config.paused && guardian in s.config.guardians
    ensures Alone(s, now, Approving(ApproveFetch(id, guardian)), 4)
         == Ended(Step(s, Request(Approve(id, guardian), now, now)))
  {
    QuietCut(s, now, Approving(ApproveFetch(id, guardian)), 4);
    if Fetch(s, id).Ok? {
      var record := s.proposals[id];
      if guardian in VotersOf(s.votes, id) {
        QuietCut(s, now, Approving(ApproveVote(id, guardian, record)), 3);
      } else {
        VoteAlone(s, now, id, guardian, record);
      }
    }
  }

  lemma ApproveAlone(s: EngineState, id: u64, guardian: Key, now: i64)
    ensures Alone(s, now, Approving(ApproveGate(id, guardian)), 6)
         == Ended(Step(s, Request(Approve(id, guardian), now, now)))
  {
    QuietCut(s, now, Approving(ApproveGate(id, guardian)), 6);
    if !s.config.paused {
      QuietCut(s, now, Approving(ApproveMember(id, guardian)), 5);
      if guardian in s.config.guardians {
        FetchedAlone(s, now, id, guardian);
      }
    }
  }

  lemma StoreAlone(s: EngineState, now: i64, id: u64, record: ProposalRecord)
    ensures Alone(s, now, Executing(ExecuteStore(id, record)), 3)
         == Solo(s.(proposals := s.proposals[record.id := record], events := s.events + [ProposalExecuted(id)]),
                 Return(Ok(Proposal(record))))
  {
    var stored := s.(proposals := s.proposals[record.id := record]);
    FirstCut(s, now, Executing(ExecuteStore(id, record)), 3);
    FirstCut(stored, now, Executing(ExecutePublish(id, record)), 2);
  }

  lemma ExecuteAlone(s: EngineState, id: u64, now: i64)
    ensures Alone(s, now, Executing(ExecuteGate(id)), 6) == Ended(Step(s, Request(Execute(id), now, now)))
  {
    QuietCut(s, now, Executing(ExecuteGate(id)), 6);
    if !s.config.paused {
      QuietCut(s, now, Executing(ExecuteFetch(id)), 5);
      if Fetch(s, id).Ok? {
        var record := s.proposals[id];
        QuietCut(s, now, Executing(ExecuteCheck(id, record)), 4);
        StoreAlone(s, now, id, record.(status := Executed));
      }
    }
  }

  /** The record a propose drafts, stamped `createdAt`. */
  ghost function Draft(config: GovernanceConfig, call: Call, now: i64, createdAt: i64): ProposalRecord
    requires call.Propose? && Admissible(config, call.hashHex, call.proposer, now)
  {
    NewRecord(config, call.programId, FromHex(call.hashHex).value, call.proposer, now + config.timelockSeconds,
              createdAt)
  }

  /** The drafted record is stored, counted and announced. */
  function AfterDraft(s: EngineState, record: ProposalRecord): Outcome {
    Apply(s, RegisterEffect(s.config, s.votes, record))
  }

  lemma ProposeSpec(s: EngineState, call: Call, now: i64, later: i64)
    requires call.Propose? && Admissible(s.config, call.hashHex, call.proposer, now)
    ensures Step(s, Request(call, now, later)) == AfterDraft(s, Draft(s.config, call, now, later))
  {
  }

  lemma ReadAlone(s: EngineState, call: Call, now: i64, later: i64)
    requires call.Propose? && !s.config.paused && FromHex(call.hashHex).Ok?
    ensures var pc := Proposing(ProposeRead(call.programId, FromHex(call.hashHex).value, call.proposer));
            Alone(s, now, pc, 1) ==
            if Admissible(s.config, call.hashHex, call.proposer, now) then
              Solo(s, Goto(Proposing(ProposeStamp(Draft(s.config, call, now, 0)))))
            else Ended(Step(s, Request(call, now, later)))
  {
    QuietCut(s, now, Proposing(ProposeRead(call.programId, FromHex(call.hashHex).value, call.proposer)), 1);
  }

  /** A propose up to its second clock reading: it holds a draft, or it was refused
      as the one-call semantics refuses it. */
  lemma DraftAlone(s: EngineState, call: Call, now: i64, later: i64)
    requires call.Propose?
    ensures Alone(s, now, Entry(call).value, 2) ==
            if Admissible(s.config, call.hashHex, call.proposer, now) then
              Solo(s, Goto(Proposing(ProposeStamp(Draft(s.config, call, now, 0)))))
            else Ended(Step(s, Request(call, now, later)))
  {
    QuietCut(s, now, Entry(call).value, 2);
    if !s.config.paused && FromHex(call.hashHex).Ok? {
      ReadAlone(s, call, now, later);
    }
  }

  lemma CountAlone(s: EngineState, stored: EngineState, record: ProposalRecord, now: i64)
    requires stored == s.(proposals := s.proposals[record.id := record])
    ensures Alone(stored, now, Proposing(ProposeCount(record)), 2) == Ended(AfterDraft(s, record))
  {
    FirstCut(stored, now, Proposing(ProposeCount(record)), 2);
    if s.config.proposalCount < U64_MAX {
      var counted := stored.(config := s.config.(proposalCount := s.config.proposalCount + 1));
      FirstCut(counted, now, Proposing(ProposePublish(record)), 1);
    }
  }

  /** .. and from there to its end. */
  lemma StampAlone(s: EngineState, record: ProposalRecord, later: i64)
    ensures Alone(s, later, Proposing(ProposeStamp(record)), 4) == Ended(AfterDraft(s, record.(createdAt := later)))
  {
    var stamped := record.(createdAt := later);
    var stored := s.(proposals := s.proposals[stamped.id := stamped]);
    QuietCut(s, later, Proposing(ProposeStamp(record)), 4);
    FirstCut(s, later, Proposing(ProposeStore(stamped)), 3);
    CountAlone(s, stored, stamped, later);
  }

  // ---------- the same call in a world ----------

  /** The caller takes `n` turns with nothing in between. */
  ghost function Turns(w: World, caller: nat, n: nat): World
    decreases n
  {
    if n == 0 then w else Turns(Next(w, Advance(caller)), caller, n - 1)
  }

  /** A call that has returned takes no more turns. */
  lemma {:induction false} Settled(w: World, caller: nat, n: nat)
    requires caller !in w.flight
    ensures Turns(w, caller, n) == w
  {
    if n == 0 {
    } else {
      Settled(w, caller, n - 1);
    }
  }

  /** Home, with one more call in flight or one more answer. */
  function Beside(home: World, caller: nat, solo: Solo): World {
    match solo.course
    case Goto(pc) => home.(core := solo.core, flight := home.flight[caller := pc])
    case Return(answer) => home.(core := solo.core, answers := home.answers[caller := answer])
  }

  lemma TurnBeside(home: World, caller: nat, s: EngineState, pc: Pc)
    requires caller !in home.flight
    ensures var m := Cut(s, home.now, pc);
            Next(Beside(home, caller, Solo(s, Goto(pc))), Advance(caller))
            == Beside(home, caller, Solo(Moved(s, m), m.course))
  {
    assert home.flight[caller := pc] - {caller} == home.flight;
  }

  /** The turns of a call in a world are its cuts on its own. */
  lemma {:induction false} TurnsAlone(home: World, caller: nat, s: EngineState, pc: Pc, n: nat)
    requires caller !in home.flight
    ensures Turns(Beside(home, caller, Solo(s, Goto(pc))), caller, n) == Beside(home, caller, Alone(s, home.now, pc, n))
    decreases n
  {
    if n == 0 {
    } else {
      var m := Cut(s, home.now, pc);
      TurnBeside(home, caller, s, pc);
      if m.course.Goto? {
        TurnsAlone(home, caller, Moved(s, m), m.course.pc, n - 1);
      } else {
        Settled(Beside(home, caller, Solo(Moved(s, m), m.course)), caller, n - 1);
      }
    }
  }

  /** The call starts and the clock shows `now`. */
  ghost function Begun(w: World, caller: nat, call: Call, now: i64): World {
    Next(Next(w, Start(caller, call)), Tick(now))
  }

  /** The call runs to its end with nothing in between; while a propose is between
      its two clock readings the time moves on to `later`. */
  ghost function RunsAlone(w: World, caller: nat, call: Call, now: i64, later: i64): World {
    if call.Propose? then Turns(Next(Turns(Begun(w, caller, call, now), caller, 2), Tick(later)), caller, 4)
    else Turns(Begun(w, caller, call, now), caller, 6)
  }

  /** From `w`, world `end` is where the one-call semantics says, the caller has the
      answer it says, and nobody else moved. */
  ghost predicate Matches(w: World, end: World, caller: nat, req: Request) {
    && end.core == Step(w.core, req).state
    && end.answers == w.answers[caller := Step(w.core, req).reply]
    && end.flight == w.flight
  }

  lemma OneClockAlone(s: EngineState, call: Call, now: i64)
    requires !call.Propose? && !call.RaiseFinding?
    ensures Alone(s, now, Entry(call).value, 6) == Ended(Step(s, Request(call, now, now)))
  {
    match call
    case SetPaused(_) => AdminAlone(s, call, now);
    case SetGuardians(_, _) => AdminAlone(s, call, now);
    case Approve(id, guardian) => ApproveAlone(s, id, guardian, now);
    case Execute(id) => ExecuteAlone(s, id, now);
    case Cancel(id) => CancelAlone(s, id, now);
  }

  lemma TickBeside(home: World, caller: nat, solo: Solo, later: i64)
    ensures Next(Beside(home, caller, solo), Tick(later)) == Beside(home.(now := later), caller, solo)
  {
  }

  lemma FirstHalf(w: World, caller: nat, call: Call, now: i64, later: i64)
    requires caller !in w.flight && call.Propose?
    ensures Next(Turns(Begun(w, caller, call, now), caller, 2), Tick(later))
         == Beside(w.(now := later), caller, Alone(w.core, now, Entry(call).value, 2))
  {
    TurnsAlone(w.(now := now), caller, w.core, Entry(call).value, 2);
    TickBeside(w.(now := now), caller, Alone(w.core, now, Entry(call).value, 2), later);
  }

  lemma DraftStamped(config: GovernanceConfig, call: Call, now: i64, later: i64)
    requires call.Propose? && Admissible(config, call.hashHex, call.proposer, now)
    ensures Draft(config, call, now, 0).(createdAt := later) == Draft(config, call, now, later)
  {
  }

  lemma DraftEnds(s: EngineState, call: Call, now: i64, later: i64)
    requires call.Propose? && Admissible(s.config, call.hashHex, call.proposer, now)
    ensures Alone(s, later, Proposing(ProposeStamp(Draft(s.config, call, now, 0))), 4)
         == Ended(Step(s, Request(call, now, later)))
  {
    StampAlone(s, Draft(s.config, call, now, 0), later);
    DraftStamped(s.config, call, now, later);
    ProposeSpec(s, call, now, later);
  }

  lemma DraftRuns(home: World, caller: nat, s: EngineState, call: Call, now: i64)
    requires caller !in home.flight && call.Propose? && Admissible(s.config, call.hashHex, call.proposer, now)
    ensures var pc := Proposing(ProposeStamp(Draft(s.config, call, now, 0)));
            Turns(Beside(home, caller, Solo(s, Goto(pc))), caller, 4)
            == Beside(home, caller, Ended(Step(s, Request(call, now, home.now))))
  {
    TurnsAlone(home, caller, s, Proposing(ProposeStamp(Draft(s.config, call, now, 0))), 4);
    DraftEnds(s, call, now, home.now);
  }

  lemma SecondHalf(home: World, caller: nat, s: EngineState, call: Call, now: i64)
    requires caller !in home.flight && call.Propose?
    ensures Turns(Beside(home, caller, Alone(s, now, Entry(call).value, 2)), caller, 4)
         == Beside(home, caller, Ended(Step(s, Request(call, now, home.now))))
  {
    DraftAlone(s, call, now, home.now);
    if Admissible(s.config, call.hashHex, call.proposer, now) {
      DraftRuns(home, caller, s, call, now);
    } else {
      Settled(Beside(home, caller, Ended(Step(s, Request(call, now, home.now)))), caller, 4);
    }
  }

  lemma ProposeRuns(w: World, caller: nat, call: Call, now: i64, later: i64)
    requires caller !in w.flight && call.Propose?
    ensures RunsAlone(w, caller, call, now, later)
         == Beside(w.(now := later), caller, Ended(Step(w.core, Request(call, now, later))))
  {
    FirstHalf(w, caller, call, now, later);
    SecondHalf(w.(now := later), caller, w.core, call, now);
  }

  lemma OthersRun(w: World, caller: nat, call: Call, now: i64, later: i64)
    requires caller !in w.flight && !call.Propose? && !call.RaiseFinding?
    ensures RunsAlone(w, caller, call, now, later)
         == Beside(w.(now := now), caller, Ended(Step(w.core, Request(call, now, now))))
  {
    TurnsAlone(w.(now := now), caller, w.core, Entry(call).value, 6);
    OneClockAlone(w.core, call, now);
  }

  lemma BesideMatches(w: World, home: World, end: World, caller: nat, req: Request)
    requires home == w.(now := home.now) && end == Beside(home, caller, Ended(Step(w.core, req)))
    ensures Matches(w, end, caller, req)
  {
  }

  /** Run alone, from its start to its end, any governance call has exactly the
      effect and the answer the one-call semantics gives it. */
  lemma AloneIsAtomic(w: World, caller: nat, call: Call, now: i64, later: i64)
    requires caller !in w.flight && !call.RaiseFinding?
    ensures Matches(w, RunsAlone(w, caller, call, now, later), caller,
                    Request(call, now, if call.Propose? then later else now))
  {
    var end := RunsAlone(w, caller, call, now, later);
    if call.Propose? {
      ProposeRuns(w, caller, call, now, later);
      BesideMatches(w, w.(now := later), end, caller, Request(call, now, later));
    } else {
      OthersRun(w, caller, call, now, later);
      BesideMatches(w, w.(now := now), end, caller, Request(call, now, now));
    }
  }
}
