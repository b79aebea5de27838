/** The circuit breaker (crates/securedeploy-resilience/src/breaker.rs). Instants
    are read from a monotonic clock and passed in. */
module CircuitBreakers {
  import opened Machine

  datatype RawState = Closed | Open(openedAt: nat) | HalfOpen

  datatype Config = Config(failureThreshold: u32, openDuration: nat)

  datatype Inner = Inner(failures: u32, state: RawState)

  /** `duration_since`, which saturates at zero. */
  function Elapsed(now: nat, since: nat): nat {
    if now >= since then now - since else 0
  }

  datatype Op = Acquire(now: nat) | Success(now: nat) | Failure(now: nat)

  function AcquireOp(config: Config, s: Inner, now: nat): (Inner, bool) {
    match s.state
    case Open(openedAt) =>
      if Elapsed(now, openedAt) >= config.openDuration then (s.(state := HalfOpen), true) else (s, false)
    case _ => (s, true)
  }

  function FailureOp(config: Config, s: Inner, now: nat): Inner {
    match s.state
    case HalfOpen => s.(state := Open(now))
    case Closed =>
      var failures := if s.failures < U32_MAX then s.failures + 1 else U32_MAX;
      if failures >= config.failureThreshold then Inner(failures, Open(now)) else Inner(failures, Closed)
    case Open(_) => s
  }

  const FRESH: Inner := Inner(0, Closed)

  function Apply(config: Config, s: Inner, op: Op): Inner {
    match op
    case Acquire(now) => AcquireOp(config, s, now).0
    case Success(_) => FRESH
    case Failure(now) => FailureOp(config, s, now)
  }

  // ---------- histories ----------

  ghost function StateAt(config: Config, ops: seq<Op>, k: nat): Inner
    requires k <= |ops|
  {
    if k == 0 then FRESH else Apply(config, StateAt(config, ops, k - 1), ops[k - 1])
  }

  function Time(op: Op): nat {
    op.now
  }

  ghost predicate Monotonic(ops: seq<Op>) {
    forall i, j :: 0 <= i < j < |ops| ==> Time(ops[i]) <= Time(ops[j])
  }

  /** Failures recorded since the last success, those met while open included. */
  function Streak(ops: seq<Op>, k: nat): nat
    requires k <= |ops|
  {
    if k == 0 || ops[k - 1].Success? then 0
    else Streak(ops, k - 1) + if ops[k - 1].Failure? then 1 else 0
  }

  /** The number of failures that trips a closed breaker. */
  function Limit(config: Config): nat {
    if config.failureThreshold == 0 then 1 else config.failureThreshold
  }

  /** The breaker equals its history: it is not Closed exactly when the streak has
      reached the limit, and its counter is the streak capped there, so the
      saturating addition never saturates. */
  lemma {:induction false} EqualsHistory(config: Config, ops: seq<Op>, k: nat)
    requires k <= |ops|
    ensures var s, f := StateAt(config, ops, k), Streak(ops, k);
            && (!s.state.Closed? <==> f >= Limit(config))
            && s.failures == (if f < Limit(config) then f else Limit(config))
    ensures StateAt(config, ops, k).state.Closed? ==> StateAt(config, ops, k).failures < U32_MAX
  {
    if k == 0 {
    } else {
      EqualsHistory(config, ops, k - 1);
    }
  }

  // ---------- trips, from the operations alone ----------

  /** The open duration has passed at `now` since `since`. */
  predicate Due(config: Config, since: nat, now: nat) {
    now >= since + config.openDuration || config.openDuration == 0
  }

  /** Among the operations after `p` and before `k` there is an acquire at least the
      open duration past operation `p`: a trial call was let through. */
  ghost predicate Tried(config: Config, ops: seq<Op>, p: nat, k: nat)
    requires p < |ops| && k <= |ops|
  {
    exists j :: p < j < k && ops[j].Acquire? && Due(config, ops[p].now, ops[j].now)
  }

  /** Operation `k` trips the breaker, given the trips before: a failure that brings
      the streak to the limit, or that follows a trial call. */
  ghost predicate TripsNow(config: Config, ops: seq<Op>, before: seq<nat>, k: nat)
    requires k < |ops| && forall i :: 0 <= i < |before| ==> before[i] < k
  {
    && ops[k].Failure?
    && if |before| == 0 then Streak(ops, k + 1) >= Limit(config) else Tried(config, ops, before[|before| - 1], k)
  }

  /** The failures that trip the breaker, as positions in the history, since the
      last success: the one that brings the streak to the limit, then each first
      one after a trial call was let through. */
  ghost function Trips(config: Config, ops: seq<Op>, k: nat): (trips: seq<nat>)
    requires k <= |ops|
    ensures forall i :: 0 <= i < |trips| ==> trips[i] < k
  {
    if k == 0 || ops[k - 1].Success? then []
    else
      var before := Trips(config, ops, k - 1);
      if TripsNow(config, ops, before, k - 1) then before + [k - 1] else before
  }

  /** What the operations alone say the state is: Closed without a trip, HalfOpen
      once a trial call was let through since the latest one, else Open since it. */
  ghost function Expected(config: Config, ops: seq<Op>, k: nat): RawState
    requires k <= |ops|
  {
    var trips := Trips(config, ops, k);
    if |trips| == 0 then Closed
    else if Tried(config, ops, trips[|trips| - 1], k) then HalfOpen
    else Open(ops[trips[|trips| - 1]].now)
  }

  lemma TriedStep(config: Config, ops: seq<Op>, p: nat, k: nat)
    requires p < k < |ops|
    ensures Tried(config, ops, p, k + 1)
            <==> Tried(config, ops, p, k)
                 || (ops[k].Acquire? && Elapsed(ops[k].now, ops[p].now) >= config.openDuration)
  {
  }

  lemma ExpectedAfterAcquire(config: Config, ops: seq<Op>, k: nat)
    requires k < |ops| && ops[k].Acquire?
    ensures var e := Expected(config, ops, k);
            Expected(config, ops, k + 1)
            == if e.Open? && Elapsed(ops[k].now, e.openedAt) >= config.openDuration then HalfOpen else e
  {
    var trips := Trips(config, ops, k);
    if |trips| > 0 {
      TriedStep(config, ops, trips[|trips| - 1], k);
    }
  }

  lemma ExpectedAfterFailure(config: Config, ops: seq<Op>, k: nat)
    requires k < |ops| && ops[k].Failure?
    ensures Expected(config, ops, k + 1)
         == match Expected(config, ops, k)
            case HalfOpen => Open(ops[k].now)
            case Open(since) => Open(since)
            case Closed => if Streak(ops, k + 1) >= Limit(config) then Open(ops[k].now) else Closed
  {
    var trips := Trips(config, ops, k);
    if |trips| > 0 {
      TriedStep(config, ops, trips[|trips| - 1], k);
    }
  }

  /** The state after any operations at all, on any clock, is what the operations
      alone say. */
  lemma {:induction false} StateFromHistory(config: Config, ops: seq<Op>, k: nat)
    requires k <= |ops|
    ensures StateAt(config, ops, k).state == Expected(config, ops, k)
  {
    if k == 0 {
    } else {
      StateFromHistory(config, ops, k - 1);
      match ops[k - 1] {
        case Acquire(_) => ExpectedAfterAcquire(config, ops, k - 1);
        case Success(_) =>
        case Failure(_) =>
          EqualsHistory(config, ops, k - 1);
          EqualsHistory(config, ops, k);
          ExpectedAfterFailure(config, ops, k - 1);
      }
    }
  }

  // ---------- spacing and admission ----------

  /** The times of the trips since the last success, oldest first. */
  ghost function TripTimes(config: Config, ops: seq<Op>, k: nat): (times: seq<nat>)
    requires k <= |ops|
    ensures |times| == |Trips(config, ops, k)|
    ensures forall i :: 0 <= i < |times| ==> times[i] == ops[Trips(config, ops, k)[i]].now
  {
    var trips := Trips(config, ops, k);
    seq(|trips|, i requires 0 <= i < |trips| => ops[trips[i]].now)
  }

  /** On a monotonic clock whatever follows a trial call is due as well. */
  lemma TriedIsDue(config: Config, ops: seq<Op>, p: nat, k: nat)
    requires p < k < |ops| && Monotonic(ops) && Tried(config, ops, p, k)
    ensures ops[k].now >= ops[p].now + config.openDuration
  {
    var j :| p < j < k && ops[j].Acquire? && Due(config, ops[p].now, ops[j].now);
    assert Time(ops[p]) <= Time(ops[j]) <= Time(ops[k]);
  }

  /** Each trip after the first comes at least the open duration after the one before. */
  lemma {:induction false} TripsApart(config: Config, ops: seq<Op>, k: nat)
    requires k <= |ops| && Monotonic(ops)
    ensures var times := TripTimes(config, ops, k);
            forall i :: 0 <= i < |times| - 1 ==> times[i] + config.openDuration <= times[i + 1]
  {
    if k == 0 || ops[k - 1].Success? {
    } else {
      TripsApart(config, ops, k - 1);
      var before, now := TripTimes(config, ops, k - 1), TripTimes(config, ops, k);
      var trips := Trips(config, ops, k - 1);
      if Trips(config, ops, k) == trips {
        assert now == before;
      } else {
        assert now == before + [ops[k - 1].now];
        if |trips| > 0 {
          TriedIsDue(config, ops, trips[|trips| - 1], k - 1);
        }
      }
    }
  }

  lemma {:induction false} Spaced(trips: seq<nat>, gap: nat, i: nat, j: nat)
    requires i <= j < |trips|
    requires forall m :: 0 <= m < |trips| - 1 ==> trips[m] + gap <= trips[m + 1]
    ensures trips[j] >= trips[i] + (j - i) * gap
    decreases j
  {
    if i == j {
    } else {
      Spaced(trips, gap, i, j - 1);
      assert (j - i) * gap == (j - 1 - i) * gap + gap;
    }
  }

  /** Trip spacing: with a monotonic clock the trips since the last success are at
      least the open duration apart, so the j-th is (j - i) durations after the i-th. */
  lemma TripSpacing(config: Config, ops: seq<Op>, k: nat, i: nat, j: nat)
    requires k <= |ops| && Monotonic(ops)
    requires i <= j < |TripTimes(config, ops, k)|
    ensures TripTimes(config, ops, k)[j] >= TripTimes(config, ops, k)[i] + (j - i) * config.openDuration
  {
    TripsApart(config, ops, k);
    Spaced(TripTimes(config, ops, k), config.openDuration, i, j);
  }

  lemma {:induction false} StreakHasTripped(config: Config, ops: seq<Op>, k: nat)
    requires k <= |ops|
    ensures Streak(ops, k) >= Limit(config) <==> |Trips(config, ops, k)| > 0
  {
    if k == 0 {
    } else {
      StreakHasTripped(config, ops, k - 1);
    }
  }

  /** Admission, exactly: an acquire is granted if and only if the streak is below
      the limit or the open duration has passed since the latest trip. */
  lemma GrantedExactly(config: Config, ops: seq<Op>, k: nat)
    requires k < |ops| && Monotonic(ops) && ops[k].Acquire?
    ensures var granted := AcquireOp(config, StateAt(config, ops, k), ops[k].now).1;
            var times := TripTimes(config, ops, k);
            && (Streak(ops, k) >= Limit(config) <==> |times| > 0)
            && (granted <==> Streak(ops, k) < Limit(config)
                             || ops[k].now >= times[|times| - 1] + config.openDuration)
  {
    StateFromHistory(config, ops, k);
    StreakHasTripped(config, ops, k);
    var trips := Trips(config, ops, k);
    if |trips| > 0 {
      var p := trips[|trips| - 1];
      assert Time(ops[p]) <= Time(ops[k]);
      if Tried(config, ops, p, k) {
        TriedIsDue(config, ops, p, k);
      }
    }
  }

  lemma {:induction false} LatestTripStays(config: Config, ops: seq<Op>, f: nat, k: nat)
    requires f < k <= |ops| && Monotonic(ops)
    requires Trips(config, ops, f + 1) == Trips(config, ops, f) + [f]
    requires forall i :: f < i < k ==> !ops[i].Success? && ops[i].now < ops[f].now + config.openDuration
    ensures Trips(config, ops, k) == Trips(config, ops, f + 1)
  {
    if k == f + 1 {
    } else {
      LatestTripStays(config, ops, f, k - 1);
    }
  }

  /** A failed trial call reopens the breaker: a failure met in the half-open state
      makes it Open at that time, and every acquire before the open duration has
      passed is refused unless a success intervened. */
  lemma FailedTrialReopens(config: Config, ops: seq<Op>, f: nat, k: nat)
    requires f < k < |ops| && Monotonic(ops)
    requires ops[f].Failure? && StateAt(config, ops, f).state.HalfOpen?
    requires ops[k].Acquire? && ops[k].now < ops[f].now + config.openDuration
    requires forall i :: f < i < k ==> !ops[i].Success?
    ensures StateAt(config, ops, f + 1).state == Open(ops[f].now)
    ensures StateAt(config, ops, k).state == Open(ops[f].now)
    ensures !AcquireOp(config, StateAt(config, ops, k), ops[k].now).1
  {
    StateFromHistory(config, ops, f);
    StateFromHistory(config, ops, f + 1);
    StateFromHistory(config, ops, k);
    forall i | f < i < k
      ensures ops[i].now < ops[f].now + config.openDuration
    {
      assert Time(ops[i]) <= Time(ops[k]);
    }
    LatestTripStays(config, ops, f, k);
  }

  // ---------- longer histories ----------

  lemma {:induction false} PrefixUnaffected(config: Config, ops: seq<Op>, op: Op, k: nat)
    requires k <= |ops|
    ensures StateAt(config, ops + [op], k) == StateAt(config, ops, k)
    ensures Streak(ops + [op], k) == Streak(ops, k)
  {
    if k == 0 {
    } else {
      PrefixUnaffected(config, ops, op, k - 1);
      assert (ops + [op])[k - 1] == ops[k - 1];
    }
  }

  lemma TriedUnaffected(config: Config, ops: seq<Op>, op: Op, p: nat, k: nat)
    requires p < k <= |ops|
    ensures Tried(config, ops + [op], p, k) <==> Tried(config, ops, p, k)
  {
    var all := ops + [op];
    assert forall j :: 0 <= j < k ==> all[j] == ops[j];
  }

  lemma TripsNowUnaffected(config: Config, ops: seq<Op>, op: Op, before: seq<nat>, k: nat)
    requires k < |ops| && forall i :: 0 <= i < |before| ==> before[i] < k
    ensures TripsNow(config, ops + [op], before, k) <==> TripsNow(config, ops, before, k)
  {
    assert (ops + [op])[k] == ops[k];
    PrefixUnaffected(config, ops, op, k + 1);
    if |before| > 0 {
      TriedUnaffected(config, ops, op, before[|before| - 1], k);
    }
  }

  lemma {:induction false} TripsUnaffected(config: Config, ops: seq<Op>, op: Op, k: nat)
    requires k <= |ops|
    ensures Trips(config, ops + [op], k) == Trips(config, ops, k)
  {
    if k == 0 {
    } else {
      TripsUnaffected(config, ops, op, k - 1);
      TripsNowUnaffected(config, ops, op, Trips(config, ops, k - 1), k - 1);
      assert (ops + [op])[k - 1] == ops[k - 1];
    }
  }

  lemma Extend(config: Config, ops: seq<Op>, op: Op)
    ensures StateAt(config, ops + [op], |ops + [op]|) == Apply(config, StateAt(config, ops, |ops|), op)
  {
    PrefixUnaffected(config, ops, op, |ops|);
    assert (ops + [op])[|ops|] == op;
  }

  /** GrantedExactly for an acquire that comes after the whole history. */
  lemma GrantedAtEnd(config: Config, ops: seq<Op>, now: nat)
    ensures Monotonic(ops + [Op.Acquire(now)]) ==>
              var times := TripTimes(config, ops, |ops|);
              AcquireOp(config, StateAt(config, ops, |ops|), now).1
              <==> |times| == 0 || now >= times[|times| - 1] + config.openDuration
  {
    var all := ops + [Op.Acquire(now)];
    if Monotonic(all) {
      GrantedExactly(config, all, |ops|);
      PrefixUnaffected(config, ops, Op.Acquire(now), |ops|);
      TripsUnaffected(config, ops, Op.Acquire(now), |ops|);
      assert forall i :: 0 <= i < |ops| ==> all[i] == ops[i];
    }
  }

  // ---------- the breaker ----------

  /** The breaker as an object. The ghost history ties it to the operations it has
      seen, so that the theorems about histories are theorems about it. */
  class CircuitBreaker {
    const config: Config
    var failures: u32
    var state: RawState
    ghost var history: seq<Op>

    ghost function State(): Inner
      reads this
    {
      Inner(failures, state)
    }

    ghost predicate Valid()
      reads this
    {
      State() == StateAt(config, history, |history|)
    }

    constructor (config: Config)
      ensures this.config == config && State() == FRESH && history == [] && Valid()
    {
      this.config := config;
      failures, state := 0, Closed;
      history := [];
    }

    /** True when the call may proceed: while the failures since the last success are
        below the limit, or the open duration has passed since the latest trip. */
    method Acquire(now: nat) returns (granted: bool)
      requires Valid()
      modifies this
      ensures Valid() && history == old(history) + [Op.Acquire(now)]
      ensures state == Expected(config, history, |history|)
      ensures (State(), granted) == AcquireOp(config, old(State()), now)
      ensures Monotonic(history) ==>
                var trips := TripTimes(config, old(history), |old(history)|);
                granted <==> |trips| == 0 || now >= trips[|trips| - 1] + config.openDuration
    {
      GrantedAtEnd(config, history, now);
      Extend(config, history, Op.Acquire(now));
      history := history + [Op.Acquire(now)];
      StateFromHistory(config, history, |history|);
      match state {
        case Closed => return true;
        case HalfOpen => return true;
        case Open(openedAt) =>
          if Elapsed(now, openedAt) >= config.openDuration {
            state := HalfOpen;
            return true;
          }
          return false;
      }
    }

    method RecordSuccess(ghost now: nat)
      requires Valid()
      modifies this
      ensures Valid() && history == old(history) + [Op.Success(now)]
      ensures State() == FRESH
    {
      Extend(config, history, Op.Success(now));
      history := history + [Op.Success(now)];
      failures := 0;
      state := Closed;
    }

    method RecordFailure(now: nat)
      requires Valid()
      modifies this
      ensures Valid() && history == old(history) + [Op.Failure(now)]
      ensures state == Expected(config, history, |history|)
      ensures State() == FailureOp(config, old(State()), now)
    {
      Extend(config, history, Op.Failure(now));
      history := history + [Op.Failure(now)];
      StateFromHistory(config, history, |history|);
      match state {
        case HalfOpen => state := Open(now);
        case Closed =>
          failures := if failures < U32_MAX then failures + 1 else U32_MAX;
          if failures >= config.failureThreshold {
            state := Open(now);
          }
        case Open(_) =>
      }
    }
  }
}
