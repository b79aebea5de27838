/** Guardian-set validation, timelock arithmetic and the execution gate
    (crates/securedeploy-types/src/governance.rs), and the on-chain copy of the
    validation (anchor/programs/securedeploy-core/src/state.rs). */
module GovernanceRules {
  import opened Machine

  const MAX_GUARDIANS: nat := 16

  /** Off-chain domain errors. */
  datatype SecureError =
    | Paused
    | EmptyGuardianSet
    | TooManyGuardians(max: nat)
    | DuplicateGuardian
    | InvalidThreshold(threshold: u8, len: nat)
    | TimelockActive(remaining: i64)
    | ThresholdNotMet(approvals: u8, required: u8)
    | AlreadyFinalized
    | DuplicateApproval
    | NotGuardian
    | EmptyBuildHash
    | InvalidLength(expected: nat, got: nat)
    | Overflow

  /** On-chain verdicts of the pure validation. */
  datatype ConfigError = Empty | TooMany | Duplicate | BadThreshold

  ghost predicate Distinct<T>(s: seq<T>)
  {
    forall i, j :: 0 <= i < j < |s| ==> s[i] != s[j]
  }

  /** What validation promises of an accepted configuration. */
  ghost predicate ValidConfig<T>(guardians: seq<T>, threshold: u8)
  {
    && 1 <= |guardians| <= MAX_GUARDIANS
    && Distinct(guardians)
    && 1 <= threshold <= |guardians|
  }

  /** The reason a configuration is refused, first failing rule first. */
  ghost function Fault<T>(guardians: seq<T>, threshold: u8): (r: Option<ConfigError>)
    ensures r.None? <==> ValidConfig(guardians, threshold)
  {
    if |guardians| == 0 then Some(Empty)
    else if |guardians| > MAX_GUARDIANS then Some(TooMany)
    else if !Distinct(guardians) then Some(Duplicate)
    else if threshold == 0 || threshold > |guardians| then Some(BadThreshold)
    else None
  }

  /** The off-chain rendering of a fault, with the payload the source attaches. */
  function Explain(fault: ConfigError, threshold: u8, len: nat): SecureError
  {
    match fault
    case Empty => EmptyGuardianSet
    case TooMany => TooManyGuardians(MAX_GUARDIANS)
    case Duplicate => DuplicateGuardian
    case BadThreshold => InvalidThreshold(threshold, len)
  }

  /** Off-chain `validate_guardians`. */
  method ValidateGuardians<T(==)>(guardians: seq<T>, threshold: u8) returns (r: Result<Unit, SecureError>)
    ensures r.Ok? <==> ValidConfig(guardians, threshold)
    ensures r.Err? ==> r.error == Explain(Fault(guardians, threshold).value, threshold, |guardians|)
    ensures |guardians| == 0 ==> r == Err(EmptyGuardianSet)
    ensures |guardians| > MAX_GUARDIANS ==> r == Err(TooManyGuardians(16))
    ensures 0 < |guardians| <= MAX_GUARDIANS && !Distinct(guardians) ==> r == Err(DuplicateGuardian)
    ensures 0 < |guardians| <= MAX_GUARDIANS && Distinct(guardians) && !(1 <= threshold <= |guardians|) ==>
              r == Err(InvalidThreshold(threshold, |guardians|))
  {
    if |guardians| == 0 {
      return Err(EmptyGuardianSet);
    }
    if |guardians| > MAX_GUARDIANS {
      return Err(TooManyGuardians(MAX_GUARDIANS));
    }
    for i := 0 to |guardians|
      invariant forall p, q :: 0 <= p < i && p < q < |guardians| ==> guardians[p] != guardians[q]
    {
      for j := i + 1 to |guardians|
        invariant forall q :: i < q < j ==> guardians[i] != guardians[q]
      {
        if guardians[i] == guardians[j] {
          return Err(DuplicateGuardian);
        }
      }
    }
    if threshold == 0 || threshold > |guardians| {
      return Err(InvalidThreshold(threshold, |guardians|));
    }
    return Ok(Unit);
  }

  /** On-chain `validate_guardians`. */
  method ValidateOnChain<T(==)>(guardians: seq<T>, threshold: u8) returns (r: Result<Unit, ConfigError>)
    ensures r.Ok? <==> ValidConfig(guardians, threshold)
    ensures r.Err? ==> Fault(guardians, threshold) == Some(r.error)
    ensures |guardians| == 0 ==> r == Err(Empty)
    ensures |guardians| > MAX_GUARDIANS ==> r == Err(TooMany)
    ensures 0 < |guardians| <= MAX_GUARDIANS && !Distinct(guardians) ==> r == Err(Duplicate)
    ensures 0 < |guardians| <= MAX_GUARDIANS && Distinct(guardians) && !(1 <= threshold <= |guardians|) ==>
              r == Err(BadThreshold)
  {
    if |guardians| == 0 {
      return Err(Empty);
    }
    if |guardians| > MAX_GUARDIANS {
      return Err(TooMany);
    }
    for i := 0 to |guardians|
      invariant forall p, q :: 0 <= p < i && p < q < |guardians| ==> guardians[p] != guardians[q]
    {
      for j := i + 1 to |guardians|
        invariant forall q :: i < q < j ==> guardians[i] != guardians[q]
      {
        if guardians[i] == guardians[j] {
          return Err(Duplicate);
        }
      }
    }
    if threshold == 0 || threshold > |guardians| {
      return Err(BadThreshold);
    }
    return Ok(Unit);
  }

  /** Earliest execution time of a proposal. */
  function ComputeEta(createdAt: i64, timelock: i64): (r: Result<i64, SecureError>)
  {
    match CheckedAddI64(createdAt, timelock)
    case Some(eta) => Ok(eta)
    case None => Err(Overflow)
  }

  /** Which execution gate, if any, refuses at `now`. */
  function CanExecute(now: i64, eta: i64, approvals: u8, threshold: u8): (r: Result<Unit, SecureError>)
    ensures r.Ok? <==> approvals >= threshold && now >= eta
    ensures approvals < threshold <==> r == Err(ThresholdNotMet(approvals, threshold))
    ensures r.Err? && approvals >= threshold ==> r.error.TimelockActive?
  {
    if approvals < threshold then Err(ThresholdNotMet(approvals, threshold))
    else if now < eta then Err(TimelockActive(WrappingSub(eta, now)))
    else Ok(Unit)
  }

  /** A TimelockActive answer names the exact wait precisely when the true gap
      fits an i64, which every non-negative clock guarantees: the gate then
      passes at `now + remaining` and at no earlier instant. */
  lemma RemainingIsExactWait(now: i64, eta: i64, approvals: u8, threshold: u8)
    requires CanExecute(now, eta, approvals, threshold).Err?
    requires CanExecute(now, eta, approvals, threshold).error.TimelockActive?
    ensures var remaining := CanExecute(now, eta, approvals, threshold).error.remaining;
            && (eta - now <= I64_MAX <==>
                  remaining > 0
                  && (forall t: i64 :: CanExecute(t, eta, approvals, threshold).Ok? <==> t >= now + remaining))
            && (now >= 0 ==> eta - now <= I64_MAX)
  {
    var remaining := CanExecute(now, eta, approvals, threshold).error.remaining;
    assert eta - now > I64_MAX ==> remaining < 0;
  }

  ghost function Members<T>(s: seq<T>): set<T> {
    set x | x in s
  }

  /** A distinct sequence covers as many members as it has positions. */
  lemma {:induction false} DistinctCardinality<T>(s: seq<T>)
    requires Distinct(s)
    ensures |Members(s)| == |s|
  {
    if |s| == 0 {
    } else {
      var n := |s| - 1;
      DistinctCardinality(s[..n]);
      assert Members(s) == Members(s[..n]) + {s[n]};
    }
  }

  /** Pigeonhole behind progress: fewer voters than the threshold leave a
      current guardian who has not voted. */
  lemma UnspentGuardian<T>(guardians: seq<T>, threshold: u8, voters: set<T>) returns (g: T)
    requires ValidConfig(guardians, threshold)
    requires |voters| < threshold
    ensures g in guardians && g !in voters
  {
    DistinctCardinality(guardians);
    var members := Members(guardians);
    if members <= voters {
      SubsetCardinality(members, voters);
      assert false;
    }
    g :| g in members && g !in voters;
  }

  lemma {:induction false} SubsetCardinality<T>(a: set<T>, b: set<T>)
    requires a <= b
    ensures |a| <= |b|
    decreases a
  {
    if a == {} {
    } else {
      var x :| x in a;
      SubsetCardinality(a - {x}, b - {x});
    }
  }
}
