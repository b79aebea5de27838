# Verified model of SecureDeploySol

This project models, in Dafny 4.11, the upgrade governance of SecureDeploySol and
proves what it promises over whole runs:

- the on-chain program: initialize, guardian rotation, pause, two-step authority
  transfer, propose, approve, execute, cancel;
- the off-chain `AuditEngine` that is meant to mirror it, both with calls run one
  at a time and with calls interleaved at every lock, clock and await point;
- the in-memory and Postgres proposal stores under the engine;
- the circuit breaker and the retry loop.

## How it is built

Where the source updates state in place there is a class (`AuditEngine`,
`GovernanceProgram`, the stores, `CircuitBreaker`) whose methods follow the source
and are proved equal to a step function on values (`EngineSpec.Step`,
`OnChainSpec.Process`, `CircuitBreakers.Apply`). The run theorems are lemmas about
those functions: a run is a sequence of requests, transactions, operations or
scheduler actions, `StateAt`, `ChainAt` and `WorldAt` give the state after its
first k elements, and a theorem quantifies over all runs and all k. Engine, program
and breaker objects carry a ghost history that their `Valid()` ties to these
functions, so what is proved of runs holds of the objects. The validation loops,
the hash parser, the sort, the counting loop and the retry loop are methods proved
against a specification directly. The interleaved engine exists as a step relation
only: it is what several callers do to one engine, not an object of its own.

| Files | Content |
|---|---|
| `Machine`, `GovernanceRules`, `BuildHashes`, `Domain` | integers, guardian validation, timelock gate, hex codec, data |
| `EngineSpec`, `AuditEngine`, `MemoryStores` | one-call semantics, the engine and its stores as objects |
| `EngineLifecycle`, `EngineRuns`, `EngineProgress` | the engine's invariant and its promises over runs |
| `EngineOrigins`, `EngineRefusals` | where everything the engine stores comes from, and which calls it refuses |
| `PostgresStores`, `StoreEquivalence` | the table-backed store and its equivalence |
| `OnChainSpec`, `GovernanceProgram` | instruction semantics, the program as an object |
| `ChainInvariant`, `ChainSafety`, `ChainVoteBound`, `ChainVoteBoundTight`, `ChainProgress`, `ChainAuthority`, `ChainGovernance`, `ChainRefusals` | on-chain theorems |
| `Simulation`, `SimulationLimits`, `CounterWraps` | engine against program, and two runs on which they part |
| `InterleavedEngine`, `InterleavedSafety`, `InterleavedFinality`, `InterleavedLimits`, `InterleavedAtomic` | the concurrent engine |
| `CircuitBreakers`, `Retries` | resilience primitives |

`dafny verify dfyconfig.toml` checks the whole project.

## Conventions

- A public key is its base58 text, which is the form the engine stores;
  `Pubkey::default()` is 32 ones. Keys are only ever compared for equality.
- A program-derived account is a map entry under its seeds, `init` means "no entry
  yet", the signer and the clock come with the transaction, and a failed
  instruction leaves the accounts as they were.
- Clock readings are inputs. No theorem assumes a monotonic wall clock; the breaker
  theorems assume the monotonic clock the source names.
- Engine runs start from `GovernanceConfig::new` over empty stores, as the node
  does. The engine hands out the id u64::MAX without ever counting past it, so its
  per-proposal theorems are about smaller ids.
- In the interleaved engine a call may also be dropped at any cut, as the HTTP
  timeout layer does with a pending future.

## Where the code and its documentation differ

- The engine is described as mirroring the on-chain rules. It pins the threshold at
  proposal time while the program compares with the current one, and its counter
  wraps where the program's overflows. `MirrorsExactly` gives the exact condition;
  `LoweredThresholdSplits` and `CounterWrapsAt256` are runs on which each fails.
- On-chain a live proposal can always still be executed. In the engine a rotation or
  a wrapped counter can leave one that nobody in force can carry to its pinned
  threshold; `ExecutableExactly` says when.
- The breaker's half-open state is described as permitting a single trial call. The
  code grants every acquire in that state, and so does the model.
- Executed and Cancelled are final when calls run one at a time. Under interleaving
  they are final exactly under the condition of `FinalityExactly`.

## Model

| member | source | states |
|---|---|---|
| Simulation.MirrorsExactly | crates/securedeploy-core/src/engine.rs:115-254 | Forward simulation with its exact condition: over any run, the engine and the on-chain history it translates to correspond after every one of the first k requests if and only if none of these is the 256th vote on a proposal or an execute whose counter lies between the pinned and the current threshold |
| Simulation.EngineMirrorsProgram | crates/securedeploy-core/src/engine.rs:115-254 | Forward simulation: over any run in which no request diverges, the engine and the on-chain history it translates to stay in corresponding states (governance, ids, hash, eta, approvals, voter set = markers, Executed/Cancelled = flags); findings and malformed hashes have no on-chain side |
| Simulation.VerdictsMirror | anchor/programs/securedeploy-core/src/lib.rs:101-213 | Along such a run a request is accepted on-chain exactly when the engine accepts it if and only if it is not the 256th vote, not an execute whose counter lies between the pinned and the current threshold, and not a repeated cancel |
| Simulation.CallSimulated | crates/securedeploy-core/src/engine.rs:165-254 | One call from any corresponding states, exactly: equal verdicts if and only if it neither diverges nor repeats a cancel, corresponding states afterwards if and only if it does not diverge |
| Simulation.InitializeVerdict | anchor/programs/securedeploy-core/src/lib.rs:34-53 | Initialize accepts a configuration if and only if it is valid and its timelock is not negative; the engine constructor does not ask the latter |
| SimulationLimits.LoweredThresholdSplits | anchor/programs/securedeploy-core/src/lib.rs:190-193 | The mirror claim is not unconditional: propose, one vote, rotate to a lower threshold, execute; the program executes and the engine refuses |
| CounterWraps.CounterWrapsAt256 | crates/securedeploy-core/src/engine.rs:186-193 | Exact vote counting does fail: a run of 272 requests (16 disjoint guardian sets, 256 votes on one proposal) is in step with the chain up to the last vote; the engine accepts it and its counter reads 0 with 256 voters, the program refuses it with an overflow, and the live proposal can no longer be executed without another rotation |
| InterleavedSafety.QuorumUnderInterleaving | crates/securedeploy-core/src/engine.rs:165-233 | In every interleaving at lock, clock and await points, with calls dropped at will: a stored Executed record was stored by one execute call that found the engine unpaused, then fetched the live record, then passed the gate no earlier than its eta, in flight all the while; when it fetched and when it passed the gate at least the threshold of distinct guardians was in the voter set, each of them past the guardian check for that proposal by then |
| InterleavedSafety.NoPhantomVotes | crates/securedeploy-core/src/engine.rs:186-197 | In every interleaving no stored or in-flight record claims more approvals than there are distinct voters, u8 truncation included |
| InterleavedFinality.FinalityExactly | crates/securedeploy-core/src/engine.rs:209-254 | Under interleaving an executed or cancelled record keeps its contents in every continuation if and only if its id has been counted and no call in flight holds another version it could still store |
| InterleavedLimits.CancelledNotFinal | crates/securedeploy-core/src/engine.rs:174-197 | Finality is not unconditional under interleaving: a concrete schedule reaches a cancelled record that a stale approve can still replace |
| InterleavedAtomic.AloneIsAtomic | crates/securedeploy-core/src/engine.rs:89-254 | A governance call that runs from start to end with nothing in between has exactly the effect and gives exactly the answer of the one-call semantics, with both clock readings of propose |
| ChainSafety.ExecutionSafety | anchor/programs/securedeploy-core/src/lib.rs:183-205 | Every executed proposal was executed by a transaction that found the program unpaused and at least the then-current threshold of distinct voters, each of whom voted as a guardian of the time, no earlier than creation time plus the timelock fixed at initialize; never cancelled, pinned contents intact |
| ChainSafety.ExecutedOnce | anchor/programs/securedeploy-core/src/lib.rs:187-198 | After a successful execute, no further execute or cancel of that proposal succeeds |
| ChainSafety.CancelledForGood | anchor/programs/securedeploy-core/src/lib.rs:208-213 | After a successful cancel no vote or execute succeeds, and a repeated cancel changes nothing |
| ChainSafety.PinnedOverRun | anchor/programs/securedeploy-core/src/lib.rs:121-130 | Program id, hash, proposer and eta never change after creation, votes never decrease, executed and cancelled are final |
| ChainProgress.NoProposalIsStuck | anchor/programs/securedeploy-core/src/lib.rs:148-205 | From every reachable state a live proposal has a continuation at any time from its eta on, all of it succeeding: an unpause by the authority if needed, exactly the missing votes by current guardians, one execute |
| ChainVoteBound.VotesBounded | anchor/programs/securedeploy-core/src/lib.rs:56-66 | Votes on a proposal never exceed 16 times one more than the guardian rotations since it was created |
| ChainVoteBound.OverflowNeedsRotations | anchor/programs/securedeploy-core/src/lib.rs:164-167 | The Overflow branch of approve needs at least 15 rotations since the proposal was created |
| ChainVoteBoundTight.BoundAttained | anchor/programs/securedeploy-core/src/state.rs:6 | The vote bound is attained by a run for each number of rotations up to 14 |
| ChainVoteBoundTight.OverflowAttained | anchor/programs/securedeploy-core/src/lib.rs:164-167 | A run with 15 rotations meets the Overflow branch, so 14 is the exact limit |
| ChainInvariant.ChainVotesConserved | anchor/programs/securedeploy-core/src/lib.rs:159-167 | The on-chain counter always equals the number of distinct markers for the proposal |
| ChainInvariant.ChainIdsDense | anchor/programs/securedeploy-core/src/lib.rs:121-135 | On-chain ids are exactly 0..count-1, each under its own id, so propose never meets an existing account; the stored configuration is always valid |
| ChainGovernance.GovernanceTrail | anchor/programs/securedeploy-core/src/lib.rs:34-78 | After any transactions guardians and threshold are those of the latest successful initialize or rotation, the pause flag that of the latest successful initialize or pause, the timelock that of initialize, the count the number of successful proposes; no other transaction touches them |
| ChainGovernance.HandoverCompletes | anchor/programs/securedeploy-core/src/lib.rs:75-97 | From every reachable state a nomination of any key but the default one by the authority and an accept by the nominee both succeed, and leave guardians, threshold, timelock, pause, count, proposals and markers as they were |
| ChainGovernance.HandoverExactly | anchor/programs/securedeploy-core/src/lib.rs:83-97 | While a nomination stands an accept succeeds if and only if the nominee signs it and is not the default key, and it then completes the handover |
| ChainRefusals.RefusedExactly | anchor/programs/securedeploy-core/src/lib.rs:34-213 | Every instruction is refused with exactly the first error there is reason for, and then changes nothing; it succeeds when there is none |
| ChainAuthority.AuthorityChain | anchor/programs/securedeploy-core/src/lib.rs:75-97 | The authority in force initialized the program and nobody accepted since, or its accept was the last, as the most recent nominee of the authority in force when it was nominated; never the default key by accept |
| ChainAuthority.NominationUsedOnce | anchor/programs/securedeploy-core/src/lib.rs:83-97 | Between any two accepts there is another nomination of the second acceptor |
| EngineProgress.ExecutableExactly | crates/securedeploy-core/src/engine.rs:141-226 | After any run a live proposal can still be executed without a further rotation if and only if its counter plus the number of guardians in force who have not voted reaches its pinned threshold |
| EngineProgress.ReachableFinishes | crates/securedeploy-core/src/engine.rs:165-233 | .. and then a plan that fits any clock does it, every request accepted: an unpause if needed, exactly the missing votes by guardians in force, one execute |
| EngineOrigins.RecordOrigin | crates/securedeploy-core/src/engine.rs:115-161 | Every stored record (below the last id) was made by exactly one accepted propose of the run, unpaused and by the authority or a guardian, from its own arguments and the configuration it met: next id, program, hash text in lower case, proposer, eta = first clock reading + timelock, the threshold then in force, creation time = second reading; the call answered with it and it had no votes |
| EngineOrigins.FindingOrigin | crates/securedeploy-core/src/engine.rs:257-279 | Every stored finding was reported by exactly one accepted raise_finding, holds that request's id, program, threat, severity, title and time, is unresolved, and was the answer |
| EngineOrigins.FindingEventOnce | crates/securedeploy-core/src/engine.rs:274-277 | The events about a finding id are one FindingRaised with its severity once it is stored, none before |
| EngineOrigins.RaiseExactly | crates/securedeploy-infra/src/memory.rs:41-50 | A new finding id is stored, published and answered with; a known one is refused and changes nothing |
| EngineOrigins.ConfigTrail | crates/securedeploy-core/src/engine.rs:89-104 | After any run authority and timelock are the initial ones, guardians and threshold those of the latest valid rotation, the pause flag that of the latest set_paused, read off the requests alone |
| EngineOrigins.CountStep | crates/securedeploy-core/src/engine.rs:147-153 | The proposal count starts at zero and goes up by one exactly on an accepted propose |
| EngineOrigins.OneEventPerCall | crates/securedeploy-core/src/engine.rs:89-279 | An accepted call publishes exactly one event, a rotation and a refused call none; the event of a pause carries its flag |
| EngineOrigins.AnswersWithStored | crates/securedeploy-core/src/engine.rs:115-254 | An accepted propose, approve, execute or cancel answers with the record as stored, under the id it is about |
| EngineRefusals.RefusedExactly | crates/securedeploy-core/src/engine.rs:89-279 | Every call is refused with exactly the first error there is reason for, payloads included, and accepted when there is none |
| EngineRuns.EventGrammar | crates/securedeploy-core/src/engine.rs:154-252 | The events about a proposal are Created, then Approved with counters 1, 2, .. one per voter, then Executed or Cancelled exactly when the record is; none for an id never proposed |
| EngineRuns.PauseSilences | crates/securedeploy-core/src/engine.rs:89-111 | From a PauseChanged(true) to the next PauseChanged no proposal is created, approved or executed |
| EngineRuns.VotesConserved | crates/securedeploy-core/src/engine.rs:186-193 | One at a time, the stored counter is the voter-set size modulo 256, so exact just when at most 255 voted |
| EngineRuns.ApprovedExactly | crates/securedeploy-core/src/engine.rs:194-196 | A live record is Approved exactly when its voters reached the pinned threshold, and the counter says the same unless it wrapped below the threshold |
| EngineRuns.RecordsOnlyAdvance | crates/securedeploy-core/src/engine.rs:134-254 | Over any stretch of a run only the counter and the status of a record change, Executed and Cancelled are never left, Approved never reverts to Pending |
| EngineRuns.ExecutionOrigin | crates/securedeploy-core/src/engine.rs:208-233 | Every executed record was Approved just before, unpaused, with its threshold of distinct voters and its eta reached |
| EngineRuns.ExecutedOnce | crates/securedeploy-core/src/engine.rs:215-220 | No proposal is executed by two requests of one run |
| EngineRuns.DenseListing | crates/securedeploy-core/src/engine.rs:131-153 | Below u64::MAX the stored ids are exactly 0..count-1 and the listing returns them in that order |
| EngineRuns.StatsExact | crates/securedeploy-core/src/engine.rs:297-309 | Statistics agree with the run: proposals = ids handed out, executed = number of Executed events, every finding open |
| EngineRuns.ConfigStaysValid | crates/securedeploy-core/src/engine.rs:98-104 | Every reachable engine configuration satisfies the validation rules |
| EngineRuns.HashStaysCanonical | crates/securedeploy-core/src/engine.rs:122-145 | Every stored build hash is the canonical text of a nonzero hash in every later state |
| StoreEquivalence.StoresAgree | crates/securedeploy-infra/src/postgres.rs:58-88 | Over every run below u64::MAX proposals, the engine over the Postgres store is in the same state and answers every lookup like the engine over the overwriting in-memory store |
| StoreEquivalence.RepliesAgree | crates/securedeploy-infra/src/postgres.rs:58-88 | .. and gives every request the same reply |
| StoreEquivalence.ListsAgreeExactly | crates/securedeploy-infra/src/postgres.rs:90-96 | The two lists are the same sequence if and only if at most 2^63 proposals exist (the id column is signed) |
| StoreEquivalence.CountsAgree | crates/securedeploy-infra/src/postgres.rs:98-104 | Over every run below u64::MAX proposals both stores hold as many proposals as ids were handed out, so both counts are that number |
| PostgresStores.UpsertOverwritesExactly | crates/securedeploy-infra/src/postgres.rs:58-79 | A conflicting upsert stores the whole record exactly when it differs from the stored one in nothing but counter and status |
| PostgresStores.UpsertColumns | crates/securedeploy-infra/src/postgres.rs:24-79 | What an upsert writes: under a new id every field of the record in the column named after it, the status in the schema's words, the id in two's complement; on conflict only approvals and status; no other row |
| PostgresStores.RowRoundTrip | crates/securedeploy-infra/src/postgres.rs:24-54 | Encoding a record as a row and mapping it back is the identity |
| CircuitBreakers.EqualsHistory | crates/securedeploy-resilience/src/breaker.rs:93-134 | After any operations the breaker is not Closed exactly when the failures since the last success reach max(1, threshold), and its counter is that number capped there; the saturating add never saturates |
| CircuitBreakers.StateFromHistory | crates/securedeploy-resilience/src/breaker.rs:93-134 | After any operations on any clock the state is what the operations alone say: Closed without a trip since the last success, HalfOpen once an acquire came at least the open duration after the latest trip, else Open since it; a trip is the failure that brings the streak to the limit, then each first failure after such an acquire |
| CircuitBreakers.FailedTrialReopens | crates/securedeploy-resilience/src/breaker.rs:116-130 | A failure met half-open makes the breaker Open at that time, and every acquire before the open duration has passed is refused unless a success intervened |
| CircuitBreakers.GrantedExactly | crates/securedeploy-resilience/src/breaker.rs:93-106 | With a monotonic clock an acquire is granted if and only if the failures are below the limit or the open duration has passed since the latest trip, trips being read off the operations alone |
| CircuitBreakers.TripSpacing | crates/securedeploy-resilience/src/breaker.rs:116-134 | Trips since the last success are at least the open duration apart, cumulatively |
| Retries.BackoffExact | crates/securedeploy-resilience/src/retry.rs:35-43 | The delay equals min(initial * multiplier^attempt, cap) if and only if that value fits a u64 and no visible saturation of the power occurs |
| Retries.BackoffIsCapped | crates/securedeploy-resilience/src/retry.rs:35-43 | The u128 product never saturates and no delay exceeds the cap, for any policy |
| Retries.BackoffMonotone | crates/securedeploy-resilience/src/retry.rs:35-43 | Delays never shrink from one attempt to a later one for multiplier >= 1 and a cap below 2^64 ms |
| Retries.Retry | crates/securedeploy-resilience/src/retry.rs:51-70 | Returns the first success among max(1, max_attempts) outcomes or the last error, after k calls and exactly the delays of attempts 0..k-2 |
| Retries.DelaysBounded | crates/securedeploy-resilience/src/retry.rs:63-65 | k calls sleep k-1 times, in order, for at most (k-1) times the cap in total |
| BuildHashes.FromHexAcceptsExactly | crates/securedeploy-types/src/build_hash.rs:36-50 | from_hex accepts exactly 64 base16 digits of either case that are not all zero, and to_hex of the outcome is the input in lower case |
| BuildHashes.ParsedBytes | crates/securedeploy-types/src/build_hash.rs:36-50 | Byte i of a parsed hash is 16 times the position of digit 2i in the base16 alphabet plus that of digit 2i+1 |
| BuildHashes.PrintedDigits | crates/securedeploy-types/src/build_hash.rs:58-60 | A hash prints each byte as the two digits of the lower-case base16 alphabet at its quotient and remainder by 16 |
| BuildHashes.FromHexRefusals | crates/securedeploy-types/src/build_hash.rs:37-49 | A text that is no base16 is refused with its length in bytes, one of another length with the number of bytes it spells, 64 zeros as the empty hash |
| BuildHashes.HashRoundTrip | crates/securedeploy-types/src/build_hash.rs:58-60 | from_hex(to_hex(h)) = h for every nonzero hash |
| BuildHashes.ParseBuildHash | crates/securedeploy-types/src/build_hash.rs:36-50 | The buffer-filling parser answers as FromHex does, error payloads included; ParsedBytes, FromHexAcceptsExactly and FromHexRefusals say what that is |
| BuildHashes.FromBytes | crates/securedeploy-types/src/build_hash.rs:28-33 | Exactly the all-zero hash is refused |
| GovernanceRules.ValidateGuardians | crates/securedeploy-types/src/governance.rs:14-36 | The nested loops accept exactly 1..=16 pairwise distinct guardians with 1 <= threshold <= len, and report the first failing rule |
| GovernanceRules.ValidateOnChain | anchor/programs/securedeploy-core/src/state.rs:28-50 | The on-chain loops give the same verdict on every input |
| GovernanceRules.CanExecute | crates/securedeploy-types/src/governance.rs:48-61 | The gate opens exactly when approvals >= threshold and now >= eta; too few approvals are reported as such, with both numbers |
| GovernanceRules.RemainingIsExactWait | crates/securedeploy-types/src/governance.rs:55-59 | A TimelockActive answer names the exact wait if and only if the gap fits an i64, which now >= 0 guarantees |
| GovernanceRules.UnspentGuardian | anchor/programs/securedeploy-core/src/state.rs:38-48 | Pigeonhole: fewer voters than the threshold leave a current guardian who has not voted |
| AuditEngines.AuditEngine.New | crates/securedeploy-core/src/engine.rs:65-81 | Yields an engine exactly for a valid guardian set, in the given state and with an empty history; otherwise the error of the first failing rule |
| AuditEngines.AuditEngine.SetPaused | crates/securedeploy-core/src/engine.rs:89-95 | Refines the one-call semantics |
| AuditEngines.AuditEngine.SetGuardians | crates/securedeploy-core/src/engine.rs:98-104 | Refines the one-call semantics, error payloads included |
| AuditEngines.AuditEngine.EnsureActive | crates/securedeploy-core/src/engine.rs:106-111 | Refuses exactly when paused |
| AuditEngines.AuditEngine.Propose | crates/securedeploy-core/src/engine.rs:115-161 | Refines the one-call semantics, the store-before-count order at u64::MAX included; RecordOrigin says what that stores |
| AuditEngines.AuditEngine.Approve | crates/securedeploy-core/src/engine.rs:165-205 | Refines the one-call semantics |
| AuditEngines.AuditEngine.Execute | crates/securedeploy-core/src/engine.rs:208-233 | Refines the one-call semantics |
| AuditEngines.AuditEngine.Cancel | crates/securedeploy-core/src/engine.rs:236-254 | Refines the one-call semantics |
| AuditEngines.AuditEngine.RaiseFinding | crates/securedeploy-core/src/engine.rs:257-279 | Refines the one-call semantics, duplicate ids included; RaiseExactly and FindingOrigin say what that stores |
| AuditEngines.AuditEngine.Stats | crates/securedeploy-core/src/engine.rs:297-309 | Counts the stored, executed and open records; of an engine founded over empty stores these are the ids handed out, the Executed events published and the findings |
| AuditEngines.EngineObeysRuns | crates/securedeploy-core/src/engine.rs:65-309 | An engine object founded over empty stores is in the state of the run it has had, and keeps the invariant of every run |
| GovernancePrograms.GovernanceProgram.Initialize | anchor/programs/securedeploy-core/src/lib.rs:34-53 | Refines the instruction semantics: state and error, unchanged on failure |
| GovernancePrograms.GovernanceProgram.SetGuardians | anchor/programs/securedeploy-core/src/lib.rs:56-66 | Refines the instruction semantics |
| GovernancePrograms.GovernanceProgram.SetPaused | anchor/programs/securedeploy-core/src/lib.rs:69-72 | Refines the instruction semantics |
| GovernancePrograms.GovernanceProgram.TransferAuthority | anchor/programs/securedeploy-core/src/lib.rs:75-78 | Refines the instruction semantics; a success records the nominee and leaves everything else alone |
| GovernancePrograms.GovernanceProgram.AcceptAuthority | anchor/programs/securedeploy-core/src/lib.rs:83-97 | Refines the instruction semantics; a success moves the nominee to authority, clears the nomination and leaves everything else alone |
| GovernancePrograms.GovernanceProgram.ProposeUpgrade | anchor/programs/securedeploy-core/src/lib.rs:101-144 | Refines the instruction semantics, rollback on a late overflow included |
| GovernancePrograms.GovernanceProgram.ApproveUpgrade | anchor/programs/securedeploy-core/src/lib.rs:148-175 | Refines the instruction semantics |
| GovernancePrograms.GovernanceProgram.ExecuteUpgrade | anchor/programs/securedeploy-core/src/lib.rs:183-205 | Refines the instruction semantics |
| GovernancePrograms.GovernanceProgram.CancelProposal | anchor/programs/securedeploy-core/src/lib.rs:208-213 | Refines the instruction semantics |
| GovernancePrograms.ProgramObeysRuns | anchor/programs/securedeploy-core/src/lib.rs:34-213 | A program object keeps the invariant of every transaction sequence, and any executed proposal it holds was executed by one of its transactions with every gate open |
| MemoryStores.InMemoryProposalStore.Upsert | crates/securedeploy-infra/src/memory.rs:16-19 | Overwrites the record under its id |
| MemoryStores.InMemoryProposalStore.Get | crates/securedeploy-infra/src/memory.rs:20-22 | Answers the stored record, if any |
| MemoryStores.InMemoryProposalStore.List | crates/securedeploy-infra/src/memory.rs:23-27 | Every record once, in increasing id order, whatever order the map yields |
| MemoryStores.SortById | crates/securedeploy-infra/src/memory.rs:25 | Sorts in place: a permutation with non-decreasing ids |
| MemoryStores.ListingUnique | crates/securedeploy-infra/src/memory.rs:23-27 | A store has exactly one listing |
| MemoryStores.InMemoryFindingStore.Insert | crates/securedeploy-infra/src/memory.rs:41-50 | Refuses a known id and changes nothing, else adds the record |
| MemoryStores.InMemoryFindingStore.List | crates/securedeploy-infra/src/memory.rs:54-56 | Every finding once |
| MemoryStores.EventLog.Publish | crates/securedeploy-infra/src/events.rs:34-38 | Appends the event and always succeeds |
| PostgresStores.PgProposalStore.Upsert | crates/securedeploy-infra/src/postgres.rs:58-79 | Insert, or on conflict the two columns only |
| PostgresStores.PgProposalStore.Get | crates/securedeploy-infra/src/postgres.rs:81-88 | The mapped row under the bit-cast id |
| CircuitBreakers.CircuitBreaker.Acquire | crates/securedeploy-resilience/src/breaker.rs:93-106 | New state, the one the operations so far alone determine, and answer of the state machine (half-open grants every acquire); with a monotonic clock the answer is yes exactly when there was no trip since the last success or the open duration has passed since the latest one |
| CircuitBreakers.CircuitBreaker.RecordSuccess | crates/securedeploy-resilience/src/breaker.rs:109-113 | Closes and clears |
| CircuitBreakers.CircuitBreaker.RecordFailure | crates/securedeploy-resilience/src/breaker.rs:116-130 | New state of the state machine, which is the one the operations so far alone determine |

## Left out

- GraphQL schema, router, node startup, configuration parsing, telemetry and demo: plumbing over the engine.
- Who may call the engine's cancel, set_paused and set_guardians: its comments leave that to the API, which is not part of this model.
- RateLimiter and with_timeout: thin wrappers over libraries; a timeout appears only as a dropped call.
- SHA-256 (`BuildHash::of`): no property here depends on which hash an artifact has.
- Anchor and Solana internals: address derivation, bumps, discriminators, rent, account sizes and signature checks. When several account constraints fail at once, only the failure is modelled, not which one Anchor reports first.
- Events emitted on-chain and the delivery and lag of the broadcast sink: publishing is an append that always succeeds.
- Storage failures and the SQL engine: only the visible statements' effect on a table keyed by id. The ordered SELECT is a predicate on the returned rows.
- An engine started over a store that already holds proposals: the voter map starts empty, so the vote counts of old proposals would not be those of the map.
- Findings in the interleaved engine: they share no state with proposals.
- The read-only pass-throughs of engine and stores (`config`, `proposal`, `list_proposals`, `finding`, `list_findings`, the finding store's `get`).
- Formatted error texts: errors keep the values they name, not their wording.
- Real sleeping and scheduling: retry records its delays; the retried operation is a function from the call number to its outcome.
- ThreatClass codes and severity ordering: finite tables.
