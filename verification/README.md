# A verified model of the TTL-aware BFF

The repository is a read-only service over two data sources, a fast operational one
and a slower execution one. This project models its stateful mechanisms and its policy
code in Dafny, and proves what they guarantee over every input, every run and every
interleaving.

Where the source updates things in place the model does too: the breaker, the LRU
cache, the layered cache and its manager, the probe memo and the routing state are
classes, and each of their methods is proved against a specification on values. Facts
about whole runs are then lemmas about those specifications. Protocols among
concurrent callers are state machines whose steps are the atomic accesses of the code.

| file | models |
|---|---|
| `Counting.dfy` | counting in sequences, used by the state machines |
| `Breaker.dfy` | the circuit breaker: a ring of ten buckets refines an unbounded log |
| `Executor.dfy`, `Limits.dfy` | many callers of the executor over one breaker, and exactly where its bounds give way |
| `Bulkhead.dfy` | the bulkhead, one step per channel operation or atomic update |
| `Recency.dfy`, `Retention.dfy`, `Memory.dfy` | the LRU cache: abstract operations, what they promise a reader, and the map-and-list code |
| `Tiers.dfy`, `Replicas.dfy` | L1 over L2 in one process, and many processes over one L2 |
| `Freshness.dfy` | freshness evaluation, the probe memo, the ageing of cached answers |
| `Fields.dfy`, `Router.dfy`, `RouterSafety.dfy` | the field catalogue, the eleven routing rules, and what the chain and its call-time fallback guarantee |
| `Precedence.dfy`, `Aggregation.dfy` | per-field winners, fan-out, merge, in-flight resolution |
| `Service.dfy` | the description of an answer, live, cached or served stale |
| `Load.dfy` | the whole cache-miss path, from the decision to the entry |
| `Retry.dfy`, `Keys.dfy` | the retry loop and its budget; cache key printing |
| `Domain.dfy`, `Wrappers.dfy` | values shared by the components |

Times and durations are integers, and each lock-protected step reads the clock once.
Ratios and jitter are reals. A clock that does not run backwards is assumed only where
a statement says so.

## Where the code and its comments differ

The model follows the code. Each difference has a concrete run or an exact condition.

- Half-open is said to admit a bounded number of concurrent probes
  (internal/resilience/breaker.go:55-57). A call admitted before the outage gives back a
  slot it never took, so under a validated configuration the bound holds in every run
  exactly when the bulkhead's capacity is no larger (`ProbeLimitExactly`); in general it
  is the configured maximum plus such settlements (`ProbeSlotAccounting`).
- Half-open is said to admit probes and to require several successes before closing
  (internal/resilience/breaker.go:55-57). The successes need not be those of its probes:
  calls admitted before the outage count too. In every run at least one of the episode's own probes has answered
  before it closes exactly when the bulkhead's capacity is at most the successes needed
  (`OwnProbeExactly`, `ClosedByLateCalls`).
- The transition hook is said to fire on every state change
  (internal/resilience/breaker.go:118). A call from before the outage that settles once
  the timeout is due turns the breaker half-open and on to open or closed in one step, and
  the hook hears only the net change, if there is one. It hears every change in every run
  exactly when there is a probe slot and the bulkhead has a single slot
  (`HookHearsAllExactly`, `SilentEpisode`). The last state it heard is the current one in
  every run exactly when there is a probe slot (`HookExactly`), which the configuration
  loader demands.
- A cache hit is said never to make stale data look fresh (internal/cache/cache.go:10-12).
  It does exactly while the record is past its TTL and the age it was judged to have,
  plus its time in the cache, is not: a window as long as the delay between judging and
  storing (`AgedOptimismWindow`, `AgedOptimismSpan`, `AgedLooksFresher`).
- A memoised probe is said never to make a record look fresher than it is
  (internal/freshness/freshness.go:161-164). It equals a re-probe whose answer takes as
  long to arrive as the original's did (`MemoIsAReprobe`), and so looks fresher for
  exactly that long after the TTL (`MemoOptimismWindow`, `MemoLooksFresher`).
- `Saturated` is said to report that every slot is held
  (internal/resilience/bulkhead.go:128-129). It can be true with no slot held and false
  with all of them held, exactly when the callers that freed a token and are still
  counted outnumber those that hold one uncounted by at least the free slots, or are
  outnumbered by them (`SaturatedExactly`, `SaturatedWithNothingHeld`,
  `FullYetNotSaturated`).
- Past the staleness ceiling nothing is said to be served from the operational source
  (internal/router/router.go:606-608). Only one branch of one rule checks it.
  `CeilingBypassExactly` gives all requests routed to that source with no measured age
  within the ceiling: those decided by a rule that looks at no age, a fresh verdict under
  a TTL above the ceiling, a fallback that is the operational source itself, and a
  configured guess when freshness is unknown. A call-time fallback to it is never
  vouched for (`CeilingAtCallTime`). `CeilingBypassed` is one validated input.
- A decision is said to publish what the router actually applied
  (internal/router/router.go:302-304). Its ceiling is the applied one exactly when the
  rule's is not negative, or equals the default's (`PublishedCeilingExactly`).
- A strong request is said not to receive another source's answer
  (internal/application/service.go:727-732). It never falls back, but like any
  operational-only read it looks up an execution its record names as in flight
  (`StrongLoadExactly`). `LookupOverridesExactly` says for every policy when it then
  reports that execution's status; a nomination is not needed for a record that is stale,
  as every dated record is under a TTL of zero (`StrongIsAnsweredByAnother`,
  `StrongNeedsNoNomination`).
- The endpoints are said to be unable to disagree about a status
  (internal/application/service.go:387-390). `ViewsDisagreeExactly` says for every policy,
  view and lookup when an operational-only and a both-source read do; under the intended
  conditions the one gap is a both-source read by a view that does not ask for the latest
  execution (`ViewsAgreeExactly`, `StatusViewsDisagree`).
- A tenant's merged rule is said to be validated again (internal/config/load.go:592-594).
  It is not, and it breaks the validator's rules exactly when override and base clash
  (`OverlayExactly`, `OverlayBreaksARule`).
- Two different odd identifiers are said to be unable to collide onto one key
  (internal/cache/cache.go:241-242). They print alike exactly when the 24 printed digits
  of their digests agree, and a safe identifier can be spelled like an odd one's digest
  (`SegmentsPrintAlikeExactly`, `SpelledLikeADigest`).
- Replicas are said to differ by up to the L1 lifetime (README.md:767-768). That bound
  holds in every run exactly when no time passes between the two tier accesses of an
  operation, or L1 keeps nothing (`LifetimeBoundExactly`, `SlowPromotion`); in general
  that time adds to it (`BoundedStaleness`).

## Model

| member | source | states |
|---|---|---|
| BreakerModel.Breaker.constructor | internal/resilience/breaker.go:88-108 | a new breaker is closed, its ring holds the empty log, and a window too short to divide falls back to one-second buckets |
| BreakerModel.Breaker.Counts | internal/resilience/breaker.go:253-268 | the three sums over the ring equal exactly the outcomes recorded since the last close whose bucket index lies in the last ten, although slots are reused |
| BreakerModel.Breaker.ShouldTripLocked | internal/resilience/breaker.go:302-319 | the trip decision taken on the ring is the one the log calls for |
| BreakerModel.Breaker.RecordLocked | internal/resilience/breaker.go:321-328 | recording appends one outcome to the log and the ring still holds it, whichever slot is overwritten |
| BreakerModel.Breaker.TransitionLocked | internal/resilience/breaker.go:281-300 | entering a state resets the probe counters, opening stamps the instant, closing empties log and ring together |
| BreakerModel.Breaker.CurrentLocked | internal/resilience/breaker.go:274-279 | an open breaker turns half-open exactly when its timeout has elapsed |
| BreakerModel.Breaker.State | internal/resilience/breaker.go:127-136 | a health query advances the timer and reports the change |
| BreakerModel.Breaker.Allow | internal/resilience/breaker.go:140-172 | admission, refusal and slot taking change the reference machine as specified, and the ring stays valid |
| BreakerModel.Breaker.RecordOutcome | internal/resilience/breaker.go:177-213 | settling a call changes the reference machine as specified in all three states |
| BreakerModel.Breaker.AbstainOutcome | internal/resilience/breaker.go:222-231 | a call without health evidence returns a slot and records nothing |
| BreakerModel.BucketIndexMonotone | internal/resilience/breaker.go:337-343 | a clock that does not run backwards never moves to an earlier bucket, even before the start instant |
| BreakerModel.WindowInTime | internal/resilience/breaker.go:253-343 | the ten indices in time: an outcome no older than nine buckets is in the window and one ten buckets old is not, ten buckets being the configured window up to its remainder |
| BreakerModel.LogIsHistory | internal/resilience/breaker.go:140-213 | over any operations, the log holds every settlement and refusal since the last close once, with its own outcome and bucket, and nothing else |
| BreakerModel.TallyIsHistory | internal/resilience/breaker.go:253-328 | the window sums are counts of the settlements themselves, those since the last close in the last ten bucket indices |
| BreakerModel.OpensExactly | internal/resilience/breaker.go:194-213 | an operation opens a closed breaker exactly when it settles a failure and the settlements counted with it reach the minimum and the ratio |
| BreakerModel.RunBreaker | internal/resilience/breaker.go:253-343 | after any operations on a clock that does not run backwards, the ring's sums are the settlements made since the last close in the last ten bucket indices, and the state is the reference's |
| BreakerModel.SlotContribution | internal/resilience/breaker.go:253-268 | what one reused slot contributes to a window is exactly what the log holds for that slot |
| BreakerModel.RecordKeepsSlot | internal/resilience/breaker.go:321-328 | overwriting a slot with a newer index loses nothing a later window could ask for |
| ExecutorModel.InvHolds | internal/resilience/executor.go:94-125 | every reachable state of callers and breaker satisfies the invariant: slot bounds, episode outcomes, token count, reported state |
| ExecutorModel.ProbeSlotAccounting | internal/resilience/breaker.go:140-231 | in an episode the slot counter is at most the episode's probes in flight, which exceed it by at most the settlements of earlier calls; without those the count is exact |
| ExecutorModel.QuietBreakerAdmits | internal/resilience/executor.go:94-125 | with nothing in flight the counter is zero and the next call is admitted exactly when the breaker is not open or its timeout is due |
| ExecutorModel.InFlightWithinCapacity | internal/resilience/executor.go:94-103 | calls in flight never exceed the bulkhead's capacity |
| ExecutorModel.OpenRefusesUntilTimeout | internal/resilience/breaker.go:274-279 | once open, the breaker stays open with the same opening instant and admits nothing before the timeout, over whole runs |
| ExecutorModel.OpensOnlyOnEvidence | internal/resilience/breaker.go:302-319 | closed turns open only on a recorded failure with enough requests in the last ten buckets and the ratio at the threshold |
| ExecutorModel.ClosesOnlyAfterSuccesses | internal/resilience/breaker.go:186-193 | a breaker closes only out of an episode with no failure, on reaching exactly the configured number of successes |
| ExecutorModel.HalfOpenIsUndecided | internal/resilience/breaker.go:186-205 | a half-open episode has seen successes only, and fewer than it needs to close |
| ExecutorModel.HookIsUpToDate | internal/resilience/breaker.go:127-213 | the last state passed to the hook is the current state, for a probe limit of at least one |
| ExecutorModel.LedgerIsHistory | internal/resilience/executor.go:94-125 | the late settlements, own answers and outcomes counted for an episode are those of the run's steps, over every interleaving |
| ExecutorModel.EpisodesAreTurns | internal/resilience/breaker.go:274-300 | the episodes are numbered by the breaker's turns to half-open |
| ExecutorLimits.HookExactly | internal/resilience/breaker.go:154-165 | the last reported state is the current one in every reachable state exactly when the probe limit is at least one |
| ExecutorLimits.SilentEpisode | internal/resilience/breaker.go:177-213 | for every validated configuration with two bulkhead slots or more, a run whose last step turns the breaker half-open and open again unheard |
| ExecutorLimits.HookHearsAllExactly | internal/resilience/breaker.go:118-213 | the hook hears every state change of every run exactly when there is a probe slot and a single bulkhead slot |
| ExecutorLimits.ExtraProbe | internal/resilience/breaker.go:188-231 | for every validated configuration with more bulkhead slots than probe slots, a run that ends with one probe too many in flight |
| ExecutorLimits.ProbeLimitExactly | internal/resilience/breaker.go:140-231 | the probes in flight keep to the limit in every reachable half-open state exactly when the bulkhead's capacity does |
| ExecutorLimits.OwnSuccesses | internal/resilience/breaker.go:186-193 | of the successes that close an episode, at least those beyond the other bulkhead slots came from its own probes |
| ExecutorLimits.ClosedByLateCalls | internal/resilience/breaker.go:186-193 | for every validated configuration with more bulkhead slots than successes needed, a run that closes with no probe of its own answered |
| ExecutorLimits.OwnProbeExactly | internal/resilience/breaker.go:177-213 | closing takes the answer of one of the episode's own probes in every run exactly when the capacity is at most the successes needed |
| BulkheadModel.InvHolds | internal/resilience/bulkhead.go:63-156 | under every interleaving each channel and counter equals the number of callers in the phases that account for it |
| BulkheadModel.Accounting | internal/resilience/bulkhead.go:63-156 | token holders stay within capacity and queued callers within the queue; the gauge is the counted holders plus those that freed a token and are not yet uncounted |
| BulkheadModel.SaturatedExactly | internal/resilience/bulkhead.go:128-135 | the exact conditions, in callers freed but still counted and holding but not yet counted, under which the signal is raised with a slot free or missing with all held |
| BulkheadModel.AdmissionExactly | internal/resilience/bulkhead.go:63-114 | in every run a caller gets a token or a wait slot exactly while fewer than the bound are held, and is turned away at once exactly when the queue is full |
| BulkheadModel.RefusedForCause | internal/resilience/bulkhead.go:78-114 | a caller is refused only by a full queue or by giving up its wait |
| BulkheadModel.NeverStuck | internal/resilience/bulkhead.go:63-156 | in every run a caller that is neither done nor running its call has a step to take, and one that waits can give up |
| BulkheadModel.SaturatedWithNothingHeld | internal/resilience/bulkhead.go:144-156 | a run after which saturation is reported with no slot held |
| BulkheadModel.FullYetNotSaturated | internal/resilience/bulkhead.go:63-75 | a run after which every slot is held and saturation is not reported |
| BulkheadModel.DrainedIsEmpty | internal/resilience/bulkhead.go:63-156 | when every caller is refused or released, no token, wait slot or count is left behind |
| BulkheadModel.FreesOnce | internal/resilience/bulkhead.go:144-156 | of all the release calls that race on a grant's flag, at most one returns a token in a run |
| BulkheadModel.FreeNeverBlocks | internal/resilience/bulkhead.go:144-150 | in every run, the release call that set its grant's flag finds a token to return and does not block |
| BulkheadModel.GaugeExceedsCapacity | internal/resilience/bulkhead.go:144-156 | a run in which the gauge reads two with a capacity of one |
| Recency.AfterBounded | internal/cache/memory.go:60-126 | every operation keeps keys unique and the length within the bound |
| Recency.ReplayByLastTouch | internal/cache/memory.go:60-105 | after any history, slots stand in descending order of their last touch |
| Recency.VictimIsLeastRecent | internal/cache/memory.go:97-103 | a write to a full cache evicts one key, the least recently touched of all residents |
| Recency.AfterIncluded | internal/cache/memory.go:60-126 | one operation on two caches keeps the smaller a subsequence of the larger, slot for slot |
| Recency.Inclusion | internal/cache/memory.go:60-126 | after any history at any instants, the cache with the smaller bound is a subsequence of the one with the larger, with equal entries and expiries |
| Recency.HitsSurviveALargerBound | internal/cache/memory.go:60-80 | raising the bound never turns a hit into a miss or changes its answer |
| Retention.Retained | internal/cache/memory.go:60-126 | a written entry is found throughout its lifetime until its key is rewritten or erased, or as many other keys as the bound have been read or written |
| Retention.NothingElseIsFound | internal/cache/memory.go:60-126 | whatever is found is its key's last write, not erased since and within its own lifetime |
| MemoryCache.Memory.constructor | internal/cache/memory.go:38-48 | a bound below one becomes 1024 |
| MemoryCache.Memory.ViewFacts | internal/cache/memory.go:23-35 | map and list in bijection give a list of unique keys, the map's own, within the bound |
| MemoryCache.Memory.Get | internal/cache/memory.go:60-80 | a lookup answers a live slot and moves it to the front, and drops an expired one |
| MemoryCache.Memory.Set | internal/cache/memory.go:82-105 | a write replaces in place and moves to the front, or pushes and evicts at the back; a lifetime of zero or less writes nothing |
| MemoryCache.Memory.Evict | internal/cache/memory.go:99-103 | the eviction loop cuts the list to the bound, with the map in step |
| MemoryCache.Memory.RemoveLocked | internal/cache/memory.go:162-166 | an element leaves map and list together |
| MemoryCache.Memory.Delete | internal/cache/memory.go:107-114 | a deletion removes exactly its key |
| MemoryCache.Memory.DeletePrefix | internal/cache/memory.go:117-126 | whatever order the map is ranged over, exactly the keys with the prefix go and the rest keep their order |
| Tiers.Layered.Get | internal/cache/manager.go:34-53 | L1, then L2, then promotion with the remaining life capped by the L1 lifetime |
| Tiers.Layered.Promote | internal/cache/manager.go:44-51 | a promoted copy never gets more than the entry has left |
| Tiers.Layered.Set | internal/cache/manager.go:56-63 | a write reaches both tiers, L1 with the shorter lifetime |
| Tiers.Layered.Delete | internal/cache/manager.go:66-69 | a deletion reaches both tiers |
| Tiers.Layered.DeletePrefix | internal/cache/manager.go:72-75 | a prefix deletion reaches both tiers |
| Tiers.Remote.Get | internal/cache/redis.go:80-100 | L2 answers a live entry of the current schema version |
| Tiers.Manager.Put | internal/cache/manager.go:333-358 | a stored entry is stamped now, gets the logical lifetime, and lives physically for the grace as well |
| Tiers.Manager.SetNegative | internal/cache/manager.go:296-307 | a "not found" is remembered for the negative lifetime, if there is one |
| Tiers.Manager.Get | internal/cache/manager.go:192-221 | the ordinary read treats a logically expired entry as a miss |
| Tiers.Manager.GetStale | internal/cache/manager.go:367-382 | the stale-serve read ignores expiry and refuses a remembered "not found" |
| Tiers.GetCoherent | internal/cache/manager.go:34-53 | if live L1 copies mirror L2, the layered answer is L2's, and still mirrors it after a promotion |
| Tiers.L1IsTransparent | internal/cache/manager.go:34-69 | after any history in one process the layered cache answers exactly as L2 alone would |
| Tiers.LifetimesHold | internal/cache/manager.go:333-382 | over whole runs an ordinary hit is within its logical lifetime, a stale one within that plus the grace, a degraded or partial one has at most the negative lifetime |
| Tiers.ReadsFindTheLastWrite | internal/cache/manager.go:34-69 | a layered read is a function of the history alone: the last write of the key that nothing erased, stamped with its own instant, until lifetime and grace are over |
| Tiers.ReadsFindNothingElse | internal/cache/manager.go:34-69 | anything a layered read finds is such a write |
| Tiers.L1IsALru | internal/cache/manager.go:34-75 | behind L2, L1 is the LRU cache of the operations it receives, promotions among them, after any history |
| Replicas.InvHolds | internal/cache/manager.go:34-69 | in every run each L1 slot is backed by a recent instant of L2's past or is being written by its own process |
| Replicas.BoundedStaleness | internal/cache/manager.go:34-69 | any L1 hit at t is a value L2 held no earlier than t minus the L1 lifetime and the access delay, or one its process has been writing through for no longer than that lifetime |
| Replicas.SlowPromotion | internal/cache/manager.go:40-52 | for every positive lifetime and delay, a run whose L1 hit is older than the L1 lifetime |
| Replicas.LifetimeBoundExactly | internal/cache/manager.go:34-69 | the L1 lifetime alone bounds staleness in every run exactly when the delay is zero or L1 keeps nothing |
| FreshnessModel.VerdictsExact | internal/freshness/freshness.go:56-110 | the exact condition of each verdict; a record stamped beyond the tolerance in the future is never fresh |
| FreshnessModel.SkewFlaggedExactly | internal/freshness/freshness.go:73-96 | a correction is flagged exactly for a source clock beyond the tolerance or a future timestamp |
| FreshnessModel.SkewImmune | internal/freshness/freshness.go:73-82 | with a source clock, state and age do not depend on the service's clock |
| FreshnessModel.MemoIsAReprobe | internal/freshness/freshness.go:165-171 | a memoised probe gives the evaluation of re-probing the unrefreshed record with the same answer delay |
| FreshnessModel.MemoOptimismWindow | internal/freshness/freshness.go:165-171 | the memo says FRESH where an answer given now would be STALE exactly while the age exceeds the TTL by no more than the original answer's delay, for a source that reports its time |
| FreshnessModel.MemoLooksFresher | internal/freshness/freshness.go:161-171 | one such input |
| FreshnessModel.MemoStaleIsFinal | internal/freshness/freshness.go:165-171 | a stale verdict from the memo stands at every later instant |
| FreshnessModel.ProbeManager.Probe | internal/freshness/freshness.go:214-249 | a probe is issued exactly when no live memo exists, is remembered at the instant it returned, and the memo stays bounded |
| FreshnessModel.ProbeManager.Invalidate | internal/freshness/freshness.go:271-278 | after invalidation no memo answers for the resource |
| FreshnessModel.AgedLag | internal/cache/cache.go:90-107 | the reported age trails a direct evaluation by at most the delay between judging and storing, and by exactly that for past timestamps |
| FreshnessModel.AgedFreshIsFresh | internal/cache/cache.go:90-107 | stored at the instant of judgement, a cached answer is FRESH only if direct evaluation is |
| FreshnessModel.AgedOptimismWindow | internal/cache/cache.go:90-107 | a cached FRESH contradicts a direct STALE exactly while the record is past its TTL and its judged age plus its time in the cache is not, future timestamps included |
| FreshnessModel.AgedOptimismSpan | internal/cache/cache.go:90-107 | for a past timestamp that window is as long as the delay between judging and storing |
| FreshnessModel.AgedLooksFresher | internal/cache/cache.go:90-107 | one such input |
| FreshnessModel.AgedVerdictsHold | internal/cache/cache.go:90-107 | STALE never reverts and UNKNOWN stays UNKNOWN however often an entry is re-reported |
| FieldCatalog.ExclusiveTo | internal/policy/fields.go:87-110 | the loop finds the one source that alone can supply every known listed field, exactly when there is one |
| FieldCatalog.SourcesFor | internal/policy/fields.go:72-82 | the loop collects exactly the most authoritative suppliers of the listed fields |
| FieldCatalog.ExclusiveDoesNotSpan | internal/policy/fields.go:72-110 | fields exclusive to one source never need another |
| RouterModel.EvalState.EvaluateFreshness | internal/router/router.go:729-769 | freshness is judged once per request, with at most one probe, and the memo returns the same judgement |
| RouterModel.EvalState.Fire | internal/router/router.go:363-722 | each rule decides exactly when the table says, with the table's outcome, and otherwise leaves the state the next rule expects |
| RouterModel.EvalState.TTLStaleRule | internal/router/router.go:596-635 | the stale rule refines the table: fallback, permitted stale read, or refusal |
| RouterModel.EvalState.TTLUnknownRule | internal/router/router.go:639-696 | the unknown rule refines the table: configured default, other side unless pinned, or refusal |
| RouterModel.EvalState.PrimaryUnavailableRule | internal/router/router.go:517-571 | the health rule refines the table, including a preference for both sources |
| RouterModel.EvalState.FieldsOpsOnlyRule | internal/router/router.go:434-451 | the operational pin replaces preference and fallback without deciding |
| RouterModel.Select | internal/router/router.go:247-293 | the mutable chain returns the published decision of the first rule of the table that applies, having probed as often as that decision needed |
| RouterSafety.TargetIsAvailable | internal/router/router.go:247-722 | under a validated rule every source in the target is available |
| RouterSafety.UnavailableTargetExactly | internal/router/router.go:701-722 | for any rule, the requests sent to a source that is down: those that reach the last rule with a preference it does not recognise while the operational source is down |
| RouterSafety.DestinationExactly | internal/router/router.go:363-722 | for every request under any rule, in terms of the request alone: when it is refused, sent to the execution source, to both, and so to the operational one, and which rule it names |
| RouterSafety.StaleGoesToTheFallback | internal/router/router.go:611-619 | a stale judgement with another source configured and up is routed to that source |
| RouterSafety.PublishedCeilingExactly | internal/router/router.go:296-330 | the ceiling a decision publishes is the one its rules apply exactly when the rule's own is not negative, or equals the default |
| RouterSafety.FreshnessIsPublished | internal/router/router.go:729-769 | a decision carries a freshness exactly when freshness decided it: the probe's own, or stale without a TTL, or unknown; and it says a probe failed exactly when one was issued and did |
| RouterSafety.PinIsKept | internal/router/router.go:393-451 | fields exclusive to one source give that source or nothing, with no fallback published |
| RouterSafety.PinSurvivesFailure | internal/application/service.go:733-788 | no failure at call time sends such a request to the other source |
| RouterSafety.FallbackIsOneHop | internal/application/service.go:733-788 | a call-time fallback follows an unusable source, reads one other available source, requires it, and has no fallback itself |
| RouterSafety.FallbackIsTheOtherSource | internal/application/service.go:733-759 | over routing and failure together, a fallback exists exactly when one source alone was read, the other is configured and up, and neither fields, cause nor consistency forbid it |
| RouterSafety.StaleReadIsPermitted | internal/router/router.go:596-635 | a stale-rule read of operational data implies the published allowance and a measured age within the ceiling, unless the fallback is operational |
| RouterSafety.CeilingBypassExactly | internal/router/router.go:363-722 | over all eleven rules, the requests routed to the operational source without a measured age within the ceiling, in terms of the request alone |
| RouterSafety.CeilingAtCallTime | internal/application/service.go:733-788 | the requests that can fall to the operational source at call time, in terms of the request alone, and that no measured age vouches for any of them |
| RouterSafety.CeilingBypassed | internal/router/router.go:639-696 | a request under a validated rule with a ceiling and no leave to serve stale data that is sent to the operational source at an unmeasured age |
| RouterSafety.StrongIsLive | internal/router/router.go:491-512 | a strong request issues no probe, is decided by no TTL rule, allows no stale data and has no call-time fallback |
| RouterSafety.AtMostOneProbe | internal/router/router.go:729-769 | no request probes twice, and one that probes is decided by a TTL rule |
| RouterSafety.FreshReadsOperational | internal/router/router.go:576-591 | the fresh rule decides only on a probe that said fresh, and reads the operational source alone |
| RouterSafety.OverlayExactly | internal/config/load.go:540-710 | a tenant overlay of a validated rule keeps its names validated, and breaks the rules on durations, stale serving and consistency exactly when override and base clash |
| RouterSafety.OverlayBreaksARule | internal/config/load.go:592-710 | a validated rule and a validated override whose merge the validator would refuse |
| PrecedenceModel.Resolve | internal/policy/precedence.go:109-179 | the loops compute the composed verdict |
| PrecedenceModel.FirstInOrderIsMinimal | internal/policy/precedence.go:256-269 | the order search returns the eligible candidate ranked first, and nothing only if there is none |
| PrecedenceModel.WinnerIsDeserved | internal/policy/precedence.go:109-179 | the winner is present, the value is its own, and it wins by the set-based reference: override, then non-stale in order, then order |
| PrecedenceModel.NoOfferNoWinner | internal/policy/precedence.go:117-119 | without a present candidate there is no winner |
| PrecedenceModel.ListOrderIsIrrelevant | internal/policy/precedence.go:109-179 | with distinct sources and a ranked candidate, winner and value do not depend on the listing |
| PrecedenceModel.DatesAreIrrelevant | internal/policy/precedence.go:47-54 | the whole verdict is independent of the observation instants |
| PrecedenceModel.ConflictExactly | internal/policy/precedence.go:204-245 | a conflict is reported exactly when two present values do not compare equal, for scalars exactly when two differ |
| PrecedenceModel.ConflictIgnoresListOrder | internal/policy/precedence.go:204-215 | nor does the conflict depend on the listing |
| PrecedenceModel.RejectedExactly | internal/policy/precedence.go:280-288 | the rejected are exactly the sources of the other present candidates |
| AggregationModel.FanOut | internal/aggregation/aggregator.go:93-163 | for every completion order the outcome is one function of the tasks and their errors |
| AggregationModel.WarningsOf | internal/aggregation/aggregator.go:191-209 | one warning per omitted optional task, in task order |
| AggregationModel.WarningsExactly | internal/aggregation/aggregator.go:191-209 | the warnings are one under the source of each optional task that failed other than by NOT_FOUND, as a timeout exactly when it timed out |
| AggregationModel.PartialIffWarned | internal/aggregation/aggregator.go:141-209 | a fan-out is partial exactly when it has warnings |
| AggregationModel.FirstRequiredErrorIsFirst | internal/aggregation/aggregator.go:150-158 | the reported error is the first required failure, present exactly when a required task failed |
| AggregationModel.Merge | internal/aggregation/aggregator.go:255-373 | status, sub-state and customer are the resolved ones, the rest is the operational record's, and provenance, conflicts and warnings follow the verdicts |
| AggregationModel.ProvenanceIsHonest | internal/aggregation/aggregator.go:274-369 | no field is credited to a source that did not answer |
| AggregationModel.MergedStatusExactly | internal/aggregation/aggregator.go:255-320 | the merged status for every policy and all inputs: the record's own unless a known execution status meets an unknown one, overrides while running, or is ranked first or against a stale record |
| AggregationModel.MergedSubStateExactly | internal/aggregation/aggregator.go:322-341 | the merged sub-state by the same choice, with the execution's operation for its value |
| AggregationModel.MergedCustomerExactly | internal/aggregation/aggregator.go:343-356 | the merged customer by the same choice, staleness not held against the record |
| AggregationModel.ProvenanceExactly | internal/aggregation/aggregator.go:274-369 | who is credited with each field, for every policy and all inputs |
| ServiceModel.TargetMissesRequiredFields | internal/application/service.go:997-1022 | the loops find a known field none of whose suppliers is in the target, exactly when there is one |
| ServiceModel.MissesExactly | internal/application/service.go:997-1022 | one source misses the known fields it is not listed for, both together those neither is |
| ServiceModel.Describe | internal/application/service.go:293-384 | an answer is partial or degraded exactly for the stated reasons, each reason has its warning, naming the source that failed at call time or was routed around, and the sources listed are those that answered |
| ServiceModel.EnvelopeIsHonest | internal/application/service.go:802-903 | every envelope marked partial or degraded carries a warning, live, cached or stale-served |
| ServiceModel.StrongIgnoresCache | internal/application/service.go:215-225 | a strong request's outcome does not depend on the cache in any way |
| ServiceModel.HonestyIsEndToEnd | internal/application/service.go:168-204 | honest answers stay honest through both tiers, whatever was written, promoted, evicted or invalidated |
| ServiceModel.LadderExactly | internal/application/service.go:168-204 | over any history of the tiers, the exact conditions of a hit, a remembered "not found" and a stale serve, in terms of the key's last standing write |
| ServiceModel.AnswersAreNotLaundered | internal/application/service.go:802-903 | an answer not from the live load is the key's last write, aged by exactly the time since, with its flags, warnings and provenance, degraded and warned about if it became stale |
| LoadModel.FanOutError | internal/application/service.go:444-529 | a fetch fails exactly with the required source's own error, the operational one's first |
| LoadModel.Fetch | internal/application/service.go:444-593 | whatever order the calls complete in, the inputs are what the sources answered, judged, with the in-flight execution added when it is looked up and running |
| LoadModel.FetchFailsExactly | internal/router/router.go:145-154 | when the first fetch of a request fails and with whose error: a source asked for that refuses fails it unless the rule marks it false |
| LoadModel.FallbackFailsExactly | internal/application/service.go:783-788 | a fallback's fetch fails with its one source, whatever the rule can do without |
| LoadModel.PartialExactly | internal/aggregation/aggregator.go:141-163 | a fetch that succeeds is partial exactly when some call failed other than by NOT_FOUND |
| LoadModel.MissingIsWarned | internal/aggregation/aggregator.go:191-209 | each such call is warned about under its own source |
| LoadModel.DeliveredExactly | internal/application/service.go:442-593 | what a fetch delivers to the merge, over the replies: records asked for and answered, the operational one judged, and the looked-up execution for a record read alone |
| LoadModel.Obtain | internal/application/service.go:245-292 | what is done, call by call, is the specified trace: one fetch, at most one fallback with the original error, the lookup, and the refusal of an empty answer |
| LoadModel.RoutedAroundFailure | internal/application/service.go:301-316 | under a validated rule the source that a routing-time fallback's warning names was down and is not read |
| LoadModel.LoadResource | internal/application/service.go:228-384 | a whole load does what its trace says and ends as it says; its answer is honest, reports the record's freshness, is degraded and partial exactly for the stated reasons with each warned about by name, and lists and credits the sources that answered |
| LoadModel.LoadIsSafe | internal/application/service.go:228-276 | at most two fetches, one if strong; the first of sources that were up, the second of the other single source after a failure that is its source's own |
| LoadModel.LoadFailsExactly | internal/application/service.go:239-292 | the three causes of an error: the router's refusal, a last fetch that failed (with the first failure's code), and an answer with nothing in it |
| LoadModel.LookedUpExactly | internal/application/service.go:557-593 | a load looks an execution up exactly after a successful fetch of a marked operational record alone |
| LoadModel.PinnedLoadExactly | internal/application/service.go:557-593 | a request pinned to the execution source never calls the other; one pinned to the operational source calls the other exactly for the lookup of a marked record |
| LoadModel.StrongLoadExactly | internal/application/service.go:557-593 | exactly when a strong load calls the execution source |
| LoadModel.FetchedStatus | internal/application/service.go:442-593 | the status reported by a fetch that includes the operational source, for every policy, view and lookup |
| LoadModel.LookupOverridesExactly | internal/application/service.go:557-593 | for every policy and record, when an operational-only fetch reports another status than its record's |
| LoadModel.StrongIsAnsweredByAnother | internal/application/service.go:557-593 | a strong request that prefers the operational source and is answered the execution source's status |
| LoadModel.StrongNeedsNoNomination | internal/application/service.go:557-593 | another, under a rule without a TTL and a policy that nominates nothing |
| LoadModel.ViewsDisagreeExactly | internal/application/service.go:442-593 | for every policy, view and lookup, when an operational-only and a both-source fetch of one resource report different statuses |
| LoadModel.ViewsAgreeExactly | internal/application/service.go:442-593 | for a known, non-stale record ranked first with an accurate marker and lookups that succeed, they agree exactly when the view asks for the latest execution or no nominated running execution says otherwise |
| LoadModel.StatusViewsDisagree | internal/application/service.go:487-562 | two reads by the status view under validated rules that report different statuses |
| RetryModel.Do | internal/resilience/retry.go:81-127 | attempts are bounded, continue only after retryable errors, return the last attempt's own error, and the sleeps asked for total less than the budget if each but the last took as long as asked; giving up early on a retryable error has a named cause |
| RetryModel.Loop | internal/resilience/retry.go:90-127 | the loop under any delays: every sleep asked for was affordable when asked for |
| RetryModel.ExponentialGrows | internal/resilience/retry.go:134-142 | the exponential part never decreases and never exceeds the maximum |
| RetryModel.ExponentialDoubles | internal/resilience/retry.go:134-142 | the delays start from the capped base and each is the capped double of the last |
| RetryModel.BackoffInRange | internal/resilience/retry.go:134-152 | each delay lies between the exponential less the configured fraction and the exponential, up to truncation; without a base there is none |
| RetryModel.BudgetIsAShare | internal/resilience/retry.go:155-169 | the budget is the configured ratio of the time left, or all of it, truncated; nothing past the deadline and no limit without one |
| KeyModel.Itoa | internal/cache/cache.go:249-261 | the buffer loop prints the decimal of any non-negative 64-bit integer, within the buffer |
| KeyModel.DecimalReadsBack | internal/cache/cache.go:249-261 | a printed number reads back as itself |
| KeyModel.SanitizeSegment | internal/cache/cache.go:224-247 | an empty segment, a safe one and any other print as stand-in, itself and hash |
| KeyModel.SegmentsPrintAlikeExactly | internal/cache/cache.go:224-247 | two segments print alike exactly when equal, or odd with digests that agree where printed, or one is spelled like the other's digest |
| KeyModel.SpelledLikeADigest | internal/cache/cache.go:241-245 | every odd segment has such a spelling |
| KeyModel.KeyString | internal/cache/cache.go:151-172 | the builder renders the documented layout |
| KeyModel.CleanLayout | internal/cache/cache.go:145-172 | the documented layout, character by character, for segments that print as themselves |
| KeyModel.TenantPrefixIsExact | internal/cache/cache.go:174-182 | a key starts with a tenant's prefix exactly when its tenant segment prints like that tenant |
| KeyModel.KeysPrintAlikeExactly | internal/cache/cache.go:145-172 | two keys of one prefix print alike exactly when each of their segments does and their variants have one digest |
| KeyModel.CleanKeysAreUnique | internal/cache/cache.go:145-172 | a key without variants whose segments are empty or safe and not hash-shaped prints like no other key of its prefix |

## Left out

- gRPC and REST adapters, HTTP handlers, middleware, authentication, configuration loading and metrics: transport and plumbing around the modelled code.
- The Redis client: L2 is a map with expiry whose operations succeed; its lock, its SCAN loop with glob matching and the JSON encoding are not modelled.
- `singleflight`, early background refresh and the lookup that only labels the cache layer (internal/cache/manager.go:223-281, 384-460).
- Deep copying of entries (`cloneEntry`): entries are values, so aliasing between a caller and the cache is not expressible.
- Caching of a "not found" by the request path: the manager's operation is modelled, its call from a failed request is not.
- Several clock readings inside one lock-protected section: each step reads the clock once.
- Delivery order of transition hooks: the hook runs outside the lock, so concurrent deliveries may be reordered; the model reports within the step.
- Panics inside the called function, and cancellation of contexts other than where the retry loop and the bulkhead look at them.
- The disabled bulkhead and the default of one slot for a bulkhead configured with fewer.
- Spelling of source names in configuration: case and blanks are abstracted to canonical names and aliases.
- Human-readable reasons and messages, per-source timeouts, durations and correlation ids in decisions and envelopes.
- The completeness ratio and the projected payload of a merged record are inputs of `LoadModel.LoadResource`; a failure to encode the payload, and the execution endpoints, which carry no flags, are not modelled.
- RetryModel.BackoffInRange: does not model floating-point rounding, because fractions are reals.
- KeyModel.SanitizeSegment: does not model SHA-256 itself, nor collisions between two hashed segments.
- Replicas.BoundedStaleness: assumes that writes to L2 succeed, as the staleness of a value that never reached L2 has no reference.
