# What keeps the fleet converging

The control plane decides what every host and every AdGuard server should look like, and an agent
on each host makes it so. This project models the parts both sides rely on for that to end: the
canonical text whose hash they compare, the agent's desired-state protocol, the reconciliation of a
remote server that may fail after any call, and the stores, limits and locks around them. Each
property is proved for all inputs, all interleavings or all runs; where the code does not keep a
promise, the exact condition under which it does is proved and the failing case is exhibited.

`dafny verify dfyconfig.toml` checks everything.

| file | models |
|---|---|
| `Utf8.dfy`, `SortedKeys.dfy` | UTF-8 as RFC 3629 defines it, its order theorem, sorted keys |
| `Json.dfy`, `Parser.dfy`, `RawText.dfy`, `ParserSound.dfy`, `Canon.dfy` | both canonical printers, the JSON grammar of RFC 8259 and a decoder for it, `canon.Canonical` |
| `Manager.dfy`, `ManagerRuns.dfy` | the agent's manager as interleaved atomic steps, and what whole runs of it store, write and apply |
| `Sync.dfy`, `Upstreams.dfy`, `ServerLocks.dfy` | one reconciliation pass, the upstream syntax, the per-server locks |
| `Telemetry.dfy`, `Series.dfy` | the sample store over unbounded runs, chart buckets |
| `RateLimit.dfy` | the sliding-window limiter |
| `Ipvs.dfy`, `IpvsAgreement.dfy`, `IpvsCounters.dfy` | the two IPVS readers, and the three listings read one after another |
| `Drains.dfy`, `DrainFailures.dfy`, `DrainRace.dfy` | drains on a director: operations one at a time, with failing converges too, and drain calls that overlap converges and each other |
| `ReadCache.dfy`, `Updater.dfy`, `Swap.dfy`, `SwapRace.dfy` | the single-flight cache, the upgrade scheduler, the container swap alone and any number of swaps in any interleaving |
| `Words.dfy`, `Options.dfy` | text splitting and numerals, a missing value |

Code that works step by step is modelled as classes and methods (`Canon.Buffer`, `Manager.Entry`,
`RateLimit.RateLimiter`, `Sync.Server`, `Telemetry.Table`, `Drains.Role`, `Swap.Host`,
`ReadCache.Cache`, the two IPVS readers, the loops of the parsers), each proved equal to a function,
and the theorems are about those functions. Protocols are state machines whose actions are the
stretches of code between two points where another thread or task may run; only `Drains` and
`DrainFailures` take whole operations as actions, one at a time, and `DrainRace` takes them apart.
Remote calls, commands and file writes succeed or fail arbitrarily.

What was found false, each with its exact condition:

- A converge that reports "ready" may have applied an older spec: `ManagerRuns.DoneIsCurrentIffNotOvertaken`, `ManagerRuns.ReadyBesideOlderHash`.
- The control plane may see in_sync from a process that has not finished a converge yet: `Manager.InSyncIsHonest`, `Manager.RestoredReportsInSync`.
- Overlapping PUTs can leave disk and memory naming different specs: `ManagerRuns.PutsAgreeIff`, `ManagerRuns.OverlappingPutsCanDisagree`.
- Text after a JSON value is accepted when it begins with `]` or `}`: `Canon.TrailingBracketAccepted`.
- A pass reports in sync although the blocked services differ, when reading them failed: `Sync.ReportWrongIff`, `Sync.SwallowedErrorReportsInSync`.
- A server with the right private resolvers, but switched off, is reported in sync and never switched on: `Sync.PrivateTakesEffectIff`, `Sync.PrivateSwitchUnread`, `Sync.SwitchedOffReportsInSync`.
- Two filter rows that disagree about one URL never settle: the fixpoint clause of `Sync.ApplyPlan`, `Sync.UnsettledNeverInSync`.
- An hour straddling the retention floor gets a second 1h row: `Telemetry.SecondRowIff`, `Telemetry.SecondRowHappens`. Passes too far apart lose samples: `Telemetry.LatePassLosesIff`, `Telemetry.LossHappens`.
- The limiter's bound needs a lockout at least as long as the window: `RateLimit.BoundHoldsIff`, `RateLimit.BurstBreaksBound`.
- The two IPVS readers order services alike only if no service is listed twice, `IpvsAgreement.SourcesAgree`, and count the destinations of a firewall-mark service as those of the service listed before it: `IpvsAgreement.SourcesReadTheKernel`, `IpvsAgreement.AttributedIsListedIff`. A destination that both list has the firewall-mark service's numbers: `IpvsAgreement.SharedTakesMarked`, `IpvsAgreement.SharedKeepsIff`.
- Renaming a drained backend strands it at weight 0, because the rendered file has no names in it and keepalived is not restarted; and a drain forgotten with its backend returns from `drained.json` with the next agent process: `Drains.StepKeepsIff`, `Drains.RenameStrandsBackend`, `Drains.ForgottenDrainReturns`.
- A failed restart that leaves the older keepalived running is never made up for by the retries, which succeed; every other failure is: `DrainFailures.RecoversIff`, `DrainFailures.FailedRestartStays`, `DrainFailures.WeightNeverArrives`.
- An undrain during a converge's re-application can leave the backend at weight 0 with nothing drained, for good, and a drain during a restart can leave it in service until the next converge: `DrainRace.OverlapRightIff`, `DrainRace.NextConvergeMendsIff`, `DrainRace.UndrainedInSnapshot`, `DrainRace.LostUndrainStays`, `DrainRace.DrainedAcrossRestart`.
- Two drain calls at once can leave the weights, the memory and `drained.json` disagreeing with no converge near: `DrainRace.OverlapRightIff`, `DrainRace.FileAgreesIff`, `DrainRace.OverlappingCallsCross`.
- Clearing the cache during a load does not drop the value being loaded: `ReadCache.SingleFlight`, `ReadCache.ClearMissesLoadInFlight`.
- An upgrade may start after its maintenance window closed, when it waits for its permit: `Updater.AttemptInWindowIff`, `Updater.AttemptOutsideWindow`.
- A failed upgrade backs off only if the box was reached and named the release the control plane knows: a pass looks at the known release, an attempt is recorded under the one the box names. While another release is known, the very release that failed is attempted again by every pass; and after an attempt picked for another, once it is known again: `Updater.RecordBacksOffIff`, `Updater.BlockedDueIff`, `Updater.EarlyRetryFollowsAnother`, `Updater.StaleReleaseNeverBacksOff`, `Updater.FlippedReleaseIsRetriedEarly`, `Updater.UncheckedIsRetriedAtOnce`.
- A forward zone reads back only without slashes in its domains and without a later domain beginning with `]`: `Upstreams.ReadsBackIff`.
- A container swap can remove the serving container before its replacement answered: the first command of another swap, beside it or after one whose rollback failed, or the last command of a swap that has answered already: `SwapRace.OriginalLostIff`, `SwapRace.TwoSwapsLoseOriginal`, `SwapRace.SerialSwapsLoseOriginal`, `SwapRace.AnsweredSwapLosesServing`.

## Model

| member | source | states |
|---|---|---|
| Utf8.EncodeOrder | agent/internal/canon/canon.go:85-90 | comparing UTF-8 bytes orders two texts exactly as comparing code points does (RFC 3629 section 1) |
| Utf8.EncodeInjective | backend/app/pki.py:206-207 | different texts have different UTF-8 bytes |
| Utf8.RunesOfEncode | agent/internal/canon/canon.go:110-137 | ranging over the bytes of a valid text gives back its code points |
| SortedKeys.SortedUnique | agent/internal/canon/canon.go:85-90 | two sorted listings of one key set are equal, so any correct sort gives the same text |
| SortedKeys.EncodedSortAgrees | backend/app/pki.py:201-203 | Go's byte-wise sort and Python's code-point sort list every set of keys in the same order |
| Json.PrintersAgree | backend/app/pki.py:201-207 | both printers emit the same bytes for every spec of objects, arrays, strings, integers, booleans and null |
| Json.QuotesAgree | agent/internal/canon/canon.go:110-137 | every string is quoted and escaped alike on both sides |
| RawText.ParsePrinted | agent/internal/canon/canon.go:18-24 | reading any text of the RFC 8259 grammar, whatever its white space, escapes (hex digits in either case, surrogate pairs) and member order, yields its meaning and stops where it ends |
| RawText.HexReads | agent/internal/canon/canon.go:18-24 | the four hex digits of any number below 0x10000, each in either case, read as that number |
| ParserSound.ParsedIsRendered | agent/internal/canon/canon.go:18-24 | conversely whatever the decoder accepts is such a text of the value it gives, but for lone surrogates and bytes that are no UTF-8, which become U+FFFD |
| ParserSound.AcceptedIsRendered | agent/internal/canon/canon.go:18-33 | so nothing but a JSON text is hashed, and what is hashed is its meaning |
| ParserSound.NumberIff | agent/internal/canon/canon.go:18-24 | a number is exactly an optional minus, digits without a leading zero, and optionally a fraction and an exponent |
| ParserSound.LastMemberCounts | agent/internal/canon/canon.go:18-24 | of members with one key the last counts |
| ParserSound.AsciiTextArrives | backend/app/pki.py:206-207 | any text escaped throughout as `\uXXXX` and surrogate pairs is hashed over the bytes the control plane hashes |
| Canon.ParsedIsDecoded | agent/internal/canon/canon.go:18-24 | decoding only yields numbers of the grammar and valid UTF-8, whatever the input bytes |
| Canon.RenderingIrrelevant | agent/internal/canon/canon.go:18-33 | the canonical text depends only on what the raw text means: order, white space and escapes do not matter |
| Canon.CanonicalParsesBack | agent/internal/canon/canon.go:54-107 | parsing the canonical text of a value gives the value and leaves what follows it |
| Canon.PrefixFree | agent/internal/canon/canon.go:54-107 | no canonical text is the beginning of another; only a number needs a delimiter |
| Canon.CanonicalInjective | agent/internal/canon/canon.go:54-107 | equal canonical texts mean equal values, and conversely |
| Canon.CanonicalIdempotent | agent/internal/canon/canon.go:18-33 | re-canonicalising changes nothing |
| Canon.TrailingBracketAccepted | agent/internal/canon/canon.go:25-27 | data after the value, white space between them or not, is refused exactly when it does not begin with a closing bracket |
| Canon.ToGoInjective | backend/app/pki.py:201-207 | specs that look alike to the agent are the same spec |
| Canon.WireAgreement | backend/app/pki.py:206-207 | whatever JSON text carries a spec, the agent hashes the same bytes as the control plane |
| Canon.SpecIdentity | backend/app/pki.py:201-207 | two specs have the same canonical bytes exactly when they are equal |
| Canon.CanonicalTextIsFixed | backend/app/pki.py:201-207 | sending the canonical text itself arrives unchanged |
| Canon.WriteString | agent/internal/canon/canon.go:110-137 | the loop over runes appends exactly the quoted string |
| Canon.SortStrings | agent/internal/canon/canon.go:85-90 | the keys come out in byte order, each once |
| Canon.CollectKeys | agent/internal/canon/canon.go:85-90 | in whatever order the map is ranged over, the collected keys are its keys |
| Canon.EncodeValue | agent/internal/canon/canon.go:54-107 | the recursive writer appends exactly the canonical text of the value |
| Canon.EncodeObject | agent/internal/canon/canon.go:84-104 | members are written in byte order of their keys |
| Canon.Canonicalize | agent/internal/canon/canon.go:18-33 | decode, check for more, encode: the bytes or the error the specification gives |
| Manager.PutStoreKeeps | agent/internal/roles/manager.go:145-151 | storing a spec keeps hash, phase and history consistent, and leaves a signal outstanding |
| Manager.PutSignalKeeps | agent/internal/roles/manager.go:152-158 | after the non-blocking send the spec is never forgotten, whether a token was pending or not |
| Manager.ResetStepKeeps | agent/internal/roles/manager.go:222-235 | every step of a reset keeps the invariants: the emptied hash is explained, a wipe never overlaps a converge, and the loop will be woken |
| Manager.LoopWorkKeeps | agent/internal/roles/manager.go:276-315 | reading the spec, reporting, failing and succeeding keep the invariants; only a success changes which spec AppliedHash stands for |
| Manager.StepKeeps | agent/internal/roles/manager.go:129-315 | every atomic step of PUTs, resets, the loop and restarts keeps all invariants |
| Manager.ReachableInv | agent/internal/roles/manager.go:101-315 | in every interleaving: no wakeup is lost, DesiredHash is the stored spec's, AppliedHash is the restored, emptied or last converged one, a wipe never overlaps a converge |
| Manager.IdleMeansPickedUp | agent/internal/roles/manager.go:261-274 | an idle loop with no PUT about to signal has read the current spec |
| Manager.QuietRunConverges | agent/internal/roles/manager.go:276-315 | the next successful converge begun after the last PUT leaves AppliedHash equal to DesiredHash, for good |
| Manager.InSyncIsHonest | backend/app/hosts.py:666-722 | whenever in_sync is computed, a converge running or not, the last successful converge of the process was of exactly the planned spec, or none has finished yet and the restored hash is the plan's while the first one runs |
| Manager.AppliedHashesAreEarned | agent/internal/roles/manager.go:222-315 | over any run from a first boot, restarts included, every applied hash in memory, on disk and in a pending save is none, the one on disk at first, or that of a spec whose converge succeeded |
| Manager.InSyncWasConverged | backend/app/hosts.py:666-722 | so in_sync means that a converge of a spec with the plan's canonical text once succeeded, in this process or an earlier one, unless its hash was on disk at first |
| Manager.ConvergeSaves | agent/internal/roles/manager.go:288-314 | a converge's completed save leaves its own hash on disk after a success, and the hash that was applied before after a failure, whatever happens meanwhile |
| Manager.ResetSaves | agent/internal/roles/manager.go:226-233 | a reset's completed save leaves none |
| Manager.ClearFollowsWipe | agent/internal/server/server.go:234-249 | only after its wipe succeeded does a reset forget the applied hash |
| Manager.RestoredReportsInSync | agent/internal/roles/keepalived/keepalived.go:497-501 | that second case is reachable, whatever spec is being converged |
| ManagerRuns.DoneIsCurrentIffNotOvertaken | agent/internal/roles/manager.go:276-309 | from its read to its success, a converge leaves the hashes equal exactly when no PUT was stored meanwhile or the last one has the hash it read; the phase does not show it |
| ManagerRuns.ReadyBesideOlderHash | agent/internal/roles/manager.go:297-305 | a reachable state is "ready" with an older applied hash |
| ManagerRuns.HashKeptIff | backend/app/hosts.py:675-699 | a step keeps the desired hash exactly when it stores no other and, a restart, finds this one on disk |
| ManagerRuns.StoredPlanIsNotPushedAgain | backend/app/hosts.py:675-699 | once the agent stored any text of the plan, the push rule does not fire after any run of such steps |
| ManagerRuns.AgreeingDiskLoadsHash | agent/internal/roles/manager.go:101-126 | a restart finds the hash whenever disk and memory agree |
| ManagerRuns.BootAgreesIff | agent/internal/roles/manager.go:101-126 | a process starts with agreeing disk and memory exactly when it accepts what it finds |
| ManagerRuns.PutsAgreeIff | agent/internal/roles/manager.go:142-151 | after PUTs overlapping in any way, disk and memory name the same spec exactly when the last file write and the last store were of one text |
| ManagerRuns.SerialPutsAgree | agent/internal/roles/manager.go:142-151 | with PUTs one at a time they agree whenever none is under way, restarts included |
| ManagerRuns.OverlappingPutsCanDisagree | agent/internal/roles/manager.go:142-151 | two overlapping PUTs of different texts can leave them disagreeing, from any state |
| Sync.ReconcileRewrites | backend/app/sync.py:368-386 | aborted after any call it enlarges neither the missing nor the extra keys and removes no desired key; complete, it leaves exactly the desired keys, or the union without prune |
| Sync.ReconciledIsFixpoint | backend/app/sync.py:368-386 | after a complete pass the next one finds nothing to add or delete |
| Sync.CompleteReconciles | backend/app/sync.py:370-386 | all adds and all deletes together reach the desired keys, also when several rewrites share a key |
| Sync.ReconcileUpstreams | backend/app/sync.py:397-411 | after a call that answers, every planned list that is not empty has exactly the planned addresses on the server, and the report says changed exactly when that did not hold before; lists not planned are left alone |
| Sync.PushedIsFixpoint | backend/app/sync.py:397-411 | after the push no list differs, and the lists not pushed are as before |
| Sync.ListsMatchIff | backend/app/sync.py:399-402 | the payload is empty exactly when every planned list that is not empty is on the server with just its addresses |
| Sync.RewritesInSyncIff | backend/app/sync.py:368-381 | nothing is added or deleted exactly when every planned rewrite is there under its key and, with prune, no other |
| Sync.ReconcileList | backend/app/sync.py:267-292 | one kind of filter list: reports a change exactly when out of sync, ends in sync when no two rows disagree, leaves a list in sync alone, drops no list that is asked for even when aborted, touches nothing of the other kind |
| Sync.InconsistentNeverInSync | backend/app/sync.py:271-287 | rows that disagree about one URL are in sync with no server state |
| Sync.ReconcileServices | backend/app/sync.py:300-315 | with prune exactly the planned services are blocked, without it those and what was; an error is swallowed, and only an error of the reading call hides that there was something to do |
| Sync.ApplyPlan | backend/app/sync.py:319-454 | a whole pass: abort safety, a dry run writes nothing and reports the same, in_sync is exactly what could be read being in sync, a server in sync is left alone even by a failing pass, nothing asked for is dropped, and the next pass has nothing to do exactly when no rows disagree |
| Sync.ReportWrongIff | backend/app/sync.py:300-315 | a pass reports in sync wrongly exactly when only the blocked services differ and the call that reads them failed |
| Sync.SwallowedErrorReportsInSync | backend/app/sync.py:300-315 | a plan and a server where that happens |
| Sync.PrivateTakesEffectIff | backend/app/sync.py:397-409 | after any number of passes with one complete, the private resolvers are on exactly when they were on at the start or their list differed then |
| Sync.PrivateSwitchUnread | backend/app/sync.py:397-411 | no report depends on whether they are switched on |
| Sync.SwitchedOffReportsInSync | backend/app/sync.py:402-405 | a plan and a server in sync with its private resolvers off |
| Sync.PassesOnlyImprove | backend/app/sync.py:319-454 | over any number of passes cut short anywhere, the missing and the extra keys only shrink, no list asked for is dropped and nothing is removed without prune; from the first complete pass on the rewrites stay in sync |
| Sync.TwoPasses | backend/app/sync.py:319-454 | after a complete pass the second changes nothing on the server, even if it fails, and reports in sync, exactly when the plan settles |
| ServerLocks.Exclusion | backend/app/sync.py:594-630 | under every interleaving of reconciles and upgrades: one task per server inside, none ever parked on a server lock, at most `limit` servers in flight per call |
| ServerLocks.EntersIff | backend/app/updater.py:226-242 | a task goes inside exactly when no other is inside for its server, and is skipped otherwise |
| ServerLocks.LimitAsAsked | backend/app/sync.py:667-677 | at every moment a call's free permits and its servers in flight make up what it asked for, or one |
| ServerLocks.NeverStuck | backend/app/sync.py:667-677 | while a task is left, some task can move |
| ServerLocks.StepKeeps | backend/app/updater.py:226-242 | permits are conserved and a lock is held by exactly the one inside |
| ServerLocks.LockTable.LockFor | backend/app/sync.py:581-590 | a server's lock is made once, never replaced, never shared |
| Telemetry.Table.Rollup | backend/app/telemetry.py:283-312 | the loops add exactly one row per entity and hour with due samples, over all of those and no others |
| Telemetry.DueIff | backend/app/telemetry.py:289-306 | a 1m row is due exactly when it is within the retention, before the running hour, and no 1h row within the retention is for its entity and hour |
| Telemetry.GroupOfIff | backend/app/telemetry.py:302-304 | a sample's group is its kind, its entity and the 3_600_000_000 microseconds it lies in |
| Telemetry.AddedRowsCover | backend/app/telemetry.py:299-312 | every added row starts on the hour, summarises all due samples of its kind and entity from there to the next hour, and none is left out |
| Telemetry.KeepMinutesCount | backend/app/telemetry.py:315-319 | prune keeps a 1m row, as often as it is there, exactly when its time is at or after the cut |
| Telemetry.KeepHoursCount | backend/app/telemetry.py:320-323 | and a 1h row by its own cut |
| Telemetry.SummaryConserves | backend/app/telemetry.py:278-312 | a 1h row counts all due samples of its kind, entity and hour, and mean times count is their sum |
| Telemetry.SecondRowIff | backend/app/telemetry.py:290-306 | a pass adds a second 1h row for an hour exactly when it starts below the floor and still has a 1m row above it; never for an hour at or after the floor |
| Telemetry.SecondRowHappens | backend/app/telemetry.py:266-323 | with seven days of retention, a run from the empty database with passes close enough to lose nothing ends with two rows for one hour |
| Telemetry.EverySampleIsCounted | backend/app/telemetry.py:266-323 | over any run whose passes are at most the retention minus one hour apart, every sample no longer stored was counted, in a 1h row of its own entity and hour |
| Telemetry.EverySampleIsCountedFromStart | backend/app/telemetry.py:266-323 | in particular over every such run from an empty database |
| Telemetry.PassKeeps | backend/app/telemetry.py:283-323 | rollup followed by prune keeps the no-loss invariant |
| Telemetry.LatePassLosesIff | backend/app/telemetry.py:283-323 | however late it comes, a pass loses a sample exactly when a stored one is below the retention floor and its hour was not complete at the pass before |
| Telemetry.LossHappens | backend/app/telemetry.py:266-323 | for every retention a run from the empty database, with two due passes an hour more than the retention apart, loses a sample without any 1h row for it |
| Series.StepDividesSpan | backend/app/telemetry.py:329-340 | for every range name the chosen step divides the span |
| Series.PointCount | backend/app/telemetry.py:368-371 | for every range and end time there are exactly span/step points, spaced by step, ending at the end's bucket |
| Series.OnePointEach | backend/app/telemetry.py:363-371 | a sample is drawn in exactly one point, or in none when it precedes the first bucket |
| Series.BucketIs | backend/app/telemetry.py:364-371 | a bucket starts on a multiple of its step and holds the times of the step after it |
| Series.ChartShape | backend/app/telemetry.py:329-340 | each span's step, number of points and resolution |
| Series.SpansAre | backend/app/telemetry.py:329-334 | the named spans; any other name is a day |
| Series.PointOfOne | backend/app/telemetry.py:372-382 | a point of one entity is its mean |
| Series.RateAdds | backend/app/telemetry.py:372-382 | another entity's mean is added to a rate |
| Series.AverageAdds | backend/app/telemetry.py:372-382 | while avg_ms is averaged over the entities that have it |
| Series.ReportingAdds | backend/app/telemetry.py:383 | another entity reports exactly when it was online in at least half of its samples |
| Series.RepeatedSampleWeighsNothing | backend/app/telemetry.py:372-382 | repeating an entity's equal sample leaves a point unchanged |
| Series.RepeatedSampleReportsNothing | backend/app/telemetry.py:383 | nor does it change how many entities report |
| Series.Build | backend/app/telemetry.py:343-386 | the rows of the resolution, kind, entities and time asked for are bucketed, and every point of the axis has for each field the sum or mean of the entities' means, and the number reporting |
| Series.ByBucket | backend/app/telemetry.py:363-367 | the dict of buckets holds every row once, in order, under its own bucket |
| RateLimit.WaitIsEnough | backend/app/ratelimit.py:37-49 | waiting the announced seconds is always enough, and never more than a second too long |
| RateLimit.RateLimiter.RetryAfter | backend/app/ratelimit.py:37-49 | answers for its key and drops an expired lockout, leaving other keys alone |
| RateLimit.RateLimiter.RecordFailure | backend/app/ratelimit.py:51-61 | the popleft loop and the lockout, one key only |
| RateLimit.RateLimiter.RecordSuccess | backend/app/ratelimit.py:63-66 | the key's failures are forgotten |
| RateLimit.DequeRefinesHistory | backend/app/ratelimit.py:37-66 | over any run of checks, failures and successes the pruned deque answers as counting the whole history since the last clear would |
| RateLimit.BoundHoldsIff | backend/app/ratelimit.py:51-61 | no window-long interval ever holds more than max_attempts failures, over all runs, exactly when the lockout is at least the window or the window is empty |
| RateLimit.RecordedInWindows | backend/app/routers/auth.py:52-67 | with check and record done together every window keeps the bound |
| RateLimit.BurstBreaksBound | backend/app/ratelimit.py:51-61 | with a shorter lockout a burst breaks it |
| Upstreams.Dedupe | backend/app/sync.py:129-136 | the result has no repeats and is everything that came in, in order of first appearance |
| Upstreams.DesiredUpstreamsForServer | backend/app/sync.py:139-166 | scoped plain addresses, then one line per forward zone with domains and upstreams |
| Upstreams.DesiredListedIff | backend/app/sync.py:139-166 | an entry is in the list exactly when an enabled general row that reaches the server has it, or an enabled forward zone that does renders to it; each once, addresses first |
| Upstreams.AddressListedIff | backend/app/sync.py:139-149 | and an address of any kind exactly when an enabled row of that kind reaching the server has it |
| Upstreams.TokensOfJoined | backend/app/sync.py:151-164 | domains and upstreams of a zone may be separated by commas or blanks |
| Upstreams.ParseUpstreams | backend/app/routers/servers.py:36-58 | the loop computes the line-by-line reading |
| Upstreams.PlainList | backend/app/routers/servers.py:61-68 | the tokens not beginning with a bracket, each once |
| Upstreams.PlainListIff | backend/app/routers/servers.py:61-68 | exactly the tokens that do not begin with a bracket |
| Upstreams.CommentsAddNothing | backend/app/routers/servers.py:42-46 | blank lines and comments add nothing |
| Upstreams.ZoneLineReads | backend/app/routers/servers.py:36-58 | a rendered zone line is read as its domains and upstreams |
| Upstreams.ReadsBackIff | backend/app/sync.py:151-164 | it reads back exactly when no domain holds a slash and none but the first begins with `]` |
| Upstreams.DedupeIrrelevant | backend/app/sync.py:129-136 | leaving out repeated lines never changes what any list parses to |
| Upstreams.GroupedIs | backend/app/routers/servers.py:49-53 | zones with equal domains are merged: each address once, in order |
| Upstreams.UpstreamsRoundTrip | backend/app/sync.py:147-166 | parsing the rendered list gives back the addresses without repeats and the zones merged by domains |
| Upstreams.PlainAddressesReturn | backend/app/sync.py:139-149 | for single addresses beginning with neither # nor [ the plain part is the rendered address list itself |
| Ipvs.ParseProcIPVS | agent/internal/roles/keepalived/procipvs.go:23-68 | the loop with its current service computes the line-by-line reading of /proc/net/ip_vs |
| Ipvs.ParseListing | agent/internal/roles/keepalived/ipvsadm.go:44-99 | likewise for `ipvsadm -Ln` in its three kinds, merging into what was read before |
| Ipvs.DecodesToText | agent/internal/roles/keepalived/procipvs.go:70-89 | the kernel's hex address and port decode to the text ipvsadm prints |
| Ipvs.DecodesV6 | agent/internal/roles/keepalived/procipvs.go:70-89 | sixteen bytes in brackets decode to their text in brackets |
| Ipvs.BigNumOfDecimal | agent/internal/roles/keepalived/ipvsadm.go:101-118 | a printed integer reads back as itself |
| Ipvs.BigNumAbbreviated | agent/internal/roles/keepalived/ipvsadm.go:101-118 | K, M and G stand for thousands, millions and billions |
| Ipvs.FractionReads | agent/internal/roles/keepalived/ipvsadm.go:113-118 | and digits after a point for their fraction |
| Ipvs.KeyInjective | agent/internal/roles/keepalived/ipvsadm.go:54-58 | different services have different keys |
| Words.LayoutIrrelevant | agent/internal/roles/keepalived/procipvs.go:27-28 | splitting into lines and fields gives the words back however the columns are padded |
| IpvsAgreement.SourcesAgree | agent/internal/roles/keepalived/procipvs.go:10-68 | for every IPv4 table, firewall-mark services included, any heading and any padding both readers build the same services, and the same order exactly when no service is listed twice |
| IpvsAgreement.SourcesReadTheKernel | agent/internal/roles/keepalived/ipvsadm.go:41-99 | for distinct services both give the table itself: order, destinations, weights, connections, with the destinations of a firewall-mark service under the service before it, and of rows for one destination the last |
| IpvsAgreement.LastRowCounts | agent/internal/roles/keepalived/procipvs.go:50-66 | of the rows of a service for one destination the last one's weight and counts are reported |
| IpvsAgreement.InOrderOnce | agent/internal/roles/keepalived/procipvs.go:50-66 | every destination of a service is listed once, in order of first appearance |
| IpvsAgreement.SharedKeepsIff | agent/internal/roles/keepalived/procipvs.go:41-66 | a destination keeps its own service's weight and counts exactly when the firewall-mark service after it does not list it, or lists it with the same |
| IpvsAgreement.SharedTakesMarked | agent/internal/roles/keepalived/procipvs.go:41-66 | otherwise it is reported with those of the firewall-mark service |
| IpvsAgreement.AttributedIsListedIff | agent/internal/roles/keepalived/ipvsadm.go:53-70 | every service has just its own destinations exactly when no firewall-mark service with destinations follows a listed one |
| IpvsAgreement.ColumnsAreCounted | agent/internal/roles/keepalived/ipvsadm.go:76-96 | from each listing a destination takes its own columns: weight and connections, or connections, packets and bytes in, or their rates |
| IpvsCounters.ListingsReadAll | agent/internal/roles/keepalived/keepalived.go:666-675 | reading the plain listing, the statistics and the rates of one table gives every distinct service its own destinations, each with all its own numbers |
| IpvsCounters.EachGrows | agent/internal/roles/keepalived/ipvsadm.go:44-98 | a listing updates every distinct service by its own rows only |
| Drains.Role.SetWeight | agent/internal/roles/keepalived/keepalived.go:846-862 | on success the backend has the weight on every port and protocol; on failure only its own weights moved |
| Drains.Role.SetDrained | agent/internal/roles/keepalived/keepalived.go:864-892 | each error case, and what is changed when a command or the file write fails |
| Drains.Role.ReapplyDrains | agent/internal/roles/keepalived/keepalived.go:903-920 | drained backends are back at 0 and unknown names forgotten in memory only; after a failure every weight is old or 0 |
| Drains.Role.Converge | agent/internal/roles/keepalived/keepalived.go:435-503 | when every command succeeds the new state is the specified one; an error leaves one of four states; a failed re-application is not an error |
| Drains.AfreshIsRight | agent/internal/roles/keepalived/keepalived.go:471-502 | a converge that restarts keepalived leaves every weight right |
| Drains.UnchangedRightIff | agent/internal/roles/keepalived/keepalived.go:472-502 | one that does not restart it does so exactly when no drained backend hands its address to another name |
| Drains.RenderSameIff | agent/internal/roles/keepalived/keepalived.go:313-384 | the rendered file stays the same exactly when nothing but the backends' names changed |
| Drains.DrainSurvivesRestart | agent/internal/roles/keepalived/keepalived.go:879-891 | a new process comes up with the drains of the last completed call |
| Drains.StepKeepsIff | agent/internal/roles/keepalived/keepalived.go:435-920 | one at a time, each successful operation keeps the drain invariant exactly under a condition on the specs and the two drained sets |
| Drains.WeightsFollowDrains | agent/internal/roles/keepalived/keepalived.go:435-920 | after any run of such operations, one at a time, a backend weighs 0 everywhere exactly when drained or specified so, and memory is within the file |
| Drains.RenameStrandsBackend | agent/internal/roles/keepalived/keepalived.go:361-384 | renaming a drained backend leaves it at weight 0 with nothing drained |
| Drains.ForgottenDrainReturns | agent/internal/roles/keepalived/keepalived.go:134-143 | a drain dropped from memory comes back with the next process |
| Drains.BothAreReached | agent/internal/roles/keepalived/keepalived.go:435-920 | both situations are reached by successful operations |
| DrainFailures.ConvergeFromAnyIff | agent/internal/roles/keepalived/keepalived.go:471-502 | from any state at all, a successful converge leaves everything right exactly when keepalived will be restarted or already runs what the file says at the right weights |
| DrainFailures.RecoversIff | agent/internal/roles/keepalived/keepalived.go:474-497 | which failed converges the next successful one mends |
| DrainFailures.RetriesNeverRestart | agent/internal/roles/keepalived/keepalived.go:474-492 | while keepalived runs something other than what the file says, a converge that finds its own text in the file, however often it succeeds, does not restart it |
| DrainFailures.FailedRestartStays | agent/internal/roles/keepalived/keepalived.go:474-492 | after a failed restart of a changed file that leaves keepalived running, every retry succeeds and it keeps the old configuration |
| DrainFailures.WeightNeverArrives | agent/internal/roles/keepalived/keepalived.go:474-492 | a new weight lost that way |
| DrainFailures.HarmfulFailureIff | agent/internal/roles/keepalived/keepalived.go:474-492 | the retry is right exactly when the failure did not leave keepalived running another file |
| DrainFailures.WeightsFollowDrainsThroughFailures | agent/internal/roles/keepalived/keepalived.go:435-920 | over any run of operations one at a time, converges failing and drains after them included, but for that failure and for renames of drained backends, the drain invariant holds whenever the last converge succeeded |
| DrainRace.StepConsistent | agent/internal/roles/keepalived/keepalived.go:846-920 | whatever overlaps or fails, every weight is what the last command on its slot set |
| DrainRace.OverlapRightIff | agent/internal/roles/keepalived/keepalived.go:864-920 | any number of drain calls and converges overlapping and failing in any way: at every moment the weights are right exactly when, on every slot of a backend that weighs anything, the last command and the last mark of the backend's name agree |
| DrainRace.LoneCallsRightIff | agent/internal/roles/keepalived/keepalived.go:864-920 | with drain calls one at a time beside converges, only slots whose last command was a converge's can be wrong when the last call has ended, and those are exactly when that command and the last mark disagree |
| DrainRace.FileAgreesIff | agent/internal/roles/keepalived/keepalived.go:879-891 | after any such run `drained.json` and the memory name the same of the spec's backends exactly when the last file write and the last mark were of the same ones |
| DrainRace.SerialFileAgrees | agent/internal/roles/keepalived/keepalived.go:879-891 | with calls one at a time they do whenever none is under way |
| DrainRace.InvStarts | agent/internal/roles/keepalived/keepalived.go:435-920 | every state that the one-at-a-time invariant allows is a start of such runs, with its weights right |
| DrainRace.QuietRunRight | agent/internal/roles/keepalived/keepalived.go:435-503 | with no step of a drain call in between and no failure, the table is right whenever the converges rest |
| DrainRace.NextConvergeMendsIff | agent/internal/roles/keepalived/keepalived.go:472-502 | whatever overlapped, the next converge of the spec leaves the weights right exactly when the last command on no slot of an undrained backend set it to 0 |
| DrainRace.UndrainedInSnapshot | agent/internal/roles/keepalived/keepalived.go:903-918 | a run in which the snapshot still names a backend whose undrain finishes before its edit: it ends at weight 0 with nothing drained |
| DrainRace.LostUndrainStays | agent/internal/roles/keepalived/keepalived.go:472-502 | and stays there however often the spec is converged |
| DrainRace.DrainedAcrossRestart | agent/internal/roles/keepalived/keepalived.go:866-889 | a run in which keepalived restarts between a drain's edit and its mark: the backend ends drained and in service |
| DrainRace.OverlappingCallsCross | agent/internal/roles/keepalived/keepalived.go:866-891 | a run of a drain and an undrain at once: the backend ends marked drained, at its full weight, and the file does not name it |
| ReadCache.SingleFlight | backend/app/routers/ha_compat.py:88-125 | under every interleaving one loader per key, no hit older than the TTL, and an answer a clear should have dropped exactly when the clear fell into its load |
| ReadCache.OneLoadServesAll | backend/app/routers/ha_compat.py:110-125 | any number of gets on a cold key start one load and return its value |
| ReadCache.ClearMissesLoadInFlight | backend/app/routers/ha_compat.py:101-124 | a value loaded before a clear is served after it |
| ReadCache.Cache.Arrive | backend/app/routers/ha_compat.py:110-117 | a get returns a fresh value, waits, or starts the loader, as the state machine says |
| ReadCache.Cache.Locked | backend/app/routers/ha_compat.py:117-123 | with the lock taken it looks again before loading |
| ReadCache.Cache.Store | backend/app/routers/ha_compat.py:123-125 | the value is stored under the time of its arrival and the lock released |
| Updater.WindowReads | backend/app/config.py:214-244 | every pair of times reads back from its HH:MM-HH:MM text; equal times are refused |
| Updater.ClockReadsIff | backend/app/config.py:214-244 | two digits, a colon and two digits are a time exactly up to 23:59 |
| Updater.WindowsPartitionTheDay | backend/app/updater.py:71-88 | windows a-b and b-a share no minute and leave none out, midnight included |
| Updater.DueServerIds | backend/app/updater.py:126-158 | the loop selects, forced or not, exactly the servers that are due, in order |
| Updater.UnforcedDueIff | backend/app/updater.py:126-158 | an unforced pass takes a server exactly when the window is open, it is the one asked for, if any, and it may be upgraded: enabled, with a new release, out of cooldown, not left to the on-box updater, not failed within the retry hours |
| Updater.ForcedDueIff | backend/app/updater.py:126-158 | a forced one takes no notice of the window, the switches and the retry hours |
| Updater.DueIsSelected | backend/app/updater.py:126-158 | the passes of the run theorems pick a server exactly when that loop returns it |
| Updater.WindowlessDue | backend/app/updater.py:71-88 | a malformed window holds every unforced upgrade back, and none holds back nothing |
| Updater.StillInsideIff | backend/app/updater.py:84-88 | from a moment inside a window to its next opening, a later moment is inside exactly when the window has not closed |
| Updater.AttemptsPickedInWindow | backend/app/updater.py:126-158 | over any run every attempt was picked inside the window, for a known release |
| Updater.AttemptInWindowIff | backend/app/updater.py:450-481 | whenever its permit came, the attempt is inside the window exactly when the minutes from the opening it was picked in, modulo a day, are fewer than the window's |
| Updater.AttemptOutsideWindow | backend/app/updater.py:464-475 | any due server may be upgraded after the window closed, because nothing checks again |
| Updater.BlockedDueIff | backend/app/updater.py:91-123 | while a failed or delegated release is recorded and its retry period lasts, a pass picks the server exactly when it is otherwise ready and another release is known |
| Updater.EarlyRetryFollowsAnother | backend/app/updater.py:91-123 | over any run, when an attempt is picked within the retry period of a failed one, or at all after a delegated one, the attempt right after that one was picked for another known release than its target |
| Updater.StaleReleaseNeverBacksOff | backend/app/updater.py:270-279 | when a box names a release other than the known one and it fails, every later pass attempts that failed release again, at whatever intervals |
| Updater.BoxNamesAnother | backend/app/updater.py:275-276 | such a row and box exist for any two releases |
| Updater.BackoffHolds | backend/app/updater.py:91-123 | with no other release known, no attempt begins before the retry period is over |
| Updater.FlippedReleaseIsRetriedEarly | backend/app/updater.py:111-122 | for any two releases, one that failed is picked again at once when the other was known in between |
| Updater.OutcomeIs | backend/app/updater.py:279-412 | which answers of the box and its agent make an attempt fail, succeed or be handed over, and under which name it is recorded |
| Updater.RecordedIs | backend/app/updater.py:161-185 | after a success the row names the version that came back and no new release; otherwise only the record of the attempt changes |
| Updater.RecordBacksOffIff | backend/app/updater.py:91-185 | which answers keep the next pass away, and until when: a failure only if the box was reached and named the known release |
| Updater.UncheckedIsRetriedAtOnce | backend/app/updater.py:258-279 | a server whose version cannot be checked is tried again by the very next pass |
| Swap.Host.Recreate | agent/internal/roles/adguard/adguard.go:356-378 | whichever command fails, the original is there after every command until the web has answered; every error leaves it under its own name if the rollback commands succeed, running after a rollback |
| Swap.Host.SetAside | agent/internal/roles/adguard/adguard.go:358-363 | a failed rename leaves the original as it was |
| Swap.Host.RollBack | agent/internal/roles/adguard/adguard.go:364-369 | the original is never lost, and restored and running when the rename back and the start succeed |
| SwapRace.StepLosesIff | agent/internal/roles/adguard/adguard.go:357-378 | whatever interleaves, one command loses a container exactly when it is a swap's first command, or its last after the answer, and clears the name the container is set aside under |
| SwapRace.OriginalLostIff | agent/internal/roles/adguard/adguard.go:357-378 | over any run of any number of swaps, answered ones included, a container is there exactly when no such command was carried out; `FateOf` also says whether the swap that set it aside had been answered |
| SwapRace.AloneKeepsOriginal | agent/internal/roles/adguard/adguard.go:357-378 | with no other swap in between, the original is there after every command until the web has answered, and for good if the swap gives up |
| SwapRace.TwoSwapsLoseOriginal | agent/internal/server/server.go:204-222 | an update beside a converge can remove the original before any replacement answered |
| SwapRace.SerialSwapsLoseOriginal | agent/internal/roles/adguard/adguard.go:358-369 | so can one swap after another, when the first one's rename back failed |
| SwapRace.AnsweredSwapLosesServing | agent/internal/roles/adguard/adguard.go:371-377 | so can the last command of an answered swap, which leaves no container at all when another swap has begun |
| SwapRace.AnsweredIsReached | agent/internal/roles/adguard/adguard.go:370-376 | the state that run starts from is reached |

## Left out

- HTTP, TLS, certificates, password encryption, SQL and subprocess output: remote servers, disks and the kernel table are state, calls and commands succeed or fail; SHA-256 is an arbitrary function, assumed free of collisions only in `Manager.InSyncIsHonest`.
- `encoding/json`: the decoder is modelled as a reader of the RFC 8259 grammar with its own error recovery; Go's nesting limit of 10000 and the wording of its errors are not modelled.
- Numbers in specs are integers; fractions and exponents are kept verbatim by the agent, and Python's float printing is not modelled.
- `round(x, 3)` and floating-point error in means, rates and counters: reals are exact. `telemetry.rate`, `latest` and the collectors are not modelled.
- `strconv.ParseFloat`: digits with an optional fraction only, no sign, exponent or special value; the kernel prints none.
- Blank characters are space and U+0009 to U+000D; the further ones of Python and Unicode are not.
- Rewrite keys: lower-casing and stripping are an arbitrary function `key`; URLs of filter rows are taken as stripped, as `_filters_for_server` requires them non-empty.
- The order of an AdGuard list and of a Python dict: lists are compared as sets, as the code does, and forward zones are a map.
- Manager: version, message and last_change of a status; the roles' own converge code; a crash between the two halves of an atomic file replacement.
- Hosts: the spec builders, enrolment, agent self-update and the choice of which role to push; that a backend address on another dnsdist host is one its AdGuard binds is not claimed.
- Drains: health checks of keepalived, which also set weights to 0; a drain made while the stored spec is not the one keepalived was last started for; drains of dnsdist.
- DrainRace: converges and drain calls of one spec; a restart that leaves keepalived down, which `DrainFailures` has, and a new agent process, which `Drains` has.
- Swap: pulling the image and comparing digests before a swap; a crash inside one is, in `SwapRace`, a swap that takes no further step.
- IPVS: how sixteen bytes are printed is a parameter, and the tables of the agreement are IPv4; the three listings are of one table, though they are read one after another; references into the service map are keys of it.
- Updater: `update_server` is a function of the box's and the agent's answers, in the order they are asked, rather than a method; the messages, the lock (see `ServerLocks`), two control-plane processes; the run theorems are about unforced passes one after the other.
- ReadCache: a negative or changing TTL; timers that run backwards.
- ServerLocks: cancellation of a task, a deleted server, two rows that point at one server.
- Rate limiter: the mutex around it, as every method holds it throughout.
- The Vue frontend, login by OIDC and tokens, the UI proxy, the provisioning scripts, Prometheus text, dnsdist and keepalived text rendering: other or easier properties.
