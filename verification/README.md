# A verified model of the scanner's guarantees

The model covers the parts of the platform whose promises are about every run, every input or
every database state. Each `.dfy` file is one module. `dafny verify dfyconfig.toml` checks all of
them.

- **Scan ownership** (`ScanTable`, `ScanProtocol`, `ScanSafety`, `ScanLiveness`, `ScanWork`). A scan row is
  changed by any number of workers, each change one conditional UPDATE. The statements are methods
  over the table; the protocol is a state machine in which the statement, the refresh, the decision
  and the two reports of `run_scan` are separate steps, so that every other worker can come between.
- **Asset attribution** (`ClaimIndex`, `OriginIndex`, `OriginTheorems`). The one-pass index with its three
  dictionaries against what the claims mean.
- **Location normalisation** (`Text`, `PercentEscapes`, `Location`, `LocationIdempotence`,
  `LocationTheorems`, `LocationIdentity`, `LocationForms`). The rewriting rules over a written-out split and join of
  URLs (RFC 3986, sections 2.1, 3.1 and 3.2), where they are idempotent and what they identify.
- **Address ranges** (`Cidr`, `NetGuard`). CIDR arithmetic (RFC 4632, section 3.1) with the two
  authorizations of a scan; 100.64.0.0/10 is the block of section 7 of RFC 6598.
- **The autonomous engagement** (`StableSort`, `CapabilityRegistry`, `AgentDecision`, `AgentLoop`,
  `AgentLog`)
  and the deterministic selector beside it (`Coverage`, `Adaptive`). The model, the clock, the
  tools and the scan row answer anything at any moment.
- **Rate limiter and kill switch** (`RateLimiter`, `RuntimeFlag`). The stateful fast forms against
  the full history of requests or reads.
- **Tenant isolation** (`Tenancy`, `TenancyForms`). Nested sub-queries against ownership along foreign keys.
- **Attack graph** (`AttackGraph`, `AttackGraphUpdates`, `AttackGraphEvidence`) and **retention** (`Retention`,
  `RetentionSweep`).
- **Backup and restore** (`ObjectBackup`, `BackupSet`, and in `BackupTools` an example that satisfies
  what is asked of the cipher and the archive format) and **finding correlation** (`Correlator`).

Code that works step by step is a method or a class whose contract ties it to a specification
function or to the history; what the code promises is then proved of that function for all inputs.
Lemmas named `...AsWritten` say what such a function means in literal terms, without the functions it
is made of.

## Where the code and its documentation differ

The model follows the code. Each difference is stated by the lemma or contract named, most with the
exact condition under which the promise does hold.

- The comment that a replacement executor is never at risk from the reaper
  (`apps/api/scanner_engine/orchestrator.py:138-139`) needs the inherited heartbeat to be null or
  fresh: `LiveExecutionIsNeverReaped` with it, `ReclaimedScanIsReapedAtOnce` without.
- A scan stored as failed can be published as running (`FailedScanReportedAsRunning`). What is
  reported is what was stored if and only if the last statement to set the status before the refresh
  set that one (`ReportIsStoredExactlyIfUnchanged`).
- Accepting a range does not make all of it reachable: `RangeIsAllowedExactlyIfSettingsOpenIt`.
- The kill switch takes effect within its time to live unless reads fail:
  `SwitchIsLateExactlyIfReadsFail`.
- Scans are cancelled in two ways: with a guard and clearing the token
  (`apps/api/modules/scans/service.py:316-323`), and by a workspace deletion that reads first,
  writes without a guard and keeps the token
  (`apps/api/modules/workspaces/tenant_service.py:168-190`). Both are steps of the protocol.
- Location normalisation is documented as idempotent; `LocationIdempotentExactly` says where it is.
  A comment in the same file speaks of the last colon where the code cuts at the first.
- An origin is meant to be one scheme, host and port. Of two ports the first is hidden when the last is
  the default: `http://h:81:80/` has the form and the origin of `http://h:81/`
  (`SecondPortHidesTheFirst`). `OneFormForOnePlace` and `OneOriginIsOneEndpoint` say exactly when form
  and origin decide.
- Decisions are documented as picking the highest confidence; the code picks the highest score
  (`WhenConfidenceDecides`).
- A reply is documented as degrading to finish whatever it holds; a confidence too large for a float
  raises instead, and the contract of `Decide` says exactly when.
- A cancellation ends the reasoning loop but not the round: where exploitation is enabled the phase
  after it still starts, as the contract of `Engagement.Run` states.
- The two paths that scope evidence are documented as exclusive; nothing in the schema makes them so
  (`EvidenceIsDisjointExactlyIfPathsAgree`).
- Audit rows written in a retention run are documented as never pruned by it. They are not as long as
  the database clock lags behind the worker's by no more than the audit window
  (`OwnEntriesSurviveWithinTheWindow`); beyond that one can be (`LaggingClockPrunesAnOwnEntry`).
- The newest audit rows that a sweep keeps are counted after its own rows are written, so it can prune
  what was the newest (`OwnEntriesTakePlaces`, `NewestAuditRowCanGo`).
- Deleting a scan is documented as removing its `ai_usage` rows
  (`apps/api/retention/repo.py:286-287`); `scan_id` of that table has no foreign key
  (`apps/api/ai_agent/models.py:48`), so they stay until their own age takes them (`PurgeWorkspace`).
- Verifying a backup set looks at the components that were made and not at its status, so the set of
  every failed backup verifies (`RunBackup`, `StatusIsNotLookedAt`).
- Iterating the adaptive selector over persisted runs need not end: only rounds that end usably are
  bounded (`UsableRoundsAreBounded`), and the others change nothing and can go on for ever
  (`UnusableRoundsChangeNothing`, `UnusableRoundsGoOn`).
- Within coverage debt a failed attempt can turn back into a surface never tried
  (`FailedAttemptIsForgottenExactlyIf`).

## Model

| member | source | states |
|---|---|---|
| `ScanTable.Scans.Claim` | apps/api/scanner_engine/orchestrator.py:63-95 | only a queued or failed row is claimed; its status, token and whole-second start time are set, its heartbeat is not, and no other row changes |
| `ScanTable.Scans.StampHeartbeat` | apps/api/scanner_engine/orchestrator.py:1390-1420 | a beat lands exactly on the running row that the token owns, or without a token on any running row, and changes its heartbeat alone |
| `ScanTable.Scans.FinalizeStatus` | apps/api/scanner_engine/orchestrator.py:288-322 | a terminal write matches exactly a running row with the token, clears the token, and says whether it matched |
| `ScanTable.Scans.ReapOrphans` | apps/api/scanner_engine/orchestrator.py:167-209 | fails exactly the running rows whose heartbeat, or without one whose start, is too old, and counts them |
| `ScanTable.Scans.Requeue` | apps/api/celery_app/shutdown.py:113-127 | returns exactly a running row to the queue and clears its start, its token and its task id |
| `ScanTable.Scans.Cancel` | apps/api/modules/scans/service.py:316-323 | cancels any row that is not yet terminal and clears its token |
| `ScanTable.Scans.DrainAndRequeue` | apps/api/celery_app/shutdown.py:168-221 | the watchdog writes nothing if a look finds nothing in flight; otherwise it requeues what is in flight after the deadline |
| `ScanTable.ReturnedExactlyTheRunning` | apps/api/celery_app/shutdown.py:196-221 | it names each scan at most once, only scans that were running, leaves every other row as it found it, and names all of them if no call fails |
| `ScanTable.ReturnedInOrder` | apps/api/celery_app/shutdown.py:196-221 | and in the order in which they were in flight |
| `ScanProtocol.InvRun` | apps/api/scanner_engine/orchestrator.py:63-95 | the protocol invariant (a token on the row belongs to an issued claim and means running or cancelled; the row is owned exactly by the winner of the latest claim with only beats since; no execution has reported more than it won) holds after every interleaving of claims, beats, terminal writes, reaps, requeues, cancels and deletions |
| `ScanSafety.TerminalWriteIsFenced` | apps/api/scanner_engine/orchestrator.py:309-319 | in every interleaving a terminal write succeeds if and only if its execution won the latest claim and nothing but beats has touched the row since; otherwise the row is unchanged |
| `ScanSafety.StopCheckKnowsTheOwner` | apps/api/scanner_engine/orchestrator.py:340-365 | the stop check says go on if and only if the execution still owns the scan, and revoked if and only if it lost it other than by cancellation |
| `ScanWork.OnlyWinnersWork` | apps/api/scanner_engine/orchestrator.py:384-388 | in every interleaving an execution between its claim and its end has won a claim, so a duplicate delivery never works on a scan |
| `ScanWork.ClaimDecidesWhoWorks` | apps/api/scanner_engine/orchestrator.py:384-388 | the step after the claim sends exactly the winner to work and ends any other execution |
| `ScanWork.StopCheckStopsOthers` | apps/api/scanner_engine/orchestrator.py:557-575 | after a stop check exactly the owner goes on; of a cancelled scan the execution goes to its end with the status so far, and any other has ended |
| `ScanWork.AnythingCanInterrupt` | apps/api/scanner_engine/orchestrator.py:167-209 | at every moment of every run the reaper, a requeue, a cancel and a crash can come, and the time limit between claim and end |
| `ScanWork.NothingIsStuck` | apps/api/scanner_engine/orchestrator.py:368-755 | and an execution left alone always has its next step |
| `ScanWork.InterruptionsAsWritten` | apps/api/scanner_engine/orchestrator.py:309-319 | a crash ends an execution, and a workspace deletion writes once for each time it read |
| `ScanWork.UndisturbedEnd` | apps/api/scanner_engine/orchestrator.py:690-755 | an owner that comes to its end undisturbed stores its result, gives the scan up and reports that result once each way: failed if it raised, else the status of its tools |
| `ScanWork.UndisturbedTimeout` | apps/api/celery_app/tasks/scan_tasks.py:72-113 | one stopped by its time limit stores and counts a failure and publishes nothing |
| `ScanWork.TimeoutsAsWritten` | apps/api/celery_app/tasks/scan_tasks.py:84-96 | a time limit stores a failure if and only if the execution still owns the scan, and counts one if and only if it stored it |
| `ScanWork.StatementsAsWritten` | apps/api/scanner_engine/orchestrator.py:63-95 | what each step makes of the row, column by column, and of which rows |
| `ScanWork.SecondsAsWritten` | apps/api/scanner_engine/orchestrator.py:86-95 | a bare now() drops the fraction of a second |
| `ScanSafety.TokenNeverReturns` | apps/api/scanner_engine/orchestrator.py:86-95 | a token once off the row never comes back, along any further run |
| `ScanSafety.SettledIsAbsorbing` | apps/api/scanner_engine/orchestrator.py:309-319 | completed, completed with errors and cancelled are left for cancelled alone, and the status changes along a run if and only if it was not cancelled and a workspace deletion writes |
| `ScanSafety.LeavingATerminalStatus` | apps/api/scanner_engine/orchestrator.py:86-95 | failed is left only by a claim; the other terminal statuses by nothing but a workspace deletion |
| `ScanSafety.DecisionReportsExactlyAWin` | apps/api/scanner_engine/orchestrator.py:661-694 | the two tests after the refresh, on the normal and on the exception path, report if and only if the terminal write was won, although the second never asks |
| `ScanSafety.ReportsExactlyOnce` | apps/api/scanner_engine/orchestrator.py:722-755 | an execution that ends records exactly one metric and one event if its terminal write won and none if it did not, and never more before |
| `ScanSafety.StatusIsLastSet` | apps/api/scanner_engine/orchestrator.py:86-95 | the status on the row is always the one that the last matching statement set |
| `ScanSafety.ReportedStatusIsStoredStatus` | apps/api/scanner_engine/orchestrator.py:722-755 | what is reported of a completed scan is what was stored and what is on the row, while no workspace deletion wrote |
| `ScanSafety.ReportIsStoredExactlyIfUnchanged` | apps/api/scanner_engine/orchestrator.py:661-755 | for every won write, failed ones included, with any steps before and after the refresh: what is reported is what was stored if and only if the last statement to set the status before the refresh set that status |
| `ScanSafety.UndisturbedWriteIsReported` | apps/api/scanner_engine/orchestrator.py:661-755 | so it is whenever neither a claim nor a workspace deletion comes between write and refresh |
| `ScanSafety.FailedScanReportedAsRunning` | apps/api/scanner_engine/orchestrator.py:722-755 | a run in which a scan stored as failed is reported as running, because a retry claims it before the refresh |
| `ScanSafety.TeardownOverwritesACompletedScan` | apps/api/modules/workspaces/tenant_service.py:168-190 | a run in which a workspace deletion turns a completed scan into a cancelled one |
| `ScanLiveness.ReaperJudgesSilence` | apps/api/scanner_engine/orchestrator.py:167-195 | after any run a reap matches an owned scan if and only if the history shows its owner silent for too long |
| `ScanLiveness.LiveExecutionIsNeverReaped` | apps/api/scanner_engine/orchestrator.py:1403-1418 | an execution that beats in time is never reaped at any runtime, provided the heartbeat it inherited was null or fresh |
| `ScanLiveness.ReclaimedScanIsReapedAtOnce` | apps/api/scanner_engine/orchestrator.py:86-95 | without that proviso it is false: a re-claimed scan with a stale inherited heartbeat is reaped in the instant of its claim |
| `ClaimIndex.Record` | apps/api/scanner_engine/orchestrator.py:1866-1901 | one row of the single pass keeps the three dictionaries in agreement with the claims seen so far |
| `ClaimIndex.HolderIsTheLeader` | apps/api/scanner_engine/orchestrator.py:1866-1901 | what the pass holds for an origin is the first claim of the least (rank, type) group, void exactly when that group names two locations |
| `ClaimIndex.RowOrderIsIrrelevant` | apps/api/scanner_engine/orchestrator.py:1866-1901 | the verdict and the chosen location do not depend on the order of the rows |
| `OriginIndex.OneOriginIsOneEndpoint` | apps/api/scanner_engine/orchestrator.py:1801-1828 | locations of one origin share the scheme, and the host and the effective port if and only if both name a port or neither does |
| `OriginIndex.OneColonIsOneEndpoint` | apps/api/scanner_engine/orchestrator.py:1801-1828 | so they always do with at most one colon outside brackets |
| `OriginIndex.BuildOriginIndex` | apps/api/scanner_engine/orchestrator.py:1831-1901 | the index built over all types is the declared meaning of all claims |
| `OriginIndex.FirstExactIsBest` | apps/api/scanner_engine/orchestrator.py:1933-1948 | the exact match taken is the first by type, first-seen time and id |
| `OriginIndex.BestExactAsWritten` | apps/api/scanner_engine/orchestrator.py:1933-1948 | the best exact match, written out: first type, then the oldest, then the least id |
| `OriginIndex.ResolveAssetId` | apps/api/scanner_engine/orchestrator.py:1904-1956 | the best exact match, else exactly what the claims say of the finding's origin: its leader, or nothing if that is tied, unclaimed or not an origin |
| `OriginIndex.AttributionIsSound` | apps/api/scanner_engine/orchestrator.py:1930-1956 | an asset that is named has the finding's value or its origin |
| `OriginTheorems.OriginDecides` | apps/api/scanner_engine/orchestrator.py:1866-1901 | without an exact match an asset that is the origin itself (its normalised value is the origin and slashes) is named before one under it, the first type before a later one, and nothing if and only if none is under it or those that decide are at two locations |
| `OriginTheorems.OriginsAsWritten` | apps/api/scanner_engine/orchestrator.py:1801-1828 | the origin of a URL is its scheme, folded host and port, 80 of http and 443 of https left out; credentials, path, query and fragment do not matter |
| `PercentEscapes.LowercasePercentEscapes` | apps/api/scanner_engine/location_normalize.py:119-142 | the index loop computes the recursive folding of escapes |
| `PercentEscapes.FoldTouchesOnlyEscapeDigits` | apps/api/scanner_engine/location_normalize.py:119-142 | length is kept and exactly the digits of escapes are folded |
| `PercentEscapes.FoldIdempotent` | apps/api/scanner_engine/location_normalize.py:119-142 | folding twice is folding once |
| `PercentEscapes.FoldPreservesMeaning` | apps/api/scanner_engine/location_normalize.py:119-142 | percent-decoding the output equals percent-decoding the input, for every string |
| `PercentEscapes.EscapesAsWritten` | apps/api/scanner_engine/location_normalize.py:119-142 | an escape with digits in either case is folded to lower case and stands for the octet of its two digits |
| `PercentEscapes.OthersAsWritten` | apps/api/scanner_engine/location_normalize.py:119-142 | any other character, and a percent sign without two hex digits after it, stays and stands for itself |
| `Location.NormalizeAuthority` | apps/api/scanner_engine/location_normalize.py:145-175 | the rebinding code computes the authority specification |
| `Location.NormalizeSourceLocation` | apps/api/scanner_engine/location_normalize.py:261-273 | the loop strips every leading "./" and computes the source specification |
| `LocationIdempotence.AuthorityIdempotent` | apps/api/scanner_engine/location_normalize.py:145-175 | normalising an authority twice changes it again exactly when it has two droppable ports |
| `LocationIdempotence.UrlTwice` | apps/api/scanner_engine/location_normalize.py:178-198 | what a second pass over a normalised URL does |
| `LocationIdempotence.UrlIdempotent` | apps/api/scanner_engine/location_normalize.py:178-198 | the URL rule is idempotent on exactly the stated inputs |
| `LocationTheorems.HostPortIdempotent` | apps/api/scanner_engine/location_normalize.py:201-213 | the host:port rule is idempotent everywhere |
| `LocationTheorems.Rematch` | apps/api/scanner_engine/location_normalize.py:216-273 | a rendered source location is recognised again, with the same pieces, exactly when its path still has a separator |
| `LocationTheorems.LocationIdempotentExactly` | apps/api/scanner_engine/location_normalize.py:276-289 | normalisation is idempotent if and only if a condition on the input, checkable beforehand, holds |
| `LocationTheorems.BareFileNameIsFoldedLater` | apps/api/scanner_engine/location_normalize.py:261-273 | the whole family of bare file names on which a second pass folds what the first kept |
| `LocationTheorems.DoubledPortIsUnsettled` | apps/api/scanner_engine/location_normalize.py:145-175 | the family of doubled default ports that loses one per pass |
| `LocationIdentity.ExplicitPortIsKept` | apps/api/scanner_engine/location_normalize.py:145-175 | a port other than the default is never dropped |
| `LocationIdentity.OneFormForOnePlace` | apps/api/scanner_engine/location_normalize.py:178-198 | two http(s) URLs name the same place (scheme, credentials, folded host, effective port, path and query up to escapes) if and only if they get one normal form and both name a port or neither does |
| `LocationIdentity.OneColonDecides` | apps/api/scanner_engine/location_normalize.py:178-198 | with at most one colon outside brackets the form decides alone |
| `LocationIdentity.SecondPortHidesTheFirst` | apps/api/scanner_engine/location_normalize.py:145-175 | without that it does not: to any URL with a named port and no bracket the default port can be added, and the two get one form although host and port differ |
| `LocationIdentity.SamePlaceSameRequest` | apps/api/scanner_engine/location_normalize.py:178-198 | the same place has the same decoded path and query |
| `LocationIdentity.OneColonSettles` | apps/api/scanner_engine/location_normalize.py:145-175 | with at most one colon outside brackets a second pass has nothing to drop |
| `LocationForms.UrlsAsWritten` | apps/api/scanner_engine/location_normalize.py:178-198 | the form of any http(s) URL from its parts: scheme folded, path from the root, escapes folded, empty query and fragment left out |
| `LocationForms.PortsByNumber` | apps/api/scanner_engine/location_normalize.py:145-175 | a numeric port is left out if and only if it is empty, 80 of http or 443 of https, and otherwise tells two URLs apart |
| `LocationForms.PortsByName` | apps/api/scanner_engine/location_normalize.py:116 | so port 80 of http and port 443 of https are left out, and the other way round they are kept |
| `LocationForms.CredentialsAreKept` | apps/api/scanner_engine/location_normalize.py:145-175 | credentials stay as they are |
| `LocationForms.BracketsAsWritten` | apps/api/scanner_engine/location_normalize.py:145-175 | a bracketed host is folded and its port treated alike |
| `LocationForms.HostPortsAsWritten` | apps/api/scanner_engine/location_normalize.py:201-213 | without a scheme all before the first colon, or the brackets, is folded and nothing else |
| `LocationForms.SourcesAsWritten` | apps/api/scanner_engine/location_normalize.py:249-258 | a location is read as a source location if and only if it is path, line and column of the stated characters, up to a final line feed |
| `LocationForms.StripsDots` | apps/api/scanner_engine/location_normalize.py:261-273 | every leading "./" is stripped and nothing else |
| `LocationForms.RuleByShape` | apps/api/scanner_engine/location_normalize.py:276-289 | which of the three rules a location goes by |
| `Cidr.HoldsIsInterval` | apps/api/scanner_engine/net_guard.py:90-115 | masking tests exactly the interval between a block's edges |
| `Cidr.BlockIsAligned` | apps/api/scanner_engine/net_guard.py:90-102 | whatever address and prefix an entry names, the block it is read as is aligned and holds that address |
| `Cidr.SubnetIsContainment` | apps/api/scanner_engine/net_guard.py:217-248 | comparing edges decides containment of every address, both ways |
| `Cidr.BaseDecides` | apps/api/scanner_engine/net_guard.py:217-248 | a block that holds the base of one no larger holds all of it |
| `NetGuard.MappedIsTheEmbedded` | apps/api/scanner_engine/net_guard.py:78-87 | ::ffff:a.b.c.d is allowed if and only if a.b.c.d is |
| `NetGuard.AllowedAsWritten` | apps/api/scanner_engine/net_guard.py:117-166 | any other address is judged by its own classes, by 100.64.0.0 to 100.127.255.255 and by the three metadata addresses: public, or opened by both lists, a metadata address as a single host |
| `NetGuard.RangeAsWritten` | apps/api/scanner_engine/net_guard.py:347-367 | a range is accepted if and only if its first and last address are allowed and, if the first is in a special block or the shared range, one authorized block spans it |
| `NetGuard.BothKeysOrPublic` | apps/api/scanner_engine/net_guard.py:117-166 | an address is reachable if and only if it is public or both the deployment and the scan authorize it, a metadata address by name; nothing is authorized by the public-only policy |
| `NetGuard.ValidateResolved` | apps/api/scanner_engine/net_guard.py:347-386 | a resolved host is accepted if and only if every address is allowed, each is then public or authorized by both deployment and scan, and the first is handed on |
| `NetGuard.ParseCidrs` | apps/api/scanner_engine/net_policy.py:53-72 | the parsed list holds exactly the well-formed entries, each once |
| `NetGuard.SameListSameAuthority` | apps/api/scanner_engine/net_policy.py:102-110 | dropped repeats change no authorization |
| `NetGuard.AcceptedRangeIsAuthorized` | apps/api/scanner_engine/net_guard.py:217-248 | an accepted range with a private network address lies wholly inside one authorized block |
| `NetGuard.RangeIsAllowedExactlyIfSettingsOpenIt` | apps/api/scanner_engine/net_guard.py:347-367 | every address of an accepted private range may be scanned if and only if the deployment settings alone open each of them, and for the IPv4-mapped ones the policy the address they stand for |
| `NetGuard.AcceptedRangeIsWhollyAllowed` | apps/api/scanner_engine/net_guard.py:347-367 | in particular with one settings block around it and neither a metadata nor an IPv4-mapped address in it |
| `NetGuard.EdgesInTwoBlocksAreNotEnough` | apps/api/scanner_engine/net_guard.py:360-367 | without one settings block: an accepted range with a refused address, for every range with an address between its edges that is not public, and neither a metadata nor an IPv4-mapped address in it |
| `NetGuard.MetadataInsideARangeIsRefused` | apps/api/scanner_engine/net_guard.py:117-166 | without the metadata condition: an accepted range with a refused metadata address, for every range around one |
| `NetGuard.MulticastRangeNeedNotBeContained` | apps/api/scanner_engine/net_guard.py:217-248 | the containment check skips multicast ranges: one that no authorized block contains is accepted |
| `CapabilityRegistry.GroupBy` | apps/api/scanner_engine/capability_registry.py:26-32 | the setdefault-append loop groups a list by key, keeping order |
| `CapabilityRegistry.Index` | apps/api/scanner_engine/capability_registry.py:26-32 | the registry lists, for exactly the capabilities that have a tool, their tools by phase |
| `CapabilityRegistry.ResolveLeads` | apps/api/scanner_engine/capability_registry.py:99-123 | a capability resolves to exactly the admitted implementation of least phase, first registered among equals, and to nothing if and only if none is admitted |
| `CapabilityRegistry.ResolveAsWritten` | apps/api/scanner_engine/capability_registry.py:99-123 | the answer tool by tool: of those that name the capability, have not run and fit target, ceiling and active testing, the least phase and then the first registered |
| `CapabilityRegistry.ToolsForAsWritten` | apps/api/scanner_engine/capability_registry.py:40-41 | the tools of a capability are the registered ones that name it |
| `CapabilityRegistry.TiersAsWritten` | apps/api/scanner_engine/safety.py:75-76 | passive is below active, active below intrusive; simulated and unknown tiers are within no ceiling and are none |
| `CapabilityRegistry.GateAsWritten` | apps/api/scanner_engine/safety.py:89-115 | what the gate lets through under each ceiling: intrusive only where enabled too, simulated always |
| `CapabilityRegistry.RulesAsWritten` | apps/api/scanner_engine/safety.py:58-72 | a scan gets the tier it asks for within the ceiling, and else the ceiling |
| `CapabilityRegistry.CategoryTree` | apps/api/scanner_engine/capability_registry.py:88-96 | every capability with a tool stands under exactly one category |
| `CapabilityRegistry.AvailableTools` | apps/api/ai_agent/agent.py:145-172 | the allowlist is exactly the registry's answers, one for each capability, by phase |
| `StableSort.FirstOfSorted` | apps/api/scanner_engine/capability_registry.py:26-32 | the first element with a property in the sorted list is the one that leads the unsorted list: least key, then earliest |
| `AgentDecision.ParseCandidates` | apps/api/ai_agent/agent.py:174-221 | the vetting loop, the floor and the sort compute the ranking of the vetted proposals, and raise if and only if an allowed tool's confidence is too large for a float |
| `AgentDecision.RankingLeads` | apps/api/ai_agent/agent.py:174-221 | the head of the ranking is the best eligible proposal, earliest among ties, and the ranking is empty if and only if none is eligible |
| `AgentDecision.Decide` | apps/api/ai_agent/agent.py:223-318 | the decision is the stated function of the reply: a tool is run if and only if one is eligible and the model does not finish; it is on the allowlist and the best; each stop reason is the stated one; and it raises if and only if an allowed tool's confidence is too large for a float |
| `AgentDecision.WhenConfidenceDecides` | apps/api/ai_agent/agent.py:28-43 | confidence decides against every labelling if and only if it leads by a stated gap; a lower confidence can win |
| `AgentDecision.ConfidenceAsWritten` | apps/api/ai_agent/agent.py:114-123 | a proposal carries the confidence it was written with, pulled into the range from 0 to 1; no number counts as 0.5 and NaN as 1; unknown labels count as medium |
| `AgentDecision.EligibleAsWritten` | apps/api/ai_agent/agent.py:174-221 | which proposals are eligible, by what the model wrote |
| `AgentDecision.RaisesAsWritten` | apps/api/ai_agent/agent.py:114-118 | a decision raises over a proposal if and only if it names an allowed tool with a confidence too large for a float |
| `AgentDecision.FlatIsAListOfOne` | apps/api/ai_agent/agent.py:174-221 | the flat form is a list of one proposal without labels |
| `AgentDecision.ScoreBySteps` | apps/api/ai_agent/agent.py:28-43 | each step of value is worth 0.15 of the confidence, each step of risk costs 0.1 |
| `AgentDecision.LessConfidentIsNotBest` | apps/api/ai_agent/agent.py:28-43 | of two eligible proposals with equal labels the one written with less confidence is never the best, unless both lie beyond the same end of the range |
| `AgentDecision.BestIsUnique` | apps/api/ai_agent/agent.py:174-221 | the best proposal is one only |
| `AgentLoop.Engagement.Act` | apps/api/scanner_engine/orchestrator.py:1016-1049 | a selected tool is blocked, run or abandoned, and the counters keep saying what the log says |
| `AgentLoop.Engagement.Turn` | apps/api/scanner_engine/orchestrator.py:938-1049 | one pass adds at most one justified decision, and none after a cancellation or a takeover is seen |
| `AgentLoop.Engagement.DecisionLoop` | apps/api/scanner_engine/orchestrator.py:938-1049 | for every behaviour of the model, clock, tools and scan row a round terminates with a lawful log |
| `AgentLoop.Engagement.Run` | apps/api/scanner_engine/orchestrator.py:789-1098 | so do the rounds, bounded by their limit; without exploitation there is one, with it its phase follows each round, even a cancelled one, and another round follows if and only if it gained an access and one is left; an earlier engagement is reused without a decision |
| `AgentLoop.StepsCountUp` | apps/api/scanner_engine/orchestrator.py:938-1049 | step numbers count from zero without gap or repeat across rounds, never beyond the ceiling |
| `AgentLog.StepsAsWritten` | apps/api/scanner_engine/orchestrator.py:938-1049 | the step of a decision is its position |
| `AgentLoop.NoToolRunsTwice` | apps/api/scanner_engine/orchestrator.py:938-1049 | no tool runs twice; each is registered, admitted for target, ceiling and active testing given those before it, and passes the safety gate |
| `AgentLoop.ExecutedStayWithinTheDeployment` | apps/api/scanner_engine/safety.py:58-76 | whatever the scan's configuration, every tool that runs is within the deployment's ceiling, and an intrusive one needs both to enable exploitation |
| `AgentLoop.RunsAreBoundedByTheRegistry` | apps/api/scanner_engine/orchestrator.py:938-1049 | an engagement runs no more tools than are registered |
| `AgentLoop.BudgetsAreNeverOverrun` | apps/api/scanner_engine/orchestrator.py:879-888 | the model-call and stall budgets are never exceeded, across rounds |
| `AgentLog.CountersAsWritten` | apps/api/scanner_engine/orchestrator.py:938-1049 | the model is asked for every decision but a budget stop; which decisions end a round |
| `AgentLog.StallAsWritten` | apps/api/scanner_engine/orchestrator.py:1049-1051 | the stall is the number of tools run since the last that found anything |
| `AgentLog.RunsAsWritten` | apps/api/scanner_engine/orchestrator.py:1033-1048 | tools executed and their statuses are those of the runs, in order |
| `AgentLog.ConsumedAsWritten` | apps/api/scanner_engine/orchestrator.py:1018-1048 | used up are the names of the tools run and of those blocked |
| `AgentLog.UnskippedAsWritten` | apps/api/scanner_engine/orchestrator.py:841-844 | reused of an earlier run are its statuses but for the unauthorized ones, in order |
| `AgentLoop.BudgetStopIsFinal` | apps/api/scanner_engine/orchestrator.py:879-888 | after a budget stop every later decision of every round is a budget stop |
| `AgentLoop.WhyARoundStops` | apps/api/scanner_engine/orchestrator.py:879-888 | a decision is a budget stop if and only if a budget that is on is used up: model calls before time before stall |
| `AgentLoop.WhyTheModelEndsARound` | apps/api/scanner_engine/orchestrator.py:938-1014 | the model ends a round only as it replied: nothing is on offer, no object, a finish, or no proposal that names a tool on offer with enough confidence |
| `AgentLoop.OnlyProposalsAreRun` | apps/api/scanner_engine/orchestrator.py:938-1049 | and a tool is run or blocked only because a proposal of that very reply names it with enough confidence |
| `AgentLoop.DecidedWhileRunning` | apps/api/scanner_engine/orchestrator.py:938-960 | every persisted decision was taken while the stop check said to go on |
| `AgentLoop.GateTellsThemApart` | apps/api/scanner_engine/orchestrator.py:1016-1030 | a blocked tool was on offer and best of its ranking like one that runs; exactly the gate tells them apart |
| `Coverage.BuildCoverage` | apps/api/scanner_engine/coverage.py:187-270 | the cached loop computes the one state of every surface and the debt, and its cache holds exactly the judged capabilities |
| `Coverage.DebtIsWhatWasNeverReached` | apps/api/scanner_engine/coverage.py:157-184 | a surface is in debt if and only if it is in scope, reachable and supported and no run reached its capability usably |
| `Coverage.RunsOnlyPayDebt` | apps/api/scanner_engine/coverage.py:157-184 | more runs never add debt, and remove it if and only if one of them reached the capability |
| `Coverage.CoverageIsNeverLost` | apps/api/scanner_engine/coverage.py:157-184 | covered stays covered and partial stays partial or better |
| `Coverage.FailedAttemptIsForgottenExactlyIf` | apps/api/scanner_engine/coverage.py:157-184 | attempted-failed turns back into discovered if and only if no later run of the capability was of use and one did not even fail |
| `Coverage.RunStateAsWritten` | apps/api/scanner_engine/coverage.py:157-184 | the state of a capability by its tools and by how their runs ended |
| `Coverage.SurfaceAsWritten` | apps/api/scanner_engine/coverage.py:148-154 | the capability expected of each type of asset, and which of scope, proof, boundary, type and runs decides first |
| `Coverage.SurfacesAsWritten` | apps/api/scanner_engine/coverage.py:187-270 | the surfaces are those of the findings with a type and a value, in order |
| `Coverage.DebtAsWritten` | apps/api/scanner_engine/coverage.py:187-270 | the debt is those in scope and discovered or attempted, in order |
| `Adaptive.UrlReasons` | apps/api/scanner_engine/adaptive.py:107-138 | the list-building loop yields the stated capability and reasons, without repeats |
| `Adaptive.Select` | apps/api/scanner_engine/adaptive.py:154-262 | strictly increasing in the key, one candidate for a capability and target, from the first eligible finding that wants it, and none missing |
| `Adaptive.ByKeyIsAnOrder` | apps/api/scanner_engine/adaptive.py:95-99 | the sort key is a total order that separates target and capability |
| `Adaptive.CandidateIsOffered` | apps/api/scanner_engine/adaptive.py:216-227 | a candidate's tool is the registry's answer for its capability |
| `Adaptive.EligibleAsWritten` | apps/api/scanner_engine/adaptive.py:185-240 | a finding yields a candidate if and only if it is a URL or live service with a value, in scope, with an open state and a tool that may serve |
| `Adaptive.CandidateAsWritten` | apps/api/scanner_engine/adaptive.py:107-151 | a URL with a parameter is to be fuzzed, one without searched, a live service crawled, and each reason stands for one observation |
| `Adaptive.StateIsOfTheLast` | apps/api/scanner_engine/adaptive.py:179-180 | a value is judged by its last finding |
| `Adaptive.EarlierPhaseFirst` | apps/api/scanner_engine/adaptive.py:95-99 | the earlier phase comes first |
| `Adaptive.StrongestReasonFirst` | apps/api/scanner_engine/adaptive.py:107-138 | a candidate's reasons stand strongest first |
| `Adaptive.StrongerReasonFirst` | apps/api/scanner_engine/adaptive.py:60-68 | within a phase the stronger reason |
| `Adaptive.SameStrengthByTarget` | apps/api/scanner_engine/adaptive.py:95-99 | then the target and then the capability decide |
| `Adaptive.BeforeAsWritten` | apps/api/scanner_engine/adaptive.py:95-99 | texts are in dictionary order |
| `Adaptive.OnOfferIsSelected` | apps/api/scanner_engine/adaptive.py:216-227 | what a round can run is what a selection from its findings lists |
| `Adaptive.IterationEnds` | apps/api/scanner_engine/adaptive.py:216-227 | select, run, select again uses up a tool each time and ends |
| `Adaptive.UsableRoundsAreBounded` | apps/api/scanner_engine/adaptive.py:271-333 | over rounds of select and run with any outcomes, each with findings of its own, no more end usably than tools are registered |
| `Adaptive.UnusableRoundsChangeNothing` | apps/api/scanner_engine/adaptive.py:271-333 | after rounds of which none ends usably any findings are judged as if those rounds had not been |
| `Adaptive.UnusableRoundsGoOn` | apps/api/scanner_engine/adaptive.py:271-333 | and can be repeated any number of times |
| `RateLimiter.Limiter.Transact` | apps/api/core/middleware.py:178-183 | prune, add, count and expire leave exactly the window's recorded requests |
| `RateLimiter.Limiter.Dispatch` | apps/api/core/middleware.py:171-212 | for any time-ordered requests and store failures the verdict is the one a filter over the full history gives |
| `RateLimiter.WindowBound` | apps/api/core/middleware.py:171-194 | every half-open interval as long as the window holds at most the limit of requests admitted by count |
| `RateLimiter.VerdictsAsWritten` | apps/api/core/middleware.py:171-212 | a request gets too many if and only if the store answers and the window before it holds as many recorded requests of its key as the limit; without an answer authentication is unavailable and all else admitted |
| `RateLimiter.AuthWindowBound` | apps/api/core/middleware.py:194-212 | no window lets through more authentication requests than the limit, by count or otherwise, whatever the store does |
| `RateLimiter.OutageIsUnlimited` | apps/api/core/middleware.py:194-212 | outside authentication an outage admits any number at one instant |
| `RuntimeFlag.CachedFlag.Get` | apps/api/core/runtime_flags.py:86-116 | the answer is the last successful reading, True without one, and the file is looked at only when that has gone stale |
| `RuntimeFlag.CachedFlag.EmergencyDisabled` | apps/api/core/runtime_flags.py:134-153 | environment or file: never off while the environment says on |
| `RuntimeFlag.AnswerIsFreshOrTheReadFailed` | apps/api/core/runtime_flags.py:86-116 | over any reads the answer is younger than its time to live unless the read at that moment failed |
| `RuntimeFlag.LooksAreApart` | apps/api/core/runtime_flags.py:86-116 | from a reading that succeeded to the next look at the file it is at least a time to live |
| `RuntimeFlag.SwitchIsLateExactlyIfReadsFail` | apps/api/core/runtime_flags.py:86-116 | a time to live after the file was placed the switch is off if and only if the read at that moment failed and the last success is stale and from before the file |
| `RuntimeFlag.SwitchTakesEffectWithinTtl` | apps/api/core/runtime_flags.py:86-116 | so every read a time to live later that can be made reports it, whatever failed meanwhile |
| `RuntimeFlag.FailuresKeepTheSwitchOff` | apps/api/core/runtime_flags.py:86-116 | after one good reading without the file, failing reads keep the switch off |
| `Tenancy.ViaIsOwnership` | apps/api/core/tenancy.py:387-400 | nested one- and two-hop sub-queries select exactly the rows whose foreign keys lead to the workspace |
| `Tenancy.CriterionIsOwnership` | apps/api/core/tenancy.py:287-330 | for every database state the criterion of every tenant-scoped table is ownership |
| `TenancyForms.CriterionAsWritten` | apps/api/core/tenancy.py:287-330 | what a row must be for a workspace to see it, row by row of the database: its own, led to it by its keys, or for evidence named in its proof of a remediation |
| `Tenancy.VisibleSetsAreDisjoint` | apps/api/core/tenancy.py:360-400 | no row is visible to two workspaces, on every table but evidence |
| `Tenancy.EvidenceIsDisjointExactlyIfPathsAgree` | apps/api/core/tenancy.py:364-384 | on evidence that holds if and only if the tool-run and remediation paths do not disagree |
| `Tenancy.QueryAnswersWithOwnedRows` | apps/api/core/tenancy.py:575-610 | a query fails if and only if no workspace is bound, and otherwise answers with exactly the rows it owns |
| `TenancyForms.QueryAsWritten` | apps/api/core/tenancy.py:575-610 | the answer is all rows of a table that is not tenant-scoped or with bypass, and else those that meet the criterion, each once and in order |
| `Tenancy.ViaParentAllowed` | apps/api/core/tenancy.py:514-532 | an insert is refused if and only if the first hop with a parent in memory leads to a foreign one |
| `Tenancy.AssertInsertAllowed` | apps/api/core/tenancy.py:455-493 | the guard passes if and only if every pending row passes, and else gives the first refusal |
| `TenancyForms.RefusalAsWritten` | apps/api/core/tenancy.py:455-493 | when an insert is refused, and why: unclassified, unbound, or a row or deciding parent of another workspace |
| `TenancyForms.DecidingAsWritten` | apps/api/core/tenancy.py:514-532 | the deciding parent is that of the first hop with a key in the row and an object in the session |
| `TenancyForms.ResidentAsWritten` | apps/api/core/tenancy.py:514-532 | an object of the session is found by table and id |
| `TenancyForms.InsertAsWritten` | apps/api/core/tenancy.py:455-493 | an insert adds its row to its table and leaves the others alone |
| `Tenancy.DirectInsertStaysHome` | apps/api/core/tenancy.py:455-493 | a guarded direct insert changes no other workspace's view of any row |
| `Tenancy.ResidentParentDecides` | apps/api/core/tenancy.py:514-532 | one hop from its owner, with the parent in memory, an insert passes if and only if the row will belong to the bound workspace |
| `Tenancy.UnscopedParentIsNotConclusive` | apps/api/core/tenancy.py:514-532 | two hops away it says nothing: a parent in memory without a workspace column lets every insert pass |
| `AttackGraph.Builder.AddFinding` | apps/api/scanner_engine/attack_graph.py:206-231 | a finding adds exactly its nodes and edges, hung on its service, else on its host, else nowhere |
| `AttackGraph.BuildGraph` | apps/api/scanner_engine/attack_graph.py:141-247 | nodes and edges are exactly those the evidence supports, each once, none dangling, and the nodes are the first mentions in the order in which the evidence is read |
| `AttackGraph.FirstMentionWins` | apps/api/scanner_engine/attack_graph.py:141-168 | every node carries the text, cut to its length, and the tool of the first mention of its id |
| `AttackGraphEvidence.NodesAsWritten` | apps/api/scanner_engine/attack_graph.py:141-247 | which nodes the graph has, by the evidence alone |
| `AttackGraphEvidence.EdgesAsWritten` | apps/api/scanner_engine/attack_graph.py:141-247 | which edges it has, by the evidence alone, and from where to where |
| `AttackGraphEvidence.TextsAsWritten` | apps/api/scanner_engine/attack_graph.py:141-247 | what each kind of node is called, at most 160 characters, and the tool it names |
| `AttackGraphEvidence.CountsAsWritten` | apps/api/scanner_engine/attack_graph.py:134-138 | the counts are of the ids of each kind |
| `AttackGraphUpdates.Counts` | apps/api/scanner_engine/attack_graph.py:134-138 | the counts are those of the nodes by type |
| `AttackGraphUpdates.CountsAddUp` | apps/api/scanner_engine/attack_graph.py:134-138 | they add up to the number of nodes |
| `AttackGraphUpdates.MergeGraph` | apps/api/scanner_engine/attack_graph.py:250-277 | the fresh graph with the existing first-seen times; other keys are kept |
| `AttackGraphUpdates.UpdateGraph` | apps/api/scanner_engine/attack_graph.py:280-290 | both together: supported exactly, seen now, first seen as before |
| `AttackGraphUpdates.EdgesGrow` | apps/api/scanner_engine/attack_graph.py:141-247 | exposes, maps-to and granted edges only grow with the evidence |
| `AttackGraphUpdates.PlaceMovesOnlyToTheService` | apps/api/scanner_engine/attack_graph.py:206-222 | a finding keeps its place unless its service has become a node; then it moves there |
| `AttackGraphUpdates.HostEdgeIsReplaced` | apps/api/scanner_engine/attack_graph.py:206-222 | so a has-finding edge can disappear |
| `AttackGraphUpdates.NodeTimes` | apps/api/scanner_engine/attack_graph.py:250-277 | along any run of updates with growing evidence a node's first-seen is the time of the first update that supported it, its last-seen the latest |
| `AttackGraphUpdates.NodeIdsOnlyGrow` | apps/api/scanner_engine/attack_graph.py:250-290 | node ids only grow |
| `AttackGraphUpdates.EdgeTimes` | apps/api/scanner_engine/attack_graph.py:250-277 | the same first-seen law for every edge but has-finding |
| `Retention.PurgeLeavesTheRestEligible` | apps/api/retention/repo.py:101-152 | deleting one batch leaves exactly the remaining eligible rows eligible |
| `Retention.OldestSize` | apps/api/retention/repo.py:127-137 | a batch is full while there are enough eligible rows |
| `Retention.EligibleByNumber` | apps/api/retention/repo.py:101-125 | eligible are, by their number in the ranking newest first with the undated last, the rows after the first min_keep that are dated before the cutoff |
| `Retention.BatchByNumber` | apps/api/retention/repo.py:127-137 | a batch takes the eligible rows with fewer than a batch after them |
| `Retention.NewestSurvive` | apps/api/retention/repo.py:101-137 | the newest min_keep rows survive any number of purges with any cutoffs and batches |
| `Retention.OthersSurvive` | apps/api/retention/repo.py:101-137 | so do rows too young, undated or outside the sweep |
| `Retention.EligibleLeft` | apps/api/retention/repo.py:127-152 | how many eligible rows are left after any number of purges |
| `Retention.DrainsInCeilPurges` | apps/api/retention/repo.py:127-152 | the table drains in exactly ceil(eligible / batch) purges |
| `RetentionSweep.SweepRows` | apps/api/retention/service.py:253-263 | count, select and delete by id take exactly the batch, and nothing in a dry run |
| `RetentionSweep.Workspace.SweepScans` | apps/api/retention/service.py:269-289 | the ids and object addresses are those of the rows before the cascade |
| `RetentionSweep.Workspace.PurgeWorkspace` | apps/api/retention/service.py:249-302 | the whole sweep: every table, every count, every capture and every audit row by those before |
| `RetentionSweep.DryRunChangesNothing` | apps/api/retention/service.py:249-302 | a dry run changes no table |
| `RetentionSweep.NothingIsStranded` | apps/api/retention/repo.py:193-223 | every report object, tool run and proof object whose row a sweep deletes is among the targets it leaves |
| `RetentionSweep.NothingKeptIsATarget` | apps/api/retention/repo.py:193-223 | and nothing else is: each target belongs to a report, a tool run or a proof object that went |
| `RetentionSweep.CascadesAsWritten` | apps/api/retention/repo.py:283-292 | with the scans go exactly their tool runs and the proof of these |
| `RetentionSweep.ReportsStayHonest` | apps/api/retention/repo.py:226-280 | a surviving report cites only scans that exist, or is marked |
| `RetentionSweep.ReportsAsWritten` | apps/api/retention/repo.py:226-280 | a report that stays is as it was, and marked if and only if it was or cites a scan that went |
| `RetentionSweep.OwnEntryIsPrunedExactlyIfOld` | apps/api/retention/service.py:299-302 | an audit row written in a run is pruned by it if and only if it is stored as older than the cutoff, not among the newest, and among the oldest that a batch holds |
| `RetentionSweep.EntriesAsWritten` | apps/api/retention/service.py:253-263 | a run that is no dry run writes one audit row for each table in which it found anything eligible |
| `RetentionSweep.CountsAsWritten` | apps/api/retention/service.py:253-263 | what is counted of each table, dry run or not |
| `RetentionSweep.OwnEntriesSurviveWithinTheWindow` | apps/api/retention/service.py:130-131 | none is pruned while the clock that stamps the rows lags behind that of the cutoff by no more than the window; on one clock never |
| `RetentionSweep.LaggingClockPrunesAnOwnEntry` | apps/api/retention/service.py:249-302 | for every window and every lag greater than it there is a whole sweep that prunes the row it wrote |
| `RetentionSweep.ProtectedRowsStay` | apps/api/retention/repo.py:101-137 | no table loses one of its newest rows, the newest of the audit table being those after the rows that the run itself writes |
| `RetentionSweep.OwnEntriesTakePlaces` | apps/api/retention/service.py:299-302 | an earlier audit row is protected in the last pass if and only if its newer rows and those of the run, six at most, are together fewer than are kept |
| `RetentionSweep.NewestAuditRowCanGo` | apps/api/retention/service.py:299-302 | so a sweep exists that prunes what was the newest audit row |
| `ObjectBackup.BackupObjects` | apps/api/dr/objects.py:91-113 | archive and manifest describe exactly the listed objects of the configured buckets |
| `ObjectBackup.RestoreObjects` | apps/api/dr/objects.py:116-140 | the store after a restore, member by member, and the count |
| `ObjectBackup.CountMatches` | apps/api/dr/objects.py:143-164 | the archive check is the count of file members |
| `ObjectBackup.FilesAsWritten` | apps/api/dr/objects.py:143-164 | counted are the members that are files |
| `ObjectBackup.MembersAsWritten` | apps/api/dr/objects.py:116-140 | a member that is no file restores nothing, one that is writes the one object it names |
| `ObjectBackup.NamesLeadBack` | apps/api/dr/objects.py:131 | an archive name leads back to its object if and only if the bucket has no slash |
| `ObjectBackup.ObjectsRoundTrip` | apps/api/dr/objects.py:91-164 | where no bucket name has a slash, backup then restore into an empty store reproduces every object whole, and the check passes |
| `BackupSet.SealOpens` | apps/api/dr/crypto.py:52-73 | opening undoes sealing with the same key and fails with any other, for every content without the header; content with it is left alone |
| `BackupSet.HeaderAsWritten` | apps/api/dr/crypto.py:43-50 | sealed content is told by its first eight bytes, "MBSENC1" and a line feed |
| `BackupTools.SampleIsSound` | apps/api/dr/crypto.py:52-73 | a cipher and an archive format exist that invert themselves and notice a wrong key, as the results about sets ask |
| `BackupSet.Set.Encrypt` | apps/api/dr/service.py:130-142 | both files are sealed and their checksums taken again |
| `BackupSet.Set.RunBackup` | apps/api/dr/service.py:69-188 | a completed set verifies if and only if what comes back of it passes the checks, and keeps the dump and the archive unless one begins with the header; a failed set always verifies, and only the result tells |
| `BackupSet.Set.MakeSet` | apps/api/dr/service.py:86-150 | the components, their sealing and the manifest |
| `BackupSet.Set.Verify` | apps/api/dr/service.py:279-315 | verification is exactly the conjunction over the components that were made |
| `BackupSet.Set.RunRestore` | apps/api/dr/service.py:320-410 | nothing is touched unless the set is there and verifies; a set that keeps its contents restores them |
| `BackupSet.KeptSetVerifies` | apps/api/dr/service.py:279-315 | a set that keeps its contents verifies |
| `BackupSet.IncompleteSetVerifies` | apps/api/dr/service.py:298-310 | every set of a failed backup verifies |
| `BackupSet.StatusIsNotLookedAt` | apps/api/dr/service.py:279-315 | the verdict depends on which components were made and on their sealing, not on the status of the set |
| `BackupSet.CompleteSet` | apps/api/dr/service.py:247-276 | when the set of a completed backup verifies, and when it keeps its contents |
| `BackupSet.WrongKeyFailsClosed` | apps/api/dr/service.py:247-276 | with another key a set does not verify as soon as either file was sealed |
| `BackupSet.CorruptionIsNoticed` | apps/api/dr/service.py:57-64 | changed bytes of either file of a kept set are noticed as far as the digest tells them apart |
| `BackupSet.BackupRoundTrip` | apps/api/dr/service.py:69-410 | sealed or not, a backup verifies and restores every object of the configured buckets, where no bucket name has a slash and neither plaintext begins with the header |
| `BackupSet.Cleanup` | apps/api/dr/service.py:430-452 | with distinct names, deletes exactly the directories other than that of the drills that are older than the cutoff and have at least max(min_keep, 1) sets after them |
| `BackupSet.NewestSetsStay` | apps/api/dr/service.py:430-452 | of its result: whatever the ages, as many sets as are to be kept stay, or all where there are fewer |
| `Correlator.Correlate` | apps/api/ai_agent/correlator.py:31-78 | it raises if and only if there are two findings or more and the reply is malformed; else the groups are non-empty and cover exactly the findings, two are in one group if and only if one proposed group is the first to name either, and groups are disjoint if and only if no id left out by the model was given twice |

## Left out

- Every database statement is one atomic step; transactions, isolation levels, lock waits and retries are not modelled.
- The lease of scans to remote workers (`apps/api/scanner_manager/app.py`), `reconcile_orphaned_tool_runs`, the relay of Celery task ids and the deletion of scan rows: further writers with guards of the same kind.
- ScanProtocol.InvRun: a beat without an execution token, which `run_scan` called directly makes, is a statement of the table but not a step of the protocol.
- Time is an integer; the start time is truncated to the whole second as the database stores it, the heartbeat is not.
- The origin index is rebuilt at each use in the model; the source keeps it on the scan object.
- Strings are ASCII; Unicode case folding, NFKC checks and the digit limit of integer parsing are not modelled. `urlunsplit` behaves as in Python 3.12.4 and later.
- The bracket check of `urlsplit`, which differs between library versions, is a parameter and may be any predicate.
- DNS: `resolve_hostname` is not part of this model; the resolved addresses are an input.
- NetGuard.AcceptedRangeIsAuthorized: says nothing of ranges whose network address is public or multicast, because the code tests only their edges.
- The special-purpose address classes of the platform library are a parameter: any union of blocks.
- Context binding of the network policy and of the workspace (`bind`, `set_policy`, `workspace_scope`) is a parameter of each operation.
- Scores and confidences are real numbers, not floats; prompt text, sanitising and the audit summary are not modelled.
- AgentLoop: the budget check and the persisted snapshot read the clock at one moment; phases, objectives and usage records are not modelled; the steps of the exploitation phase are a count.
- AgentDecision.ParseCandidates: evidence lists and rationales, which do not affect selection, are not modelled.
- Coverage.BuildCoverage: reason texts are not modelled, and scope and boundary verdicts are inputs.
- Adaptive.Select: provenance is not modelled; the scope guard's verdict is an arbitrary predicate.
- Which tools, capabilities and tables exist is a parameter: any registry.
- RateLimiter: the bucket of a path and the principal of a request are inputs; times are real numbers and requests of one key come in time order.
- RuntimeFlag: the lock around the cache is not modelled; a read is one step.
- Tenancy: updates and deletes through the rewriting hook, which filter by the same criterion; NULL is told from false only where it matters, that is nowhere in a filter.
- Tenancy.QueryAnswersWithOwnedRows: aggregate statements escape the rewriting hook; they must apply the same criterion themselves, and whether they do is not part of this model.
- Tenancy.UnscopedParentIsNotConclusive: who checks these rows is left to the service layer, which is not part of this model.
- AttackGraph.BuildGraph: attributes, confidences, the source of a node and the host helpers' text handling are left out; a node without a tool carries the empty text.
- Retention: one workspace at a time; the loop over workspaces, metrics and the deletion of objects after the commit are left out. Lists of captured ids are sets.
- RetentionSweep.OwnEntryIsPrunedExactlyIfOld: the stored time of an audit row is an input.
- BackupSet: the archive format, the cipher, the digest and the dump check are parameters; an empty key, a missing file beside its checksum and a truncated sealed file shorter than its nonce raise in the source and are not modelled. Off-site replication, drills, metrics and alerts are left out.
- BackupSet.CorruptionIsNoticed: states detection up to the digest, whose collision resistance is not modelled.
- Correlator.Correlate: the order within a group follows the reply and is not stated; rationales are left out.
- Regex scrubbing of text, JWT, TOTP, password hashing, settings parsing, worker administration, metrics, the web frontend and the health scripts: outside this model.
