# Verified model of approvals, access, cost guarding, rules and attention ranking

This project models the stateful services of a cloud-cost governance backend and proves what they promise. To verify it, run `dafny verify dfyconfig.toml` here.

| Part | Files | What is modelled |
|---|---|---|
| Approval protocol | `ApprovalModel`, `ApprovalProtocol`, `ApprovalTheorems`, `ApprovalOrder`, `ApprovalOutcomes`, `ApprovalChecks`, `ApprovalClock`, `ApprovalStore` | requests, assignments, tagging batches and recommendation outcomes; create, approve, reject and execute calls as steps of a state machine, as methods over the tables, and theorems over every run |
| Access and saved context | `Access` (with the tables in `Directory`), `Grants`, `Context` | grant resolution, the tenant-level test, the grant table, the repair of the saved organization, tenant and account, session alignment |
| Paid-call guard | `CostModel`, `CostTheorems`, `CostSync`, `CostRequests` | quota, lease lock, usage log and release as separate steps of any number of workers; the snapshot cache and its synchronisation; manual requests and their rollback |
| Cost trends | `Trends`, `Rounding` | week-over-week windows, totals and rounding |
| Rule engine | `RuleModel`, `RuleOperators`, `RuleEngine`, `Bags` | conditions with their exceptions, findings, the two rule indexes and the nested loops |
| Attention ranking | `AttentionRows`, `Attention` | sub-scores, one row per entity, order, independence of the unit of savings |
| Small kernels | `CertificateLinks`, `OrgSlug`, `Text`, `Collections` | linking distributions with certificates, unique slugs, normalised texts, the seen-set loop |

Where the source changes rows in place, a class method does the same, statement by statement, and its `ensures` ties the new rows to a specification function; the theorems are about those functions and about runs of them.

Choices that the statements depend on:

- A service call is atomic. An exception that escapes it is a rollback, so a refused call leaves every row as it was; only the request that a tagging batch has committed survives a fault at the batch. (The outcome service also commits in the middle of some calls; what it has committed by then is not modelled as surviving.)
- Outside behaviour is an input of each call: `outcomeFault`, `hookFault` and `batchFault` let the outcome service and the insertion of a batch fail at any point, `ok` names the rows whose cloud call and outcome update succeed, `tagsAccepted` stands for tag validation and execution policy, `usable` tells whether points, trends, amounts and dates can be made of fetched costs, `World` gives users, grants, accounts and recommendations, which may differ from call to call.
- Identifiers are natural numbers. New rows get unused ones, and creation times strictly increase; `EqualTimesOpenTwo` shows that the latter is needed. A query for "the first row" returns the first row of the modelled table.
- `AlignedPrincipal` takes organizations as the services store them, active or disabled (app/schemas/root/orgs.py:15), and memberships that name stored organizations.
- Times are microseconds (days in `Attention`), money and scores are exact reals, JSON not-a-number savings are absent. Texts are trimmed of ASCII and Latin-1 white space and lower-cased in ASCII.
- `attempts` records every row that an execution sends towards the provider, also where the account has no role and no call is made.

Places where the code does less than its documentation suggests, each with a lemma:

- Reconciliation sees only the first 500 tenants of an organization (`OpenScopeKeptIffOnFirstPage`, `TenantBeyondFirstPageIsLost`).
- Releasing a lock does not check its owner and a lease can run out under a fetch (`ExclusiveIff`, `OverrunBreaksExclusion`), and the quota is checked before the lock is taken (`OvershootIsReached`, `QuotaExactIff`).
- The manual synchronisation request rolls the usage log back with everything else when an exception escapes. Which requests forget paid calls is told by `ForgetsIff` and `LogIsPaidIff`; the quota bounds the paid calls of the others (`PaidWithinQuota`, `BackedPaidWithinQuota`) and none of those before the first snapshot (`RollbackVoidsTheQuota`).
- Nothing but the column admits a negative stale interval, and no service writes one; under it nothing would be fresh, while zero means 1440 minutes (`NegativeStaleNeverFresh`).
- The finding factory wants the tag operator to the letter while the evaluator normalises it, and a computed field may overwrite the tag list (`MissingTagsCarried`, with `CapitalsLoseTheList` and `ComputedDaysReplaceTheList` as inputs).
- The pending-for-me list ignores its filter when there is no user (`BadgeIsListTotal`).
- Without a positive saving the impact is the raw saving, so the ranking depends on its unit (`UnitIndependentIff`). A missing kind scores as a top recommendation except for its readiness (`MissingKindLosesReadiness`).
- A stored grant role outside the three known ones opens a tenant and shows nothing in it (`TestsPartIffBlind`, `UnknownRoleOpensAnEmptyTenant`); the grant service never stores one (`WellFormedTestIsVisibility`).
- A root user whose only membership is in a disabled organization goes on acting in it after the session has been cleared (`AlignedPrincipal`, `RootActsInDisabledOrg`). For other users the cleared session and the role lookup agree.

## Model

| member | source | states |
|---|---|---|
| ApprovalStore.ApprovalTables.CreateApprovalRequest | app/services/approval_request_service.py:223-408 | creation in place: the refused cases leave every row as it was, in the order the checks are made; a created request is submitted with one pending assignment per distinct approver |
| ApprovalStore.ApprovalTables.CreateTaggingBatch | app/services/bulk_tagging_service.py:175-297 | one request for the first resource, then one batch with a waiting row per resource; a refused check changes nothing, and a fault at the batch leaves the committed request alone |
| ApprovalStore.ApprovalTables.ApproveAssignment | app/services/approval_request_service.py:614-711 | approving in place is the model's `Approve`: the actor's own assignment, then the status, the outcome and the batch hook; a refused or failing call changes no row |
| ApprovalStore.ApprovalTables.OnRequestApproved | app/services/bulk_tagging_service.py:342-373 | the hook marks rows one by one; a swallowed exception leaves exactly the rows behind it unmarked and their outcomes unmoved |
| ApprovalStore.ApprovalTables.RejectAssignment | app/services/approval_request_service.py:714-804 | rejecting in place is the model's `Reject`; a blank reason is refused after the other checks |
| ApprovalStore.ApprovalTables.OnRequestRejected | app/services/bulk_tagging_service.py:376-389 | every row of the batch is blocked and the batch rejected, other batches untouched |
| ApprovalStore.ApprovalTables.ExecuteTaggingBatch | app/services/bulk_tagging_service.py:473-568 | the execution loop: completed rows skipped, every other row sent and then completed or failed; the summary's completed and failed counts add up to the rows and the batch is completed exactly when none failed |
| ApprovalStore.ApprovalTables.ExecuteApprovalRequest | app/services/approval_request_service.py:807-864 | executing runs the batch or applies the recommendation and closes the request; a failure changes no row |
| ApprovalProtocol.StepKeepsInv | app/services/approval_request_service.py:223-864 | every call, in every world and with every outside fault, keeps: status agrees with assignments, one assignment per approver, at most one refusal, only the newest request of a scope open, one batch per request, rows in step with their request |
| ApprovalProtocol.RunKeepsInv | app/services/approval_request_service.py:223-864 | the same over any run with fresh identifiers and increasing creation times |
| ApprovalTheorems.StatusFixedByAssignments | app/services/approval_request_service.py:614-864 | in every reachable state: submitted exactly when all are pending, partially approved exactly when some are granted and some pending and none refused, approved or executed exactly when all are granted, rejected exactly when exactly one is refused |
| ApprovalTheorems.OnlyTheNewestIsOpen | app/services/approval_request_service.py:129-154 | at most one request per tenant, account and recommendation is open, so the newest-only check finds an open request exactly when there is one |
| ApprovalClock.EqualTimesOpenTwo | app/services/approval_request_service.py:129-154 | the strictly increasing creation times are needed: at any one clock value a concrete run (create, reject, create, create) ends with two open requests of one scope |
| ApprovalClock.OneClockTwoOpen | app/services/approval_request_service.py:223-408 | the same in every world in which the creation passes its checks and the approver rejects with a comment |
| ApprovalTheorems.GateMeans | app/services/approval_request_service.py:157-174 | in every reachable state execution is unblocked exactly when there is no request or the newest is unanimously granted and not executed, and reported rejected exactly when the newest has a refusal |
| ApprovalTheorems.RowRanOnlyIfUnanimous | app/services/bulk_tagging_service.py:490-545 | a tagging row is completed or failed only if every assignment of its batch's request is granted |
| ApprovalTheorems.RunEvolves | app/services/approval_request_service.py:614-864 | over any run from any state decisions are taken once, the pending count never grows and a closed request never reopens |
| ApprovalTheorems.DecisionMeasure | app/services/approval_request_service.py:614-804 | a decision that succeeds takes exactly one pending assignment of its request; a refused one changes nothing |
| ApprovalTheorems.RejectionCloses | app/services/approval_request_service.py:714-804 | after one rejection, whatever runs next, the request stays rejected and every later decision on it is refused |
| ApprovalTheorems.GrantedHasItsApproval | app/services/approval_request_service.py:614-711 | every granted assignment in a reachable state goes back to an approve call by that very approver, who had approver access then, in stored texts |
| ApprovalTheorems.RefusedHasItsRejection | app/services/approval_request_service.py:714-804 | every refused assignment in a reachable state goes back to a reject call by that very approver, with access then and a comment |
| ApprovalOrder.AnyOrderApproves | app/services/approval_request_service.py:614-711 | in any run that otherwise leaves a submitted request alone, however the approvals are ordered and interleaved with other calls: each succeeds, and the request is partially approved after some and approved exactly with the last of its approvers |
| ApprovalOrder.OrderDoesNotMatter | app/services/approval_request_service.py:614-711 | two such runs with the same approvers leave the request with the same status and assignments |
| ApprovalTheorems.ExecutionSettlesBatch | app/services/bulk_tagging_service.py:503-557 | one execution leaves every row completed or failed, counts adding up, batch completed exactly when no row failed, and a row completed exactly when it was before or its recommendation exists and its calls succeed now |
| ApprovalTheorems.SentExactly | app/services/bulk_tagging_service.py:503-520 | the rows sent by one execution are exactly the ones not completed before, each once |
| ApprovalTheorems.RunKeepsDone | app/services/bulk_tagging_service.py:503-540 | over any run a completed row stays completed and is never sent again |
| ApprovalTheorems.BadgeIsListTotal | app/services/approvals_service.py:65-83 | in every reachable state a user's badge equals the total of the pending-for-me list; without a user, exactly when the organization has no request, because the list then ignores its filter |
| ApprovalOutcomes.HookStopsAtFirstFault | app/services/bulk_tagging_service.py:359-373 | the approval hook finishes exactly the rows before the first gone recommendation or outside fault |
| ApprovalOutcomes.ApprovalMovesWorkflow | app/services/approval_request_service.py:672-706 | an approval that leaves others pending moves no outcome; the last one moves the request's recommendation and those of the finished rows to approved, and no other |
| ApprovalOutcomes.AppliedOnlyWhenUnanimous | app/services/approval_request_service.py:807-864 | over any run in which no other service applies recommendations, a recommendation is applied only when every approver of a request that covers it has granted |
| ApprovalOutcomes.RequestWasCreated | app/services/approval_request_service.py:223-408 | every request of a run goes back to a creation call for an existing, then undecided recommendation of a tenant of its organization, with a fitting execution owner; its assignments are for exactly the approvers named there, each a member with approver access in stored texts at that time |
| ApprovalModel.MayApproveIff | app/services/approval_request_service.py:40-59 | the check before every decision and for every approver passes exactly root users, organization admins, approvers by membership without any grant in the organization, and users with a deciding grant that stores approver or admin |
| ApprovalChecks.NoAccessForbidden | app/services/approval_request_service.py:631-641 | a decision on an open request is forbidden exactly to users without that access, whatever is assigned to them |
| ApprovalChecks.ApprovalSucceedsIff | app/services/approval_request_service.py:626-698 | in every reachable state an approval succeeds exactly for a waiting approver with access to an open request, unless the outcome service fails at the last one |
| ApprovalChecks.RejectionSucceedsIff | app/services/approval_request_service.py:726-775 | a rejection succeeds exactly for a waiting approver with access and a comment that is not blank, short of an outcome fault |
| ApprovalChecks.ExecutionSucceedsIff | app/services/approval_request_service.py:820-858 | in every reachable state a request is executed exactly when it is approved, short of an outcome fault where there is no batch |
| ApprovalChecks.BatchExecutionSucceedsIff | app/services/bulk_tagging_service.py:483-494 | a batch is executed by itself exactly when its request is approved and not yet executed |
| ApprovalChecks.StampsTheClock | app/services/approval_request_service.py:614-864 | each call stamps the request it completes, rejects or executes with its own time and keeps the other stamps |
| ApprovalChecks.CreationSucceedsIff | app/services/approval_request_service.py:236-345 | creation succeeds exactly when the scope is creatable, the approvers named are one or more members with approver access, the owner fits and the tags pass |
| ApprovalChecks.IneligibleApproverRefused | app/services/approval_request_service.py:284-308 | naming among members one without approver access is refused for that reason |
| ApprovalChecks.BatchCreationMeans | app/services/bulk_tagging_service.py:190-297 | what a successful batch creation leaves: the request for the first resource and, short of a fault, one pending batch with one waiting row per resource, in order |
| ApprovalChecks.HookMarks | app/services/bulk_tagging_service.py:359-373 | the hook marks exactly the rows up to the one it stops at and keeps everything else |
| ApprovalChecks.ListShows | app/services/approval_request_service.py:436-456 | a request is listed exactly when organization, recommendation and status fit and it waits for the user who asks for pending ones, or names the user without the admin view |
| ApprovalOutcomes.ExecutionMovesWorkflow | app/services/approval_request_service.py:824-858 | executing a request without a batch marks its own existing recommendation applied, executing one with a batch those of the rows that succeed now, and no other moves |
| ApprovalOutcomes.BatchExecutionMovesWorkflow | app/services/bulk_tagging_service.py:503-544 | executing a batch by itself applies the recommendations of exactly the rows that succeed now |
| ApprovalOutcomes.RejectionMovesWorkflow | app/services/approval_request_service.py:758-775 | a rejection moves the existing recommendation of the request to rejected unless it is applied or verified, and no other |
| ApprovalOutcomes.CreationMovesNoWorkflow | app/services/approval_request_service.py:257-263 | creating a request moves no recommendation |
| Access.BestRoleFromGrantRows | app/services/access_resolution_service.py:124-136 | over the account's own grants when there are any, over the tenant-wide ones otherwise: admin exactly when one stores admin, else approver exactly when one stores approver, else viewer exactly when one stores viewer, else nothing |
| Access.DecidesIff | app/services/access_resolution_service.py:124-130 | the deciding rows are the account's own grants, or the tenant-wide ones where it has none |
| Access.AccessByTexts | app/services/access_resolution_service.py:178-197 | access in stored texts alone: everything for root and organization admins; without any grant in the organization what the membership says; else the greatest text among the deciding grants |
| Access.PrincipalByTexts | app/services/access_resolution_service.py:139-175 | the same for a request's principal, in the tenant's organization; without a user by the role text alone |
| Access.FilterCloudAccountsVisible | app/services/access_resolution_service.py:230-240 | keeps, in order, exactly the accounts that resolve to some access |
| Access.VisibilityOpensTenant | app/services/access_resolution_service.py:200-240 | a visible account opens its tenant, whatever role texts are stored |
| Access.TestsPartIffBlind | app/services/access_resolution_service.py:200-240 | for every table and principal, on a tenant with an organization and an account, the tenant-level test agrees with filtering its accounts except exactly when grants decide, some grant reaches the tenant and none that decides for an account stores a known role |
| Access.TenantTestIsVisibility | app/services/access_resolution_service.py:200-240 | so they agree whenever the principal's own grants for the tenant store known roles, whatever others hold |
| Access.UnknownRoleOpensAnEmptyTenant | app/services/access_resolution_service.py:124-136 | a concrete grant with an empty role opens a tenant and shows none of its accounts |
| Grants.GrantTable.Create | app/services/access_grant_service.py:34-95 | succeeds exactly when the role text is viewer, approver or admin and the tenant, account and uniqueness checks pass; adds one row that stores the normalised text, and keeps the table well formed |
| Grants.GrantTable.Update | app/services/access_grant_service.py:98-118 | changes the role of one grant of the organization only, and keeps the table well formed |
| Grants.GrantTable.Delete | app/services/access_grant_service.py:121-130 | removes exactly the grant of that id in that organization, and keeps the table well formed |
| Grants.WellFormedTestIsVisibility | app/services/access_grant_service.py:15-22 | over the tables that the grant service keeps, the tenant-level test is visibility for every principal |
| Grants.ScopeIsOneGrant | app/services/access_grant_service.py:62-76 | one user has at most one grant per scope |
| Grants.AccountGrantOverrides | app/services/access_resolution_service.py:124-197 | in a well-formed table a member with grants gets exactly the level that the account grant's text names, else the tenant-wide grant's, else nothing, even where that is less than the tenant-wide level |
| Context.AccessibleOrgIdsOrdered | app/services/context_defaults_service.py:20-42 | active organizations by name for a root user, those of the memberships without repetition for others |
| Context.AccessibleTenantIds | app/services/context_defaults_service.py:111-117 | the open tenants among the first 500 of the organization, in order |
| Context.UserDefaults.Reconcile | app/services/context_defaults_service.py:190-271 | the statement-by-statement repair stores exactly the reconciled triple, and commits exactly when the triple changed |
| Context.ReconcileSettles | app/services/context_defaults_service.py:190-271 | from any stored triple: an accessible organization, an open tenant of its first page, a visible account of that tenant, each null only when no choice exists |
| Context.SettledIffFixed | app/services/context_defaults_service.py:190-271 | reconciliation leaves a triple alone exactly when it is settled |
| Context.ReconcileIdempotent | app/services/context_defaults_service.py:190-271 | a second reconciliation changes nothing, even after the session moved to another organization |
| Context.ValidPrefixKept | app/services/context_defaults_service.py:213-266 | an accessible organization is kept, then a valid tenant, then a valid account |
| Context.OpenScopeKeptIffOnFirstPage | app/services/context_defaults_service.py:235-251 | a complete triple that the access rules allow is kept exactly when its tenant is on the first page of 500 |
| Context.TenantNullIffNoneOnFirstPage | app/services/context_defaults_service.py:111-117 | the tenant is null exactly when no tenant on the first page is open; the page is all tenants up to 500 |
| Context.TenantBeyondFirstPageIsLost | app/services/tenant_service.py:138-152 | a viewer whose only grant is for a tenant beyond the page loses a valid saved triple |
| Context.AuthSession.EnsureOrganizationValid | app/services/context_defaults_service.py:78-108 | the session keeps its organization if accessible, else takes the saved default, else the first, else none; the principal is rebuilt from it |
| Context.AlignedPrincipal | app/core/authz.py:40-72 | after alignment the principal acts in the session's accessible organization; with none accessible the session is cleared, and the principal still names one exactly when a root user's memberships name that one and no other |
| Context.PrincipalMeans | app/core/authz.py:33-72 | in a session's organization a member gets the membership's text if it is one of the six known ones and viewer otherwise, a root user without membership root_admin, anybody else nothing; a disabled organization only root users |
| Context.RootActsInDisabledOrg | app/core/authz.py:40-72 | a concrete root user keeps acting in a disabled organization after the session is cleared |
| CostTheorems.FetchesExclude | app/cost/repository.py:335-380 | in every interleaving in which each fetch of a signature ends strictly before its lease, at most one fetch of it is in flight, whatever fetches of other signatures do |
| CostTheorems.IdleStartIsExclusive | app/cost/repository.py:335-371 | idle workers over any lock table with one row per signature satisfy the invariant behind it |
| CostTheorems.TableAlwaysOk | app/cost/repository.py:335-380 | whatever happens, one lock row per signature and no lease beyond ten minutes from now |
| CostTheorems.AbandonedLockIsFree | app/cost/repository.py:348-364 | a crashed holder's lock can be taken again once ten minutes pass in which nobody takes the signature |
| CostTheorems.AcquiredIsHeld | app/cost/repository.py:335-371 | an acquisition succeeds exactly on a free signature, gives the caller 600 seconds and touches no other row |
| CostTheorems.CrashLeavesLock | app/cost/repository.py:335-371 | a crash frees no lock and forgets no logged call |
| CostTheorems.ExclusiveIff | app/cost/repository.py:335-380 | over all runs from idle workers in which every fetch of a signature is held less than a given time, there is never more than one in flight exactly when that time is at most the lease |
| CostTheorems.OverrunBreaksExclusion | app/cost/repository.py:374-380 | release does not ask for the owner: a concrete run in which one worker outlives its lease and lets two others fetch together inside theirs |
| CostTheorems.SinceMidnightIsToday | app/cost/repository.py:192-214 | counting rows since UTC midnight is counting the rows of today when none is dated later |
| CostTheorems.GuardIff | app/cost/guards.py:16-47 | a call passes exactly when synchronisation is enabled and the live calls of its organization and account today and of its job are each below their limits; the first of these that fails is the reason reported |
| CostTheorems.DisabledStaysOut | app/cost/guards.py:26-27 | switched off, no worker passes the guard |
| CostRequests.DisabledPaysNothing | app/cost/guards.py:26-27 | switched off, a synchronisation pays and writes nothing and changes nothing: fresh snapshots are served, others as stale, and without one it fails |
| CostRequests.ForbiddenIff | app/cost/guards.py:49-66 | a forced refresh is forbidden exactly to those who are neither system, root, organization admin nor an admin whom the policy allows |
| CostTheorems.QuotaHolds | app/cost/client.py:36-69 | in every interleaving with at most W calls of the quota between guard and log, the calls logged per organization-day, account-day or job stay within limit + W - 1, midnight crossings included and whatever other calls run; none under a limit of zero or less |
| CostTheorems.QuotaNeverExceeded | app/cost/guards.py:16-47 | the same from idle workers and an empty log, for every day; with W = 1 the quota is exact |
| CostTheorems.OvershootIsReached | app/cost/client.py:37-54 | for every quota, limit and width some run of that width from idle workers logs exactly limit + W - 1 calls |
| CostTheorems.QuotaExactIff | app/cost/client.py:37-54 | so the limit is never exceeded over all runs of a width exactly when the width is 1 or the limit is zero or less |
| CostTheorems.GuardedCallIsARun | app/cost/client.py:36-69 | the sequential guarded call is the run of the machine by one worker |
| CostSync.CostStore.AcquireFetchLock | app/cost/repository.py:335-371 | acquires exactly when no lease on the signature is running; keeps one row per signature |
| CostSync.CostStore.ReleaseFetchLock | app/cost/repository.py:374-380 | frees the signature's row now, whoever holds it, and touches no other |
| CostSync.CostStore.GuardAndCall | app/cost/client.py:36-69 | guard, acquire, call, log and release in place; the lock is released on every path past the acquisition |
| CostSync.CostStore.UpsertSnapshot | app/cost/repository.py:100-156 | updates the day's snapshot or adds it, keeping one per account and day |
| CostSync.CostStore.SyncCostSnapshot | app/cost/service.py:24-162 | cache hit, three guarded fetches, write, or fallback to the stale snapshot, in place; results that cannot be used raise after the third fetch and write nothing |
| CostSync.SyncRun | app/cost/service.py:50-162 | over any sequential run of synchronisations of any accounts in which one account's own are unforced: one snapshot per day, its writes at least the stale interval apart, and its latest snapshot carrying its latest write |
| CostSync.WritesBounded | app/cost/service.py:50-162 | so a run whose writes span T has at most 1 + T / stale_after of them |
| CostSync.LiveCallMeansStale | app/cost/service.py:50-65 | an unforced synchronisation is served from the snapshot exactly while that is fresh, then with no call and no change; otherwise it makes at most three live calls, exactly three when it writes |
| CostRequests.ForgetsIff | app/api/v1/sync_cost.py:38-53 | a request has paid for calls that its rollback forgets exactly when it goes live and completes its first call and then fails at a later one with no snapshot stored, or returns results of no use |
| CostRequests.LogIsPaidIff | app/api/v1/sync_cost.py:38-53 | over any requests of any accounts the usage log holds every paid call exactly when none of them is in that case, and fewer otherwise |
| CostRequests.BackedForgetsNothing | app/api/v1/sync_cost.py:38-53 | in particular when every requested account has a snapshot at the start and results are usable, since a stored key stays stored |
| CostRequests.PaidWithinQuota | app/cost/client.py:36-69 | over time-ordered requests from an empty log of which none forgets, the paid calls of any organization-day, account-day or job stay within the limit |
| CostRequests.BackedPaidWithinQuota | app/cost/client.py:36-69 | the same under the condition on stored snapshots and usable results |
| CostRequests.RollbackVoidsTheQuota | app/api/v1/sync_cost.py:38-53 | before there is a snapshot, any list of requests whose first call succeeds and whose second fails pays one call each, on one day or for one job, and leaves all tables empty, under any limits |
| CostSync.FreshAfterWrite | app/cost/policies.py:18-36 | what a synchronisation wrote is served, for no call, exactly until the stale interval has passed |
| CostSync.NegativeStaleNeverFresh | app/cost/policies.py:19-30 | with a negative interval (zero means the default) nothing is ever served fresh |
| Trends.WindowsAreTheLastRows | app/cost/service.py:177-178 | the two windows lie end to end and are the last min(14, n) rows, the current one being the last min(7, n) |
| Trends.BuildTrends | app/cost/service.py:173-207 | the accumulating loops return, per service in sorted order, direction, rounded change and rounded costs of the two windows |
| Trends.EachServiceOnce | app/cost/service.py:187-206 | each service of either window appears exactly once, in strictly increasing order |
| Trends.ServiceTotalsAddUp | app/cost/service.py:181-186 | per-service totals over any duplicate-free covering list add up to the total of all amounts |
| Trends.TrendsAddUp | app/cost/service.py:181-205 | unrounded totals add up to both window totals; the rounded current costs miss theirs by at most half a cent per service |
| Trends.DirectionMeaning | app/cost/service.py:192-197 | increasing or decreasing means a move by more than 15 per cent of a positive previous cost; from zero any positive cost is an increase; a negative previous cost is always stable |
| Trends.TrendMeaning | app/cost/service.py:189-206 | each trend names its service, both costs to the half cent, the change in per cent of a positive previous cost to the half hundredth, and the direction |
| Trends.SummarizeDailyRows | app/cost/normalizers.py:9-16 | one point per day with the day's total rounded half up, in order |
| Rounding.HalfUpIsNearest | app/core/cost_window.py:58-65 | rounding to cents gives the nearest whole number of cents, away from zero on ties, and that amount is unique |
| RuleModel.HoldsEach | app/rules/evaluator.py:20-29 | the early-returning conjunction holds exactly when every condition holds without raising |
| RuleOperators.DateOperators | app/rules/evaluator.py:98-112 | on a readable date n days ahead and a threshold t, days_until_lte holds exactly when n <= t and days_until_gt exactly when n > t |
| RuleOperators.UnreadableDateFails | app/rules/evaluator.py:49-58 | anything that is no readable date fails both |
| RuleOperators.NumberOperators | app/rules/evaluator.py:141-169 | on values that are numbers, booleans or spelled numbers, the six comparisons compare the numbers |
| RuleOperators.TextOperators | app/rules/evaluator.py:143-162 | with a side that is no number, equality is equality of texts and no order holds |
| RuleOperators.PresenceOperators | app/rules/evaluator.py:117-136 | exists and missing ask for null, not_empty_list for a list with items, bool_true and bool_false for one of the six false values |
| RuleOperators.MembershipOperators | app/rules/evaluator.py:82-93 | in and not_in ask for a listed text, startswith_any for a listed prefix up to capitals and white space |
| RuleOperators.FieldsOperators | app/rules/evaluator.py:73-77 | any_bool_true holds exactly when some listed field is true, all_bool_false exactly when none is |
| RuleOperators.TagOperator | app/rules/evaluator.py:67-68 | any_tag_missing holds exactly when some listed tag is absent or false |
| RuleOperators.UnknownOperator | app/rules/evaluator.py:171-172 | any other operator never holds |
| RuleOperators.EvidenceOf | app/rules/finding_factory.py:33-38 | a key that no computed field writes is in the evidence exactly when asked for and not null, with the configuration's value |
| RuleOperators.CertificateFound | app/rules/config/acm.yaml:4-38 | the shipped certificate rule finds a certificate with a readable date exactly when that lies one to thirty days ahead, and the finding names certificate, date and days |
| RuleOperators.CertificateReported | app/rules/engine.py:86-119 | so does the engine on a latest snapshot, whatever other rules are loaded |
| RuleModel.ConditionOrderDoesNotMatter | app/rules/evaluator.py:20-29 | a rule with its conditions in any other order matches the same resources with the same findings up to the order of the missing tags, although failing and raising conditions may change places |
| RuleModel.EmitsIff | app/rules/engine.py:39-66 | a rule yields a finding exactly when all its conditions hold and building it reads no key of a column that is no mapping |
| RuleModel.MissingTagsCarried | app/rules/finding_factory.py:40-63 | a finding of a tag rule lists the required missing tags, non-empty and nothing else, exactly when a tag condition is spelled any_tag_missing to the letter and no firing computed field overwrites the list |
| RuleModel.CapitalsLoseTheList | app/rules/finding_factory.py:41-50 | a concrete rule spelled Any_Tag_Missing finds an untagged resource and its finding has no list |
| RuleModel.ComputedDaysReplaceTheList | app/rules/finding_factory.py:53-61 | a concrete computed field named missing_tags replaces the list by a number of days |
| RuleModel.OtherSpellingCarriesNothing | app/rules/finding_factory.py:41-50 | a tag rule spelled otherwise yields findings without the list |
| RuleEngine.Registry.constructor | app/rules/registry.py:101-110 | the loops build both indexes: enabled rules by resource type in load order, the last enabled rule by finding type |
| RuleEngine.Registry.RulesForResourceType | app/rules/registry.py:114-116 | the lookup returns exactly the enabled rules of the type |
| RuleEngine.Registry.GetRuleForFinding | app/rules/registry.py:118-120 | the lookup returns the last enabled rule of the finding type, if any |
| RuleEngine.RunRuleEngine | app/rules/engine.py:73-119 | the nested indexed loops emit, as a multiset, what a plain scan of all rules over all latest snapshots emits |
| RuleEngine.IndexLosesNothing | app/rules/registry.py:101-116 | trying the indexed rules on a snapshot is trying all rules on it |
| RuleEngine.IndexedIsScan | app/rules/engine.py:86-119 | the regrouping by resource type and the sorting change no multiplicity |
| RuleEngine.ScanMembers | app/rules/engine.py:39-66 | a finding is emitted exactly when some enabled rule matches some latest snapshot of the type it targets and building it does not raise |
| AttentionRows.Deduplicate | app/services/attention_scoring_service.py:277-290 | the dictionary loop yields the best rows in order of first appearance, then the rows without an id |
| AttentionRows.BestRowsSelect | app/services/attention_scoring_service.py:277-288 | one row per entity with an id: its first highest-scored candidate, and nothing else |
| AttentionRows.SortIsStable | app/services/attention_scoring_service.py:291 | equal scores keep their order |
| Attention.ScoreAttentionCandidates | app/services/attention_scoring_service.py:218-294 | scores, deduplicates, sorts and attaches actions in place |
| Attention.MissingKindLosesReadiness | app/services/attention_scoring_service.py:74-95 | a candidate without a kind gets the row of a top recommendation but for readiness 50 instead of 55 and what depends on it, a score no higher |
| Attention.PriorityMonotone | app/services/attention_scoring_service.py:249-253 | raising any sub-score lowers neither the priority nor its rounding |
| Attention.RiskierOrOlderRanksNoLower | app/services/attention_scoring_service.py:17-58 | a candidate at a higher risk (low, unknown, medium, high) or waiting longer scores no lower and falls into no lower bucket |
| Attention.SavingRanksNoLower | app/services/attention_scoring_service.py:110-129 | on the same scale a greater saving ranks no lower |
| Attention.BucketTellsScore | app/services/attention_scoring_service.py:132-139 | critical from 76, high from 58, medium from 40, to the rounding of the score |
| Attention.ActionMeans | app/services/attention_scoring_service.py:168-192 | repair exactly for failures, execution exactly for eligible ready ones, approval exactly while it waits, review exactly for top recommendations of impact 60 or more |
| Attention.RowShows | app/services/attention_scoring_service.py:258-275 | a row carries its candidate's identity, and shows risk 30, 45, 60 or 100 and friction 10, 30, 60 or 90 by the age in days, 45 without one |
| Attention.RankedRows | app/services/attention_scoring_service.py:277-293 | the output is in descending order of scores in [0, 100]; as a multiset it is the best row per entity plus every row without an id, as often as it occurs |
| Attention.ScalingChangesNothing | app/services/attention_scoring_service.py:110-129 | multiplying all savings by a positive factor changes no row when some saving is positive, or none that counts is negative |
| Attention.ScalingShows | app/services/attention_scoring_service.py:110-129 | otherwise some factor changes a row |
| Attention.UnitIndependentIff | app/services/attention_scoring_service.py:110-129 | the rows are independent of the unit of the savings exactly when some saving is positive or no candidate other than a failure has a negative one |
| CertificateLinks.IndexByArn | app/services/aws_extended_inventory.py:1895-1901 | certificates by id, the last one on equal ids |
| CertificateLinks.IndexByDomain | app/services/aws_extended_inventory.py:1896-1905 | a certificate is indexed under exactly its non-empty trimmed lower-cased names |
| CertificateLinks.FindMatch | app/services/aws_extended_inventory.py:1906-1928 | with distinct ids the indexed choice is the plain one: the certificate the ARN names, else the only one sharing a domain or alias, else none |
| CertificateLinks.ChoiceIsUnique | app/services/aws_extended_inventory.py:1906-1928 | the plain choice is unique, so the indexed one is determined by it |
| CertificateLinks.SharesIff | app/services/aws_extended_inventory.py:1902-1922 | sharing means that a domain or alias and a domain or alternative name agree, trimmed and lower-cased, and are not blank |
| CertificateLinks.LinksSay | app/services/aws_extended_inventory.py:1929-1961 | both links name the other side by type, id and name and say how the match was found; a certificate without a domain goes by its id |
| CertificateLinks.Inventory.Link | app/services/aws_extended_inventory.py:1890-1961 | the whole pass in place: every distribution linked by its choice, every certificate's links extended by exactly the distributions matched to it, in order |
| CertificateLinks.Inventory.LinkOne | app/services/aws_extended_inventory.py:1929-1961 | one match written on both sides and nowhere else |
| CertificateLinks.BackLinkIffMatched | app/services/aws_extended_inventory.py:1945-1961 | a certificate links back to a distribution exactly when that distribution was matched to it |
| CertificateLinks.LinksGoBothWays | app/services/aws_extended_inventory.py:1890-1961 | with distinct ids and no links before, a distribution links to a certificate exactly when that links back, and to at most one |
| OrgSlug.EnsureUniqueOrgSlug | app/core/org_slug.py:18-31 | ends after at most k + 2 tries for k organizations with the first free candidate, at most 255 characters as long as suffixes are |
| OrgSlug.NumberReadBack | app/core/org_slug.py:29-30 | the number can be read back from a numbered candidate, which the trailing-dash strip never touches |
| OrgSlug.NumberedDistinct | app/core/org_slug.py:24-31 | numbered candidates are pairwise distinct |
| OrgSlug.PlainRepeatsIff | app/core/org_slug.py:21-30 | the plain candidate repeats a numbered one exactly when the truncated base ends in that suffix |
| OrgSlug.TakenCandidatesNeedRows | app/core/org_slug.py:23-31 | n - 1 taken numbered candidates need at least n - 1 stored organizations |
| Text.NormalizeIdempotent | app/services/access_grant_service.py:15-22 | a normalised role text survives being stored and read back |
| Text.NormalizeMeans | app/services/access_grant_service.py:15-22 | normalising takes off the white space on both sides and nothing else, and lowers every letter in place |
| Collections.DedupLoop | app/services/approval_request_service.py:277-283 | the seen-set loop keeps first occurrences in order, one of each |

## Left out

- Row locks and overlapping transactions: approving takes no row lock, so unanimity is claimed for calls one after another only.
- Notifications, email, comments, name and role snapshots, prompts and copilot wording: they decide nothing.
- User deletion, reset scripts, schemas, migrations and the HTTP layer.
- Execution policy and tag-value validation: one input bit of creation; the tag values themselves are not stored.
- The legacy savings, proof and preflight parts of the outcome service: only the workflow status is modelled (suggested, approved, rejected, applied, verified).
- Cloud, tagging and cost-explorer calls: arbitrary success or failure of each.
- Effective policy lookup and its defaults: a policy is an input of each call; usage summaries and aggregations are queries without consequences here.
- Snapshot contents: an opaque payload; the trends and points that go into it are modelled on their own.
- Concurrent first insertion of a lock row: acquisition is one atomic step.
- Uncommitted rows of the cost store: its helpers flush and only the caller commits (app/cost/repository.py:188, app/api/v1/sync_cost.py:50), so another transaction's guard does not count a logged but uncommitted call. Across transactions, "between guard and log" in `QuotaHolds` reads "between guard and commit", and lock rows exclude only once committed.
- `apply_context_defaults_patch` and the seeding of defaults on a first grant: they may leave a stale tenant by design, which reconciliation repairs from any state.
- Session alignment for principals without a user: they are returned unchanged.
- Float parsing, ISO dates and `str()` in rule conditions: functions of the library given to the evaluator; parsed infinities and not-a-number are outside it. Rule templates and the evidence wrapper are texts only.
- Floating-point error and Unicode case folding: arithmetic is exact, lower-casing is ASCII.
- Reason lines and titles of attention rows: presentation.
- `slugify_name`: one regular-expression call.
- An explicit null configuration on a matched certificate, on which the linking code raises.
- The sync orchestrator, queue and worker are not part of this model.
