/**
 * Paid cost calls: quota check, lease lock, usage log and release as separate steps of any number of workers over
 * one store. Times are microseconds.
 */
module CostModel {
  import opened Collections

  const DAY := 86_400_000_000
  const LEASE := 600_000_000

  datatype CallContext = CallContext(org: Id, tenant: Id, account: Id, provider: string, job: Option<Id>)

  datatype Policy = Policy(
    provider: string, enabled: bool, maxPerOrgDay: int, maxPerDay: int, maxPerJob: int,
    staleAfterMinutes: int, allowAdminForceRefresh: bool)

  datatype LockRow = LockRow(sig: Id, ctx: CallContext, lockedUntil: int)
  datatype UsageRow = UsageRow(ctx: CallContext, sig: Id, cacheHit: bool, createdAt: int)

  function Day(t: int): int {
    t / DAY
  }

  function StartOfDay(t: int): int {
    Day(t) * DAY
  }

  // ---- quotas ----------------------------------------------------------------------------------

  datatype Quota = OrgDay(org: Id, provider: string)
                 | AccountDay(org: Id, tenant: Id, account: Id, provider: string)
                 | JobTotal(job: Id)

  predicate Charged(q: Quota, c: CallContext) {
    match q
    case OrgDay(org, provider) => c.org == org && c.provider == provider
    case AccountDay(org, tenant, account, provider) =>
      c.org == org && c.tenant == tenant && c.account == account && c.provider == provider
    case JobTotal(job) => c.job == Some(job)
  }

  function Limit(q: Quota, p: Policy): int {
    match q
    case OrgDay(_, _) => p.maxPerOrgDay
    case AccountDay(_, _, _, _) => p.maxPerDay
    case JobTotal(_) => p.maxPerJob
  }

  /** Live rows charged to the quota; day quotas count from `since` on. */
  function UsageSince(rows: seq<UsageRow>, q: Quota, since: int): nat {
    if rows == [] then 0
    else
      var r := rows[|rows| - 1];
      UsageSince(rows[..|rows| - 1], q, since) +
      (if !r.cacheHit && Charged(q, r.ctx) && (q.JobTotal? || r.createdAt >= since) then 1 else 0)
  }

  datatype CallFault = SyncDisabled | OrgQuotaExceeded | AccountQuotaExceeded | JobQuotaExceeded
                     | FetchInProgress | FetchFailed

  /** The guard: the first reason to refuse a live call. */
  function GuardFault(rows: seq<UsageRow>, p: Policy, c: CallContext, now: int): Option<CallFault> {
    var sod := StartOfDay(now);
    if !p.enabled then Some(SyncDisabled)
    else if UsageSince(rows, OrgDay(c.org, p.provider), sod) >= p.maxPerOrgDay then Some(OrgQuotaExceeded)
    else if UsageSince(rows, AccountDay(c.org, c.tenant, c.account, p.provider), sod) >= p.maxPerDay then
      Some(AccountQuotaExceeded)
    else if c.job.Some? && UsageSince(rows, JobTotal(c.job.value), sod) >= p.maxPerJob then Some(JobQuotaExceeded)
    else None
  }

  // ---- the lock table ----------------------------------------------------------------------------

  function FindLock(locks: seq<LockRow>, sig: Id): (i: nat)
    ensures i <= |locks|
    ensures i < |locks| ==> locks[i].sig == sig
    ensures forall j :: 0 <= j < i ==> locks[j].sig != sig
  {
    FirstIndex(locks, (row: LockRow) => row.sig == sig)
  }

  /** The table after a successful acquisition; nothing while another lease runs. */
  function AcquireLock(locks: seq<LockRow>, c: CallContext, sig: Id, now: int): Option<seq<LockRow>> {
    var i := FindLock(locks, sig);
    if i < |locks| then
      if locks[i].lockedUntil > now then None
      else Some(locks[i := locks[i].(ctx := c, lockedUntil := now + LEASE)])
    else Some(locks + [LockRow(sig, c, now + LEASE)])
  }

  /** Release looks the row up by signature alone: it does not ask who holds the lease. */
  function ReleaseLock(locks: seq<LockRow>, sig: Id, now: int): seq<LockRow> {
    var i := FindLock(locks, sig);
    if i < |locks| then locks[i := locks[i].(lockedUntil := now)] else locks
  }

  // ---- workers -----------------------------------------------------------------------------------

  /** Where a worker stands in one guarded call. */
  datatype Phase =
    | Idle
    | Guarded(ctx: CallContext, sig: Id)
    | Fetching(ctx: CallContext, sig: Id, lease: int)
    | Releasing(ctx: CallContext, sig: Id, lease: int)

  datatype System = System(now: int, locks: seq<LockRow>, usage: seq<UsageRow>, workers: seq<Phase>)

  datatype Event =
    | Tick(elapsed: nat)
    | PassGuard(w: nat, ctx: CallContext, sig: Id, policy: Policy)
    | Acquire(w: nat)
    | LogCall(w: nat)
    | FetchRaises(w: nat)
    | Release(w: nat)
    | Crash(w: nat)

  /** One atomic step; an event that is not enabled changes nothing. */
  function Next(s: System, e: Event): System {
    if e.Tick? then s.(now := s.now + e.elapsed)
    else if e.w >= |s.workers| then s
    else
      var p := s.workers[e.w];
      match e
      case PassGuard(w, c, sig, policy) =>
        if p.Idle? && policy.provider == c.provider && GuardFault(s.usage, policy, c, s.now).None? then
          s.(workers := s.workers[w := Guarded(c, sig)])
        else s
      case Acquire(w) =>
        if !p.Guarded? then s
        else (match AcquireLock(s.locks, p.ctx, p.sig, s.now)
              case None => s.(workers := s.workers[w := Idle])
              case Some(locks) =>
                s.(locks := locks, workers := s.workers[w := Fetching(p.ctx, p.sig, s.now + LEASE)]))
      case LogCall(w) =>
        if !p.Fetching? then s
        else s.(usage := s.usage + [UsageRow(p.ctx, p.sig, false, s.now)],
                workers := s.workers[w := Releasing(p.ctx, p.sig, p.lease)])
      case FetchRaises(w) =>
        if !p.Fetching? then s else s.(workers := s.workers[w := Releasing(p.ctx, p.sig, p.lease)])
      case Release(w) =>
        if !p.Releasing? then s
        else s.(locks := ReleaseLock(s.locks, p.sig, s.now), workers := s.workers[w := Idle])
      case Crash(w) => s.(workers := s.workers[w := Idle])
  }

  function Run(s: System, es: seq<Event>): System {
    if es == [] then s else Next(Run(s, es[..|es| - 1]), es[|es| - 1])
  }

  /** A worker holds a fetch from its acquisition to its release. */
  predicate InFlight(p: Phase) {
    p.Fetching? || p.Releasing?
  }

  /** A worker has passed the guard and not logged yet. */
  predicate Between(p: Phase) {
    p.Guarded? || p.Fetching?
  }

  // ---- one whole call, made by one worker while no other runs ---------------------------------------

  datatype Times = Times(guard: int, acquire: int, log: int, release: int)

  datatype Store = Store(locks: seq<LockRow>, usage: seq<UsageRow>)

  function GuardedCall(s: Store, p: Policy, c: CallContext, sig: Id, t: Times, succeeds: bool)
    : (Store, Option<CallFault>)
  {
    var fault := GuardFault(s.usage, p, c, t.guard);
    if fault.Some? then (s, fault)
    else match AcquireLock(s.locks, c, sig, t.acquire)
      case None => (s, Some(FetchInProgress))
      case Some(locks) =>
        var usage := if succeeds then s.usage + [UsageRow(c, sig, false, t.log)] else s.usage;
        (Store(ReleaseLock(locks, sig, t.release), usage), if succeeds then None else Some(FetchFailed))
  }

  /** The same call as a run of the machine by worker 0. */
  function CallEvents(p: Policy, c: CallContext, sig: Id, t: Times, succeeds: bool): seq<Event>
    requires t.guard <= t.acquire <= t.log <= t.release
  {
    [PassGuard(0, c, sig, p), Tick(t.acquire - t.guard), Acquire(0), Tick(t.log - t.acquire),
     if succeeds then LogCall(0) else FetchRaises(0), Tick(t.release - t.log), Release(0)]
  }
}
