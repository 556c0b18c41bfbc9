/** Exclusion of concurrent fetches, reuse of abandoned leases and the quota bounds, over every interleaving. */
module CostTheorems {
  import opened Collections
  import opened CostModel

  // ---- exclusion -----------------------------------------------------------------------------------

  ghost predicate OneRowPerSignature(locks: seq<LockRow>) {
    forall i, j :: 0 <= i < j < |locks| ==> locks[i].sig != locks[j].sig
  }

  /** A worker in flight for the signature. */
  predicate Fetches(p: Phase, sig: Id) {
    InFlight(p) && p.sig == sig
  }

  /** Every fetch of the signature in flight is still inside its own lease. */
  ghost predicate LeasesRunning(s: System, sig: Id) {
    forall w :: 0 <= w < |s.workers| && Fetches(s.workers[w], sig) ==> s.now < s.workers[w].lease
  }

  ghost predicate AtMostOneFetch(s: System, sig: Id) {
    forall v, w :: 0 <= v < w < |s.workers| ==> !Fetches(s.workers[v], sig) || !Fetches(s.workers[w], sig)
  }

  /** The signature's lock row carries the worker's own lease. */
  ghost predicate HoldsLease(locks: seq<LockRow>, p: Phase)
    requires InFlight(p)
  {
    exists i :: 0 <= i < |locks| && locks[i].sig == p.sig && locks[i].lockedUntil == p.lease
  }

  ghost predicate LockInv(s: System, sig: Id) {
    OneRowPerSignature(s.locks) && AtMostOneFetch(s, sig) &&
    forall w :: 0 <= w < |s.workers| && Fetches(s.workers[w], sig) ==> HoldsLease(s.locks, s.workers[w])
  }

  /** Idle workers and any table with one row per signature satisfy it. */
  lemma IdleStartIsExclusive(now: int, locks: seq<LockRow>, usage: seq<UsageRow>, n: nat, sig: Id)
    requires OneRowPerSignature(locks)
    ensures LockInv(System(now, locks, usage, seq(n, _ => Idle)), sig)
  {
  }

  lemma AcquireKeepsLockInv(s: System, w: nat, sig: Id)
    requires LockInv(s, sig) && LeasesRunning(s, sig) && w < |s.workers| && s.workers[w].Guarded?
    ensures LockInv(Next(s, Acquire(w)), sig)
  {
    var p := s.workers[w];
    var t := Next(s, Acquire(w));
    var i := FindLock(s.locks, p.sig);
    forall v | 0 <= v < |s.workers| && v != w && Fetches(s.workers[v], sig)
      ensures t.workers[w].Fetching? ==> p.sig != sig
      ensures HoldsLease(t.locks, s.workers[v])
    {
      var j :| 0 <= j < |s.locks| && s.locks[j].sig == s.workers[v].sig && s.locks[j].lockedUntil == s.workers[v].lease;
      assert t.locks[j].sig == s.locks[j].sig;
    }
    if t.workers[w].Fetching? {
      assert t.locks[i].sig == p.sig && t.locks[i].lockedUntil == t.workers[w].lease;
    }
  }

  lemma ReleaseKeepsLockInv(s: System, w: nat, sig: Id)
    requires LockInv(s, sig) && w < |s.workers| && s.workers[w].Releasing?
    ensures LockInv(Next(s, Release(w)), sig)
  {
    var t := Next(s, Release(w));
    forall v | 0 <= v < |s.workers| && v != w && Fetches(s.workers[v], sig)
      ensures HoldsLease(t.locks, s.workers[v])
    {
      var j :| 0 <= j < |s.locks| && s.locks[j].sig == s.workers[v].sig && s.locks[j].lockedUntil == s.workers[v].lease;
      assert Fetches(s.workers[w], sig) <==> s.workers[w].sig == sig;
      assert t.locks[j] == s.locks[j];
    }
  }

  lemma NextKeepsLockInv(s: System, e: Event, sig: Id)
    requires LockInv(s, sig) && LeasesRunning(s, sig)
    ensures LockInv(Next(s, e), sig)
  {
    if e.Acquire? && e.w < |s.workers| && s.workers[e.w].Guarded? {
      AcquireKeepsLockInv(s, e.w, sig);
    } else if e.Release? && e.w < |s.workers| && s.workers[e.w].Releasing? {
      ReleaseKeepsLockInv(s, e.w, sig);
    } else {
      var t := Next(s, e);
      assert t.locks == s.locks;
    }
  }

  /** Before every step of the run, each fetch of the signature in flight is inside its lease. */
  ghost predicate LeasesKept(s: System, es: seq<Event>, sig: Id) {
    es == [] || (LeasesKept(s, es[..|es| - 1], sig) && LeasesRunning(Run(s, es[..|es| - 1]), sig))
  }

  /**
   * In every interleaving in which each fetch of a signature ends strictly before its lease does, whatever the fetches
   * of other signatures do, there is never more than one fetch of it in flight, and one lock row per signature.
   */
  lemma {:induction false} FetchesExclude(s: System, es: seq<Event>, sig: Id)
    requires LockInv(s, sig) && LeasesKept(s, es, sig)
    ensures LockInv(Run(s, es), sig)
  {
    if es != [] {
      var n := |es| - 1;
      FetchesExclude(s, es[..n], sig);
      NextKeepsLockInv(Run(s, es[..n]), es[n], sig);
    }
  }

  /** The lock table alone, leases kept or not: one row per signature, and no lease beyond ten minutes from now. */
  ghost predicate TableOk(s: System) {
    OneRowPerSignature(s.locks) && forall i :: 0 <= i < |s.locks| ==> s.locks[i].lockedUntil <= s.now + LEASE
  }

  lemma {:induction false} TableAlwaysOk(s: System, es: seq<Event>)
    requires TableOk(s)
    ensures TableOk(Run(s, es)) && Run(s, es).now >= s.now
  {
    if es != [] {
      TableAlwaysOk(s, es[..|es| - 1]);
    }
  }

  /** An acquisition succeeds on a free signature, makes it the caller's for a whole lease, and touches no other row. */
  lemma AcquiredIsHeld(locks: seq<LockRow>, c: CallContext, sig: Id, now: int)
    requires OneRowPerSignature(locks)
    ensures var r := AcquireLock(locks, c, sig, now);
      (r.Some? <==> forall i :: 0 <= i < |locks| && locks[i].sig == sig ==> locks[i].lockedUntil <= now) &&
      (r.Some? ==> OneRowPerSignature(r.value) && LockRow(sig, c, now + 600_000_000) in r.value) &&
      (r.Some? ==> forall row: LockRow :: row.sig != sig ==> (row in r.value <==> row in locks))
  {
    var i := FindLock(locks, sig);
    var r := AcquireLock(locks, c, sig, now);
    if r.Some? {
      assert r.value[i] in r.value;
      forall row: LockRow | row.sig != sig ensures row in r.value <==> row in locks {
        if row in locks {
          var j :| 0 <= j < |locks| && locks[j] == row;
          assert r.value[j] == row;
        }
      }
    }
  }

  /** A crash makes the worker idle and leaves its lock and the log as they are. */
  lemma CrashLeavesLock(s: System, w: nat)
    requires w < |s.workers|
    ensures var t := Next(s, Crash(w));
      t.workers == s.workers[w := Idle] && t.locks == s.locks && t.usage == s.usage && t.now == s.now
  {
  }

  /** The event takes a new lease on the signature. */
  predicate TakesLease(s: System, e: Event, sig: Id) {
    e.Acquire? && e.w < |s.workers| && s.workers[e.w].Guarded? && s.workers[e.w].sig == sig &&
    AcquireLock(s.locks, s.workers[e.w].ctx, sig, s.now).Some?
  }

  /** No step of the run takes a new lease on the signature. */
  ghost predicate NoNewLease(s: System, es: seq<Event>, sig: Id) {
    es == [] || (NoNewLease(s, es[..|es| - 1], sig) && !TakesLease(Run(s, es[..|es| - 1]), es[|es| - 1], sig))
  }

  /** Until when the signature is locked; a signature without a row is free. */
  function LockedUntil(locks: seq<LockRow>, sig: Id, otherwise: int): int {
    var i := FindLock(locks, sig);
    if i < |locks| then locks[i].lockedUntil else otherwise
  }

  lemma {:induction false} LeaseOnlyShrinks(s: System, es: seq<Event>, sig: Id)
    requires TableOk(s) && NoNewLease(s, es, sig)
    ensures var t := Run(s, es);
      LockedUntil(t.locks, sig, t.now) <= t.now || LockedUntil(t.locks, sig, t.now) == LockedUntil(s.locks, sig, t.now)
  {
    if es != [] {
      hide TakesLease, Next, LockedUntil, TableOk;
      var n := |es| - 1;
      LeaseOnlyShrinks(s, es[..n], sig);
      TableAlwaysOk(s, es[..n]);
      LeaseStep(Run(s, es[..n]), es[n], sig);
    }
  }

  lemma LeaseStep(s: System, e: Event, sig: Id)
    requires TableOk(s) && !TakesLease(s, e, sig)
    ensures var t := Next(s, e);
      LockedUntil(t.locks, sig, t.now) <= t.now || LockedUntil(t.locks, sig, t.now) == LockedUntil(s.locks, sig, t.now)
  {
    var t := Next(s, e);
    if t.locks != s.locks {
      var p := s.workers[e.w];
      var i, j := FindLock(s.locks, p.sig), FindLock(s.locks, sig);
      if e.Acquire? {
        assert p.sig != sig;
        assert j < |s.locks| ==> t.locks[j] == s.locks[j];
      }
      FindIsUnique(t.locks, sig);
      assert forall k :: 0 <= k < |s.locks| ==> t.locks[k].sig == s.locks[k].sig;
      assert j < |s.locks| ==> FindLock(t.locks, sig) == j;
    }
  }

  lemma FindIsUnique(locks: seq<LockRow>, sig: Id)
    ensures forall i :: 0 <= i < |locks| && locks[i].sig == sig ==> FindLock(locks, sig) <= i
  {
  }

  /**
   * A lock left behind by a crashed holder can be taken again: once ten minutes have passed in which nobody took the
   * signature, the next acquisition succeeds.
   */
  lemma AbandonedLockIsFree(s: System, es: seq<Event>, sig: Id, c: CallContext)
    requires TableOk(s) && NoNewLease(s, es, sig)
    requires Run(s, es).now >= s.now + LEASE
    ensures AcquireLock(Run(s, es).locks, c, sig, Run(s, es).now).Some?
  {
    LeaseOnlyShrinks(s, es, sig);
  }

  /**
   * One overrun breaks exclusion for the others: worker 0 outlives its lease, worker 1 takes over, worker 0's release
   * frees worker 1's lock, and workers 1 and 2 then fetch together, both well inside their leases.
   */
  lemma OverrunBreaksExclusion(c: CallContext, sig: Id)
    ensures var g := Guarded(c, sig);
      var es := [Acquire(0), Tick(LEASE), Acquire(1), FetchRaises(0), Release(0), Acquire(2)];
      var t := Run(System(0, [], [], [g, g, g]), es);
      |t.workers| == 3 && t.workers[0].Idle? && t.workers[1].Fetching? && t.workers[2].Fetching? &&
      t.workers[1].sig == t.workers[2].sig == sig && LeasesRunning(t, sig) && !AtMostOneFetch(t, sig)
  {
    var g := Guarded(c, sig);
    RunSix(System(0, [], [], [g, g, g]), [Acquire(0), Tick(LEASE), Acquire(1), FetchRaises(0), Release(0), Acquire(2)]);
    OverrunStart(c, sig);
    OverrunEnd(c, sig);
    hide Run, Next;
  }

  /** Worker 0 fetches, outlives its lease, and worker 1 takes over. */
  lemma OverrunStart(c: CallContext, sig: Id)
    ensures var g := Guarded(c, sig);
      Next(Next(Next(System(0, [], [], [g, g, g]), Acquire(0)), Tick(LEASE)), Acquire(1)) ==
      System(LEASE, [LockRow(sig, c, 2 * LEASE)], [], [Fetching(c, sig, LEASE), Fetching(c, sig, 2 * LEASE), g])
  {
    var g, f := Guarded(c, sig), Fetching(c, sig, LEASE);
    assert Next(System(0, [], [], [g, g, g]), Acquire(0)) == System(0, [LockRow(sig, c, LEASE)], [], [f, g, g]);
  }

  /** Worker 0's release frees worker 1's lock for worker 2. */
  lemma OverrunEnd(c: CallContext, sig: Id)
    ensures var g, f := Guarded(c, sig), Fetching(c, sig, 2 * LEASE);
      var s := System(LEASE, [LockRow(sig, c, 2 * LEASE)], [], [Fetching(c, sig, LEASE), f, g]);
      Next(Next(Next(s, FetchRaises(0)), Release(0)), Acquire(2)) ==
      System(LEASE, [LockRow(sig, c, 2 * LEASE)], [], [Idle, f, f])
  {
    var g, f := Guarded(c, sig), Fetching(c, sig, 2 * LEASE);
    var s := System(LEASE, [LockRow(sig, c, 2 * LEASE)], [], [Fetching(c, sig, LEASE), f, g]);
    assert Next(Next(s, FetchRaises(0)), Release(0)) == System(LEASE, [LockRow(sig, c, LEASE)], [], [Idle, f, g]);
  }

  lemma RunSix(s: System, es: seq<Event>)
    requires |es| == 6
    ensures Run(s, es) == Next(Next(Next(Next(Next(Next(s, es[0]), es[1]), es[2]), es[3]), es[4]), es[5])
  {
    assert es[..5][..4] == es[..4] && es[..4][..3] == es[..3] && es[..3][..2] == es[..2] && es[..2][..1] == es[..1];
    assert es[..1][..0] == [];
    assert Run(s, es[..1]) == Next(s, es[0]);
    assert Run(s, es[..2]) == Next(Run(s, es[..1]), es[1]);
    assert Run(s, es[..3]) == Next(Run(s, es[..2]), es[2]);
    assert Run(s, es[..4]) == Next(Run(s, es[..3]), es[3]);
    assert Run(s, es[..5]) == Next(Run(s, es[..4]), es[4]);
  }

  // ---- quotas --------------------------------------------------------------------------------------

  /** Logged live calls charged to the quota on a day; a job's total has no day. */
  function Logged(rows: seq<UsageRow>, q: Quota, day: int): nat {
    if rows == [] then 0
    else
      var r := rows[|rows| - 1];
      Logged(rows[..|rows| - 1], q, day) +
      (if !r.cacheHit && Charged(q, r.ctx) && (q.JobTotal? || Day(r.createdAt) == day) then 1 else 0)
  }

  /** Calls charged to the quota that are past the guard and not logged yet. */
  function CountCharged(ws: seq<Phase>, q: Quota): nat {
    if ws == [] then 0
    else CountCharged(ws[..|ws| - 1], q) +
         (if Between(ws[|ws| - 1]) && Charged(q, ws[|ws| - 1].ctx) then 1 else 0)
  }

  function One(p: Phase, q: Quota): nat {
    if Between(p) && Charged(q, p.ctx) then 1 else 0
  }

  lemma {:induction false} CountChargedUpdate(ws: seq<Phase>, q: Quota, w: nat, p: Phase)
    requires w < |ws|
    ensures CountCharged(ws[w := p], q) == CountCharged(ws, q) - One(ws[w], q) + One(p, q)
  {
    var n := |ws| - 1;
    if w < n {
      assert ws[w := p][..n] == ws[..n][w := p];
      CountChargedUpdate(ws[..n], q, w, p);
    } else {
      assert ws[w := p][..n] == ws[..n];
    }
  }

  lemma {:induction false} ChargedAmongAll(ws: seq<Phase>, q: Quota)
    ensures CountCharged(ws, q) <= |ws|
  {
    if ws != [] {
      ChargedAmongAll(ws[..|ws| - 1], q);
    }
  }

  ghost predicate NoFutureRows(s: System) {
    forall i :: 0 <= i < |s.usage| ==> s.usage[i].createdAt <= s.now
  }

  lemma DayBounds(t: int, u: int)
    ensures t <= u ==> Day(t) <= Day(u)
    ensures t >= StartOfDay(u) <==> Day(t) >= Day(u)
  {
  }

  /** With no row in the future, counting since midnight is counting today. */
  lemma {:induction false} SinceMidnightIsToday(rows: seq<UsageRow>, q: Quota, now: int)
    requires forall i :: 0 <= i < |rows| ==> rows[i].createdAt <= now
    ensures UsageSince(rows, q, StartOfDay(now)) == Logged(rows, q, Day(now))
  {
    if rows != [] {
      var n := |rows| - 1;
      SinceMidnightIsToday(rows[..n], q, now);
      DayBounds(rows[n].createdAt, now);
    }
  }

  // ---- what the guard asks --------------------------------------------------------------------------

  /** Rows that satisfy a condition. */
  function Count(rows: seq<UsageRow>, sel: UsageRow -> bool): nat {
    if rows == [] then 0 else Count(rows[..|rows| - 1], sel) + (if sel(rows[|rows| - 1]) then 1 else 0)
  }

  /** A live call of the organization with the policy's provider, logged on the day. */
  function OrgCallOn(c: CallContext, p: Policy, day: int): UsageRow -> bool {
    (r: UsageRow) => !r.cacheHit && r.ctx.org == c.org && r.ctx.provider == p.provider && r.createdAt / DAY == day
  }

  function AccountCallOn(c: CallContext, p: Policy, day: int): UsageRow -> bool {
    (r: UsageRow) => OrgCallOn(c, p, day)(r) && r.ctx.tenant == c.tenant && r.ctx.account == c.account
  }

  /** A live call of the job, on any day. */
  function JobCall(job: Id): UsageRow -> bool {
    (r: UsageRow) => !r.cacheHit && r.ctx.job == Some(job)
  }

  lemma {:induction false} SinceIsCount(rows: seq<UsageRow>, q: Quota, now: int, sel: UsageRow -> bool)
    requires forall i :: 0 <= i < |rows| ==> rows[i].createdAt <= now
    requires forall r: UsageRow :: sel(r) <==>
      !r.cacheHit && Charged(q, r.ctx) && (q.JobTotal? || r.createdAt / DAY == now / DAY)
    ensures UsageSince(rows, q, StartOfDay(now)) == Count(rows, sel)
  {
    if rows != [] {
      var n := |rows| - 1;
      SinceIsCount(rows[..n], q, now, sel);
      DayBounds(rows[n].createdAt, now);
    }
  }

  /**
   * The guard exactly: a call passes when synchronisation is enabled and its organization's live calls of the day, its
   * account's of the day and its job's of all days are each below their limits; the first of these that fails is
   * reported.
   */
  lemma GuardIff(rows: seq<UsageRow>, p: Policy, c: CallContext, now: int)
    requires forall i :: 0 <= i < |rows| ==> rows[i].createdAt <= now
    ensures var org := Count(rows, OrgCallOn(c, p, now / DAY)) < p.maxPerOrgDay;
      var account := Count(rows, AccountCallOn(c, p, now / DAY)) < p.maxPerDay;
      var job := c.job.Some? ==> Count(rows, JobCall(c.job.value)) < p.maxPerJob;
      var fault := GuardFault(rows, p, c, now);
      (fault.None? <==> p.enabled && org && account && job) &&
      (fault == Some(SyncDisabled) <==> !p.enabled) &&
      (fault == Some(OrgQuotaExceeded) <==> p.enabled && !org) &&
      (fault == Some(AccountQuotaExceeded) <==> p.enabled && org && !account) &&
      (fault == Some(JobQuotaExceeded) <==> p.enabled && org && account && !job)
  {
    SinceIsCount(rows, OrgDay(c.org, p.provider), now, OrgCallOn(c, p, now / DAY));
    SinceIsCount(rows, AccountDay(c.org, c.tenant, c.account, p.provider), now, AccountCallOn(c, p, now / DAY));
    if c.job.Some? {
      SinceIsCount(rows, JobTotal(c.job.value), now, JobCall(c.job.value));
    }
    hide UsageSince, Count, StartOfDay;
  }

  /** Switched off, no call passes the guard: the machine stays as it is. */
  lemma DisabledStaysOut(s: System, e: Event)
    requires e.PassGuard? && !e.policy.enabled
    ensures Next(s, e) == s
  {
  }

  lemma {:induction false} NothingLoggedTomorrow(rows: seq<UsageRow>, q: Quota, now: int, day: int)
    requires !q.JobTotal? && day > Day(now) && forall i :: 0 <= i < |rows| ==> rows[i].createdAt <= now
    ensures Logged(rows, q, day) == 0
  {
    if rows != [] {
      NothingLoggedTomorrow(rows[..|rows| - 1], q, now, day);
      DayBounds(rows[|rows| - 1].createdAt, now);
    }
  }

  /** What may be logged when limits are at most `limit` and at most `width` calls stand between guard and log. */
  function Bound(limit: int, width: int): int {
    if limit <= 0 then 0 else limit + width - 1
  }

  ghost predicate QuotaInv(s: System, q: Quota, limit: int, width: int) {
    NoFutureRows(s) &&
    (forall day :: Logged(s.usage, q, day) <= Bound(limit, width)) &&
    Logged(s.usage, q, Day(s.now)) + CountCharged(s.workers, q) <= Bound(limit, width) &&
    (limit <= 0 ==> CountCharged(s.workers, q) == 0)
  }

  /** Policies that charge the quota allow at most `limit`. */
  ghost predicate LimitedBy(e: Event, q: Quota, limit: int) {
    e.PassGuard? && Charged(q, e.ctx) ==> Limit(q, e.policy) <= limit
  }

  lemma GuardCountsQuota(s: System, e: Event, q: Quota, limit: int)
    requires e.PassGuard? && e.policy.provider == e.ctx.provider && Charged(q, e.ctx) && LimitedBy(e, q, limit)
    requires NoFutureRows(s) && GuardFault(s.usage, e.policy, e.ctx, s.now).None?
    ensures Logged(s.usage, q, Day(s.now)) < limit
  {
    SinceMidnightIsToday(s.usage, q, s.now);
  }

  lemma GuardKeepsQuota(s: System, e: Event, q: Quota, limit: int, width: int)
    requires QuotaInv(s, q, limit, width) && LimitedBy(e, q, limit)
    requires CountCharged(Next(s, e).workers, q) <= width
    requires e.PassGuard? && Next(s, e) != s
    ensures QuotaInv(Next(s, e), q, limit, width)
  {
    var t := Next(s, e);
    CountChargedUpdate(s.workers, q, e.w, t.workers[e.w]);
    if Charged(q, e.ctx) {
      GuardCountsQuota(s, e, q, limit);
    }
  }

  lemma LogKeepsQuota(s: System, w: nat, q: Quota, limit: int, width: int)
    requires QuotaInv(s, q, limit, width) && w < |s.workers| && s.workers[w].Fetching?
    ensures QuotaInv(Next(s, LogCall(w)), q, limit, width)
  {
    var t := Next(s, LogCall(w));
    var p := s.workers[w];
    CountChargedUpdate(s.workers, q, w, t.workers[w]);
    var row := UsageRow(p.ctx, p.sig, false, s.now);
    forall day ensures Logged(t.usage, q, day) <= Bound(limit, width) {
      LoggedOneMore(s.usage, row, q, day);
      if q.JobTotal? {
        LoggedAnyDay(s.usage, q, day, Day(s.now));
      }
    }
    LoggedOneMore(s.usage, row, q, Day(s.now));
  }

  lemma LoggedOneMore(rows: seq<UsageRow>, r: UsageRow, q: Quota, day: int)
    ensures Logged(rows + [r], q, day) ==
      Logged(rows, q, day) +
      (if !r.cacheHit && Charged(q, r.ctx) && (q.JobTotal? || Day(r.createdAt) == day) then 1 else 0)
  {
    assert (rows + [r])[..|rows|] == rows;
  }

  /** A job's total does not depend on the day. */
  lemma {:induction false} LoggedAnyDay(rows: seq<UsageRow>, q: Quota, d: int, e: int)
    requires q.JobTotal?
    ensures Logged(rows, q, d) == Logged(rows, q, e)
  {
    if rows != [] {
      LoggedAnyDay(rows[..|rows| - 1], q, d, e);
    }
  }

  lemma TickKeepsQuota(s: System, elapsed: nat, q: Quota, limit: int, width: int)
    requires QuotaInv(s, q, limit, width) && width >= 1 && CountCharged(s.workers, q) <= width
    ensures QuotaInv(Next(s, Tick(elapsed)), q, limit, width)
  {
    var t := Next(s, Tick(elapsed));
    DayBounds(s.now, t.now);
    if q.JobTotal? {
      LoggedAnyDay(s.usage, q, Day(s.now), Day(t.now));
    } else if Day(t.now) != Day(s.now) {
      NothingLoggedTomorrow(s.usage, q, s.now, Day(t.now));
    }
  }

  /** Steps that log nothing and put no new call between guard and log. */
  lemma QuietKeepsQuota(s: System, t: System, w: nat, q: Quota, limit: int, width: int)
    requires QuotaInv(s, q, limit, width) && w < |s.workers|
    requires t.now == s.now && t.usage == s.usage && |t.workers| == |s.workers|
    requires t.workers == s.workers[w := t.workers[w]] && One(t.workers[w], q) <= One(s.workers[w], q)
    ensures QuotaInv(t, q, limit, width)
  {
    CountChargedUpdate(s.workers, q, w, t.workers[w]);
  }

  lemma NextKeepsQuota(s: System, e: Event, q: Quota, limit: int, width: int)
    requires QuotaInv(s, q, limit, width) && LimitedBy(e, q, limit) && width >= 1
    requires CountCharged(s.workers, q) <= width && CountCharged(Next(s, e).workers, q) <= width
    ensures QuotaInv(Next(s, e), q, limit, width)
  {
    if e.Tick? {
      TickKeepsQuota(s, e.elapsed, q, limit, width);
    } else if Next(s, e) != s {
      if e.PassGuard? {
        GuardKeepsQuota(s, e, q, limit, width);
      } else if e.LogCall? {
        LogKeepsQuota(s, e.w, q, limit, width);
      } else {
        QuietKeepsQuota(s, Next(s, e), e.w, q, limit, width);
      }
    }
  }

  /** In every state of the run at most `width` calls charged to the quota stand between guard and log. */
  ghost predicate WidthKept(s: System, es: seq<Event>, q: Quota, width: int) {
    CountCharged(Run(s, es).workers, q) <= width && (es == [] || WidthKept(s, es[..|es| - 1], q, width))
  }

  /**
   * Over every interleaving with at most `width` of the quota's own calls between guard and log, the live calls logged
   * on any day (or for the job) never exceed limit + width - 1, and are none at all under a limit of zero or less. When
   * the quota's calls do not overlap it is exact, whatever other calls run beside them. Calls that pass the guard
   * before midnight and are logged after it are counted on the later day.
   */
  lemma {:induction false} QuotaHolds(s: System, es: seq<Event>, q: Quota, limit: int, width: int)
    requires QuotaInv(s, q, limit, width) && width >= 1
    requires WidthKept(s, es, q, width)
    requires forall n :: 0 <= n < |es| ==> LimitedBy(es[n], q, limit)
    ensures QuotaInv(Run(s, es), q, limit, width)
  {
    if es != [] {
      hide QuotaInv, LimitedBy, Next;
      var n := |es| - 1;
      QuotaHolds(s, es[..n], q, limit, width);
      NextKeepsQuota(Run(s, es[..n]), es[n], q, limit, width);
    }
  }

  /** Idle workers over an empty log satisfy the quota invariant, so the bounds hold from the start. */
  lemma {:induction false} IdleStartMeetsQuota(now: int, locks: seq<LockRow>, n: nat, q: Quota, limit: int, width: nat)
    requires width >= 1
    ensures QuotaInv(System(now, locks, [], seq(n, _ => Idle)), q, limit, width)
  {
    NobodyCharged(n, q);
  }

  lemma {:induction false} NobodyCharged(n: nat, q: Quota)
    ensures CountCharged(seq(n, _ => Idle), q) == 0
  {
    if n > 0 {
      assert seq(n, _ => Idle)[..n - 1] == seq(n - 1, _ => Idle);
      NobodyCharged(n - 1, q);
    }
  }

  /** From idle workers and an empty log: the overshoot is at most width - 1, and a lone worker meets the limit. */
  lemma QuotaNeverExceeded(now: int, locks: seq<LockRow>, n: nat, es: seq<Event>, q: Quota, limit: int, width: nat,
                           day: int)
    requires width >= 1
    requires WidthKept(System(now, locks, [], seq(n, _ => Idle)), es, q, width)
    requires forall m :: 0 <= m < |es| ==> LimitedBy(es[m], q, limit)
    ensures var rows := Run(System(now, locks, [], seq(n, _ => Idle)), es).usage;
      (limit <= 0 ==> Logged(rows, q, day) == 0) &&
      (limit > 0 ==> Logged(rows, q, day) <= limit + width - 1)
  {
    var s := System(now, locks, [], seq(n, _ => Idle));
    IdleStartMeetsQuota(now, locks, n, q, limit, width);
    QuotaHolds(s, es, q, limit, width);
    assert Logged(Run(s, es).usage, q, day) <= Bound(limit, width);
  }

  // ---- the bound is reached ---------------------------------------------------------------------------

  function Start(n: nat): System {
    System(0, [], [], seq(n, _ => Idle))
  }

  /** A call charged to the quota, and a policy whose every limit is the given one. */
  function CallFor(q: Quota): CallContext {
    match q
    case OrgDay(org, provider) => CallContext(org, 0, 0, provider, None)
    case AccountDay(org, tenant, account, provider) => CallContext(org, tenant, account, provider, None)
    case JobTotal(job) => CallContext(0, 0, 0, "aws", Some(job))
  }

  function PolicyFor(q: Quota, limit: int): Policy {
    Policy(CallFor(q).provider, true, limit, limit, limit, 0, false)
  }

  /** At time zero, with `count` logged calls of the quota and no other rows, and workers as given. */
  ghost predicate Stage(s: System, q: Quota, count: nat, workers: seq<Phase>) {
    s.now == 0 && |s.usage| == count && s.workers == workers &&
    forall i :: 0 <= i < count ==> s.usage[i] == UsageRow(CallFor(q), s.usage[i].sig, false, 0)
  }

  ghost predicate AllLimited(es: seq<Event>, q: Quota, limit: int) {
    forall n :: 0 <= n < |es| ==> LimitedBy(es[n], q, limit)
  }

  lemma {:induction false} EveryRowCounts(rows: seq<UsageRow>, q: Quota, r: Quota)
    requires Charged(r, CallFor(q))
    requires forall i :: 0 <= i < |rows| ==> rows[i] == UsageRow(CallFor(q), rows[i].sig, false, 0)
    ensures UsageSince(rows, r, 0) == |rows| == Logged(rows, r, 0)
  {
    if rows != [] {
      EveryRowCounts(rows[..|rows| - 1], q, r);
    }
  }

  /** Below the limit the guard lets the call pass. */
  lemma GuardLetsPass(s: System, q: Quota, count: nat, workers: seq<Phase>, limit: int)
    requires Stage(s, q, count, workers) && count < limit
    ensures GuardFault(s.usage, PolicyFor(q, limit), CallFor(q), 0).None?
  {
    var c := CallFor(q);
    EveryRowCounts(s.usage, q, OrgDay(c.org, c.provider));
    EveryRowCounts(s.usage, q, AccountDay(c.org, c.tenant, c.account, c.provider));
    if c.job.Some? {
      EveryRowCounts(s.usage, q, JobTotal(c.job.value));
    }
  }

  /** Leases at time zero: those of signatures below `m` may run, all others are over. */
  ghost predicate FreeFrom(locks: seq<LockRow>, m: nat) {
    forall i :: 0 <= i < |locks| ==> locks[i].sig < m || locks[i].lockedUntil <= 0
  }

  /** Workers below `m` in phase `done`, the others in phase `todo`. */
  function Split(n: nat, m: nat, done: nat -> Phase, todo: nat -> Phase): seq<Phase> {
    seq(n, w requires 0 <= w < n => if w < m then done(w) else todo(w))
  }

  function Resting(): nat -> Phase {
    (w: nat) => Idle
  }

  function Passed(q: Quota): nat -> Phase {
    (w: nat) => Guarded(CallFor(q), w)
  }

  function Calling(q: Quota): nat -> Phase {
    (w: nat) => Fetching(CallFor(q), w, LEASE)
  }

  function Ending(q: Quota): nat -> Phase {
    (w: nat) => Releasing(CallFor(q), w, LEASE)
  }

  lemma RunOneMore(s: System, es: seq<Event>, e: Event)
    ensures Run(s, es + [e]) == Next(Run(s, es), e)
  {
    assert (es + [e])[..|es|] == es;
  }

  /** Worker 0 makes `k` calls one after the other. */
  lemma {:induction false} OneByOne(n: nat, q: Quota, limit: int, k: nat) returns (es: seq<Event>)
    requires n >= 1 && k < limit
    ensures AllLimited(es, q, limit)
    ensures Stage(Run(Start(n), es), q, k, Split(n, 0, Resting(), Resting())) && FreeFrom(Run(Start(n), es).locks, 0)
  {
    if k == 0 {
      es := [];
    } else {
      var before := OneByOne(n, q, limit, k - 1);
      var s := Run(Start(n), before);
      WholeCall(s, n, q, limit, k - 1);
      var pass := PassGuard(0, CallFor(q), 0, PolicyFor(q, limit));
      es := before + [pass] + [Acquire(0)] + [LogCall(0)] + [Release(0)];
      RunOneMore(Start(n), before, pass);
      RunOneMore(Start(n), before + [pass], Acquire(0));
      RunOneMore(Start(n), before + [pass] + [Acquire(0)], LogCall(0));
      RunOneMore(Start(n), before + [pass] + [Acquire(0)] + [LogCall(0)], Release(0));
    }
  }

  lemma WholeCall(s: System, n: nat, q: Quota, limit: int, k: nat)
    requires n >= 1 && k < limit && Stage(s, q, k, Split(n, 0, Resting(), Resting())) && FreeFrom(s.locks, 0)
    ensures var s1 := Next(s, PassGuard(0, CallFor(q), 0, PolicyFor(q, limit)));
      var t := Next(Next(Next(s1, Acquire(0)), LogCall(0)), Release(0));
      Stage(t, q, k + 1, Split(n, 0, Resting(), Resting())) && FreeFrom(t.locks, 0)
  {
    var idle := Split(n, 0, Resting(), Resting());
    GuardLetsPass(s, q, k, idle, limit);
    var s1 := Next(s, PassGuard(0, CallFor(q), 0, PolicyFor(q, limit)));
    assert s1.workers[0] == Guarded(CallFor(q), 0);
    var s2 := Next(s1, Acquire(0));
    assert s2.workers[0] == Fetching(CallFor(q), 0, LEASE);
    var s4 := Next(Next(s2, LogCall(0)), Release(0));
    assert s4.workers == idle;
  }

  /** All workers pass the guard together. */
  lemma {:induction false} AllPass(s: System, n: nat, q: Quota, limit: int, k: nat, m: nat) returns (es: seq<Event>)
    requires k < limit && m <= n
    requires Stage(s, q, k, Split(n, 0, Passed(q), Resting())) && FreeFrom(s.locks, 0)
    ensures AllLimited(es, q, limit)
    ensures Stage(Run(s, es), q, k, Split(n, m, Passed(q), Resting())) && FreeFrom(Run(s, es).locks, 0)
  {
    if m == 0 {
      es := [];
    } else {
      var before := AllPass(s, n, q, limit, k, m - 1);
      var pass := PassGuard(m - 1, CallFor(q), m - 1, PolicyFor(q, limit));
      es := before + [pass];
      RunOneMore(s, before, pass);
      var t := Run(s, before);
      GuardLetsPass(t, q, k, t.workers, limit);
      assert Next(t, pass).workers == Split(n, m, Passed(q), Resting());
    }
  }

  /** Then each takes the lock of its own signature. */
  lemma {:induction false} AllAcquire(s: System, n: nat, q: Quota, limit: int, k: nat, m: nat) returns (es: seq<Event>)
    requires m <= n && Stage(s, q, k, Split(n, 0, Calling(q), Passed(q))) && FreeFrom(s.locks, 0)
    ensures AllLimited(es, q, limit)
    ensures Stage(Run(s, es), q, k, Split(n, m, Calling(q), Passed(q))) && FreeFrom(Run(s, es).locks, m)
  {
    if m == 0 {
      es := [];
    } else {
      var before := AllAcquire(s, n, q, limit, k, m - 1);
      es := before + [Acquire(m - 1)];
      RunOneMore(s, before, Acquire(m - 1));
      var t := Run(s, before);
      assert t.workers[m - 1] == Guarded(CallFor(q), m - 1);
      assert Next(t, Acquire(m - 1)).workers == Split(n, m, Calling(q), Passed(q));
    }
  }

  /** And each logs its call. */
  lemma {:induction false} AllLog(s: System, n: nat, q: Quota, limit: int, k: nat, m: nat) returns (es: seq<Event>)
    requires m <= n && Stage(s, q, k, Split(n, 0, Ending(q), Calling(q)))
    ensures AllLimited(es, q, limit)
    ensures Stage(Run(s, es), q, k + m, Split(n, m, Ending(q), Calling(q)))
  {
    if m == 0 {
      es := [];
    } else {
      var before := AllLog(s, n, q, limit, k, m - 1);
      es := before + [LogCall(m - 1)];
      RunOneMore(s, before, LogCall(m - 1));
      var t := Run(s, before);
      assert t.workers[m - 1] == Fetching(CallFor(q), m - 1, LEASE);
      assert Next(t, LogCall(m - 1)).workers == Split(n, m, Ending(q), Calling(q));
    }
  }

  lemma {:induction false} RunConcat(s: System, a: seq<Event>, b: seq<Event>)
    ensures Run(s, a + b) == Run(Run(s, a), b)
  {
    if b == [] {
      assert a + b == a;
    } else {
      var n := |b| - 1;
      assert (a + b)[..|a + b| - 1] == a + b[..n];
      RunConcat(s, a, b[..n]);
    }
  }

  lemma {:induction false} WorkersStay(s: System, es: seq<Event>)
    ensures |Run(s, es).workers| == |s.workers|
  {
    if es != [] {
      WorkersStay(s, es[..|es| - 1]);
    }
  }

  /** There cannot be more calls under way than workers. */
  lemma {:induction false} WorkersBoundWidth(s: System, es: seq<Event>, q: Quota)
    ensures WidthKept(s, es, q, |s.workers|)
  {
    hide Next;
    WorkersStay(s, es);
    ChargedAmongAll(Run(s, es).workers, q);
    if es != [] {
      WorkersBoundWidth(s, es[..|es| - 1], q);
    }
  }

  /**
   * The bound is reached by every quota, for every limit and every width: `width` workers make limit - 1 calls in turn,
   * then all pass the guard together and all log.
   */
  lemma OvershootIsReached(q: Quota, limit: int, width: nat) returns (es: seq<Event>)
    requires limit >= 1 && width >= 1
    ensures AllLimited(es, q, limit) && WidthKept(Start(width), es, q, width)
    ensures Logged(Run(Start(width), es).usage, q, 0) == limit + width - 1
  {
    hide Next, LimitedBy, GuardFault;
    var e1 := OneByOne(width, q, limit, limit - 1);
    var s1 := Run(Start(width), e1);
    assert s1.workers == Split(width, 0, Passed(q), Resting());
    var e2 := AllPass(s1, width, q, limit, limit - 1, width);
    var s2 := Run(s1, e2);
    assert s2.workers == Split(width, 0, Calling(q), Passed(q));
    var e3 := AllAcquire(s2, width, q, limit, limit - 1, width);
    var s3 := Run(s2, e3);
    assert s3.workers == Split(width, 0, Ending(q), Calling(q));
    var e4 := AllLog(s3, width, q, limit, limit - 1, width);
    es := e1 + e2 + e3 + e4;
    RunConcat(Start(width), e1, e2);
    RunConcat(Start(width), e1 + e2, e3);
    RunConcat(Start(width), e1 + e2 + e3, e4);
    EveryRowCounts(Run(s3, e4).usage, q, q);
    WorkersBoundWidth(Start(width), es, q);
  }

  /** From idle workers and an empty log, runs of the given width log no more than the limit on any day. */
  ghost predicate NeverOverLimit(q: Quota, limit: int, width: nat) {
    forall n: nat, es, day ::
      WidthKept(Start(n), es, q, width) && AllLimited(es, q, limit) ==>
        Logged(Run(Start(n), es).usage, q, day) <= if limit <= 0 then 0 else limit
  }

  /** The quota is kept exactly when its calls never overlap, or when it allows none. */
  lemma QuotaExactIff(q: Quota, limit: int, width: nat)
    requires width >= 1
    ensures NeverOverLimit(q, limit, width) <==> width == 1 || limit <= 0
  {
    hide Run, WidthKept, AllLimited;
    if width == 1 || limit <= 0 {
      forall n: nat, es, day | WidthKept(Start(n), es, q, width) && AllLimited(es, q, limit)
        ensures Logged(Run(Start(n), es).usage, q, day) <= if limit <= 0 then 0 else limit
      {
        AllLimitedHolds(es, q, limit);
        QuotaNeverExceeded(0, [], n, es, q, limit, width, day);
      }
    } else {
      var es := OvershootIsReached(q, limit, width);
      assert Logged(Run(Start(width), es).usage, q, 0) > limit;
    }
  }

  lemma AllLimitedHolds(es: seq<Event>, q: Quota, limit: int)
    requires AllLimited(es, q, limit)
    ensures forall m :: 0 <= m < |es| ==> LimitedBy(es[m], q, limit)
  {
  }

  // ---- how long a fetch may be held ---------------------------------------------------------------------

  /** Every fetch of the signature in flight took its lock less than `hold` ago. */
  ghost predicate HeldLess(s: System, sig: Id, hold: int) {
    forall w :: 0 <= w < |s.workers| && Fetches(s.workers[w], sig) ==> s.now < s.workers[w].lease - LEASE + hold
  }

  /** In every state of the run. */
  ghost predicate HoldKept(s: System, es: seq<Event>, sig: Id, hold: int) {
    HeldLess(Run(s, es), sig, hold) && (es == [] || HoldKept(s, es[..|es| - 1], sig, hold))
  }

  /** From idle workers, no run that holds fetches of the signature less than `hold` has two of them in flight. */
  ghost predicate AlwaysExclusive(sig: Id, hold: int) {
    forall n: nat, es :: HoldKept(Start(n), es, sig, hold) ==> AtMostOneFetch(Run(Start(n), es), sig)
  }

  lemma {:induction false} HoldKeepsLeases(s: System, es: seq<Event>, sig: Id, hold: int)
    requires HoldKept(s, es, sig, hold) && hold <= LEASE
    ensures LeasesKept(s, es, sig)
  {
    if es != [] {
      var n := |es| - 1;
      HoldKeepsLeases(s, es[..n], sig, hold);
      assert HoldKept(s, es[..n], sig, hold);
      hide Run;
      assert HeldLess(Run(s, es[..n]), sig, hold);
    }
  }

  function TakeOver(sig: Id): seq<Event> {
    var q := JobTotal(0);
    [PassGuard(0, CallFor(q), sig, PolicyFor(q, 1)), PassGuard(1, CallFor(q), sig, PolicyFor(q, 1)),
     Acquire(0), Tick(LEASE), Acquire(1)]
  }

  /** The states of two workers of which the second takes over when the first one's lease has run out. */
  lemma TakeOverStates(sig: Id)
    ensures var q := JobTotal(0);
      var g, f := Guarded(CallFor(q), sig), Fetching(CallFor(q), sig, LEASE);
      var s0 := Start(2);
      var s1 := System(0, [], [], [g, Idle]);
      var s2 := System(0, [], [], [g, g]);
      var s3 := System(0, [LockRow(sig, CallFor(q), LEASE)], [], [f, g]);
      var s4 := System(LEASE, [LockRow(sig, CallFor(q), LEASE)], [], [f, g]);
      Next(s0, TakeOver(sig)[0]) == s1 && Next(s1, TakeOver(sig)[1]) == s2 && Next(s2, TakeOver(sig)[2]) == s3 &&
      Next(s3, TakeOver(sig)[3]) == s4 &&
      Next(s4, TakeOver(sig)[4]) ==
        System(LEASE, [LockRow(sig, CallFor(q), 2 * LEASE)], [], [f, Fetching(CallFor(q), sig, 2 * LEASE)])
  {
    var q := JobTotal(0);
    assert Start(2).workers == [Idle, Idle];
    assert GuardFault([], PolicyFor(q, 1), CallFor(q), 0).None?;
  }

  lemma TakeOverOverlaps(sig: Id, hold: int)
    requires hold > LEASE
    ensures HoldKept(Start(2), TakeOver(sig), sig, hold) && !AtMostOneFetch(Run(Start(2), TakeOver(sig)), sig)
  {
    TakeOverStates(sig);
    var s, es := Start(2), TakeOver(sig);
    assert es[..5] == es && es[..5][..4] == es[..4] && es[..4][..3] == es[..3] && es[..3][..2] == es[..2];
    assert es[..2][..1] == es[..1] && es[..1][..0] == [];
    hide Next, TakeOver;
    assert Run(s, es[..1]) == Next(s, es[0]);
    assert Run(s, es[..2]) == Next(Run(s, es[..1]), es[1]);
    assert Run(s, es[..3]) == Next(Run(s, es[..2]), es[2]);
    assert Run(s, es[..4]) == Next(Run(s, es[..3]), es[3]);
    assert Run(s, es[..5]) == Next(Run(s, es[..4]), es[4]);
    hide Run;
    assert HoldKept(s, [], sig, hold);
    assert HoldKept(s, es[..1], sig, hold);
    assert HoldKept(s, es[..2], sig, hold);
    assert HoldKept(s, es[..3], sig, hold);
    assert HoldKept(s, es[..4], sig, hold);
    var t := Run(s, es);
    assert Fetches(t.workers[0], sig) && Fetches(t.workers[1], sig);
  }

  /** Exclusion holds over all runs exactly when every fetch is held less than a time within the lease. */
  lemma ExclusiveIff(sig: Id, hold: int)
    ensures AlwaysExclusive(sig, hold) <==> hold <= LEASE
  {
    hide Run, HoldKept, AtMostOneFetch;
    if hold <= LEASE {
      forall n: nat, es | HoldKept(Start(n), es, sig, hold) ensures AtMostOneFetch(Run(Start(n), es), sig) {
        HoldKeepsLeases(Start(n), es, sig, hold);
        IdleStartIsExclusive(0, [], [], n, sig);
        FetchesExclude(Start(n), es, sig);
      }
    } else {
      TakeOverOverlaps(sig, hold);
    }
  }

  // ---- the sequential call --------------------------------------------------------------------------

  /** A call made alone is the machine's run by one worker. */
  lemma GuardedCallIsARun(s: Store, p: Policy, c: CallContext, sig: Id, t: Times, succeeds: bool)
    requires t.guard <= t.acquire <= t.log <= t.release && p.provider == c.provider
    ensures var (s', _) := GuardedCall(s, p, c, sig, t, succeeds);
      Run(System(t.guard, s.locks, s.usage, [Idle]), CallEvents(p, c, sig, t, succeeds)) ==
      System(t.release, s'.locks, s'.usage, [Idle])
  {
    var es := CallEvents(p, c, sig, t, succeeds);
    var a := System(t.guard, s.locks, s.usage, [Idle]);
    assert es[..6][..6] == es[..6];
    RunSix(a, es[..6]);
    var s1 := Next(a, es[0]);
    var s3 := Next(Next(s1, es[1]), es[2]);
    assert s1.workers == [if GuardFault(s.usage, p, c, t.guard).None? then Guarded(c, sig) else Idle];
    assert s3.now == t.acquire;
    var s5 := Next(Next(s3, es[3]), es[4]);
    assert s5.now == t.log;
    assert Run(a, es) == Next(Run(a, es[..6]), es[6]);
    var z := Run(a, es);
    assert z.workers == [Idle];
  }
}
