/** Manual synchronisation requests: what a rollback does to the usage log, and when the quota bounds paid calls. */
module CostRequests {
  import opened Collections
  import opened CostModel
  import opened CostSync
  import CostTheorems
  import Text

  /** The synchronisation ends with an exception. */
  predicate Escapes(o: Outcome) {
    o.Raised? || o.Unusable? || o.Forbidden?
  }

  /** The request commits what the synchronisation did, and rolls it back when an exception escapes. */
  function Request(s: State, p: Policy, y: Sync): State {
    var (t, o) := SyncStep(s, p, y);
    if Escapes(o) then s else t
  }

  function Requests(s: State, ps: Policies, ys: seq<Sync>): State {
    if ys == [] then s
    else
      var y := ys[|ys| - 1];
      Request(Requests(s, ps, ys[..|ys| - 1]), ps(KeyOf(y.ctx)), y)
  }

  // ---- paid calls --------------------------------------------------------------------------------------

  lemma CallAppends(s: Store, p: Policy, c: CallContext, f: Fetch)
    ensures s.usage <= GuardedCall(s, p, c, f.sig, f.times, f.succeeds).0.usage
  {
  }

  lemma UsageGrows(s: State, p: Policy, y: Sync)
    ensures s.store.usage <= SyncStep(s, p, y).0.store.usage
  {
    var f := y.fetches;
    var (s1, _) := GuardedCall(s.store, p, y.ctx, f.0.sig, f.0.times, f.0.succeeds);
    var (s2, _) := GuardedCall(s1, p, y.ctx, f.1.sig, f.1.times, f.1.succeeds);
    CallAppends(s.store, p, y.ctx, f.0);
    CallAppends(s1, p, y.ctx, f.1);
    CallAppends(s2, p, y.ctx, f.2);
    hide GuardedCall, Upsert;
  }

  /** The rows of the live calls that a synchronisation completed, rolled back or not. */
  function Paid(s: State, p: Policy, y: Sync): seq<UsageRow> {
    UsageGrows(s, p, y);
    SyncStep(s, p, y).0.store.usage[|s.store.usage|..]
  }

  function PaidOver(s: State, ps: Policies, ys: seq<Sync>): seq<UsageRow> {
    if ys == [] then []
    else
      var y := ys[|ys| - 1];
      PaidOver(s, ps, ys[..|ys| - 1]) + Paid(Requests(s, ps, ys[..|ys| - 1]), ps(KeyOf(y.ctx)), y)
  }

  // ---- which request forgets what it paid -----------------------------------------------------------------

  predicate HasSnapshot(s: State, key: Key) {
    exists i :: 0 <= i < |s.snapshots| && s.snapshots[i].key == key
  }

  /** Neither refused as a forced refresh nor served from a fresh snapshot. */
  predicate GoesLive(s: State, p: Policy, y: Sync) {
    match y.force
    case Some(a) => MayForce(p, a)
    case None =>
      var l := LatestSnapshot(s.snapshots, KeyOf(y.ctx));
      l == |s.snapshots| || Stale(s.snapshots[l], p, y.checkedAt)
  }

  /** Quota left, lock free, and the call itself succeeds. */
  predicate CallPasses(s: Store, p: Policy, c: CallContext, f: Fetch) {
    GuardFault(s.usage, p, c, f.times.guard).None? &&
    AcquireLock(s.locks, c, f.sig, f.times.acquire).Some? && f.succeeds
  }

  function AfterCall(s: Store, p: Policy, c: CallContext, f: Fetch): Store {
    GuardedCall(s, p, c, f.sig, f.times, f.succeeds).0
  }

  predicate AllCallsPass(s: Store, p: Policy, c: CallContext, f: (Fetch, Fetch, Fetch)) {
    var s1 := AfterCall(s, p, c, f.0);
    CallPasses(s, p, c, f.0) && CallPasses(s1, p, c, f.1) && CallPasses(AfterCall(s1, p, c, f.1), p, c, f.2)
  }

  /**
   * The request goes live and completes its first call, and then fails where no snapshot can stand in: at a later call
   * with none stored, or after all three because the results are of no use.
   */
  predicate Forgets(s: State, p: Policy, y: Sync) {
    GoesLive(s, p, y) && CallPasses(s.store, p, y.ctx, y.fetches.0) &&
    if AllCallsPass(s.store, p, y.ctx, y.fetches) then !y.usable else !HasSnapshot(s, KeyOf(y.ctx))
  }

  lemma CallPassesIff(s: Store, p: Policy, c: CallContext, f: Fetch)
    ensures var (t, e) := GuardedCall(s, p, c, f.sig, f.times, f.succeeds);
      (e.None? <==> CallPasses(s, p, c, f)) && |t.usage| == |s.usage| + (if CallPasses(s, p, c, f) then 1 else 0)
  {
  }

  lemma FetchesPassIff(s: Store, p: Policy, c: CallContext, f: (Fetch, Fetch, Fetch))
    ensures var (t, e) := FetchAll(s, p, c, f);
      (e.None? <==> AllCallsPass(s, p, c, f)) && (|t.usage| > |s.usage| <==> CallPasses(s, p, c, f.0))
  {
    var s1 := AfterCall(s, p, c, f.0);
    CallPassesIff(s, p, c, f.0);
    CallPassesIff(s1, p, c, f.1);
    CallPassesIff(AfterCall(s1, p, c, f.1), p, c, f.2);
    hide GuardedCall, CallPasses;
  }

  lemma LiveIff(s: State, p: Policy, y: Sync)
    ensures !GoesLive(s, p, y) ==> SyncStep(s, p, y).0 == s && SyncStep(s, p, y).1 in {ServedFresh, Forbidden}
    ensures GoesLive(s, p, y) ==>
      var (store, fault) := FetchAll(s.store, p, y.ctx, y.fetches);
      SyncStep(s, p, y).0.store == store &&
      SyncStep(s, p, y).1 ==
        if fault.Some? then (if HasSnapshot(s, KeyOf(y.ctx)) then ServedStale(fault.value) else Raised(fault.value))
        else if !y.usable then Unusable else Written
  {
    var fault := FetchAll(s.store, p, y.ctx, y.fetches).1;
    assert fault.Some? || fault.None?;
    hide FetchAll, Upsert, Stale, MayForce;
  }

  /**
   * Switched off, a synchronisation neither pays nor writes: it serves what is fresh, and otherwise the stored snapshot
   * as stale, or fails when there is none.
   */
  lemma DisabledPaysNothing(s: State, p: Policy, y: Sync)
    requires !p.enabled
    ensures SyncStep(s, p, y).0 == s
    ensures GoesLive(s, p, y) ==>
      SyncStep(s, p, y).1 == if HasSnapshot(s, KeyOf(y.ctx)) then ServedStale(SyncDisabled) else Raised(SyncDisabled)
    ensures !GoesLive(s, p, y) ==> SyncStep(s, p, y).1 in {ServedFresh, Forbidden}
  {
    assert FetchAll(s.store, p, y.ctx, y.fetches) == (s.store, Some(SyncDisabled));
    LiveIff(s, p, y);
    assert SyncStep(s, p, y).0.snapshots == s.snapshots by {
      hide FetchAll, Upsert, Stale, MayForce;
    }
    hide SyncStep, GoesLive, HasSnapshot, FetchAll;
  }

  /** A forced refresh is forbidden exactly to those neither system, root, organization admin nor allowed admin. */
  lemma ForbiddenIff(s: State, p: Policy, y: Sync)
    ensures y.force.None? ==> SyncStep(s, p, y).1 != Forbidden
    ensures y.force.Some? ==>
      var a := y.force.value;
      SyncStep(s, p, y).1 == Forbidden <==>
      !a.isSystem && !a.isRoot && Text.Normalize(a.role) != "org_admin" &&
      !(Text.Normalize(a.role) == "admin" && p.allowAdminForceRefresh)
  {
    var fault := FetchAll(s.store, p, y.ctx, y.fetches).1;
    assert fault.Some? || fault.None?;
    hide FetchAll, Text.Normalize, Stale, Upsert;
  }

  /** A request has paid for calls that its rollback forgets exactly in the case that its inputs tell. */
  lemma ForgetsIff(s: State, p: Policy, y: Sync)
    ensures Escapes(SyncStep(s, p, y).1) && Paid(s, p, y) != [] <==> Forgets(s, p, y)
  {
    LiveIff(s, p, y);
    FetchesPassIff(s.store, p, y.ctx, y.fetches);
    UsageGrows(s, p, y);
    var fault := FetchAll(s.store, p, y.ctx, y.fetches).1;
    assert fault.Some? || fault.None?;
    assert |Paid(s, p, y)| == |SyncStep(s, p, y).0.store.usage| - |s.store.usage|;
    assert Paid(s, p, y) != [] <==> |Paid(s, p, y)| > 0;
    hide SyncStep, FetchAll, GoesLive, CallPasses, AllCallsPass, HasSnapshot, Paid;
  }

  // ---- runs of requests --------------------------------------------------------------------------------------

  /** No request of the run forgets what it paid. */
  ghost predicate NothingForgotten(s: State, ps: Policies, ys: seq<Sync>) {
    ys == [] ||
    (NothingForgotten(s, ps, ys[..|ys| - 1]) &&
     !Forgets(Requests(s, ps, ys[..|ys| - 1]), ps(KeyOf(ys[|ys| - 1].ctx)), ys[|ys| - 1]))
  }

  lemma RequestLogs(s: State, p: Policy, y: Sync)
    ensures Request(s, p, y).store.usage ==
      if Escapes(SyncStep(s, p, y).1) then s.store.usage else s.store.usage + Paid(s, p, y)
  {
    UsageGrows(s, p, y);
    hide SyncStep;
  }

  /**
   * The usage log, which the quota counts, holds every paid call of the run exactly when no request forgets one, and
   * fewer otherwise.
   */
  lemma {:induction false} LogIsPaidIff(s: State, ps: Policies, ys: seq<Sync>)
    ensures var logged, paid := Requests(s, ps, ys).store.usage, s.store.usage + PaidOver(s, ps, ys);
      |logged| <= |paid| && (NothingForgotten(s, ps, ys) ==> logged == paid) &&
      (|logged| == |paid| <==> NothingForgotten(s, ps, ys))
  {
    hide SyncStep, Request, Paid, Forgets;
    if ys != [] {
      var n := |ys| - 1;
      var mid, p := Requests(s, ps, ys[..n]), ps(KeyOf(ys[n].ctx));
      LogIsPaidIff(s, ps, ys[..n]);
      RequestLogs(mid, p, ys[n]);
      ForgetsIff(mid, p, ys[n]);
      var before := PaidOver(s, ps, ys[..n]);
      assert s.store.usage + (before + Paid(mid, p, ys[n])) == s.store.usage + before + Paid(mid, p, ys[n]);
      assert Paid(mid, p, ys[n]) == [] <==> |Paid(mid, p, ys[n])| == 0;
    }
  }

  lemma KeyStays(s: State, p: Policy, y: Sync, key: Key)
    requires HasSnapshot(s, key)
    ensures HasSnapshot(Request(s, p, y), key)
  {
    var i :| 0 <= i < |s.snapshots| && s.snapshots[i].key == key;
    var ts := Request(s, p, y).snapshots;
    assert ts == s.snapshots || ts == Upsert(s.snapshots, KeyOf(y.ctx), y.date, y.writtenAt, y.payload) by {
      hide FetchAll, Upsert, Stale, MayForce, GuardedCall;
    }
    assert ts[i].key == key;
  }

  lemma {:induction false} KeyStaysStored(s: State, ps: Policies, ys: seq<Sync>, key: Key)
    requires HasSnapshot(s, key)
    ensures HasSnapshot(Requests(s, ps, ys), key)
  {
    hide Request, HasSnapshot;
    if ys != [] {
      var n := |ys| - 1;
      KeyStaysStored(s, ps, ys[..n], key);
      KeyStays(Requests(s, ps, ys[..n]), ps(KeyOf(ys[n].ctx)), ys[n], key);
    }
  }

  /** Every requested account has a snapshot at the start, and every result is of use. */
  ghost predicate Backed(s: State, ys: seq<Sync>) {
    forall i :: 0 <= i < |ys| ==> HasSnapshot(s, KeyOf(ys[i].ctx)) && ys[i].usable
  }

  /** Then no request forgets anything: the log holds every paid call. */
  lemma {:induction false} BackedForgetsNothing(s: State, ps: Policies, ys: seq<Sync>)
    requires Backed(s, ys)
    ensures NothingForgotten(s, ps, ys)
    ensures Requests(s, ps, ys).store.usage == s.store.usage + PaidOver(s, ps, ys)
  {
    hide Request, HasSnapshot, GoesLive, CallPasses, AllCallsPass, PaidOver;
    if ys != [] {
      var n := |ys| - 1;
      BackedForgetsNothing(s, ps, ys[..n]);
      KeyStaysStored(s, ps, ys[..n], KeyOf(ys[n].ctx));
    }
    LogIsPaidIff(s, ps, ys);
  }

  // ---- the quota bounds what is not forgotten --------------------------------------------------------------------

  /** One worker, idle, over the store at a time. */
  function Alone(now: int, s: Store): System {
    System(now, s.locks, s.usage, [Idle])
  }

  /** One after the other, on a clock that does not run backwards. */
  ghost predicate InTurn(ys: seq<Sync>, now: int) {
    (forall i :: 0 <= i < |ys| ==> Advances(ys[i]) && ys[i].checkedAt >= now) &&
    (forall i :: 0 < i < |ys| ==> ys[i].checkedAt >= ys[i - 1].writtenAt)
  }

  /** Policies are the provider's own, and those of accounts that charge the quota allow at most `limit`. */
  ghost predicate Limited(ps: Policies, ys: seq<Sync>, q: Quota, limit: int) {
    forall i :: 0 <= i < |ys| ==> LimitedBy(ps(KeyOf(ys[i].ctx)), ys[i].ctx, q, limit)
  }

  ghost predicate LimitedBy(p: Policy, c: CallContext, q: Quota, limit: int) {
    p.provider == c.provider && (Charged(q, c) ==> Limit(q, p) <= limit)
  }

  lemma WaitKeepsQuota(now: int, later: int, s: Store, q: Quota, limit: int)
    requires CostTheorems.QuotaInv(Alone(now, s), q, limit, 1) && now <= later
    ensures CostTheorems.QuotaInv(Alone(later, s), q, limit, 1)
  {
    CostTheorems.ChargedAmongAll([Idle], q);
    CostTheorems.TickKeepsQuota(Alone(now, s), later - now, q, limit, 1);
    assert Next(Alone(now, s), Tick(later - now)) == Alone(later, s);
  }

  lemma CallKeepsQuota(now: int, s: Store, p: Policy, c: CallContext, f: Fetch, q: Quota, limit: int)
    requires CostTheorems.QuotaInv(Alone(now, s), q, limit, 1)
    requires now <= f.times.guard && TimesOk(f.times) && LimitedBy(p, c, q, limit)
    ensures CostTheorems.QuotaInv(Alone(f.times.release, AfterCall(s, p, c, f)), q, limit, 1)
  {
    WaitKeepsQuota(now, f.times.guard, s, q, limit);
    var es := CallEvents(p, c, f.sig, f.times, f.succeeds);
    CostTheorems.WorkersBoundWidth(Alone(f.times.guard, s), es, q);
    CostTheorems.GuardedCallIsARun(s, p, c, f.sig, f.times, f.succeeds);
    hide Run, GuardedCall, CostTheorems.QuotaInv, CostTheorems.WidthKept;
    CostTheorems.QuotaHolds(Alone(f.times.guard, s), es, q, limit, 1);
  }

  lemma SyncKeepsQuota(now: int, s: State, p: Policy, y: Sync, q: Quota, limit: int)
    requires CostTheorems.QuotaInv(Alone(now, s.store), q, limit, 1)
    requires now <= y.checkedAt && Advances(y) && LimitedBy(p, y.ctx, q, limit)
    ensures CostTheorems.QuotaInv(Alone(y.writtenAt, SyncStep(s, p, y).0.store), q, limit, 1)
  {
    var f := y.fetches;
    var s1 := AfterCall(s.store, p, y.ctx, f.0);
    var s2 := AfterCall(s1, p, y.ctx, f.1);
    var s3 := AfterCall(s2, p, y.ctx, f.2);
    CallKeepsQuota(now, s.store, p, y.ctx, f.0, q, limit);
    CallKeepsQuota(f.0.times.release, s1, p, y.ctx, f.1, q, limit);
    CallKeepsQuota(f.1.times.release, s2, p, y.ctx, f.2, q, limit);
    hide CostTheorems.QuotaInv, LimitedBy;
    WaitKeepsQuota(now, y.writtenAt, s.store, q, limit);
    WaitKeepsQuota(f.0.times.release, y.writtenAt, s1, q, limit);
    WaitKeepsQuota(f.1.times.release, y.writtenAt, s2, q, limit);
    WaitKeepsQuota(f.2.times.release, y.writtenAt, s3, q, limit);
    LiveIff(s, p, y);
    hide SyncStep, GuardedCall;
  }

  lemma {:induction false} RequestsKeepQuota(s: State, ps: Policies, ys: seq<Sync>, now: int, q: Quota, limit: int)
    requires CostTheorems.QuotaInv(Alone(now, s.store), q, limit, 1)
    requires InTurn(ys, now) && Limited(ps, ys, q, limit)
    ensures CostTheorems.QuotaInv(Alone(EndTime(ys, now), Requests(s, ps, ys).store), q, limit, 1)
  {
    hide CostTheorems.QuotaInv, LimitedBy, SyncStep, Advances;
    if ys != [] {
      var n := |ys| - 1;
      RequestsKeepQuota(s, ps, ys[..n], now, q, limit);
      var mid := Requests(s, ps, ys[..n]);
      SyncKeepsQuota(EndTime(ys[..n], now), mid, ps(KeyOf(ys[n].ctx)), ys[n], q, limit);
      EndsLater(ys[n]);
      WaitKeepsQuota(EndTime(ys[..n], now), ys[n].writtenAt, mid.store, q, limit);
    }
  }

  lemma EndsLater(y: Sync)
    requires Advances(y)
    ensures y.checkedAt <= y.writtenAt
  {
  }

  /**
   * Over requests one after the other, from an empty log: as long as none forgets what it paid, the paid calls of any
   * organization-day, account-day or job stay within the limit.
   */
  lemma PaidWithinQuota(s: State, ps: Policies, ys: seq<Sync>, now: int, q: Quota, limit: int, day: int)
    requires s.store.usage == [] && InTurn(ys, now) && Limited(ps, ys, q, limit)
    requires NothingForgotten(s, ps, ys)
    ensures CostTheorems.Logged(PaidOver(s, ps, ys), q, day) <= if limit <= 0 then 0 else limit
  {
    CostTheorems.IdleStartMeetsQuota(now, s.store.locks, 1, q, limit, 1);
    assert seq(1, _ => Idle) == [Idle];
    assert Alone(now, s.store) == System(now, s.store.locks, [], seq(1, _ => Idle));
    RequestsKeepQuota(s, ps, ys, now, q, limit);
    LogIsPaidIff(s, ps, ys);
    assert [] + PaidOver(s, ps, ys) == PaidOver(s, ps, ys);
    hide Requests, PaidOver, InTurn, Limited;
    assert CostTheorems.Logged(Requests(s, ps, ys).store.usage, q, day) <= CostTheorems.Bound(limit, 1);
  }

  /** In particular when every requested account has a snapshot and every result is of use. */
  lemma BackedPaidWithinQuota(s: State, ps: Policies, ys: seq<Sync>, now: int, q: Quota, limit: int, day: int)
    requires s.store.usage == [] && InTurn(ys, now) && Limited(ps, ys, q, limit) && Backed(s, ys)
    ensures CostTheorems.Logged(PaidOver(s, ps, ys), q, day) <= if limit <= 0 then 0 else limit
  {
    BackedForgetsNothing(s, ps, ys);
    PaidWithinQuota(s, ps, ys, now, q, limit, day);
  }

  // ---- and nothing bounds what is -------------------------------------------------------------------------------

  /** An unforced request whose first call succeeds and whose second fails, charged to the quota on the day. */
  ghost predicate FailsSecond(p: Policy, y: Sync, q: Quota, day: int) {
    p.enabled && p.maxPerOrgDay >= 1 && p.maxPerDay >= 1 && p.maxPerJob >= 1 &&
    y.force.None? && y.fetches.0.succeeds && !y.fetches.1.succeeds &&
    Charged(q, y.ctx) && (q.JobTotal? || Day(y.fetches.0.times.log) == day)
  }

  function Nothing(): State {
    State(Store([], []), [])
  }

  lemma SecondFails(p: Policy, y: Sync, q: Quota, day: int)
    requires FailsSecond(p, y, q, day)
    ensures Request(Nothing(), p, y) == Nothing()
    ensures Paid(Nothing(), p, y) == [UsageRow(y.ctx, y.fetches.0.sig, false, y.fetches.0.times.log)]
  {
    var s := Nothing();
    FirstSucceeds(p, y.ctx, y.fetches.0);
    var s1 := AfterCall(s.store, p, y.ctx, y.fetches.0);
    SecondAppendsNothing(s1, p, y.ctx, y.fetches.1);
    hide GuardedCall, Upsert;
  }

  lemma FirstSucceeds(p: Policy, c: CallContext, f: Fetch)
    requires p.enabled && p.maxPerOrgDay >= 1 && p.maxPerDay >= 1 && p.maxPerJob >= 1 && f.succeeds
    ensures var (t, e) := GuardedCall(Nothing().store, p, c, f.sig, f.times, f.succeeds);
      e == None && t.usage == [UsageRow(c, f.sig, false, f.times.log)]
  {
  }

  lemma SecondAppendsNothing(s: Store, p: Policy, c: CallContext, f: Fetch)
    requires !f.succeeds
    ensures var (t, e) := GuardedCall(s, p, c, f.sig, f.times, f.succeeds); e.Some? && t.usage == s.usage
  {
  }

  /**
   * Before there is a snapshot the quota bounds no paid calls: any number of such requests, in any time order and for
   * any accounts, each pay one call of the same day or job, and leave the tables as empty as they were.
   */
  lemma {:induction false} RollbackVoidsTheQuota(ps: Policies, ys: seq<Sync>, q: Quota, day: int)
    requires forall i :: 0 <= i < |ys| ==> FailsSecond(ps(KeyOf(ys[i].ctx)), ys[i], q, day)
    ensures Requests(Nothing(), ps, ys) == Nothing()
    ensures CostTheorems.Logged(PaidOver(Nothing(), ps, ys), q, day) == |ys|
  {
    hide Request, Paid, Nothing;
    if ys != [] {
      var n := |ys| - 1;
      RollbackVoidsTheQuota(ps, ys[..n], q, day);
      SecondFails(ps(KeyOf(ys[n].ctx)), ys[n], q, day);
      var row := UsageRow(ys[n].ctx, ys[n].fetches.0.sig, false, ys[n].fetches.0.times.log);
      CostTheorems.LoggedOneMore(PaidOver(Nothing(), ps, ys[..n]), row, q, day);
    }
  }
}
