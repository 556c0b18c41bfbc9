/** CostSnapshot freshness and the synchronisation that fetches, falls back or writes; then the store that runs it. */
module CostSync {
  import opened Collections
  import opened CostModel
  import CostTheorems
  import Text

  const MINUTE := 60_000_000
  const DEFAULT_STALE_MINUTES := 1440

  datatype Key = Key(tenant: Id, account: Id, provider: string)
  datatype CostSnapshot = CostSnapshot(key: Key, date: int, createdAt: int, updatedAt: int, payload: Id)

  /** Position of the latest snapshot of the key, by date and then creation time; |ss| when there is none. */
  function LatestSnapshot(ss: seq<CostSnapshot>, key: Key): (i: nat)
    ensures i <= |ss|
    ensures i < |ss| ==> ss[i].key == key
    ensures forall j :: 0 <= j < |ss| && ss[j].key == key ==> i < |ss| && !Newer(ss[j], ss[i])
  {
    if ss == [] then 0
    else
      var r := LatestSnapshot(ss[1..], key);
      if ss[0].key == key && (r == |ss| - 1 || !Newer(ss[r + 1], ss[0])) then 0 else r + 1
  }

  predicate Newer(a: CostSnapshot, b: CostSnapshot) {
    a.date > b.date || (a.date == b.date && a.createdAt > b.createdAt)
  }

  function FindDay(ss: seq<CostSnapshot>, key: Key, date: int): (i: nat)
    ensures i <= |ss|
    ensures i < |ss| ==> ss[i].key == key && ss[i].date == date
    ensures forall j :: 0 <= j < i ==> !(ss[j].key == key && ss[j].date == date)
  {
    FirstIndex(ss, (s: CostSnapshot) => s.key == key && s.date == date)
  }

  function Upsert(ss: seq<CostSnapshot>, key: Key, date: int, now: int, payload: Id): seq<CostSnapshot> {
    var i := FindDay(ss, key, date);
    if i < |ss| then ss[i := ss[i].(updatedAt := now, payload := payload)]
    else ss + [CostSnapshot(key, date, now, now, payload)]
  }

  /** A stored zero means the default. */
  function StaleAfter(p: Policy): int {
    (if p.staleAfterMinutes == 0 then DEFAULT_STALE_MINUTES else p.staleAfterMinutes) * MINUTE
  }

  function Stale(s: CostSnapshot, p: Policy, now: int): bool {
    now >= s.updatedAt + StaleAfter(p)
  }

  // ---- one synchronisation -------------------------------------------------------------------------

  datatype Fetch = Fetch(sig: Id, times: Times, succeeds: bool)

  datatype Refresher = Refresher(role: string, isRoot: bool, isSystem: bool)

  /**
   * Three fetches in order, then the write; `force` names who forces the refresh, if anyone. `usable` tells whether
   * points, trends, amounts and dates can be made of what the fetches returned.
   */
  datatype Sync = Sync(
    ctx: CallContext, checkedAt: int, fetches: (Fetch, Fetch, Fetch), usable: bool, writtenAt: int, date: int,
    payload: Id, force: Option<Refresher>)

  datatype Outcome =
    | ServedFresh | Written | ServedStale(fault: CallFault) | Raised(fault: CallFault) | Unusable | Forbidden

  datatype State = State(store: Store, snapshots: seq<CostSnapshot>)

  function KeyOf(c: CallContext): Key {
    Key(c.tenant, c.account, c.provider)
  }

  function MayForce(p: Policy, a: Refresher): bool {
    a.isSystem || a.isRoot || Text.Normalize(a.role) == "org_admin" ||
    (Text.Normalize(a.role) == "admin" && p.allowAdminForceRefresh)
  }

  /** The fetches one after another, up to the first fault. */
  function FetchAll(s: Store, p: Policy, c: CallContext, f: (Fetch, Fetch, Fetch)): (Store, Option<CallFault>) {
    var (s1, e1) := GuardedCall(s, p, c, f.0.sig, f.0.times, f.0.succeeds);
    if e1.Some? then (s1, e1)
    else
      var (s2, e2) := GuardedCall(s1, p, c, f.1.sig, f.1.times, f.1.succeeds);
      if e2.Some? then (s2, e2)
      else GuardedCall(s2, p, c, f.2.sig, f.2.times, f.2.succeeds)
  }

  function SyncStep(s: State, p: Policy, y: Sync): (State, Outcome) {
    var l := LatestSnapshot(s.snapshots, KeyOf(y.ctx));
    if y.force.Some? && !MayForce(p, y.force.value) then (s, Forbidden)
    else if l < |s.snapshots| && !Stale(s.snapshots[l], p, y.checkedAt) && y.force.None? then (s, ServedFresh)
    else
      var (store, fault) := FetchAll(s.store, p, y.ctx, y.fetches);
      if fault.Some? then
        (s.(store := store), if l < |s.snapshots| then ServedStale(fault.value) else Raised(fault.value))
      else if !y.usable then (s.(store := store), Unusable)
      else
        (State(store, Upsert(s.snapshots, KeyOf(y.ctx), y.date, y.writtenAt, y.payload)), Written)
  }

  /** Clock and date move forward through one synchronisation, which forces nothing. */
  ghost predicate Timely(y: Sync) {
    y.force.None? && Advances(y)
  }

  ghost predicate Advances(y: Sync) {
    y.checkedAt <= y.fetches.0.times.guard && TimesOk(y.fetches.0.times) &&
    y.fetches.0.times.release <= y.fetches.1.times.guard && TimesOk(y.fetches.1.times) &&
    y.fetches.1.times.release <= y.fetches.2.times.guard && TimesOk(y.fetches.2.times) &&
    y.fetches.2.times.release <= y.writtenAt
  }

  ghost predicate TimesOk(t: Times) {
    t.guard <= t.acquire <= t.log <= t.release
  }

  /** Each account has a fixed policy. */
  type Policies = Key -> Policy

  function RunStep(s: State, ps: Policies, y: Sync): (State, Outcome) {
    SyncStep(s, ps(KeyOf(y.ctx)), y)
  }

  function RunSyncs(s: State, ps: Policies, ys: seq<Sync>): State {
    if ys == [] then s else RunStep(RunSyncs(s, ps, ys[..|ys| - 1]), ps, ys[|ys| - 1]).0
  }

  /** When the run wrote a snapshot of the key, in order. */
  function Writes(s: State, ps: Policies, ys: seq<Sync>, key: Key): seq<int> {
    if ys == [] then []
    else
      var n := |ys| - 1;
      var wrote := KeyOf(ys[n].ctx) == key && RunStep(RunSyncs(s, ps, ys[..n]), ps, ys[n]).1 == Written;
      Writes(s, ps, ys[..n], key) + (if wrote then [ys[n].writtenAt] else [])
  }

  /** The account's own synchronisations among those of the run. */
  function Own(ys: seq<Sync>, key: Key): seq<Sync> {
    if ys == [] then []
    else
      var n := |ys| - 1;
      Own(ys[..n], key) + (if KeyOf(ys[n].ctx) == key then [ys[n]] else [])
  }

  // ---- the invariant of a sequential run -------------------------------------------------

  ghost predicate OnePerDay(ss: seq<CostSnapshot>) {
    forall i, j :: 0 <= i < j < |ss| ==> ss[i].key != ss[j].key || ss[i].date != ss[j].date
  }

  /** The account's latest snapshot carries the latest write, and none is dated or written after now. */
  ghost predicate Latest(ss: seq<CostSnapshot>, key: Key, now: int, today: int, writes: seq<int>) {
    (forall i :: 0 <= i < |ss| && ss[i].key == key ==> ss[i].date <= today) &&
    var l := LatestSnapshot(ss, key);
    (l < |ss| ==> ss[l].updatedAt <= now) &&
    (writes != [] ==> l < |ss| && ss[l].updatedAt == writes[|writes| - 1])
  }

  lemma UpsertKeepsOnePerDay(ss: seq<CostSnapshot>, key: Key, date: int, now: int, payload: Id)
    requires OnePerDay(ss)
    ensures OnePerDay(Upsert(ss, key, date, now, payload))
  {
  }

  lemma UpsertIsLatest(ss: seq<CostSnapshot>, key: Key, date: int, now: int, payload: Id)
    requires OnePerDay(ss) && forall i :: 0 <= i < |ss| && ss[i].key == key ==> ss[i].date <= date
    ensures var ts := Upsert(ss, key, date, now, payload);
      var l := LatestSnapshot(ts, key);
      l < |ts| && ts[l].date == date && ts[l].updatedAt == now && ts[l].payload == payload
  {
    var ts := Upsert(ss, key, date, now, payload);
    var i := FindDay(ss, key, date);
    assert ts[i].key == key && ts[i].date == date;
    UpsertKeepsOnePerDay(ss, key, date, now, payload);
    var l := LatestSnapshot(ts, key);
    assert ts[l].date == date;
    assert l == i;
  }

  /** Consecutive writes are at least the stale interval apart. */
  ghost predicate Spaced(ws: seq<int>, gap: int) {
    forall i :: 0 < i < |ws| ==> ws[i] >= ws[i - 1] + gap
  }

  /** The synchronisations are unforced, with clock and date moving forward from the given start. */
  ghost predicate InOrder(ys: seq<Sync>, now: int, today: int) {
    (forall i :: 0 <= i < |ys| ==> Timely(ys[i]) && ys[i].checkedAt >= now && ys[i].date >= today) &&
    (forall i :: 0 < i < |ys| ==> ys[i].checkedAt >= ys[i - 1].writtenAt && ys[i].date >= ys[i - 1].date)
  }

  function EndTime(ys: seq<Sync>, now: int): int {
    if ys == [] then now else ys[|ys| - 1].writtenAt
  }

  function EndDate(ys: seq<Sync>, today: int): int {
    if ys == [] then today else ys[|ys| - 1].date
  }

  /** What one unforced synchronisation does to the snapshots, whatever its fetches meet. */
  ghost predicate SnapshotEffect(ss: seq<CostSnapshot>, p: Policy, y: Sync, ts: seq<CostSnapshot>, wrote: bool) {
    var key := KeyOf(y.ctx);
    var l := LatestSnapshot(ss, key);
    if wrote then
      ts == Upsert(ss, key, y.date, y.writtenAt, y.payload) && (l < |ss| ==> Stale(ss[l], p, y.checkedAt))
    else ts == ss
  }

  lemma SyncHasEffect(s: State, p: Policy, y: Sync)
    requires y.force.None?
    ensures SnapshotEffect(s.snapshots, p, y, SyncStep(s, p, y).0.snapshots, SyncStep(s, p, y).1 == Written)
  {
    hide FetchAll, Upsert, Stale;
  }

  lemma AfterSync(ss: seq<CostSnapshot>, p: Policy, y: Sync, ts: seq<CostSnapshot>, wrote: bool,
                  now: int, today: int, ws: seq<int>)
    requires OnePerDay(ss) && Latest(ss, KeyOf(y.ctx), now, today, ws) && Spaced(ws, StaleAfter(p))
    requires Timely(y) && now <= y.checkedAt && today <= y.date
    requires SnapshotEffect(ss, p, y, ts, wrote)
    ensures var ws' := ws + (if wrote then [y.writtenAt] else []);
      OnePerDay(ts) && Latest(ts, KeyOf(y.ctx), y.writtenAt, y.date, ws') && Spaced(ws', StaleAfter(p))
  {
    if wrote {
      UpsertKeepsOnePerDay(ss, KeyOf(y.ctx), y.date, y.writtenAt, y.payload);
      UpsertIsLatest(ss, KeyOf(y.ctx), y.date, y.writtenAt, y.payload);
    } else {
      assert ws + [] == ws;
    }
  }

  /** Another account's synchronisation, forced or not, changes neither the invariant nor the latest snapshot. */
  lemma OtherSync(s: State, p: Policy, y: Sync, key: Key, now: int, today: int, ws: seq<int>)
    requires OnePerDay(s.snapshots) && Latest(s.snapshots, key, now, today, ws) && KeyOf(y.ctx) != key
    ensures var ts := SyncStep(s, p, y).0.snapshots; OnePerDay(ts) && Latest(ts, key, now, today, ws)
  {
    assert SyncStep(s, p, y).0.snapshots == s.snapshots ||
      SyncStep(s, p, y).0.snapshots == Upsert(s.snapshots, KeyOf(y.ctx), y.date, y.writtenAt, y.payload) by {
      hide FetchAll, Upsert, Stale;
    }
    UpsertKeepsOnePerDay(s.snapshots, KeyOf(y.ctx), y.date, y.writtenAt, y.payload);
    OtherUpsert(s.snapshots, KeyOf(y.ctx), y.date, y.writtenAt, y.payload, key);
    hide SyncStep, Upsert;
  }

  /** Writing one account's snapshot leaves every other account's latest row the same. */
  lemma OtherUpsert(ss: seq<CostSnapshot>, other: Key, date: int, now: int, payload: Id, key: Key)
    requires OnePerDay(ss) && other != key
    ensures var ts := Upsert(ss, other, date, now, payload);
      var k, l := LatestSnapshot(ts, key), LatestSnapshot(ss, key);
      (k < |ts| <==> l < |ss|) && (l < |ss| ==> ts[k] == ss[l]) &&
      forall i :: 0 <= i < |ts| && ts[i].key == key ==> i < |ss| && ts[i] == ss[i]
  {
    var ts := Upsert(ss, other, date, now, payload);
    var k, l := LatestSnapshot(ts, key), LatestSnapshot(ss, key);
    if l < |ss| {
      assert ts[l] == ss[l];
    }
    if k < |ts| {
      assert ts[k] == ss[k];
    }
  }

  lemma OwnSync(s: State, p: Policy, y: Sync, now: int, today: int, ws: seq<int>)
    requires OnePerDay(s.snapshots) && Latest(s.snapshots, KeyOf(y.ctx), now, today, ws) && Spaced(ws, StaleAfter(p))
    requires Timely(y) && now <= y.checkedAt && today <= y.date
    ensures var (t, o) := SyncStep(s, p, y);
      var ws' := ws + (if o == Written then [y.writtenAt] else []);
      OnePerDay(t.snapshots) && Latest(t.snapshots, KeyOf(y.ctx), y.writtenAt, y.date, ws') &&
      Spaced(ws', StaleAfter(p))
  {
    SyncHasEffect(s, p, y);
    hide SyncStep, Latest, OnePerDay, Timely, Spaced, SnapshotEffect;
    AfterSync(s.snapshots, p, y, SyncStep(s, p, y).0.snapshots, SyncStep(s, p, y).1 == Written, now, today, ws);
  }

  /**
   * From any stored snapshots up to date, over any sequential run of synchronisations of any accounts in which one
   * account's own are unforced and in order: one snapshot per day, and its writes at least the stale interval apart.
   */
  lemma {:induction false} SyncRun(s: State, ps: Policies, ys: seq<Sync>, key: Key, now: int, today: int)
    requires OnePerDay(s.snapshots) && Latest(s.snapshots, key, now, today, []) && InOrder(Own(ys, key), now, today)
    ensures var t := RunSyncs(s, ps, ys);
      OnePerDay(t.snapshots) && Spaced(Writes(s, ps, ys, key), StaleAfter(ps(key))) &&
      Latest(t.snapshots, key, EndTime(Own(ys, key), now), EndDate(Own(ys, key), today), Writes(s, ps, ys, key))
  {
    if ys != [] {
      var n := |ys| - 1;
      var before := Own(ys[..n], key);
      OrderOfPrefix(ys, key, now, today);
      hide Latest, OnePerDay, Timely, Spaced, SyncStep, StaleAfter;
      SyncRun(s, ps, ys[..n], key, now, today);
      var mid := RunSyncs(s, ps, ys[..n]);
      if KeyOf(ys[n].ctx) == key {
        OwnSync(mid, ps(key), ys[n], EndTime(before, now), EndDate(before, today), Writes(s, ps, ys[..n], key));
      } else {
        OtherSync(mid, ps(KeyOf(ys[n].ctx)), ys[n], key, EndTime(before, now),
          EndDate(before, today), Writes(s, ps, ys[..n], key));
        assert Writes(s, ps, ys, key) == Writes(s, ps, ys[..n], key);
      }
    }
  }

  lemma OrderOfPrefix(ys: seq<Sync>, key: Key, now: int, today: int)
    requires ys != [] && InOrder(Own(ys, key), now, today)
    ensures var n := |ys| - 1;
      var before := Own(ys[..n], key);
      InOrder(before, now, today) &&
      (KeyOf(ys[n].ctx) == key ==>
         (Own(ys, key) == before + [ys[n]] && Timely(ys[n]) &&
          EndTime(before, now) <= ys[n].checkedAt && EndDate(before, today) <= ys[n].date)) &&
      (KeyOf(ys[n].ctx) != key ==> Own(ys, key) == before)
  {
    hide Timely;
    var all, before := Own(ys, key), Own(ys[..|ys| - 1], key);
    if KeyOf(ys[|ys| - 1].ctx) != key {
      assert all == before;
    } else {
      assert all == before + [ys[|ys| - 1]];
      assert forall i :: 0 <= i < |before| ==> all[i] == before[i];
      assert all[|before|] == ys[|ys| - 1];
    }
  }

  lemma {:induction false} SpacedSpan(ws: seq<int>, gap: int)
    requires Spaced(ws, gap) && ws != []
    ensures ws[|ws| - 1] - ws[0] >= (|ws| - 1) * gap
  {
    if |ws| > 1 {
      var n := |ws| - 1;
      SpacedSpan(ws[..n], gap);
      assert (n - 1) * gap + gap == n * gap;
    }
  }

  /** An account is written at most 1 + span / stale times, where the span runs from its first write to its last. */
  lemma WritesBounded(s: State, ps: Policies, ys: seq<Sync>, key: Key, now: int, today: int)
    requires OnePerDay(s.snapshots) && Latest(s.snapshots, key, now, today, []) && InOrder(Own(ys, key), now, today)
    requires ps(key).staleAfterMinutes >= 0
    ensures var ws := Writes(s, ps, ys, key);
      ws != [] ==> StaleAfter(ps(key)) > 0 && |ws| <= 1 + (ws[|ws| - 1] - ws[0]) / StaleAfter(ps(key))
  {
    hide Latest, InOrder, Own, OnePerDay, RunSyncs, Writes, Spaced;
    SyncRun(s, ps, ys, key, now, today);
    var ws := Writes(s, ps, ys, key);
    SpanBounded(ws, StaleAfter(ps(key)));
  }

  lemma SpanBounded(ws: seq<int>, gap: int)
    requires Spaced(ws, gap) && gap > 0
    ensures ws != [] ==> |ws| <= 1 + (ws[|ws| - 1] - ws[0]) / gap
  {
    if ws != [] {
      SpacedSpan(ws, gap);
      QuotientBound(|ws| - 1, ws[|ws| - 1] - ws[0], gap);
    }
  }

  lemma QuotientBound(n: int, span: int, gap: int)
    requires gap > 0 && span >= n * gap
    ensures n <= span / gap
  {
    var k := span / gap;
    assert span < (k + 1) * gap;
    if n >= k + 1 {
      ScaleUp(k + 1, n, gap);
    }
  }

  lemma ScaleUp(a: int, b: int, gap: int)
    requires a <= b && gap > 0
    ensures a * gap <= b * gap
  {
  }

  /** What a synchronisation wrote is served, for no call at all, until the stale interval has passed, and no longer. */
  lemma FreshAfterWrite(s: State, p: Policy, y: Sync, z: Sync)
    requires OnePerDay(s.snapshots) && y.force.None? && z.force.None? && KeyOf(z.ctx) == KeyOf(y.ctx)
    requires forall i :: 0 <= i < |s.snapshots| && s.snapshots[i].key == KeyOf(y.ctx) ==> s.snapshots[i].date <= y.date
    requires SyncStep(s, p, y).1 == Written
    ensures var t := SyncStep(s, p, y).0;
      var l := LatestSnapshot(t.snapshots, KeyOf(y.ctx));
      l < |t.snapshots| && t.snapshots[l].date == y.date && t.snapshots[l].payload == y.payload &&
      (z.checkedAt < y.writtenAt + StaleAfter(p) <==> SyncStep(t, p, z) == (t, ServedFresh))
  {
    SyncHasEffect(s, p, y);
    UpsertIsLatest(s.snapshots, KeyOf(y.ctx), y.date, y.writtenAt, y.payload);
    var t := SyncStep(s, p, y).0;
    hide SyncStep, Upsert;
    LiveCallMeansStale(t, p, z);
  }

  /** With a negative stale interval nothing is ever fresh: every unblocked synchronisation writes again. */
  lemma NegativeStaleNeverFresh(s: State, p: Policy, y: Sync)
    requires p.staleAfterMinutes < 0 && y.force.None?
    requires Latest(s.snapshots, KeyOf(y.ctx), y.checkedAt, y.date, [])
    ensures SyncStep(s, p, y).1 != ServedFresh
  {
  }

  /** A call logs at most one row, and exactly one when it succeeds. */
  lemma CallLogs(s: Store, p: Policy, c: CallContext, f: Fetch)
    ensures var (s', e) := GuardedCall(s, p, c, f.sig, f.times, f.succeeds);
      |s.usage| <= |s'.usage| <= |s.usage| + 1 && (e.None? ==> |s'.usage| == |s.usage| + 1)
  {
  }

  lemma FetchesLog(s: Store, p: Policy, c: CallContext, f: (Fetch, Fetch, Fetch))
    ensures var (s', e) := FetchAll(s, p, c, f);
      |s.usage| <= |s'.usage| <= |s.usage| + 3 && (e.None? ==> |s'.usage| == |s.usage| + 3)
  {
    var (s1, _) := GuardedCall(s, p, c, f.0.sig, f.0.times, f.0.succeeds);
    var (s2, _) := GuardedCall(s1, p, c, f.1.sig, f.1.times, f.1.succeeds);
    CallLogs(s, p, c, f.0);
    CallLogs(s1, p, c, f.1);
    CallLogs(s2, p, c, f.2);
    hide GuardedCall;
  }

  /**
   * An unforced synchronisation is served from the snapshot exactly while that is fresh, and then changes nothing;
   * otherwise it makes at most three live calls, and exactly three when it writes.
   */
  lemma LiveCallMeansStale(s: State, p: Policy, y: Sync)
    requires y.force.None?
    ensures var l := LatestSnapshot(s.snapshots, KeyOf(y.ctx));
      l < |s.snapshots| && y.checkedAt < s.snapshots[l].updatedAt + StaleAfter(p) <==>
      SyncStep(s, p, y).1 == ServedFresh
    ensures StaleAfter(p) == 60_000_000 * if p.staleAfterMinutes == 0 then 1440 else p.staleAfterMinutes
    ensures SyncStep(s, p, y).1 == ServedFresh ==> SyncStep(s, p, y).0 == s
    ensures |s.store.usage| <= |SyncStep(s, p, y).0.store.usage| <= |s.store.usage| + 3
    ensures SyncStep(s, p, y).1 == Written ==> |SyncStep(s, p, y).0.store.usage| == |s.store.usage| + 3
  {
    FetchesLog(s.store, p, y.ctx, y.fetches);
    assert FetchAll(s.store, p, y.ctx, y.fetches).1.Some? || FetchAll(s.store, p, y.ctx, y.fetches).1.None?;
    hide FetchAll, Upsert;
  }

  // ---- the store, in place ---------------------------------------------------------------------------

  class CostStore {
    var locks: seq<LockRow>
    var usage: seq<UsageRow>
    var snapshots: seq<CostSnapshot>

    constructor ()
      ensures Rows() == State(Store([], []), [])
    {
      locks, usage, snapshots := [], [], [];
    }

    function Rows(): State
      reads this
    {
      State(Store(locks, usage), snapshots)
    }

    method AcquireFetchLock(c: CallContext, sig: Id, now: int) returns (acquired: bool)
      requires CostTheorems.OneRowPerSignature(locks)
      modifies this`locks
      ensures CostTheorems.OneRowPerSignature(locks)
      ensures acquired <==> AcquireLock(old(locks), c, sig, now).Some?
      ensures locks == if acquired then AcquireLock(old(locks), c, sig, now).value else old(locks)
      ensures acquired <==>
        forall i :: 0 <= i < |old(locks)| && old(locks)[i].sig == sig ==> old(locks)[i].lockedUntil <= now
    {
      var i := FindLock(locks, sig);
      if i < |locks| {
        if locks[i].lockedUntil > now {
          return false;
        }
        locks := locks[i := locks[i].(ctx := c, lockedUntil := now + LEASE)];
        return true;
      }
      locks := locks + [LockRow(sig, c, now + LEASE)];
      acquired := true;
    }

    method ReleaseFetchLock(sig: Id, now: int)
      modifies this`locks
      ensures locks == ReleaseLock(old(locks), sig, now)
    {
      var i := FindLock(locks, sig);
      if i == |locks| {
        return;
      }
      locks := locks[i := locks[i].(lockedUntil := now)];
    }

    /** Guard, acquire, fetch, log and, on every path past the acquisition, release. */
    method GuardAndCall(p: Policy, c: CallContext, f: Fetch) returns (fault: Option<CallFault>)
      requires CostTheorems.OneRowPerSignature(locks)
      modifies this`locks, this`usage
      ensures CostTheorems.OneRowPerSignature(locks)
      ensures (Rows().store, fault) == GuardedCall(old(Rows()).store, p, c, f.sig, f.times, f.succeeds)
    {
      fault := GuardFault(usage, p, c, f.times.guard);
      if fault.Some? {
        return;
      }
      var acquired := AcquireFetchLock(c, f.sig, f.times.acquire);
      if !acquired {
        return Some(FetchInProgress);
      }
      if f.succeeds {
        usage := usage + [UsageRow(c, f.sig, false, f.times.log)];
      } else {
        fault := Some(FetchFailed);
      }
      ReleaseFetchLock(f.sig, f.times.release);
    }

    method UpsertSnapshot(key: Key, date: int, now: int, payload: Id)
      requires OnePerDay(snapshots)
      modifies this`snapshots
      ensures OnePerDay(snapshots)
      ensures snapshots == Upsert(old(snapshots), key, date, now, payload)
    {
      UpsertKeepsOnePerDay(snapshots, key, date, now, payload);
      var i := FindDay(snapshots, key, date);
      if i == |snapshots| {
        snapshots := snapshots + [CostSnapshot(key, date, now, now, payload)];
      }
      snapshots := snapshots[i := snapshots[i].(updatedAt := now, payload := payload)];
    }

    method SyncCostSnapshot(p: Policy, y: Sync) returns (outcome: Outcome)
      requires CostTheorems.OneRowPerSignature(locks) && OnePerDay(snapshots)
      modifies this
      ensures CostTheorems.OneRowPerSignature(locks) && OnePerDay(snapshots)
      ensures (Rows(), outcome) == SyncStep(old(Rows()), p, y)
    {
      var l := LatestSnapshot(snapshots, KeyOf(y.ctx));
      if y.force.Some? && !MayForce(p, y.force.value) {
        return Forbidden;
      }
      if l < |snapshots| && !Stale(snapshots[l], p, y.checkedAt) && y.force.None? {
        return ServedFresh;
      }
      var fault := GuardAndCall(p, y.ctx, y.fetches.0);
      if fault.None? {
        fault := GuardAndCall(p, y.ctx, y.fetches.1);
        if fault.None? {
          fault := GuardAndCall(p, y.ctx, y.fetches.2);
        }
      }
      if fault.Some? {
        return if l < |snapshots| then ServedStale(fault.value) else Raised(fault.value);
      }
      if !y.usable {
        return Unusable;
      }
      UpsertSnapshot(KeyOf(y.ctx), y.date, y.writtenAt, y.payload);
      outcome := Written;
    }
  }
}
