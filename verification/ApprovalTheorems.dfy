/** The promises of the approval protocol, for every reachable state and every run. */
module ApprovalTheorems {
  import opened Collections
  import opened ApprovalModel
  import opened ApprovalProtocol
  import Text

  ghost predicate Reachable(db: Db) {
    exists es :: AdmissibleRun(EMPTY, es) && Run(EMPTY, es) == db
  }

  lemma ReachableInv(db: Db)
    requires Reachable(db)
    ensures Inv(db)
  {
    var es :| AdmissibleRun(EMPTY, es) && Run(EMPTY, es) == db;
    RunKeepsInv(EMPTY, es);
  }

  // ---- status, openness, the execution gate ----------------------------------------------------

  ghost predicate All(xs: seq<Assignment>, d: Decision) {
    forall x :: x in xs ==> x.decision == d
  }

  ghost predicate Any(xs: seq<Assignment>, d: Decision) {
    exists x :: x in xs && x.decision == d
  }

  ghost predicate ExactlyOneRefused(xs: seq<Assignment>) {
    exists k :: 0 <= k < |xs| && xs[k].decision == Refused &&
      forall j :: 0 <= j < |xs| && j != k ==> xs[j].decision != Refused
  }

  /** In every reachable state the assignments fix the status, and the status tells the assignments. */
  lemma StatusFixedByAssignments(db: Db, i: nat)
    requires Reachable(db) && i < |db.requests|
    ensures var r := db.requests[i];
      (r.status == Submitted <==> All(r.assignments, Pending)) &&
      (r.status == PartiallyApproved <==>
         Any(r.assignments, Granted) && Any(r.assignments, Pending) && !Any(r.assignments, Refused)) &&
      (r.status in {Approved, Executed} <==> All(r.assignments, Granted)) &&
      (r.status == Rejected <==> ExactlyOneRefused(r.assignments))
  {
    ReachableInv(db);
    var r := db.requests[i];
    assert Agrees(r);
    assert r.assignments[0] in r.assignments;
    if r.status == Rejected {
      var x :| x in r.assignments && x.decision == Refused;
      var k :| 0 <= k < |r.assignments| && r.assignments[k] == x;
    }
    if All(r.assignments, Granted) {
      assert StatusOf(r.assignments) == Approved;
    }
  }

  /** At most one request of a scope is open, it is the newest, and so the check of the newest alone finds it. */
  lemma OnlyTheNewestIsOpen(db: Db, scope: Scope)
    requires Reachable(db)
    ensures forall i, j :: 0 <= i < |db.requests| && 0 <= j < |db.requests| ==>
      db.requests[i].scope == scope == db.requests[j].scope && Open(db.requests[i]) && Open(db.requests[j]) ==> i == j
    ensures HasOpenRequest(db.requests, scope) <==>
      exists i :: 0 <= i < |db.requests| && db.requests[i].scope == scope && Open(db.requests[i])
  {
    ReachableInv(db);
    var l := Latest(db.requests, scope);
    forall i | 0 <= i < |db.requests| && db.requests[i].scope == scope && Open(db.requests[i]) ensures i == l {
      assert db.requests[i].createdAt <= db.requests[l].createdAt;
    }
  }

  /** The request of the scope that is newer than every other. */
  ghost predicate Newest(rs: seq<Request>, scope: Scope, i: int) {
    0 <= i < |rs| && rs[i].scope == scope &&
    forall j :: 0 <= j < |rs| && j != i && rs[j].scope == scope ==> rs[j].createdAt < rs[i].createdAt
  }

  lemma LatestIsNewest(db: Db, scope: Scope)
    requires Reachable(db)
    ensures forall i :: Newest(db.requests, scope, i) <==> i == Latest(db.requests, scope) < |db.requests|
  {
    ReachableInv(db);
    var l := Latest(db.requests, scope);
    forall i | Newest(db.requests, scope, i) ensures i == l {}
    if l < |db.requests| {
      forall j | 0 <= j < |db.requests| && j != l && db.requests[j].scope == scope
        ensures db.requests[j].createdAt < db.requests[l].createdAt {}
    }
  }

  /**
   * Execution is unblocked exactly when no request exists or the newest is unanimously approved and not executed, and
   * reported rejected exactly when the newest has a refusal.
   */
  lemma GateMeans(db: Db, scope: Scope)
    requires Reachable(db)
    ensures ExecutionGate(db.requests, scope) == Clear <==>
      (forall i :: 0 <= i < |db.requests| ==> db.requests[i].scope != scope) ||
      (exists i :: Newest(db.requests, scope, i) &&
         All(db.requests[i].assignments, Granted) && db.requests[i].executedAt == None)
    ensures ExecutionGate(db.requests, scope) == BlockedRejected <==>
      exists i :: Newest(db.requests, scope, i) && ExactlyOneRefused(db.requests[i].assignments)
  {
    LatestIsNewest(db, scope);
    var l := Latest(db.requests, scope);
    if l < |db.requests| {
      assert Newest(db.requests, scope, l);
      StatusFixedByAssignments(db, l);
      ReachableInv(db);
      assert Agrees(db.requests[l]);
    }
    hide Newest, All, ExactlyOneRefused, Agrees, Inv, Reachable;
  }

  /** A tagging row that ran belongs to a request every approver granted. */
  lemma RowRanOnlyIfUnanimous(db: Db, b: nat, k: nat)
    requires Reachable(db) && b < |db.batches| && k < |db.batches[b].rows|
    requires db.batches[b].rows[k].status in {Completed, Failed}
    ensures exists i :: (0 <= i < |db.requests| && db.batches[b].request == Some(db.requests[i].id) &&
                         All(db.requests[i].assignments, Granted))
  {
    ReachableInv(db);
    assert Linked(db.batches[b], db.requests);
    var i :| 0 <= i < |db.requests| && db.requests[i].id == db.batches[b].request.value &&
      Follows(db.batches[b], db.requests[i].status);
    StatusFixedByAssignments(db, i);
  }

  // ---- history ---------------------------------------------------------------------------------

  function PendingCount(xs: seq<Assignment>): nat {
    if xs == [] then 0
    else PendingCount(xs[..|xs| - 1]) + (if xs[|xs| - 1].decision == Pending then 1 else 0)
  }

  lemma {:induction false} NothingPending(xs: seq<Assignment>)
    ensures PendingCount(xs) == 0 <==> forall k :: 0 <= k < |xs| ==> xs[k].decision != Pending
  {
    if xs != [] {
      var n := |xs| - 1;
      NothingPending(xs[..n]);
      assert forall k :: 0 <= k < n ==> xs[..n][k] == xs[k];
    }
  }

  lemma {:induction false} DecidingLowersPending(xs: seq<Assignment>, k: nat, d: Decision)
    requires k < |xs| && xs[k].decision == Pending && d != Pending
    ensures PendingCount(xs[k := xs[k].(decision := d)]) == PendingCount(xs) - 1
  {
    var n := |xs| - 1;
    var ys := xs[k := xs[k].(decision := d)];
    if k < n {
      assert ys[..n] == xs[..n][k := xs[k].(decision := d)];
      DecidingLowersPending(xs[..n], k, d);
    } else {
      assert ys[..n] == xs[..n];
    }
  }

  /** What may happen to a request row: decisions are taken once, and a closed request never reopens. */
  ghost predicate Evolves(r: Request, s: Request) {
    s.id == r.id && s.org == r.org && s.scope == r.scope && s.createdAt == r.createdAt &&
    |s.assignments| == |r.assignments| &&
    (forall k :: 0 <= k < |r.assignments| ==>
       s.assignments[k].approver == r.assignments[k].approver &&
       (r.assignments[k].decision != Pending ==> s.assignments[k] == r.assignments[k])) &&
    PendingCount(s.assignments) <= PendingCount(r.assignments) &&
    (r.status == Rejected ==> s == r) &&
    (r.status == Executed ==> s == r) &&
    (r.status == Approved ==> s.status in {Approved, Executed} && s.assignments == r.assignments)
  }

  ghost predicate TableEvolves(rs: seq<Request>, ss: seq<Request>) {
    |rs| <= |ss| && forall i :: 0 <= i < |rs| ==> Evolves(rs[i], ss[i])
  }

  lemma DecidedEvolves(r: Request, k: nat, now: int)
    requires Open(r) && k < |r.assignments| && r.assignments[k].decision == Pending
    ensures Evolves(r, GrantAt(r, k, now)) && Evolves(r, RefuseAt(r, k, now))
  {
    DecidingLowersPending(r.assignments, k, Granted);
    DecidingLowersPending(r.assignments, k, Refused);
  }

  /** The request table after one call: unchanged, or one new row, or one row decided or executed. */
  ghost predicate StepShape(db: Db, e: Event, rs: seq<Request>) {
    rs == db.requests ||
    (exists r :: rs == db.requests + [r] && All(r.assignments, Pending)) ||
    (exists i, k :: 0 <= i < |db.requests| && 0 <= k < |db.requests[i].assignments| && Decides(db, e, rs, i, k)) ||
    (exists i :: 0 <= i < |db.requests| && ExecutesRow(db, e, rs, i))
  }

  ghost predicate Decides(db: Db, e: Event, rs: seq<Request>, i: nat, k: nat)
    requires i < |db.requests| && k < |db.requests[i].assignments|
  {
    var r := db.requests[i];
    Open(r) && r.assignments[k].decision == Pending &&
    ((rs == db.requests[i := GrantAt(r, k, e.now)] && ApprovedBy(e, r, r.assignments[k].approver)) ||
     (rs == db.requests[i := RefuseAt(r, k, e.now)] && RefusedBy(e, r, r.assignments[k].approver)))
  }

  ghost predicate ExecutesRow(db: Db, e: Event, rs: seq<Request>, i: nat)
    requires i < |db.requests|
  {
    db.requests[i].status == Approved &&
    rs == db.requests[i := db.requests[i].(status := Executed, executedAt := Some(e.now))]
  }

  lemma StepHasShape(db: Db, e: Event)
    ensures StepShape(db, e, Step(db, e).requests)
  {
    if Apply(db, e).Ok? {
      match e.call
      case DoCreate(a, newId) => CreateShape(db, e.world, a, newId, e.now);
      case DoCreateBatch(_, a, _, recs, newId, _, _) => CreateShape(db, e.world, a.(rec := recs[0]), newId, e.now);
      case DoApprove(_, _, _, _, _) => DecisionShape(db, e);
      case DoReject(_, _, _, _, _) => DecisionShape(db, e);
      case DoExecute(id, org, ok, fault) =>
        assert ExecutesRow(db, e, Step(db, e).requests, FindRequest(db.requests, id, org));
      case DoExecuteBatch(tenant, account, id, ok) =>
      case SetOutcome(rec, value) =>
    }
  }

  lemma DecisionShape(db: Db, e: Event)
    requires (e.call.DoApprove? || e.call.DoReject?) && Apply(db, e).Ok?
    ensures exists i, k :: (0 <= i < |db.requests| && 0 <= k < |db.requests[i].assignments| &&
                            Decides(db, e, Step(db, e).requests, i, k))
  {
    hide SetWorkflow, HookStop, BatchOnApproved, BatchOnRejected, FindBatchOf, FindAssignment, MayApprove, GrantAt,
      RefuseAt;
    var (i, k) := DecisionCheck(db, e.world, e.call.id, e.call.org, e.call.who).value;
    MayApproveIff(e.world.tables, e.call.org, db.requests[i].scope, e.call.who);
    hide HasApproverAccess;
    assert Decides(db, e, Step(db, e).requests, i, k);
  }

  lemma CreateShape(db: Db, w: World, a: CreateArgs, newId: Id, now: int)
    requires Create(db, w, a, newId, now).Ok?
    ensures exists r :: Create(db, w, a, newId, now).value.requests == db.requests + [r] && All(r.assignments, Pending)
  {
    var r := NewRequest(newId, a.org, CreateCheck(db, w, a).value, Dedup(a.approvers), now);
    assert All(r.assignments, Pending);
  }

  lemma StepEvolves(db: Db, e: Event)
    ensures TableEvolves(db.requests, Step(db, e).requests)
  {
    StepHasShape(db, e);
    hide Step, ApprovedBy;
    var rs := Step(db, e).requests;
    if i, k :| 0 <= i < |db.requests| && 0 <= k < |db.requests[i].assignments| && Decides(db, e, rs, i, k) {
      DecidedEvolves(db.requests[i], k, e.now);
    }
  }

  /** Over any run, from any state and with any faults, every request row evolves as `Evolves` allows. */
  lemma {:induction false} RunEvolves(db: Db, es: seq<Event>)
    ensures TableEvolves(db.requests, Run(db, es).requests)
  {
    if es != [] {
      var n := |es| - 1;
      RunEvolves(db, es[..n]);
      StepEvolves(Run(db, es[..n]), es[n]);
    }
  }

  /** A successful decision takes exactly one pending assignment; every call that is refused takes none. */
  lemma DecisionMeasure(db: Db, e: Event, i: nat)
    requires e.call.DoApprove? || e.call.DoReject?
    requires i == FindRequest(db.requests, e.call.id, e.call.org)
    ensures Apply(db, e).Ok? ==> i < |db.requests| && i < |Step(db, e).requests|
    ensures Apply(db, e).Ok? ==>
      PendingCount(Step(db, e).requests[i].assignments) == PendingCount(db.requests[i].assignments) - 1
    ensures Apply(db, e).Err? ==> Step(db, e) == db
  {
    hide MayApprove, SetWorkflow, BatchOnApproved, BatchOnRejected, HookStop, FindBatchOf, FindAssignment, PendingCount;
    if Apply(db, e).Ok? {
      var (j, k) := DecisionCheck(db, e.world, e.call.id, e.call.org, e.call.who).value;
      DecidingLowersPending(db.requests[j].assignments, k, if e.call.DoApprove? then Granted else Refused);
    }
  }

  lemma RejectsTheRow(db: Db, e: Event)
    requires e.call.DoReject? && Apply(db, e).Ok?
    ensures var i := FindRequest(db.requests, e.call.id, e.call.org);
      i < |db.requests| == |Step(db, e).requests| && Step(db, e).requests[i].status == Rejected &&
      Step(db, e).requests[i].id == e.call.id && Step(db, e).requests[i].org == e.call.org
  {
  }

  lemma ClosedRefusesDecisions(db: Db, e: Event, i: nat)
    requires e.call.DoApprove? || e.call.DoReject?
    requires i == FindRequest(db.requests, e.call.id, e.call.org) && i < |db.requests| && !Open(db.requests[i])
    ensures Apply(db, e) == Err(NotActionable)
  {
  }

  /** One refusal closes its request for good: whatever runs next, it stays rejected and every later decision fails. */
  lemma RejectionCloses(db: Db, e: Event, es: seq<Event>, later: Event)
    requires Inv(db) && e.call.DoReject? && Apply(db, e).Ok?
    requires AdmissibleRun(Step(db, e), es)
    requires later.call.DoApprove? || later.call.DoReject?
    requires later.call.id == e.call.id && later.call.org == e.call.org
    ensures var i := FindRequest(db.requests, e.call.id, e.call.org);
      i < |db.requests| && i < |Run(Step(db, e), es).requests| &&
      Run(Step(db, e), es).requests[i].status == Rejected
    ensures Apply(Run(Step(db, e), es), later) == Err(NotActionable)
  {
    var i := FindRequest(db.requests, e.call.id, e.call.org);
    var mid, end := Step(db, e), Run(Step(db, e), es);
    assert Admissible(db, e);
    StepKeepsInv(db, e);
    RunKeepsInv(mid, es);
    RunEvolves(mid, es);
    RejectsTheRow(db, e);
    hide Apply, Step, AdmissibleRun, Run;
    assert Evolves(mid.requests[i], end.requests[i]);
    FindsTheRow(end.requests, i);
    ClosedRefusesDecisions(end, later, i);
  }

  lemma FindsTheRow(rs: seq<Request>, i: nat)
    requires RequestsOk(rs) && i < |rs|
    ensures FindRequest(rs, rs[i].id, rs[i].org) == i
  {
  }

  // ---- provenance of approvals -------------------------------------------------------------------

  /** An approve call for this request by this user, who had approver access when it ran. */
  ghost predicate ApprovedBy(e: Event, r: Request, user: Id) {
    e.call.DoApprove? && e.call.id == r.id && e.call.org == r.org && e.call.who.user == user &&
    HasApproverAccess(e.world.tables, r.org, r.scope, e.call.who)
  }

  /** A reject call for this request by this user, with access and a comment. */
  ghost predicate RefusedBy(e: Event, r: Request, user: Id) {
    e.call.DoReject? && e.call.id == r.id && e.call.org == r.org && e.call.who.user == user &&
    HasApproverAccess(e.world.tables, r.org, r.scope, e.call.who) && Text.Strip(e.call.comment) != ""
  }

  /** Every granted assignment in a reachable state was granted by its own approver, with access at that time. */
  lemma {:induction false} GrantedHasItsApproval(es: seq<Event>, i: nat, k: nat)
    requires i < |Run(EMPTY, es).requests| && k < |Run(EMPTY, es).requests[i].assignments|
    requires Run(EMPTY, es).requests[i].assignments[k].decision == Granted
    ensures var r := Run(EMPTY, es).requests[i];
      exists n :: 0 <= n < |es| && ApprovedBy(es[n], r, r.assignments[k].approver)
  {
    if es != [] {
      var n := |es| - 1;
      var before, after := Run(EMPTY, es[..n]), Run(EMPTY, es);
      var r := after.requests[i];
      StepEvolves(before, es[n]);
      if i < |before.requests| && before.requests[i].assignments[k].decision == Granted {
        GrantedHasItsApproval(es[..n], i, k);
        var m :| 0 <= m < n && ApprovedBy(es[..n][m], before.requests[i], r.assignments[k].approver);
        assert ApprovedBy(es[m], r, r.assignments[k].approver);
      } else {
        NewGrantIsApproval(before, es[n], i, k);
      }
    }
  }

  lemma NewGrantIsApproval(db: Db, e: Event, i: nat, k: nat)
    requires i < |Step(db, e).requests| && k < |Step(db, e).requests[i].assignments|
    requires Step(db, e).requests[i].assignments[k].decision == Granted
    requires i < |db.requests| ==> k < |db.requests[i].assignments| && db.requests[i].assignments[k].decision != Granted
    ensures ApprovedBy(e, Step(db, e).requests[i], Step(db, e).requests[i].assignments[k].approver)
  {
    StepHasShape(db, e);
    hide Step, HasApproverAccess;
    var rs := Step(db, e).requests;
    assert rs[i].assignments[k] in rs[i].assignments;
  }

  /** And every refused one was refused by its own approver, with access at that time and a comment. */
  lemma {:induction false} RefusedHasItsRejection(es: seq<Event>, i: nat, k: nat)
    requires i < |Run(EMPTY, es).requests| && k < |Run(EMPTY, es).requests[i].assignments|
    requires Run(EMPTY, es).requests[i].assignments[k].decision == Refused
    ensures var r := Run(EMPTY, es).requests[i];
      exists n :: 0 <= n < |es| && RefusedBy(es[n], r, r.assignments[k].approver)
  {
    if es != [] {
      var n := |es| - 1;
      var before, after := Run(EMPTY, es[..n]), Run(EMPTY, es);
      var r := after.requests[i];
      assert after == Step(before, es[n]);
      StepEvolves(before, es[n]);
      hide Step;
      if i < |before.requests| && before.requests[i].assignments[k].decision == Refused {
        RefusedHasItsRejection(es[..n], i, k);
        var m :| 0 <= m < n && RefusedBy(es[..n][m], before.requests[i], r.assignments[k].approver);
        assert RefusedBy(es[m], r, r.assignments[k].approver);
      } else {
        NewRefusalIsRejection(before, es[n], i, k);
      }
    }
  }

  lemma NewRefusalIsRejection(db: Db, e: Event, i: nat, k: nat)
    requires i < |Step(db, e).requests| && k < |Step(db, e).requests[i].assignments|
    requires Step(db, e).requests[i].assignments[k].decision == Refused
    requires i < |db.requests| ==> k < |db.requests[i].assignments| && db.requests[i].assignments[k].decision != Refused
    ensures RefusedBy(e, Step(db, e).requests[i], Step(db, e).requests[i].assignments[k].approver)
  {
    StepHasShape(db, e);
    hide Step, HasApproverAccess, Text.Strip;
    var rs := Step(db, e).requests;
    assert rs[i].assignments[k] in rs[i].assignments;
  }

  // ---- batch execution ---------------------------------------------------------------------------

  lemma {:induction false} CountsAdd(rows: seq<Row>, a: RowStatus, b: RowStatus)
    requires a != b && forall k :: 0 <= k < |rows| ==> rows[k].status in {a, b}
    ensures CountRows(rows, a) + CountRows(rows, b) == |rows|
    ensures CountRows(rows, b) == 0 <==> forall k :: 0 <= k < |rows| ==> rows[k].status == a
  {
    if rows != [] {
      CountsAdd(rows[..|rows| - 1], a, b);
    }
  }

  /** The row's cloud call and outcome update succeed: its recommendation still exists in the batch's account. */
  ghost predicate Succeeds(w: World, b: Batch, k: nat, ok: set<nat>)
    requires k < |b.rows|
  {
    k in ok && b.rows[k].rec in w.recs &&
    w.recs[b.rows[k].rec].tenant == b.tenant && w.recs[b.rows[k].rec].account == b.account
  }

  /**
   * One execution leaves every row completed or failed, the two counts add up to the rows, the batch is completed
   * exactly when no row failed, and a row is completed exactly when it was before or succeeds now.
   */
  lemma ExecutionSettlesBatch(w: World, b: Batch, ok: set<nat>)
    ensures var r := RunBatch(w, b, ok);
      |r.rows| == |b.rows| &&
      (forall k :: 0 <= k < |r.rows| ==> r.rows[k].rec == b.rows[k].rec && r.rows[k].status in {Completed, Failed}) &&
      (forall k :: 0 <= k < |r.rows| ==>
         (r.rows[k].status == Completed <==> b.rows[k].status == Completed || Succeeds(w, b, k, ok))) &&
      CountRows(r.rows, Completed) + CountRows(r.rows, Failed) == |b.rows| &&
      r.status in {BatchCompleted, BatchFailed} &&
      (r.status == BatchCompleted <==> forall k :: 0 <= k < |r.rows| ==> r.rows[k].status == Completed)
  {
    CountsAdd(RunRows(w, b, ok), Completed, Failed);
  }

  lemma {:induction false} SentExactly(b: Batch, n: nat)
    requires n <= |b.rows|
    ensures forall x :: x in Sent(b, n) <==> x.0 == b.id && x.1 < n && b.rows[x.1].status != Completed
    ensures NoDuplicates(Sent(b, n))
  {
    if n > 0 {
      SentExactly(b, n - 1);
    }
  }

  /** A completed row stays completed in its place, and `more`, what was sent since, does not contain it. */
  ghost predicate StaysDone(db: Db, db': Db, b: nat, k: nat)
    requires b < |db.batches| && k < |db.batches[b].rows|
  {
    b < |db'.batches| && db'.batches[b].id == db.batches[b].id && |db'.batches[b].rows| == |db.batches[b].rows| &&
    db'.batches[b].rows[k] == db.batches[b].rows[k] &&
    db.attempts <= db'.attempts && (db.batches[b].id, k) !in db'.attempts[|db.attempts|..]
  }

  lemma ExecuteBatchKeepsDone(db: Db, w: World, tenant: Id, account: Id, id: Id, ok: set<nat>, b: nat, k: nat)
    requires Inv(db) && ExecuteBatch(db, w, tenant, account, id, ok).Ok?
    requires b < |db.batches| && k < |db.batches[b].rows| && db.batches[b].rows[k].status == Completed
    ensures StaysDone(db, ExecuteBatch(db, w, tenant, account, id, ok).value, b, k)
  {
    var i := FindBatch(db.batches, tenant, account, id);
    var c := db.batches[i];
    SentExactly(c, |c.rows|);
    var db' := ExecuteBatch(db, w, tenant, account, id, ok).value;
    assert db'.attempts[|db.attempts|..] == Sent(c, |c.rows|);
  }

  lemma StepKeepsDone(db: Db, e: Event, b: nat, k: nat)
    requires Inv(db) && b < |db.batches| && k < |db.batches[b].rows| && db.batches[b].rows[k].status == Completed
    ensures StaysDone(db, Step(db, e), b, k)
  {
    if Apply(db, e).Ok? {
      assert Linked(db.batches[b], db.requests);
      hide Inv, Linked, Approve, Reject, ExecuteBatch, Create;
      match e.call
      case DoApprove(id, org, who, fault, hookFault) => DecisionSparesDone(db, e, b, k);
      case DoReject(id, org, who, comment, fault) => DecisionSparesDone(db, e, b, k);
      case DoExecute(id, org, ok, fault) =>
        var c := FindBatchOf(db.batches, id);
        if c < |db.batches| {
          ExecuteBatchKeepsDone(db, e.world, db.batches[c].tenant, db.batches[c].account, db.batches[c].id, ok, b, k);
        }
      case DoExecuteBatch(tenant, account, id, ok) => ExecuteBatchKeepsDone(db, e.world, tenant, account, id, ok, b, k);
      case _ =>
    }
  }

  /** A decision is about an open request, whose batch has no completed row. */
  lemma DecisionSparesDone(db: Db, e: Event, b: nat, k: nat)
    requires Inv(db) && (e.call.DoApprove? || e.call.DoReject?) && Apply(db, e).Ok?
    requires b < |db.batches| && k < |db.batches[b].rows| && db.batches[b].rows[k].status == Completed
    ensures StaysDone(db, Step(db, e), b, k)
  {
    var (i, _) := DecisionCheck(db, e.world, e.call.id, e.call.org, e.call.who).value;
    OpenRowsPending(db, i);
    assert db.batches[b].request != Some(e.call.id);
  }

  /** Over any run a completed row stays completed and is never sent again. */
  lemma {:induction false} RunKeepsDone(db: Db, es: seq<Event>, b: nat, k: nat)
    requires Inv(db) && AdmissibleRun(db, es)
    requires b < |db.batches| && k < |db.batches[b].rows| && db.batches[b].rows[k].status == Completed
    ensures StaysDone(db, Run(db, es), b, k)
  {
    if es != [] {
      hide Inv, Step, Admissible;
      var n := |es| - 1;
      RunKeepsDone(db, es[..n], b, k);
      RunKeepsInv(db, es[..n]);
      StepKeepsDone(Run(db, es[..n]), es[n], b, k);
      StaysDoneTransitive(db, Run(db, es[..n]), Run(db, es), b, k);
    }
  }

  lemma StaysDoneTransitive(db: Db, mid: Db, end: Db, b: nat, k: nat)
    requires b < |db.batches| && k < |db.batches[b].rows| && StaysDone(db, mid, b, k) && StaysDone(mid, end, b, k)
    ensures StaysDone(db, end, b, k)
  {
    var a := |db.attempts|;
    assert end.attempts[a..] == mid.attempts[a..] + end.attempts[|mid.attempts|..];
  }

  // ---- the badge and the list ----------------------------------------------------------------------

  function CountMine(xs: seq<Assignment>, user: Id): nat {
    if xs == [] then 0
    else CountMine(xs[1..], user) + (if xs[0].approver == user && xs[0].decision == Pending then 1 else 0)
  }

  /** Rows of the join of open requests with the user's pending assignments. */
  function Badge(rs: seq<Request>, org: Id, user: Option<Id>): nat {
    if rs == [] || user.None? then 0
    else Badge(rs[1..], org, user) +
         (if rs[0].org == org && Open(rs[0]) then CountMine(rs[0].assignments, user.value) else 0)
  }

  datatype ListFilter = ListFilter(
    org: Id, user: Option<Id>, rec: Option<Id>, status: Option<RequestStatus>, pendingForMe: bool, adminView: bool)

  function Listed(r: Request, f: ListFilter): bool {
    r.org == f.org && (f.rec.Some? ==> r.scope.rec == f.rec.value) && (f.status.Some? ==> r.status == f.status.value) &&
    if f.pendingForMe && f.user.Some? then
      Open(r) && exists x :: x in r.assignments && x == Assignment(f.user.value, Pending)
    else if !f.adminView && f.user.Some? then exists x :: x in r.assignments && x.approver == f.user.value
    else true
  }

  /** The total of the paged list: distinct requests that match. */
  function ListTotal(rs: seq<Request>, f: ListFilter): nat {
    if rs == [] then 0 else ListTotal(rs[1..], f) + (if Listed(rs[0], f) then 1 else 0)
  }

  lemma {:induction false} MineAtMostOnce(xs: seq<Assignment>, user: Id)
    requires DistinctApprovers(xs)
    ensures CountMine(xs, user) == if Assignment(user, Pending) in xs then 1 else 0
  {
    if xs != [] {
      MineAtMostOnce(xs[1..], user);
      assert forall x :: x in xs <==> x == xs[0] || x in xs[1..];
    }
  }

  lemma {:induction false} BadgeIsListTotalOf(rs: seq<Request>, org: Id, user: Id, adminView: bool)
    requires forall i :: 0 <= i < |rs| ==> DistinctApprovers(rs[i].assignments)
    ensures Badge(rs, org, Some(user)) == ListTotal(rs, ListFilter(org, Some(user), None, None, true, adminView))
  {
    if rs != [] {
      MineAtMostOnce(rs[0].assignments, user);
      BadgeIsListTotalOf(rs[1..], org, user, adminView);
    }
  }

  /**
   * In every reachable state the badge of a user is the total of that user's pending list. Without a user the badge
   * is zero, but the list ignores the filter: the two then agree exactly when the organization has no request at all.
   */
  lemma BadgeIsListTotal(db: Db, org: Id, user: Option<Id>, adminView: bool)
    requires Reachable(db)
    ensures Badge(db.requests, org, user) == ListTotal(db.requests, ListFilter(org, user, None, None, true, adminView))
      <==> user.Some? || forall i :: 0 <= i < |db.requests| ==> db.requests[i].org != org
  {
    ReachableInv(db);
    match user {
      case Some(u) =>
        assert forall i :: 0 <= i < |db.requests| ==> Agrees(db.requests[i]);
        BadgeIsListTotalOf(db.requests, org, u, adminView);
      case None => UnfilteredTotal(db.requests, org, adminView);
    }
  }

  lemma {:induction false} UnfilteredTotal(rs: seq<Request>, org: Id, adminView: bool)
    ensures ListTotal(rs, ListFilter(org, None, None, None, true, adminView)) == 0 <==>
      forall i :: 0 <= i < |rs| ==> rs[i].org != org
  {
    if rs != [] {
      UnfilteredTotal(rs[1..], org, adminView);
      assert forall i :: 0 < i < |rs| ==> rs[i] == rs[1..][i - 1];
      assert forall i :: 0 <= i < |rs| - 1 ==> rs[1..][i] == rs[i + 1];
    }
  }
}
