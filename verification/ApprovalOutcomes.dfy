/** What the approval calls do to the workflow of recommendations, and what a recorded outcome proves about the past. */
module ApprovalOutcomes {
  import opened Collections
  import opened Directory
  import opened ApprovalModel
  import opened ApprovalProtocol
  import opened ApprovalTheorems
  import Text

  ghost predicate HasRec(rows: seq<Row>, rec: Id) {
    exists k :: 0 <= k < |rows| && rows[k].rec == rec
  }

  lemma {:induction false} SetWorkflowAt(wf: map<Id, Workflow>, rows: seq<Row>, value: Workflow, x: Id)
    ensures WorkflowOf(SetWorkflow(wf, rows, value), x) == if HasRec(rows, x) then value else WorkflowOf(wf, x)
  {
    if rows != [] {
      var n := |rows| - 1;
      SetWorkflowAt(wf, rows[..n], value, x);
      assert HasRec(rows, x) <==> HasRec(rows[..n], x) || rows[n].rec == x by {
        assert HasRec(rows[..n], x) ==> exists k :: 0 <= k < n && rows[k].rec == x;
      }
    }
  }

  /** Row `k` is completed by this execution, not before. */
  ghost predicate NewlyDone(w: World, b: Batch, k: nat, ok: set<nat>)
    requires k < |b.rows|
  {
    b.rows[k].status != Completed && RowDone(w, b, k, ok)
  }

  lemma {:induction false} AppliedAt(wf: map<Id, Workflow>, w: World, b: Batch, n: nat, ok: set<nat>, x: Id)
    requires n <= |b.rows|
    ensures WorkflowOf(AppliedBy(wf, w, b, n, ok), x) ==
      if exists k :: 0 <= k < n && NewlyDone(w, b, k, ok) && b.rows[k].rec == x then Applied else WorkflowOf(wf, x)
  {
    if n > 0 {
      AppliedAt(wf, w, b, n - 1, ok, x);
      assert NewlyDone(w, b, n - 1, ok) || !NewlyDone(w, b, n - 1, ok);
    }
  }

  /** The hook finishes rows up to the outside fault or to the first recommendation that is gone, whichever is first. */
  lemma {:induction false} HookStopsAtFirstFault(rows: seq<Row>, b: Batch, w: World, fault: nat)
    ensures var n := HookStopFrom(rows, b, w, fault);
      n <= fault && (forall j :: 0 <= j < n ==> RecExists(w, rows[j].rec, b.tenant, b.account)) &&
      (n < |rows| ==> n == fault || !RecExists(w, rows[n].rec, b.tenant, b.account))
  {
    if rows != [] && fault > 0 && RecExists(w, rows[0].rec, b.tenant, b.account) {
      HookStopsAtFirstFault(rows[1..], b, w, fault - 1);
      var n := HookStopFrom(rows, b, w, fault);
      forall j | 0 <= j < n ensures RecExists(w, rows[j].rec, b.tenant, b.account) {
        assert j > 0 ==> rows[j] == rows[1..][j - 1];
      }
    }
  }

  /**
   * An approval that leaves others pending touches neither batches nor outcomes. The last one marks the request's
   * recommendation approved, if it still exists, and those of the rows the hook finishes, and no other.
   */
  lemma ApprovalMovesWorkflow(db: Db, e: Event, i: nat, b: nat, x: Id)
    requires e.call.DoApprove? && Apply(db, e).Ok?
    requires i == FindRequest(db.requests, e.call.id, e.call.org) && b == FindBatchOf(db.batches, e.call.id)
    ensures var t := Step(db, e);
      i < |t.requests| && t.requests[i].status in {PartiallyApproved, Approved} &&
      (t.requests[i].status == PartiallyApproved ==> t.workflow == db.workflow && t.batches == db.batches) &&
      (t.requests[i].status == Approved ==>
         WorkflowOf(t.workflow, x) ==
         if (x == t.requests[i].scope.rec &&
             RecExists(e.world, x, t.requests[i].scope.tenant, t.requests[i].scope.account)) ||
            (b < |db.batches| && HasRec(db.batches[b].rows[..HookStop(db.batches[b], e.world, e.call.hookFault)], x))
         then WorkflowApproved else WorkflowOf(db.workflow, x))
  {
    var r := GrantAt(db.requests[i], DecisionCheck(db, e.world, e.call.id, e.call.org, e.call.who).value.1, e.now);
    hide SetWorkflow, HookStop, DecisionCheck;
    var wf := if RecExists(e.world, r.scope.rec, r.scope.tenant, r.scope.account)
              then db.workflow[r.scope.rec := WorkflowApproved] else db.workflow;
    if b < |db.batches| {
      SetWorkflowAt(wf, db.batches[b].rows[..HookStop(db.batches[b], e.world, e.call.hookFault)], WorkflowApproved, x);
    }
  }

  /** Row `k` is sent by this execution and both its cloud call and its outcome update succeed. */
  ghost predicate Applies(w: World, b: Batch, k: nat, ok: set<nat>)
    requires k < |b.rows|
  {
    b.rows[k].status != Completed && Succeeds(w, b, k, ok)
  }

  /** Some row for the recommendation does. */
  ghost predicate AppliesTo(w: World, b: Batch, ok: set<nat>, x: Id) {
    exists k :: 0 <= k < |b.rows| && Applies(w, b, k, ok) && b.rows[k].rec == x
  }

  lemma BatchMovesWorkflow(wf: map<Id, Workflow>, w: World, b: Batch, ok: set<nat>, x: Id)
    ensures WorkflowOf(AppliedBy(wf, w, b, |b.rows|, ok), x) ==
      if AppliesTo(w, b, ok, x) then Applied else WorkflowOf(wf, x)
  {
    AppliedAt(wf, w, b, |b.rows|, ok, x);
    assert forall k :: 0 <= k < |b.rows| ==> (NewlyDone(w, b, k, ok) <==> Applies(w, b, k, ok));
  }

  /**
   * Executing a request without a batch applies its own recommendation, if that still exists; executing one with a
   * batch applies those of the rows that succeed now; and nothing else moves.
   */
  lemma ExecutionMovesWorkflow(db: Db, e: Event, i: nat, b: nat, x: Id)
    requires Inv(db) && e.call.DoExecute? && Apply(db, e).Ok?
    requires i == FindRequest(db.requests, e.call.id, e.call.org) && b == FindBatchOf(db.batches, e.call.id)
    ensures i < |db.requests| &&
      var scope, w := db.requests[i].scope, e.world;
      WorkflowOf(Step(db, e).workflow, x) ==
      if (b == |db.batches| && x == scope.rec && x in w.recs &&
          w.recs[x].tenant == scope.tenant && w.recs[x].account == scope.account) ||
         (b < |db.batches| && AppliesTo(w, db.batches[b], e.call.ok, x))
      then Applied else WorkflowOf(db.workflow, x)
  {
    hide AppliedBy, AppliesTo, RunBatch, Sent, FindById;
    if b < |db.batches| {
      assert FindBatch(db.batches, db.batches[b].tenant, db.batches[b].account, db.batches[b].id) == b;
      BatchMovesWorkflow(db.workflow, e.world, db.batches[b], e.call.ok, x);
    }
  }

  /** Executing a batch by itself does the same for its rows. */
  lemma BatchExecutionMovesWorkflow(db: Db, e: Event, b: nat, x: Id)
    requires e.call.DoExecuteBatch? && Apply(db, e).Ok?
    requires b == FindBatch(db.batches, e.call.tenant, e.call.account, e.call.batchId)
    ensures b < |db.batches| &&
      WorkflowOf(Step(db, e).workflow, x) ==
      if AppliesTo(e.world, db.batches[b], e.call.ok, x) then Applied else WorkflowOf(db.workflow, x)
  {
    BatchMovesWorkflow(db.workflow, e.world, db.batches[b], e.call.ok, x);
    hide AppliedBy, AppliesTo, RunBatch, Sent;
  }

  /** A rejection moves the request's existing recommendation to rejected, unless it is applied or verified. */
  lemma RejectionMovesWorkflow(db: Db, e: Event, i: nat, x: Id)
    requires e.call.DoReject? && Apply(db, e).Ok? && i == FindRequest(db.requests, e.call.id, e.call.org)
    ensures i < |db.requests| &&
      var scope, w := db.requests[i].scope, e.world;
      WorkflowOf(Step(db, e).workflow, x) ==
      if x == scope.rec && x in w.recs && w.recs[x].tenant == scope.tenant && w.recs[x].account == scope.account &&
         WorkflowOf(db.workflow, x) != Applied && WorkflowOf(db.workflow, x) != Verified
      then WorkflowRejected else WorkflowOf(db.workflow, x)
  {
    hide MayApprove, FindBatchOf, BatchOnRejected, FindAssignment;
  }

  /** Creating a request moves no recommendation. */
  lemma CreationMovesNoWorkflow(db: Db, e: Event, x: Id)
    requires e.call.DoCreate? || e.call.DoCreateBatch?
    ensures WorkflowOf(Step(db, e).workflow, x) == WorkflowOf(db.workflow, x)
  {
    hide CreateCheck, NewRequest, Dedup, NewBatch;
  }

  // ---- an applied recommendation was approved -------------------------------------------------------

  /** An executed request for the recommendation, or a completed tagging row. */
  ghost predicate Justified(db: Db, x: Id) {
    (exists i :: 0 <= i < |db.requests| && db.requests[i].scope.rec == x && db.requests[i].status == Executed) ||
    (exists b, k :: 0 <= b < |db.batches| && 0 <= k < |db.batches[b].rows| &&
       db.batches[b].rows[k] == Row(x, Completed))
  }

  lemma JustifiedStays(db: Db, e: Event, x: Id)
    requires Inv(db) && Justified(db, x)
    ensures Justified(Step(db, e), x)
  {
    var t := Step(db, e);
    if i :| 0 <= i < |db.requests| && db.requests[i].scope.rec == x && db.requests[i].status == Executed {
      StepEvolves(db, e);
      hide Step;
      assert Evolves(db.requests[i], t.requests[i]);
    } else {
      var b, k :| 0 <= b < |db.batches| && 0 <= k < |db.batches[b].rows| && db.batches[b].rows[k] == Row(x, Completed);
      StepKeepsDone(db, e, b, k);
      hide Step;
      assert t.batches[b].rows[k] == Row(x, Completed);
    }
  }

  lemma ExecuteBatchJustifies(db: Db, w: World, tenant: Id, account: Id, id: Id, ok: set<nat>, x: Id)
    requires ExecuteBatch(db, w, tenant, account, id, ok).Ok?
    ensures var t := ExecuteBatch(db, w, tenant, account, id, ok).value;
      WorkflowOf(t.workflow, x) == Applied ==>
        WorkflowOf(db.workflow, x) == Applied ||
        exists b, k :: 0 <= b < |t.batches| && 0 <= k < |t.batches[b].rows| && t.batches[b].rows[k] == Row(x, Completed)
  {
    var i := FindBatch(db.batches, tenant, account, id);
    var b := db.batches[i];
    AppliedAt(db.workflow, w, b, |b.rows|, ok, x);
    var t := ExecuteBatch(db, w, tenant, account, id, ok).value;
    hide AppliedBy, Sent;
    if k :| 0 <= k < |b.rows| && NewlyDone(w, b, k, ok) && b.rows[k].rec == x {
      assert t.batches[i].rows[k] == Row(x, Completed);
    }
  }

  lemma ApprovalAppliesNothing(db: Db, e: Event, x: Id)
    requires e.call.DoApprove? && Apply(db, e).Ok?
    ensures WorkflowOf(Step(db, e).workflow, x) == Applied ==> WorkflowOf(db.workflow, x) == Applied
  {
    ApprovalMovesWorkflow(db, e, FindRequest(db.requests, e.call.id, e.call.org),
      FindBatchOf(db.batches, e.call.id), x);
  }

  lemma ExecutionJustifies(db: Db, e: Event, x: Id)
    requires e.call.DoExecute? && Apply(db, e).Ok?
    ensures WorkflowOf(Step(db, e).workflow, x) == Applied ==>
      WorkflowOf(db.workflow, x) == Applied || Justified(Step(db, e), x)
  {
    var i := FindRequest(db.requests, e.call.id, e.call.org);
    var b := FindBatchOf(db.batches, e.call.id);
    var t := Step(db, e);
    assert t.requests[i].status == Executed && t.requests[i].scope == db.requests[i].scope;
    if b < |db.batches| {
      ExecuteBatchJustifies(db, e.world, db.batches[b].tenant, db.batches[b].account, db.batches[b].id, e.call.ok, x);
      hide ExecuteBatch;
    }
  }

  /** Other services may move the workflow, but not to applied. */
  ghost predicate LeavesApplying(e: Event) {
    e.call.SetOutcome? ==> e.call.value != Applied
  }

  lemma StepJustifies(db: Db, e: Event, x: Id)
    requires Inv(db) && LeavesApplying(e)
    requires WorkflowOf(db.workflow, x) == Applied ==> Justified(db, x)
    ensures WorkflowOf(Step(db, e).workflow, x) == Applied ==> Justified(Step(db, e), x)
  {
    if Justified(db, x) {
      JustifiedStays(db, e, x);
    } else if Apply(db, e).Ok? {
      hide Inv, Justified;
      match e.call
      case DoApprove(_, _, _, _, _) => ApprovalAppliesNothing(db, e, x);
      case DoExecute(_, _, _, _) => ExecutionJustifies(db, e, x);
      case DoExecuteBatch(tenant, account, id, ok) => BatchCallJustifies(db, e, x);
      case _ =>
    }
  }

  lemma BatchCallJustifies(db: Db, e: Event, x: Id)
    requires e.call.DoExecuteBatch? && Apply(db, e).Ok?
    ensures WorkflowOf(Step(db, e).workflow, x) == Applied ==>
      WorkflowOf(db.workflow, x) == Applied || Justified(Step(db, e), x)
  {
    ExecuteBatchJustifies(db, e.world, e.call.tenant, e.call.account, e.call.batchId, e.call.ok, x);
  }

  lemma {:induction false} RunJustifies(es: seq<Event>, x: Id)
    requires AdmissibleRun(EMPTY, es) && forall n :: 0 <= n < |es| ==> LeavesApplying(es[n])
    ensures WorkflowOf(Run(EMPTY, es).workflow, x) == Applied ==> Justified(Run(EMPTY, es), x)
  {
    if es != [] {
      hide Inv, Step, Admissible, Justified, LeavesApplying;
      var n := |es| - 1;
      RunJustifies(es[..n], x);
      EmptyInv();
      RunKeepsInv(EMPTY, es[..n]);
      StepJustifies(Run(EMPTY, es[..n]), es[n], x);
    }
  }

  lemma EmptyInv()
    ensures Inv(EMPTY)
  {
  }

  /** The request behind a row: for its own recommendation, or through a tagging batch. */
  ghost predicate Covers(db: Db, i: nat, x: Id)
    requires i < |db.requests|
  {
    db.requests[i].scope.rec == x ||
    exists b :: 0 <= b < |db.batches| && db.batches[b].request == Some(db.requests[i].id) &&
      HasRec(db.batches[b].rows, x)
  }

  /**
   * Over any run in which no other service applies recommendations, one is marked applied only when every approver of
   * a request that covers it has granted.
   */
  lemma AppliedOnlyWhenUnanimous(es: seq<Event>, x: Id)
    requires AdmissibleRun(EMPTY, es) && forall n :: 0 <= n < |es| ==> LeavesApplying(es[n])
    requires WorkflowOf(Run(EMPTY, es).workflow, x) == Applied
    ensures var db := Run(EMPTY, es);
      exists i :: 0 <= i < |db.requests| && Covers(db, i, x) && All(db.requests[i].assignments, Granted)
  {
    RunJustifies(es, x);
    var db := Run(EMPTY, es);
    assert Reachable(db);
    hide Run, AdmissibleRun, Reachable;
    if i :| 0 <= i < |db.requests| && db.requests[i].scope.rec == x && db.requests[i].status == Executed {
      StatusFixedByAssignments(db, i);
      assert Covers(db, i, x);
    } else {
      var b, k :| 0 <= b < |db.batches| && 0 <= k < |db.batches[b].rows| && db.batches[b].rows[k] == Row(x, Completed);
      RowRanOnlyIfUnanimous(db, b, k);
      var i :| 0 <= i < |db.requests| && db.batches[b].request == Some(db.requests[i].id) &&
        All(db.requests[i].assignments, Granted);
      assert Covers(db, i, x);
    }
  }

  // ---- a request was properly created -------------------------------------------------------------------

  ghost predicate Eligible(d: Tables, org: Id, scope: Scope, user: Id) {
    MemberRole(d.memberships, org, user).Some? &&
    HasApproverAccess(d, org, scope, Actor(user, MemberRole(d.memberships, org, user).value, false))
  }

  /** May own the execution: an eligible member, or one whose membership role is owner. */
  ghost predicate MayOwn(d: Tables, org: Id, scope: Scope, user: Id) {
    MemberRole(d.memberships, org, user).Some? &&
    (Eligible(d, org, scope, user) || Text.Normalize(MemberRole(d.memberships, org, user).value) == "owner")
  }

  /** The recommendation has not been approved or applied. */
  ghost predicate Undecided(db: Db, rec: Id) {
    WorkflowOf(db.workflow, rec) in {Suggested, WorkflowRejected}
  }

  /** The event creates this request: for an existing recommendation of its tenant, by eligible members only. */
  ghost predicate CreatedBy(e: Event, r: Request) {
    (e.call.DoCreate? || e.call.DoCreateBatch?) && e.call.newId == r.id && e.call.create.org == r.org &&
    e.now == r.createdAt && e.call.create.mode == "all_required" && e.call.create.tagsAccepted &&
    TenantOrg(e.world.tables, r.scope.tenant) == Some(r.org) &&
    RecExists(e.world, r.scope.rec, r.scope.tenant, r.scope.account) &&
    MayOwn(e.world.tables, r.org, r.scope, e.call.create.owner) &&
    (forall k :: 0 <= k < |r.assignments| ==> r.assignments[k].approver in e.call.create.approvers) &&
    (forall u :: u in e.call.create.approvers ==>
       Eligible(e.world.tables, r.org, r.scope, u) &&
       exists k :: 0 <= k < |r.assignments| && r.assignments[k].approver == u)
  }

  lemma NoFaultEligible(d: Tables, org: Id, scope: Scope, users: seq<Id>)
    ensures ApproverFault(d, org, scope, users) == None ==> forall u :: u in users ==> Eligible(d, org, scope, u)
  {
    if ApproverFault(d, org, scope, users) == None {
      forall u | u in users ensures Eligible(d, org, scope, u) {
        MayApproveIff(d, org, scope, Actor(u, MemberRole(d.memberships, org, u).value, false));
      }
    }
    hide HasApproverAccess, MayApprove, MemberRole;
  }

  lemma NoFaultMayOwn(d: Tables, org: Id, scope: Scope, owner: Id)
    ensures OwnerFault(d, org, scope, owner) == None <==> MayOwn(d, org, scope, owner)
  {
    if MemberRole(d.memberships, org, owner).Some? {
      MayApproveIff(d, org, scope, Actor(owner, MemberRole(d.memberships, org, owner).value, false));
    }
    hide HasApproverAccess, MayApprove, MemberRole, Text.Normalize;
  }

  /** What the checks of a creation leave behind, whoever calls it. */
  ghost predicate Checked(w: World, a: CreateArgs, scope: Scope) {
    a.mode == "all_required" && a.tagsAccepted && scope.rec == a.rec &&
    TenantOrg(w.tables, scope.tenant) == Some(a.org) && RecExists(w, a.rec, scope.tenant, scope.account) &&
    MayOwn(w.tables, a.org, scope, a.owner) && forall u :: u in a.approvers ==> Eligible(w.tables, a.org, scope, u)
  }

  lemma CheckMeans(db: Db, w: World, a: CreateArgs, scope: Scope)
    requires CreateCheck(db, w, a) == Ok(scope)
    ensures Checked(w, a, scope) && Undecided(db, a.rec)
  {
    var users := Dedup(a.approvers);
    NoFaultEligible(w.tables, a.org, scope, users);
    NoFaultMayOwn(w.tables, a.org, scope, a.owner);
    assert forall u :: u in a.approvers ==> u in users;
    hide ApproverFault, OwnerFault, Dedup, Eligible, MayOwn, TenantOrg, HasOpenRequest, RecExists, FirstAccount;
  }

  lemma CreateMakes(db: Db, w: World, a: CreateArgs, newId: Id, now: int, call: Call)
    requires Create(db, w, a, newId, now).Ok?
    requires (call.DoCreate? || call.DoCreateBatch?) && call.newId == newId && call.create.(rec := a.rec) == a
    ensures var rs := Create(db, w, a, newId, now).value.requests;
      |rs| == |db.requests| + 1 && CreatedBy(Event(w, now, call), rs[|db.requests|]) &&
      Undecided(db, rs[|db.requests|].scope.rec)
  {
    var scope := CreateCheck(db, w, a).value;
    var users := Dedup(a.approvers);
    var r := NewRequest(newId, a.org, scope, users, now);
    CheckMeans(db, w, a, scope);
    hide CreateCheck, Dedup, Eligible, MayOwn, TenantOrg, RecExists, Undecided;
    forall u | u in a.approvers ensures exists k :: 0 <= k < |r.assignments| && r.assignments[k].approver == u {
      var k :| 0 <= k < |users| && users[k] == u;
      assert r.assignments[k].approver == u;
    }
  }

  lemma NewRowIsCreated(db: Db, e: Event)
    requires |Step(db, e).requests| > |db.requests|
    ensures |Step(db, e).requests| == |db.requests| + 1 && CreatedBy(e, Step(db, e).requests[|db.requests|])
    ensures Undecided(db, Step(db, e).requests[|db.requests|].scope.rec)
  {
    hide CreatedBy, Undecided;
    match e.call {
      case DoCreate(a, newId) => CreateMakes(db, e.world, a, newId, e.now, e.call);
      case DoCreateBatch(_, a, _, recs, newId, _, _) =>
        CreateMakes(db, e.world, a.(rec := recs[0]), newId, e.now, e.call);
      case _ =>
    }
  }

  /** Event `n` of the run created the request, while its recommendation was undecided. */
  ghost predicate Origin(es: seq<Event>, n: int, r: Request) {
    0 <= n < |es| && CreatedBy(es[n], r) && Undecided(Run(EMPTY, es[..n]), r.scope.rec)
  }

  lemma EvolvingStaysCreated(e: Event, r: Request, s: Request)
    requires CreatedBy(e, r) && Evolves(r, s)
    ensures CreatedBy(e, s)
  {
    hide Eligible, MayOwn, RecExists, TenantOrg, PendingCount;
    forall u | u in e.call.create.approvers
      ensures exists k :: 0 <= k < |s.assignments| && s.assignments[k].approver == u
    {
      var k :| 0 <= k < |r.assignments| && r.assignments[k].approver == u;
      assert s.assignments[k].approver == u;
    }
  }

  lemma OriginStays(es: seq<Event>, n: nat, m: int, r: Request, s: Request)
    requires n <= |es| && Origin(es[..n], m, r) && Evolves(r, s)
    ensures Origin(es, m, s)
  {
    hide CreatedBy, Undecided, Run;
    EvolvingStaysCreated(es[m], r, s);
    assert es[..n][..m] == es[..m];
  }

  /**
   * Every request of a run goes back to a creation call for an existing and then undecided recommendation of a tenant
   * of its organization. Its assignments are for exactly the approvers named there, each of them eligible at that time.
   */
  lemma {:induction false} RequestWasCreated(es: seq<Event>, i: nat)
    requires i < |Run(EMPTY, es).requests|
    ensures exists n :: Origin(es, n, Run(EMPTY, es).requests[i])
  {
    if es != [] {
      var n := |es| - 1;
      var before, after := Run(EMPTY, es[..n]), Run(EMPTY, es);
      assert after == Step(before, es[n]);
      StepEvolves(before, es[n]);
      hide Step, CreatedBy, Evolves, Undecided;
      if i < |before.requests| {
        RequestWasCreated(es[..n], i);
        hide Origin;
        var m :| Origin(es[..n], m, before.requests[i]);
        OriginStays(es, n, m, before.requests[i], after.requests[i]);
      } else {
        NewRowIsCreated(before, es[n]);
        assert Origin(es, n, after.requests[i]);
      }
    }
  }
}
