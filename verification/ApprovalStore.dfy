/** The approval services over their tables, statement by statement; each method is proved against `ApprovalModel`. */
module ApprovalStore {
  import opened Collections
  import opened Directory
  import opened ApprovalModel
  import ApprovalTheorems
  import Text

  datatype Summary = Summary(
    status: BatchStatus, pending: nat, approved: nat, inProgress: nat, completed: nat, failed: nat, blocked: nat)

  class ApprovalTables {
    var requests: seq<Request>
    var batches: seq<Batch>
    var workflow: map<Id, Workflow>
    var attempts: seq<(Id, nat)>

    constructor ()
      ensures Rows() == Db([], [], map[], [])
    {
      requests, batches, workflow, attempts := [], [], map[], [];
    }

    function Rows(): Db
      reads this
    {
      Db(requests, batches, workflow, attempts)
    }

    // ---- creation ----------------------------------------------------------------------------

    method FindApproverFault(d: Tables, org: Id, scope: Scope, users: seq<Id>) returns (fault: Option<Error>)
      ensures fault == ApproverFault(d, org, scope, users)
    {
      for i := 0 to |users|
        invariant ApproverFault(d, org, scope, users) == ApproverFault(d, org, scope, users[i..])
      {
        assert users[i..][0] == users[i] && users[i..][1..] == users[i + 1..];
        var role := MemberRole(d.memberships, org, users[i]);
        if role.None? {
          return Some(ApproverNotInOrg);
        }
        if !MayApprove(d, org, scope, Actor(users[i], role.value, false)) {
          return Some(ApproverIneligible);
        }
      }
      fault := None;
    }

    method CreateApprovalRequest(w: World, a: CreateArgs, newId: Id, now: int) returns (r: Result<Scope, Error>)
      modifies this`requests, this`workflow
      ensures r == CreateCheck(old(Rows()), w, a)
      ensures if r.Ok? then |requests| == |old(requests)| + 1 else r.error != BatchFault
      ensures Create(old(Rows()), w, a, newId, now) == if r.Ok? then Ok(Rows()) else Err(r.error)
      ensures r.Err? ==> Rows() == old(Rows())
    {
      hide FirstAccount, TenantOrg, RecExists, HasOpenRequest, ApproverFault, MayApprove, NewRequest;
      if a.mode != "all_required" {
        return Err(UnsupportedMode);
      }
      var ca := FirstAccount(w.tables.accounts, a.account);
      if ca.None? {
        return Err(AccountNotFound);
      }
      var scope := Scope(ca.value.tenant, a.account, a.rec);
      if TenantOrg(w.tables, scope.tenant) != Some(a.org) {
        return Err(OrganizationMismatch);
      }
      if !RecExists(w, a.rec, scope.tenant, a.account) {
        return Err(RecommendationNotFound);
      }
      if WorkflowOf(workflow, a.rec) !in {Suggested, WorkflowRejected} {
        return Err(RecommendationNotPending);
      }
      if HasOpenRequest(requests, scope) {
        return Err(OpenRequestExists);
      }
      var approvers := DedupLoop(a.approvers);
      if approvers == [] {
        return Err(NoApprovers);
      }
      var fault := FindApproverFault(w.tables, a.org, scope, approvers);
      if fault.Some? {
        return Err(fault.value);
      }
      var ownerFault := OwnerFault(w.tables, a.org, scope, a.owner);
      if ownerFault.Some? {
        return Err(ownerFault.value);
      }
      if !a.tagsAccepted {
        return Err(TagValuesRefused);
      }
      workflow := workflow[a.rec := WorkflowOf(workflow, a.rec)];
      AddRequest(newId, a.org, scope, approvers, now);
      r := Ok(scope);
    }

    /** Inserts the request, then one assignment per approver. */
    method AddRequest(newId: Id, org: Id, scope: Scope, approvers: seq<Id>, now: int)
      modifies this`requests
      ensures requests == old(requests) + [NewRequest(newId, org, scope, approvers, now)]
    {
      var n := |requests|;
      requests := requests + [Request(newId, org, scope, Submitted, now, None, None, None, [])];
      for i := 0 to |approvers|
        invariant requests == old(requests) + [NewRequest(newId, org, scope, approvers[..i], now)]
      {
        var xs := requests[n].assignments + [Assignment(approvers[i], Pending)];
        requests := requests[n := requests[n].(assignments := xs)];
        assert xs == PendingFor(approvers[..i + 1]);
      }
      assert approvers[..|approvers|] == approvers;
    }

    method CreateTaggingBatch(w: World, tenant: Id, a: CreateArgs, kind: string, recs: seq<Id>,
                              newId: Id, batchId: Id, now: int, batchFault: bool)
      returns (r: Result<Batch, Error>)
      modifies this
      ensures CreateBatch(old(Rows()), w, tenant, a, kind, recs, newId, batchId, now, batchFault) ==
        if r.Ok? || r.error == BatchFault then Ok(Rows()) else Err(r.error)
      ensures r.Ok? ==> !batchFault && batches == old(batches) + [r.value]
      ensures r == Err(BatchFault) ==> batchFault && batches == old(batches) && |requests| == |old(requests)| + 1
      ensures r.Err? && r.error != BatchFault ==> Rows() == old(Rows())
    {
      hide CreateCheck, Create;
      if exists x :: x in recs && !RecExists(w, x, tenant, a.account) {
        return Err(RecommendationNotFound);
      }
      if exists x :: x in recs && w.recs[x].kind != kind {
        return Err(TypeMismatch);
      }
      if recs == [] {
        return Err(NoResources);
      }
      var created := CreateApprovalRequest(w, a.(rec := recs[0]), newId, now);
      if created.Err? {
        return Err(created.error);
      }
      if batchFault {
        return Err(BatchFault);
      }
      var batch := Batch(batchId, tenant, a.account, Some(newId), BatchPending, []);
      for i := 0 to |recs|
        invariant batch == NewBatch(batchId, tenant, a.account, newId, recs[..i])
      {
        batch := batch.(rows := batch.rows + [Row(recs[i], PendingApproval)]);
      }
      assert recs[..|recs|] == recs;
      batches := batches + [batch];
      r := Ok(batch);
    }

    // ---- decisions ---------------------------------------------------------------------------

    method ApproveAssignment(w: World, id: Id, org: Id, who: Actor, now: int, outcomeFault: bool, hookFault: nat)
      returns (r: Result<Request, Error>)
      modifies this
      ensures Approve(old(Rows()), w, id, org, who, now, outcomeFault, hookFault) ==
        if r.Ok? then Ok(Rows()) else Err(r.error)
      ensures r.Err? ==> Rows() == old(Rows())
      ensures r.Ok? ==> exists i :: 0 <= i < |requests| && requests[i] == r.value && r.value.id == id
    {
      var found := DecisionCheck(Rows(), w, id, org, who);
      if found.Err? {
        return Err(found.error);
      }
      var (i, k) := found.value;
      var before := requests;
      var xs := requests[i].assignments;
      requests := requests[i := requests[i].(assignments := xs[k := xs[k].(decision := Granted)])];
      if AllGranted(requests[i].assignments) {
        requests := requests[i := requests[i].(status := Approved, approvedAt := Some(now))];
        assert requests == before[i := GrantAt(before[i], k, now)];
        var scope := requests[i].scope;
        if RecExists(w, scope.rec, scope.tenant, scope.account) {
          if outcomeFault {
            requests := before;
            return Err(OutcomeFault);
          }
          workflow := workflow[scope.rec := WorkflowApproved];
        }
        OnRequestApproved(w, id, hookFault);
      } else {
        requests := requests[i := requests[i].(status := PartiallyApproved)];
        assert requests == before[i := GrantAt(before[i], k, now)];
      }
      r := Ok(requests[i]);
    }

    /** Assigns the status of one row. */
    method SetRow(b: nat, k: nat, s: RowStatus)
      requires b < |batches| && k < |batches[b].rows|
      modifies this`batches
      ensures |batches| == |old(batches)| && |batches[b].rows| == |old(batches)[b].rows|
      ensures batches == old(batches)[b := old(batches)[b].(rows := batches[b].rows)]
      ensures batches[b].rows == old(batches)[b].rows[k := old(batches)[b].rows[k].(status := s)]
    {
      var rows := batches[b].rows;
      batches := batches[b := batches[b].(rows := rows[k := rows[k].(status := s)])];
    }

    /** Marks the rows of the request's batch one by one; an exception is swallowed and leaves the rest unmarked. */
    method OnRequestApproved(w: World, request: Id, fault: nat)
      modifies this`batches, this`workflow
      ensures var b := FindBatchOf(old(batches), request);
        if b == |old(batches)| then batches == old(batches) && workflow == old(workflow)
        else
          batches == old(batches)[b := BatchOnApproved(old(batches)[b], w, fault)] &&
          workflow == SetWorkflow(old(workflow), old(batches)[b].rows[..HookStop(old(batches)[b], w, fault)],
                                  WorkflowApproved)
    {
      var b := FindBatchOf(batches, request);
      if b == |batches| {
        return;
      }
      ghost var was := batches[b];
      batches := batches[b := batches[b].(status := BatchApproved)];
      ghost var stop := HookStop(was, w, fault);
      assert was.rows[0..] == was.rows && workflow == SetWorkflow(old(workflow), was.rows[..0], WorkflowApproved);
      assert stop == HookStopFrom(was.rows, was, w, fault);
      hide HookStop, HookStopFrom, SetWorkflow, FindBatchOf, RecExists;
      var k, left, stopped := 0, fault, false;
      while k < |batches[b].rows| && !stopped
        invariant 0 <= k <= stop && b < |batches| && |batches[b].rows| == |was.rows|
        invariant batches == old(batches)[b := was.(status := BatchApproved, rows := batches[b].rows)]
        invariant if stopped then k == stop < |was.rows| else stop == k + HookStopFrom(was.rows[k..], was, w, left)
        invariant forall j :: 0 <= j < |was.rows| ==>
          batches[b].rows[j] == if j < k || (j == k && stopped) then was.rows[j].(status := RowApproved)
            else was.rows[j]
        invariant workflow == SetWorkflow(old(workflow), was.rows[..k], WorkflowApproved)
        decreases |was.rows| - k, !stopped
      {
        HookTakesRow(was, w, k, left);
        SetWorkflowStep(old(workflow), was.rows, k, WorkflowApproved);
        stopped := ApproveRow(w, b, k, left);
        if !stopped {
          k, left := k + 1, left - 1;
        }
      }
      assert batches[b].rows == BatchOnApproved(was, w, fault).rows;
    }

    /** One row of the hook: marked first; then its outcome, whose update may raise. */
    method ApproveRow(w: World, b: nat, k: nat, left: nat) returns (raised: bool)
      requires b < |batches| && k < |batches[b].rows|
      modifies this`batches, this`workflow
      ensures |batches| == |old(batches)| && |batches[b].rows| == |old(batches)[b].rows|
      ensures batches == old(batches)[b := old(batches)[b].(rows := batches[b].rows)]
      ensures batches[b].rows == old(batches)[b].rows[k := old(batches)[b].rows[k].(status := RowApproved)]
      ensures raised <==> left == 0 || !RecExists(w, batches[b].rows[k].rec, batches[b].tenant, batches[b].account)
      ensures workflow == if raised then old(workflow) else old(workflow)[batches[b].rows[k].rec := WorkflowApproved]
    {
      SetRow(b, k, RowApproved);
      var row := batches[b].rows[k];
      raised := left == 0 || !RecExists(w, row.rec, batches[b].tenant, batches[b].account);
      if !raised {
        workflow := workflow[row.rec := WorkflowApproved];
      }
    }

    method RejectAssignment(w: World, id: Id, org: Id, who: Actor, comment: string, now: int, outcomeFault: bool)
      returns (r: Result<Request, Error>)
      modifies this
      ensures Reject(old(Rows()), w, id, org, who, comment, now, outcomeFault) ==
        if r.Ok? then Ok(Rows()) else Err(r.error)
      ensures r.Err? ==> Rows() == old(Rows())
    {
      var found := DecisionCheck(Rows(), w, id, org, who);
      if found.Err? {
        return Err(found.error);
      }
      if Text.Strip(comment) == "" {
        return Err(CommentRequired);
      }
      var (i, k) := found.value;
      var before := requests;
      var xs := requests[i].assignments;
      requests := requests[i := requests[i].(assignments := xs[k := xs[k].(decision := Refused)])];
      requests := requests[i := requests[i].(status := Rejected, rejectedAt := Some(now))];
      assert requests == before[i := RefuseAt(before[i], k, now)];
      var scope := requests[i].scope;
      if RecExists(w, scope.rec, scope.tenant, scope.account) {
        if outcomeFault {
          requests := before;
          return Err(OutcomeFault);
        }
        if WorkflowOf(workflow, scope.rec) !in {Applied, Verified} {
          workflow := workflow[scope.rec := WorkflowRejected];
        }
      }
      OnRequestRejected(id);
      r := Ok(requests[i]);
    }

    method OnRequestRejected(request: Id)
      modifies this`batches
      ensures var b := FindBatchOf(old(batches), request);
        batches == if b == |old(batches)| then old(batches) else old(batches)[b := BatchOnRejected(old(batches)[b])]
    {
      var b := FindBatchOf(batches, request);
      if b == |batches| {
        return;
      }
      ghost var was := batches[b];
      batches := batches[b := batches[b].(status := BatchRejected)];
      for k := 0 to |batches[b].rows|
        invariant b < |batches| && |batches[b].rows| == |was.rows|
        invariant batches == old(batches)[b := was.(status := BatchRejected, rows := batches[b].rows)]
        invariant forall j :: 0 <= j < |was.rows| ==>
          batches[b].rows[j] == if j < k then was.rows[j].(status := Blocked) else was.rows[j]
      {
        SetRow(b, k, Blocked);
      }
      assert batches[b] == BatchOnRejected(was);
    }

    // ---- execution ---------------------------------------------------------------------------

    method ExecuteTaggingBatch(w: World, tenant: Id, account: Id, id: Id, ok: set<nat>)
      returns (r: Result<Summary, Error>)
      modifies this`batches, this`workflow, this`attempts
      ensures ExecuteBatch(old(Rows()), w, tenant, account, id, ok) == if r.Ok? then Ok(Rows()) else Err(r.error)
      ensures r.Err? ==> Rows() == old(Rows())
      ensures r.Ok? ==> var b := FindBatch(old(batches), tenant, account, id);
        b < |batches| && r.value.status == batches[b].status &&
        r.value.completed + r.value.failed == |batches[b].rows| &&
        (r.value.status == BatchCompleted <==> r.value.failed == 0) &&
        (r.value.failed == 0 <==> forall k :: 0 <= k < |batches[b].rows| ==> batches[b].rows[k].status == Completed)
    {
      var b := FindBatch(batches, tenant, account, id);
      if b == |batches| {
        return Err(BatchNotFound);
      }
      if batches[b].request.None? {
        return Err(BatchWithoutRequest);
      }
      var q := FindById(requests, batches[b].request.value);
      if q == |requests| {
        return Err(RequestNotFound);
      }
      if requests[q].status != Approved {
        return Err(BatchNotApproved);
      }
      ghost var was := batches[b];
      RunPendingRows(w, b, ok);
      var summary := Summarize(b);
      r := Ok(summary);
      SettledRows(w, was, ok);
      assert batches == old(batches)[b := RunBatch(w, was, ok)];
    }

    /** The execution loop: every row that is not completed is sent and then completed or failed. */
    method RunPendingRows(w: World, b: nat, ok: set<nat>)
      requires b < |batches|
      modifies this`batches, this`workflow, this`attempts
      ensures var was := old(batches)[b];
        batches == old(batches)[b := was.(status := BatchInProgress, rows := RunRows(w, was, ok))] &&
        workflow == AppliedBy(old(workflow), w, was, |was.rows|, ok) &&
        attempts == old(attempts) + Sent(was, |was.rows|)
    {
      ghost var was := batches[b];
      batches := batches[b := batches[b].(status := BatchInProgress)];
      for k := 0 to |batches[b].rows|
        invariant b < |batches| && |batches[b].rows| == |was.rows|
        invariant batches == old(batches)[b := was.(status := BatchInProgress, rows := batches[b].rows)]
        invariant forall j :: 0 <= j < |was.rows| ==>
          batches[b].rows[j] == if j < k then RunRow(w, was, j, ok) else was.rows[j]
        invariant workflow == AppliedBy(old(workflow), w, was, k, ok)
        invariant attempts == old(attempts) + Sent(was, k)
      {
        var rows := batches[b].rows;
        if rows[k].status == Completed {
          continue;
        }
        SetRow(b, k, InProgress);
        attempts := attempts + [(batches[b].id, k)];
        if k in ok && RecExists(w, rows[k].rec, batches[b].tenant, batches[b].account) {
          workflow := workflow[rows[k].rec := Applied];
          SetRow(b, k, Completed);
        } else {
          SetRow(b, k, Failed);
        }
      }
      assert batches[b].rows == RunRows(w, was, ok);
    }

    /** Counts the rows and gives the batch its status. */
    method Summarize(b: nat) returns (s: Summary)
      requires b < |batches|
      modifies this`batches
      ensures var rows := old(batches)[b].rows;
        batches == old(batches)[b := old(batches)[b].(status := s.status)] &&
        s.status == (if CountRows(rows, Failed) > 0 then BatchFailed
                     else if CountRows(rows, InProgress) > 0 then BatchInProgress else BatchCompleted) &&
        s == Summary(s.status, CountRows(rows, PendingApproval), CountRows(rows, RowApproved),
                     CountRows(rows, InProgress), CountRows(rows, Completed), CountRows(rows, Failed),
                     CountRows(rows, Blocked))
    {
      hide CountRows;
      var rows := batches[b].rows;
      var failed := CountRows(rows, Failed);
      var inProgress := CountRows(rows, InProgress);
      batches := batches[b := batches[b].(status :=
        if failed > 0 then BatchFailed else if inProgress > 0 then BatchInProgress else BatchCompleted)];
      s := Summary(batches[b].status, CountRows(rows, PendingApproval), CountRows(rows, RowApproved), inProgress,
                   CountRows(rows, Completed), failed, CountRows(rows, Blocked));
    }

    /** Runs the tagging batch of a fully approved request, or marks its recommendation applied, and closes it. */
    method ExecuteApprovalRequest(w: World, id: Id, org: Id, now: int, ok: set<nat>, outcomeFault: bool)
      returns (r: Result<Request, Error>)
      modifies this
      ensures Execute(old(Rows()), w, id, org, now, ok, outcomeFault) == if r.Ok? then Ok(Rows()) else Err(r.error)
      ensures r.Err? ==> Rows() == old(Rows())
    {
      var i := FindRequest(requests, id, org);
      if i == |requests| {
        return Err(RequestNotFound);
      }
      if requests[i].status != Approved {
        return Err(NotReady);
      }
      var b := FindBatchOf(batches, id);
      if b < |batches| {
        var done := ExecuteTaggingBatch(w, batches[b].tenant, batches[b].account, batches[b].id, ok);
        if done.Err? {
          return Err(done.error);
        }
      } else {
        var scope := requests[i].scope;
        if RecExists(w, scope.rec, scope.tenant, scope.account) {
          if outcomeFault {
            return Err(OutcomeFault);
          }
          workflow := workflow[scope.rec := Applied];
        }
      }
      requests := requests[i := requests[i].(status := Executed, executedAt := Some(now))];
      r := Ok(requests[i]);
    }
  }

  /** The counts after an execution. */
  lemma SettledRows(w: World, b: Batch, ok: set<nat>)
    ensures var rows := RunRows(w, b, ok);
      CountRows(rows, InProgress) == 0 && CountRows(rows, Completed) + CountRows(rows, Failed) == |b.rows| &&
      (CountRows(rows, Failed) == 0 <==> forall k :: 0 <= k < |rows| ==> rows[k].status == Completed)
  {
    NoneCounted(RunRows(w, b, ok), InProgress);
    ApprovalTheorems.ExecutionSettlesBatch(w, b, ok);
  }

  lemma HookTakesRow(b: Batch, w: World, k: nat, left: nat)
    requires k < |b.rows|
    ensures HookStopFrom(b.rows[k..], b, w, left) ==
      if left == 0 || !RecExists(w, b.rows[k].rec, b.tenant, b.account) then 0
      else 1 + HookStopFrom(b.rows[k + 1..], b, w, left - 1)
  {
    assert b.rows[k..][1..] == b.rows[k + 1..];
  }

  lemma SetWorkflowStep(wf: map<Id, Workflow>, rows: seq<Row>, k: nat, value: Workflow)
    requires k < |rows|
    ensures SetWorkflow(wf, rows[..k + 1], value) == SetWorkflow(wf, rows[..k], value)[rows[k].rec := value]
  {
    assert rows[..k + 1][..k] == rows[..k];
  }

  lemma {:induction false} NoneCounted(rows: seq<Row>, s: RowStatus)
    requires forall k :: 0 <= k < |rows| ==> rows[k].status != s
    ensures CountRows(rows, s) == 0
  {
    if rows != [] {
      NoneCounted(rows[..|rows| - 1], s);
    }
  }
}
