/**
 * The rows of the multi-approver protocol and what one service call does to them. Every call is atomic: it either
 * yields the new rows or fails and leaves the old ones.
 */
module ApprovalModel {
  import opened Collections
  import opened Directory
  import Access
  import Text

  datatype RequestStatus = Submitted | PartiallyApproved | Approved | Rejected | Executed
  datatype Decision = Pending | Granted | Refused
  datatype Assignment = Assignment(approver: Id, decision: Decision)
  datatype Scope = Scope(tenant: Id, account: Id, rec: Id)

  datatype Request = Request(
    id: Id, org: Id, scope: Scope, status: RequestStatus, createdAt: int,
    approvedAt: Option<int>, rejectedAt: Option<int>, executedAt: Option<int>,
    assignments: seq<Assignment>)

  datatype RowStatus = PendingApproval | RowApproved | Blocked | InProgress | Completed | Failed
  datatype Row = Row(rec: Id, status: RowStatus)
  datatype BatchStatus = BatchPending | BatchApproved | BatchRejected | BatchInProgress | BatchCompleted | BatchFailed
  datatype Batch = Batch(id: Id, tenant: Id, account: Id, request: Option<Id>, status: BatchStatus, rows: seq<Row>)

  datatype Workflow = Suggested | WorkflowApproved | WorkflowRejected | Applied | Verified
  datatype Recommendation = Recommendation(tenant: Id, account: Id, kind: string)

  /** `attempts` records each (batch, row) whose tags were sent to the cloud provider. */
  datatype Db = Db(requests: seq<Request>, batches: seq<Batch>, workflow: map<Id, Workflow>, attempts: seq<(Id, nat)>)

  /** What a call reads and does not change. */
  datatype World = World(tables: Tables, recs: map<Id, Recommendation>)

  datatype Error =
    | UnsupportedMode | AccountNotFound | OrganizationMismatch | RecommendationNotFound | RecommendationNotPending
    | OpenRequestExists | NoApprovers | ApproverNotInOrg | ApproverIneligible | OwnerNotInOrg | OwnerIneligible
    | TagValuesRefused | TypeMismatch | NoResources
    | RequestNotFound | NotActionable | Forbidden | NotAssigned | AlreadyActed | CommentRequired
    | NotReady | BatchNotFound | BatchWithoutRequest | BatchNotApproved | OutcomeFault | BatchFault

  datatype Actor = Actor(user: Id, role: string, isRoot: bool)

  // ---- queries -------------------------------------------------------------------------------

  function Open(r: Request): bool {
    r.status == Submitted || r.status == PartiallyApproved
  }

  /** Position of the request with this id in this organization; |rs| when there is none. */
  function FindRequest(rs: seq<Request>, id: Id, org: Id): (i: nat)
    ensures i <= |rs|
    ensures i < |rs| ==> rs[i].id == id && rs[i].org == org
    ensures forall j :: 0 <= j < i ==> !(rs[j].id == id && rs[j].org == org)
  {
    FirstIndex(rs, (r: Request) => r.id == id && r.org == org)
  }

  function FindById(rs: seq<Request>, id: Id): (i: nat)
    ensures i <= |rs|
    ensures i < |rs| ==> rs[i].id == id
    ensures forall j :: 0 <= j < i ==> rs[j].id != id
  {
    FirstIndex(rs, (r: Request) => r.id == id)
  }

  function FindAssignment(xs: seq<Assignment>, user: Id): (i: nat)
    ensures i <= |xs|
    ensures i < |xs| ==> xs[i].approver == user
    ensures forall j :: 0 <= j < i ==> xs[j].approver != user
  {
    FirstIndex(xs, (a: Assignment) => a.approver == user)
  }

  function FindBatchOf(bs: seq<Batch>, request: Id): (i: nat)
    ensures i <= |bs|
    ensures i < |bs| ==> bs[i].request == Some(request)
    ensures forall j :: 0 <= j < i ==> bs[j].request != Some(request)
  {
    FirstIndex(bs, (b: Batch) => b.request == Some(request))
  }

  function FindBatch(bs: seq<Batch>, tenant: Id, account: Id, id: Id): (i: nat)
    ensures i <= |bs|
    ensures i < |bs| ==> bs[i].id == id && bs[i].tenant == tenant && bs[i].account == account
    ensures forall j :: 0 <= j < i ==> !(bs[j].id == id && bs[j].tenant == tenant && bs[j].account == account)
  {
    FirstIndex(bs, (b: Batch) => b.id == id && b.tenant == tenant && b.account == account)
  }

  /** Position of the newest request of the scope, the earlier row on equal times; |rs| when there is none. */
  function Latest(rs: seq<Request>, scope: Scope): (i: nat)
    ensures i <= |rs|
    ensures i < |rs| ==> rs[i].scope == scope
    ensures forall j :: 0 <= j < |rs| && rs[j].scope == scope ==> i < |rs| && rs[j].createdAt <= rs[i].createdAt
  {
    if rs == [] then 0
    else
      var r := Latest(rs[1..], scope);
      if rs[0].scope == scope && (r == |rs| - 1 || rs[0].createdAt >= rs[r + 1].createdAt) then 0 else r + 1
  }

  function HasOpenRequest(rs: seq<Request>, scope: Scope): bool {
    var i := Latest(rs, scope);
    i < |rs| && Open(rs[i])
  }

  datatype Gate = Clear | BlockedRejected | BlockedPending

  function ExecutionGate(rs: seq<Request>, scope: Scope): Gate {
    var i := Latest(rs, scope);
    if i == |rs| || rs[i].status == Approved then Clear
    else if rs[i].status == Rejected then BlockedRejected
    else BlockedPending
  }

  function RecExists(w: World, rec: Id, tenant: Id, account: Id): bool {
    rec in w.recs && w.recs[rec].tenant == tenant && w.recs[rec].account == account
  }

  function WorkflowOf(wf: map<Id, Workflow>, rec: Id): Workflow {
    if rec in wf then wf[rec] else Suggested
  }

  function FirstAccount(accounts: seq<Account>, id: Id): (r: Option<Account>)
    ensures r.Some? ==> r.value in accounts && r.value.id == id
    ensures r.None? ==> forall a :: a in accounts ==> a.id != id
  {
    if accounts == [] then None
    else if accounts[0].id == id then Some(accounts[0])
    else FirstAccount(accounts[1..], id)
  }

  function MemberRole(ms: seq<Membership>, org: Id, user: Id): (r: Option<string>)
    ensures r.Some? ==> exists m :: m in ms && m.org == org && m.user == Some(user) && m.role == r.value
    ensures r.None? ==> forall m :: m in ms ==> !(m.org == org && m.user == Some(user))
  {
    if ms == [] then None
    else if ms[0].org == org && ms[0].user == Some(user) then Some(ms[0].role)
    else MemberRole(ms[1..], org, user)
  }

  function MayApprove(d: Tables, org: Id, scope: Scope, who: Actor): bool {
    Access.Rank(Access.ResolveForUser(d.grants, who.user, org, scope.tenant, scope.account, who.role, who.isRoot))
      >= Access.Rank(Access.Approver)
  }

  /**
   * Approver access in stored texts: root or organization admin; or an approver by membership without any grant in the
   * organization; or some grant that decides for the account stores approver or admin.
   */
  ghost predicate HasApproverAccess(d: Tables, org: Id, scope: Scope, who: Actor) {
    Access.WideByText(who.role, who.isRoot) ||
    if Access.HoldsGrant(d.grants, who.user, org) then
      Access.DecidedAs(d.grants, who.user, org, scope.tenant, scope.account, "approver") ||
      Access.DecidedAs(d.grants, who.user, org, scope.tenant, scope.account, "admin")
    else Text.Normalize(who.role) == "approver"
  }

  /** The check made before every decision and for every approver lets exactly those pass. */
  lemma MayApproveIff(d: Tables, org: Id, scope: Scope, who: Actor)
    ensures MayApprove(d, org, scope, who) <==> HasApproverAccess(d, org, scope, who)
  {
    Access.AccessByTexts(d.grants, who.user, org, scope.tenant, scope.account, who.role, who.isRoot);
    hide Access.ResolveForUser, Access.DecidedAs, Access.HoldsGrant, Text.Normalize;
  }

  // ---- creation ------------------------------------------------------------------------------

  datatype CreateArgs = CreateArgs(
    org: Id, account: Id, rec: Id, approvers: seq<Id>, owner: Id, mode: string,
    tagsAccepted: bool)

  /** The first fault among the approvers, in order. */
  function ApproverFault(d: Tables, org: Id, scope: Scope, users: seq<Id>): (r: Option<Error>)
    ensures r.None? ==> forall u :: u in users ==>
      MemberRole(d.memberships, org, u).Some? &&
      MayApprove(d, org, scope, Actor(u, MemberRole(d.memberships, org, u).value, false))
    ensures r.Some? ==> r.value in {ApproverNotInOrg, ApproverIneligible}
  {
    if users == [] then None
    else match MemberRole(d.memberships, org, users[0])
      case None => Some(ApproverNotInOrg)
      case Some(role) =>
        if !MayApprove(d, org, scope, Actor(users[0], role, false)) then Some(ApproverIneligible)
        else ApproverFault(d, org, scope, users[1..])
  }

  function OwnerFault(d: Tables, org: Id, scope: Scope, owner: Id): Option<Error> {
    match MemberRole(d.memberships, org, owner)
    case None => Some(OwnerNotInOrg)
    case Some(role) =>
      if !MayApprove(d, org, scope, Actor(owner, role, false)) && Text.Normalize(role) != "owner" then
        Some(OwnerIneligible)
      else None
  }

  /** The scope a new request would have, or the first check that refuses it. */
  function CreateCheck(db: Db, w: World, a: CreateArgs): Result<Scope, Error> {
    if a.mode != "all_required" then Err(UnsupportedMode)
    else match FirstAccount(w.tables.accounts, a.account)
      case None => Err(AccountNotFound)
      case Some(ca) =>
        var scope := Scope(ca.tenant, a.account, a.rec);
        if TenantOrg(w.tables, ca.tenant) != Some(a.org) then Err(OrganizationMismatch)
        else if !RecExists(w, a.rec, ca.tenant, a.account) then Err(RecommendationNotFound)
        else if WorkflowOf(db.workflow, a.rec) !in {Suggested, WorkflowRejected} then Err(RecommendationNotPending)
        else if HasOpenRequest(db.requests, scope) then Err(OpenRequestExists)
        else if Dedup(a.approvers) == [] then Err(NoApprovers)
        else match ApproverFault(w.tables, a.org, scope, Dedup(a.approvers))
          case Some(e) => Err(e)
          case None =>
            match OwnerFault(w.tables, a.org, scope, a.owner)
            case Some(e) => Err(e)
            case None => if a.tagsAccepted then Ok(scope) else Err(TagValuesRefused)
  }

  function PendingFor(users: seq<Id>): (r: seq<Assignment>)
    ensures |r| == |users| && forall i :: 0 <= i < |r| ==> r[i] == Assignment(users[i], Pending)
  {
    seq(|users|, i requires 0 <= i < |users| => Assignment(users[i], Pending))
  }

  function NewRequest(id: Id, org: Id, scope: Scope, users: seq<Id>, now: int): Request {
    Request(id, org, scope, Submitted, now, None, None, None, PendingFor(users))
  }

  function Create(db: Db, w: World, a: CreateArgs, newId: Id, now: int): Result<Db, Error> {
    match CreateCheck(db, w, a)
    case Err(e) => Err(e)
    case Ok(scope) =>
      Ok(db.(requests := db.requests + [NewRequest(newId, a.org, scope, Dedup(a.approvers), now)],
             workflow := db.workflow[a.rec := WorkflowOf(db.workflow, a.rec)]))
  }

  function NewBatch(id: Id, tenant: Id, account: Id, request: Id, recs: seq<Id>): Batch {
    Batch(id, tenant, account, Some(request), BatchPending,
      seq(|recs|, i requires 0 <= i < |recs| => Row(recs[i], PendingApproval)))
  }

  /**
   * One request, for the first resource, then one batch with a row per resource. The request is committed before the
   * batch is written, so an outside fault at the batch leaves the request alone.
   */
  function CreateBatch(db: Db, w: World, tenant: Id, a: CreateArgs, kind: string, recs: seq<Id>,
                       newId: Id, batchId: Id, now: int, batchFault: bool): Result<Db, Error>
  {
    if exists r :: r in recs && !RecExists(w, r, tenant, a.account) then Err(RecommendationNotFound)
    else if exists r :: r in recs && w.recs[r].kind != kind then Err(TypeMismatch)
    else if recs == [] then Err(NoResources)
    else match Create(db, w, a.(rec := recs[0]), newId, now)
      case Err(e) => Err(e)
      case Ok(db') =>
        if batchFault then Ok(db')
        else Ok(db'.(batches := db'.batches + [NewBatch(batchId, tenant, a.account, newId, recs)]))
  }

  // ---- decisions -----------------------------------------------------------------------------

  /** Positions of the open request and of the actor's pending assignment, or the first check that refuses. */
  function DecisionCheck(db: Db, w: World, id: Id, org: Id, who: Actor): (r: Result<(nat, nat), Error>)
    ensures r.Ok? ==>
      r.value.0 < |db.requests| && r.value.1 < |db.requests[r.value.0].assignments| &&
      Open(db.requests[r.value.0]) && db.requests[r.value.0].id == id &&
      db.requests[r.value.0].assignments[r.value.1] == Assignment(who.user, Pending)
  {
    var i := FindRequest(db.requests, id, org);
    if i == |db.requests| then Err(RequestNotFound)
    else if !Open(db.requests[i]) then Err(NotActionable)
    else if !MayApprove(w.tables, org, db.requests[i].scope, who) then Err(Forbidden)
    else
      var k := FindAssignment(db.requests[i].assignments, who.user);
      if k == |db.requests[i].assignments| then Err(NotAssigned)
      else if db.requests[i].assignments[k].decision != Pending then Err(AlreadyActed)
      else Ok((i, k))
  }

  function AllGranted(xs: seq<Assignment>): bool {
    forall x :: x in xs ==> x.decision == Granted
  }

  function GrantAt(r: Request, k: nat, now: int): Request
    requires k < |r.assignments|
  {
    var xs := r.assignments[k := r.assignments[k].(decision := Granted)];
    if AllGranted(xs) then r.(assignments := xs, status := Approved, approvedAt := Some(now))
    else r.(assignments := xs, status := PartiallyApproved)
  }

  function RefuseAt(r: Request, k: nat, now: int): Request
    requires k < |r.assignments|
  {
    r.(assignments := r.assignments[k := r.assignments[k].(decision := Refused)],
       status := Rejected, rejectedAt := Some(now))
  }

  /** How many rows the approval hook finishes: it stops at a recommendation that is gone or at an outside fault. */
  function HookStop(b: Batch, w: World, fault: nat): (n: nat)
    ensures n <= |b.rows|
  {
    HookStopFrom(b.rows, b, w, fault)
  }

  function HookStopFrom(rows: seq<Row>, b: Batch, w: World, fault: nat): (n: nat)
    ensures n <= |rows|
  {
    if rows == [] || fault == 0 || !RecExists(w, rows[0].rec, b.tenant, b.account) then 0
    else 1 + HookStopFrom(rows[1..], b, w, fault - 1)
  }

  /** The row at the fault is already marked when its outcome update raises; the rows after it are not. */
  function BatchOnApproved(b: Batch, w: World, fault: nat): (r: Batch)
    ensures |r.rows| == |b.rows|
  {
    var n := HookStop(b, w, fault);
    b.(status := BatchApproved,
       rows := seq(|b.rows|, i requires 0 <= i < |b.rows| =>
         if i <= n then b.rows[i].(status := RowApproved) else b.rows[i]))
  }

  function BatchOnRejected(b: Batch): (r: Batch)
    ensures |r.rows| == |b.rows|
  {
    b.(status := BatchRejected,
       rows := seq(|b.rows|, i requires 0 <= i < |b.rows| => b.rows[i].(status := Blocked)))
  }

  function SetWorkflow(wf: map<Id, Workflow>, rows: seq<Row>, value: Workflow): map<Id, Workflow> {
    if rows == [] then wf
    else SetWorkflow(wf, rows[..|rows| - 1], value)[rows[|rows| - 1].rec := value]
  }

  function Approve(db: Db, w: World, id: Id, org: Id, who: Actor, now: int, outcomeFault: bool, hookFault: nat)
    : Result<Db, Error>
  {
    match DecisionCheck(db, w, id, org, who)
    case Err(e) => Err(e)
    case Ok((i, k)) =>
      var r := GrantAt(db.requests[i], k, now);
      var db' := db.(requests := db.requests[i := r]);
      if r.status != Approved then Ok(db')
      else if RecExists(w, r.scope.rec, r.scope.tenant, r.scope.account) && outcomeFault then Err(OutcomeFault)
      else
        var wf := if RecExists(w, r.scope.rec, r.scope.tenant, r.scope.account)
                  then db.workflow[r.scope.rec := WorkflowApproved] else db.workflow;
        var b := FindBatchOf(db.batches, id);
        if b == |db.batches| then Ok(db'.(workflow := wf))
        else
          var done := db.batches[b].rows[..HookStop(db.batches[b], w, hookFault)];
          Ok(db'.(batches := db.batches[b := BatchOnApproved(db.batches[b], w, hookFault)],
                  workflow := SetWorkflow(wf, done, WorkflowApproved)))
  }

  function Reject(db: Db, w: World, id: Id, org: Id, who: Actor, comment: string, now: int, outcomeFault: bool)
    : Result<Db, Error>
  {
    match DecisionCheck(db, w, id, org, who)
    case Err(e) => Err(e)
    case Ok((i, k)) =>
      var r := RefuseAt(db.requests[i], k, now);
      var stored := RecExists(w, r.scope.rec, r.scope.tenant, r.scope.account);
      if Text.Strip(comment) == "" then Err(CommentRequired)
      else if stored && outcomeFault then Err(OutcomeFault)
      else
        var wf := if stored && WorkflowOf(db.workflow, r.scope.rec) !in {Applied, Verified}
                  then db.workflow[r.scope.rec := WorkflowRejected] else db.workflow;
        var b := FindBatchOf(db.batches, id);
        Ok(db.(requests := db.requests[i := r], workflow := wf,
               batches := if b == |db.batches| then db.batches else db.batches[b := BatchOnRejected(db.batches[b])]))
  }

  // ---- execution -----------------------------------------------------------------------------

  /** `ok` are the positions whose cloud call and outcome update succeed. */
  function RowDone(w: World, b: Batch, k: nat, ok: set<nat>): bool
    requires k < |b.rows|
  {
    k in ok && RecExists(w, b.rows[k].rec, b.tenant, b.account)
  }

  function RunRow(w: World, b: Batch, k: nat, ok: set<nat>): (r: Row)
    requires k < |b.rows|
  {
    if b.rows[k].status == Completed then b.rows[k]
    else b.rows[k].(status := if RowDone(w, b, k, ok) then Completed else Failed)
  }

  function RunRows(w: World, b: Batch, ok: set<nat>): (r: seq<Row>)
    ensures |r| == |b.rows| && forall k :: 0 <= k < |r| ==> r[k] == RunRow(w, b, k, ok)
  {
    seq(|b.rows|, k requires 0 <= k < |b.rows| => RunRow(w, b, k, ok))
  }

  /** Rows sent to the provider by one execution: the first `n` rows less those already completed. */
  function Sent(b: Batch, n: nat): seq<(Id, nat)>
    requires n <= |b.rows|
  {
    if n == 0 then []
    else if b.rows[n - 1].status == Completed then Sent(b, n - 1)
    else Sent(b, n - 1) + [(b.id, n - 1)]
  }

  /** Recommendations of the first `n` rows that this execution completes become applied. */
  function AppliedBy(wf: map<Id, Workflow>, w: World, b: Batch, n: nat, ok: set<nat>): map<Id, Workflow>
    requires n <= |b.rows|
  {
    if n == 0 then wf
    else
      var before := AppliedBy(wf, w, b, n - 1, ok);
      if b.rows[n - 1].status != Completed && RowDone(w, b, n - 1, ok) then before[b.rows[n - 1].rec := Applied]
      else before
  }

  function CountRows(rows: seq<Row>, s: RowStatus): nat {
    if rows == [] then 0
    else CountRows(rows[..|rows| - 1], s) + (if rows[|rows| - 1].status == s then 1 else 0)
  }

  function RunBatch(w: World, b: Batch, ok: set<nat>): Batch {
    var rows := RunRows(w, b, ok);
    b.(rows := rows, status := if CountRows(rows, Failed) > 0 then BatchFailed else BatchCompleted)
  }

  function ExecuteBatch(db: Db, w: World, tenant: Id, account: Id, id: Id, ok: set<nat>): Result<Db, Error> {
    var i := FindBatch(db.batches, tenant, account, id);
    if i == |db.batches| then Err(BatchNotFound)
    else match db.batches[i].request
      case None => Err(BatchWithoutRequest)
      case Some(req) =>
        var r := FindById(db.requests, req);
        if r == |db.requests| then Err(RequestNotFound)
        else if db.requests[r].status != Approved then Err(BatchNotApproved)
        else
          var b := db.batches[i];
          Ok(db.(batches := db.batches[i := RunBatch(w, b, ok)],
                 workflow := AppliedBy(db.workflow, w, b, |b.rows|, ok),
                 attempts := db.attempts + Sent(b, |b.rows|)))
  }

  function Execute(db: Db, w: World, id: Id, org: Id, now: int, ok: set<nat>, outcomeFault: bool): Result<Db, Error> {
    var i := FindRequest(db.requests, id, org);
    if i == |db.requests| then Err(RequestNotFound)
    else if db.requests[i].status != Approved then Err(NotReady)
    else
      var r := db.requests[i].(status := Executed, executedAt := Some(now));
      var b := FindBatchOf(db.batches, id);
      if b < |db.batches| then
        match ExecuteBatch(db, w, db.batches[b].tenant, db.batches[b].account, db.batches[b].id, ok)
        case Err(e) => Err(e)
        case Ok(db') => Ok(db'.(requests := db.requests[i := r]))
      else if !RecExists(w, r.scope.rec, r.scope.tenant, r.scope.account) then
        Ok(db.(requests := db.requests[i := r]))
      else if outcomeFault then Err(OutcomeFault)
      else Ok(db.(requests := db.requests[i := r], workflow := db.workflow[r.scope.rec := Applied]))
  }
}
