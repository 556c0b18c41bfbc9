/** What every run of the approval protocol keeps: any sequence of calls, in any world, from the empty tables. */
module ApprovalProtocol {
  import opened Collections
  import opened ApprovalModel

  // ---- runs ----------------------------------------------------------------------------------

  /** `SetOutcome` stands for the other services that move a recommendation's workflow. */
  datatype Call =
    | DoCreate(create: CreateArgs, newId: Id)
    | DoCreateBatch(tenant: Id, create: CreateArgs, kind: string, recs: seq<Id>,
        newId: Id, batchId: Id, batchFault: bool)
    | DoApprove(id: Id, org: Id, who: Actor, outcomeFault: bool, hookFault: nat)
    | DoReject(id: Id, org: Id, who: Actor, comment: string, outcomeFault: bool)
    | DoExecute(id: Id, org: Id, ok: set<nat>, outcomeFault: bool)
    | DoExecuteBatch(tenant: Id, account: Id, batchId: Id, ok: set<nat>)
    | SetOutcome(rec: Id, value: Workflow)

  datatype Event = Event(world: World, now: int, call: Call)

  function Apply(db: Db, e: Event): Result<Db, Error> {
    match e.call
    case DoCreate(a, newId) => Create(db, e.world, a, newId, e.now)
    case DoCreateBatch(tenant, a, kind, recs, newId, batchId, fault) =>
      CreateBatch(db, e.world, tenant, a, kind, recs, newId, batchId, e.now, fault)
    case DoApprove(id, org, who, fault, hookFault) => Approve(db, e.world, id, org, who, e.now, fault, hookFault)
    case DoReject(id, org, who, comment, fault) => Reject(db, e.world, id, org, who, comment, e.now, fault)
    case DoExecute(id, org, ok, fault) => Execute(db, e.world, id, org, e.now, ok, fault)
    case DoExecuteBatch(tenant, account, batchId, ok) => ExecuteBatch(db, e.world, tenant, account, batchId, ok)
    case SetOutcome(rec, value) => Ok(db.(workflow := db.workflow[rec := value]))
  }

  /** A refused call leaves the rows as they were. */
  function Step(db: Db, e: Event): Db {
    match Apply(db, e)
    case Ok(db') => db'
    case Err(_) => db
  }

  function Run(db: Db, es: seq<Event>): Db {
    if es == [] then db else Step(Run(db, es[..|es| - 1]), es[|es| - 1])
  }

  const EMPTY := Db([], [], map[], [])

  /** New rows get unused identifiers, and creation times strictly increase. */
  ghost predicate Admissible(db: Db, e: Event) {
    e.call.DoCreate? || e.call.DoCreateBatch? ==>
      (forall i :: 0 <= i < |db.requests| ==> db.requests[i].id != e.call.newId && db.requests[i].createdAt < e.now) &&
      (e.call.DoCreateBatch? ==> forall i :: 0 <= i < |db.batches| ==> db.batches[i].id != e.call.batchId)
  }

  ghost predicate AdmissibleRun(db: Db, es: seq<Event>) {
    es == [] || (AdmissibleRun(db, es[..|es| - 1]) && Admissible(Run(db, es[..|es| - 1]), es[|es| - 1]))
  }

  // ---- the invariant -------------------------------------------------------------------------

  /** The status that the assignments alone determine. */
  function StatusOf(xs: seq<Assignment>): RequestStatus {
    if exists x :: x in xs && x.decision == Refused then Rejected
    else if AllGranted(xs) then Approved
    else if exists x :: x in xs && x.decision == Granted then PartiallyApproved
    else Submitted
  }

  ghost predicate DistinctApprovers(xs: seq<Assignment>) {
    forall i, j :: 0 <= i < j < |xs| ==> xs[i].approver != xs[j].approver
  }

  /** Status and assignments of one request agree. */
  ghost predicate Agrees(r: Request) {
    r.assignments != [] && DistinctApprovers(r.assignments) &&
    StatusOf(r.assignments) == (if r.status == Executed then Approved else r.status) &&
    (forall i, j :: 0 <= i < j < |r.assignments| ==>
       r.assignments[i].decision != Refused || r.assignments[j].decision != Refused) &&
    (r.approvedAt.Some? <==> r.status in {Approved, Executed}) && (r.rejectedAt.Some? <==> r.status == Rejected) &&
    (r.executedAt.Some? <==> r.status == Executed)
  }

  ghost predicate RequestsOk(rs: seq<Request>) {
    (forall i, j :: 0 <= i < j < |rs| ==> rs[i].id != rs[j].id) &&
    (forall i :: 0 <= i < |rs| ==> Agrees(rs[i])) &&
    (forall i, j :: 0 <= i < |rs| && 0 <= j < |rs| && i != j && rs[i].scope == rs[j].scope ==>
       rs[i].createdAt != rs[j].createdAt && (rs[i].createdAt < rs[j].createdAt ==> !Open(rs[i])))
  }

  /** How a batch and its rows follow the request they wait for. */
  ghost predicate Follows(b: Batch, s: RequestStatus) {
    b.status in BatchStatuses(s) && RowsFollow(b.rows, s)
  }

  /** What the batch of a request in this status may be; an approved request's batch may have been run by itself. */
  function BatchStatuses(s: RequestStatus): set<BatchStatus> {
    match s
    case Submitted => {BatchPending}
    case PartiallyApproved => {BatchPending}
    case Approved => {BatchApproved, BatchCompleted, BatchFailed}
    case Rejected => {BatchRejected}
    case Executed => {BatchCompleted, BatchFailed}
  }

  ghost predicate RowsFollow(rows: seq<Row>, s: RequestStatus) {
    forall k :: 0 <= k < |rows| ==>
      (s in {Submitted, PartiallyApproved} ==> rows[k].status == PendingApproval) &&
      (s == Rejected ==> rows[k].status == Blocked) &&
      (s == Approved ==> rows[k].status in {PendingApproval, RowApproved, Completed, Failed}) &&
      (s == Executed ==> rows[k].status in {Completed, Failed}) &&
      (rows[k].status in {Completed, Failed} ==> s in {Approved, Executed})
  }

  ghost predicate Linked(b: Batch, rs: seq<Request>) {
    b.request.Some? && exists i :: 0 <= i < |rs| && rs[i].id == b.request.value && Follows(b, rs[i].status)
  }

  ghost predicate BatchesOk(bs: seq<Batch>, rs: seq<Request>) {
    (forall i, j :: 0 <= i < j < |bs| ==> bs[i].id != bs[j].id && bs[i].request != bs[j].request) &&
    (forall i :: 0 <= i < |bs| ==> Linked(bs[i], rs))
  }

  ghost predicate Inv(db: Db) {
    RequestsOk(db.requests) && BatchesOk(db.batches, db.requests)
  }

  // ---- one request ---------------------------------------------------------------------------

  lemma GrantAgrees(r: Request, k: nat, now: int)
    requires Agrees(r) && Open(r) && k < |r.assignments| && r.assignments[k].decision == Pending
    ensures Agrees(GrantAt(r, k, now)) && GrantAt(r, k, now).status in {PartiallyApproved, Approved}
  {
    var xs := r.assignments[k := r.assignments[k].(decision := Granted)];
    assert xs[k] in xs;
    forall x | x in xs ensures x.decision != Refused {
      var i :| 0 <= i < |xs| && xs[i] == x;
      assert i != k ==> x in r.assignments;
    }
  }

  lemma RefuseAgrees(r: Request, k: nat, now: int)
    requires Agrees(r) && Open(r) && k < |r.assignments| && r.assignments[k].decision == Pending
    ensures Agrees(RefuseAt(r, k, now)) && RefuseAt(r, k, now).status == Rejected
  {
    var xs := r.assignments[k := r.assignments[k].(decision := Refused)];
    assert xs[k] in xs;
    assert forall i :: 0 <= i < |xs| ==> r.assignments[i] in r.assignments;
  }

  lemma NewRequestAgrees(id: Id, org: Id, scope: Scope, users: seq<Id>, now: int)
    requires users != [] && NoDuplicates(users)
    ensures Agrees(NewRequest(id, org, scope, users, now))
  {
    var xs := PendingFor(users);
    assert xs[0] in xs;
  }

  // ---- the request table ---------------------------------------------------------------------

  lemma ReplaceKeepsRequests(rs: seq<Request>, i: nat, r: Request)
    requires RequestsOk(rs) && i < |rs| && Agrees(r)
    requires r.id == rs[i].id && r.scope == rs[i].scope && r.createdAt == rs[i].createdAt
    requires Open(r) ==> Open(rs[i])
    ensures RequestsOk(rs[i := r])
  {
  }

  lemma AppendKeepsRequests(rs: seq<Request>, r: Request)
    requires RequestsOk(rs) && Agrees(r) && !HasOpenRequest(rs, r.scope)
    requires forall i :: 0 <= i < |rs| ==> rs[i].id != r.id && rs[i].createdAt < r.createdAt
    ensures RequestsOk(rs + [r])
  {
    forall i | 0 <= i < |rs| && rs[i].scope == r.scope ensures !Open(rs[i]) {
      var l := Latest(rs, r.scope);
      assert i != l ==> rs[i].createdAt < rs[l].createdAt;
    }
  }

  /** Rows of other requests' batches do not move when one request does. */
  lemma ReplaceKeepsBatches(bs: seq<Batch>, rs: seq<Request>, i: nat, r: Request)
    requires RequestsOk(rs) && BatchesOk(bs, rs) && i < |rs| && r.id == rs[i].id
    requires forall b :: 0 <= b < |bs| && bs[b].request == Some(r.id) ==> Follows(bs[b], r.status)
    ensures BatchesOk(bs, rs[i := r])
  {
    forall b | 0 <= b < |bs| ensures Linked(bs[b], rs[i := r]) {
      var j :| 0 <= j < |rs| && rs[j].id == bs[b].request.value && Follows(bs[b], rs[j].status);
      assert rs[i := r][j].id == rs[j].id;
    }
  }

  /** One batch and its request move together. */
  lemma ReplaceBoth(bs: seq<Batch>, rs: seq<Request>, i: nat, r: Request, k: nat, b: Batch)
    requires RequestsOk(rs) && BatchesOk(bs, rs) && i < |rs| && r.id == rs[i].id
    requires k < |bs| && b.id == bs[k].id && b.request == bs[k].request == Some(r.id) && Follows(b, r.status)
    ensures BatchesOk(bs[k := b], rs[i := r])
  {
    var bs' := bs[k := b];
    assert rs[i := r][i].id == r.id;
    forall c | 0 <= c < |bs'| ensures Linked(bs'[c], rs[i := r]) {
      if c != k {
        assert bs[c].request != Some(r.id);
        var j :| 0 <= j < |rs| && rs[j].id == bs[c].request.value && Follows(bs[c], rs[j].status);
        assert rs[i := r][j] == rs[j];
      }
    }
  }

  // ---- one call ------------------------------------------------------------------------------

  lemma CreateKeepsInv(db: Db, w: World, a: CreateArgs, newId: Id, now: int)
    requires Inv(db) && Create(db, w, a, newId, now).Ok?
    requires forall i :: 0 <= i < |db.requests| ==> db.requests[i].id != newId && db.requests[i].createdAt < now
    ensures Inv(Create(db, w, a, newId, now).value)
  {
    var scope := CreateCheck(db, w, a).value;
    var r := NewRequest(newId, a.org, scope, Dedup(a.approvers), now);
    NewRequestAgrees(newId, a.org, scope, Dedup(a.approvers), now);
    AppendKeepsRequests(db.requests, r);
    LinksSurviveAppend(db.batches, db.requests, r);
  }

  lemma LinksSurviveAppend(bs: seq<Batch>, rs: seq<Request>, r: Request)
    requires BatchesOk(bs, rs)
    ensures BatchesOk(bs, rs + [r])
  {
    forall b | 0 <= b < |bs| ensures Linked(bs[b], rs + [r]) {
      assert Linked(bs[b], rs);
      var j :| 0 <= j < |rs| && rs[j].id == bs[b].request.value && Follows(bs[b], rs[j].status);
      assert (rs + [r])[j] == rs[j];
    }
  }

  /** A request that no stored one has the identifier of has no batch yet. */
  lemma NewRequestHasNoBatch(db: Db, newId: Id)
    requires Inv(db) && forall i :: 0 <= i < |db.requests| ==> db.requests[i].id != newId
    ensures forall i :: 0 <= i < |db.batches| ==> db.batches[i].request != Some(newId)
  {
    hide Agrees, Follows;
    assert forall i :: 0 <= i < |db.batches| ==> Linked(db.batches[i], db.requests);
  }

  lemma AppendKeepsBatches(bs: seq<Batch>, rs: seq<Request>, b: Batch)
    requires BatchesOk(bs, rs) && Linked(b, rs)
    requires forall i :: 0 <= i < |bs| ==> bs[i].id != b.id && bs[i].request != b.request
    ensures BatchesOk(bs + [b], rs)
  {
    hide Linked;
  }

  lemma BatchFollowsCreation(db: Db, w: World, tenant: Id, a: CreateArgs, kind: string, recs: seq<Id>,
                             newId: Id, batchId: Id, now: int, fault: bool)
    requires CreateBatch(db, w, tenant, a, kind, recs, newId, batchId, now, fault).Ok?
    ensures recs != [] && Create(db, w, a.(rec := recs[0]), newId, now).Ok?
    ensures var t := Create(db, w, a.(rec := recs[0]), newId, now).value;
      CreateBatch(db, w, tenant, a, kind, recs, newId, batchId, now, fault) ==
        Ok(if fault then t else t.(batches := t.batches + [NewBatch(batchId, tenant, a.account, newId, recs)])) &&
      t.batches == db.batches && |t.requests| == |db.requests| + 1 &&
      t.requests[|db.requests|].id == newId && t.requests[|db.requests|].status == Submitted
  {
    hide CreateCheck, Dedup, NewBatch, RecExists;
  }

  lemma CreateBatchKeepsInv(db: Db, w: World, tenant: Id, a: CreateArgs, kind: string, recs: seq<Id>,
                            newId: Id, batchId: Id, now: int, fault: bool)
    requires Inv(db) && CreateBatch(db, w, tenant, a, kind, recs, newId, batchId, now, fault).Ok?
    requires forall i :: 0 <= i < |db.requests| ==> db.requests[i].id != newId && db.requests[i].createdAt < now
    requires forall i :: 0 <= i < |db.batches| ==> db.batches[i].id != batchId
    ensures Inv(CreateBatch(db, w, tenant, a, kind, recs, newId, batchId, now, fault).value)
  {
    BatchFollowsCreation(db, w, tenant, a, kind, recs, newId, batchId, now, fault);
    hide CreateBatch, Create, RequestsOk, StatusOf, Agrees;
    var a' := a.(rec := recs[0]);
    CreateKeepsInv(db, w, a', newId, now);
    NewRequestHasNoBatch(db, newId);
    var rs := Create(db, w, a', newId, now).value.requests;
    var n := |db.requests|;
    var b := NewBatch(batchId, tenant, a.account, newId, recs);
    assert rs[n].id == newId && Follows(b, rs[n].status);
    assert Linked(b, rs);
    hide Linked, Follows, BatchesOk;
    if !fault {
      AppendKeepsBatches(db.batches, rs, b);
    }
  }

  lemma ApproveKeepsInv(db: Db, w: World, id: Id, org: Id, who: Actor, now: int, fault: bool, hookFault: nat)
    requires Inv(db) && Approve(db, w, id, org, who, now, fault, hookFault).Ok?
    ensures Inv(Approve(db, w, id, org, who, now, fault, hookFault).value)
  {
    hide MayApprove, SetWorkflow, HookStop, FindAssignment;
    var (i, k) := DecisionCheck(db, w, id, org, who).value;
    var r := GrantAt(db.requests[i], k, now);
    GrantAgrees(db.requests[i], k, now);
    ReplaceKeepsRequests(db.requests, i, r);
    OpenRowsPending(db, i);
    var b := FindBatchOf(db.batches, id);
    if r.status == Approved && b < |db.batches| {
      ReplaceBoth(db.batches, db.requests, i, r, b, BatchOnApproved(db.batches[b], w, hookFault));
    } else {
      ReplaceKeepsBatches(db.batches, db.requests, i, r);
    }
  }

  /** The batch of an open request still has every row waiting. */
  lemma OpenRowsPending(db: Db, i: nat)
    requires Inv(db) && i < |db.requests|
    ensures forall b :: 0 <= b < |db.batches| && db.batches[b].request == Some(db.requests[i].id) ==>
      Follows(db.batches[b], db.requests[i].status)
  {
    forall b | 0 <= b < |db.batches| && db.batches[b].request == Some(db.requests[i].id)
      ensures Follows(db.batches[b], db.requests[i].status)
    {
      assert Linked(db.batches[b], db.requests);
    }
  }

  lemma RejectKeepsInv(db: Db, w: World, id: Id, org: Id, who: Actor, comment: string, now: int, fault: bool)
    requires Inv(db) && Reject(db, w, id, org, who, comment, now, fault).Ok?
    ensures Inv(Reject(db, w, id, org, who, comment, now, fault).value)
  {
    var (i, k) := DecisionCheck(db, w, id, org, who).value;
    var r := RefuseAt(db.requests[i], k, now);
    RefuseAgrees(db.requests[i], k, now);
    ReplaceKeepsRequests(db.requests, i, r);
    var b := FindBatchOf(db.batches, id);
    if b < |db.batches| {
      ReplaceBoth(db.batches, db.requests, i, r, b, BatchOnRejected(db.batches[b]));
    } else {
      ReplaceKeepsBatches(db.batches, db.requests, i, r);
    }
  }

  lemma ExecuteBatchKeepsInv(db: Db, w: World, tenant: Id, account: Id, id: Id, ok: set<nat>)
    requires Inv(db) && ExecuteBatch(db, w, tenant, account, id, ok).Ok?
    ensures Inv(ExecuteBatch(db, w, tenant, account, id, ok).value)
  {
    var i := FindBatch(db.batches, tenant, account, id);
    var b := db.batches[i];
    var r := FindById(db.requests, b.request.value);
    ReplaceBoth(db.batches, db.requests, r, db.requests[r], i, RunBatch(w, b, ok));
    assert db.requests[r := db.requests[r]] == db.requests;
  }

  lemma ExecuteKeepsInv(db: Db, w: World, id: Id, org: Id, now: int, ok: set<nat>, fault: bool)
    requires Inv(db) && Execute(db, w, id, org, now, ok, fault).Ok?
    ensures Inv(Execute(db, w, id, org, now, ok, fault).value)
  {
    var i := FindRequest(db.requests, id, org);
    var r := db.requests[i].(status := Executed, executedAt := Some(now));
    ReplaceKeepsRequests(db.requests, i, r);
    var b := FindBatchOf(db.batches, id);
    if b < |db.batches| {
      var k := FindBatch(db.batches, db.batches[b].tenant, db.batches[b].account, db.batches[b].id);
      assert k == b;
      ReplaceBoth(db.batches, db.requests, i, r, b, RunBatch(w, db.batches[b], ok));
    } else {
      ReplaceKeepsBatches(db.batches, db.requests, i, r);
    }
  }

  lemma StepKeepsInv(db: Db, e: Event)
    requires Inv(db) && Admissible(db, e)
    ensures Inv(Step(db, e))
  {
    if Apply(db, e).Ok? {
      match e.call
      case DoCreate(a, newId) => CreateKeepsInv(db, e.world, a, newId, e.now);
      case DoCreateBatch(tenant, a, kind, recs, newId, batchId, fault) =>
        CreateBatchKeepsInv(db, e.world, tenant, a, kind, recs, newId, batchId, e.now, fault);
      case DoApprove(id, org, who, fault, hookFault) =>
        ApproveKeepsInv(db, e.world, id, org, who, e.now, fault, hookFault);
      case DoReject(id, org, who, comment, fault) => RejectKeepsInv(db, e.world, id, org, who, comment, e.now, fault);
      case DoExecute(id, org, ok, fault) => ExecuteKeepsInv(db, e.world, id, org, e.now, ok, fault);
      case DoExecuteBatch(tenant, account, id, ok) => ExecuteBatchKeepsInv(db, e.world, tenant, account, id, ok);
      case SetOutcome(rec, value) =>
    }
  }

  /** Every reachable state satisfies the invariant. */
  lemma {:induction false} RunKeepsInv(db: Db, es: seq<Event>)
    requires Inv(db) && AdmissibleRun(db, es)
    ensures Inv(Run(db, es))
  {
    if es != [] {
      hide Inv, Step, Admissible;
      var n := |es| - 1;
      RunKeepsInv(db, es[..n]);
      StepKeepsInv(Run(db, es[..n]), es[n]);
    }
  }
}
