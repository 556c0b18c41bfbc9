/** Which calls the approval services refuse, in terms of what the caller and the tables bring. */
module ApprovalChecks {
  import opened Collections
  import opened Directory
  import opened ApprovalModel
  import opened ApprovalProtocol
  import opened ApprovalTheorems
  import opened ApprovalOutcomes
  import Text

  // ---- decisions ---------------------------------------------------------------------------------------

  /** The user has an assignment of the request that waits for a decision. */
  ghost predicate Awaits(r: Request, user: Id) {
    exists k :: 0 <= k < |r.assignments| && r.assignments[k].approver == user && r.assignments[k].decision == Pending
  }

  /** Without approver access nobody decides: every decision on an open request is forbidden, whatever is assigned. */
  lemma NoAccessForbidden(db: Db, e: Event, i: nat)
    requires e.call.DoApprove? || e.call.DoReject?
    requires i == FindRequest(db.requests, e.call.id, e.call.org) && i < |db.requests| && Open(db.requests[i])
    ensures Apply(db, e) == Err(Forbidden) <==>
      !HasApproverAccess(e.world.tables, e.call.org, db.requests[i].scope, e.call.who)
  {
    MayApproveIff(e.world.tables, e.call.org, db.requests[i].scope, e.call.who);
    hide HasApproverAccess, MayApprove, GrantAt, RefuseAt, SetWorkflow, HookStop, BatchOnApproved, BatchOnRejected;
  }

  /** In every reachable state the checks let pass exactly a waiting approver with access to an open request. */
  lemma CheckedIff(db: Db, w: World, id: Id, org: Id, who: Actor, i: nat)
    requires Reachable(db) && i == FindRequest(db.requests, id, org) && i < |db.requests|
    ensures DecisionCheck(db, w, id, org, who).Ok? <==>
      Open(db.requests[i]) && HasApproverAccess(w.tables, org, db.requests[i].scope, who) &&
      Awaits(db.requests[i], who.user)
  {
    ReachableInv(db);
    assert Agrees(db.requests[i]);
    MayApproveIff(w.tables, org, db.requests[i].scope, who);
    var k := FindAssignment(db.requests[i].assignments, who.user);
    hide HasApproverAccess, MayApprove, Inv, Reachable, StatusOf;
  }

  /** The outcome service fails on an existing recommendation. */
  ghost predicate OutcomeFails(w: World, scope: Scope, fault: bool) {
    fault && scope.rec in w.recs &&
    w.recs[scope.rec].tenant == scope.tenant && w.recs[scope.rec].account == scope.account
  }

  /** So an approval succeeds exactly then, short of an outcome fault at the last one. */
  lemma ApprovalSucceedsIff(db: Db, e: Event, i: nat)
    requires Reachable(db) && e.call.DoApprove?
    requires i == FindRequest(db.requests, e.call.id, e.call.org) && i < |db.requests|
    ensures var r := db.requests[i];
      Apply(db, e).Ok? <==>
      Open(r) && HasApproverAccess(e.world.tables, e.call.org, r.scope, e.call.who) && Awaits(r, e.call.who.user) &&
      (OutcomeFails(e.world, r.scope, e.call.outcomeFault) ==>
         exists k :: 0 <= k < |r.assignments| && r.assignments[k].approver != e.call.who.user &&
           r.assignments[k].decision != Granted)
  {
    var r := db.requests[i];
    CheckedIff(db, e.world, e.call.id, e.call.org, e.call.who, i);
    hide HasApproverAccess, Awaits, SetWorkflow, HookStop, BatchOnApproved, FindBatchOf;
    if DecisionCheck(db, e.world, e.call.id, e.call.org, e.call.who).Ok? {
      ReachableInv(db);
      assert Agrees(r);
      LastOneIff(r, DecisionCheck(db, e.world, e.call.id, e.call.org, e.call.who).value.1, e.now);
    }
    hide Reachable, Inv, DecisionCheck, GrantAt;
  }

  lemma LastOneIff(r: Request, k: nat, now: int)
    requires DistinctApprovers(r.assignments) && k < |r.assignments|
    ensures GrantAt(r, k, now).status == Approved <==>
      !(exists j :: 0 <= j < |r.assignments| && r.assignments[j].approver != r.assignments[k].approver &&
          r.assignments[j].decision != Granted)
  {
    var xs := r.assignments[k := r.assignments[k].(decision := Granted)];
    assert forall j :: 0 <= j < |xs| ==> xs[j] in xs;
    assert forall j :: 0 <= j < |xs| && j != k ==> xs[j] == r.assignments[j] && xs[j].approver != xs[k].approver;
  }

  /** A rejection, with a comment that is not blank. */
  lemma RejectionSucceedsIff(db: Db, e: Event, i: nat)
    requires Reachable(db) && e.call.DoReject?
    requires i == FindRequest(db.requests, e.call.id, e.call.org) && i < |db.requests|
    ensures var r := db.requests[i];
      Apply(db, e).Ok? <==>
      Open(r) && HasApproverAccess(e.world.tables, e.call.org, r.scope, e.call.who) && Awaits(r, e.call.who.user) &&
      Text.Strip(e.call.comment) != "" && !OutcomeFails(e.world, r.scope, e.call.outcomeFault)
  {
    hide HasApproverAccess, Awaits, BatchOnRejected, FindBatchOf, Reachable, Text.Strip, MayApprove, FindAssignment;
    CheckedIff(db, e.world, e.call.id, e.call.org, e.call.who, i);
  }

  // ---- execution -----------------------------------------------------------------------------------------

  /** In every reachable state a request can be executed exactly when it is approved, short of an outcome fault. */
  lemma ExecutionSucceedsIff(db: Db, e: Event, i: nat, b: nat)
    requires Reachable(db) && e.call.DoExecute? && b == FindBatchOf(db.batches, e.call.id)
    requires i == FindRequest(db.requests, e.call.id, e.call.org) && i < |db.requests|
    ensures Apply(db, e).Ok? <==>
      db.requests[i].status == Approved &&
      (b < |db.batches| || !OutcomeFails(e.world, db.requests[i].scope, e.call.outcomeFault))
  {
    ReachableInv(db);
    if b < |db.batches| {
      var x := db.batches[b];
      assert FindBatch(db.batches, x.tenant, x.account, x.id) == b;
      assert FindById(db.requests, e.call.id) == i;
    }
    hide Reachable, AppliedBy, RunBatch, Sent, Linked, Agrees;
  }

  /** A batch can be executed by itself exactly when its request is approved and not yet executed. */
  lemma BatchExecutionSucceedsIff(db: Db, e: Event, b: nat)
    requires Reachable(db) && e.call.DoExecuteBatch?
    requires b == FindBatch(db.batches, e.call.tenant, e.call.account, e.call.batchId) && b < |db.batches|
    ensures Apply(db, e).Ok? <==>
      exists i :: 0 <= i < |db.requests| && db.batches[b].request == Some(db.requests[i].id) &&
        db.requests[i].status == Approved
  {
    ReachableInv(db);
    assert Linked(db.batches[b], db.requests);
    var r := FindById(db.requests, db.batches[b].request.value);
    hide Reachable, AppliedBy, RunBatch, Sent, Agrees, Follows;
  }

  /** Each call stamps the request it closes or completes with its own time, and keeps the stamps it had. */
  lemma StampsTheClock(db: Db, e: Event, i: nat)
    requires Apply(db, e).Ok? && (e.call.DoApprove? || e.call.DoReject? || e.call.DoExecute?)
    requires i == FindRequest(db.requests, e.call.id, e.call.org)
    ensures i < |db.requests| == |Step(db, e).requests|
    ensures var r, s := db.requests[i], Step(db, e).requests[i];
      s.approvedAt == (if e.call.DoApprove? && s.status == Approved then Some(e.now) else r.approvedAt) &&
      s.rejectedAt == (if e.call.DoReject? then Some(e.now) else r.rejectedAt) &&
      s.executedAt == (if e.call.DoExecute? then Some(e.now) else r.executedAt)
  {
    hide MayApprove, SetWorkflow, HookStop, BatchOnApproved, BatchOnRejected, FindAssignment, AppliedBy, RunBatch, Sent;
  }

  // ---- creation ------------------------------------------------------------------------------------------

  /** What creation asks for before it looks at people: the tables, the recommendation, and no open request. */
  ghost predicate Creatable(db: Db, w: World, a: CreateArgs, scope: Scope) {
    a.mode == "all_required" && FirstAccount(w.tables.accounts, a.account) == Some(Account(a.account, scope.tenant)) &&
    scope == Scope(scope.tenant, a.account, a.rec) && TenantOrg(w.tables, scope.tenant) == Some(a.org) &&
    RecExists(w, a.rec, scope.tenant, a.account) && Undecided(db, a.rec) && !HasOpenRequest(db.requests, scope)
  }

  /** Creation succeeds exactly when, beyond that, every approver is eligible, the owner may own it and tags pass. */
  lemma CreationSucceedsIff(db: Db, w: World, a: CreateArgs, scope: Scope)
    ensures CreateCheck(db, w, a) == Ok(scope) <==>
      Creatable(db, w, a, scope) && a.approvers != [] &&
      (forall u :: u in a.approvers ==> Eligible(w.tables, a.org, scope, u)) &&
      MayOwn(w.tables, a.org, scope, a.owner) && a.tagsAccepted
  {
    var users := Dedup(a.approvers);
    assert a.approvers == [] ==> users == [];
    FaultIff(w.tables, a.org, scope, users);
    NoFaultMayOwn(w.tables, a.org, scope, a.owner);
    hide Dedup, ApproverFault, OwnerFault, Eligible, MayOwn, HasOpenRequest, TenantOrg, FirstAccount;
  }

  lemma FaultIff(d: Tables, org: Id, scope: Scope, users: seq<Id>)
    ensures ApproverFault(d, org, scope, users) == None <==> forall u :: u in users ==> Eligible(d, org, scope, u)
  {
    NoFaultEligible(d, org, scope, users);
    if forall u :: u in users ==> Eligible(d, org, scope, u) {
      EligibleNoFault(d, org, scope, users);
    }
  }

  lemma {:induction false} EligibleNoFault(d: Tables, org: Id, scope: Scope, users: seq<Id>)
    requires forall u :: u in users ==> Eligible(d, org, scope, u)
    ensures ApproverFault(d, org, scope, users) == None
  {
    if users != [] {
      assert users[0] in users;
      MayApproveIff(d, org, scope, Actor(users[0], MemberRole(d.memberships, org, users[0]).value, false));
      hide HasApproverAccess, MayApprove, MemberRole;
      EligibleNoFault(d, org, scope, users[1..]);
    }
  }

  /** Naming one member without approver access among members refuses the creation for that reason. */
  lemma IneligibleApproverRefused(db: Db, w: World, a: CreateArgs, scope: Scope, u: Id)
    requires Creatable(db, w, a, scope) && u in a.approvers
    requires forall v :: v in a.approvers ==> MemberRole(w.tables.memberships, a.org, v).Some?
    requires !HasApproverAccess(w.tables, a.org, scope,
                                Actor(u, MemberRole(w.tables.memberships, a.org, u).value, false))
    ensures CreateCheck(db, w, a) == Err(ApproverIneligible)
  {
    var users := Dedup(a.approvers);
    FaultIff(w.tables, a.org, scope, users);
    MembersOnly(w.tables, a.org, scope, users);
    assert !Eligible(w.tables, a.org, scope, u);
    hide Dedup, ApproverFault, OwnerFault, Eligible, HasOpenRequest, TenantOrg, FirstAccount, HasApproverAccess;
  }

  lemma {:induction false} MembersOnly(d: Tables, org: Id, scope: Scope, users: seq<Id>)
    requires forall v :: v in users ==> MemberRole(d.memberships, org, v).Some?
    ensures ApproverFault(d, org, scope, users) != Some(ApproverNotInOrg)
  {
    if users != [] {
      assert users[0] in users;
      hide MayApprove, MemberRole;
      MembersOnly(d, org, scope, users[1..]);
    }
  }

  // ---- tagging batches -------------------------------------------------------------------------------------

  /** Every resource's recommendation exists in the tenant's account and is of the batch's kind. */
  ghost predicate Batchable(w: World, tenant: Id, account: Id, kind: string, recs: seq<Id>) {
    forall i :: 0 <= i < |recs| ==>
      recs[i] in w.recs && w.recs[recs[i]].tenant == tenant && w.recs[recs[i]].account == account &&
      w.recs[recs[i]].kind == kind
  }

  /**
   * A tagging batch is created exactly when it has resources, all of its kind and account, and a request for the first
   * can be created; then one waiting row per resource is added in order, unless the insertion of the batch fails.
   */
  lemma BatchCreationMeans(db: Db, w: World, tenant: Id, a: CreateArgs, kind: string, recs: seq<Id>, newId: Id,
                           batchId: Id, now: int, fault: bool)
    ensures var r := CreateBatch(db, w, tenant, a, kind, recs, newId, batchId, now, fault);
      (r.Ok? <==> recs != [] && Batchable(w, tenant, a.account, kind, recs) &&
                  CreateCheck(db, w, a.(rec := recs[0])).Ok?) &&
      (r.Ok? ==> var q := Create(db, w, a.(rec := recs[0]), newId, now);
        q.Ok? && r.value.requests == q.value.requests && r.value.workflow == q.value.workflow &&
        |r.value.batches| == |db.batches| + (if fault then 0 else 1) && r.value.batches[..|db.batches|] == db.batches &&
        (!fault ==> IsNewBatch(r.value.batches[|db.batches|], tenant, a.account, newId, batchId, recs)))
  {
    forall i | 0 <= i < |recs| ensures recs[i] in recs {}
    hide CreateCheck, NewRequest, Dedup;
  }

  ghost predicate IsNewBatch(b: Batch, tenant: Id, account: Id, request: Id, id: Id, recs: seq<Id>) {
    b.id == id && b.tenant == tenant && b.account == account && b.request == Some(request) &&
    b.status == BatchPending && |b.rows| == |recs| &&
    forall i :: 0 <= i < |recs| ==> b.rows[i].rec == recs[i] && b.rows[i].status == PendingApproval
  }

  /** The approval hook marks the rows up to and including the one at which it stops, and touches nothing else. */
  lemma HookMarks(b: Batch, w: World, fault: nat, k: nat)
    requires k < |b.rows|
    ensures var c := BatchOnApproved(b, w, fault);
      c.status == BatchApproved && c.id == b.id && c.tenant == b.tenant && c.account == b.account &&
      c.request == b.request && |c.rows| == |b.rows| && c.rows[k].rec == b.rows[k].rec &&
      c.rows[k].status == if k <= HookStop(b, w, fault) then RowApproved else b.rows[k].status
  {
  }

  // ---- the list --------------------------------------------------------------------------------------------

  /**
   * What the list shows: the organization's requests, of the recommendation and in the status asked for; for a user who
   * asks for pending ones the open ones that wait for that user; for other users without the admin view their own.
   */
  lemma ListShows(r: Request, f: ListFilter)
    ensures Listed(r, f) <==>
      r.org == f.org && (f.rec == None || f.rec == Some(r.scope.rec)) &&
      (f.status == None || f.status == Some(r.status)) &&
      (f.user.Some? && f.pendingForMe ==> Open(r) && Awaits(r, f.user.value)) &&
      (f.user.Some? && !f.pendingForMe && !f.adminView ==>
         exists k :: 0 <= k < |r.assignments| && r.assignments[k].approver == f.user.value)
  {
    if f.user.Some? {
      var mine := Assignment(f.user.value, Pending);
      assert mine in r.assignments <==> Awaits(r, f.user.value) by {
        if k :| 0 <= k < |r.assignments| && r.assignments[k].approver == mine.approver &&
                r.assignments[k].decision == Pending {
          assert r.assignments[k] == mine;
        }
      }
      if k :| 0 <= k < |r.assignments| && r.assignments[k].approver == f.user.value {
        assert r.assignments[k] in r.assignments;
      }
    }
  }

  /** The pending count is zero exactly when every assignment is decided. */
  lemma {:induction false} NothingPendingIff(xs: seq<Assignment>)
    ensures PendingCount(xs) == 0 <==> forall k :: 0 <= k < |xs| ==> xs[k].decision != Pending
  {
    if xs != [] {
      NothingPendingIff(xs[..|xs| - 1]);
    }
  }
}
