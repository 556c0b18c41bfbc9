/** Approvals commute: what a request becomes depends on who has approved, not on when or on what runs in between. */
module ApprovalOrder {
  import opened Collections
  import opened ApprovalModel
  import opened ApprovalProtocol
  import opened ApprovalTheorems

  /** The assignments once exactly `done` have approved. */
  function Marked(xs: seq<Assignment>, done: seq<Id>): (r: seq<Assignment>)
    ensures |r| == |xs|
    ensures forall k :: 0 <= k < |r| ==> r[k] == xs[k].(decision := if xs[k].approver in done then Granted else Pending)
  {
    seq(|xs|, k requires 0 <= k < |xs| => xs[k].(decision := if xs[k].approver in done then Granted else Pending))
  }

  /** The call decides or executes this request. */
  predicate Concerns(e: Event, r: Request) {
    match e.call
    case DoApprove(id, org, _, _, _) => id == r.id && org == r.org
    case DoReject(id, org, _, _, _) => id == r.id && org == r.org
    case DoExecute(id, org, _, _) => id == r.id && org == r.org
    case _ => false
  }

  /** Any call for something else, or an approval of this request, made with access and without an outside fault. */
  ghost predicate Undisturbed(e: Event, r: Request) {
    Concerns(e, r) ==> e.call.DoApprove? && ApprovedBy(e, r, e.call.who.user) && !e.call.outcomeFault
  }

  /** Who approves the request in the run, in order. */
  function ApproversIn(es: seq<Event>, r: Request): seq<Id> {
    if es == [] then []
    else
      var e := es[|es| - 1];
      ApproversIn(es[..|es| - 1], r) + (if Concerns(e, r) && e.call.DoApprove? then [e.call.who.user] else [])
  }

  ghost predicate AreApprovers(order: seq<Id>, xs: seq<Assignment>) {
    NoDuplicates(order) && forall u :: u in order ==> exists k :: 0 <= k < |xs| && xs[k].approver == u
  }

  ghost predicate EveryoneIn(xs: seq<Assignment>, order: seq<Id>) {
    forall k :: 0 <= k < |xs| ==> xs[k].approver in order
  }

  /** The request once exactly `order` have approved: approved with the last of its approvers, never earlier. */
  ghost predicate Progressed(r: Request, s: Request, order: seq<Id>) {
    s.id == r.id && s.org == r.org && s.scope == r.scope && s.assignments == Marked(r.assignments, order) &&
    s.status == (if order == [] then Submitted
                 else if EveryoneIn(r.assignments, order) then Approved else PartiallyApproved)
  }

  lemma NothingProgressed(r: Request)
    requires Agrees(r) && r.status == Submitted
    ensures Progressed(r, r, [])
  {
    var xs := r.assignments;
    assert forall k :: 0 <= k < |xs| ==> xs[k] in xs;
    assert xs == Marked(xs, []);
  }

  lemma OneMoreApprover(xs: seq<Assignment>, order: seq<Id>, u: Id, k: nat)
    requires DistinctApprovers(xs) && AreApprovers(order + [u], xs)
    requires k < |xs| && xs[k].approver == u
    ensures var ys, zs := Marked(xs, order), Marked(xs, order + [u]);
      ys[k].decision == Pending && ys[k := ys[k].(decision := Granted)] == zs &&
      (AllGranted(zs) <==> EveryoneIn(xs, order + [u]))
  {
    var all := order + [u];
    assert all[|order|] == u;
    assert forall i :: 0 <= i < |order| ==> all[i] == order[i];
    assert u !in order;
    var zs := Marked(xs, all);
    assert forall m :: 0 <= m < |xs| ==> zs[m] in zs;
  }

  lemma SomeoneIsMissing(xs: seq<Assignment>, order: seq<Id>, u: Id, k: nat)
    requires AreApprovers(order + [u], xs) && k < |xs| && xs[k].approver == u
    ensures !EveryoneIn(xs, order) && AreApprovers(order, xs)
  {
    var all := order + [u];
    assert all[|order|] == u;
    assert forall i :: 0 <= i < |order| ==> all[i] == order[i];
    assert u !in order;
    assert forall v :: v in order ==> v in all;
  }

  /** One approval of the request, found at its place. */
  lemma ApprovalProgresses(db: Db, i: nat, r: Request, order: seq<Id>, e: Event)
    requires i < |db.requests| && FindRequest(db.requests, r.id, r.org) == i
    requires Agrees(r) && Progressed(r, db.requests[i], order)
    requires Concerns(e, r) && Undisturbed(e, r) && AreApprovers(order + [e.call.who.user], r.assignments)
    ensures Apply(db, e).Ok? && i < |Step(db, e).requests|
    ensures Progressed(r, Step(db, e).requests[i], order + [e.call.who.user])
  {
    var s, u := db.requests[i], e.call.who.user;
    MayApproveIff(e.world.tables, r.org, r.scope, e.call.who);
    assert (order + [u])[|order|] == u;
    assert u in order + [u];
    var k :| 0 <= k < |r.assignments| && r.assignments[k].approver == u;
    OneMoreApprover(r.assignments, order, u, k);
    SomeoneIsMissing(r.assignments, order, u, k);
    assert FindAssignment(s.assignments, u) == k;
    ApproveDecides(db, e, i, k);
    hide Apply, Step, Marked, EveryoneIn, AreApprovers, DecisionCheck, FindAssignment, FindRequest;
  }

  lemma ApproveDecides(db: Db, e: Event, i: nat, k: nat)
    requires e.call.DoApprove? && !e.call.outcomeFault && i < |db.requests| && k < |db.requests[i].assignments|
    requires DecisionCheck(db, e.world, e.call.id, e.call.org, e.call.who) == Ok((i, k))
    ensures Apply(db, e).Ok? && Step(db, e).requests == db.requests[i := GrantAt(db.requests[i], k, e.now)]
  {
  }

  /** A call for something else leaves the row, and the row stays the first with its id and organization. */
  lemma OthersLeaveIt(db: Db, i: nat, r: Request, e: Event)
    requires i < |db.requests| && FindRequest(db.requests, r.id, r.org) == i && !Concerns(e, r)
    ensures i < |Step(db, e).requests| && Step(db, e).requests[i] == db.requests[i]
  {
    hide CreateCheck, SetWorkflow, AppliedBy, RunBatch, Sent, FindBatch;
    if Apply(db, e).Ok? {
      match e.call
      case DoApprove(id, org, _, _, _) => DecisionElsewhere(db, e, FindRequest(db.requests, id, org));
      case DoReject(id, org, _, _, _) => DecisionElsewhere(db, e, FindRequest(db.requests, id, org));
      case DoExecute(id, org, _, _) => ExecutionElsewhere(db, e, FindRequest(db.requests, id, org));
      case _ =>
    }
  }

  lemma DecisionElsewhere(db: Db, e: Event, j: nat)
    requires (e.call.DoApprove? || e.call.DoReject?) && Apply(db, e).Ok?
    requires j == FindRequest(db.requests, e.call.id, e.call.org)
    ensures j < |db.requests| == |Step(db, e).requests|
    ensures forall i :: 0 <= i < |db.requests| && i != j ==> Step(db, e).requests[i] == db.requests[i]
  {
    hide MayApprove, GrantAt, RefuseAt, SetWorkflow, BatchOnApproved, BatchOnRejected,
      HookStop, FindBatchOf, FindAssignment;
  }

  lemma ExecutionElsewhere(db: Db, e: Event, j: nat)
    requires e.call.DoExecute? && Apply(db, e).Ok?
    requires j == FindRequest(db.requests, e.call.id, e.call.org)
    ensures j < |db.requests| == |Step(db, e).requests|
    ensures forall i :: 0 <= i < |db.requests| && i != j ==> Step(db, e).requests[i] == db.requests[i]
  {
    hide ExecuteBatch, FindBatchOf, RecExists;
  }

  lemma StaysFound(db: Db, i: nat, r: Request, e: Event)
    requires i < |db.requests| && FindRequest(db.requests, r.id, r.org) == i
    ensures i < |Step(db, e).requests| && FindRequest(Step(db, e).requests, r.id, r.org) == i
  {
    StepEvolves(db, e);
    hide Step;
    var rs := Step(db, e).requests;
    forall j | 0 <= j <= i ensures rs[j].id == db.requests[j].id && rs[j].org == db.requests[j].org {
      assert Evolves(db.requests[j], rs[j]);
    }
  }

  lemma {:induction false} RunFinds(db: Db, i: nat, r: Request, es: seq<Event>)
    requires i < |db.requests| && FindRequest(db.requests, r.id, r.org) == i
    ensures i < |Run(db, es).requests| && FindRequest(Run(db, es).requests, r.id, r.org) == i
  {
    if es != [] {
      hide Step, FindRequest;
      RunFinds(db, i, r, es[..|es| - 1]);
      StaysFound(Run(db, es[..|es| - 1]), i, r, es[|es| - 1]);
    }
  }

  /** The run approves the request only: by its own approvers, each at most once, whatever else it does. */
  ghost predicate ApprovesOnly(es: seq<Event>, r: Request) {
    AreApprovers(ApproversIn(es, r), r.assignments) && forall n :: 0 <= n < |es| ==> Undisturbed(es[n], r)
  }

  lemma PrefixApprovesOnly(es: seq<Event>, r: Request)
    requires es != [] && ApprovesOnly(es, r)
    ensures ApprovesOnly(es[..|es| - 1], r) && Undisturbed(es[|es| - 1], r)
  {
    hide Undisturbed, Concerns;
    var before, all := ApproversIn(es[..|es| - 1], r), ApproversIn(es, r);
    assert before <= all;
    assert forall j :: 0 <= j < |before| ==> before[j] == all[j];
    assert forall u :: u in before ==> u in all;
  }

  /** No approval of the request in the run is refused. */
  ghost predicate ApprovalsSucceed(db: Db, es: seq<Event>, r: Request) {
    es == [] ||
    (ApprovalsSucceed(db, es[..|es| - 1], r) &&
     (Concerns(es[|es| - 1], r) ==> Apply(Run(db, es[..|es| - 1]), es[|es| - 1]).Ok?))
  }

  /**
   * In any run that otherwise leaves the request alone, however its approvals are ordered and interleaved with other
   * calls: each of them succeeds, and the request is what the set of approvers so far makes it, approved with the last.
   */
  lemma {:induction false} AnyOrderApproves(db: Db, i: nat, es: seq<Event>)
    requires RequestsOk(db.requests) && i < |db.requests| && db.requests[i].status == Submitted
    requires ApprovesOnly(es, db.requests[i])
    ensures i < |Run(db, es).requests|
    ensures Progressed(db.requests[i], Run(db, es).requests[i], ApproversIn(es, db.requests[i]))
    ensures ApprovalsSucceed(db, es, db.requests[i])
  {
    var r := db.requests[i];
    assert Agrees(r);
    FindsTheRow(db.requests, i);
    if es == [] {
      NothingProgressed(r);
    } else {
      var n := |es| - 1;
      PrefixApprovesOnly(es, r);
      RunFinds(db, i, r, es[..n]);
      hide ApprovesOnly, Undisturbed, Progressed, Apply, Step, Agrees, FindRequest, RequestsOk, Concerns;
      AnyOrderApproves(db, i, es[..n]);
      LastProgresses(Run(db, es[..n]), i, r, es);
    }
  }

  lemma LastProgresses(db: Db, i: nat, r: Request, es: seq<Event>)
    requires es != [] && ApprovesOnly(es, r) && i < |db.requests| && FindRequest(db.requests, r.id, r.org) == i
    requires Agrees(r) && Progressed(r, db.requests[i], ApproversIn(es[..|es| - 1], r))
    ensures var e := es[|es| - 1];
      i < |Step(db, e).requests| && Progressed(r, Step(db, e).requests[i], ApproversIn(es, r)) &&
      (Concerns(e, r) ==> Apply(db, e).Ok?)
  {
    var e := es[|es| - 1];
    hide Agrees, Progressed, FindRequest, Apply, Step, AreApprovers;
    if Concerns(e, r) {
      ApprovalProgresses(db, i, r, ApproversIn(es[..|es| - 1], r), e);
    } else {
      OthersLeaveIt(db, i, r, e);
      assert ApproversIn(es, r) == ApproversIn(es[..|es| - 1], r);
    }
  }

  /** Two such runs with the same approvers, in any order and among any other calls, leave the request alike. */
  lemma OrderDoesNotMatter(db: Db, i: nat, es: seq<Event>, fs: seq<Event>)
    requires RequestsOk(db.requests) && i < |db.requests| && db.requests[i].status == Submitted
    requires ApprovesOnly(es, db.requests[i]) && ApprovesOnly(fs, db.requests[i])
    requires forall u :: u in ApproversIn(es, db.requests[i]) <==> u in ApproversIn(fs, db.requests[i])
    ensures i < |Run(db, es).requests| && i < |Run(db, fs).requests|
    ensures Run(db, es).requests[i].status == Run(db, fs).requests[i].status
    ensures Run(db, es).requests[i].assignments == Run(db, fs).requests[i].assignments
  {
    hide Run, RequestsOk, ApprovesOnly;
    AnyOrderApproves(db, i, es);
    AnyOrderApproves(db, i, fs);
    var xs, a, b := db.requests[i].assignments, ApproversIn(es, db.requests[i]), ApproversIn(fs, db.requests[i]);
    assert Marked(xs, a) == Marked(xs, b);
    assert a != [] ==> a[0] in b;
    assert b != [] ==> b[0] in a;
  }
}
