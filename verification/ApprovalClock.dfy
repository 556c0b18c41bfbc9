/** Why creation times must increase: at one clock value two requests of one scope can be open. */
module ApprovalClock {
  import opened Collections
  import opened Directory
  import opened ApprovalModel
  import opened ApprovalProtocol
  import opened ApprovalTheorems
  import Text

  /** The checks that a creation passed on empty tables pass again while the recommendation is undecided. */
  lemma CheckedAgain(db: Db, w: World, a: CreateArgs, scope: Scope)
    requires CreateCheck(EMPTY, w, a) == Ok(scope)
    requires WorkflowOf(db.workflow, a.rec) in {Suggested, WorkflowRejected} && !HasOpenRequest(db.requests, scope)
    ensures CreateCheck(db, w, a) == Ok(scope)
    ensures scope.rec == a.rec && RecExists(w, a.rec, scope.tenant, scope.account) && Dedup(a.approvers) != []
  {
    hide ApproverFault, OwnerFault, HasOpenRequest, Dedup, TenantOrg, FirstAccount;
  }

  /** A decision on the only request. */
  lemma SoleRequestPasses(db: Db, w: World, a: CreateArgs, scope: Scope, who: Actor, now: int)
    requires db.requests == [NewRequest(1, a.org, scope, Dedup(a.approvers), now)] && who.user in a.approvers
    requires MayApprove(w.tables, a.org, scope, who)
    ensures DecisionCheck(db, w, 1, a.org, who).Ok? && DecisionCheck(db, w, 1, a.org, who).value.0 == 0
  {
    var users := Dedup(a.approvers);
    var j :| 0 <= j < |users| && users[j] == who.user;
    assert db.requests[0].assignments[j].approver == who.user;
    hide Dedup, MayApprove;
  }

  /** The request is created, and its rejection leaves nothing open. */
  lemma CreatedAndRejected(w: World, a: CreateArgs, scope: Scope, who: Actor, comment: string, now: int)
    requires CreateCheck(EMPTY, w, a) == Ok(scope) && who.user in a.approvers
    requires MayApprove(w.tables, a.org, scope, who) && Text.Strip(comment) != ""
    ensures var db1 := Step(EMPTY, Event(w, now, DoCreate(a, 1)));
      var db := Step(db1, Event(w, now, DoReject(1, a.org, who, comment, false)));
      |db.requests| == 1 && db.requests[0].status == Rejected && db.requests[0].createdAt == now &&
      db.requests[0].scope == scope && WorkflowOf(db.workflow, a.rec) == WorkflowRejected
  {
    CheckedAgain(EMPTY, w, a, scope);
    hide Dedup, MayApprove, CreateCheck;
    var db1 := Step(EMPTY, Event(w, now, DoCreate(a, 1)));
    assert db1.requests == [NewRequest(1, a.org, scope, Dedup(a.approvers), now)];
    SoleRequestPasses(db1, w, a, scope, who, now);
    hide DecisionCheck, FindAssignment, BatchOnRejected;
  }

  /** With a closed request first, one more creation at the same time changes nothing that the next one checks. */
  lemma CreatedBehind(db: Db, w: World, a: CreateArgs, scope: Scope, newId: Id, now: int)
    requires CreateCheck(EMPTY, w, a) == Ok(scope) && WorkflowOf(db.workflow, a.rec) == WorkflowRejected
    requires 1 <= |db.requests| <= 2 && db.requests[0].status == Rejected
    requires forall i :: 0 <= i < |db.requests| ==> db.requests[i].scope == scope && db.requests[i].createdAt == now
    ensures var t := Step(db, Event(w, now, DoCreate(a, newId)));
      |t.requests| == |db.requests| + 1 && t.requests[..|db.requests|] == db.requests &&
      t.requests[|db.requests|].scope == scope && t.requests[|db.requests|].createdAt == now &&
      Open(t.requests[|db.requests|]) && WorkflowOf(t.workflow, a.rec) == WorkflowRejected
  {
    FirstWinsTies(db.requests, scope);
    CheckedAgain(db, w, a, scope);
    hide CreateCheck, Latest, HasOpenRequest, Dedup;
  }

  /** Among requests of one scope and one time the first row counts as the newest. */
  lemma FirstWinsTies(rs: seq<Request>, scope: Scope)
    requires rs != [] && forall i :: 0 <= i < |rs| ==> rs[i].scope == scope && rs[i].createdAt == rs[0].createdAt
    ensures Latest(rs, scope) == 0
  {
    assert Latest(rs[1..], scope) < |rs| - 1 ==> rs[1..][Latest(rs[1..], scope)] == rs[Latest(rs[1..], scope) + 1];
  }

  /** Behind one rejected request of that time, two more creations both pass. */
  lemma TwoMore(db: Db, w: World, a: CreateArgs, scope: Scope, now: int)
    requires CreateCheck(EMPTY, w, a) == Ok(scope) && WorkflowOf(db.workflow, a.rec) == WorkflowRejected
    requires |db.requests| == 1 && db.requests[0].status == Rejected
    requires db.requests[0].scope == scope && db.requests[0].createdAt == now
    ensures var rs := Step(Step(db, Event(w, now, DoCreate(a, 2))), Event(w, now, DoCreate(a, 3))).requests;
      |rs| == 3 && rs[1].scope == rs[2].scope == scope && Open(rs[1]) && Open(rs[2])
  {
    hide Step, CreateCheck, Open, WorkflowOf;
    CreatedBehind(db, w, a, scope, 2, now);
    var mid := Step(db, Event(w, now, DoCreate(a, 2)));
    assert mid.requests[0] == mid.requests[..1][0];
    CreatedBehind(mid, w, a, scope, 3, now);
    var end := Step(mid, Event(w, now, DoCreate(a, 3)));
    assert end.requests[1] == end.requests[..2][1];
  }

  /** The rows after the four calls. */
  lemma FourCalls(w: World, a: CreateArgs, scope: Scope, who: Actor, comment: string, now: int)
    requires CreateCheck(EMPTY, w, a) == Ok(scope) && who.user in a.approvers
    requires MayApprove(w.tables, a.org, scope, who) && Text.Strip(comment) != ""
    ensures var db1 := Step(EMPTY, Event(w, now, DoCreate(a, 1)));
      var db2 := Step(db1, Event(w, now, DoReject(1, a.org, who, comment, false)));
      var rs := Step(Step(db2, Event(w, now, DoCreate(a, 2))), Event(w, now, DoCreate(a, 3))).requests;
      |rs| == 3 && rs[1].scope == rs[2].scope == scope && Open(rs[1]) && Open(rs[2])
  {
    hide Step, CreateCheck, MayApprove, Text.Strip, Open, WorkflowOf;
    CreatedAndRejected(w, a, scope, who, comment, now);
    var db1 := Step(EMPTY, Event(w, now, DoCreate(a, 1)));
    TwoMore(Step(db1, Event(w, now, DoReject(1, a.org, who, comment, false))), w, a, scope, now);
  }

  /** Create, reject, create, create at one clock value ends with two open requests of one scope. */
  lemma OneClockTwoOpen(w: World, a: CreateArgs, scope: Scope, who: Actor, comment: string, now: int)
    requires CreateCheck(EMPTY, w, a) == Ok(scope) && who.user in a.approvers
    requires MayApprove(w.tables, a.org, scope, who) && Text.Strip(comment) != ""
    ensures var calls := [DoCreate(a, 1), DoReject(1, a.org, who, comment, false), DoCreate(a, 2), DoCreate(a, 3)];
      var rs := Run(EMPTY, AtOnce(w, now, calls)).requests;
      |rs| == 3 && rs[1].scope == rs[2].scope == scope && Open(rs[1]) && Open(rs[2])
  {
    var calls := [DoCreate(a, 1), DoReject(1, a.org, who, comment, false), DoCreate(a, 2), DoCreate(a, 3)];
    RunFour(EMPTY, AtOnce(w, now, calls));
    FourCalls(w, a, scope, who, comment, now);
    hide Step, Run, CreateCheck, MayApprove, Text.Strip, Open;
  }

  lemma RunFour(db: Db, es: seq<Event>)
    requires |es| == 4
    ensures Run(db, es) == Step(Step(Step(Step(db, es[0]), es[1]), es[2]), es[3])
  {
    hide Step;
    assert es[..3][..2] == es[..2] && es[..2][..1] == es[..1] && es[..1][..0] == [];
    assert Run(db, es[..1]) == Step(db, es[0]);
    assert Run(db, es[..2]) == Step(Run(db, es[..1]), es[1]);
    assert Run(db, es[..3]) == Step(Run(db, es[..2]), es[2]);
  }

  function AtOnce(w: World, now: int, calls: seq<Call>): (es: seq<Event>)
    ensures |es| == |calls| && forall i :: 0 <= i < |es| ==> es[i] == Event(w, now, calls[i])
  {
    seq(|calls|, i requires 0 <= i < |calls| => Event(w, now, calls[i]))
  }

  // ---- a world in which it happens --------------------------------------------------------------------

  lemma ApproverNormalizes()
    ensures Text.Normalize("approver") == "approver"
  {
    assert Text.Strip("approver") == "approver";
  }

  function SmallTables(): Tables {
    Tables([], [Tenant(1, Some(0))], [Account(2, 1)], [Membership(0, Some(3), "approver")], [])
  }

  lemma MemberMayApprove()
    ensures MemberRole(SmallTables().memberships, 0, 3) == Some("approver")
    ensures MayApprove(SmallTables(), 0, Scope(1, 2, 4), Actor(3, "approver", false))
  {
    ApproverNormalizes();
  }

  lemma SmallChecksPass()
    ensures Dedup([3]) == [3]
    ensures ApproverFault(SmallTables(), 0, Scope(1, 2, 4), [3]) == None
    ensures OwnerFault(SmallTables(), 0, Scope(1, 2, 4), 3) == None
  {
    MemberMayApprove();
    hide MayApprove, MemberRole, SmallTables, Text.Normalize;
    assert [3][..0] == [] && [3][1..] == [];
    assert Dedup<Id>([]) == [];
    assert ApproverFault(SmallTables(), 0, Scope(1, 2, 4), []) == None;
  }

  /** One account, one recommendation and one member with the approver role. */
  lemma SmallWorld() returns (w: World, a: CreateArgs, scope: Scope, who: Actor)
    ensures CreateCheck(EMPTY, w, a) == Ok(scope) && who.user in a.approvers
    ensures MayApprove(w.tables, a.org, scope, who)
  {
    w := World(SmallTables(), map[4 := Recommendation(1, 2, "s3_add_required_tags")]);
    a := CreateArgs(0, 2, 4, [3], 3, "all_required", true);
    scope := Scope(1, 2, 4);
    who := Actor(3, "approver", false);
    MemberMayApprove();
    SmallChecksPass();
    hide MayApprove, MemberRole, ApproverFault, OwnerFault, Dedup;
  }

  ghost predicate AllAt(es: seq<Event>, now: int) {
    forall n :: 0 <= n < |es| ==> es[n].now == now
  }

  ghost predicate TwoOpen(rs: seq<Request>) {
    exists i, j :: 0 <= i < j < |rs| && rs[i].scope == rs[j].scope && Open(rs[i]) && Open(rs[j])
  }

  /** Strictly increasing creation times are needed: some run at one clock value opens two requests of one scope. */
  lemma EqualTimesOpenTwo(now: int)
    ensures exists es :: AllAt(es, now) && TwoOpen(Run(EMPTY, es).requests)
  {
    var w, a, scope, who := SmallWorld();
    assert Text.Strip("no") == "no";
    OneClockTwoOpen(w, a, scope, who, "no", now);
    var es := AtOnce(w, now, [DoCreate(a, 1), DoReject(1, a.org, who, "no", false), DoCreate(a, 2), DoCreate(a, 3)]);
    hide Run, Open, CreateCheck, MayApprove;
    assert AllAt(es, now);
    assert Run(EMPTY, es).requests[1].scope == Run(EMPTY, es).requests[2].scope;
    assert TwoOpen(Run(EMPTY, es).requests);
  }
}
