/** Effective organization role, saved defaults (organization, tenant, account) and their reconciliation. */
module Context {
  import opened Collections
  import opened Directory
  import opened Access
  import Text

  /** Page size of the tenant query behind the accessible-tenant list. */
  const TENANT_PAGE := 500

  datatype User = User(id: Id, isRoot: bool)

  datatype Defaults = Defaults(org: Option<Id>, tenant: Option<Id>, account: Option<Id>)

  const NO_DEFAULTS := Defaults(None, None, None)

  // ---- effective organization and role ------------------------------------------------------

  function NormalizeMembershipRole(raw: string): string {
    var r := Text.Normalize(raw);
    if r in {"root_admin", "org_admin", "admin", "approver", "viewer", "member"} then r else "viewer"
  }

  function MembershipsOf(ms: seq<Membership>, user: Id): (r: seq<Membership>)
    ensures forall m :: m in r <==> m in ms && m.user == Some(user)
  {
    if ms == [] then []
    else
      var rest := MembershipsOf(ms[1..], user);
      assert forall m :: m in ms <==> m == ms[0] || m in ms[1..];
      if ms[0].user == Some(user) then [ms[0]] + rest else rest
  }

  function FirstIn(ms: seq<Membership>, org: Id): (r: Option<Membership>)
    ensures r.Some? <==> exists m :: m in ms && m.org == org
    ensures r.Some? ==> r.value in ms && r.value.org == org
  {
    if ms == [] then None
    else
      assert forall m :: m in ms <==> m == ms[0] || m in ms[1..];
      if ms[0].org == org then Some(ms[0]) else FirstIn(ms[1..], org)
  }

  function FirstOrg(orgs: seq<Organization>, id: Id): (r: Option<Organization>)
    ensures r.Some? ==> r.value in orgs && r.value.id == id
    ensures r.None? ==> forall o :: o in orgs ==> o.id != id
  {
    if orgs == [] then None
    else if orgs[0].id == id then Some(orgs[0])
    else FirstOrg(orgs[1..], id)
  }

  /** The only organization the memberships name, if there is exactly one. */
  function SoleOrg(ms: seq<Membership>): (r: Option<Id>)
    ensures r.Some? <==> ms != [] && forall m :: m in ms ==> m.org == ms[0].org
    ensures r.Some? ==> r.value == ms[0].org
  {
    if ms != [] && forall m :: m in ms ==> m.org == ms[0].org then Some(ms[0].org) else None
  }

  function EffectiveOrgRole(d: Tables, u: User, sessionOrg: Option<Id>): (Option<Id>, string) {
    var ms := MembershipsOf(d.memberships, u.id);
    match if sessionOrg.Some? then sessionOrg else SoleOrg(ms)
    case None => (None, "viewer")
    case Some(org) =>
      var row := FirstOrg(d.orgs, org);
      if row.Some? && row.value.status == "disabled" && !u.isRoot then (None, "viewer")
      else match FirstIn(ms, org)
        case Some(m) => (Some(org), NormalizeMembershipRole(m.role))
        case None => if u.isRoot then (Some(org), "root_admin") else (None, "viewer")
  }

  function PrincipalIn(d: Tables, u: User, sessionOrg: Option<Id>): Principal {
    var (org, role) := EffectiveOrgRole(d, u, sessionOrg);
    Principal(Some(u.id), role, org, u.isRoot)
  }

  // ---- accessible scopes ---------------------------------------------------------------------

  function ActiveOrgs(orgs: seq<Organization>): (r: seq<Id>)
    ensures forall x :: x in r <==> exists o :: o in orgs && o.id == x && o.status == "active"
  {
    if orgs == [] then []
    else
      var rest := ActiveOrgs(orgs[1..]);
      assert forall o :: o in orgs <==> o == orgs[0] || o in orgs[1..];
      if orgs[0].status == "active" then [orgs[0].id] + rest else rest
  }

  /** One row per membership in the organization, as the join returns them. */
  function RowsFor(org: Id, ms: seq<Membership>): (r: seq<Id>)
    ensures forall x :: x in r <==> x == org && exists m :: m in ms && m.org == org
  {
    if ms == [] then []
    else
      var rest := RowsFor(org, ms[1..]);
      assert forall m :: m in ms <==> m == ms[0] || m in ms[1..];
      if ms[0].org == org then [org] + rest else rest
  }

  function JoinedOrgs(orgs: seq<Id>, ms: seq<Membership>): (r: seq<Id>)
    ensures forall x :: x in r <==> x in orgs && exists m :: m in ms && m.org == x
  {
    if orgs == [] then []
    else
      assert forall x :: x in orgs <==> x == orgs[0] || x in orgs[1..];
      RowsFor(orgs[0], ms) + JoinedOrgs(orgs[1..], ms)
  }

  function AccessibleOrgs(d: Tables, u: User): (r: seq<Id>)
    ensures forall x :: x in r <==>
      (exists o :: o in d.orgs && o.id == x && o.status == "active") &&
      (u.isRoot || exists m :: m in MembershipsOf(d.memberships, u.id) && m.org == x)
  {
    if u.isRoot then ActiveOrgs(d.orgs)
    else Dedup(JoinedOrgs(ActiveOrgs(d.orgs), MembershipsOf(d.memberships, u.id)))
  }

  method AccessibleOrgIdsOrdered(d: Tables, u: User) returns (out: seq<Id>)
    ensures out == AccessibleOrgs(d, u)
  {
    if u.isRoot {
      return ActiveOrgs(d.orgs);
    }
    out := DedupLoop(JoinedOrgs(ActiveOrgs(d.orgs), MembershipsOf(d.memberships, u.id)));
  }

  function TenantsOf(tenants: seq<Tenant>, org: Id): (r: seq<Id>)
    ensures forall x :: x in r <==> exists t :: t in tenants && t.id == x && t.org == Some(org)
  {
    if tenants == [] then []
    else
      var rest := TenantsOf(tenants[1..], org);
      assert forall t :: t in tenants <==> t == tenants[0] || t in tenants[1..];
      if tenants[0].org == Some(org) then [tenants[0].id] + rest else rest
  }

  /** The first page of the organization's tenants. */
  function TenantPage(d: Tables, org: Id): (r: seq<Id>)
    ensures r <= TenantsOf(d.tenants, org)
    ensures forall x :: x in r ==> x in TenantsOf(d.tenants, org)
  {
    var all := TenantsOf(d.tenants, org);
    if |all| <= TENANT_PAGE then all else all[..TENANT_PAGE]
  }

  lemma PageTenantBelongs(d: Tables, org: Id, tenant: Id)
    requires forall s, t :: s in d.tenants && t in d.tenants && s.id == t.id ==> s == t
    requires tenant in TenantPage(d, org)
    ensures TenantOrg(d, tenant) == Some(org)
  {
    var t :| t in d.tenants && t.id == tenant && t.org == Some(org);
  }

  function Openable(d: Tables, p: Principal, ids: seq<Id>): (r: seq<Id>)
    ensures forall t :: t in r <==> t in ids && TenantHasAnyAccess(d, p, t)
  {
    if ids == [] then []
    else
      var rest := Openable(d, p, ids[1..]);
      assert forall t :: t in ids <==> t == ids[0] || t in ids[1..];
      if TenantHasAnyAccess(d, p, ids[0]) then [ids[0]] + rest else rest
  }

  method AccessibleTenantIds(d: Tables, p: Principal, org: Id) returns (out: seq<Id>)
    ensures out == Openable(d, p, TenantPage(d, org))
  {
    var raw := TenantPage(d, org);
    out := [];
    for i := 0 to |raw|
      invariant Openable(d, p, raw) == out + Openable(d, p, raw[i..])
    {
      assert raw[i..][1..] == raw[i + 1..];
      if TenantHasAnyAccess(d, p, raw[i]) {
        out := out + [raw[i]];
      }
    }
  }

  function VisibleAccounts(d: Tables, p: Principal, tenant: Id): seq<Id> {
    Visible(d, p, tenant, AccountsOf(d.accounts, tenant))
  }

  // ---- reconciliation ------------------------------------------------------------------------

  /** What a reconciled triple is: each level chosen from its list, and null exactly when that list is empty. */
  ghost predicate Settled(d: Tables, u: User, t: Defaults) {
    var orgs := AccessibleOrgs(d, u);
    if orgs == [] then t == NO_DEFAULTS
    else (t.org.Some? && t.org.value in orgs && SettledIn(d, PrincipalIn(d, u, t.org), t))
  }

  ghost predicate SettledIn(d: Tables, p: Principal, t: Defaults)
    requires t.org.Some?
  {
    var tenants := Openable(d, p, TenantPage(d, t.org.value));
    if tenants == [] then t.tenant.None? && t.account.None?
    else
      (t.tenant.Some? && t.tenant.value in tenants &&
       var accounts := VisibleAccounts(d, p, t.tenant.value);
       if accounts == [] then t.account.None? else (t.account.Some? && t.account.value in accounts))
  }

  function KeepOrFirst(current: Option<Id>, choices: seq<Id>): Option<Id> {
    if choices == [] then None
    else if current.Some? && current.value in choices then current
    else Some(choices[0])
  }

  /** The triple that reconciliation stores. */
  function Reconciled(d: Tables, u: User, currentOrg: Option<Id>, t: Defaults): Defaults {
    var orgs := AccessibleOrgs(d, u);
    if orgs == [] then NO_DEFAULTS
    else
      var orgKept := t.org.Some? && t.org.value in orgs;
      var org := if orgKept then t.org.value
                 else if currentOrg.Some? && currentOrg.value in orgs then currentOrg.value else orgs[0];
      var p := PrincipalIn(d, u, Some(org));
      var tenant := KeepOrFirst(if orgKept then t.tenant else None, Openable(d, p, TenantPage(d, org)));
      if tenant.None? then Defaults(Some(org), None, None)
      else
        var tenantKept := orgKept && tenant == t.tenant;
        Defaults(Some(org), tenant,
          KeepOrFirst(if tenantKept then t.account else None, VisibleAccounts(d, p, tenant.value)))
  }

  class UserDefaults {
    const user: User
    var org: Option<Id>
    var tenant: Option<Id>
    var account: Option<Id>

    constructor (user: User, t: Defaults)
      ensures this.user == user && Stored() == t
    {
      this.user := user;
      org, tenant, account := t.org, t.tenant, t.account;
    }

    function Stored(): Defaults
      reads this
    {
      Defaults(org, tenant, account)
    }

    /** `committed` tells whether the user row was written. */
    method Reconcile(d: Tables, p: Principal) returns (committed: bool)
      requires forall s, t :: s in d.tenants && t in d.tenants && s.id == t.id ==> s == t
      modifies this
      ensures Stored() == if p.user.None? then old(Stored()) else Reconciled(d, user, p.currentOrg, old(Stored()))
      ensures committed <==> Stored() != old(Stored())
    {
      hide AccessibleOrgs, PrincipalIn, Openable, TenantPage, Visible, AccountsOf, FirstTenant;
      committed := false;
      if p.user.None? {
        return;
      }
      var orgs := AccessibleOrgIdsOrdered(d, user);
      if orgs == [] {
        if org.Some? || tenant.Some? || account.Some? {
          org, tenant, account := None, None, None;
          committed := true;
        }
        return;
      }
      if org.Some? && org.value !in orgs {
        org, tenant, account := None, None, None;
        committed := true;
      }
      if org.None? {
        org := Some(if p.currentOrg.Some? && p.currentOrg.value in orgs then p.currentOrg.value else orgs[0]);
        tenant, account := None, None;
        committed := true;
      }
      var o := org.value;
      var q := PrincipalIn(d, user, Some(o));
      var tenants := AccessibleTenantIds(d, q, o);
      if tenants == [] {
        if tenant.Some? || account.Some? {
          tenant, account := None, None;
          committed := true;
        }
        return;
      }
      var first := tenants[0];
      if tenant.None? || tenant.value !in tenants {
        tenant, account := Some(first), None;
        committed := true;
      }
      PageTenantBelongs(d, o, tenant.value);
      var row := FirstTenant(d.tenants, tenant.value);
      var foreign := row.None? || row.value.org != Some(o);
      tenant, account := if foreign then Some(first) else tenant, if foreign then None else account;
      committed := committed || foreign;
      var accounts := FilterCloudAccountsVisible(d, q, tenant.value, AccountsOf(d.accounts, tenant.value));
      if accounts == [] {
        if account.Some? {
          account := None;
          committed := true;
        }
      } else if account.None? || account.value !in accounts {
        account := Some(accounts[0]);
        committed := true;
      }
    }
  }

  /** Whatever was stored, reconciliation settles it. */
  lemma ReconcileSettles(d: Tables, u: User, currentOrg: Option<Id>, t: Defaults)
    ensures Settled(d, u, Reconciled(d, u, currentOrg, t))
  {
    hide AccessibleOrgs, PrincipalIn, Openable, TenantPage, Visible, AccountsOf;
  }

  /** The triples reconciliation leaves alone are exactly the settled ones. */
  lemma SettledIffFixed(d: Tables, u: User, currentOrg: Option<Id>, t: Defaults)
    ensures Reconciled(d, u, currentOrg, t) == t <==> Settled(d, u, t)
  {
    ReconcileSettles(d, u, currentOrg, t);
    hide AccessibleOrgs, PrincipalIn, Openable, TenantPage, Visible, AccountsOf;
  }

  /** A second reconciliation changes nothing, even after the session has moved to another organization. */
  lemma ReconcileIdempotent(d: Tables, u: User, currentOrg: Option<Id>, later: Option<Id>, t: Defaults)
    ensures var r := Reconciled(d, u, currentOrg, t); Reconciled(d, u, later, r) == r
  {
    var r := Reconciled(d, u, currentOrg, t);
    ReconcileSettles(d, u, currentOrg, t);
    SettledIffFixed(d, u, later, r);
  }

  /** An open scope in the sense of the access rules alone, with no regard to how tenants are paged. */
  ghost predicate OpenScope(d: Tables, u: User, t: Defaults) {
    t.org.Some? && t.tenant.Some? && t.account.Some? &&
    t.org.value in AccessibleOrgs(d, u) &&
    t.tenant.value in TenantsOf(d.tenants, t.org.value) &&
    TenantHasAnyAccess(d, PrincipalIn(d, u, t.org), t.tenant.value) &&
    t.account.value in VisibleAccounts(d, PrincipalIn(d, u, t.org), t.tenant.value)
  }

  /** A complete and open triple is left as it was exactly when its tenant is on the first page of its organization. */
  lemma OpenScopeKeptIffOnFirstPage(d: Tables, u: User, currentOrg: Option<Id>, t: Defaults)
    requires OpenScope(d, u, t)
    ensures Reconciled(d, u, currentOrg, t) == t <==> t.tenant.value in TenantPage(d, t.org.value)
  {
    SettledIffFixed(d, u, currentOrg, t);
  }

  /** A tenant is chosen exactly when the first page has an open one, and the page is all tenants up to the limit. */
  lemma TenantNullIffNoneOnFirstPage(d: Tables, u: User, currentOrg: Option<Id>, t: Defaults)
    requires AccessibleOrgs(d, u) != []
    ensures var r := Reconciled(d, u, currentOrg, t);
      r.org.Some? && r.org.value in AccessibleOrgs(d, u) &&
      (r.tenant.None? <==> forall x :: x in TenantPage(d, r.org.value) ==>
        !TenantHasAnyAccess(d, PrincipalIn(d, u, r.org), x)) &&
      (|TenantsOf(d.tenants, r.org.value)| <= TENANT_PAGE ==>
        TenantPage(d, r.org.value) == TenantsOf(d.tenants, r.org.value))
  {
    var r := Reconciled(d, u, currentOrg, t);
    var open := Openable(d, PrincipalIn(d, u, r.org), TenantPage(d, r.org.value));
    if open != [] {
      assert open[0] in open;
    }
  }

  /** Tenants from, from + 1, ..., n - 1, all of organization 0. */
  function Numbered(from: nat, n: nat): (r: seq<Tenant>)
    requires from <= n
    ensures |r| == n - from
    ensures forall i :: 0 <= i < |r| ==> r[i] == Tenant(from + i, Some(0))
    ensures |TenantsOf(r, 0)| == |r| && forall i :: 0 <= i < |r| ==> TenantsOf(r, 0)[i] == from + i
    decreases n - from
  {
    if from == n then [] else [Tenant(from, Some(0))] + Numbered(from + 1, n)
  }

  lemma {:induction false} FirstNumbered(ts: seq<Tenant>, from: nat, x: nat)
    requires forall i :: 0 <= i < |ts| ==> ts[i] == Tenant(from + i, Some(0))
    requires from <= x < from + |ts|
    ensures FirstTenant(ts, x) == Some(Tenant(x, Some(0)))
  {
    if from < x {
      FirstNumbered(ts[1..], from + 1, x);
    }
  }

  /** A viewer whose one grant is for tenant `last` of an organization with tenants 0 to `last`. */
  function LateTenant(last: nat): Tables {
    Tables([Organization(0, "active")], Numbered(0, last + 1), [Account(7, last)],
      [Membership(0, Some(1), "viewer")], [Grant(0, 1, 0, last, None, "viewer")])
  }

  lemma LateTenantScope(last: nat)
    ensures var d := LateTenant(last);
      0 in AccessibleOrgs(d, User(1, false)) && TenantOrg(d, last) == Some(0) &&
      (forall i :: 0 <= i <= last ==> TenantsOf(d.tenants, 0)[i] == i) && |TenantsOf(d.tenants, 0)| == last + 1 &&
      (forall x :: TenantOrg(d, x).Some? ==> TenantOrg(d, x) == Some(0))
  {
    var d := LateTenant(last);
    FirstNumbered(d.tenants, 0, last);
    assert d.orgs[0] in d.orgs && d.memberships[0] in MembershipsOf(d.memberships, 1);
  }

  /** For that viewer, once `last` is past the first page, the saved open triple loses its tenant and account. */
  lemma TenantBeyondFirstPageIsLost(last: nat, t: Defaults)
    requires last >= TENANT_PAGE && t == Defaults(Some(0), Some(last), Some(7))
    ensures OpenScope(LateTenant(last), User(1, false), t)
    ensures Reconciled(LateTenant(last), User(1, false), None, t) == Defaults(Some(0), None, None)
  {
    var d, u := LateTenant(last), User(1, false);
    LateTenantScope(last);
    LoneGrantDecides(d, u, last, d.grants[0]);
    assert TenantsOf(d.tenants, 0)[last] == last;
    forall x | x in TenantPage(d, 0) ensures !TenantHasAnyAccess(d, PrincipalIn(d, u, Some(0)), x) {
      assert x != last;
    }
    ValidPrefixKept(d, u, None, t);
    TenantNullIffNoneOnFirstPage(d, u, None, t);
  }

  /** Reconciliation keeps the valid part of the saved triple, from the organization downwards. */
  lemma ValidPrefixKept(d: Tables, u: User, currentOrg: Option<Id>, t: Defaults)
    requires t.org.Some? && t.org.value in AccessibleOrgs(d, u)
    ensures var r := Reconciled(d, u, currentOrg, t);
      r.org == t.org && (r.tenant == None ==> r.account == None) &&
      (t.tenant.Some? && t.tenant.value in Openable(d, PrincipalIn(d, u, t.org), TenantPage(d, t.org.value)) ==>
         r.tenant == t.tenant &&
         (t.account.Some? && t.account.value in VisibleAccounts(d, PrincipalIn(d, u, t.org), t.tenant.value) ==>
            r.account == t.account))
  {
  }

  lemma NormalizedViewer()
    ensures Text.Normalize("viewer") == "viewer"
  {
    assert Text.Strip("viewer") == "viewer";
  }

  /** With one valid tenant-wide grant a viewer opens that tenant, sees its accounts, and opens no other. */
  lemma LoneGrantDecides(d: Tables, u: User, last: Id, g: Grant)
    requires u == User(1, false)
    requires d.orgs == [Organization(0, "active")] && d.memberships == [Membership(0, Some(1), "viewer")]
    requires d.accounts == [Account(7, last)] && d.grants == [g] && g == Grant(0, 1, 0, last, None, "viewer")
    requires TenantOrg(d, last) == Some(0)
    requires forall x :: TenantOrg(d, x).Some? ==> TenantOrg(d, x) == Some(0)
    ensures TenantHasAnyAccess(d, PrincipalIn(d, u, Some(0)), last)
    ensures 7 in VisibleAccounts(d, PrincipalIn(d, u, Some(0)), last)
    ensures forall x :: x != last ==> !TenantHasAnyAccess(d, PrincipalIn(d, u, Some(0)), x)
  {
    NormalizedViewer();
    var p := PrincipalIn(d, u, Some(0));
    assert g in d.grants;
    assert d.memberships[0] in MembershipsOf(d.memberships, 1);
    assert p.role == "viewer" && p.user == Some(1);
    assert g in TenantGrants(d.grants, 1, 0, last);
    assert d.accounts[0] in d.accounts;
    assert 7 in AccountsOf(d.accounts, last);
    forall x | x != last ensures !TenantHasAnyAccess(d, p, x) {
      assert forall h :: h in TenantGrants(d.grants, 1, 0, x) ==> h in d.grants && h.tenant == x;
    }
  }

  // ---- session alignment -------------------------------------------------------------------

  /** The organization the session should hold: its own when accessible, else the saved default, else the first. */
  function SessionChoice(d: Tables, u: User, current: Option<Id>, saved: Option<Id>): Option<Id> {
    var orgs := AccessibleOrgs(d, u);
    if orgs == [] then None
    else if current.Some? && current.value in orgs then current
    else if saved.Some? && saved.value in orgs then saved
    else Some(orgs[0])
  }

  class AuthSession {
    var currentOrg: Option<Id>

    constructor (org: Option<Id>)
      ensures currentOrg == org
    {
      currentOrg := org;
    }

    method EnsureOrganizationValid(d: Tables, u: User, saved: Option<Id>) returns (p: Principal)
      modifies this
      ensures currentOrg == SessionChoice(d, u, old(currentOrg), saved)
      ensures p == PrincipalIn(d, u, currentOrg)
    {
      var orgs := AccessibleOrgIdsOrdered(d, u);
      if orgs == [] {
        if currentOrg.Some? {
          currentOrg := None;
        }
        return PrincipalIn(d, u, currentOrg);
      }
      var chosen := Some(orgs[0]);
      if currentOrg.Some? && currentOrg.value in orgs {
        chosen := currentOrg;
      } else if saved.Some? && saved.value in orgs {
        chosen := saved;
      }
      if chosen != currentOrg {
        currentOrg := chosen;
      }
      p := PrincipalIn(d, u, currentOrg);
    }
  }

  /** A membership role as it reaches the principal: one of the six known texts, anything else being viewer. */
  ghost predicate ShownAs(stored: string, role: string) {
    var t := Text.Normalize(stored);
    role == if t in {"root_admin", "org_admin", "admin", "approver", "member"} then t else "viewer"
  }

  /**
   * Who the principal is in a session's organization: a member with the role of the membership; a root user without one
   * as root admin; nobody else; and in a disabled organization only root users.
   */
  lemma PrincipalMeans(d: Tables, u: User, org: Id)
    requires forall o, o' :: o in d.orgs && o' in d.orgs && o.id == o'.id ==> o == o'
    requires forall m, m' ::
      m in d.memberships && m' in d.memberships && m.user == m'.user && m.org == m'.org ==> m == m'
    ensures var p := PrincipalIn(d, u, Some(org));
      p.user == Some(u.id) && p.isRoot == u.isRoot
    ensures !u.isRoot && (exists o :: o in d.orgs && o.id == org && o.status == "disabled") ==>
      PrincipalIn(d, u, Some(org)).currentOrg == None && PrincipalIn(d, u, Some(org)).role == "viewer"
    ensures u.isRoot || (forall o :: o in d.orgs && o.id == org ==> o.status != "disabled") ==>
      (forall m :: m in d.memberships && m.user == Some(u.id) && m.org == org ==>
         PrincipalIn(d, u, Some(org)).currentOrg == Some(org) && ShownAs(m.role, PrincipalIn(d, u, Some(org)).role))
    ensures (forall m :: m in d.memberships && m.user == Some(u.id) ==> m.org != org) ==>
      if u.isRoot
      then PrincipalIn(d, u, Some(org)).currentOrg == Some(org) && PrincipalIn(d, u, Some(org)).role == "root_admin"
      else PrincipalIn(d, u, Some(org)).currentOrg == None && PrincipalIn(d, u, Some(org)).role == "viewer"
  {
    var ms := MembershipsOf(d.memberships, u.id);
    hide Text.Normalize;
    assert FirstOrg(d.orgs, org).Some? || FirstOrg(d.orgs, org).None?;
    assert FirstIn(ms, org).Some? || FirstIn(ms, org).None?;
    forall m | m in d.memberships && m.user == Some(u.id) && m.org == org ensures FirstIn(ms, org) == Some(m) {
      assert m in ms;
      var f := FirstIn(ms, org).value;
      assert f in ms && f in d.memberships;
    }
    hide MembershipsOf, FirstIn, FirstOrg;
  }

  /** What the services store: one row per id, each active or disabled, and memberships in stored organizations. */
  ghost predicate OrgsStored(d: Tables) {
    (forall o, o' :: o in d.orgs && o' in d.orgs && o.id == o'.id ==> o == o') &&
    (forall o :: o in d.orgs ==> o.status in {"active", "disabled"}) &&
    (forall m :: m in d.memberships ==> exists o :: o in d.orgs && o.id == m.org)
  }

  /**
   * After alignment the principal acts in the session's organization, an accessible one. With no accessible
   * organization the session is cleared, and the principal still names one exactly when a root user's memberships
   * name that one, disabled, organization and no other.
   */
  lemma AlignedPrincipal(d: Tables, u: User, current: Option<Id>, saved: Option<Id>)
    requires OrgsStored(d)
    ensures var s := SessionChoice(d, u, current, saved);
      var p := PrincipalIn(d, u, s);
      if AccessibleOrgs(d, u) != [] then
        s.Some? && s.value in AccessibleOrgs(d, u) && p.currentOrg == s &&
        SessionChoice(d, u, s, saved) == s
      else
        s == None &&
        p.currentOrg == if u.isRoot then SoleOrg(MembershipsOf(d.memberships, u.id)) else None
  {
    if AccessibleOrgs(d, u) != [] {
      ActsInAccessible(d, u, SessionChoice(d, u, current, saved));
    } else {
      ActsInNone(d, u);
    }
    hide AccessibleOrgs, PrincipalIn, OrgsStored, MembershipsOf, SoleOrg;
  }

  lemma ActsInAccessible(d: Tables, u: User, org: Option<Id>)
    requires OrgsStored(d) && org.Some? && org.value in AccessibleOrgs(d, u)
    ensures PrincipalIn(d, u, org).currentOrg == org
  {
    var o :| o in d.orgs && o.id == org.value && o.status == "active";
    assert FirstOrg(d.orgs, org.value) == Some(o);
    hide AccessibleOrgs, MembershipsOf, Text.Normalize, NormalizeMembershipRole;
  }

  lemma ActsInNone(d: Tables, u: User)
    requires OrgsStored(d) && AccessibleOrgs(d, u) == []
    ensures PrincipalIn(d, u, None).currentOrg == if u.isRoot then SoleOrg(MembershipsOf(d.memberships, u.id)) else None
  {
    var ms := MembershipsOf(d.memberships, u.id);
    if SoleOrg(ms).Some? {
      assert ms[0] in ms && ms[0] in d.memberships;
      var o :| o in d.orgs && o.id == ms[0].org;
      assert FirstOrg(d.orgs, o.id) == Some(o);
      assert o.id !in AccessibleOrgs(d, u);
    }
    hide AccessibleOrgs, MembershipsOf, SoleOrg, FirstOrg, Text.Normalize, NormalizeMembershipRole;
  }

  /** A root user whose one membership is in a disabled organization keeps acting in it after the session is cleared. */
  lemma RootActsInDisabledOrg(role: string)
    ensures var d := Tables([Organization(0, "disabled")], [], [], [Membership(0, Some(1), role)], []);
      var u := User(1, true);
      OrgsStored(d) && AccessibleOrgs(d, u) == [] && SessionChoice(d, u, Some(0), None) == None &&
      PrincipalIn(d, u, None).currentOrg == Some(0)
  {
    var d := Tables([Organization(0, "disabled")], [], [], [Membership(0, Some(1), role)], []);
    var u := User(1, true);
    assert d.orgs[0] in d.orgs && d.memberships[0] in d.memberships;
    assert d.memberships[0] in MembershipsOf(d.memberships, 1);
    assert ActiveOrgs(d.orgs[1..]) == [];
    AlignedPrincipal(d, u, Some(0), None);
  }
}
