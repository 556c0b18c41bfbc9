/** The rows the access and context services query, each table in the order its query returns it. */
module Directory {
  import opened Collections

  datatype Organization = Organization(id: Id, status: string)
  datatype Tenant = Tenant(id: Id, org: Option<Id>)
  datatype Account = Account(id: Id, tenant: Id)
  datatype Membership = Membership(org: Id, user: Option<Id>, role: string)
  datatype Grant = Grant(id: Id, user: Id, org: Id, tenant: Id, account: Option<Id>, role: string)

  /** Organizations and accounts by name, tenants by creation time. */
  datatype Tables = Tables(
    orgs: seq<Organization>,
    tenants: seq<Tenant>,
    accounts: seq<Account>,
    memberships: seq<Membership>,
    grants: seq<Grant>)

  /** The request's principal; `user` is absent for development headers. */
  datatype Principal = Principal(user: Option<Id>, role: string, currentOrg: Option<Id>, isRoot: bool)

  function FirstTenant(tenants: seq<Tenant>, id: Id): (r: Option<Tenant>)
    ensures r.Some? ==> r.value in tenants && r.value.id == id
    ensures r.None? ==> forall t :: t in tenants ==> t.id != id
  {
    if tenants == [] then None
    else if tenants[0].id == id then Some(tenants[0])
    else FirstTenant(tenants[1..], id)
  }

  /** The organization a tenant belongs to, if the tenant exists and has one. */
  function TenantOrg(d: Tables, tenant: Id): Option<Id> {
    match FirstTenant(d.tenants, tenant)
    case None => None
    case Some(t) => t.org
  }

  function AccountsOf(accounts: seq<Account>, tenant: Id): (r: seq<Id>)
    ensures forall a :: a in r <==> exists x :: x in accounts && x.tenant == tenant && x.id == a
  {
    if accounts == [] then []
    else
      var rest := AccountsOf(accounts[1..], tenant);
      assert forall x :: x in accounts <==> x == accounts[0] || x in accounts[1..];
      if accounts[0].tenant == tenant then [accounts[0].id] + rest else rest
  }
}

/** Operational access to a tenant and cloud account, resolved from membership and grants. */
module Access {
  import opened Collections
  import opened Directory
  import Text

  datatype Level = NoAccess | Viewer | Approver | Admin

  function Rank(l: Level): nat {
    match l
    case NoAccess => 0
    case Viewer => 1
    case Approver => 2
    case Admin => 3
  }

  function MaxLevel(a: Level, b: Level): Level {
    if Rank(a) >= Rank(b) then a else b
  }

  /** A stored grant role; any other text gives nothing. */
  function RoleOfText(raw: string): Level {
    var r := Text.Normalize(raw);
    if r == "viewer" then Viewer
    else if r == "approver" then Approver
    else if r == "admin" then Admin
    else NoAccess
  }

  function OrgWideAdmin(membershipRole: string): bool {
    Text.Normalize(membershipRole) in {"org_admin", "root_admin", "admin"}
  }

  function LegacyRole(membershipRole: string): (r: Option<Level>)
    ensures r.Some? ==> r.value != NoAccess
  {
    var m := Text.Normalize(membershipRole);
    if m in {"org_admin", "root_admin", "admin"} then Some(Admin)
    else if m == "approver" then Some(Approver)
    else if m == "viewer" then Some(Viewer)
    else None
  }

  function LegacyLevel(membershipRole: string): Level {
    match LegacyRole(membershipRole)
    case None => NoAccess
    case Some(l) => l
  }

  // ---- grants ---------------------------------------------------------------------------

  function HasGrantInOrg(grants: seq<Grant>, user: Id, org: Id): bool {
    exists g :: g in grants && g.user == user && g.org == org
  }

  function TenantGrants(grants: seq<Grant>, user: Id, org: Id, tenant: Id): (r: seq<Grant>)
    ensures forall g :: g in r <==> g in grants && g.user == user && g.org == org && g.tenant == tenant
  {
    if grants == [] then []
    else
      var rest := TenantGrants(grants[1..], user, org, tenant);
      var g := grants[0];
      assert forall x :: x in grants <==> x == g || x in grants[1..];
      if g.user == user && g.org == org && g.tenant == tenant then [g] + rest else rest
  }

  function WithScope(rows: seq<Grant>, account: Option<Id>): (r: seq<Grant>)
    ensures forall g :: g in r <==> g in rows && g.account == account
  {
    if rows == [] then []
    else
      var rest := WithScope(rows[1..], account);
      assert forall x :: x in rows <==> x == rows[0] || x in rows[1..];
      if rows[0].account == account then [rows[0]] + rest else rest
  }

  /** Account rows when there are any, tenant-wide rows otherwise. */
  function Chosen(rows: seq<Grant>, account: Id): (r: seq<Grant>)
    ensures forall g :: g in r ==> g in rows
    ensures (exists g :: g in rows && (g.account == None || g.account == Some(account))) ==> r != []
  {
    var acct := WithScope(rows, Some(account));
    if acct != [] then acct else WithScope(rows, None)
  }

  /** The greatest level any of the rows gives. */
  function BestOf(rows: seq<Grant>): (r: Level)
    ensures forall g :: g in rows ==> Rank(RoleOfText(g.role)) <= Rank(r)
    ensures r != NoAccess ==> exists g :: g in rows && RoleOfText(g.role) == r
  {
    if rows == [] then NoAccess
    else
      assert forall g :: g in rows <==> g in rows[..|rows| - 1] || g == rows[|rows| - 1];
      MaxLevel(BestOf(rows[..|rows| - 1]), RoleOfText(rows[|rows| - 1].role))
  }

  method BestRoleFromGrantRows(rows: seq<Grant>, account: Id) returns (best: Level)
    ensures best == BestOf(Chosen(rows, account))
    ensures best == Admin <==> Stores(Chosen(rows, account), "admin")
    ensures best == Approver <==> Stores(Chosen(rows, account), "approver") && best != Admin
    ensures best == Viewer <==> Stores(Chosen(rows, account), "viewer") && best !in {Admin, Approver}
  {
    hide Text.Normalize, Chosen, WithScope;
    var chosen := Chosen(rows, account);
    best := NoAccess;
    for i := 0 to |chosen|
      invariant best == BestOf(chosen[..i])
    {
      assert chosen[..i + 1][..i] == chosen[..i];
      var ar := RoleOfText(chosen[i].role);
      hide RoleOfText;
      if ar == NoAccess {
        continue;
      }
      best := MaxLevel(best, ar);
    }
    assert chosen[..|chosen|] == chosen;
    BestByTexts(chosen);
  }

  // ---- resolution -----------------------------------------------------------------------

  /** Access of a named member, without a request principal. */
  function ResolveForUser(grants: seq<Grant>, user: Id, org: Id, tenant: Id, account: Id, role: string, isRoot: bool)
    : Level
  {
    if isRoot then Admin
    else if OrgWideAdmin(role) then Admin
    else if !HasGrantInOrg(grants, user, org) then LegacyLevel(role)
    else BestOf(Chosen(TenantGrants(grants, user, org, tenant), account))
  }

  function Resolve(d: Tables, p: Principal, tenant: Id, account: Id): Level {
    if p.isRoot then Admin
    else match TenantOrg(d, tenant)
      case None => NoAccess
      case Some(org) =>
        if p.user.None? then LegacyLevel(p.role)
        else ResolveForUser(d.grants, p.user.value, org, tenant, account, p.role, false)
  }

  function TenantHasAnyAccess(d: Tables, p: Principal, tenant: Id): bool {
    match TenantOrg(d, tenant)
    case None => false
    case Some(org) =>
      if p.isRoot then true
      else if p.user.None? then LegacyLevel(p.role) != NoAccess
      else if OrgWideAdmin(p.role) then true
      else if !HasGrantInOrg(d.grants, p.user.value, org) then LegacyRole(p.role).Some?
      else
        var rows := TenantGrants(d.grants, p.user.value, org, tenant);
        (exists g :: g in rows && g.account.None?) ||
        (exists a :: a in AccountsOf(d.accounts, tenant) && exists g :: g in rows && g.account == Some(a))
  }

  function Visible(d: Tables, p: Principal, tenant: Id, accounts: seq<Id>): (r: seq<Id>)
    ensures forall a :: a in r <==> a in accounts && Resolve(d, p, tenant, a) != NoAccess
  {
    if accounts == [] then []
    else
      var rest := Visible(d, p, tenant, accounts[1..]);
      assert forall a :: a in accounts <==> a == accounts[0] || a in accounts[1..];
      if Resolve(d, p, tenant, accounts[0]) != NoAccess then [accounts[0]] + rest else rest
  }

  method FilterCloudAccountsVisible(d: Tables, p: Principal, tenant: Id, accounts: seq<Id>) returns (out: seq<Id>)
    ensures out == Visible(d, p, tenant, accounts)
  {
    out := [];
    for i := 0 to |accounts|
      invariant Visible(d, p, tenant, accounts) == out + Visible(d, p, tenant, accounts[i..])
    {
      assert accounts[i..][1..] == accounts[i + 1..];
      if Resolve(d, p, tenant, accounts[i]) != NoAccess {
        out := out + [accounts[i]];
      }
    }
  }

  // ---- what stored texts give ---------------------------------------------------------------

  /** A role text that means something. */
  ghost predicate KnownRole(text: string) {
    Text.Normalize(text) in {"viewer", "approver", "admin"}
  }

  lemma KnownGives(text: string)
    ensures KnownRole(text) <==> RoleOfText(text) != NoAccess
  {
    hide Text.Normalize;
  }

  /** Some row stores the role, up to white space and capitals. */
  ghost predicate Stores(rows: seq<Grant>, text: string) {
    exists g :: g in rows && Text.Normalize(g.role) == text
  }

  /** The greatest role text among the rows, in the order viewer, approver, admin, decides; other texts give nothing. */
  lemma {:induction false} BestByTexts(rows: seq<Grant>)
    ensures BestOf(rows) == Admin <==> Stores(rows, "admin")
    ensures BestOf(rows) == Approver <==> Stores(rows, "approver") && !Stores(rows, "admin")
    ensures BestOf(rows) == Viewer <==> Stores(rows, "viewer") && !Stores(rows, "approver") && !Stores(rows, "admin")
  {
    if rows != [] {
      var n := |rows| - 1;
      BestByTexts(rows[..n]);
      StoresOneMore(rows, "admin");
      StoresOneMore(rows, "approver");
      StoresOneMore(rows, "viewer");
      hide Text.Normalize, Stores;
    }
  }

  lemma StoresOneMore(rows: seq<Grant>, text: string)
    requires rows != []
    ensures var n := |rows| - 1; Stores(rows, text) <==> Stores(rows[..n], text) || Text.Normalize(rows[n].role) == text
  {
    hide Text.Normalize;
    var n := |rows| - 1;
    assert forall g :: g in rows <==> g in rows[..n] || g == rows[n];
  }

  /** The level that a stored text alone gives. */
  ghost predicate Gives(text: string, level: Level) {
    (level == Admin <==> Text.Normalize(text) == "admin") &&
    (level == Approver <==> Text.Normalize(text) == "approver") &&
    (level == Viewer <==> Text.Normalize(text) == "viewer")
  }

  lemma RoleGives(text: string, level: Level)
    ensures Gives(text, level) <==> level == RoleOfText(text)
  {
    hide Text.Normalize;
  }

  /** A grant of the user for the tenant that decides for the account: its own, or tenant-wide where it has none. */
  ghost predicate Decides(gs: seq<Grant>, user: Id, org: Id, tenant: Id, account: Id, g: Grant) {
    g in gs && g.user == user && g.org == org && g.tenant == tenant &&
    (g.account == Some(account) ||
     (g.account == None &&
      forall h :: h in gs && h.user == user && h.org == org && h.tenant == tenant ==> h.account != Some(account)))
  }

  lemma DecidesIff(gs: seq<Grant>, user: Id, org: Id, tenant: Id, account: Id, g: Grant)
    ensures g in Chosen(TenantGrants(gs, user, org, tenant), account) <==> Decides(gs, user, org, tenant, account, g)
  {
    var own := WithScope(TenantGrants(gs, user, org, tenant), Some(account));
    assert own != [] ==> own[0] in own;
  }

  ghost predicate DecidedAs(gs: seq<Grant>, user: Id, org: Id, tenant: Id, account: Id, text: string) {
    exists g :: Decides(gs, user, org, tenant, account, g) && Text.Normalize(g.role) == text
  }

  lemma DecidedIff(gs: seq<Grant>, user: Id, org: Id, tenant: Id, account: Id, text: string)
    ensures Stores(Chosen(TenantGrants(gs, user, org, tenant), account), text) <==>
      DecidedAs(gs, user, org, tenant, account, text)
  {
    hide Text.Normalize, Chosen, TenantGrants, Decides;
    var chosen := Chosen(TenantGrants(gs, user, org, tenant), account);
    forall g ensures g in chosen <==> Decides(gs, user, org, tenant, account, g) {
      DecidesIff(gs, user, org, tenant, account, g);
    }
  }

  /** Access to everything in the organization, from being root or from the membership text. */
  ghost predicate WideByText(role: string, isRoot: bool) {
    isRoot || Text.Normalize(role) in {"org_admin", "root_admin", "admin"}
  }

  ghost predicate HoldsGrant(gs: seq<Grant>, user: Id, org: Id) {
    exists g :: g in gs && g.user == user && g.org == org
  }

  /**
   * Operational access in stored texts alone: root users and organization admins have everything; a member without any
   * grant in the organization has what the membership says; any other member what the deciding grants say.
   */
  lemma AccessByTexts(gs: seq<Grant>, user: Id, org: Id, tenant: Id, account: Id, role: string, isRoot: bool)
    ensures var level := ResolveForUser(gs, user, org, tenant, account, role, isRoot);
      var wide, granted := WideByText(role, isRoot), HoldsGrant(gs, user, org);
      var admin := granted && DecidedAs(gs, user, org, tenant, account, "admin");
      var approver := if granted then DecidedAs(gs, user, org, tenant, account, "approver")
                      else Text.Normalize(role) == "approver";
      var viewer := if granted then DecidedAs(gs, user, org, tenant, account, "viewer")
                    else Text.Normalize(role) == "viewer";
      (level == Admin <==> wide || admin) &&
      (level == Approver <==> !wide && !admin && approver) &&
      (level == Viewer <==> !wide && !admin && !approver && viewer)
  {
    BestByTexts(Chosen(TenantGrants(gs, user, org, tenant), account));
    DecidedIff(gs, user, org, tenant, account, "admin");
    DecidedIff(gs, user, org, tenant, account, "approver");
    DecidedIff(gs, user, org, tenant, account, "viewer");
    hide Text.Normalize, Stores, DecidedAs, Chosen, TenantGrants, BestOf;
  }

  /** The same for a request's principal: the tenant's organization counts, and without a user the role text alone. */
  lemma PrincipalByTexts(d: Tables, p: Principal, tenant: Id, account: Id)
    ensures p.isRoot ==> Resolve(d, p, tenant, account) == Admin
    ensures !p.isRoot && TenantOrg(d, tenant).None? ==> Resolve(d, p, tenant, account) == NoAccess
    ensures !p.isRoot && TenantOrg(d, tenant).Some? && p.user.Some? ==>
      Resolve(d, p, tenant, account) ==
      ResolveForUser(d.grants, p.user.value, TenantOrg(d, tenant).value, tenant, account, p.role, false)
    ensures !p.isRoot && TenantOrg(d, tenant).Some? && p.user.None? ==>
      var level, m := Resolve(d, p, tenant, account), Text.Normalize(p.role);
      (level == Admin <==> m in {"org_admin", "root_admin", "admin"}) && (level == Approver <==> m == "approver") &&
      (level == Viewer <==> m == "viewer")
  {
    hide Text.Normalize, ResolveForUser;
  }

  // ---- the tenant-level test and the visible accounts -------------------------------------

  /** Grants decide for this principal: a member with grants in the organization and no wider role. */
  ghost predicate DecidedByGrants(d: Tables, p: Principal, tenant: Id) {
    TenantOrg(d, tenant).Some? && !p.isRoot && p.user.Some? && !OrgWideAdmin(p.role) &&
    HasGrantInOrg(d.grants, p.user.value, TenantOrg(d, tenant).value)
  }

  /** The principal's own grants for the tenant. */
  function OwnGrants(d: Tables, p: Principal, tenant: Id): seq<Grant>
    requires TenantOrg(d, tenant).Some? && p.user.Some?
  {
    TenantGrants(d.grants, p.user.value, TenantOrg(d, tenant).value, tenant)
  }

  /**
   * Some grant of the principal reaches the tenant, tenant-wide or through one of its accounts, but none that decides
   * for an account stores a known role.
   */
  ghost predicate Blind(d: Tables, p: Principal, tenant: Id) {
    DecidedByGrants(d, p, tenant) &&
    (exists g :: g in OwnGrants(d, p, tenant) &&
       (g.account.None? || g.account.value in AccountsOf(d.accounts, tenant))) &&
    forall a, g :: a in AccountsOf(d.accounts, tenant) && g in Chosen(OwnGrants(d, p, tenant), a) ==> !KnownRole(g.role)
  }

  /** Seeing an account opens its tenant, whatever roles are stored. */
  lemma VisibilityOpensTenant(d: Tables, p: Principal, tenant: Id)
    requires TenantOrg(d, tenant).Some?
    requires Visible(d, p, tenant, AccountsOf(d.accounts, tenant)) != []
    ensures TenantHasAnyAccess(d, p, tenant)
  {
    var a := Visible(d, p, tenant, AccountsOf(d.accounts, tenant))[0];
    assert a in Visible(d, p, tenant, AccountsOf(d.accounts, tenant));
    if !p.isRoot && p.user.Some? && !OrgWideAdmin(p.role) {
      var org := TenantOrg(d, tenant).value;
      if HasGrantInOrg(d.grants, p.user.value, org) {
        var rows := TenantGrants(d.grants, p.user.value, org, tenant);
        var g :| g in Chosen(rows, a) && RoleOfText(g.role) != NoAccess;
        assert g in rows;
      }
    }
  }

  /**
   * For every table and principal, on a tenant with an organization and an account: the tenant-level test says whether
   * any account is visible, except exactly when the principal is blind there.
   */
  lemma TestsPartIffBlind(d: Tables, p: Principal, tenant: Id)
    requires TenantOrg(d, tenant).Some? && AccountsOf(d.accounts, tenant) != []
    ensures (TenantHasAnyAccess(d, p, tenant) <==> Visible(d, p, tenant, AccountsOf(d.accounts, tenant)) != []) <==>
      !Blind(d, p, tenant)
  {
    var accounts := AccountsOf(d.accounts, tenant);
    if Visible(d, p, tenant, accounts) != [] {
      VisibilityOpensTenant(d, p, tenant);
      SeeingIsNotBlind(d, p, tenant);
    } else if TenantHasAnyAccess(d, p, tenant) {
      UnseeingIsBlind(d, p, tenant);
    } else if DecidedByGrants(d, p, tenant) {
      ClosedIsNotBlind(d, p, tenant);
    }
  }

  lemma SeeingIsNotBlind(d: Tables, p: Principal, tenant: Id)
    requires TenantOrg(d, tenant).Some? && Visible(d, p, tenant, AccountsOf(d.accounts, tenant)) != []
    ensures !Blind(d, p, tenant)
  {
    forall g: Grant ensures KnownRole(g.role) <==> RoleOfText(g.role) != NoAccess {
      KnownGives(g.role);
    }
    hide RoleOfText, KnownRole, Chosen, TenantGrants;
    var a := Visible(d, p, tenant, AccountsOf(d.accounts, tenant))[0];
    assert a in Visible(d, p, tenant, AccountsOf(d.accounts, tenant));
    if DecidedByGrants(d, p, tenant) {
      assert Resolve(d, p, tenant, a) == BestOf(Chosen(OwnGrants(d, p, tenant), a));
    }
  }

  lemma ClosedIsNotBlind(d: Tables, p: Principal, tenant: Id)
    requires DecidedByGrants(d, p, tenant) && !TenantHasAnyAccess(d, p, tenant)
    ensures !Blind(d, p, tenant)
  {
    hide KnownRole, Chosen, OrgWideAdmin;
    var rows := OwnGrants(d, p, tenant);
    forall g | g in rows ensures g.account.Some? && g.account.value !in AccountsOf(d.accounts, tenant) {}
  }

  lemma UnseeingIsBlind(d: Tables, p: Principal, tenant: Id)
    requires TenantOrg(d, tenant).Some? && AccountsOf(d.accounts, tenant) != []
    requires TenantHasAnyAccess(d, p, tenant) && Visible(d, p, tenant, AccountsOf(d.accounts, tenant)) == []
    ensures Blind(d, p, tenant)
  {
    hide RoleOfText, KnownRole, Chosen, TenantGrants, Text.Normalize;
    var accounts := AccountsOf(d.accounts, tenant);
    forall a | a in accounts ensures Resolve(d, p, tenant, a) == NoAccess {
      assert a !in Visible(d, p, tenant, accounts);
    }
    assert accounts[0] in accounts;
    assert DecidedByGrants(d, p, tenant);
    forall a, g | a in accounts && g in Chosen(OwnGrants(d, p, tenant), a) ensures !KnownRole(g.role) {
      KnownGives(g.role);
      assert Resolve(d, p, tenant, a) == BestOf(Chosen(OwnGrants(d, p, tenant), a));
    }
  }

  /** The principal's own grants for the tenant store known roles. */
  ghost predicate OwnRolesValid(d: Tables, p: Principal, tenant: Id) {
    DecidedByGrants(d, p, tenant) ==> forall g :: g in OwnGrants(d, p, tenant) ==> KnownRole(g.role)
  }

  /** With known roles in the principal's own grants, whatever others hold, the two tests agree. */
  lemma TenantTestIsVisibility(d: Tables, p: Principal, tenant: Id)
    requires TenantOrg(d, tenant).Some? && AccountsOf(d.accounts, tenant) != []
    requires OwnRolesValid(d, p, tenant)
    ensures TenantHasAnyAccess(d, p, tenant) <==> Visible(d, p, tenant, AccountsOf(d.accounts, tenant)) != []
  {
    hide KnownRole, TenantHasAnyAccess, Visible, TenantGrants;
    TestsPartIffBlind(d, p, tenant);
    var accounts := AccountsOf(d.accounts, tenant);
    if DecidedByGrants(d, p, tenant) {
      var rows := OwnGrants(d, p, tenant);
      if g :| g in rows && (g.account.None? || g.account.value in accounts) {
        assert accounts[0] in accounts;
        var a := if g.account.None? then accounts[0] else g.account.value;
        var c := Chosen(rows, a);
        assert c != [] && c[0] in c;
        assert c[0] in rows;
      }
    }
  }

  /** One grant with an empty role opens its tenant and shows no account in it. */
  lemma UnknownRoleOpensAnEmptyTenant() returns (d: Tables, p: Principal, tenant: Id)
    ensures TenantOrg(d, tenant).Some? && AccountsOf(d.accounts, tenant) != []
    ensures TenantHasAnyAccess(d, p, tenant) && Visible(d, p, tenant, AccountsOf(d.accounts, tenant)) == []
  {
    var g := Grant(0, 1, 2, 3, None, "");
    d, p, tenant := Tables([], [Tenant(3, Some(2))], [Account(4, 3)], [], [g]), Principal(Some(1), "", None, false), 3;
    assert g in d.grants;
    var rows := TenantGrants(d.grants, 1, 2, 3);
    assert g in rows;
    assert Text.Normalize("") == "";
    var a := AccountsOf(d.accounts, tenant);
    assert Resolve(d, p, tenant, 4) == NoAccess;
    assert forall x :: x in a ==> x == 4;
    assert a[0] in a;
    if v :| v in Visible(d, p, tenant, a) {}
  }
}
