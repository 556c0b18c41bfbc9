/** The access-grant table: what create, update and delete keep, and what a stored grant then means. */
module Grants {
  import opened Collections
  import opened Directory
  import opened Access
  import Text

  datatype GrantError = BadRole | TenantNotInOrg | AccountNotInTenant | AlreadyGranted | GrantNotFound

  ghost predicate SameScope(g: Grant, h: Grant) {
    g.user == h.user && g.org == h.org && g.tenant == h.tenant && g.account == h.account
  }

  /** Distinct ids, one row per user and scope, and only normalised roles that mean something. */
  ghost predicate WellFormed(gs: seq<Grant>) {
    (forall i, j :: 0 <= i < j < |gs| ==> gs[i].id != gs[j].id && !SameScope(gs[i], gs[j])) &&
    (forall g :: g in gs ==> KnownRole(g.role) && Text.Normalize(g.role) == g.role)
  }

  function FirstGrant(gs: seq<Grant>, id: Id, org: Id): (r: nat)
    ensures r <= |gs|
    ensures r < |gs| ==> gs[r].id == id && gs[r].org == org
    ensures forall i :: 0 <= i < r ==> !(gs[i].id == id && gs[i].org == org)
  {
    FirstIndex(gs, (g: Grant) => g.id == id && g.org == org)
  }

  class GrantTable {
    var grants: seq<Grant>

    constructor ()
      ensures grants == [] && WellFormed(grants)
    {
      grants := [];
    }

    method Create(d: Tables, newId: Id, org: Id, user: Id, tenant: Id, account: Option<Id>, role: string)
      returns (r: Result<Grant, GrantError>)
      requires WellFormed(grants) && forall g :: g in grants ==> g.id != newId
      modifies this
      ensures WellFormed(grants)
      ensures r.Ok? <==>
        KnownRole(role) && TenantOrg(d, tenant) == Some(org) &&
        (account.Some? ==> exists a :: a in d.accounts && a.id == account.value && a.tenant == tenant) &&
        !(exists g :: g in old(grants) && SameScope(g, Grant(newId, user, org, tenant, account, role)))
      ensures r.Ok? ==> grants == old(grants) + [r.value] && r.value.id == newId
      ensures r.Ok? ==> SameScope(r.value, Grant(newId, user, org, tenant, account, role))
      ensures r.Ok? ==> r.value.role == Text.Normalize(role)
      ensures r.Err? ==> grants == old(grants)
      ensures r == Err(BadRole) <==> !KnownRole(role)
      ensures r == Err(AlreadyGranted) ==>
        exists g :: g in grants && SameScope(g, Grant(newId, user, org, tenant, account, role))
    {
      var ar := Text.Normalize(role);
      Text.NormalizeIdempotent(role);
      hide Text.Normalize;
      if ar != "viewer" && ar != "approver" && ar != "admin" {
        return Err(BadRole);
      }
      if TenantOrg(d, tenant) != Some(org) {
        return Err(TenantNotInOrg);
      }
      if account.Some? && !(exists a :: a in d.accounts && a.id == account.value && a.tenant == tenant) {
        return Err(AccountNotInTenant);
      }
      if exists g :: g in grants && g.user == user && g.org == org && g.tenant == tenant && g.account == account {
        return Err(AlreadyGranted);
      }
      var row := Grant(newId, user, org, tenant, account, ar);
      grants := grants + [row];
      r := Ok(row);
    }

    method Update(org: Id, id: Id, role: string) returns (r: Result<Grant, GrantError>)
      requires WellFormed(grants)
      modifies this
      ensures WellFormed(grants)
      ensures r.Ok? <==> KnownRole(role) && exists g :: g in old(grants) && g.id == id && g.org == org
      ensures r.Ok? ==> (exists i :: 0 <= i < |old(grants)| && old(grants)[i].id == id && old(grants)[i].org == org &&
                           r.value == old(grants)[i].(role := Text.Normalize(role)) &&
                           grants == old(grants)[i := r.value])
      ensures r.Err? ==> grants == old(grants)
      ensures r == Err(BadRole) <==> !KnownRole(role)
    {
      var ar := Text.Normalize(role);
      Text.NormalizeIdempotent(role);
      hide Text.Normalize;
      if ar != "viewer" && ar != "approver" && ar != "admin" {
        return Err(BadRole);
      }
      var i := FirstGrant(grants, id, org);
      if i == |grants| {
        return Err(GrantNotFound);
      }
      grants := grants[i := grants[i].(role := ar)];
      r := Ok(grants[i]);
    }

    method Delete(org: Id, id: Id) returns (r: Result<(), GrantError>)
      requires WellFormed(grants)
      modifies this
      ensures WellFormed(grants)
      ensures r.Ok? <==> exists g :: g in old(grants) && g.id == id && g.org == org
      ensures r.Ok? ==> forall g :: g in grants <==> g in old(grants) && g.id != id
      ensures r.Err? ==> grants == old(grants)
    {
      hide KnownRole, Text.Normalize;
      var i := FirstGrant(grants, id, org);
      if i == |grants| {
        return Err(GrantNotFound);
      }
      forall g | g in grants && g.id != id ensures g in grants[..i] + grants[i + 1..] {
        var k :| 0 <= k < |grants| && grants[k] == g;
        assert g == if k < i then grants[..i][k] else grants[i + 1..][k - i - 1];
      }
      grants := grants[..i] + grants[i + 1..];
      r := Ok(());
    }
  }

  /** Rows that user and tenant share with the given scope: at most one in a well-formed table. */
  lemma ScopeIsOneGrant(gs: seq<Grant>, g: Grant, h: Grant)
    requires WellFormed(gs) && g in gs && h in gs && SameScope(g, h)
    ensures g == h
  {
    var i :| 0 <= i < |gs| && gs[i] == g;
    var j :| 0 <= j < |gs| && gs[j] == h;
  }

  /**
   * In a well-formed table a user who has grants in the organization gets exactly the role of the account's own
   * grant, else of the tenant-wide one, else nothing: an account grant overrides the tenant-wide grant even downwards.
   */
  lemma AccountGrantOverrides(gs: seq<Grant>, user: Id, org: Id, tenant: Id, account: Id, role: string, level: Level)
    requires WellFormed(gs) && !OrgWideAdmin(role) && HasGrantInOrg(gs, user, org)
    requires level == ResolveForUser(gs, user, org, tenant, account, role, false)
    ensures forall g :: g in gs && SameScope(g, Grant(0, user, org, tenant, Some(account), "")) ==>
      Gives(g.role, level)
    ensures (forall g :: g in gs ==> !SameScope(g, Grant(0, user, org, tenant, Some(account), ""))) ==>
      (forall g :: g in gs && SameScope(g, Grant(0, user, org, tenant, None, "")) ==> Gives(g.role, level))
    ensures level == NoAccess <==>
      (forall g :: g in gs && (g.account == Some(account) || g.account == None) ==>
         !(g.user == user && g.org == org && g.tenant == tenant))
  {
    forall g: Grant ensures Gives(g.role, RoleOfText(g.role)) {
      RoleGives(g.role, RoleOfText(g.role));
    }
    forall g | g in gs ensures RoleOfText(g.role) != NoAccess {
      KnownGives(g.role);
    }
    hide RoleOfText, Gives, KnownRole, Text.Normalize;
    var rows := TenantGrants(gs, user, org, tenant);
    var own := WithScope(rows, Some(account));
    var chosen := Chosen(rows, account);
    forall g, h | g in chosen && h in chosen ensures g == h {
      assert SameScope(g, h);
      ScopeIsOneGrant(gs, g, h);
    }
    forall g | g in gs && g.user == user && g.org == org && g.tenant == tenant
      ensures g.account == Some(account) ==> g in chosen
      ensures g.account == None && own == [] ==> g in chosen
    {
      assert g in rows;
    }
    forall g | g in own ensures SameScope(g, Grant(0, user, org, tenant, Some(account), "")) {}
    assert own != [] ==> own[0] in own;
    assert chosen != [] ==> chosen[0] in chosen;
  }

  /** Over a well-formed table the tenant-level test is visibility, for every principal. */
  lemma WellFormedTestIsVisibility(d: Tables, p: Principal, tenant: Id)
    requires WellFormed(d.grants) && TenantOrg(d, tenant).Some? && AccountsOf(d.accounts, tenant) != []
    ensures TenantHasAnyAccess(d, p, tenant) <==> Visible(d, p, tenant, AccountsOf(d.accounts, tenant)) != []
  {
    hide RoleOfText, TenantHasAnyAccess, Visible, Text.Normalize;
    TenantTestIsVisibility(d, p, tenant);
  }
}
