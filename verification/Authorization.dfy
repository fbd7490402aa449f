/** Scope-bound authorization: internal/platform/authorization_result.go. */
module Authorization {
  import opened Wrappers
  import opened Strings
  import opened Sorting

  type Id = string

  const PLATFORM_ID: Id := "00000000-0000-0000-0000-000000000001"

  datatype ScopeType = PlatformScope | MspScope | ClientScope | SiteScope | UnknownScope

  /** LegacyRole stands for the old role names that no scope accepts, UnknownRole for any other text. */
  datatype Role =
    | PlatformOwner | PlatformAdmin | PlatformSupport | PlatformBilling | PlatformSecurityAuditor | PlatformViewer
    | MspOwner | MspAdmin | MspTechnician | MspViewer
    | ClientAdmin | ClientViewer
    | LegacyRole | UnknownRole

  datatype Permission =
    | BillingManage | ClientManage | ClientRead | DeviceManage | DeviceRead | JobManage | JobRead | MspManage
    | PlatformManage | PlatformRead | SecurityRead | SiteManage | SiteRead | SupportAccess | SupportManage | UsageRead

  /** Ancestor IDs; empty where the scope has none. */
  datatype Scope = Scope(scopeType: ScopeType, id: Id, mspId: Id, clientId: Id, siteId: Id)

  datatype Grant = Grant(role: Role, sourceType: ScopeType, sourceId: Id, inherited: bool)

  datatype AuthorizationResult = AuthorizationResult(
    selected: Scope,
    grants: seq<Grant>,
    roles: seq<Role>,
    permissions: seq<Permission>)

  /** One active, unexpired membership row of the user. */
  datatype Membership = Membership(role: Role, scopeType: ScopeType, scopeId: Id)

  // ---------------------------------------------------------------- the hierarchy

  datatype ClientRow = ClientRow(mspId: Id, active: bool)
  datatype SiteRow = SiteRow(clientId: Id, active: bool)

  /** msps: whether the MSP is active and onboarded. Identifiers of rows are not empty. */
  datatype Hierarchy = Hierarchy(msps: map<Id, bool>, clients: map<Id, ClientRow>, sites: map<Id, SiteRow>)

  predicate ActiveMsp(h: Hierarchy, m: Id) {
    m in h.msps && h.msps[m]
  }

  predicate ActiveClient(h: Hierarchy, c: Id) {
    c in h.clients && h.clients[c].active && ActiveMsp(h, h.clients[c].mspId)
  }

  predicate ActiveSite(h: Hierarchy, s: Id) {
    s in h.sites && h.sites[s].active && ActiveClient(h, h.sites[s].clientId)
  }

  function SelectedScope(h: Hierarchy, mspId: Id, clientId: Id, siteId: Id): Option<Scope> {
    if siteId != "" && (clientId == "" || mspId == "") then None
    else if clientId != "" && mspId == "" then None
    else if mspId == "" then Some(Scope(PlatformScope, PLATFORM_ID, "", "", ""))
    else if clientId == "" then
      if ActiveMsp(h, mspId) then Some(Scope(MspScope, mspId, mspId, "", "")) else None
    else if siteId == "" then
      if ActiveClient(h, clientId) && h.clients[clientId].mspId == mspId
      then Some(Scope(ClientScope, clientId, mspId, clientId, "")) else None
    else if ActiveSite(h, siteId) && h.sites[siteId].clientId == clientId && h.clients[clientId].mspId == mspId
    then Some(Scope(SiteScope, siteId, mspId, clientId, siteId)) else None
  }

  // ---------------------------------------------------------------- which roles flow where

  predicate PlatformRole(role: Role) {
    role in {PlatformOwner, PlatformAdmin, PlatformSupport, PlatformBilling, PlatformSecurityAuditor, PlatformViewer}
  }

  predicate MspRole(role: Role) {
    role in {MspOwner, MspAdmin, MspTechnician, MspViewer}
  }

  predicate ClientRole(role: Role) {
    role in {ClientAdmin, ClientViewer}
  }

  predicate ValidRoleForScope(scopeType: ScopeType, role: Role) {
    match scopeType
    case PlatformScope => PlatformRole(role)
    case MspScope => MspRole(role)
    case ClientScope => ClientRole(role)
    case SiteScope => ClientRole(role)
    case UnknownScope => false
  }

  predicate PlatformRoleFlowsTo(role: Role, selected: ScopeType) {
    selected == PlatformScope || (PlatformRole(role) && selected in {MspScope, ClientScope, SiteScope})
  }

  predicate MspRoleFlowsTo(role: Role, selected: ScopeType) {
    selected == MspScope || (MspRole(role) && selected in {ClientScope, SiteScope})
  }

  predicate ClientRoleFlowsTo(role: Role, selected: ScopeType) {
    selected == ClientScope || (selected == SiteScope && ClientRole(role))
  }

  predicate Applies(m: Membership, selected: Scope) {
    match m.scopeType
    case PlatformScope => m.scopeId == PLATFORM_ID && PlatformRoleFlowsTo(m.role, selected.scopeType)
    case MspScope => m.scopeId == selected.mspId && MspRoleFlowsTo(m.role, selected.scopeType)
    case ClientScope => m.scopeId == selected.clientId && ClientRoleFlowsTo(m.role, selected.scopeType)
    case SiteScope => m.scopeId == selected.siteId && selected.scopeType == SiteScope
    case UnknownScope => false
  }

  predicate Effective(m: Membership, selected: Scope) {
    ValidRoleForScope(m.scopeType, m.role) && Applies(m, selected)
  }

  function GrantOf(m: Membership, selected: Scope): Grant {
    Grant(m.role, m.scopeType, m.scopeId, m.scopeType != selected.scopeType || m.scopeId != selected.id)
  }

  function EffectiveGrants(ms: seq<Membership>, selected: Scope): seq<Grant> {
    if ms == [] then []
    else
      var rest := EffectiveGrants(ms[..|ms| - 1], selected);
      var m := ms[|ms| - 1];
      if Effective(m, selected) then rest + [GrantOf(m, selected)] else rest
  }

  function RolePermissions(role: Role): set<Permission> {
    match role
    case PlatformOwner => {PlatformManage, MspManage, SupportManage, SecurityRead}
    case PlatformAdmin => {PlatformManage, MspManage, SupportManage, SecurityRead}
    case PlatformSupport => {SupportAccess}
    case PlatformBilling => {BillingManage, UsageRead}
    case PlatformSecurityAuditor => {PlatformRead, SecurityRead}
    case PlatformViewer => {PlatformRead, SecurityRead}
    case MspOwner => {MspManage, ClientManage, SiteManage, DeviceManage, JobManage}
    case MspAdmin => {MspManage, ClientManage, SiteManage, DeviceManage, JobManage}
    case MspTechnician => {ClientRead, SiteRead, DeviceManage, JobManage}
    case MspViewer => {ClientRead, SiteRead, DeviceRead, JobRead}
    case ClientViewer => {ClientRead, SiteRead, DeviceRead, JobRead}
    case ClientAdmin => {ClientManage, SiteManage, DeviceRead, JobRead}
    case LegacyRole => {}
    case UnknownRole => {}
  }

  // ---------------------------------------------------------------- the orders

  /** Positions of the names in the order of Go strings. */
  function RoleRank(role: Role): nat {
    match role
    case ClientAdmin => 0 case ClientViewer => 1
    case MspAdmin => 2 case MspOwner => 3 case MspTechnician => 4 case MspViewer => 5
    case PlatformAdmin => 6 case PlatformBilling => 7 case PlatformOwner => 8 case PlatformSecurityAuditor => 9
    case PlatformSupport => 10 case PlatformViewer => 11
    case LegacyRole => 12 case UnknownRole => 13
  }

  function ScopeRank(t: ScopeType): nat {
    match t
    case ClientScope => 0 case MspScope => 1 case PlatformScope => 2 case SiteScope => 3 case UnknownScope => 4
  }

  function PermissionRank(p: Permission): nat {
    match p
    case BillingManage => 0 case ClientManage => 1 case ClientRead => 2 case DeviceManage => 3 case DeviceRead => 4
    case JobManage => 5 case JobRead => 6 case MspManage => 7 case PlatformManage => 8 case PlatformRead => 9
    case SecurityRead => 10 case SiteManage => 11 case SiteRead => 12 case SupportAccess => 13 case SupportManage => 14
    case UsageRead => 15
  }

  /** The comparison of newAuthorizationResult. */
  predicate GrantLess(a: Grant, b: Grant) {
    if a.role != b.role then RoleRank(a.role) < RoleRank(b.role)
    else if a.sourceType != b.sourceType then ScopeRank(a.sourceType) < ScopeRank(b.sourceType)
    else Less(a.sourceId, b.sourceId)
  }

  predicate GrantLeq(a: Grant, b: Grant) {
    !GrantLess(b, a)
  }

  predicate RoleLeq(a: Role, b: Role) {
    RoleRank(a) <= RoleRank(b)
  }

  predicate PermissionLeq(a: Permission, b: Permission) {
    PermissionRank(a) <= PermissionRank(b)
  }

  lemma GrantLessTotal(a: Grant, b: Grant)
    ensures !(GrantLess(a, b) && GrantLess(b, a))
    ensures !GrantLess(a, b) && !GrantLess(b, a) ==> a.role == b.role && a.sourceType == b.sourceType && a.sourceId == b.sourceId
  {
    LessTotal(a.sourceId, b.sourceId);
  }

  lemma GrantLeqTransitive(a: Grant, b: Grant, c: Grant)
    requires GrantLeq(a, b) && GrantLeq(b, c)
    ensures GrantLeq(a, c)
  {
    if a.role == b.role == c.role && a.sourceType == b.sourceType == c.sourceType {
      LessTotal(a.sourceId, b.sourceId);
      LessTotal(b.sourceId, c.sourceId);
      LessTotal(a.sourceId, c.sourceId);
      if Less(a.sourceId, b.sourceId) && Less(b.sourceId, c.sourceId) {
        LessTransitive(a.sourceId, b.sourceId, c.sourceId);
      }
    }
  }

  lemma GrantOrder()
    ensures TotalPreorder(GrantLeq)
  {
    forall a, b ensures GrantLeq(a, b) || GrantLeq(b, a) {
      GrantLessTotal(a, b);
    }
    forall a, b, c | GrantLeq(a, b) && GrantLeq(b, c) ensures GrantLeq(a, c) {
      GrantLeqTransitive(a, b, c);
    }
  }

  // ---------------------------------------------------------------- the result, independent of row order

  ghost predicate RolesOf(roles: seq<Role>, grants: seq<Grant>) {
    && Sorted(roles, RoleLeq) && Distinct(roles)
    && forall role :: role in roles <==> exists g :: g in grants && g.role == role
  }

  ghost predicate PermissionsOf(permissions: seq<Permission>, roles: seq<Role>) {
    && Sorted(permissions, PermissionLeq) && Distinct(permissions)
    && forall p :: p in permissions <==> exists role :: role in roles && p in RolePermissions(role)
  }

  /** Grants sorted; roles and permissions sorted without duplicates. */
  ghost predicate IsResult(selected: Scope, grants: seq<Grant>, r: AuthorizationResult) {
    && r.selected == selected
    && Sorted(r.grants, GrantLeq) && multiset(r.grants) == multiset(grants)
    && RolesOf(r.roles, grants)
    && PermissionsOf(r.permissions, r.roles)
  }

  /** All grants are of memberships seen from one scope, so `inherited` follows from the source. */
  ghost predicate FromScope(grants: seq<Grant>, selected: Scope) {
    forall g :: g in grants ==> g.inherited == (g.sourceType != selected.scopeType || g.sourceId != selected.id)
  }

  lemma GrantTies(grants: seq<Grant>, selected: Scope)
    requires FromScope(grants, selected)
    ensures TiesEqual(grants, GrantLeq)
  {
    forall a, b | a in grants && b in grants && GrantLeq(a, b) && GrantLeq(b, a) ensures a == b {
      GrantLessTotal(a, b);
    }
  }

  lemma SameElements<T>(a: seq<T>, b: seq<T>)
    requires multiset(a) == multiset(b)
    ensures forall x :: x in a <==> x in b
  {
    forall x ensures x in a <==> x in b {
      assert x in multiset(a) <==> x in multiset(b);
    }
  }

  lemma RolesUnique(a: seq<Role>, b: seq<Role>, grants: seq<Grant>, grants': seq<Grant>)
    requires RolesOf(a, grants) && RolesOf(b, grants') && forall g :: g in grants <==> g in grants'
    ensures a == b
  {
    assert forall role :: role in a <==> role in b;
    SortedSetUnique(a, b, RoleLeq);
  }

  lemma PermissionsUnique(a: seq<Permission>, b: seq<Permission>, roles: seq<Role>)
    requires PermissionsOf(a, roles) && PermissionsOf(b, roles)
    ensures a == b
  {
    PermissionOrder(a);
    SamePermissions(a, b, roles);
    SortedSetUnique(a, b, PermissionLeq);
  }

  lemma SamePermissions(a: seq<Permission>, b: seq<Permission>, roles: seq<Role>)
    requires PermissionsOf(a, roles) && PermissionsOf(b, roles)
    ensures forall p :: p in a <==> p in b
  {
  }

  lemma PermissionRankInjective(p: Permission, q: Permission)
    requires PermissionRank(p) == PermissionRank(q)
    ensures p == q
  {
  }

  lemma PermissionOrder(s: seq<Permission>)
    ensures TotalPreorder(PermissionLeq) && TiesEqual(s, PermissionLeq)
  {
    forall p, q | PermissionLeq(p, q) && PermissionLeq(q, p) ensures p == q {
      PermissionRankInjective(p, q);
    }
  }

  lemma GrantsUnique(selected: Scope, a: seq<Grant>, b: seq<Grant>)
    requires FromScope(a, selected) && multiset(a) == multiset(b) && Sorted(a, GrantLeq) && Sorted(b, GrantLeq)
    ensures a == b
  {
    GrantOrder();
    GrantTies(a, selected);
    SortedUnique(a, b, GrantLeq);
  }

  lemma ResultUnique(selected: Scope, grants: seq<Grant>, grants': seq<Grant>, r: AuthorizationResult, r': AuthorizationResult)
    requires FromScope(grants, selected) && multiset(grants) == multiset(grants')
    requires IsResult(selected, grants, r) && IsResult(selected, grants', r')
    ensures r == r'
  {
    SameElements(r.grants, grants);
    SameElements(grants, grants');
    GrantsUnique(selected, r.grants, r'.grants);
    RolesUnique(r.roles, r'.roles, grants, grants');
    PermissionsUnique(r.permissions, r'.permissions, r.roles);
  }

  lemma {:induction false} GrantsOfEffective(ms: seq<Membership>, selected: Scope, g: Grant)
    ensures g in EffectiveGrants(ms, selected) <==> exists m :: m in ms && Effective(m, selected) && g == GrantOf(m, selected)
  {
    if ms != [] {
      var n := |ms| - 1;
      GrantsOfEffective(ms[..n], selected, g);
      assert ms == ms[..n] + [ms[n]];
      assert ms[n] in ms && forall m :: m in ms <==> m in ms[..n] || m == ms[n];
    }
  }

  lemma EffectiveFromScope(ms: seq<Membership>, selected: Scope)
    ensures FromScope(EffectiveGrants(ms, selected), selected)
  {
    forall g | g in EffectiveGrants(ms, selected)
      ensures g.inherited == (g.sourceType != selected.scopeType || g.sourceId != selected.id)
    {
      GrantsOfEffective(ms, selected, g);
    }
  }

  function CountOf(ms: seq<Membership>, m: Membership): nat {
    multiset(ms)[m]
  }

  lemma {:induction false} EffectiveGrantCount(ms: seq<Membership>, selected: Scope, g: Grant)
    ensures multiset(EffectiveGrants(ms, selected))[g] ==
            var m := Membership(g.role, g.sourceType, g.sourceId);
            if Effective(m, selected) && g == GrantOf(m, selected) then CountOf(ms, m) else 0
  {
    if ms != [] {
      var n := |ms| - 1;
      EffectiveGrantCount(ms[..n], selected, g);
      assert ms == ms[..n] + [ms[n]];
    }
  }

  /** The rows that matter: those that are effective in the selected scope, with their multiplicity. */
  ghost predicate SameEffective(ms: seq<Membership>, ms': seq<Membership>, selected: Scope) {
    forall m :: Effective(m, selected) ==> CountOf(ms, m) == CountOf(ms', m)
  }

  lemma SameEffectiveGrants(ms: seq<Membership>, ms': seq<Membership>, selected: Scope)
    requires SameEffective(ms, ms', selected)
    ensures multiset(EffectiveGrants(ms, selected)) == multiset(EffectiveGrants(ms', selected))
  {
    forall g ensures multiset(EffectiveGrants(ms, selected))[g] == multiset(EffectiveGrants(ms', selected))[g] {
      EffectiveGrantCount(ms, selected, g);
      EffectiveGrantCount(ms', selected, g);
    }
  }

  // ---------------------------------------------------------------- resolveAuthorization

  /** The outcome of resolveAuthorization; None is an error. */
  ghost predicate Resolves(h: Hierarchy, ms: seq<Membership>, mspId: Id, clientId: Id, siteId: Id, r: Option<AuthorizationResult>) {
    var scope := SelectedScope(h, mspId, clientId, siteId);
    if scope.None? || EffectiveGrants(ms, scope.value) == [] then r == None
    else r.Some? && IsResult(scope.value, EffectiveGrants(ms, scope.value), r.value)
  }

  /**
    The result does not depend on the order of the membership rows, nor on any row that is not effective in the
    selected scope.
   */
  lemma ResultIndependentOfOtherRows(h: Hierarchy, ms: seq<Membership>, ms': seq<Membership>, mspId: Id, clientId: Id,
                                     siteId: Id, r: Option<AuthorizationResult>, r': Option<AuthorizationResult>)
    requires Resolves(h, ms, mspId, clientId, siteId, r) && Resolves(h, ms', mspId, clientId, siteId, r')
    requires SelectedScope(h, mspId, clientId, siteId).Some? ==>
               SameEffective(ms, ms', SelectedScope(h, mspId, clientId, siteId).value)
    ensures r == r'
  {
    var scope := SelectedScope(h, mspId, clientId, siteId);
    if scope.Some? {
      var g, g' := EffectiveGrants(ms, scope.value), EffectiveGrants(ms', scope.value);
      SameEffectiveGrants(ms, ms', scope.value);
      assert |g| == |multiset(g)| == |multiset(g')| == |g'|;
      if g != [] {
        EffectiveFromScope(ms, scope.value);
        ResultUnique(scope.value, g, g', r.value, r'.value);
      }
    }
  }
}
