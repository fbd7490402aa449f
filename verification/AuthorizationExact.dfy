/**
  The authorization decisions stated from the membership rows alone: who may manage or access what, from which selection,
  and which permissions a user holds there (internal/platform/authorize.go, authorization_result.go, context_handler.go).
 */
module AuthorizationExact {
  import opened Wrappers
  import opened Strings
  import opened Sorting
  import opened Authorization
  import opened AuthorizationDecisions

  // ---------------------------------------------------------------- tables, by role and by permission

  /** Where a membership with this role can be held. */
  function HeldAt(role: Role): set<ScopeType> {
    match role
    case PlatformOwner | PlatformAdmin | PlatformSupport | PlatformBilling | PlatformSecurityAuditor | PlatformViewer =>
      {PlatformScope}
    case MspOwner | MspAdmin | MspTechnician | MspViewer => {MspScope}
    case ClientAdmin | ClientViewer => {ClientScope, SiteScope}
    case LegacyRole | UnknownRole => {}
  }

  /** The roles that manage from a selection. */
  function ManageRoles(selected: ScopeType): set<Role> {
    match selected
    case PlatformScope => {PlatformOwner, PlatformAdmin}
    case MspScope => {PlatformOwner, PlatformAdmin, MspOwner, MspAdmin}
    case ClientScope => {ClientAdmin}
    case SiteScope => {ClientAdmin}
    case UnknownScope => {}
  }

  /** The roles that carry a permission. */
  function Holders(p: Permission): set<Role> {
    match p
    case PlatformManage => {PlatformOwner, PlatformAdmin}
    case MspManage => {PlatformOwner, PlatformAdmin, MspOwner, MspAdmin}
    case SupportManage => {PlatformOwner, PlatformAdmin}
    case SecurityRead => {PlatformOwner, PlatformAdmin, PlatformSecurityAuditor, PlatformViewer}
    case SupportAccess => {PlatformSupport}
    case BillingManage => {PlatformBilling}
    case UsageRead => {PlatformBilling}
    case PlatformRead => {PlatformSecurityAuditor, PlatformViewer}
    case ClientManage => {MspOwner, MspAdmin, ClientAdmin}
    case SiteManage => {MspOwner, MspAdmin, ClientAdmin}
    case DeviceManage => {MspOwner, MspAdmin, MspTechnician}
    case JobManage => {MspOwner, MspAdmin, MspTechnician}
    case ClientRead => {MspTechnician, MspViewer, ClientViewer}
    case SiteRead => {MspTechnician, MspViewer, ClientViewer}
    case DeviceRead => {MspViewer, ClientViewer, ClientAdmin}
    case JobRead => {MspViewer, ClientViewer, ClientAdmin}
  }

  lemma HeldWhereValid(scopeType: ScopeType, role: Role)
    ensures ValidRoleForScope(scopeType, role) <==> scopeType in HeldAt(role)
  {
  }

  lemma PermissionHolders(role: Role, p: Permission)
    ensures p in RolePermissions(role) <==> role in Holders(p)
  {
  }

  // ---------------------------------------------------------------- the tree

  /** The node's own row and those of all its ancestors are active. */
  predicate Live(h: Hierarchy, n: Node)
    decreases Depth(n)
  {
    match n
    case PlatformNode => true
    case MspNode(m) => m in h.msps && h.msps[m]
    case ClientNode(c) => c in h.clients && h.clients[c].active && Live(h, MspNode(h.clients[c].mspId))
    case SiteNode(s) => s in h.sites && h.sites[s].active && Live(h, ClientNode(h.sites[s].clientId))
  }

  /** The three claims name the node and its ancestors. */
  predicate Names(h: Hierarchy, n: Node, mspId: Id, clientId: Id, siteId: Id) {
    match n
    case PlatformNode => mspId == "" && clientId == "" && siteId == ""
    case MspNode(m) => m != "" && mspId == m && clientId == "" && siteId == ""
    case ClientNode(c) => c != "" && mspId != "" && clientId == c && siteId == "" && Parent(h, n) == Some(MspNode(mspId))
    case SiteNode(s) =>
      && s != "" && mspId != "" && clientId != "" && siteId == s && Parent(h, n) == Some(ClientNode(clientId))
      && Parent(h, ClientNode(clientId)) == Some(MspNode(mspId))
  }

  /** The scope's record is the node's. */
  predicate Describes(scope: Scope, n: Node) {
    match n
    case PlatformNode => scope.scopeType == PlatformScope && scope.id == PLATFORM_ID
    case MspNode(m) => scope.scopeType == MspScope && scope.id == m
    case ClientNode(c) => scope.scopeType == ClientScope && scope.id == c
    case SiteNode(s) => scope.scopeType == SiteScope && scope.id == s
  }

  lemma MspAncestors(h: Hierarchy, a: Node, m: Id)
    ensures AncestorOrSelf(h, a, MspNode(m)) <==> a == MspNode(m) || a == PlatformNode
  {
    assert AncestorOrSelf(h, a, PlatformNode) <==> a == PlatformNode;
  }

  lemma ClientAncestors(h: Hierarchy, a: Node, c: Id)
    requires c in h.clients
    ensures AncestorOrSelf(h, a, ClientNode(c)) <==> a == ClientNode(c) || a == MspNode(h.clients[c].mspId) || a == PlatformNode
  {
    MspAncestors(h, a, h.clients[c].mspId);
  }

  lemma SiteAncestors(h: Hierarchy, a: Node, s: Id)
    requires s in h.sites && h.sites[s].clientId in h.clients
    ensures var c := h.sites[s].clientId;
            AncestorOrSelf(h, a, SiteNode(s)) <==>
            a == SiteNode(s) || a == ClientNode(c) || a == MspNode(h.clients[c].mspId) || a == PlatformNode
  {
    ClientAncestors(h, a, h.sites[s].clientId);
  }

  lemma ActiveIffLive(h: Hierarchy, id: Id)
    ensures ActiveMsp(h, id) <==> Live(h, MspNode(id))
    ensures ActiveClient(h, id) <==> Live(h, ClientNode(id))
    ensures ActiveSite(h, id) <==> Live(h, SiteNode(id))
  {
    if id in h.sites {
      assert Live(h, ClientNode(h.sites[id].clientId)) <==> ActiveClient(h, h.sites[id].clientId);
    }
  }

  /** Claims select a scope exactly if they name a live node with its ancestors, and then they select that node. */
  lemma SelectionIffLiveChain(h: Hierarchy, mspId: Id, clientId: Id, siteId: Id)
    ensures SelectedScope(h, mspId, clientId, siteId).Some? <==>
            exists n :: Live(h, n) && Names(h, n, mspId, clientId, siteId)
    ensures forall n :: Live(h, n) && Names(h, n, mspId, clientId, siteId) ==>
              SelectedScope(h, mspId, clientId, siteId).Some?
              && Describes(SelectedScope(h, mspId, clientId, siteId).value, n)
              && ScopeNode(SelectedScope(h, mspId, clientId, siteId).value) == n
  {
    ActiveIffLive(h, mspId);
    ActiveIffLive(h, clientId);
    ActiveIffLive(h, siteId);
    var scope := SelectedScope(h, mspId, clientId, siteId);
    if scope.Some? {
      var n := ScopeNode(scope.value);
      assert Live(h, n) && Names(h, n, mspId, clientId, siteId);
    }
  }

  /** The ancestors of a selection are those its record names, and no others. */
  lemma ScopeAncestors(h: Hierarchy, mspId: Id, clientId: Id, siteId: Id, a: Node)
    requires SelectedScope(h, mspId, clientId, siteId).Some?
    requires AncestorOrSelf(h, a, ScopeNode(SelectedScope(h, mspId, clientId, siteId).value))
    ensures var scope := SelectedScope(h, mspId, clientId, siteId).value;
            match a
            case PlatformNode => true
            case MspNode(m) => m == scope.mspId && scope.scopeType in {MspScope, ClientScope, SiteScope}
            case ClientNode(c) => c == scope.clientId && scope.scopeType in {ClientScope, SiteScope}
            case SiteNode(s) => s == scope.siteId && scope.scopeType == SiteScope
  {
    if mspId != "" {
      MspAncestors(h, a, mspId);
      if clientId != "" {
        ClientAncestors(h, a, clientId);
        if siteId != "" {
          SiteAncestors(h, a, siteId);
        }
      }
    }
  }

  /** A membership is effective exactly if it is held at an ancestor of the selection or at the selection itself, with a role
      that can be held there. */
  lemma EffectiveIffOnChain(h: Hierarchy, mspId: Id, clientId: Id, siteId: Id, m: Membership)
    requires SelectedScope(h, mspId, clientId, siteId).Some?
    ensures var scope := SelectedScope(h, mspId, clientId, siteId).value;
            Effective(m, scope) <==> m.scopeType in HeldAt(m.role) && OnChain(h, m, ScopeNode(scope))
  {
    var scope := SelectedScope(h, mspId, clientId, siteId).value;
    HeldWhereValid(m.scopeType, m.role);
    if Effective(m, scope) {
      EffectiveOnlyFromChain(h, mspId, clientId, siteId, m);
    } else if m.scopeType in HeldAt(m.role) && OnChain(h, m, ScopeNode(scope)) {
      var a :| AtNode(m, a) && AncestorOrSelf(h, a, ScopeNode(scope));
      ScopeAncestors(h, mspId, clientId, siteId, a);
    }
  }

  /** A grant is marked as inherited exactly if its membership is not held at the selection itself. */
  lemma InheritedIffElsewhere(h: Hierarchy, mspId: Id, clientId: Id, siteId: Id, m: Membership)
    requires SelectedScope(h, mspId, clientId, siteId).Some?
    requires Effective(m, SelectedScope(h, mspId, clientId, siteId).value)
    ensures var scope := SelectedScope(h, mspId, clientId, siteId).value;
            GrantOf(m, scope).inherited <==> !AtNode(m, ScopeNode(scope))
  {
  }

  // ---------------------------------------------------------------- what a user holds in a selection

  /** The user holds one of the roles at the node or above it. */
  ghost predicate Holds(h: Hierarchy, ms: seq<Membership>, n: Node, roles: set<Role>) {
    exists m :: m in ms && m.role in roles && m.scopeType in HeldAt(m.role) && OnChain(h, m, n)
  }

  lemma RolesAreEffective(ms: seq<Membership>, a: AuthorizationResult, role: Role)
    requires IsResult(a.selected, EffectiveGrants(ms, a.selected), a)
    ensures role in a.roles <==> exists m :: m in ms && m.role == role && Effective(m, a.selected)
  {
    var grants := EffectiveGrants(ms, a.selected);
    if role in a.roles {
      var g :| g in grants && g.role == role;
      GrantsOfEffective(ms, a.selected, g);
    }
    if m :| m in ms && m.role == role && Effective(m, a.selected) {
      GrantsOfEffective(ms, a.selected, GrantOf(m, a.selected));
    }
  }

  lemma HasRoleIffHeld(h: Hierarchy, ms: seq<Membership>, mspId: Id, clientId: Id, siteId: Id, a: AuthorizationResult, roles: set<Role>)
    requires Resolves(h, ms, mspId, clientId, siteId, Some(a))
    ensures HasRole(a, roles) <==> Holds(h, ms, ScopeNode(a.selected), roles)
  {
    if HasRole(a, roles) {
      var role :| role in a.roles && role in roles;
      RolesAreEffective(ms, a, role);
      var m :| m in ms && m.role == role && Effective(m, a.selected);
      EffectiveIffOnChain(h, mspId, clientId, siteId, m);
    }
    if m :| m in ms && m.role in roles && m.scopeType in HeldAt(m.role) && OnChain(h, m, ScopeNode(a.selected)) {
      EffectiveIffOnChain(h, mspId, clientId, siteId, m);
      RolesAreEffective(ms, a, m.role);
    }
  }

  /** A permission is granted exactly if a role that carries it is held at the selection or above it. */
  lemma PermissionIffHeld(h: Hierarchy, ms: seq<Membership>, mspId: Id, clientId: Id, siteId: Id, a: AuthorizationResult, p: Permission)
    requires Resolves(h, ms, mspId, clientId, siteId, Some(a))
    ensures p in a.permissions <==> Holds(h, ms, ScopeNode(a.selected), Holders(p))
  {
    HasRoleIffHeld(h, ms, mspId, clientId, siteId, a, Holders(p));
    forall role ensures p in RolePermissions(role) <==> role in Holders(p) {
      PermissionHolders(role, p);
    }
  }

  /** A user with a membership on the chain of a live selection is never turned away, and no other user is let in. */
  lemma ResolvesIffHeld(h: Hierarchy, ms: seq<Membership>, mspId: Id, clientId: Id, siteId: Id, r: Option<AuthorizationResult>)
    requires Resolves(h, ms, mspId, clientId, siteId, r)
    ensures r.Some? <==>
            exists n :: Live(h, n) && Names(h, n, mspId, clientId, siteId) && Holds(h, ms, n, CHAIN_ROLES)
  {
    SelectionIffLiveChain(h, mspId, clientId, siteId);
    var scope := SelectedScope(h, mspId, clientId, siteId);
    if scope.Some? {
      var n := ScopeNode(scope.value);
      assert Live(h, n) && Names(h, n, mspId, clientId, siteId) by {
        var n' :| Live(h, n') && Names(h, n', mspId, clientId, siteId);
      }
      GrantsIffHeld(h, ms, mspId, clientId, siteId);
    }
  }

  lemma GrantsIffHeld(h: Hierarchy, ms: seq<Membership>, mspId: Id, clientId: Id, siteId: Id)
    requires SelectedScope(h, mspId, clientId, siteId).Some?
    ensures var scope := SelectedScope(h, mspId, clientId, siteId).value;
            EffectiveGrants(ms, scope) != [] <==> Holds(h, ms, ScopeNode(scope), CHAIN_ROLES)
  {
    var scope := SelectedScope(h, mspId, clientId, siteId).value;
    var grants := EffectiveGrants(ms, scope);
    if grants != [] {
      assert grants[0] in grants;
      GrantsOfEffective(ms, scope, grants[0]);
      var m :| m in ms && Effective(m, scope) && grants[0] == GrantOf(m, scope);
      EffectiveIffOnChain(h, mspId, clientId, siteId, m);
      EffectiveRole(m, scope);
    }
    if m :| m in ms && m.role in CHAIN_ROLES && m.scopeType in HeldAt(m.role) && OnChain(h, m, ScopeNode(scope)) {
      EffectiveIffOnChain(h, mspId, clientId, siteId, m);
      GrantsOfEffective(ms, scope, GrantOf(m, scope));
    }
  }

  // ---------------------------------------------------------------- the decisions

  /** The resource is a live node below the platform, and the selection is above it or the resource itself. */
  predicate Reaches(h: Hierarchy, selected: Scope, resource: Node) {
    resource != PlatformNode && resource.id != "" && Live(h, resource) && AncestorOrSelf(h, ScopeNode(selected), resource)
  }

  /** The comparison of IDs that every decision makes after its ancestry query. */
  predicate Matches(selected: Scope, resource: Node, above: (Id, Id)) {
    match selected.scopeType
    case PlatformScope => true
    case MspScope => selected.mspId == above.0
    case ClientScope => !resource.MspNode? && selected.clientId == above.1
    case SiteScope => resource.SiteNode? && selected.siteId == resource.id
    case UnknownScope => false
  }

  lemma ReachesIffMatches(h: Hierarchy, a: AuthorizationResult, resource: Node)
    requires a.selected.scopeType != UnknownScope
    ensures Reaches(h, a.selected, resource) <==>
            Ancestry(h, resource).Some? && Matches(a.selected, resource, Ancestry(h, resource).value)
  {
    AncestryIffLive(h, resource);
    if Ancestry(h, resource).Some? && Matches(a.selected, resource, Ancestry(h, resource).value) {
      SelectionContains(h, a, resource);
    } else if Reaches(h, a.selected, resource) {
      AncestryNamesAncestors(h, ScopeNode(a.selected), resource);
    }
  }

  lemma AncestryIffLive(h: Hierarchy, resource: Node)
    ensures Ancestry(h, resource).Some? <==> resource != PlatformNode && resource.id != "" && Live(h, resource)
  {
    if resource != PlatformNode {
      ActiveIffLive(h, resource.id);
    }
  }

  lemma AncestryNamesAncestors(h: Hierarchy, a: Node, resource: Node)
    requires Ancestry(h, resource).Some? && AncestorOrSelf(h, a, resource)
    ensures var above := Ancestry(h, resource).value;
            a == PlatformNode || a == MspNode(above.0) || (!resource.MspNode? && a == ClientNode(above.1)) || a == resource
  {
    match resource {
      case MspNode(m) => MspAncestors(h, a, m);
      case ClientNode(c) => ClientAncestors(h, a, c);
      case SiteNode(s) => SiteAncestors(h, a, s);
    }
  }

  lemma GlobalIffHeld(h: Hierarchy, ms: seq<Membership>, mspId: Id, clientId: Id, siteId: Id, a: AuthorizationResult)
    requires Resolves(h, ms, mspId, clientId, siteId, Some(a)) && a.selected.scopeType == PlatformScope
    ensures IsPlatformGlobal(a) <==> HasRole(a, {PlatformOwner, PlatformAdmin})
  {
    var roles := {PlatformOwner, PlatformAdmin};
    assert a.selected.id == PLATFORM_ID;
    SameElements(a.grants, EffectiveGrants(ms, a.selected));
    if g :| g in a.grants && g.sourceType == PlatformScope && g.role in roles {
      assert g in EffectiveGrants(ms, a.selected);
    }
    if HasRole(a, roles) {
      var role :| role in a.roles && role in roles;
      var g := AdminGrant(ms, a, role);
    }
  }

  lemma AdminGrant(ms: seq<Membership>, a: AuthorizationResult, role: Role) returns (g: Grant)
    requires IsResult(a.selected, EffectiveGrants(ms, a.selected), a) && role in a.roles && PlatformRole(role)
    ensures g in a.grants && g.sourceType == PlatformScope && g.role == role
  {
    RolesAreEffective(ms, a, role);
    var m :| m in ms && m.role == role && Effective(m, a.selected);
    g := GrantOf(m, a.selected);
    GrantsOfEffective(ms, a.selected, g);
    SameElements(a.grants, EffectiveGrants(ms, a.selected));
  }

  /** Managing: the resource lies under the selection, and a role that manages from the selection is held on its chain. */
  lemma ManageIff(h: Hierarchy, ms: seq<Membership>, mspId: Id, clientId: Id, siteId: Id, a: AuthorizationResult, resource: Node)
    requires Resolves(h, ms, mspId, clientId, siteId, Some(a))
    ensures MayManage(h, a, resource) <==>
            && Reaches(h, a.selected, resource)
            && Holds(h, ms, ScopeNode(a.selected), ManageRoles(a.selected.scopeType))
  {
    ReachesIffMatches(h, a, resource);
    HasRoleIffHeld(h, ms, mspId, clientId, siteId, a, ManageRoles(a.selected.scopeType));
    if a.selected.scopeType == PlatformScope {
      GlobalIffHeld(h, ms, mspId, clientId, siteId, a);
    }
  }

  /** From an MSP, the roles the code asks for and the roles that can be there are the same. */
  lemma MspAccessRoles(ms: seq<Membership>, a: AuthorizationResult, support: bool)
    requires IsResult(a.selected, EffectiveGrants(ms, a.selected), a) && a.selected.scopeType == MspScope
    ensures HasRole(a, PLATFORM_ADMINS) || HasRole(a, MSP_ROLES) || (HasRole(a, {PlatformSupport}) && support) <==>
            HasRole(a, AccessRoles(MspScope, support))
  {
    forall role | role in a.roles ensures PlatformRole(role) || MspRole(role) {
      var g := RoleHasGrant(ms, a, role);
    }
  }

  /** Access: the resource lies under the selection, and a role that may look around from the selection is held on its chain. */
  lemma AccessIff(h: Hierarchy, ms: seq<Membership>, mspId: Id, clientId: Id, siteId: Id, a: AuthorizationResult, resource: Node,
                  support: bool)
    requires Resolves(h, ms, mspId, clientId, siteId, Some(a))
    ensures MayAccess(h, a, resource, support) <==>
            && Reaches(h, a.selected, resource)
            && Holds(h, ms, ScopeNode(a.selected), AccessRoles(a.selected.scopeType, support))
  {
    ReachesIffMatches(h, a, resource);
    HasRoleIffHeld(h, ms, mspId, clientId, siteId, a, AccessRoles(a.selected.scopeType, support));
    match a.selected.scopeType {
      case PlatformScope => GlobalIffHeld(h, ms, mspId, clientId, siteId, a);
      case MspScope => MspAccessRoles(ms, a, support);
      case _ => GrantsIffHeld(h, ms, mspId, clientId, siteId);
    }
  }

  // ---------------------------------------------------------------- the order of a result

  /** The values in the order of their names. */
  const ROLES := [ClientAdmin, ClientViewer, MspAdmin, MspOwner, MspTechnician, MspViewer, PlatformAdmin, PlatformBilling,
                  PlatformOwner, PlatformSecurityAuditor, PlatformSupport, PlatformViewer]
  const SCOPES := [ClientScope, MspScope, PlatformScope, SiteScope]
  const PERMISSIONS := [BillingManage, ClientManage, ClientRead, DeviceManage, DeviceRead, JobManage, JobRead, MspManage,
                        PlatformManage, PlatformRead, SecurityRead, SiteManage, SiteRead, SupportAccess, SupportManage, UsageRead]

  ghost predicate Before<T>(list: seq<T>, x: T, y: T) {
    exists i, j :: 0 <= i < j < |list| && list[i] == x && list[j] == y
  }

  lemma RankIsPosition(role: Role, scopeType: ScopeType, p: Permission)
    ensures role in CHAIN_ROLES ==> RoleRank(role) < 12 && ROLES[RoleRank(role)] == role
    ensures scopeType != UnknownScope ==> ScopeRank(scopeType) < 4 && SCOPES[ScopeRank(scopeType)] == scopeType
    ensures PermissionRank(p) < 16 && PERMISSIONS[PermissionRank(p)] == p
  {
  }

  /** Grants come by role, then by the type and the ID of their source. */
  ghost predicate InOrder(a: Grant, b: Grant) {
    || Before(ROLES, a.role, b.role)
    || (a.role == b.role && Before(SCOPES, a.sourceType, b.sourceType))
    || (a.role == b.role && a.sourceType == b.sourceType && !Less(b.sourceId, a.sourceId))
  }

  /** Roles and permissions of a resolved authorization come in the order of their names, without repetition. */
  lemma ResultInOrder(h: Hierarchy, ms: seq<Membership>, mspId: Id, clientId: Id, siteId: Id, a: AuthorizationResult, i: nat, j: nat)
    requires Resolves(h, ms, mspId, clientId, siteId, Some(a)) && i < j
    ensures j < |a.roles| ==> Before(ROLES, a.roles[i], a.roles[j])
    ensures j < |a.permissions| ==> Before(PERMISSIONS, a.permissions[i], a.permissions[j])
  {
    if j < |a.roles| {
      var x, y := a.roles[i], a.roles[j];
      assert RoleLeq(x, y) && x != y;
      var _ := RoleHasGrant(ms, a, x);
      var _ := RoleHasGrant(ms, a, y);
      RankIsPosition(x, PlatformScope, UsageRead);
      RankIsPosition(y, PlatformScope, UsageRead);
    }
    if j < |a.permissions| {
      var p, q := a.permissions[i], a.permissions[j];
      assert PermissionLeq(p, q) && p != q;
      RankIsPosition(UnknownRole, PlatformScope, p);
      RankIsPosition(UnknownRole, PlatformScope, q);
    }
  }

  lemma GrantRole(ms: seq<Membership>, a: AuthorizationResult, g: Grant)
    requires IsResult(a.selected, EffectiveGrants(ms, a.selected), a) && g in a.grants
    ensures g.role in CHAIN_ROLES && g.sourceType != UnknownScope
  {
    SameElements(a.grants, EffectiveGrants(ms, a.selected));
    GrantsOfEffective(ms, a.selected, g);
    var m :| m in ms && Effective(m, a.selected) && g == GrantOf(m, a.selected);
    EffectiveRole(m, a.selected);
  }

  /** So do its grants, which are exactly those of the effective memberships. */
  lemma GrantsInOrder(h: Hierarchy, ms: seq<Membership>, mspId: Id, clientId: Id, siteId: Id, a: AuthorizationResult, i: nat, j: nat)
    requires Resolves(h, ms, mspId, clientId, siteId, Some(a)) && i < j < |a.grants|
    ensures InOrder(a.grants[i], a.grants[j])
  {
    var x, y := a.grants[i], a.grants[j];
    assert GrantLeq(x, y) && x in a.grants && y in a.grants;
    GrantRole(ms, a, x);
    GrantRole(ms, a, y);
    RankIsPosition(x.role, x.sourceType, UsageRead);
    RankIsPosition(y.role, y.sourceType, UsageRead);
  }
}
