/** The access and manage decisions of internal/platform/authorize.go over the platform/MSP/client/site tree. */
module AuthorizationDecisions {
  import opened Wrappers
  import opened Sorting
  import opened Authorization

  // ---------------------------------------------------------------- the tree, independently of any scope record

  datatype Node = PlatformNode | MspNode(id: Id) | ClientNode(id: Id) | SiteNode(id: Id)

  function Parent(h: Hierarchy, n: Node): Option<Node> {
    match n
    case PlatformNode => None
    case MspNode(_) => Some(PlatformNode)
    case ClientNode(c) => if c in h.clients then Some(MspNode(h.clients[c].mspId)) else None
    case SiteNode(s) => if s in h.sites then Some(ClientNode(h.sites[s].clientId)) else None
  }

  function Depth(n: Node): nat {
    match n
    case PlatformNode => 0
    case MspNode(_) => 1
    case ClientNode(_) => 2
    case SiteNode(_) => 3
  }

  predicate AncestorOrSelf(h: Hierarchy, a: Node, b: Node)
    decreases Depth(b)
  {
    a == b || (Parent(h, b).Some? && AncestorOrSelf(h, a, Parent(h, b).value))
  }

  lemma {:induction false} AncestorTransitive(h: Hierarchy, a: Node, b: Node, c: Node)
    requires AncestorOrSelf(h, a, b) && AncestorOrSelf(h, b, c)
    ensures AncestorOrSelf(h, a, c)
    decreases Depth(c)
  {
    if b != c {
      AncestorTransitive(h, a, b, Parent(h, c).value);
    }
  }

  predicate AtNode(m: Membership, n: Node) {
    match n
    case PlatformNode => m.scopeType == PlatformScope && m.scopeId == PLATFORM_ID
    case MspNode(id) => m.scopeType == MspScope && m.scopeId == id
    case ClientNode(id) => m.scopeType == ClientScope && m.scopeId == id
    case SiteNode(id) => m.scopeType == SiteScope && m.scopeId == id
  }

  function ScopeNode(scope: Scope): Node {
    match scope.scopeType
    case PlatformScope => PlatformNode
    case MspScope => MspNode(scope.mspId)
    case ClientScope => ClientNode(scope.clientId)
    case SiteScope => SiteNode(scope.siteId)
    case UnknownScope => PlatformNode
  }

  /** The membership sits at an ancestor of the node, or at the node itself. */
  ghost predicate OnChain(h: Hierarchy, m: Membership, n: Node) {
    exists a :: AtNode(m, a) && AncestorOrSelf(h, a, n)
  }

  /** The ancestors of a selected scope are the ones its record names. */
  lemma ScopeChain(h: Hierarchy, mspId: Id, clientId: Id, siteId: Id)
    requires SelectedScope(h, mspId, clientId, siteId).Some?
    ensures var scope := SelectedScope(h, mspId, clientId, siteId).value;
            && AncestorOrSelf(h, PlatformNode, ScopeNode(scope))
            && (scope.mspId != "" ==> AncestorOrSelf(h, MspNode(scope.mspId), ScopeNode(scope)))
            && (scope.clientId != "" ==> AncestorOrSelf(h, ClientNode(scope.clientId), ScopeNode(scope)))
            && (scope.siteId != "" ==> ScopeNode(scope) == SiteNode(scope.siteId))
  {
    var scope := SelectedScope(h, mspId, clientId, siteId).value;
    assert AncestorOrSelf(h, PlatformNode, MspNode(mspId));
    if clientId != "" {
      assert Parent(h, ClientNode(clientId)) == Some(MspNode(mspId));
      assert AncestorOrSelf(h, PlatformNode, ClientNode(clientId));
    }
  }

  /** A membership reaches a scope only from an ancestor or the scope itself: never upward, never sideways. */
  lemma EffectiveOnlyFromChain(h: Hierarchy, mspId: Id, clientId: Id, siteId: Id, m: Membership)
    requires SelectedScope(h, mspId, clientId, siteId).Some?
    requires Effective(m, SelectedScope(h, mspId, clientId, siteId).value)
    ensures OnChain(h, m, ScopeNode(SelectedScope(h, mspId, clientId, siteId).value))
  {
    var scope := SelectedScope(h, mspId, clientId, siteId).value;
    ScopeChain(h, mspId, clientId, siteId);
    match m.scopeType {
      case PlatformScope => assert AtNode(m, PlatformNode);
      case MspScope => assert AtNode(m, MspNode(m.scopeId));
      case ClientScope => assert AtNode(m, ClientNode(m.scopeId));
      case SiteScope => assert AtNode(m, SiteNode(m.scopeId));
    }
  }

  /** Neither the order of the rows nor any row off the selected scope's chain changes the result. */
  lemma ResultIndependentOfOffChainRows(h: Hierarchy, ms: seq<Membership>, ms': seq<Membership>, mspId: Id, clientId: Id,
                                        siteId: Id, r: Option<AuthorizationResult>, r': Option<AuthorizationResult>)
    requires Resolves(h, ms, mspId, clientId, siteId, r) && Resolves(h, ms', mspId, clientId, siteId, r')
    requires SelectedScope(h, mspId, clientId, siteId).Some? ==>
               forall m :: OnChain(h, m, ScopeNode(SelectedScope(h, mspId, clientId, siteId).value)) ==> CountOf(ms, m) == CountOf(ms', m)
    ensures r == r'
  {
    var scope := SelectedScope(h, mspId, clientId, siteId);
    if scope.Some? {
      forall m | Effective(m, scope.value) ensures CountOf(ms, m) == CountOf(ms', m) {
        EffectiveOnlyFromChain(h, mspId, clientId, siteId, m);
      }
    }
    ResultIndependentOfOtherRows(h, ms, ms', mspId, clientId, siteId, r, r');
  }

  // ---------------------------------------------------------------- the decisions

  predicate HasRole(a: AuthorizationResult, wanted: set<Role>) {
    exists role <- a.roles :: role in wanted
  }

  predicate IsPlatformGlobal(a: AuthorizationResult) {
    && a.selected.scopeType == PlatformScope && a.selected.id == PLATFORM_ID
    && exists g <- a.grants :: g.sourceType == PlatformScope && g.role in {PlatformOwner, PlatformAdmin}
  }

  const PLATFORM_ADMINS := {PlatformOwner, PlatformAdmin}
  const MSP_MANAGERS := {PlatformOwner, PlatformAdmin, MspOwner, MspAdmin}
  const MSP_ROLES := {MspOwner, MspAdmin, MspTechnician, MspViewer, ClientAdmin, ClientViewer, LegacyRole}
  const MANAGERS := {PlatformOwner, PlatformAdmin, MspOwner, MspAdmin, ClientAdmin}

  /** The MSP and client above a resource, from its active rows; None when a row is missing or inactive. */
  function Ancestry(h: Hierarchy, resource: Node): Option<(Id, Id)> {
    match resource
    case PlatformNode => None
    case MspNode(m) => if m != "" && ActiveMsp(h, m) then Some((m, "")) else None
    case ClientNode(c) => if c != "" && ActiveClient(h, c) then Some((h.clients[c].mspId, c)) else None
    case SiteNode(s) =>
      if s != "" && ActiveSite(h, s) then Some((h.clients[h.sites[s].clientId].mspId, h.sites[s].clientId)) else None
  }

  /** AuthorizeMSPManage, authorizeClientManage, authorizeSiteManage. */
  predicate MayManage(h: Hierarchy, a: AuthorizationResult, resource: Node) {
    var above := Ancestry(h, resource);
    above.Some? &&
    match a.selected.scopeType
    case PlatformScope => IsPlatformGlobal(a)
    case MspScope => a.selected.mspId == above.value.0 && HasRole(a, MSP_MANAGERS)
    case ClientScope => !resource.MspNode? && a.selected.clientId == above.value.1 && HasRole(a, {ClientAdmin})
    case SiteScope => resource.SiteNode? && a.selected.siteId == resource.id && HasRole(a, {ClientAdmin})
    case UnknownScope => false
  }

  /** AuthorizeMSPAccess, AuthorizeClientAccess, AuthorizeSiteAccess; `support` is the answer of supportGrantAllows. */
  predicate MayAccess(h: Hierarchy, a: AuthorizationResult, resource: Node, support: bool) {
    var above := Ancestry(h, resource);
    above.Some? &&
    match a.selected.scopeType
    case PlatformScope => IsPlatformGlobal(a)
    case MspScope =>
      && a.selected.mspId == above.value.0
      && (HasRole(a, PLATFORM_ADMINS) || HasRole(a, MSP_ROLES) || (HasRole(a, {PlatformSupport}) && support))
    case ClientScope => !resource.MspNode? && a.selected.clientId == above.value.1
    case SiteScope => resource.SiteNode? && a.selected.siteId == resource.id
    case UnknownScope => false
  }

  // ---------------------------------------------------------------- every allowed decision has a witness

  /** An active membership at an ancestor-or-self of the resource, with one of the roles. */
  ghost predicate Witnessed(h: Hierarchy, ms: seq<Membership>, resource: Node, roles: set<Role>) {
    exists m :: m in ms && m.role in roles && ValidRoleForScope(m.scopeType, m.role) && OnChain(h, m, resource)
  }

  lemma ChainExtends(h: Hierarchy, m: Membership, n: Node, resource: Node)
    requires OnChain(h, m, n) && AncestorOrSelf(h, n, resource)
    ensures OnChain(h, m, resource)
  {
    var a :| AtNode(m, a) && AncestorOrSelf(h, a, n);
    AncestorTransitive(h, a, n, resource);
  }

  /** Every grant of a resolved authorization is a membership of the user on the selected chain. */
  lemma GrantWitness(h: Hierarchy, ms: seq<Membership>, mspId: Id, clientId: Id, siteId: Id, a: AuthorizationResult, g: Grant,
                     resource: Node, roles: set<Role>)
    requires Resolves(h, ms, mspId, clientId, siteId, Some(a)) && g in a.grants && g.role in roles
    requires AncestorOrSelf(h, ScopeNode(a.selected), resource)
    ensures Witnessed(h, ms, resource, roles)
  {
    SameElements(a.grants, EffectiveGrants(ms, a.selected));
    GrantsOfEffective(ms, a.selected, g);
    var m :| m in ms && Effective(m, a.selected) && g == GrantOf(m, a.selected);
    EffectiveOnlyFromChain(h, mspId, clientId, siteId, m);
    ChainExtends(h, m, ScopeNode(a.selected), resource);
  }

  lemma RoleWitness(h: Hierarchy, ms: seq<Membership>, mspId: Id, clientId: Id, siteId: Id, a: AuthorizationResult,
                    resource: Node, roles: set<Role>)
    requires Resolves(h, ms, mspId, clientId, siteId, Some(a)) && HasRole(a, roles)
    requires AncestorOrSelf(h, ScopeNode(a.selected), resource)
    ensures Witnessed(h, ms, resource, roles)
  {
    var role :| role in a.roles && role in roles;
    var grants := EffectiveGrants(ms, a.selected);
    SameElements(a.grants, grants);
    var g :| g in grants && g.role == role;
    GrantWitness(h, ms, mspId, clientId, siteId, a, g, resource, roles);
  }

  /** The selected node of an allowed decision contains the resource. */
  lemma SelectionContains(h: Hierarchy, a: AuthorizationResult, resource: Node)
    requires Ancestry(h, resource).Some?
    requires var above := Ancestry(h, resource).value;
             match a.selected.scopeType
             case PlatformScope => true
             case MspScope => a.selected.mspId == above.0
             case ClientScope => !resource.MspNode? && a.selected.clientId == above.1
             case SiteScope => resource.SiteNode? && a.selected.siteId == resource.id
             case UnknownScope => false
    ensures AncestorOrSelf(h, ScopeNode(a.selected), resource)
  {
    var above := Ancestry(h, resource).value;
    assert AncestorOrSelf(h, PlatformNode, MspNode(above.0));
    if resource.ClientNode? {
      assert Parent(h, resource) == Some(MspNode(above.0));
    } else if resource.SiteNode? {
      assert Parent(h, resource) == Some(ClientNode(above.1));
      assert Parent(h, ClientNode(above.1)) == Some(MspNode(above.0));
      assert AncestorOrSelf(h, MspNode(above.0), ClientNode(above.1));
      assert AncestorOrSelf(h, PlatformNode, ClientNode(above.1));
    }
  }

  /** A manage decision is witnessed by a managing membership above the resource, from a selection that contains it. */
  lemma ManageIsWitnessed(h: Hierarchy, ms: seq<Membership>, mspId: Id, clientId: Id, siteId: Id, a: AuthorizationResult,
                          resource: Node)
    requires Resolves(h, ms, mspId, clientId, siteId, Some(a)) && MayManage(h, a, resource)
    ensures AncestorOrSelf(h, ScopeNode(a.selected), resource)
    ensures Witnessed(h, ms, resource, MANAGERS)
  {
    SelectionContains(h, a, resource);
    if a.selected.scopeType == PlatformScope {
      var g :| g in a.grants && g.sourceType == PlatformScope && g.role in {PlatformOwner, PlatformAdmin};
      GrantWitness(h, ms, mspId, clientId, siteId, a, g, resource, MANAGERS);
    } else {
      assert HasRole(a, MANAGERS);
      RoleWitness(h, ms, mspId, clientId, siteId, a, resource, MANAGERS);
    }
  }

  const CHAIN_ROLES := {PlatformOwner, PlatformAdmin, PlatformSupport, PlatformBilling, PlatformSecurityAuditor, PlatformViewer,
                        MspOwner, MspAdmin, MspTechnician, MspViewer, ClientAdmin, ClientViewer}

  /**
    The roles that admit access from a selection: administrators from the platform; administrators, MSP roles and, through
    an open support grant, platform support from an MSP; any role effective there from a client or a site.
   */
  function AccessRoles(selected: ScopeType, support: bool): set<Role> {
    match selected
    case PlatformScope => PLATFORM_ADMINS
    case MspScope =>
      {PlatformOwner, PlatformAdmin, MspOwner, MspAdmin, MspTechnician, MspViewer} + (if support then {PlatformSupport} else {})
    case ClientScope => CHAIN_ROLES
    case SiteScope => CHAIN_ROLES
    case UnknownScope => {}
  }

  lemma EffectiveRole(m: Membership, selected: Scope)
    requires Effective(m, selected)
    ensures m.role in CHAIN_ROLES
    ensures selected.scopeType == MspScope ==> PlatformRole(m.role) || MspRole(m.role)
  {
  }

  /** Every role of a resolved authorization is carried by a grant, and by a membership effective in the selection. */
  lemma RoleHasGrant(ms: seq<Membership>, a: AuthorizationResult, role: Role) returns (g: Grant)
    requires IsResult(a.selected, EffectiveGrants(ms, a.selected), a) && role in a.roles
    ensures g in a.grants && g.role == role && role in CHAIN_ROLES
    ensures a.selected.scopeType == MspScope ==> PlatformRole(role) || MspRole(role)
  {
    var grants := EffectiveGrants(ms, a.selected);
    g :| g in grants && g.role == role;
    SameElements(a.grants, grants);
    GrantsOfEffective(ms, a.selected, g);
    var m :| m in ms && Effective(m, a.selected) && g == GrantOf(m, a.selected);
    EffectiveRole(m, a.selected);
  }

  /** Some role of the authorization is one that admits the access. */
  lemma AdmittingRole(h: Hierarchy, ms: seq<Membership>, a: AuthorizationResult, resource: Node, support: bool) returns (g: Grant)
    requires IsResult(a.selected, EffectiveGrants(ms, a.selected), a) && EffectiveGrants(ms, a.selected) != []
    requires MayAccess(h, a, resource, support)
    ensures g in a.grants && g.role in AccessRoles(a.selected.scopeType, support)
  {
    if a.selected.scopeType == PlatformScope {
      g :| g in a.grants && g.sourceType == PlatformScope && g.role in {PlatformOwner, PlatformAdmin};
    } else if a.selected.scopeType == MspScope {
      var role :| role in a.roles && (role in PLATFORM_ADMINS || role in MSP_ROLES || (role == PlatformSupport && support));
      g := RoleHasGrant(ms, a, role);
    } else {
      var grants := EffectiveGrants(ms, a.selected);
      assert grants[0] in grants;
      assert grants[0].role in a.roles;
      g := RoleHasGrant(ms, a, grants[0].role);
    }
  }

  /** An access decision is witnessed by an active membership above the resource, with a role the selection admits. */
  lemma AccessIsWitnessed(h: Hierarchy, ms: seq<Membership>, mspId: Id, clientId: Id, siteId: Id, a: AuthorizationResult,
                          resource: Node, support: bool)
    requires Resolves(h, ms, mspId, clientId, siteId, Some(a)) && MayAccess(h, a, resource, support)
    ensures AncestorOrSelf(h, ScopeNode(a.selected), resource)
    ensures Witnessed(h, ms, resource, AccessRoles(a.selected.scopeType, support))
  {
    SelectionContains(h, a, resource);
    var g := AdmittingRole(h, ms, a, resource, support);
    GrantWitness(h, ms, mspId, clientId, siteId, a, g, resource, AccessRoles(a.selected.scopeType, support));
  }
}
