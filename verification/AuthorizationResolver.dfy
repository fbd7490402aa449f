/** The loops of internal/platform/authorization_result.go and authorize.go, proved against Authorization. */
module AuthorizationResolver {
  import opened Wrappers
  import opened Sorting
  import opened Authorization

  method CollectRoles(grants: seq<Grant>) returns (roles: seq<Role>)
    ensures Distinct(roles)
    ensures forall role :: role in roles <==> exists g :: g in grants && g.role == role
  {
    roles := [];
    var n := 0;
    while n < |grants|
      invariant 0 <= n <= |grants| && Distinct(roles)
      invariant forall role :: role in roles <==> exists g :: g in grants[..n] && g.role == role
    {
      assert grants[..n + 1] == grants[..n] + [grants[n]];
      ghost var before := roles;
      if grants[n].role !in roles {
        roles := roles + [grants[n].role];
      }
      RolesStep(before, roles, grants[..n], grants[n]);
      n := n + 1;
    }
    assert grants[..n] == grants;
  }

  lemma RolesStep(before: seq<Role>, after: seq<Role>, grants: seq<Grant>, g: Grant)
    requires forall role :: role in before <==> exists x :: x in grants && x.role == role
    requires after == if g.role in before then before else before + [g.role]
    ensures forall role :: role in after <==> exists x :: x in grants + [g] && x.role == role
  {
    assert g in grants + [g];
    forall role ensures role in after <==> exists x :: x in grants + [g] && x.role == role {
      if role in before {
        var x :| x in grants && x.role == role;
        assert x in grants + [g];
      }
      if x :| x in grants + [g] && x.role == role {
        assert x in grants || x == g;
      }
    }
  }

  method CollectPermissions(roles: seq<Role>) returns (permissions: seq<Permission>)
    ensures Distinct(permissions)
    ensures forall p :: p in permissions <==> exists role :: role in roles && p in RolePermissions(role)
  {
    var granted: set<Permission> := {};
    var n := 0;
    while n < |roles|
      invariant 0 <= n <= |roles|
      invariant forall p :: p in granted <==> exists role :: role in roles[..n] && p in RolePermissions(role)
    {
      assert roles[..n + 1] == roles[..n] + [roles[n]];
      PermissionsStep(granted, roles[..n], roles[n]);
      granted := granted + RolePermissions(roles[n]);
      n := n + 1;
    }
    assert roles[..n] == roles;
    permissions := [];
    var left := granted;
    while left != {}
      invariant Distinct(permissions)
      invariant forall p :: p in granted <==> p in left || p in permissions
      invariant forall p :: p in permissions ==> p !in left
      decreases left
    {
      var p :| p in left;
      permissions := permissions + [p];
      left := left - {p};
    }
  }

  lemma PermissionsStep(granted: set<Permission>, roles: seq<Role>, role: Role)
    requires forall p :: p in granted <==> exists r :: r in roles && p in RolePermissions(r)
    ensures forall p :: p in granted + RolePermissions(role) <==> exists r :: r in roles + [role] && p in RolePermissions(r)
  {
    assert role in roles + [role];
    forall p ensures p in granted + RolePermissions(role) <==> exists r :: r in roles + [role] && p in RolePermissions(r) {
      if p in granted {
        var r :| r in roles && p in RolePermissions(r);
        assert r in roles + [role];
      }
      if r :| r in roles + [role] && p in RolePermissions(r) {
        assert r in roles || r == role;
      }
    }
  }

  method NewAuthorizationResult(selected: Scope, grants: seq<Grant>) returns (r: AuthorizationResult)
    ensures IsResult(selected, grants, r)
  {
    var sorted := Sort(grants, GrantLeq);
    GrantOrder();
    SortIsSortedPermutation(grants, GrantLeq);
    SameElements(sorted, grants);
    var collected := CollectRoles(sorted);
    var roles := Sort(collected, RoleLeq);
    SortIsSortedPermutation(collected, RoleLeq);
    SameElements(roles, collected);
    DistinctPermutation(collected, roles);
    assert RolesOf(roles, grants);
    var permissions := SortedPermissions(roles);
    return AuthorizationResult(selected, sorted, roles, permissions);
  }

  method SortedPermissions(roles: seq<Role>) returns (permissions: seq<Permission>)
    ensures PermissionsOf(permissions, roles)
  {
    var found := CollectPermissions(roles);
    permissions := Sort(found, PermissionLeq);
    PermissionOrder(found);
    SortIsSortedPermutation(found, PermissionLeq);
    SameElements(permissions, found);
    DistinctPermutation(found, permissions);
  }

  method ResolveAuthorization(h: Hierarchy, ms: seq<Membership>, mspId: Id, clientId: Id, siteId: Id)
    returns (r: Option<AuthorizationResult>)
    ensures Resolves(h, ms, mspId, clientId, siteId, r)
  {
    var scope := SelectedScope(h, mspId, clientId, siteId);
    if scope.None? {
      return None;
    }
    var grants: seq<Grant> := [];
    var n := 0;
    while n < |ms|
      invariant 0 <= n <= |ms|
      invariant grants == EffectiveGrants(ms[..n], scope.value)
    {
      assert ms[..n + 1][..n] == ms[..n];
      var m := ms[n];
      if ValidRoleForScope(m.scopeType, m.role) && Applies(m, scope.value) {
        grants := grants + [Grant(m.role, m.scopeType, m.scopeId, m.scopeType != scope.value.scopeType || m.scopeId != scope.value.id)];
      }
      n := n + 1;
    }
    assert ms[..n] == ms;
    var authorization := NewAuthorizationResult(scope.value, grants);
    RolesIffGrants(grants, authorization.roles);
    if |authorization.roles| == 0 {
      return None;
    }
    return Some(authorization);
  }

  lemma RolesIffGrants(grants: seq<Grant>, roles: seq<Role>)
    requires RolesOf(roles, grants)
    ensures roles == [] <==> grants == []
  {
    if grants != [] {
      assert grants[0] in grants;
      assert grants[0].role in roles;
    }
    if roles != [] {
      assert roles[0] in roles;
    }
  }

  // ---------------------------------------------------------------- ValidateDeviceAncestry

  /** The rows of devices that the query finds, by device ID. */
  datatype Owner = Owner(mspId: Id, clientId: Id, siteId: Id)

  method Unique(ids: seq<Id>) returns (unique: seq<Id>)
    ensures Distinct(unique) && forall id :: id in unique <==> id in ids
  {
    unique := [];
    var seen: set<Id> := {};
    var n := 0;
    while n < |ids|
      invariant 0 <= n <= |ids| && Distinct(unique)
      invariant forall id :: id in seen <==> id in unique
      invariant forall id :: id in unique <==> id in ids[..n]
    {
      assert ids[..n + 1] == ids[..n] + [ids[n]];
      if ids[n] !in seen {
        seen := seen + {ids[n]};
        unique := unique + [ids[n]];
      }
      n := n + 1;
    }
    assert ids[..n] == ids;
  }

  lemma {:induction false} FoundCount(devices: map<Id, Owner>, mspId: Id, unique: seq<Id>)
    requires Distinct(unique)
    ensures |FoundIn(devices, mspId, unique)| <= |unique|
    ensures |FoundIn(devices, mspId, unique)| == |unique| <==>
            forall id :: id in unique ==> id in devices && devices[id].mspId == mspId
  {
    if unique != [] {
      var n := |unique| - 1;
      FoundCount(devices, mspId, unique[..n]);
      assert unique == unique[..n] + [unique[n]];
      var found, rest := FoundIn(devices, mspId, unique), FoundIn(devices, mspId, unique[..n]);
      var id := unique[n];
      assert id !in unique[..n];
      if id in devices && devices[id].mspId == mspId {
        assert found == rest + {id};
      } else {
        assert found == rest && id in unique;
      }
    }
  }

  /** SELECT ... WHERE id = ANY(unique) AND msp_id = mspId: one row per device. */
  ghost function FoundIn(devices: map<Id, Owner>, mspId: Id, unique: seq<Id>): set<Id> {
    set id | id in unique && id in devices && devices[id].mspId == mspId
  }

  /** The rows the query yields, in an order of the database's choice, with the devices they belong to. */
  method QueryOwners(devices: map<Id, Owner>, unique: seq<Id>, mspId: Id) returns (owners: seq<Owner>, ghost order: seq<Id>)
    ensures Distinct(order) && forall id :: id in order <==> id in FoundIn(devices, mspId, unique)
    ensures |owners| == |order| == |FoundIn(devices, mspId, unique)|
    ensures forall i :: 0 <= i < |order| ==> order[i] in devices && owners[i] == devices[order[i]]
  {
    owners, order := [], [];
    var left := set id | id in unique && id in devices && devices[id].mspId == mspId;
    ghost var found := FoundIn(devices, mspId, unique);
    while left != {}
      invariant left <= found && Distinct(order) && |order| == |owners|
      invariant forall id :: id in found <==> id in left || id in order
      invariant forall id :: id in order ==> id !in left
      invariant |order| + |left| == |found|
      invariant forall i :: 0 <= i < |order| ==> order[i] in devices && owners[i] == devices[order[i]]
      decreases left
    {
      var id :| id in left;
      owners := owners + [devices[id]];
      order := order + [id];
      left := left - {id};
    }
  }

  /**
    Comparing the row count with the deduplicated request proves that every device belongs to the MSP; the result then
    holds the ownership row of every requested device, once.
   */
  method ValidateDeviceAncestry(devices: map<Id, Owner>, ids: seq<Id>, mspId: Id)
    returns (r: Option<seq<Owner>>, ghost order: seq<Id>)
    ensures r.Some? <==> forall id :: id in ids ==> id in devices && devices[id].mspId == mspId
    ensures r.Some? ==> Distinct(order) && |order| == |r.value| && forall id :: id in order <==> id in ids
    ensures r.Some? ==> forall i :: 0 <= i < |order| ==> order[i] in devices && r.value[i] == devices[order[i]]
  {
    order := [];
    if |ids| == 0 {
      return Some([]), [];
    }
    var unique := Unique(ids);
    FoundCount(devices, mspId, unique);
    var owners;
    owners, order := QueryOwners(devices, unique, mspId);
    return if |owners| == |unique| then Some(owners) else None, order;
  }
}
