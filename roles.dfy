/** routes/roles.js: /add, /update and /delete. */
module Roles {
  import opened Wrappers
  import opened Enum
  import opened Errors
  import opened Body
  import opened Edges
  import opened Reconcile
  import opened Records

  const ROLE_NAME_REQUIRED := "role_name field must be filled"
  const PERMISSIONS_REQUIRED := "permissions field must be an array"
  const ID_REQUIRED := "_id is required"
  const ID_MISSING := "_id field must be filled"

  /** Body of /add; user is `req.body.user?._id`. */
  datatype NewRoleRequest = NewRoleRequest(roleName: Option<string>, permissions: ListField<string>, user: Option<Id>)

  /** Body of /update. */
  datatype UpdateRoleRequest = UpdateRoleRequest(
    id: Option<Id>,
    roleName: Option<string>,
    isActive: Option<bool>,
    permissions: ListField<string>)

  /** The two checks of /add, role_name first. */
  function CheckNewRole(req: NewRoleRequest): (r: Check)
    ensures r.Pass? <==> Filled(req.roleName) && NonEmptyList(req.permissions)
    ensures r.Fail? ==> r.error.code == BAD_REQUEST && r.error.message == "Validation Error"
    ensures !Filled(req.roleName) ==> r == Fail(ValidationError(ROLE_NAME_REQUIRED))
    ensures Filled(req.roleName) && !NonEmptyList(req.permissions) ==> r == Fail(ValidationError(PERMISSIONS_REQUIRED))
  {
    if !Filled(req.roleName) then Fail(ValidationError(ROLE_NAME_REQUIRED))
    else if !NonEmptyList(req.permissions) then Fail(ValidationError(PERMISSIONS_REQUIRED))
    else Pass
  }

  /** The role document after /update: role_name changes only when given non-empty, is_active
      only when given as a boolean; createdBy never. */
  ghost predicate PatchedAsRequested(before: Role, after: Role, req: UpdateRoleRequest)
  {
    after.createdBy == before.createdBy &&
    after.roleName == (if Filled(req.roleName) then req.roleName.value else before.roleName) &&
    after.isActive == (if req.isActive.Some? then req.isActive.value else before.isActive)
  }

  /** The loops of routes/roles.js:34-40 and 69-75: one RolePrivileges document per entry, in
      order and duplicates included, each with a fresh id. */
  method SavePrivileges(db: Store, role: Id, permissions: seq<string>)
    requires db.Valid()
    modifies db`rolePrivileges, db`nextId
    ensures db.Valid()
    ensures db.nextId == old(db.nextId) + |permissions|
    ensures db.rolePrivileges == old(db.rolePrivileges) + Link(old(db.nextId), role, permissions)
  {
    var i := 0;
    while i < |permissions|
      invariant 0 <= i <= |permissions|
      invariant db.Valid()
      invariant db.nextId == old(db.nextId) + i
      invariant db.rolePrivileges == old(db.rolePrivileges) + Link(old(db.nextId), role, permissions[..i])
    {
      var edgeId := db.SavePrivilege(role, permissions[i]);
      LinkSnoc(old(db.nextId), role, permissions, i);
      i := i + 1;
    }
    assert permissions[..|permissions|] == permissions;
  }

  /** POST /roles/add */
  method Add(db: Store, req: NewRoleRequest) returns (reply: Reply)
    requires db.Valid()
    modifies db`roles, db`rolePrivileges, db`nextId
    ensures db.Valid()
    ensures CheckNewRole(req).Fail? ==> reply == Thrown(CheckNewRole(req).error) && unchanged(db)
    ensures CheckNewRole(req).Pass? ==>
      var rid := old(db.nextId);
      reply == Ok(SUCCESS) &&
      rid !in old(db.roles) &&
      db.roles == old(db.roles)[rid := Role(req.roleName.value, true, req.user)] &&
      db.rolePrivileges == old(db.rolePrivileges) + Link(rid + 1, rid, req.permissions.items)
  {
    var check := CheckNewRole(req);
    if check.Fail? {
      reply := Thrown(check.error);
      return;
    }
    var rid := db.CreateRole(Role(req.roleName.value, true, req.user));
    SavePrivileges(db, rid, req.permissions.items);
    reply := Ok(SUCCESS);
  }

  /** routes/roles.js:55-56: the `updates` object, filled field by field. */
  method UpdatesOf(req: UpdateRoleRequest) returns (updates: RoleUpdates)
    ensures forall r :: PatchedAsRequested(r, ApplyRole(r, updates), req)
  {
    updates := NoRoleUpdates;
    if Filled(req.roleName) {
      updates := updates.(roleName := Some(req.roleName.value));
    }
    if req.isActive.Some? {
      updates := updates.(isActive := req.isActive);
    }
  }

  /** routes/roles.js:59-76: bring the role's RolePrivileges documents towards the requested
      permissions: ONE deleteOne over the stale ones, then one save per new permission. What the
      result means for the role's permissions is proved of ReplaceOne (ReplaceOneEffect,
      ReplaceOneLeavesOthers). */
  method ReconcilePermissions(db: Store, id: Id, requested: seq<string>)
    requires db.Valid()
    modifies db`rolePrivileges, db`nextId
    ensures db.Valid()
    ensures db.rolePrivileges == ReplaceOne(old(db.rolePrivileges), id, requested, old(db.nextId))
  {
    var permissions := OwnedBy(db.rolePrivileges, id);
    var removedPermissions := Removed(permissions, requested);
    var newPermissions := Added(permissions, requested);
    if |removedPermissions| > 0 {
      db.DeleteOnePrivilegeWithIds(IdSet(removedPermissions));
    }
    SavePrivileges(db, id, newPermissions);
  }

  /** POST /roles/update */
  method Update(db: Store, req: UpdateRoleRequest) returns (reply: Reply)
    requires db.Valid()
    modifies db`roles, db`rolePrivileges, db`nextId
    ensures db.Valid()
    ensures req.id.None? ==> reply == Thrown(ValidationError(ID_REQUIRED)) && unchanged(db)
    ensures req.id.Some? ==>
      reply == Ok(SUCCESS) &&
      db.roles.Keys == old(db.roles).Keys &&
      (forall k :: k in db.roles && k != req.id.value ==> db.roles[k] == old(db.roles)[k]) &&
      (req.id.value in db.roles ==> PatchedAsRequested(old(db.roles)[req.id.value], db.roles[req.id.value], req))
    // absent, not an array, or empty: the privileges are not touched
    ensures req.id.Some? && !NonEmptyList(req.permissions) ==>
      db.rolePrivileges == old(db.rolePrivileges) && db.nextId == old(db.nextId)
    ensures req.id.Some? && NonEmptyList(req.permissions) ==>
      db.rolePrivileges == ReplaceOne(old(db.rolePrivileges), req.id.value, req.permissions.items, old(db.nextId))
  {
    if req.id.None? {
      reply := Thrown(ValidationError(ID_REQUIRED));
      return;
    }
    var id := req.id.value;
    var updates := UpdatesOf(req);
    if NonEmptyList(req.permissions) {
      ReconcilePermissions(db, id, req.permissions.items);
    }
    db.UpdateRole(id, updates);
    reply := Ok(SUCCESS);
  }

  /** DELETE /roles/delete: the role and every RolePrivileges document naming it. UserRoles
      documents naming the role are left in place. */
  method Delete(db: Store, id: Option<Id>) returns (reply: Reply)
    requires db.Valid()
    modifies db`roles, db`rolePrivileges
    ensures db.Valid()
    ensures id.None? ==> reply == Thrown(ValidationError(ID_MISSING)) && unchanged(db)
    ensures id.Some? ==>
      reply == Ok(SUCCESS) &&
      db.roles == old(db.roles) - {id.value} &&
      db.rolePrivileges == DeleteOwned(old(db.rolePrivileges), id.value)
    ensures id.Some? ==>
      OwnedBy(db.rolePrivileges, id.value) == [] &&
      forall v :: v != id.value ==> OwnedBy(db.rolePrivileges, v) == OwnedBy(old(db.rolePrivileges), v)
  {
    if id.None? {
      reply := Thrown(ValidationError(ID_MISSING));
      return;
    }
    db.DeleteRole(id.value);
    db.DeletePrivilegesOf(id.value);
    OwnedByDeleteOwned(old(db.rolePrivileges), id.value, id.value);
    forall v | v != id.value ensures OwnedBy(db.rolePrivileges, v) == OwnedBy(old(db.rolePrivileges), v) {
      OwnedByDeleteOwned(old(db.rolePrivileges), id.value, v);
    }
    reply := Ok(SUCCESS);
  }
}
