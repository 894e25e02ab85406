/** routes/users.js: /add, /update, /delete and /register. */
module Users {
  import opened Wrappers
  import opened Enum
  import opened Errors
  import opened Body
  import opened Edges
  import opened Reconcile
  import opened Records

  const EMAIL_REQUIRED := "email field must be filled"
  const EMAIL_INVALID := "email field must be valid email"
  const PASSWORD_REQUIRED := "password field must be filled"
  /** The template `at least ${Enum.PASS_LENGTH} characters` with PASS_LENGTH = 8. */
  const PASSWORD_TOO_SHORT := "password length must be at least 8 characters"
  const ROLES_REQUIRED := "roles field must be filled"
  const ROLES_NOT_FOUND := "Roles field must be an array"
  const ID_REQUIRED := "_id is required"

  /** Body of /add and /register. */
  datatype NewUserRequest = NewUserRequest(
    email: Option<string>,
    password: Option<string>,
    firstName: Option<string>,
    lastName: Option<string>,
    phoneNumber: Option<string>,
    roles: ListField<Id>)

  /** Body of /update. */
  datatype UpdateUserRequest = UpdateUserRequest(
    id: Option<Id>,
    password: Option<string>,
    firstName: Option<string>,
    lastName: Option<string>,
    phoneNumber: Option<string>,
    isActive: Option<bool>,
    roles: ListField<Id>)

  /** The checks shared by /add and /register, in source order; the first failure is reported
      and the later checks are not looked at. isEmail stands for is_js's email test. */
  function CheckNewUser(req: NewUserRequest, isEmail: string -> bool): (r: Check)
    ensures r.Pass? <==>
      Filled(req.email) && isEmail(req.email.value) &&
      Filled(req.password) && |req.password.value| >= PASS_LENGTH &&
      NonEmptyList(req.roles)
    ensures r.Fail? ==> r.error.code == BAD_REQUEST && r.error.message == "Validation Error"
    ensures !Filled(req.email) ==> r == Fail(ValidationError(EMAIL_REQUIRED))
    ensures Filled(req.email) && !isEmail(req.email.value) ==> r == Fail(ValidationError(EMAIL_INVALID))
    ensures Filled(req.email) && isEmail(req.email.value) && !Filled(req.password)
      ==> r == Fail(ValidationError(PASSWORD_REQUIRED))
    ensures Filled(req.email) && isEmail(req.email.value) && Filled(req.password) && |req.password.value| < PASS_LENGTH
      ==> r == Fail(ValidationError(PASSWORD_TOO_SHORT))
    ensures Filled(req.email) && isEmail(req.email.value) && Filled(req.password) && |req.password.value| >= PASS_LENGTH &&
      !NonEmptyList(req.roles)
      ==> r == Fail(ValidationError(ROLES_REQUIRED))
  {
    if !Filled(req.email) then Fail(ValidationError(EMAIL_REQUIRED))
    else if !isEmail(req.email.value) then Fail(ValidationError(EMAIL_INVALID))
    else if !Filled(req.password) then Fail(ValidationError(PASSWORD_REQUIRED))
    else if PASS_LENGTH > |req.password.value| then Fail(ValidationError(PASSWORD_TOO_SHORT))
    else if !NonEmptyList(req.roles) then Fail(ValidationError(ROLES_REQUIRED))
    else Pass
  }

  /** Roles.find({ _id: { $in: requested } }) over a collection whose ids are all below bound:
      every existing requested role once, in ascending id (insertion) order; unknown ids and
      repeated ids in the request add nothing. */
  function FindRoles(roles: map<Id, Role>, requested: seq<Id>, bound: nat): (r: seq<Id>)
    ensures forall id :: id in r <==> id < bound && id in roles && id in requested
    ensures forall i, j :: 0 <= i < j < |r| ==> r[i] < r[j]
  {
    if bound == 0 then []
    else
      var below := FindRoles(roles, requested, bound - 1);
      assert forall i :: 0 <= i < |below| ==> below[i] in below;
      below + (if bound - 1 in roles && bound - 1 in requested then [bound - 1] else [])
  }

  /** The user document /add and /register create. */
  function NewUser(req: NewUserRequest): (u: User)
    requires Filled(req.email) && Filled(req.password)
    ensures u.isActive && u.email == req.email.value && u.password == Hashed(req.password.value)
    ensures u.firstName == req.firstName && u.lastName == req.lastName && u.phoneNumber == req.phoneNumber
  {
    User(req.email.value, Hashed(req.password.value), true, req.firstName, req.lastName, req.phoneNumber)
  }

  /** /update writes a password only when one is given and it is SHORTER than PASS_LENGTH. */
  predicate ReplacesPassword(password: Option<string>)
  {
    Filled(password) && PASS_LENGTH > |password.value|
  }

  /** The user document after /update, field by field: a name or phone field changes only when
      given non-empty, is_active only when given as a boolean, the email never. */
  ghost predicate PatchedAsRequested(before: User, after: User, req: UpdateUserRequest)
  {
    after.email == before.email &&
    after.password == (if ReplacesPassword(req.password) then Hashed(req.password.value) else before.password) &&
    after.firstName == (if Filled(req.firstName) then req.firstName else before.firstName) &&
    after.lastName == (if Filled(req.lastName) then req.lastName else before.lastName) &&
    after.phoneNumber == (if Filled(req.phoneNumber) then req.phoneNumber else before.phoneNumber) &&
    after.isActive == (if req.isActive.Some? then req.isActive.value else before.isActive)
  }

  /** POST /users/add */
  method Add(db: Store, req: NewUserRequest, isEmail: string -> bool) returns (reply: Reply)
    requires db.Valid()
    modifies db`users, db`userRoles, db`nextId
    ensures db.Valid()
    ensures CheckNewUser(req, isEmail).Fail? ==> reply == Thrown(CheckNewUser(req, isEmail).error) && unchanged(db)
    ensures CheckNewUser(req, isEmail).Pass? && FindRoles(old(db.roles), req.roles.items, old(db.nextId)) == []
      ==> reply == Thrown(ValidationError(ROLES_NOT_FOUND)) && unchanged(db)
    ensures reply.Ok? <==> CheckNewUser(req, isEmail).Pass? && FindRoles(old(db.roles), req.roles.items, old(db.nextId)) != []
    ensures reply.Ok? ==>
      var uid := old(db.nextId);
      var found := FindRoles(old(db.roles), req.roles.items, old(db.nextId));
      reply.status == CREATED &&
      uid !in old(db.users) &&
      db.users == old(db.users)[uid := NewUser(req)] &&
      db.userRoles == old(db.userRoles) + Link(uid + 1, uid, found) &&
      (forall r :: r in found <==> r in old(db.roles) && r in req.roles.items)
  {
    var check := CheckNewUser(req, isEmail);
    if check.Fail? {
      reply := Thrown(check.error);
      return;
    }
    var roles := FindRoles(db.roles, req.roles.items, db.nextId);
    if |roles| == 0 {
      reply := Thrown(ValidationError(ROLES_NOT_FOUND));
      return;
    }
    var uid := db.CreateUser(NewUser(req));
    SaveUserRoles(db, uid, roles);
    reply := Ok(CREATED);
  }

  /** routes/users.js:67-76: the `updates` object, filled field by field. */
  method UpdatesOf(req: UpdateUserRequest) returns (updates: UserUpdates)
    ensures forall u :: PatchedAsRequested(u, ApplyUser(u, updates), req)
  {
    updates := NoUserUpdates;
    if ReplacesPassword(req.password) {
      updates := updates.(password := Some(Hashed(req.password.value)));
    }
    if Filled(req.firstName) {
      updates := updates.(firstName := req.firstName);
    }
    if Filled(req.lastName) {
      updates := updates.(lastName := req.lastName);
    }
    if Filled(req.phoneNumber) {
      updates := updates.(phoneNumber := req.phoneNumber);
    }
    if req.isActive.Some? {
      updates := updates.(isActive := req.isActive);
    }
  }

  /** POST /users/update */
  method Update(db: Store, req: UpdateUserRequest) returns (reply: Reply)
    requires db.Valid()
    modifies db`users, db`userRoles, db`nextId
    ensures db.Valid()
    ensures req.id.None? ==> reply == Thrown(ValidationError(ID_REQUIRED)) && unchanged(db)
    // `req.body.roles.length` of undefined, or `.filter` of a non-array, throws before any write
    ensures req.id.Some? && (req.roles.Absent? || req.roles == Scalar(true)) ==> reply == Uncaught && unchanged(db)
    ensures req.id.Some? && (req.roles.List? || req.roles == Scalar(false)) ==> reply == Ok(SUCCESS)
    ensures reply.Ok? ==>
      db.users.Keys == old(db.users).Keys &&
      (forall k :: k in db.users && k != req.id.value ==> db.users[k] == old(db.users)[k]) &&
      (req.id.value in db.users ==> PatchedAsRequested(old(db.users)[req.id.value], db.users[req.id.value], req))
    ensures reply.Ok? && req.roles.Scalar? ==> db.userRoles == old(db.userRoles) && db.nextId == old(db.nextId)
    ensures reply.Ok? && req.roles.List? ==>
      db.userRoles == ReplaceAll(old(db.userRoles), req.id.value, req.roles.items, old(db.nextId))
  {
    if req.id.None? {
      reply := Thrown(ValidationError(ID_REQUIRED));
      return;
    }
    var id := req.id.value;
    var updates := UpdatesOf(req);

    if req.roles.Absent? || req.roles == Scalar(true) {
      reply := Uncaught;
      return;
    }
    if req.roles.List? {
      ReconcileRoles(db, id, req.roles.items);
    }
    db.UpdateUser(id, updates);
    reply := Ok(SUCCESS);
  }

  /** The loops of routes/users.js:51-57 and 89-96: one UserRoles document per entry, in order,
      each with a fresh id. */
  method SaveUserRoles(db: Store, user: Id, roleIds: seq<Id>)
    requires db.Valid()
    modifies db`userRoles, db`nextId
    ensures db.Valid()
    ensures db.nextId == old(db.nextId) + |roleIds|
    ensures db.userRoles == old(db.userRoles) + Link(old(db.nextId), user, roleIds)
  {
    var i := 0;
    while i < |roleIds|
      invariant 0 <= i <= |roleIds|
      invariant db.Valid()
      invariant db.nextId == old(db.nextId) + i
      invariant db.userRoles == old(db.userRoles) + Link(old(db.nextId), user, roleIds[..i])
    {
      var edgeId := db.SaveUserRole(user, roleIds[i]);
      LinkSnoc(old(db.nextId), user, roleIds, i);
      i := i + 1;
    }
    assert roleIds[..|roleIds|] == roleIds;
  }

  /** routes/users.js:80-97: bring the user's UserRoles documents in line with the requested
      role ids: one deleteMany for the stale ones, then one save per new id. What the result
      means for the user's roles is proved of ReplaceAll (ReplaceAllEffect, ReplaceAllWithNothing,
      ReplaceAllLeavesOthers, ReplaceAllIdempotent). */
  method ReconcileRoles(db: Store, id: Id, requested: seq<Id>)
    requires db.Valid()
    modifies db`userRoles, db`nextId
    ensures db.Valid()
    ensures db.userRoles == ReplaceAll(old(db.userRoles), id, requested, old(db.nextId))
  {
    var userRoles := OwnedBy(db.userRoles, id);
    var removedRoles := Removed(userRoles, requested);
    var newRoles := Added(userRoles, requested);
    if |removedRoles| > 0 {
      db.DeleteUserRolesWithIds(IdSet(removedRoles));
    }
    SaveUserRoles(db, id, newRoles);
  }

  /** DELETE /users/delete: the user and every UserRoles document naming it. */
  method Delete(db: Store, id: Option<Id>) returns (reply: Reply)
    requires db.Valid()
    modifies db`users, db`userRoles
    ensures db.Valid()
    ensures id.None? ==> reply == Thrown(ValidationError(ID_REQUIRED)) && unchanged(db)
    ensures id.Some? ==>
      reply == Ok(SUCCESS) &&
      db.users == old(db.users) - {id.value} &&
      db.userRoles == DeleteOwned(old(db.userRoles), id.value)
    ensures id.Some? ==>
      OwnedBy(db.userRoles, id.value) == [] &&
      forall v :: v != id.value ==> OwnedBy(db.userRoles, v) == OwnedBy(old(db.userRoles), v)
  {
    if id.None? {
      reply := Thrown(ValidationError(ID_REQUIRED));
      return;
    }
    db.DeleteUser(id.value);
    db.DeleteUserRolesOf(id.value);
    OwnedByDeleteOwned(old(db.userRoles), id.value, id.value);
    forall v | v != id.value ensures OwnedBy(db.userRoles, v) == OwnedBy(old(db.userRoles), v) {
      OwnedByDeleteOwned(old(db.userRoles), id.value, v);
    }
    reply := Ok(SUCCESS);
  }

  /** POST /users/register: only while there is no user at all; makes the first user, a
      SUPER_ADMIN role created by that user, and the link between them. The roles field is
      checked but not used. */
  method Register(db: Store, req: NewUserRequest, isEmail: string -> bool) returns (reply: Reply)
    requires db.Valid()
    modifies db`users, db`roles, db`userRoles, db`nextId
    ensures db.Valid()
    ensures old(db.users) != map[] ==> reply == Status(NOT_FOUND) && unchanged(db)
    ensures old(db.users) == map[] && CheckNewUser(req, isEmail).Fail?
      ==> reply == Thrown(CheckNewUser(req, isEmail).error) && unchanged(db)
    ensures old(db.users) == map[] && CheckNewUser(req, isEmail).Pass? ==>
      var uid := old(db.nextId);
      reply == Ok(CREATED) &&
      db.users == map[uid := NewUser(req)] &&
      uid + 1 !in old(db.roles) &&
      db.roles == old(db.roles)[uid + 1 := Role(SUPER_ADMIN_ROLE, true, Some(uid))] &&
      db.userRoles == old(db.userRoles) + [Edge(uid + 2, uid, uid + 1)]
  {
    if db.users != map[] {
      reply := Status(NOT_FOUND);
      return;
    }
    var check := CheckNewUser(req, isEmail);
    if check.Fail? {
      reply := Thrown(check.error);
      return;
    }
    var uid := db.CreateUser(NewUser(req));
    var rid := db.CreateRole(Role(SUPER_ADMIN_ROLE, true, Some(uid)));
    var edgeId := db.SaveUserRole(uid, rid);
    reply := Ok(CREATED);
  }
}
