/** The collections the routes read and write (Users, Roles, Categories, UserRoles,
    RolePrivileges), held in memory by one Store object, and the single-collection operations
    the handlers issue against them. */
module Records {
  import opened Wrappers
  import opened Edges

  /** A bcrypt hash of a plaintext password. The hash function is not modelled: two hashes are
      equal exactly when their plaintexts are. The plaintext itself is never stored. */
  datatype Password = Hashed(plain: string)

  datatype User = User(
    email: string,
    password: Password,
    isActive: bool,
    firstName: Option<string>,
    lastName: Option<string>,
    phoneNumber: Option<string>)

  datatype Role = Role(roleName: string, isActive: bool, createdBy: Option<Id>)

  datatype Category = Category(name: string, isActive: bool, createdBy: Option<Id>)

  /** A UserRoles document: owner is user_id, peer is role_id. */
  type UserRole = Edge<Id>

  /** A RolePrivileges document: owner is role_id, peer is the permission string. */
  type RolePrivilege = Edge<string>

  /** The `updates` objects the update routes build: a field set here overwrites the stored one. */
  datatype UserUpdates = UserUpdates(
    password: Option<Password>,
    firstName: Option<string>,
    lastName: Option<string>,
    phoneNumber: Option<string>,
    isActive: Option<bool>)

  datatype RoleUpdates = RoleUpdates(roleName: Option<string>, isActive: Option<bool>)

  datatype CategoryUpdates = CategoryUpdates(name: Option<string>, isActive: Option<bool>)

  const NoUserUpdates := UserUpdates(None, None, None, None, None)
  const NoRoleUpdates := RoleUpdates(None, None)
  const NoCategoryUpdates := CategoryUpdates(None, None)

  function Pick<T>(update: Option<T>, stored: T): T
  {
    if update.Some? then update.value else stored
  }

  /** updateOne(filter, updates) on a user document. */
  function ApplyUser(u: User, p: UserUpdates): User
  {
    u.(password := Pick(p.password, u.password),
       firstName := if p.firstName.Some? then p.firstName else u.firstName,
       lastName := if p.lastName.Some? then p.lastName else u.lastName,
       phoneNumber := if p.phoneNumber.Some? then p.phoneNumber else u.phoneNumber,
       isActive := Pick(p.isActive, u.isActive))
  }

  function ApplyRole(r: Role, p: RoleUpdates): Role
  {
    r.(roleName := Pick(p.roleName, r.roleName), isActive := Pick(p.isActive, r.isActive))
  }

  function ApplyCategory(c: Category, p: CategoryUpdates): Category
  {
    c.(name := Pick(p.name, c.name), isActive := Pick(p.isActive, c.isActive))
  }

  class Store {
    var users: map<Id, User>
    var roles: map<Id, Role>
    var categories: map<Id, Category>
    var userRoles: seq<UserRole>
    var rolePrivileges: seq<RolePrivilege>
    /** Source of fresh document ids (MongoDB generates them; here a counter does). */
    var nextId: nat

    /** Every stored id came from the counter, and no two link documents share an id. */
    ghost predicate Valid()
      reads this
    {
      (forall id :: id in users ==> id < nextId) &&
      (forall id :: id in roles ==> id < nextId) &&
      (forall id :: id in categories ==> id < nextId) &&
      IdsBelow(userRoles, nextId) && IdsDetermineEdges(userRoles) &&
      IdsBelow(rolePrivileges, nextId) && IdsDetermineEdges(rolePrivileges)
    }

    constructor ()
      ensures Valid()
      ensures users == map[] && roles == map[] && categories == map[]
      ensures userRoles == [] && rolePrivileges == []
    {
      users, roles, categories := map[], map[], map[];
      userRoles, rolePrivileges := [], [];
      nextId := 0;
    }

    // Users

    method CreateUser(u: User) returns (id: Id)
      requires Valid()
      modifies this`users, this`nextId
      ensures Valid()
      ensures id == old(nextId) && nextId == id + 1 && id !in old(users)
      ensures users == old(users)[id := u]
    {
      id := nextId;
      users := users[id := u];
      nextId := nextId + 1;
    }

    /** Users.updateOne({ _id: id }, updates): no document matches an unknown id. */
    method UpdateUser(id: Id, updates: UserUpdates)
      requires Valid()
      modifies this`users
      ensures Valid()
      ensures users == if id in old(users) then old(users)[id := ApplyUser(old(users)[id], updates)] else old(users)
    {
      if id in users {
        users := users[id := ApplyUser(users[id], updates)];
      }
    }

    method DeleteUser(id: Id)
      requires Valid()
      modifies this`users
      ensures Valid()
      ensures users == old(users) - {id}
    {
      users := users - {id};
    }

    // Roles

    method CreateRole(r: Role) returns (id: Id)
      requires Valid()
      modifies this`roles, this`nextId
      ensures Valid()
      ensures id == old(nextId) && nextId == id + 1 && id !in old(roles)
      ensures roles == old(roles)[id := r]
    {
      id := nextId;
      roles := roles[id := r];
      nextId := nextId + 1;
    }

    method UpdateRole(id: Id, updates: RoleUpdates)
      requires Valid()
      modifies this`roles
      ensures Valid()
      ensures roles == if id in old(roles) then old(roles)[id := ApplyRole(old(roles)[id], updates)] else old(roles)
    {
      if id in roles {
        roles := roles[id := ApplyRole(roles[id], updates)];
      }
    }

    method DeleteRole(id: Id)
      requires Valid()
      modifies this`roles
      ensures Valid()
      ensures roles == old(roles) - {id}
    {
      roles := roles - {id};
    }

    // Categories

    method CreateCategory(c: Category) returns (id: Id)
      requires Valid()
      modifies this`categories, this`nextId
      ensures Valid()
      ensures id == old(nextId) && nextId == id + 1 && id !in old(categories)
      ensures categories == old(categories)[id := c]
    {
      id := nextId;
      categories := categories[id := c];
      nextId := nextId + 1;
    }

    method UpdateCategory(id: Id, updates: CategoryUpdates)
      requires Valid()
      modifies this`categories
      ensures Valid()
      ensures categories == if id in old(categories) then old(categories)[id := ApplyCategory(old(categories)[id], updates)] else old(categories)
    {
      if id in categories {
        categories := categories[id := ApplyCategory(categories[id], updates)];
      }
    }

    method DeleteCategory(id: Id)
      requires Valid()
      modifies this`categories
      ensures Valid()
      ensures categories == old(categories) - {id}
    {
      categories := categories - {id};
    }

    // UserRoles

    /** new UserRoles({ user_id, role_id }).save() */
    method SaveUserRole(user: Id, role: Id) returns (id: Id)
      requires Valid()
      modifies this`userRoles, this`nextId
      ensures Valid()
      ensures id == old(nextId) && nextId == id + 1
      ensures userRoles == old(userRoles) + [Edge(id, user, role)]
    {
      id := nextId;
      userRoles := userRoles + [Edge(id, user, role)];
      nextId := nextId + 1;
    }

    /** UserRoles.deleteMany({ _id: { $in: ids } }) */
    method DeleteUserRolesWithIds(ids: set<Id>)
      requires Valid()
      modifies this`userRoles
      ensures Valid()
      ensures userRoles == DeleteIds(old(userRoles), ids)
    {
      userRoles := DeleteIds(userRoles, ids);
    }

    /** UserRoles.deleteMany({ user_id: user }) */
    method DeleteUserRolesOf(user: Id)
      requires Valid()
      modifies this`userRoles
      ensures Valid()
      ensures userRoles == DeleteOwned(old(userRoles), user)
    {
      userRoles := DeleteOwned(userRoles, user);
    }

    // RolePrivileges

    /** new RolePrivileges({ role_id, permission }).save() */
    method SavePrivilege(role: Id, permission: string) returns (id: Id)
      requires Valid()
      modifies this`rolePrivileges, this`nextId
      ensures Valid()
      ensures id == old(nextId) && nextId == id + 1
      ensures rolePrivileges == old(rolePrivileges) + [Edge(id, role, permission)]
    {
      id := nextId;
      rolePrivileges := rolePrivileges + [Edge(id, role, permission)];
      nextId := nextId + 1;
    }

    /** RolePrivileges.deleteOne({ _id: { $in: ids } }) */
    method DeleteOnePrivilegeWithIds(ids: set<Id>)
      requires Valid()
      modifies this`rolePrivileges
      ensures Valid()
      ensures rolePrivileges == DeleteFirst(old(rolePrivileges), ids)
    {
      rolePrivileges := DeleteFirst(rolePrivileges, ids);
    }

    /** RolePrivileges.deleteMany({ role_id: role }) */
    method DeletePrivilegesOf(role: Id)
      requires Valid()
      modifies this`rolePrivileges
      ensures Valid()
      ensures rolePrivileges == DeleteOwned(old(rolePrivileges), role)
    {
      rolePrivileges := DeleteOwned(rolePrivileges, role);
    }
  }
}
