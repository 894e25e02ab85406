# Admin backend: users, roles and categories

This is a Dafny model of the write paths of a small Express/Mongoose admin backend. It covers
the `/users`, `/roles` and `/categories` route handlers. Each handler validates a request
body, then reads and writes a few MongoDB collections:

- `Users`, `Roles` and `Categories` hold the records;
- `UserRoles` holds user→role links;
- `RolePrivileges` holds role→permission links.

The model answers with a success envelope, a bare status, or an error envelope built from a
`CustomError`.

## How it is modelled

- **Store.** `Records.Store` is a class that stands for the database.
  - The three record collections are `map`s from id to record.
  - The two link collections are `seq`s of `Edge(id, owner, peer)` in insertion order.
  - One counter, `nextId`, stands for ObjectId generation.
  - Each single-collection database operation (create, updateOne, deleteOne, deleteMany, save)
    is a method of `Store`. Each route handler is a module-level method that takes the `Store`
    as a parameter (for example `Users.Add(db, …)`). Both kinds carry field-level `modifies`
    clauses, so "nothing else changes" is part of each contract.
  - `Valid()` states two things: every stored id is below the counter, and an id determines
    its link.
- **Request bodies.** Each body is a datatype whose fields are `Option`s.
  - `Body.Filled` is JavaScript truthiness on a string.
  - `Body.ListField` tells apart three cases: an absent field, a non-array value (which
    either has a positive `length` or not), and an array.
- **Replies.** `Errors.Reply` records how a handler ends.
  - `Ok(status)` is a success envelope with that status.
  - `Status(404)` is the bare `sendStatus` of `/register`.
  - `Thrown(CustomError)` is a caught validation error.
  - `Uncaught` is a TypeError raised by the handler's own code, which the response layer turns
    into its default 500.
- **Reconciliation.** The link reconciliation of `/users/update` and `/roles/update` is
  modelled in module `Reconcile`.
  - `Removed` and `Added` are the source's `removed…`/`new…` computations.
  - `ReplaceAll` is deleteMany-then-save and `ReplaceOne` is deleteOne-then-save.
  - Each update method is proved to write exactly `ReplaceAll` or `ReplaceOne` of the old
    link table. The meaning of those two functions is proved as separate lemmas.

Behaviour is modelled as the code is written, including these points:

- **Empty roles array.** `/users/update` reconciles whenever `roles` is an array, because the
  guard at `routes/users.js:78` is a disjunction. So an empty array removes every role of the
  user (`Reconcile.ReplaceAllWithNothing`). When `roles` is missing, the same guard reads
  `.length` of `undefined` and the handler fails before any write. When `roles` is a
  non-array with a positive length, the `.filter` call fails the same way.
- **One stale permission per update.** `/roles/update` deletes at most ONE stale permission
  link per call (`deleteOne`). So the role's permission set equals the requested set exactly
  when at most one stale link existed. `Reconcile.ReplaceOneEffect` states this in both
  directions.
- **Short passwords on update.** `/users/update` stores a new password only when it is
  shorter than `PASS_LENGTH` (`routes/users.js:70`), which is the opposite of the `/add`
  check.
- **Roles check on `/register`.** `/users/register` demands a non-empty `roles` array but
  never uses it. It creates the first user, a `SUPER_ADMIN` role whose `createdBy` is that
  user, and one link between them.
- **Stale role links.** Deleting a role leaves the `UserRoles` links that name it.

## Model

| member | source | states |
|---|---|---|
| Edges.OwnedBy | routes/users.js:80 | `find({ user_id })` returns exactly the edges of that owner. It never returns more edges than the table holds. |
| Edges.Link | routes/users.js:51-57 | The links a save loop appends: one per entry, all owned by the given record, with ids in the fresh range from the counter. Their peers are the entries in order (Edges.PeersOfLink, Edges.PeersAfterLink). |
| Edges.Peers | routes/users.js:83 | `map(r => r.role_id)`: the result has the same length as the edges, and its i-th entry is the i-th edge's peer. |
| Edges.IdSet | routes/users.js:86 | `removedRoles.map(x => x._id)`: an id is in the set iff some given edge carries it. |
| Edges.DeleteIds | routes/users.js:86 | deleteMany by `_id $in`: an edge survives iff it was stored and its id is not listed. |
| Edges.DeleteOwned | routes/users.js:112 | deleteMany by owner: an edge survives iff it was stored and belongs to another owner. |
| Edges.DeleteFirst | routes/roles.js:64-66 | deleteOne by `_id $in`: no edge is invented. |
| Edges.DeleteFirstRemovesFirstMatch | routes/roles.js:64-66 | deleteOne removes exactly the first edge in table order whose id is listed. Every other edge stays, in order. |
| Edges.DeleteFirstNoMatch | routes/roles.js:63-66 | When no stored id is listed, deleteOne leaves the table as it was. |
| Edges.OwnedByDeleteOwned | routes/roles.js:92 | After the cascade delete, a lookup of that owner's edges is empty. Every other owner's edges are unchanged, in order. |
| Edges.PeersAfterLink | routes/roles.js:34-40 | After a save loop, the owner's peer list is its old list followed by the saved entries, in order and duplicates included. |
| Reconcile.Removed | routes/users.js:82 | A stored edge is removed iff the request does not name its peer. There are never more removed edges than stored ones. The same holds for routes/roles.js:60. |
| Reconcile.Added | routes/users.js:83 | A peer is new iff it is requested and no stored edge holds it. The same holds for routes/roles.js:61. |
| Reconcile.AddedCount | routes/roles.js:61 | A peer not yet held appears in the new list as often as in the request. A held peer never appears. |
| Reconcile.KeptAndRemovedSplit | routes/users.js:82 | As multisets, the owner's stored edges are exactly the kept edges plus the removed edges. |
| Reconcile.RemovedIdsAreStale | routes/users.js:86 | Because ids identify edges, a stored edge's id is among the removed ids iff that edge belongs to the owner and has an unrequested peer. |
| Reconcile.DeleteIdsIsDetach | routes/users.js:85-87 | Given such an id set, deleteMany removes exactly the stale edges of the owner. |
| Reconcile.DeleteFirstIsDropFirstStale | routes/roles.js:63-67 | Given such an id set, deleteOne removes exactly the first stale edge of the owner. |
| Reconcile.DropFirstStaleRemovesFirst | routes/roles.js:64-66 | The single removed edge is the first stale edge in table order, and the rest stays in order. |
| Reconcile.DropFirstStaleCounts | routes/roles.js:63-67 | After deleteOne, the kept edges are unchanged and the number of stale edges drops by one if there was any. |
| Reconcile.ReplaceAll | routes/users.js:80-97 | The link table after the user reconciliation as written: deleteMany of the removed ids, then the new links. Every resulting link was stored before or is a new link of that user to a requested role, with an id from the counter onwards. When nothing is stale, the old table is kept as a prefix. Its meaning is proved in ReplaceAllEffect, ReplaceAllWithNothing, ReplaceAllLeavesOthers and ReplaceAllIdempotent. |
| Reconcile.ReplaceOne | routes/roles.js:59-76 | The permission table after the role reconciliation as written: deleteOne over the removed ids, then the new links. The same two facts as ReplaceAll hold. Its meaning is proved in ReplaceOneEffect and ReplaceOneLeavesOthers. |
| Reconcile.ReplaceAllOwnedBy | routes/users.js:80-97 | After a user update, the user's edges are the kept edges followed by one fresh edge per new role. Every other user's edges are unchanged. |
| Reconcile.ReplaceAllEffect | routes/users.js:80-97 | After a user update, the user's role set equals the requested set. The role-id multiset is the kept edges' roles plus the new list. |
| Reconcile.ReplaceAllWithNothing | routes/users.js:78-97 | An empty roles array leaves the user with no role link. |
| Reconcile.ReplaceAllLeavesOthers | routes/users.js:80-97 | A user update touches no other user's role links. |
| Reconcile.ReplaceAllIdempotent | routes/users.js:80-97 | Reconciling again with the same request finds nothing to remove and nothing to add, so it issues no link operation, and the link table is the same as after the first pass. |
| Reconcile.ReplaceOneOwnedBy | routes/roles.js:59-76 | After a role update, the role's edges are its old edges minus the first stale one, followed by one fresh edge per new permission. Other roles are unchanged. |
| Reconcile.ReplaceOneEffect | routes/roles.js:59-76 | Held permissions that are still requested survive, and the stale count drops by one if any existed. The permission set equals the requested set iff there was at most one stale link. The permission multiset is also stated. |
| Reconcile.ReplaceOneLeavesOthers | routes/roles.js:59-76 | A role update touches no other role's permission links. |
| Records.Store.CreateUser | routes/users.js:39-49 | A new user gets a fresh id, not used before. Only that entry is added and `Valid()` is kept. |
| Records.Store.UpdateUser | routes/users.js:100 | updateOne patches the record with that id. For an unknown id it changes nothing. |
| Records.Store.DeleteUser | routes/users.js:111 | deleteOne removes exactly that id, if present. |
| Records.Store.CreateRole | routes/roles.js:27-32 | A new role gets a fresh id. Only that entry is added. |
| Records.Store.UpdateRole | routes/roles.js:78 | updateOne patches the role with that id. For an unknown id it changes nothing. |
| Records.Store.DeleteRole | routes/roles.js:91 | deleteOne removes exactly that id, if present. |
| Records.Store.CreateCategory | routes/categories.js:22-27 | A new category gets a fresh id. Only that entry is added. |
| Records.Store.UpdateCategory | routes/categories.js:44 | updateOne patches the category with that id. For an unknown id it changes nothing. |
| Records.Store.DeleteCategory | routes/categories.js:57 | deleteOne removes exactly that id, if present. |
| Records.Store.SaveUserRole | routes/users.js:52-56 | One link with a fresh id is appended at the end of the table. |
| Records.Store.DeleteUserRolesWithIds | routes/users.js:86 | The link table becomes `DeleteIds` of the old one. |
| Records.Store.DeleteUserRolesOf | routes/users.js:112 | The link table becomes `DeleteOwned` of the old one. |
| Records.Store.SavePrivilege | routes/roles.js:35-39 | One permission link with a fresh id is appended. |
| Records.Store.DeleteOnePrivilegeWithIds | routes/roles.js:64-66 | The permission table becomes `DeleteFirst` of the old one. |
| Records.Store.DeletePrivilegesOf | routes/roles.js:92 | The permission table becomes `DeleteOwned` of the old one. |
| Users.CheckNewUser | routes/users.js:26-30 | Passes iff all five rules hold: email given, email valid, password given, password at least PASS_LENGTH long, roles a non-empty array. Otherwise it returns the 400 "Validation Error" of the first rule that fails, with that rule's description. |
| Users.NewUser | routes/users.js:39-48 | The user document /add builds, as /register does at routes/users.js:140-148: active, with the given email, the hash of the given password, and the optional name and phone fields as given. |
| Users.FindRoles | routes/users.js:32 | `Roles.find({ _id: { $in } })`: an id is returned iff a role with that id exists and the request names it. Ids come in strictly increasing order, so there are no duplicates. |
| Users.SaveUserRoles | routes/users.js:51-57 | The loop appends one link per role, in order, with consecutive fresh ids. The counter advances by the number of roles. |
| Users.Add | routes/users.js:24-63 | A failed check, or no existing requested role, throws and changes nothing. Otherwise it creates one active user with a hashed password and one link per found role, and replies 201. |
| Users.UpdatesOf | routes/users.js:67-76 | For every stored user, applying the patch changes only the fields the request supplies: names and phone when non-empty, is_active when boolean, the password only when shorter than PASS_LENGTH. The email never changes. |
| Users.ReconcileRoles | routes/users.js:80-97 | The link table becomes exactly `ReplaceAll` of the old one, starting at the old counter. |
| Users.Update | routes/users.js:65-106 | No _id: throws and changes nothing. Roles missing, or a non-array with a positive length: an uncaught error with no write. Otherwise it replies 200 and patches only the user with that id. A roles array reconciles the links as `ReplaceAll`. Any other roles value leaves the links untouched. |
| Users.Delete | routes/users.js:108-120 | No _id: throws and changes nothing. Otherwise it removes the user and every link of the user, and leaves other users' links unchanged. |
| Users.Register | routes/users.js:122-167 | If any user exists, it replies a bare 404 and changes nothing. A failed check throws and changes nothing. Otherwise the only user is the new one, with a new SUPER_ADMIN role created by that user and one link between them, and it replies 201. |
| Roles.CheckNewRole | routes/roles.js:23-26 | Passes iff role_name is given and permissions is a non-empty array. Otherwise it returns the 400 error of the first failing rule. |
| Roles.SavePrivileges | routes/roles.js:34-40 | The loop appends one permission link per entry, in order and duplicates included, with consecutive fresh ids. |
| Roles.Add | routes/roles.js:21-47 | A failed check throws and changes nothing. Otherwise it creates one active role whose createdBy is the caller's id, appends one link per requested permission, and replies 200. |
| Roles.UpdatesOf | routes/roles.js:55-56 | For every role, applying the patch changes role_name only when given non-empty and is_active only when boolean. createdBy never changes. |
| Roles.ReconcilePermissions | routes/roles.js:59-76 | The permission table becomes exactly `ReplaceOne` of the old one. |
| Roles.Update | routes/roles.js:48-85 | No _id: throws and changes nothing. Otherwise it patches only that role. A non-empty permissions array reconciles the links as `ReplaceOne`. Any other value leaves the links and the counter untouched. |
| Roles.Delete | routes/roles.js:86-99 | No _id: throws "_id field must be filled" and changes nothing. Otherwise it removes the role and all its permission links, and leaves other roles' links unchanged. |
| Categories.List | routes/categories.js:8-17 | Returns exactly the categories whose is_active is true, with their stored contents. |
| Categories.Add | routes/categories.js:18-33 | A missing name throws and changes nothing. Otherwise it creates one active category with a fresh id. |
| Categories.UpdatesOf | routes/categories.js:36-42 | For every category, applying the patch changes name only when given non-empty and is_active only when boolean. An empty request gives the identity patch. |
| Categories.Update | routes/categories.js:34-51 | No _id: throws and changes nothing. Otherwise it patches only that category. A request with nothing to change leaves the collection as it was. |
| Categories.Delete | routes/categories.js:52-64 | No _id: throws and changes nothing. Otherwise it removes that category only. |

## Left out

- `GET /users` and `GET /roles` return their whole collection unfiltered. Nothing there is
  worth stating beyond the table itself.
- `GET /roles/role_privileges` serves a static configuration file that is not part of this
  model. So are the audit-log routes, authentication and the Mongoose schemas.
- Express and `lib/Response.js` (the response envelopes) are not modelled.
  - A reply is a `Reply` value, not a JSON body.
  - The `CustomError` message built for the stack trace is not modelled.
- bcrypt is not modelled: `Hashed(plain)` stands for the salted hash, and salting is not
  modelled.
- is_js's email test is a parameter, `isEmail`.
- Database failures are not modelled. Nothing in the model fails in the store, so a cast
  error on a malformed id or a lost connection, and the 500 it would produce, are absent.
  There is also no rollback of partially applied steps.
- Concurrency and timing are not modelled: each handler runs alone and in program order.
  The un-awaited `user.save()` in `/users/add` is treated as if it completed before the role
  links are saved.
- Ids are abstract naturals from one counter. ObjectId string-versus-object comparisons
  (the `includes` calls of the reconcilers) are taken to compare ids by value.
- Users.FindRoles: the order of `Roles.find` results is fixed as ascending id (insertion
  order). MongoDB does not promise any order.
- Categories.List: the result is a map from id to category, so the order of the returned
  array is not modelled.
- Users.CheckNewUser: email and password are strings or absent. A non-string password (a
  number, say) is truthy in the source and is not modelled. Password length is counted in
  Dafny characters, where JavaScript's `.length` at routes/users.js:29 and 133 counts UTF-16
  code units.
- Users.UpdatesOf: the same holds for the password rule of routes/users.js:70 and for the
  truthiness of the name and phone fields.
- Roles.CheckNewRole: `role_name` is a string or absent. In the source a numeric
  `role_name` is truthy and passes routes/roles.js:23; the model cannot express that.
- Roles.UpdatesOf: the same holds for `role_name` at routes/roles.js:55.
- Categories.Add: `name` is a string or absent. In the source a numeric `name` is truthy and
  passes routes/categories.js:20; the model cannot express that.
- Categories.UpdatesOf: the same holds for `name` at routes/categories.js:41.
- Edges.DeleteFirst: MongoDB's `deleteOne` removes some matching document of its own choice.
  The model fixes it as the first match in table order. The multiset clause of
  Reconcile.ReplaceOneEffect depends on that choice.
- Records.Store.Valid: only record ids and link ids are bounded by the counter. The owner
  and peer ids inside links, and the ids in requests, are arbitrary naturals. So an update
  may create links owned by an id the counter hands out later, and the record created
  there inherits them, which ObjectIds rule out in practice. For that reason the model does
  not state that a new role's permission links are exactly the requested ones; it states
  the appended links.
- Users.Add: email uniqueness and the other schema constraints of the `Users` model are not
  part of this model.
- Audit logging and timestamps (`created_at`/`updated_at`) are not modelled.
