/** routes/categories.js: the active listing, /add, /update and /delete. */
module Categories {
  import opened Wrappers
  import opened Enum
  import opened Errors
  import opened Body
  import opened Edges
  import opened Records

  const NAME_REQUIRED := "name field must be filled"
  const ID_REQUIRED := "_id is required"
  const ID_MISSING := "_id field must be filled"

  /** Body of /add; user is `req.body.user?._id`. */
  datatype NewCategoryRequest = NewCategoryRequest(name: Option<string>, user: Option<Id>)

  /** Body of /update. */
  datatype UpdateCategoryRequest = UpdateCategoryRequest(id: Option<Id>, name: Option<string>, isActive: Option<bool>)

  /** The category document after /update: name changes only when given non-empty, is_active
      only when given as a boolean; createdBy never. */
  ghost predicate PatchedAsRequested(before: Category, after: Category, req: UpdateCategoryRequest)
  {
    after.createdBy == before.createdBy &&
    after.name == (if Filled(req.name) then req.name.value else before.name) &&
    after.isActive == (if req.isActive.Some? then req.isActive.value else before.isActive)
  }

  /** GET /categories: Categories.find({ is_active: true }). */
  method List(db: Store) returns (active: map<Id, Category>)
    ensures forall id :: id in active <==> id in db.categories && db.categories[id].isActive
    ensures forall id :: id in active ==> active[id] == db.categories[id]
  {
    active := map id | id in db.categories && db.categories[id].isActive :: db.categories[id];
  }

  /** POST /categories/add */
  method Add(db: Store, req: NewCategoryRequest) returns (reply: Reply)
    requires db.Valid()
    modifies db`categories, db`nextId
    ensures db.Valid()
    ensures !Filled(req.name) ==> reply == Thrown(ValidationError(NAME_REQUIRED)) && unchanged(db)
    ensures Filled(req.name) ==>
      var cid := old(db.nextId);
      reply == Ok(SUCCESS) &&
      cid !in old(db.categories) &&
      db.categories == old(db.categories)[cid := Category(req.name.value, true, req.user)]
  {
    if !Filled(req.name) {
      reply := Thrown(ValidationError(NAME_REQUIRED));
      return;
    }
    var cid := db.CreateCategory(Category(req.name.value, true, req.user));
    reply := Ok(SUCCESS);
  }

  /** routes/categories.js:36-42: the `updates` object, filled field by field. */
  method UpdatesOf(req: UpdateCategoryRequest) returns (updates: CategoryUpdates)
    ensures forall c :: PatchedAsRequested(c, ApplyCategory(c, updates), req)
    ensures !Filled(req.name) && req.isActive.None? ==> forall c :: ApplyCategory(c, updates) == c
  {
    updates := NoCategoryUpdates;
    if Filled(req.name) {
      updates := updates.(name := Some(req.name.value));
    }
    if req.isActive.Some? {
      updates := updates.(isActive := req.isActive);
    }
  }

  /** POST /categories/update */
  method Update(db: Store, req: UpdateCategoryRequest) returns (reply: Reply)
    requires db.Valid()
    modifies db`categories
    ensures db.Valid()
    ensures req.id.None? ==> reply == Thrown(ValidationError(ID_REQUIRED)) && unchanged(db)
    ensures req.id.Some? ==>
      reply == Ok(SUCCESS) &&
      db.categories.Keys == old(db.categories).Keys &&
      (forall k :: k in db.categories && k != req.id.value ==> db.categories[k] == old(db.categories)[k]) &&
      (req.id.value in db.categories ==>
        PatchedAsRequested(old(db.categories)[req.id.value], db.categories[req.id.value], req))
    ensures req.id.Some? && !Filled(req.name) && req.isActive.None? ==> db.categories == old(db.categories)
  {
    if req.id.None? {
      reply := Thrown(ValidationError(ID_REQUIRED));
      return;
    }
    var updates := UpdatesOf(req);
    db.UpdateCategory(req.id.value, updates);
    reply := Ok(SUCCESS);
  }

  /** DELETE /categories/delete */
  method Delete(db: Store, id: Option<Id>) returns (reply: Reply)
    requires db.Valid()
    modifies db`categories
    ensures db.Valid()
    ensures id.None? ==> reply == Thrown(ValidationError(ID_MISSING)) && unchanged(db)
    ensures id.Some? ==> reply == Ok(SUCCESS) && db.categories == old(db.categories) - {id.value}
  {
    if id.None? {
      reply := Thrown(ValidationError(ID_MISSING));
      return;
    }
    db.DeleteCategory(id.value);
    reply := Ok(SUCCESS);
  }
}
