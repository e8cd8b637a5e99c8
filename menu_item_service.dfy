/** The admin's menu operations (backend/.../service/MenuItemService.java): look up, create,
    partially update, delete and toggle menu items in the `menu_items` table. Every operation
    on an unknown id raises before touching the table. */
module MenuItemService {
  import opened Wrappers
  import opened MenuItemModel

  /** `MenuItemRequest`: every field optional. */
  datatype MenuItemRequest = MenuItemRequest(
    name: Option<string>, description: Option<string>, price: Option<int>, category: Option<string>,
    active: Option<bool>)

  /** The service's failures: an unknown id (IllegalArgumentException) or a write the table
      refuses because a non-nullable column is null. */
  datatype ServiceError = NotFound(id: int) | Rejected(reason: DbError)

  /** The entity `createMenuItem` builds before saving it: the request's fields, with the
      active flag defaulting to true. */
  function Created(req: MenuItemRequest): (r: MenuItemRecord)
    ensures r.id.None? && r.createdAt.None?
    ensures r.name == req.name && r.description == req.description
    ensures r.price == req.price && r.category == req.category
    ensures r.active == Some(if req.active.Some? then req.active.value else true)
  {
    MenuItemRecord(None, req.name, req.description, req.price, req.category, Some(req.active.GetOr(true)), None)
  }

  /** `updateMenuItem`'s field-by-field patch: a non-null request field replaces the stored
      one, a null one keeps it. */
  function Patched(r: MenuItemRecord, req: MenuItemRequest): (p: MenuItemRecord)
    ensures p.id == r.id && p.createdAt == r.createdAt
    ensures p.name == (if req.name.Some? then req.name else r.name)
    ensures p.description == (if req.description.Some? then req.description else r.description)
    ensures p.price == (if req.price.Some? then req.price else r.price)
    ensures p.category == (if req.category.Some? then req.category else r.category)
    ensures p.active == (if req.active.Some? then req.active else r.active)
  {
    r.(name := if req.name.Some? then req.name else r.name,
       description := if req.description.Some? then req.description else r.description,
       price := if req.price.Some? then req.price else r.price,
       category := if req.category.Some? then req.category else r.category,
       active := if req.active.Some? then req.active else r.active)
  }

  const EmptyRequest := MenuItemRequest(None, None, None, None, None)

  /** An all-null request changes nothing, a patch applied twice is the patch applied once,
      and a patch never nulls a column: a stored row stays a storable row. */
  lemma PatchLaws(k: int, r: MenuItemRecord, req: MenuItemRequest)
    ensures Patched(r, EmptyRequest) == r
    ensures Patched(Patched(r, req), req) == Patched(r, req)
    ensures StoredRow(k, r) ==> StoredRow(k, Patched(r, req))
  {
  }

  /** `toggleMenuItemStatus`: the active flag negated. */
  function Toggled(r: MenuItemRecord): (t: MenuItemRecord)
    requires r.active.Some?
    ensures t.active.Some? && t.active.value == !r.active.value
    ensures t.(active := r.active) == r
  {
    r.(active := Some(!r.active.value))
  }

  /** Toggling twice restores the item. */
  lemma ToggleTwice(r: MenuItemRecord)
    requires r.active.Some?
    ensures Toggled(Toggled(r)) == r
  {
  }

  class MenuItemService {
    const repo: MenuItemRepository

    constructor (repo: MenuItemRepository)
      ensures this.repo == repo
    {
      this.repo := repo;
    }

    /** `getMenuItemById`. */
    method GetMenuItemById(id: int) returns (r: Result<MenuItemRecord, ServiceError>)
      ensures id in repo.rows ==> r == Success(repo.rows[id])
      ensures id !in repo.rows ==> r == Failure(NotFound(id))
    {
      var found := repo.FindById(id);
      if found.None? {
        return Failure(NotFound(id));
      }
      r := Success(found.value);
    }

    /** `createMenuItem`, with `Instant.now()` as `now`: the new row is the request's fields,
        active unless the request says otherwise, stamped with `now` and the next id. */
    method CreateMenuItem(req: MenuItemRequest, now: int) returns (r: Result<MenuItemRecord, ServiceError>)
      requires repo.Valid()
      modifies repo
      ensures repo.Valid()
      ensures var p := PrePersisted(Created(req), now).(id := Some(old(repo.nextId)));
              if req.name.Some? && req.price.Some? && req.category.Some? then
                r == Success(p) && repo.rows == old(repo.rows)[old(repo.nextId) := p]
              else
                r == Failure(Rejected(NullColumn)) && repo.rows == old(repo.rows)
    {
      var item := new MenuItem();
      item.SetName(req.name);
      item.SetDescription(req.description);
      item.SetPrice(req.price);
      item.SetCategory(req.category);
      item.SetActive(if req.active.Some? then req.active else Some(true));
      var saved := repo.Save(item, now);
      r := match saved
        case Success(row) => Success(row)
        case Failure(e) => Failure(Rejected(e));
    }

    /** `updateMenuItem`: the stored row patched with the request; every other row stays. */
    method UpdateMenuItem(id: int, req: MenuItemRequest) returns (r: Result<MenuItemRecord, ServiceError>)
      requires repo.Valid()
      modifies repo
      ensures repo.Valid()
      ensures id !in old(repo.rows) ==> r == Failure(NotFound(id)) && repo.rows == old(repo.rows)
      ensures id in old(repo.rows) ==>
                var p := Patched(old(repo.rows)[id], req);
                r == Success(p) && repo.rows == old(repo.rows)[id := p]
    {
      var found := repo.FindById(id);
      if found.None? {
        return Failure(NotFound(id));
      }
      var item := new MenuItem.Load(found.value);
      if req.name.Some? { item.SetName(req.name); }
      if req.description.Some? { item.SetDescription(req.description); }
      if req.price.Some? { item.SetPrice(req.price); }
      if req.category.Some? { item.SetCategory(req.category); }
      if req.active.Some? { item.SetActive(req.active); }
      assert item.Record() == Patched(found.value, req);
      var saved := repo.Save(item, 0);  // an update runs no persist hook: the instant is unused
      r := match saved
        case Success(row) => Success(row)
        case Failure(e) => Failure(Rejected(e));
    }

    /** `deleteMenuItem`: exactly that row goes. */
    method DeleteMenuItem(id: int) returns (r: Result<(), ServiceError>)
      requires repo.Valid()
      modifies repo
      ensures repo.Valid()
      ensures id !in old(repo.rows) ==> r == Failure(NotFound(id)) && repo.rows == old(repo.rows)
      ensures id in old(repo.rows) ==> r == Success(()) && repo.rows == old(repo.rows) - {id} && id !in repo.rows
    {
      var found := repo.FindById(id);
      if found.None? {
        return Failure(NotFound(id));
      }
      repo.Delete(id);
      r := Success(());
    }

    /** `toggleMenuItemStatus`: the stored row with its active flag negated. */
    method ToggleMenuItemStatus(id: int) returns (r: Result<MenuItemRecord, ServiceError>)
      requires repo.Valid()
      modifies repo
      ensures repo.Valid()
      ensures id !in old(repo.rows) ==> r == Failure(NotFound(id)) && repo.rows == old(repo.rows)
      ensures id in old(repo.rows) ==>
                var t := Toggled(old(repo.rows)[id]);
                r == Success(t) && repo.rows == old(repo.rows)[id := t]
    {
      var found := repo.FindById(id);
      if found.None? {
        return Failure(NotFound(id));
      }
      var item := new MenuItem.Load(found.value);
      item.SetActive(Some(!item.active.value));
      var saved := repo.Save(item, 0);  // an update runs no persist hook: the instant is unused
      r := match saved
        case Success(row) => Success(row)
        case Failure(e) => Failure(Rejected(e));
    }
  }
}
