/** The menu-item entity (backend/.../model/MenuItem.java) and its table. The entity is a
    mutable object whose setters change one field each and whose persist hook fills in the
    creation time and the active flag; the table is a map from id to the stored row. */
module MenuItemModel {
  import opened Wrappers

  /** A stored or in-memory menu item, field by field; every reference field may be null.
      `price` is in cents and `createdAt` is an instant as a number. */
  datatype MenuItemRecord = MenuItemRecord(
    id: Option<int>, name: Option<string>, description: Option<string>, price: Option<int>,
    category: Option<string>, active: Option<bool>, createdAt: Option<int>)

  /** The row the database holds for `key`: the columns declared `nullable = false` (name,
      price, category, active, created_at) are filled in, and the id is the key. */
  predicate StoredRow(key: int, r: MenuItemRecord) {
    r.id == Some(key) && r.name.Some? && r.price.Some? && r.category.Some? && r.active.Some? && r.createdAt.Some?
  }

  /** What the persist hook leaves: the creation time and the active flag, each filled in only
      when it is null. */
  function PrePersisted(r: MenuItemRecord, now: int): (p: MenuItemRecord)
    ensures p.createdAt.Some? && p.active.Some?
    ensures r.createdAt.Some? ==> p.createdAt == r.createdAt
    ensures r.active.Some? ==> p.active == r.active
    ensures p.(createdAt := r.createdAt, active := r.active) == r
  {
    r.(createdAt := r.createdAt.OrDefault(now), active := r.active.OrDefault(true))
  }

  /** Running the hook twice, at any two instants, is running it once; an explicit `false`
      survives it. */
  lemma PrePersistIdempotent(r: MenuItemRecord, now: int, later: int)
    ensures PrePersisted(PrePersisted(r, now), later) == PrePersisted(r, now)
    ensures r.active == Some(false) ==> PrePersisted(r, now).active == Some(false)
  {
  }

  /** `MenuItem`. */
  class MenuItem {
    var id: Option<int>
    var name: Option<string>
    var description: Option<string>
    var price: Option<int>
    var category: Option<string>
    var active: Option<bool>
    var createdAt: Option<int>

    function Record(): MenuItemRecord
      reads this
    {
      MenuItemRecord(id, name, description, price, category, active, createdAt)
    }

    /** `new MenuItem()`: every field null except `active`, which starts true. */
    constructor ()
      ensures Record() == MenuItemRecord(None, None, None, None, None, Some(true), None)
    {
      id, name, description, price, category := None, None, None, None, None;
      active := Some(true);
      createdAt := None;
    }

    /** An entity loaded from a row. */
    constructor Load(r: MenuItemRecord)
      ensures Record() == r
    {
      id, name, description, price, category := r.id, r.name, r.description, r.price, r.category;
      active, createdAt := r.active, r.createdAt;
    }

    /** `@PrePersist prePersist()`, with `Instant.now()` as the parameter `now`. */
    method PrePersist(now: int)
      modifies this
      ensures Record() == PrePersisted(old(Record()), now)
    {
      if createdAt.None? { createdAt := Some(now); }
      if active.None? { active := Some(true); }
    }

    method SetName(v: Option<string>)
      modifies this
      ensures Record() == old(Record()).(name := v)
    {
      name := v;
    }

    method SetDescription(v: Option<string>)
      modifies this
      ensures Record() == old(Record()).(description := v)
    {
      description := v;
    }

    method SetPrice(v: Option<int>)
      modifies this
      ensures Record() == old(Record()).(price := v)
    {
      price := v;
    }

    method SetCategory(v: Option<string>)
      modifies this
      ensures Record() == old(Record()).(category := v)
    {
      category := v;
    }

    method SetActive(v: Option<bool>)
      modifies this
      ensures Record() == old(Record()).(active := v)
    {
      active := v;
    }
  }

  /** Why a write to the table fails. */
  datatype DbError = NullColumn

  /** The `menu_items` table: rows by id and the next generated id. */
  class MenuItemRepository {
    var rows: map<int, MenuItemRecord>
    var nextId: int

    predicate Valid()
      reads this
    {
      forall k :: k in rows ==> StoredRow(k, rows[k]) && k < nextId
    }

    constructor ()
      ensures Valid() && rows == map[]
    {
      rows := map[];
      nextId := 1;
    }

    /** `findById`. */
    method FindById(id: int) returns (r: Option<MenuItemRecord>)
      ensures r.Some? <==> id in rows
      ensures r.Some? ==> r.value == rows[id]
    {
      r := if id in rows then Some(rows[id]) else None;
    }

    /** `findAllById`: the stored rows whose id is requested, each at most once (a null id
        matches no row). */
    method FindAllById(ids: seq<Option<int>>) returns (found: seq<MenuItemRecord>)
      requires Valid()
      ensures forall j :: 0 <= j < |found| ==>
                found[j].id.Some? && found[j].id.value in rows && rows[found[j].id.value] == found[j]
      ensures forall k :: k in rows && Some(k) in ids ==> rows[k] in found
    {
      found := [];
      var i := 0;
      while i < |ids|
        invariant 0 <= i <= |ids|
        invariant forall j :: 0 <= j < |found| ==>
                    found[j].id.Some? && found[j].id.value in rows && rows[found[j].id.value] == found[j]
        invariant forall k :: k in rows && Some(k) in ids[..i] ==> rows[k] in found
      {
        if ids[i].Some? && ids[i].value in rows && rows[ids[i].value] !in found {
          assert StoredRow(ids[i].value, rows[ids[i].value]);
          found := found + [rows[ids[i].value]];
        }
        i := i + 1;
      }
    }

    /** `save`. An entity without an id is inserted: its persist hook runs, it gets the next
        id, and the row is stored. An entity with an id updates that row; `created_at` is not
        updatable, so the stored creation time stays. A null in a non-nullable column fails the
        write and leaves the table as it was. */
    method Save(item: MenuItem, now: int) returns (r: Result<MenuItemRecord, DbError>)
      requires Valid()
      requires item.id.None? || item.id.value in rows
      modifies this, item
      ensures Valid()
      ensures old(item.id).None? ==>
                var p := PrePersisted(old(item.Record()), now);
                if p.name.Some? && p.price.Some? && p.category.Some? then
                  && r == Success(p.(id := Some(old(nextId))))
                  && rows == old(rows)[old(nextId) := r.value]
                  && item.Record() == r.value
                else r == Failure(NullColumn) && rows == old(rows)
      ensures old(item.id).Some? ==>
                var k := old(item.id).value;
                var p := old(item.Record()).(createdAt := old(rows)[k].createdAt);
                if p.name.Some? && p.price.Some? && p.category.Some? && p.active.Some? then
                  && r == Success(p)
                  && rows == old(rows)[k := p]
                  && item.Record() == old(item.Record())
                else r == Failure(NullColumn) && rows == old(rows)
    {
      if item.id.None? {
        item.PrePersist(now);
        if item.name.None? || item.price.None? || item.category.None? {
          return Failure(NullColumn);
        }
        item.id := Some(nextId);
        rows := rows[nextId := item.Record()];
        r := Success(item.Record());
        nextId := nextId + 1;
      } else {
        var k := item.id.value;
        var p := item.Record().(createdAt := rows[k].createdAt);
        if p.name.None? || p.price.None? || p.category.None? || p.active.None? {
          return Failure(NullColumn);
        }
        rows := rows[k := p];
        r := Success(p);
      }
    }

    /** `delete`: the row goes, every other row stays. */
    method Delete(id: int)
      requires Valid()
      modifies this
      ensures Valid()
      ensures rows == old(rows) - {id} && nextId == old(nextId)
    {
      rows := rows - {id};
    }
  }
}
