/**
 * The clothing-item routes (backend/routes/clothesRoutes.js): create, list,
 * read one, toggle favorite and replace tags, all scoped to the caller.
 *
 * The collection is a sequence of documents in insertion order; every lookup
 * is the filter `{_id: id, userId: caller}`, so another user's item and an
 * absent item are indistinguishable. Failures of the database itself (the
 * 500 replies) are not modelled.
 */
module ClothesRoutes {
  import opened Common
  import opened ClothingItemModel
  import Ordering

  const MissingFieldsMessage := "Label, category, and imageUrl are required"
  const NotFoundMessage := "Item not found"
  const TagsNotArrayMessage := "tags must be an array"

  /** The JSON body of `POST /`: absent fields are `None`. */
  datatype ItemBody = ItemBody(
    labelText: Option<string>,
    category: Option<string>,
    imageUrl: Option<string>,
    tags: Option<seq<string>>,
    isFavorite: Option<bool>)

  /** The guard `!label || !category || !imageUrl` fails to fire. */
  predicate HasRequiredFields(body: ItemBody) {
    Truthy(body.labelText) && Truthy(body.category) && Truthy(body.imageUrl)
  }

  /** The query `{userId: caller}`. */
  function OwnedBy(caller: UserId): ClothingItem -> bool {
    (item: ClothingItem) => item.userId == caller
  }

  /** The query `{_id: id, userId: caller}`. */
  function IdAndOwner(id: ItemId, caller: UserId): ClothingItem -> bool {
    (item: ClothingItem) => item.id == id && item.userId == caller
  }

  /** The position of the document `findOne({_id: id, userId: caller})` returns. */
  function FindOwned(items: seq<ClothingItem>, id: ItemId, caller: UserId): Option<nat> {
    FirstIndex(items, IdAndOwner(id, caller))
  }

  /** No two documents share an id. */
  predicate UniqueIds(items: seq<ClothingItem>) {
    forall i, j :: 0 <= i < j < |items| ==> items[i].id != items[j].id
  }

  /** `find({userId: caller}).sort('-createdAt')`. */
  function ListOwned(items: seq<ClothingItem>, caller: UserId): (r: seq<ClothingItem>)
    ensures multiset(r) == multiset(Filter(items, OwnedBy(caller)))
    ensures Ordering.SortedDesc(r, CreatedAt)
  {
    Ordering.SortDescSorted(Filter(items, OwnedBy(caller)), CreatedAt);
    Ordering.SortDesc(Filter(items, OwnedBy(caller)), CreatedAt)
  }

  /** The listing holds exactly the caller's documents. */
  lemma ListOwnedMembers(items: seq<ClothingItem>, caller: UserId, x: ClothingItem)
    ensures x in ListOwned(items, caller) <==> x in items && x.userId == caller
  {
    assert x in multiset(ListOwned(items, caller)) <==> x in multiset(Filter(items, OwnedBy(caller)));
    FilterMembers(items, OwnedBy(caller), x);
  }

  /**
   * The collection after `PATCH /:id/favorite` at time `now`: the caller's
   * item has its flag flipped, and the save stamps its `updatedAt`.
   */
  function Toggled(items: seq<ClothingItem>, id: ItemId, caller: UserId, now: int): (r: seq<ClothingItem>)
    ensures |r| == |items|
    ensures FindOwned(items, id, caller).None? ==> r == items
    ensures forall j :: 0 <= j < |items| && FindOwned(items, id, caller) != Some(j) ==> r[j] == items[j]
    ensures forall j :: 0 <= j < |items| ==>
      r[j].(isFavorite := items[j].isFavorite, updatedAt := items[j].updatedAt) == items[j]
    ensures FindOwned(items, id, caller).Some? ==>
      var j := FindOwned(items, id, caller).value;
      r[j].isFavorite == !items[j].isFavorite && r[j].updatedAt == now
  {
    match FindOwned(items, id, caller)
    case None => items
    case Some(j) => items[j := items[j].(isFavorite := !items[j].isFavorite, updatedAt := now)]
  }

  /**
   * The collection after `PATCH /:id` with array `tags` at time `now`: the
   * caller's item gets exactly those tags, and the update stamps its `updatedAt`.
   */
  function Retagged(items: seq<ClothingItem>, id: ItemId, caller: UserId, tags: seq<string>, now: int): (r: seq<ClothingItem>)
    ensures |r| == |items|
    ensures FindOwned(items, id, caller).None? ==> r == items
    ensures forall j :: 0 <= j < |items| && FindOwned(items, id, caller) != Some(j) ==> r[j] == items[j]
    ensures forall j :: 0 <= j < |items| ==>
      r[j].(tags := items[j].tags, updatedAt := items[j].updatedAt) == items[j]
    ensures FindOwned(items, id, caller).Some? ==>
      var j := FindOwned(items, id, caller).value;
      r[j].tags == tags && r[j].updatedAt == now
  {
    match FindOwned(items, id, caller)
    case None => items
    case Some(j) => items[j := items[j].(tags := tags, updatedAt := now)]
  }

  /** Changing a document in place, keeping its id and owner, keeps where the owner lookup finds it. */
  lemma {:induction false} FindOwnedAfterUpdate(items: seq<ClothingItem>, id: ItemId, caller: UserId, v: ClothingItem)
    requires FindOwned(items, id, caller).Some?
    requires v.id == id && v.userId == caller
    ensures FindOwned(items[FindOwned(items, id, caller).value := v], id, caller) == FindOwned(items, id, caller)
  {
    var j := FindOwned(items, id, caller).value;
    var s := items[j := v];
    var k := FindOwned(s, id, caller);
    assert IdAndOwner(id, caller)(s[j]);
    assert forall i :: 0 <= i < j ==> s[i] == items[i];
  }

  /**
   * Toggling the favorite flag twice restores the collection except for the
   * toggled document's `updatedAt`, which holds the second toggle's time.
   */
  lemma ToggleTwiceRestores(items: seq<ClothingItem>, id: ItemId, caller: UserId, t1: int, t2: int)
    ensures |Toggled(Toggled(items, id, caller, t1), id, caller, t2)| == |items|
    ensures FindOwned(items, id, caller).None? ==> Toggled(Toggled(items, id, caller, t1), id, caller, t2) == items
    ensures forall j :: 0 <= j < |items| && FindOwned(items, id, caller) != Some(j) ==>
      Toggled(Toggled(items, id, caller, t1), id, caller, t2)[j] == items[j]
    ensures FindOwned(items, id, caller).Some? ==>
      var j := FindOwned(items, id, caller).value;
      Toggled(Toggled(items, id, caller, t1), id, caller, t2)[j] == items[j].(updatedAt := t2)
  {
    if FindOwned(items, id, caller).Some? {
      var j := FindOwned(items, id, caller).value;
      FindOwnedAfterUpdate(items, id, caller, items[j].(isFavorite := !items[j].isFavorite, updatedAt := t1));
    }
  }

  /** Replacing the tags is idempotent: doing it twice equals doing it once at the later time. */
  lemma RetagTwiceIsOnce(items: seq<ClothingItem>, id: ItemId, caller: UserId, tags: seq<string>, t1: int, t2: int)
    ensures Retagged(Retagged(items, id, caller, tags, t1), id, caller, tags, t2) == Retagged(items, id, caller, tags, t2)
  {
    if FindOwned(items, id, caller).Some? {
      var j := FindOwned(items, id, caller).value;
      FindOwnedAfterUpdate(items, id, caller, items[j].(tags := tags, updatedAt := t1));
    }
  }

  /** A toggle by one user leaves every other user's listing exactly as it was. */
  lemma ToggleIsolated(items: seq<ClothingItem>, id: ItemId, caller: UserId, now: int, other: UserId)
    requires other != caller
    ensures Filter(Toggled(items, id, caller, now), OwnedBy(other)) == Filter(items, OwnedBy(other))
  {
    if FindOwned(items, id, caller).Some? {
      var j := FindOwned(items, id, caller).value;
      FilterUpdateUnseen(items, OwnedBy(other), j, items[j].(isFavorite := !items[j].isFavorite, updatedAt := now));
    }
  }

  /** A tag replacement by one user leaves every other user's listing exactly as it was. */
  lemma RetagIsolated(items: seq<ClothingItem>, id: ItemId, caller: UserId, tags: seq<string>, now: int, other: UserId)
    requires other != caller
    ensures Filter(Retagged(items, id, caller, tags, now), OwnedBy(other)) == Filter(items, OwnedBy(other))
  {
    if FindOwned(items, id, caller).Some? {
      var j := FindOwned(items, id, caller).value;
      FilterUpdateUnseen(items, OwnedBy(other), j, items[j].(tags := tags, updatedAt := now));
    }
  }

  /** A document created by one user never shows up in another user's listing. */
  lemma CreateIsolated(items: seq<ClothingItem>, created: ClothingItem, other: UserId)
    requires created.userId != other
    ensures Filter(items + [created], OwnedBy(other)) == Filter(items, OwnedBy(other))
  {
    FilterAppend(items, [created], OwnedBy(other));
    assert Filter([created], OwnedBy(other)) == Filter([created][1..], OwnedBy(other));
  }

  /** Every read a user makes is decided by that user's own documents alone. */
  lemma ReadDependsOnOwnDocumentsOnly(a: seq<ClothingItem>, b: seq<ClothingItem>, id: ItemId, caller: UserId)
    requires Filter(a, OwnedBy(caller)) == Filter(b, OwnedBy(caller))
    ensures ListOwned(a, caller) == ListOwned(b, caller)
    ensures FindOwned(a, id, caller).Some? <==> FindOwned(b, id, caller).Some?
    ensures FindOwned(a, id, caller).Some? ==>
      a[FindOwned(a, id, caller).value] in Filter(b, OwnedBy(caller))
  {
    var p := IdAndOwner(id, caller);
    if FindOwned(a, id, caller).Some? {
      var x := a[FindOwned(a, id, caller).value];
      FilterMembers(a, OwnedBy(caller), x);
      FilterMembers(b, OwnedBy(caller), x);
      var k :| 0 <= k < |b| && b[k] == x;
      assert p(b[k]);
    }
    if FindOwned(b, id, caller).Some? {
      var x := b[FindOwned(b, id, caller).value];
      FilterMembers(b, OwnedBy(caller), x);
      FilterMembers(a, OwnedBy(caller), x);
      var k :| 0 <= k < |a| && a[k] == x;
      assert p(a[k]);
    }
  }

  /** The clothing-item collection with the routes as methods. */
  class ItemStore {
    var items: seq<ClothingItem>
    var nextId: ItemId

    /** Ids are unique and below the counter; every document passed schema validation. */
    ghost predicate Valid()
      reads this
    {
      UniqueIds(items) &&
      forall j :: 0 <= j < |items| ==> items[j].id < nextId && SchemaValid(items[j])
    }

    constructor ()
      ensures Valid() && items == [] && nextId == 0
    {
      items := [];
      nextId := 0;
    }

    /** `POST /`: validate, default the optional fields, stamp the owner and both timestamps, save. */
    method Create(caller: UserId, body: ItemBody, now: int) returns (res: Response<ClothingItem>)
      requires Valid()
      modifies this
      ensures Valid()
      ensures !HasRequiredFields(body) ==>
        res == Error(400, MissingFieldsMessage) && items == old(items) && nextId == old(nextId)
      ensures HasRequiredFields(body) ==>
        && res.Ok? && res.status == 201
        && res.body == ClothingItem(old(nextId), body.labelText.value, body.category.value, body.imageUrl.value,
                                    if body.tags.Some? then body.tags.value else [],
                                    if body.isFavorite.Some? then body.isFavorite.value else false,
                                    caller, now, now)
        && items == old(items) + [res.body]
    {
      if !HasRequiredFields(body) {
        return Error(400, MissingFieldsMessage);
      }
      var tags := if body.tags.Some? then body.tags.value else [];
      var isFavorite := if body.isFavorite.Some? then body.isFavorite.value else false;
      var item := ClothingItem(nextId, body.labelText.value, body.category.value, body.imageUrl.value,
                               tags, isFavorite, caller, now, now);
      items := items + [item];
      nextId := nextId + 1;
      res := Ok(201, item);
    }

    /** `GET /`: the caller's documents, newest first. */
    method List(caller: UserId) returns (r: seq<ClothingItem>)
      ensures forall x :: x in r <==> x in items && x.userId == caller
      ensures Ordering.SortedDesc(r, CreatedAt)
      ensures multiset(r) == multiset(Filter(items, OwnedBy(caller)))
    {
      r := ListOwned(items, caller);
      forall x ensures x in r <==> x in items && x.userId == caller {
        ListOwnedMembers(items, caller, x);
      }
    }

    /** `GET /:id`: the caller's document with that id, or the same 404 whether it is absent or someone else's. */
    method ReadOne(id: ItemId, caller: UserId) returns (res: Response<ClothingItem>)
      ensures res.Ok? <==> exists j :: 0 <= j < |items| && items[j].id == id && items[j].userId == caller
      ensures res.Ok? ==> res.status == 200 && res.body in items && res.body.id == id && res.body.userId == caller
      ensures res.Error? ==> res == Error(404, NotFoundMessage)
    {
      var found := FindOwned(items, id, caller);
      if found.None? {
        return Error(404, NotFoundMessage);
      }
      res := Ok(200, items[found.value]);
      assert IdAndOwner(id, caller)(items[found.value]);
    }

    /** `PATCH /:id/favorite` at time `now`: flip the flag of the caller's document in place and save it. */
    method ToggleFavorite(id: ItemId, caller: UserId, now: int) returns (res: Response<ClothingItem>)
      requires Valid()
      modifies this
      ensures Valid() && nextId == old(nextId)
      ensures items == Toggled(old(items), id, caller, now)
      ensures FindOwned(old(items), id, caller).None? ==> res == Error(404, NotFoundMessage)
      ensures FindOwned(old(items), id, caller).Some? ==>
        res == Ok(200, items[FindOwned(old(items), id, caller).value])
    {
      var found := FindOwned(items, id, caller);
      if found.None? {
        return Error(404, NotFoundMessage);
      }
      var j := found.value;
      var item := items[j];
      item := item.(isFavorite := !item.isFavorite, updatedAt := now);
      items := items[j := item];
      res := Ok(200, item);
    }

    /** `PATCH /:id` at time `now`: reject a non-array `tags` first, then replace the caller's document's tags. */
    method UpdateTags(id: ItemId, caller: UserId, tags: TagsField, now: int) returns (res: Response<ClothingItem>)
      requires Valid()
      modifies this
      ensures Valid() && nextId == old(nextId)
      ensures !tags.AnArray? ==> res == Error(400, TagsNotArrayMessage) && items == old(items)
      ensures tags.AnArray? ==> items == Retagged(old(items), id, caller, tags.values, now)
      ensures tags.AnArray? && FindOwned(old(items), id, caller).None? ==> res == Error(404, NotFoundMessage)
      ensures tags.AnArray? && FindOwned(old(items), id, caller).Some? ==>
        res == Ok(200, items[FindOwned(old(items), id, caller).value])
    {
      if !tags.AnArray? {
        return Error(400, TagsNotArrayMessage);
      }
      var found := FindOwned(items, id, caller);
      if found.None? {
        return Error(404, NotFoundMessage);
      }
      var j := found.value;
      var item := items[j].(tags := tags.values, updatedAt := now);
      items := items[j := item];
      res := Ok(200, item);
    }
  }

  /**
   * Create at `now`, then toggle at `t1` and at `t2`: the new item starts
   * unfavourited, the first toggle favourites it, the second unfavourites
   * it, and the collection ends as it was right after the create except that
   * the item's `updatedAt` is `t2`.
   */
  method FavoriteScenario(store: ItemStore, caller: UserId, now: int, t1: int, t2: int)
    returns (created: Response<ClothingItem>, first: Response<ClothingItem>, second: Response<ClothingItem>)
    requires store.Valid()
    modifies store
    ensures created.Ok? && created.status == 201 && !created.body.isFavorite
    ensures created.body.createdAt == now && created.body.updatedAt == now
    ensures first.Ok? && first.body.id == created.body.id && first.body.isFavorite && first.body.updatedAt == t1
    ensures second.Ok? && second.body == created.body.(updatedAt := t2)
    ensures store.items == old(store.items) + [created.body.(updatedAt := t2)]
  {
    var body := ItemBody(Some("Red Tee"), Some("top"), Some("https://x/y.png"), None, None);
    created := store.Create(caller, body, now);
    var afterCreate := store.items;
    var j := |afterCreate| - 1;
    assert IdAndOwner(created.body.id, caller)(afterCreate[j]);
    assert FindOwned(afterCreate, created.body.id, caller) == Some(j);
    first := store.ToggleFavorite(created.body.id, caller, t1);
    FindOwnedAfterUpdate(afterCreate, created.body.id, caller, first.body);
    second := store.ToggleFavorite(created.body.id, caller, t2);
    ToggleTwiceRestores(afterCreate, created.body.id, caller, t1, t2);
    assert store.items == afterCreate[j := created.body.(updatedAt := t2)];
  }
}
