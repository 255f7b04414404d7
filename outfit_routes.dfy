/**
 * The outfit routes (backend/routes/outfitRoutes.js): list, create and delete,
 * owner-scoped. The generate-image route is commented out in the source and
 * is not part of the API.
 *
 * `populate('top')` etc. replace each reference by the clothing-item document
 * with that id, looked up in the clothing-item collection by id alone.
 */
module OutfitRoutes {
  import opened Common
  import opened ClothingItemModel
  import opened OutfitModel
  import ClothesRoutes
  import Ordering

  const MissingFieldsMessage := "Missing required fields"
  const ServerErrorMessage := "Server error"
  const NotFoundMessage := "Outfit not found or not authorized"
  const DeletedMessage := "Outfit deleted"

  /** An outfit with its three references resolved (`None` where no document has that id). */
  datatype PopulatedOutfit = PopulatedOutfit(
    outfit: Outfit,
    top: Option<ClothingItem>,
    bottom: Option<ClothingItem>,
    shoe: Option<ClothingItem>)

  function OutfitOwnedBy(caller: UserId): Outfit -> bool {
    (o: Outfit) => o.userId == caller
  }

  function OutfitIdAndOwner(id: nat, caller: UserId): Outfit -> bool {
    (o: Outfit) => o.id == id && o.userId == caller
  }

  function HasId(id: ItemId): ClothingItem -> bool {
    (item: ClothingItem) => item.id == id
  }

  /** `populate` of one reference: the first clothing item with that id, whoever owns it. */
  function Resolve(clothes: seq<ClothingItem>, id: ItemId): (r: Option<ClothingItem>)
    ensures r.Some? ==> r.value in clothes && r.value.id == id
    ensures r.None? <==> forall j :: 0 <= j < |clothes| ==> clothes[j].id != id
  {
    match FirstIndex(clothes, HasId(id))
    case None => None
    case Some(j) => Some(clothes[j])
  }

  function Populate(o: Outfit, clothes: seq<ClothingItem>): PopulatedOutfit {
    PopulatedOutfit(o, Resolve(clothes, o.top), Resolve(clothes, o.bottom), Resolve(clothes, o.shoe))
  }

  /** Population does not look at owners: a reference to any user's item resolves to that item. */
  lemma PopulateIgnoresOwner(o: Outfit, clothes: seq<ClothingItem>, j: nat)
    requires j < |clothes| && clothes[j].id == o.top
    requires ClothesRoutes.UniqueIds(clothes)
    ensures Populate(o, clothes).top == Some(clothes[j])
  {
    var r := Resolve(clothes, o.top);
    var k :| 0 <= k < |clothes| && clothes[k] == r.value;
    assert clothes[k].id == clothes[j].id;
  }

  /** `find({userId: caller}).sort('-createdAt')`, before population. */
  function ListOwnedOutfits(outfits: seq<Outfit>, caller: UserId): (r: seq<Outfit>)
    ensures multiset(r) == multiset(Filter(outfits, OutfitOwnedBy(caller)))
    ensures Ordering.SortedDesc(r, OutfitCreatedAt)
  {
    Ordering.SortDescSorted(Filter(outfits, OutfitOwnedBy(caller)), OutfitCreatedAt);
    Ordering.SortDesc(Filter(outfits, OutfitOwnedBy(caller)), OutfitCreatedAt)
  }

  /** The listing holds exactly the caller's outfits. */
  lemma ListOwnedMembers(outfits: seq<Outfit>, caller: UserId)
    ensures forall o :: o in ListOwnedOutfits(outfits, caller) <==> o in outfits && o.userId == caller
  {
    var f := Filter(outfits, OutfitOwnedBy(caller));
    FilterMembersAll(outfits, OutfitOwnedBy(caller));
    forall o ensures o in ListOwnedOutfits(outfits, caller) <==> o in f {
      assert o in ListOwnedOutfits(outfits, caller) <==> o in multiset(ListOwnedOutfits(outfits, caller));
      assert o in f <==> o in multiset(f);
    }
  }

  /** `populate` applied to every outfit of a listing, in order. */
  function PopulateAll(os: seq<Outfit>, clothes: seq<ClothingItem>): (r: seq<PopulatedOutfit>)
    ensures |r| == |os| && forall i :: 0 <= i < |os| ==> r[i] == Populate(os[i], clothes)
  {
    seq(|os|, i requires 0 <= i < |os| => Populate(os[i], clothes))
  }

  /** The populated listing holds one entry for each of the caller's outfits and no other. */
  lemma ListedContents(outfits: seq<Outfit>, caller: UserId, clothes: seq<ClothingItem>)
    ensures var r := PopulateAll(ListOwnedOutfits(outfits, caller), clothes);
      && (forall i :: 0 <= i < |r| ==> r[i].outfit in outfits && r[i].outfit.userId == caller)
      && (forall o :: o in outfits && o.userId == caller ==> exists i :: 0 <= i < |r| && r[i].outfit == o)
  {
    var sorted := ListOwnedOutfits(outfits, caller);
    var r := PopulateAll(sorted, clothes);
    ListOwnedMembers(outfits, caller);
    forall o | o in outfits && o.userId == caller
      ensures exists i :: 0 <= i < |r| && r[i].outfit == o
    {
      var i :| 0 <= i < |sorted| && sorted[i] == o;
      assert r[i].outfit == o;
    }
    forall i | 0 <= i < |r| ensures r[i].outfit in outfits && r[i].outfit.userId == caller {
      assert r[i].outfit == sorted[i];
    }
  }

  /** The populated listing is as long as the caller's outfits, newest first, each entry populated from `clothes`. */
  lemma ListedOrder(outfits: seq<Outfit>, caller: UserId, clothes: seq<ClothingItem>)
    ensures var r := PopulateAll(ListOwnedOutfits(outfits, caller), clothes);
      && |r| == |Filter(outfits, OutfitOwnedBy(caller))|
      && (forall i, j :: 0 <= i < j < |r| ==> r[i].outfit.createdAt >= r[j].outfit.createdAt)
      && (forall i :: 0 <= i < |r| ==> r[i] == Populate(r[i].outfit, clothes))
  {
    var sorted := ListOwnedOutfits(outfits, caller);
    assert |multiset(sorted)| == |multiset(Filter(outfits, OutfitOwnedBy(caller)))|;
    assert forall i, j :: 0 <= i < j < |sorted| ==> OutfitCreatedAt(sorted[i]) >= OutfitCreatedAt(sorted[j]);
  }

  /** The draft the POST handler builds: the three ids and the caller, no prompt, no image URL. */
  function RouteDraft(top: ItemId, bottom: ItemId, shoe: ItemId, caller: UserId): OutfitDraft {
    OutfitDraft(Some(top), Some(bottom), Some(shoe), None, None, Some(caller))
  }

  /** As written, no draft the route builds passes the declared schema. */
  lemma RouteDraftRejectedAsWritten(top: ItemId, bottom: ItemId, shoe: ItemId, caller: UserId)
    ensures !SchemaAsWrittenAccepts(RouteDraft(top, bottom, shoe, caller))
    ensures !SchemaAsWrittenAccepts(StrictFieldsAsWritten(RouteDraft(top, bottom, shoe, caller)))
  {
  }

  /** The corrected schema accepts every draft the route builds, with the caller as owner. */
  lemma RouteDraftAccepted(top: ItemId, bottom: ItemId, shoe: ItemId, caller: UserId)
    ensures SchemaAccepts(RouteDraft(top, bottom, shoe, caller))
    ensures Stored(RouteDraft(top, bottom, shoe, caller), 0, 0).userId == caller
  {
  }

  /**
   * The status `POST /` answers with the schema as written: 400 when a reference
   * is missing, otherwise `save()` fails validation and the catch answers 500.
   */
  function CreateStatusAsWritten(top: Option<ItemId>, bottom: Option<ItemId>, shoe: Option<ItemId>, caller: UserId): (status: int)
    ensures status == 400 <==> top.None? || bottom.None? || shoe.None?
    ensures status != 201
  {
    if top.None? || bottom.None? || shoe.None? then 400
    else if SchemaAsWrittenAccepts(RouteDraft(top.value, bottom.value, shoe.value, caller)) then 201
    else 500
  }

  /** The outfit collection with the routes as methods (corrected schema). */
  class OutfitStore {
    var outfits: seq<Outfit>
    var nextId: nat

    ghost predicate Valid()
      reads this
    {
      (forall i, j :: 0 <= i < j < |outfits| ==> outfits[i].id != outfits[j].id) &&
      forall j :: 0 <= j < |outfits| ==> outfits[j].id < nextId
    }

    constructor ()
      ensures Valid() && outfits == [] && nextId == 0
    {
      outfits := [];
      nextId := 0;
    }

    /** `GET /`: the caller's outfits, newest first, each populated from `clothes`. */
    method List(caller: UserId, clothes: seq<ClothingItem>) returns (r: seq<PopulatedOutfit>)
      ensures |r| == |Filter(outfits, OutfitOwnedBy(caller))|
      ensures forall i :: 0 <= i < |r| ==> r[i].outfit in outfits && r[i].outfit.userId == caller
      ensures forall o :: o in outfits && o.userId == caller ==> exists i :: 0 <= i < |r| && r[i].outfit == o
      ensures forall i, j :: 0 <= i < j < |r| ==> r[i].outfit.createdAt >= r[j].outfit.createdAt
      ensures forall i :: 0 <= i < |r| ==> r[i] == Populate(r[i].outfit, clothes)
    {
      r := PopulateAll(ListOwnedOutfits(outfits, caller), clothes);
      ListedContents(outfits, caller, clothes);
      ListedOrder(outfits, caller, clothes);
    }

    /**
     * `POST /`: reject a missing reference, otherwise store the outfit with the
     * caller as owner. The references are not checked against the
     * clothing-item collection: neither that they exist nor whose they are.
     */
    method Create(caller: UserId, top: Option<ItemId>, bottom: Option<ItemId>, shoe: Option<ItemId>,
                  now: int, clothes: seq<ClothingItem>) returns (res: Response<PopulatedOutfit>)
      requires Valid()
      modifies this
      ensures Valid()
      ensures top.None? || bottom.None? || shoe.None? ==>
        res == Error(400, MissingFieldsMessage) && outfits == old(outfits) && nextId == old(nextId)
      ensures top.Some? && bottom.Some? && shoe.Some? ==>
        var o := Outfit(old(nextId), top.value, bottom.value, shoe.value, None, None, caller, now);
        && outfits == old(outfits) + [o]
        && res == Ok(201, Populate(o, clothes))
    {
      if top.None? || bottom.None? || shoe.None? {
        return Error(400, MissingFieldsMessage);
      }
      var draft := RouteDraft(top.value, bottom.value, shoe.value, caller);
      var o := Stored(draft, nextId, now);
      outfits := outfits + [o];
      nextId := nextId + 1;
      res := Ok(201, Populate(o, clothes));
    }

    /** `DELETE /:id`: remove the caller's outfit with that id; otherwise 404 and nothing changes. */
    method Delete(id: nat, caller: UserId) returns (res: Response<string>)
      requires Valid()
      modifies this
      ensures Valid() && nextId == old(nextId)
      ensures FirstIndex(old(outfits), OutfitIdAndOwner(id, caller)).None? ==>
        res == Error(404, NotFoundMessage) && outfits == old(outfits)
      ensures FirstIndex(old(outfits), OutfitIdAndOwner(id, caller)).Some? ==>
        var j := FirstIndex(old(outfits), OutfitIdAndOwner(id, caller)).value;
        && old(outfits)[j].id == id && old(outfits)[j].userId == caller
        && outfits == old(outfits)[..j] + old(outfits)[j + 1..]
        && res == Ok(200, DeletedMessage)
    {
      var found := FirstIndex(outfits, OutfitIdAndOwner(id, caller));
      if found.None? {
        return Error(404, NotFoundMessage);
      }
      var j := found.value;
      outfits := outfits[..j] + outfits[j + 1..];
      res := Ok(200, DeletedMessage);
    }
  }

  /** A deletion by one user leaves every other user's outfit listing as it was. */
  lemma DeleteIsolated(outfits: seq<Outfit>, id: nat, caller: UserId, other: UserId)
    requires other != caller
    requires FirstIndex(outfits, OutfitIdAndOwner(id, caller)).Some?
    ensures
      var j := FirstIndex(outfits, OutfitIdAndOwner(id, caller)).value;
      Filter(outfits[..j] + outfits[j + 1..], OutfitOwnedBy(other)) == Filter(outfits, OutfitOwnedBy(other))
  {
    var j := FirstIndex(outfits, OutfitIdAndOwner(id, caller)).value;
    FilterRemoveUnseen(outfits, OutfitOwnedBy(other), j);
  }

  /** Deleting an outfit touches the outfit collection only: the clothing items it referenced stay. */
  method DeleteKeepsClothes(clothes: ClothesRoutes.ItemStore, store: OutfitStore, id: nat, caller: UserId)
    returns (res: Response<string>)
    requires store.Valid()
    modifies store
    ensures clothes.items == old(clothes.items) && clothes.nextId == old(clothes.nextId)
  {
    res := store.Delete(id, caller);
  }
}
