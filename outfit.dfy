/**
 * The outfit document (backend/models/Outfit.js).
 *
 * As declared, the schema requires the three item references AND a prompt
 * and an image URL, and declares no owner field. The POST route supplies
 * neither prompt nor image URL, so as declared no outfit can ever be saved
 * (see `OutfitRoutes.CreateStatusAsWritten`). The model's stored outfits
 * follow the corrected schema: prompt and image URL optional, owner declared
 * and required.
 */
module OutfitModel {
  import opened Common
  import opened ClothingItemModel

  /** The fields handed to `new Outfit({...})`, before validation. */
  datatype OutfitDraft = OutfitDraft(
    top: Option<ItemId>,
    bottom: Option<ItemId>,
    shoe: Option<ItemId>,
    prompt: Option<string>,
    imageUrl: Option<string>,
    userId: Option<UserId>)

  /** A stored outfit (corrected schema). */
  datatype Outfit = Outfit(
    id: nat,
    top: ItemId,
    bottom: ItemId,
    shoe: ItemId,
    prompt: Option<string>,
    imageUrl: Option<string>,
    userId: UserId,
    createdAt: int)

  /** Validation as Outfit.js declares it: three references, a prompt and an image URL, all required. */
  predicate SchemaAsWrittenAccepts(d: OutfitDraft) {
    d.top.Some? && d.bottom.Some? && d.shoe.Some? && Truthy(d.prompt) && Truthy(d.imageUrl)
  }

  /** The fields the declared schema keeps: with no owner path, strict mode drops `userId`. */
  function StrictFieldsAsWritten(d: OutfitDraft): (r: OutfitDraft)
    ensures r.userId.None?
    ensures r.(userId := d.userId) == d
  {
    d.(userId := None)
  }

  /** Validation under the corrected schema: three references and an owner; prompt and image URL optional. */
  predicate SchemaAccepts(d: OutfitDraft) {
    d.top.Some? && d.bottom.Some? && d.shoe.Some? && d.userId.Some?
  }

  /** The stored form of a draft the corrected schema accepts. */
  function Stored(d: OutfitDraft, id: nat, now: int): (o: Outfit)
    requires SchemaAccepts(d)
    ensures o.id == id && o.createdAt == now
    ensures OutfitDraft(Some(o.top), Some(o.bottom), Some(o.shoe), o.prompt, o.imageUrl, Some(o.userId)) == d
  {
    Outfit(id, d.top.value, d.bottom.value, d.shoe.value, d.prompt, d.imageUrl, d.userId.value, now)
  }

  function OutfitCreatedAt(o: Outfit): int {
    o.createdAt
  }
}
