/**
 * The clothing-item document (backend/models/ClothingItem.js): what a stored
 * item holds and what the schema checks when it is saved.
 */
module ClothingItemModel {

  /** Document ids; the database assigns them, here a store counter does. */
  type ItemId = nat

  /** The id of the authenticated caller, as handed over by the auth middleware. */
  type UserId = nat

  /**
   * One stored garment. `tags` is an ordinary list (repeats allowed),
   * `userId` the owner. `createdAt` and `updatedAt` are the two stamps of
   * the schema's `timestamps` option (integer clock readings here): both are
   * set at creation, and `updatedAt` is set again by every later save or
   * update of the document.
   */
  datatype ClothingItem = ClothingItem(
    id: ItemId,
    labelText: string,
    category: string,
    imageUrl: string,
    tags: seq<string>,
    isFavorite: bool,
    userId: UserId,
    createdAt: int,
    updatedAt: int)

  /**
   * What the schema enforces on save: label, category and imageUrl are
   * required strings (a required string rejects ""). Nothing restricts the
   * category to a fixed set and nothing makes tags unique; the owner is
   * always present because a `UserId` is a value.
   */
  predicate SchemaValid(item: ClothingItem) {
    item.labelText != "" && item.category != "" && item.imageUrl != ""
  }

  /** The sort key of `.sort('-createdAt')`. */
  function CreatedAt(item: ClothingItem): int {
    item.createdAt
  }

  /** Any non-empty category is accepted: the schema has no closed set of categories. */
  lemma CategoryIsOpen(item: ClothingItem, category: string)
    requires category != ""
    ensures SchemaValid(item.(category := category)) <==> item.labelText != "" && item.imageUrl != ""
  {
  }

  /** The schema accepts a tag list with repeats. */
  lemma TagsMayRepeat(item: ClothingItem, tag: string)
    requires SchemaValid(item)
    ensures SchemaValid(item.(tags := [tag, tag]))
  {
  }

  /** Missing any one of the three required strings fails validation. */
  lemma RequiredStrings(item: ClothingItem)
    ensures item.labelText == "" ==> !SchemaValid(item)
    ensures item.category == "" ==> !SchemaValid(item)
    ensures item.imageUrl == "" ==> !SchemaValid(item)
  {
  }
}
