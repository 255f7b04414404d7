/**
 * The closet screens' list views (src/screens/clothes/Tops.tsx and
 * src/screens/clothes/Shoes.tsx): the fetched items narrowed to one
 * category, then to favourites or not, then by a tag search; Tops
 * finally sorts newest first, Shoes shows the list in fetched order.
 *
 * Timestamps are integers (the screens parse date strings). The sort key of
 * Tops is never changed from 'newest', so the price ordering is not part of
 * this model.
 */
module ClosetViews {
  import opened Common
  import opened ClothingItemModel
  import Ordering

  const TopCategory := "top"
  const ShoeCategory := "shoe"

  datatype ViewMode = All | Favorites

  /** The search dropdown: whether it is shown and the text typed in it. */
  datatype SearchBox = SearchBox(open: bool, text: string)

  function InCategory(category: string): ClothingItem -> bool {
    (item: ClothingItem) => item.category == category
  }

  function IsFavorite(): ClothingItem -> bool {
    (item: ClothingItem) => item.isFavorite
  }

  /** `t.toLowerCase().includes(searchText.toLowerCase())`: the search text is not trimmed. */
  predicate TagMatches(tag: string, search: string) {
    Contains(Lower(tag), Lower(search))
  }

  /** An item passes the search when the trimmed search is empty or one of its tags matches. */
  function MatchesSearch(search: string): ClothingItem -> bool {
    (item: ClothingItem) =>
      Trim(search) == "" || exists k :: 0 <= k < |item.tags| && TagMatches(item.tags[k], search)
  }

  /** `data.filter(item => item.category === category)` after a fetch. */
  function CategoryView(data: seq<ClothingItem>, category: string): (r: seq<ClothingItem>)
    ensures forall x :: x in r <==> x in data && x.category == category
    ensures IsSubsequence(r, data)
  {
    FilterIsSubsequence(data, InCategory(category));
    FilterMembersAll(data, InCategory(category));
    Filter(data, InCategory(category))
  }

  /** The tab: favourites mode keeps exactly the favourite items, all mode keeps the list. */
  function ModeView(items: seq<ClothingItem>, mode: ViewMode): (r: seq<ClothingItem>)
    ensures mode == All ==> r == items
    ensures mode == Favorites ==> forall x :: x in r <==> x in items && x.isFavorite
    ensures IsSubsequence(r, items)
  {
    if mode == All then
      SubsequenceReflexive(items);
      items
    else
      FilterIsSubsequence(items, IsFavorite());
      FilterMembersAll(items, IsFavorite());
      Filter(items, IsFavorite())
  }

  lemma {:induction false} SubsequenceReflexive(s: seq<ClothingItem>)
    ensures IsSubsequence(s, s)
  {
    if s != [] {
      SubsequenceReflexive(s[1..]);
    }
  }

  /**
   * The search filter: a blank (white-space only) search keeps every item;
   * otherwise an item is kept exactly when one of its tags contains the
   * untrimmed search text, ignoring case.
   */
  function SearchView(items: seq<ClothingItem>, search: string): (r: seq<ClothingItem>)
    ensures AllWhitespace(search) ==> r == items
    ensures !AllWhitespace(search) ==> forall x :: x in r <==>
      x in items && exists k :: 0 <= k < |x.tags| && TagMatches(x.tags[k], search)
    ensures IsSubsequence(r, items)
  {
    TrimEmptyIffBlank(search);
    FilterIsSubsequence(items, MatchesSearch(search));
    FilterMembersAll(items, MatchesSearch(search));
    if AllWhitespace(search) then
      FilterAll(items, MatchesSearch(search));
      Filter(items, MatchesSearch(search))
    else
      Filter(items, MatchesSearch(search))
  }

  /** What the Tops screen lists: mode, then search, then a copy sorted newest first. */
  function TopsView(items: seq<ClothingItem>, mode: ViewMode, search: string): (r: seq<ClothingItem>)
    ensures multiset(r) == multiset(SearchView(ModeView(items, mode), search))
    ensures Ordering.SortedDesc(r, CreatedAt)
  {
    Ordering.SortDescSorted(SearchView(ModeView(items, mode), search), CreatedAt);
    Ordering.SortDesc(SearchView(ModeView(items, mode), search), CreatedAt)
  }

  /** Tops with the same creation time appear in the order the mode and search filters left them. */
  lemma TopsTiesKeepOrder(items: seq<ClothingItem>, mode: ViewMode, search: string, t: int)
    ensures Ordering.WithKey(TopsView(items, mode, search), CreatedAt, t) ==
      Ordering.WithKey(SearchView(ModeView(items, mode), search), CreatedAt, t)
  {
    Ordering.SortDescStable(SearchView(ModeView(items, mode), search), CreatedAt, t);
  }

  /** What the Shoes screen lists: mode, then search, in fetched order. */
  function ShoesView(items: seq<ClothingItem>, mode: ViewMode, search: string): (r: seq<ClothingItem>)
    ensures IsSubsequence(r, items)
  {
    SubsequenceTransitive(SearchView(ModeView(items, mode), search), ModeView(items, mode), items);
    SearchView(ModeView(items, mode), search)
  }

  /** A Tops entry is a fetched top that passes the mode and the search; every such top is listed. */
  lemma TopsViewMembers(data: seq<ClothingItem>, mode: ViewMode, search: string, x: ClothingItem)
    ensures x in TopsView(CategoryView(data, TopCategory), mode, search) <==>
      && x in data && x.category == TopCategory
      && (mode == Favorites ==> x.isFavorite)
      && MatchesSearch(search)(x)
  {
    var items := CategoryView(data, TopCategory);
    var searched := SearchView(ModeView(items, mode), search);
    assert x in TopsView(items, mode, search) <==> x in multiset(searched);
    TrimEmptyIffBlank(search);
  }

  /** A Shoes entry is a fetched shoe that passes the mode and the search; every such shoe is listed. */
  lemma ShoesViewMembers(data: seq<ClothingItem>, mode: ViewMode, search: string, x: ClothingItem)
    ensures x in ShoesView(CategoryView(data, ShoeCategory), mode, search) <==>
      && x in data && x.category == ShoeCategory
      && (mode == Favorites ==> x.isFavorite)
      && MatchesSearch(search)(x)
  {
    TrimEmptyIffBlank(search);
  }

  /**
   * The search text is compared untrimmed: when an item's tag equals the
   * search ignoring case and no tag is longer, the search finds the item, and
   * the same search with a trailing space does not.
   */
  lemma SearchIsNotTrimmed(item: ClothingItem, search: string, k: nat)
    requires !AllWhitespace(search)
    requires k < |item.tags| && Lower(item.tags[k]) == Lower(search)
    requires forall j :: 0 <= j < |item.tags| ==> |item.tags[j]| <= |search|
    ensures MatchesSearch(search)(item)
    ensures !MatchesSearch(search + " ")(item)
  {
    TrimEmptyIffBlank(search);
    assert OccursAt(Lower(item.tags[k]), Lower(search), 0);
    var padded := search + " ";
    assert padded[..|search|] == search;
    TrimEmptyIffBlank(padded);
    forall j | 0 <= j < |item.tags|
      ensures !TagMatches(item.tags[j], padded)
    {
      assert |Lower(padded)| > |Lower(item.tags[j])|;
    }
  }

  /** Case is ignored: two searches that lower-case alike select the same items. */
  lemma SearchIgnoresCase(item: ClothingItem, search: string, other: string)
    requires Lower(search) == Lower(other)
    ensures MatchesSearch(search)(item) == MatchesSearch(other)(item)
  {
    TrimEmptyIffBlank(search);
    TrimEmptyIffBlank(other);
    LowerKeepsBlank(search);
    LowerKeepsBlank(other);
    assert forall j :: 0 <= j < |item.tags| ==>
      (TagMatches(item.tags[j], search) <==> TagMatches(item.tags[j], other));
  }

  /** The SEARCH button toggles the dropdown and keeps the text. */
  function ToggleSearch(b: SearchBox): (r: SearchBox)
    ensures r.open == !b.open && r.text == b.text
  {
    b.(open := !b.open)
  }

  /** CLOSE hides the dropdown and clears the text, after which the search keeps every item. */
  function CloseSearch(b: SearchBox): (r: SearchBox)
    ensures !r.open && r.text == ""
    ensures forall items :: SearchView(items, r.text) == items
  {
    SearchBox(false, "")
  }

  lemma ToggleTwiceRestores(b: SearchBox)
    ensures ToggleSearch(ToggleSearch(b)) == b
  {
  }
}
