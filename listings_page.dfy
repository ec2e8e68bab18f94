/**
 * The public listings page: the search box and category buttons that
 * filter the fetched listings, and the status label of a card.
 */
module ListingsPage {
  import opened Wrappers
  import opened Seqs
  import opened Text

  /** A public listing; `categoryId` is `item.category?.id`. */
  datatype Listing = Listing(id: int, title: string, itemTitle: string, categoryId: Option<int>, status: string, images: seq<string>)

  /** The query occurs, ignoring case, in the listing's title or in its item's title. */
  predicate MatchesSearch(l: Listing, query: string) {
    Includes(Lower(l.title), Lower(query)) || Includes(Lower(l.itemTitle), Lower(query))
  }

  /** No category selected, or the item's category is the selected one. */
  predicate MatchesCategory(l: Listing, selected: Option<int>) {
    selected.None? || (l.categoryId.Some? && l.categoryId.value == selected.value)
  }

  /** `filteredListings`. */
  function FilteredListings(listings: seq<Listing>, query: string, selected: Option<int>): (r: seq<Listing>)
    ensures IsSubsequence(r, listings)
    ensures forall i :: 0 <= i < |listings| ==>
              (listings[i] in r <==> MatchesSearch(listings[i], query) && MatchesCategory(listings[i], selected))
  {
    var keep := (l: Listing) => MatchesSearch(l, query) && MatchesCategory(l, selected);
    FilterIsSubsequence(listings, keep);
    Filter(listings, keep)
  }

  /** An empty query keeps every listing the category allows. */
  lemma EmptyQueryKeepsCategory(listings: seq<Listing>, selected: Option<int>)
    ensures FilteredListings(listings, "", selected) == Filter(listings, (l: Listing) => MatchesCategory(l, selected))
  {
    forall i | 0 <= i < |listings| ensures MatchesSearch(listings[i], "") {
      assert OccursAt(Lower(listings[i].title), Lower(""), 0);
    }
    FilterCongruent(listings,
      (l: Listing) => MatchesSearch(l, "") && MatchesCategory(l, selected),
      (l: Listing) => MatchesCategory(l, selected));
  }

  /** With no category selected and an empty query, every listing is shown. */
  lemma NoFilterKeepsAll(listings: seq<Listing>)
    ensures FilteredListings(listings, "", None) == listings
  {
    EmptyQueryKeepsCategory(listings, None);
    FilterKeepsAll(listings, (l: Listing) => MatchesCategory(l, None));
  }

  /** A listing whose item has no category is dropped as soon as a category is selected. */
  lemma UncategorisedDropped(listings: seq<Listing>, query: string, c: int)
    ensures forall i :: 0 <= i < |listings| && listings[i].categoryId.None? ==>
              listings[i] !in FilteredListings(listings, query, Some(c))
  {
  }

  lemma LowerIdempotent(s: string)
    ensures Lower(Lower(s)) == Lower(s)
  {
  }

  /** The search ignores the case of the query: a query and its lower-case form select the same listings. */
  lemma SearchIgnoresQueryCase(listings: seq<Listing>, query: string, selected: Option<int>)
    ensures FilteredListings(listings, query, selected) == FilteredListings(listings, Lower(query), selected)
  {
    LowerIdempotent(query);
    FilterCongruent(listings,
      (l: Listing) => MatchesSearch(l, query) && MatchesCategory(l, selected),
      (l: Listing) => MatchesSearch(l, Lower(query)) && MatchesCategory(l, selected));
  }

  /** The availability badge: "available" for an active listing, "unavailable" for any other status. */
  function StatusLabel(status: string): (shown: string)
    ensures status == "active" <==> shown == "در دسترس"
    ensures status != "active" <==> shown == "ناموجود"
  {
    if status == "active" then "در دسترس" else "ناموجود"
  }
}
