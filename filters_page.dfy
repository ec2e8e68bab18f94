/**
 * The listing filter page: a fixed list of two listings, three filters
 * (category, availability, maximum daily fee), the filtered list they
 * define, and the reset button.
 */
module FiltersPage {
  import opened Seqs
  import opened Text

  datatype Listing = Listing(id: int, title: string, dailyFee: int, category: string, owner: string, status: string)

  /** The three filter values; `maxPrice` is the text of a number input. */
  datatype FilterState = FilterState(category: string, status: string, maxPrice: string)

  /** The filters the page starts with and the reset button restores. */
  const InitialFilters := FilterState("all", "all", "")

  /** The page's constant `listings`. */
  function PageListings(): seq<Listing> {
    [Listing(1, "دوربین DSLR Canon", 150000, "دوربین", "علی محمدی", "available"),
     Listing(2, "پلی‌استیشن 5", 200000, "کنسول بازی", "محمد رضایی", "unavailable")]
  }

  /**
   * `!maxPrice || l.dailyFee <= Number(maxPrice)`: empty text is no bound;
   * text that is not a number compares false with every fee.
   */
  predicate PriceMatches(s: FilterState, l: Listing) {
    s.maxPrice == "" || (NumberValue(s.maxPrice).Some? && l.dailyFee <= NumberValue(s.maxPrice).value)
  }

  /** The three conditions: category "all" or equal, status "all" or equal, and the price bound. */
  predicate Keeps(s: FilterState, l: Listing) {
    (s.category == "all" || l.category == s.category)
    && (s.status == "all" || l.status == s.status)
    && PriceMatches(s, l)
  }

  /** `filteredListings`. */
  function FilteredListings(listings: seq<Listing>, s: FilterState): (r: seq<Listing>)
    ensures IsSubsequence(r, listings)
    ensures forall i :: 0 <= i < |listings| ==> (listings[i] in r <==> Keeps(s, listings[i]))
  {
    FilterIsSubsequence(listings, (l: Listing) => Keeps(s, l));
    Filter(listings, (l: Listing) => Keeps(s, l))
  }

  /** The reset button: category "all", status "all", no maximum price, whatever was set before. */
  function Reset(s: FilterState): (r: FilterState)
    ensures r.category == "all" && r.status == "all" && r.maxPrice == ""
  {
    InitialFilters
  }

  /** After a reset the filters keep every listing. */
  lemma ResetKeepsAll(listings: seq<Listing>, s: FilterState)
    ensures FilteredListings(listings, Reset(s)) == listings
  {
    FilterKeepsAll(listings, (l: Listing) => Keeps(Reset(s), l));
  }

  /** A maximum price that is not a number keeps no listing at all. */
  lemma UnparsablePriceKeepsNothing(listings: seq<Listing>, s: FilterState)
    requires s.maxPrice != "" && NumberValue(s.maxPrice).None?
    ensures FilteredListings(listings, s) == []
  {
    var r := FilteredListings(listings, s);
    assert forall i :: 0 <= i < |r| ==> !PriceMatches(s, r[i]);
    if r != [] {
      assert false;
    }
  }

  /** As written, the page renders `listings`, whatever the filters. */
  function RenderedListings(s: FilterState): (r: seq<Listing>)
    ensures r == PageListings()
  {
    PageListings()
  }

  /**
   * The rendered list does not depend on the filters: any two filter states
   * render the same listings, each of the page's listings among them.
   */
  lemma RenderedIndependentOfFilters(s: FilterState, t: FilterState)
    ensures RenderedListings(s) == RenderedListings(t)
    ensures forall i :: 0 <= i < |PageListings()| ==> PageListings()[i] in RenderedListings(s)
  {
  }

  /**
   * Only under filters that keep both listings does the rendering agree with
   * the filtered list.
   */
  lemma {:induction false} RenderedEqualsFilteredOnlyWhenAllKept(s: FilterState)
    ensures RenderedListings(s) == FilteredListings(PageListings(), s) <==>
              Keeps(s, PageListings()[0]) && Keeps(s, PageListings()[1])
  {
    var ls := PageListings();
    if Keeps(s, ls[0]) && Keeps(s, ls[1]) {
      FilterKeepsAll(ls, (l: Listing) => Keeps(s, l));
    }
    if RenderedListings(s) == FilteredListings(ls, s) {
      assert ls[0] in FilteredListings(ls, s) && ls[1] in FilteredListings(ls, s);
    }
  }

  /** With the category set to cameras, the game console the filter rejects is still rendered. */
  lemma RenderedIgnoresFilters()
    ensures var s := FilterState("دوربین", "all", "");
            PageListings()[1] in RenderedListings(s) && !Keeps(s, PageListings()[1])
  {
  }

  /** The rendering with the evident intent: the filtered list. */
  function RenderedListingsIntended(s: FilterState): (r: seq<Listing>)
    ensures forall i :: 0 <= i < |r| ==> Keeps(s, r[i])
    ensures forall i :: 0 <= i < |PageListings()| && Keeps(s, PageListings()[i]) ==> PageListings()[i] in r
    ensures s.category == "all" && s.status == "all" && s.maxPrice == "" ==> r == PageListings()
  {
    assert s == InitialFilters ==> FilteredListings(PageListings(), s) == PageListings() by {
      ResetKeepsAll(PageListings(), s);
    }
    FilteredListings(PageListings(), s)
  }

  /** With the intended rendering, the camera filter shows the camera alone. */
  lemma IntendedRenderingFiltersByCategory()
    ensures RenderedListingsIntended(FilterState("دوربین", "all", "")) == [PageListings()[0]]
  {
  }
}
