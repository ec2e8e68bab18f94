/**
 * The home page: the cards built from the newest and most viewed listings,
 * the icon chosen for each category, and the top-level categories it shows.
 */
module MainPage {
  import opened Wrappers
  import opened Seqs
  import opened Text
  import ListingImages

  /** The listing's item, when the API sent one; `images` is the parsed `images_json`. */
  datatype ItemInfo = ItemInfo(title: string, images: seq<string>)

  /** A listing as the home page reads it. */
  datatype Listing = Listing(id: int, title: string, item: Option<ItemInfo>, dailyFee: int)

  /** The card the page renders for a listing. */
  datatype ListingCardItem = ListingCardItem(id: int, title: string, imageUrl: string, link: string, dailyFee: int)

  /** The number of cards a section shows. */
  const CardCount := 6

  /** The title shown when neither the listing nor its item has one. */
  const Untitled := "بدون عنوان"

  /** `listing.title || listing.item?.title || "بدون عنوان"`: the first non-empty title. */
  function DisplayTitle(l: Listing): (t: string)
    ensures t != ""
    ensures l.title != "" ==> t == l.title
    ensures l.title == "" && l.item.Some? && l.item.value.title != "" ==> t == l.item.value.title
    ensures l.title == "" && (l.item.None? || l.item.value.title == "") ==> t == Untitled
  {
    if l.title != "" then l.title
    else if l.item.Some? && l.item.value.title != "" then l.item.value.title
    else Untitled
  }

  /** The images of the listing's item, none when there is no item. */
  function ItemImages(l: Listing): seq<string> {
    if l.item.Some? then l.item.value.images else []
  }

  /** `/listings/${listing.id}`. */
  function ListingLink(id: int): string {
    "/listings/" + IntToString(id)
  }

  /** Different listings get different links. */
  lemma ListingLinkInjective(a: int, b: int)
    requires ListingLink(a) == ListingLink(b)
    ensures a == b
  {
    assert ListingLink(a)[10..] == IntToString(a);
    assert ListingLink(b)[10..] == IntToString(b);
    IntToStringInjective(a, b);
  }

  /** The card of one listing. */
  function ToCardItem(l: Listing): (c: ListingCardItem)
    ensures c.id == l.id && c.dailyFee == l.dailyFee
    ensures c.title == DisplayTitle(l) && c.link == ListingLink(l.id)
    ensures c.imageUrl == ListingImages.FirstImageOr(ItemImages(l))
  {
    ListingCardItem(l.id, DisplayTitle(l), ListingImages.FirstImageOr(ItemImages(l)), ListingLink(l.id), l.dailyFee)
  }

  /** `convertToListingItems`: the cards of the first six listings, in order. */
  function ConvertToListingItems(listings: seq<Listing>): (cards: seq<ListingCardItem>)
    ensures |cards| == if |listings| < CardCount then |listings| else CardCount
    ensures forall i :: 0 <= i < |cards| ==> cards[i] == ToCardItem(listings[i])
  {
    var shown := if |listings| < CardCount then listings else listings[..CardCount];
    seq(|shown|, i requires 0 <= i < |shown| => ToCardItem(shown[i]))
  }

  /** Listings after the sixth never reach the page. */
  lemma OnlyFirstSixMatter(listings: seq<Listing>, more: seq<Listing>)
    requires |listings| >= CardCount
    ensures ConvertToListingItems(listings + more) == ConvertToListingItems(listings)
  {
    var a := ConvertToListingItems(listings + more);
    var b := ConvertToListingItems(listings);
    assert |a| == |b|;
    forall i | 0 <= i < |a| ensures a[i] == b[i] {
      assert (listings + more)[i] == listings[i];
    }
  }

  /** Every card has a title, and cards of listings with distinct ids link to distinct pages. */
  lemma CardsTitledAndDistinctlyLinked(listings: seq<Listing>)
    requires forall i, j :: 0 <= i < j < |listings| ==> listings[i].id != listings[j].id
    ensures forall i :: 0 <= i < |ConvertToListingItems(listings)| ==> ConvertToListingItems(listings)[i].title != ""
    ensures forall i, j :: 0 <= i < j < |ConvertToListingItems(listings)| ==>
              ConvertToListingItems(listings)[i].link != ConvertToListingItems(listings)[j].link
  {
    var cards := ConvertToListingItems(listings);
    forall i, j | 0 <= i < j < |cards| ensures cards[i].link != cards[j].link {
      if cards[i].link == cards[j].link {
        ListingLinkInjective(listings[i].id, listings[j].id);
      }
    }
  }

  /** The icons a category tile can show. */
  datatype Icon = BookOpen | Hammer | Home | Cpu | Gift | Activity

  /** `categoryIcons`. */
  const CategoryIcons: map<string, Icon> := map[
    "کتاب" := BookOpen,
    "ابزار" := Hammer,
    "لوازم خانگی" := Home,
    "الکترونیکی" := Cpu,
    "اسباب بازی" := Gift,
    "ورزشی" := Activity]

  /** `categoryIcons[categoryName] || Activity`. */
  function GetCategoryIcon(categoryName: string): (icon: Icon)
    ensures categoryName in CategoryIcons ==> icon == CategoryIcons[categoryName]
    ensures categoryName !in CategoryIcons ==> icon == Activity
  {
    if categoryName in CategoryIcons then CategoryIcons[categoryName] else Activity
  }

  /** Only the six known names get an icon other than the default. */
  lemma NonDefaultIconOnlyForKnownNames(categoryName: string)
    requires GetCategoryIcon(categoryName) != Activity
    ensures categoryName in {"کتاب", "ابزار", "لوازم خانگی", "الکترونیکی", "اسباب بازی"}
  {
  }

  /** A category as the home page reads it; `parentId` is None for a missing or null `parent_id`. */
  datatype Category = Category(id: int, title: string, name: Option<string>, parentId: Option<int>)

  /** `category.title || category.name || ""`. */
  function CategoryName(c: Category): (n: string)
    ensures c.title != "" ==> n == c.title
    ensures c.title == "" && c.name.Some? ==> n == c.name.value
    ensures c.title == "" && c.name.None? ==> n == ""
  {
    if c.title != "" then c.title else if c.name.Some? then c.name.value else ""
  }

  /** `!cat.parent_id`: a missing, null or zero parent. */
  predicate IsTopLevel(c: Category) {
    c.parentId.None? || c.parentId == Some(0)
  }

  /** `parentCategories`: the top-level categories, in order. */
  function ParentCategories(categories: seq<Category>): (r: seq<Category>)
    ensures IsSubsequence(r, categories)
    ensures forall i :: 0 <= i < |r| ==> r[i].parentId.None? || r[i].parentId == Some(0)
    ensures forall i :: 0 <= i < |categories| ==> (categories[i] in r <==> IsTopLevel(categories[i]))
  {
    FilterIsSubsequence(categories, IsTopLevel);
    Filter(categories, IsTopLevel)
  }

  /** A category whose `parent_id` is 0 is shown as a top-level category. */
  lemma ZeroParentShownAsTopLevel(categories: seq<Category>, i: int)
    requires 0 <= i < |categories| && categories[i].parentId == Some(0)
    ensures categories[i] in ParentCategories(categories)
  {
  }
}
