/**
 * The user's listings page: the fetched listings, delete (after a confirm
 * dialog and an API call) removing one listing from the list, the header
 * that depends on the admin role, and the card's image and status badge.
 */
module MyListingsPage {
  import opened Wrappers
  import opened Seqs
  import DashboardPage
  import ListingImages

  /** A listing as the page reads it; `images` is the parsed `item.images_json`. */
  datatype Listing = Listing(id: int, title: string, dailyFee: int, status: string, images: seq<string>)

  /** `prev.filter(l => l.id !== id)`. */
  function RemoveListing(listings: seq<Listing>, id: int): (r: seq<Listing>)
    ensures IsSubsequence(r, listings)
    ensures forall i :: 0 <= i < |r| ==> r[i].id != id
    ensures forall i :: 0 <= i < |listings| && listings[i].id != id ==> listings[i] in r
  {
    FilterIsSubsequence(listings, (l: Listing) => l.id != id);
    Filter(listings, (l: Listing) => l.id != id)
  }

  /** Removing an id that no listing carries leaves the list as it was. */
  lemma RemoveAbsentIdKeepsAll(listings: seq<Listing>, id: int)
    requires forall i :: 0 <= i < |listings| ==> listings[i].id != id
    ensures RemoveListing(listings, id) == listings
  {
    FilterKeepsAll(listings, (l: Listing) => l.id != id);
  }

  /** Deleting the same listing twice leaves the list as the first delete did. */
  lemma RemoveIdempotent(listings: seq<Listing>, id: int)
    ensures RemoveListing(RemoveListing(listings, id), id) == RemoveListing(listings, id)
  {
    RemoveAbsentIdKeepsAll(RemoveListing(listings, id), id);
  }

  /** The list shrinks by exactly the number of listings carrying the id. */
  lemma RemoveCountsMatches(listings: seq<Listing>, id: int)
    ensures |RemoveListing(listings, id)| + |Filter(listings, (l: Listing) => l.id == id)| == |listings|
  {
    FilterPartition(listings, (l: Listing) => l.id != id, (l: Listing) => l.id == id);
  }

  /** The header: all listings for an admin, the user's own otherwise. */
  function Heading(role: Option<int>): (h: string)
    ensures DashboardPage.IsAdmin(role) <==> h == "همه آگهی‌ها"
    ensures role != Some(1) <==> h == "آگهی‌های من"
  {
    if DashboardPage.IsAdmin(role) then "همه آگهی‌ها" else "آگهی‌های من"
  }

  /** The link to create a listing shows exactly for a user whose role is not 1. */
  function ShowsCreateLink(role: Option<int>): (shown: bool)
    ensures shown <==> role != Some(1)
  {
    !DashboardPage.IsAdmin(role)
  }

  /** The card's status badge: "active" is shown as active, anything else as inactive. */
  function StatusLabel(status: string): (shown: string)
    ensures status == "active" <==> shown == "فعال"
    ensures status != "active" <==> shown == "غیرفعال"
  {
    if status == "active" then "فعال" else "غیرفعال"
  }

  /** The card image of a listing. */
  function CardImage(l: Listing): (url: string)
    ensures l.images != [] ==> url == l.images[0]
    ensures l.images == [] ==> url == ListingImages.Placeholder
  {
    ListingImages.CardImage(l.images)
  }

  /** The page's listings state. */
  class MyListingsPage {
    var listings: seq<Listing>
    /** The delete calls sent to the API, in order. */
    var deleteCalls: seq<int>

    constructor (fetched: seq<Listing>)
      ensures listings == fetched && deleteCalls == []
    {
      listings := fetched;
      deleteCalls := [];
    }

    /**
     * `handleDelete(id)`: nothing unless the confirm is accepted; then the
     * API is called, and only on its success is the listing removed from
     * the list. A failed call leaves the list as it was.
     */
    method HandleDelete(id: int, confirmed: bool, apiSucceeds: bool)
      modifies this
      ensures deleteCalls == if confirmed then old(deleteCalls) + [id] else old(deleteCalls)
      ensures listings == if confirmed && apiSucceeds then RemoveListing(old(listings), id) else old(listings)
    {
      if !confirmed {
        return;
      }
      deleteCalls := deleteCalls + [id];
      if apiSucceeds {
        listings := RemoveListing(listings, id);
      }
    }
  }
}
