/**
 * The dashboard page: the user's loans split into "my requests" and
 * "incoming requests", each split again into active and history; the
 * admin's loans split into pending, active and past; the four counters;
 * and the date formatting with its fallbacks.
 */
module DashboardPage {
  import opened Wrappers
  import opened Seqs

  /**
   * A loan as the dashboard reads it: `borrower` and `listing.item.owner`
   * may be missing, so their ids are optional.
   */
  datatype Loan = Loan(id: int, status: string, borrowerId: Option<int>, ownerId: Option<int>)

  /** A listing, as far as the counters look at it. */
  datatype Listing = Listing(id: int, status: string)

  /** A fetch result: an array, or anything else (`Array.isArray` is false). */
  datatype Fetched<T> = Array(elements: seq<T>) | NotArray

  datatype Stats = Stats(totalListings: nat, activeListings: nat, totalLoans: nat, pendingLoans: nat)

  /** The derived groups of the user's part of the page. */
  datatype UserGroups = UserGroups(
    myLoanRequests: seq<Loan>, incomingRequests: seq<Loan>,
    myBorrowedActive: seq<Loan>, myBorrowedHistory: seq<Loan>,
    lentActive: seq<Loan>, lentHistory: seq<Loan>)

  /** The derived groups of the admin's part of the page. */
  datatype AdminGroups = AdminGroups(pending: seq<Loan>, active: seq<Loan>, past: seq<Loan>)

  /** `isActiveStatus`: membership in `["requested", "approved", "borrowed"]`. */
  predicate IsActiveStatus(status: string) {
    status in ["requested", "approved", "borrowed"]
  }

  lemma IsActiveStatusExactly(status: string)
    ensures IsActiveStatus(status) <==> status == "requested" || status == "approved" || status == "borrowed"
  {
  }

  /** `loan.borrower && loan.borrower.id === myId`; an absent user id matches nothing. */
  predicate IsMine(l: Loan, myId: Option<int>) {
    l.borrowerId.Some? && myId.Some? && l.borrowerId.value == myId.value
  }

  /** The listing's owner is the user and the borrower is present and someone else. */
  predicate IsIncoming(l: Loan, myId: Option<int>) {
    l.ownerId.Some? && myId.Some? && l.ownerId.value == myId.value
    && l.borrowerId.Some? && l.borrowerId.value != myId.value
  }

  /**
   * `myLoanRequests` and `incomingRequests` filtered from the user's loans,
   * each split by `isActiveStatus` into the active and the history list.
   */
  function DeriveUserGroups(loans: seq<Loan>, myId: Option<int>): (g: UserGroups)
    ensures forall i :: 0 <= i < |loans| ==> (loans[i] in g.myLoanRequests <==> IsMine(loans[i], myId))
    ensures forall i :: 0 <= i < |loans| ==> (loans[i] in g.incomingRequests <==> IsIncoming(loans[i], myId))
    ensures IsSubsequence(g.myLoanRequests, loans) && IsSubsequence(g.incomingRequests, loans)
    ensures forall i :: 0 <= i < |g.myLoanRequests| ==>
              (g.myLoanRequests[i] in g.myBorrowedActive <==> IsActiveStatus(g.myLoanRequests[i].status))
              && (g.myLoanRequests[i] in g.myBorrowedHistory <==> !IsActiveStatus(g.myLoanRequests[i].status))
    ensures forall i :: 0 <= i < |g.incomingRequests| ==>
              (g.incomingRequests[i] in g.lentActive <==> IsActiveStatus(g.incomingRequests[i].status))
              && (g.incomingRequests[i] in g.lentHistory <==> !IsActiveStatus(g.incomingRequests[i].status))
    ensures IsSubsequence(g.myBorrowedActive, g.myLoanRequests) && IsSubsequence(g.myBorrowedHistory, g.myLoanRequests)
    ensures IsSubsequence(g.lentActive, g.incomingRequests) && IsSubsequence(g.lentHistory, g.incomingRequests)
  {
    var isMine := (l: Loan) => IsMine(l, myId);
    var isIncoming := (l: Loan) => IsIncoming(l, myId);
    var active := (l: Loan) => IsActiveStatus(l.status);
    var history := (l: Loan) => !IsActiveStatus(l.status);
    var mine := Filter(loans, isMine);
    var incoming := Filter(loans, isIncoming);
    FilterIsSubsequence(loans, isMine);
    FilterIsSubsequence(loans, isIncoming);
    FilterMembership(loans, isMine);
    FilterMembership(loans, isIncoming);
    FilterIsSubsequence(mine, active);
    FilterIsSubsequence(mine, history);
    FilterMembership(mine, active);
    FilterMembership(mine, history);
    FilterMembership(incoming, active);
    FilterMembership(incoming, history);
    FilterIsSubsequence(incoming, active);
    FilterIsSubsequence(incoming, history);
    UserGroups(mine, incoming,
      Filter(mine, active), Filter(mine, history),
      Filter(incoming, active), Filter(incoming, history))
  }

  /**
   * Active and history split each of the user's two lists: together they
   * hold every loan of the list, each once, and no loan is in both.
   */
  lemma UserGroupsPartition(loans: seq<Loan>, myId: Option<int>)
    ensures var g := DeriveUserGroups(loans, myId);
            && multiset(g.myBorrowedActive) + multiset(g.myBorrowedHistory) == multiset(g.myLoanRequests)
            && multiset(g.lentActive) + multiset(g.lentHistory) == multiset(g.incomingRequests)
            && (forall l :: l in g.myBorrowedActive ==> l !in g.myBorrowedHistory)
            && (forall l :: l in g.lentActive ==> l !in g.lentHistory)
  {
    var g := DeriveUserGroups(loans, myId);
    var active := (l: Loan) => IsActiveStatus(l.status);
    var history := (l: Loan) => !IsActiveStatus(l.status);
    FilterPartition(g.myLoanRequests, active, history);
    FilterPartition(g.incomingRequests, active, history);
  }

  /** No incoming request has the user as borrower, so it is never one of the user's own requests. */
  lemma IncomingDisjointFromMine(loans: seq<Loan>, myId: Option<int>)
    ensures var g := DeriveUserGroups(loans, myId);
            && (forall l :: l in g.incomingRequests ==> !(l.borrowerId.Some? && Some(l.borrowerId.value) == myId))
            && (forall l :: l in g.incomingRequests ==> l !in g.myLoanRequests)
  {
  }

  /** The admin's loans by status: requested, approved or borrowed, and everything else. */
  function DeriveAdminGroups(adminLoans: seq<Loan>): (g: AdminGroups)
    ensures forall i :: 0 <= i < |adminLoans| ==> (adminLoans[i] in g.pending <==> adminLoans[i].status == "requested")
    ensures forall i :: 0 <= i < |adminLoans| ==>
              (adminLoans[i] in g.active <==> adminLoans[i].status == "approved" || adminLoans[i].status == "borrowed")
    ensures forall i :: 0 <= i < |adminLoans| ==> (adminLoans[i] in g.past <==> !IsActiveStatus(adminLoans[i].status))
    ensures IsSubsequence(g.pending, adminLoans) && IsSubsequence(g.active, adminLoans) && IsSubsequence(g.past, adminLoans)
  {
    var pending := (l: Loan) => l.status == "requested";
    var active := (l: Loan) => l.status in ["approved", "borrowed"];
    var past := (l: Loan) => !(l.status in ["requested", "approved", "borrowed"]);
    FilterIsSubsequence(adminLoans, pending);
    FilterIsSubsequence(adminLoans, active);
    FilterIsSubsequence(adminLoans, past);
    FilterMembership(adminLoans, pending);
    FilterMembership(adminLoans, active);
    FilterMembership(adminLoans, past);
    AdminGroups(Filter(adminLoans, pending), Filter(adminLoans, active), Filter(adminLoans, past))
  }

  /** The admin's pending, active and past groups are pairwise disjoint and together hold every loan. */
  lemma AdminGroupsPartition(adminLoans: seq<Loan>)
    ensures var g := DeriveAdminGroups(adminLoans);
            && multiset(g.pending) + multiset(g.active) + multiset(g.past) == multiset(adminLoans)
            && |g.pending| + |g.active| + |g.past| == |adminLoans|
            && (forall l :: l in g.pending ==> l !in g.active && l !in g.past)
            && (forall l :: l in g.active ==> l !in g.past)
  {
    var pending := (l: Loan) => l.status == "requested";
    var active := (l: Loan) => l.status in ["approved", "borrowed"];
    var past := (l: Loan) => !(l.status in ["requested", "approved", "borrowed"]);
    FilterPartition3(adminLoans, pending, active, past);
    FilterPartition3Length(adminLoans, pending, active, past);
  }

  /** A listing counted as active. */
  predicate IsActiveListing(l: Listing) {
    l.status == "active"
  }

  /** A loan counted as pending. */
  predicate IsPendingLoan(l: Loan) {
    l.status == "requested"
  }

  /** The counters: listing counts from `/listings`, loan counts from `/loans/mine`; a non-array counts as empty. */
  function DeriveStats(listingsData: Fetched<Listing>, myLoansData: Fetched<Loan>): (s: Stats)
    ensures s.activeListings <= s.totalListings
    ensures s.pendingLoans <= s.totalLoans
    ensures listingsData.NotArray? ==> s.totalListings == 0 && s.activeListings == 0
    ensures myLoansData.NotArray? ==> s.totalLoans == 0 && s.pendingLoans == 0
    ensures listingsData.Array? ==> s.totalListings == |listingsData.elements|
    ensures myLoansData.Array? ==> s.totalLoans == |myLoansData.elements|
    ensures listingsData.Array? ==> s.activeListings == Count(listingsData.elements, IsActiveListing)
    ensures myLoansData.Array? ==> s.pendingLoans == Count(myLoansData.elements, IsPendingLoan)
  {
    var listings := if listingsData.Array? then listingsData.elements else [];
    var loans := if myLoansData.Array? then myLoansData.elements else [];
    FilterLengthIsCount(listings, IsActiveListing);
    FilterLengthIsCount(loans, IsPendingLoan);
    Stats(|listings|, |Filter(listings, IsActiveListing)|, |loans|, |Filter(loans, IsPendingLoan)|)
  }

  /** One more active listing raises the active counter by one; any other listing leaves it. */
  lemma StatsCountOneMoreListing(listings: seq<Listing>, l: Listing, loansData: Fetched<Loan>)
    ensures DeriveStats(Array(listings + [l]), loansData).activeListings ==
              DeriveStats(Array(listings), loansData).activeListings + (if l.status == "active" then 1 else 0)
  {
    assert (listings + [l])[..|listings|] == listings;
  }

  /** `isAdmin = user?.role === 1`. */
  predicate IsAdmin(role: Option<int>) {
    role == Some(1)
  }

  /** The title of the listings card: all listings for an admin, listing management otherwise. */
  function ListingsCardTitle(role: Option<int>): (t: string)
    ensures t == "همه آگهی‌ها" <==> role == Some(1)
    ensures t == "مدیریت آگهی‌ها" <==> role != Some(1)
  {
    if IsAdmin(role) then "همه آگهی‌ها" else "مدیریت آگهی‌ها"
  }

  /**
   * `formatDate(value)`: "-" for null or "", the text itself when it does
   * not parse as a date, otherwise the locale rendering. Date parsing and
   * locale rendering are parameters.
   */
  function FormatDate(value: Option<string>, parse: string -> Option<int>, render: int -> string): (r: string)
    ensures value.None? || value == Some("") ==> r == "-"
    ensures value.Some? && value.value != "" && parse(value.value).None? ==> r == value.value
    ensures value.Some? && value.value != "" && parse(value.value).Some? ==> r == render(parse(value.value).value)
  {
    if value.None? || value.value == "" then "-"
    else match parse(value.value) {
      case None => value.value
      case Some(t) => render(t)
    }
  }
}
