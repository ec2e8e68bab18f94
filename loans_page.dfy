/**
 * The user's loans page: the list of loans, approve and reject (each after a
 * confirm dialog and an API call) rewriting the status of one loan in the
 * list, the status label lookup, and when the approve/reject buttons show.
 */
module LoansPage {
  import opened Wrappers

  /** A loan as the page reads it; `itemId` is `listing.item.id`, None when the listing has no item. */
  datatype Loan = Loan(id: int, status: string, itemId: Option<int>)

  /** `prev.map(loan => loan.id === loanId ? { ...loan, status } : loan)`. */
  function SetStatus(loans: seq<Loan>, loanId: int, status: string): (r: seq<Loan>)
    ensures |r| == |loans|
    ensures forall i :: 0 <= i < |loans| && loans[i].id == loanId ==> r[i] == loans[i].(status := status)
    ensures forall i :: 0 <= i < |loans| && loans[i].id != loanId ==> r[i] == loans[i]
  {
    seq(|loans|, i requires 0 <= i < |loans| => if loans[i].id == loanId then loans[i].(status := status) else loans[i])
  }

  /** The ids, and so the order of the cards, are the same after a status rewrite. */
  lemma SetStatusKeepsIds(loans: seq<Loan>, loanId: int, status: string)
    ensures forall i :: 0 <= i < |loans| ==> SetStatus(loans, loanId, status)[i].id == loans[i].id
    ensures forall i :: 0 <= i < |loans| ==> SetStatus(loans, loanId, status)[i].(status := loans[i].status) == loans[i]
  {
  }

  /** A later rewrite of the same loan overrides an earlier one: reject after approve is reject. */
  lemma SetStatusLastWins(loans: seq<Loan>, loanId: int, s1: string, s2: string)
    ensures SetStatus(SetStatus(loans, loanId, s1), loanId, s2) == SetStatus(loans, loanId, s2)
  {
  }

  /** Rewrites of two different loans do not interfere. */
  lemma SetStatusCommutes(loans: seq<Loan>, a: int, b: int, s1: string, s2: string)
    requires a != b
    ensures SetStatus(SetStatus(loans, a, s1), b, s2) == SetStatus(SetStatus(loans, b, s2), a, s1)
  {
  }

  /** The `statusMap` labels. */
  const StatusLabels: map<string, string> := map[
    "requested" := "در انتظار تأیید",
    "approved" := "تأیید شده",
    "borrowed" := "امانت گرفته شده",
    "returned" := "بازگردانده شده",
    "rejected" := "رد شده"]

  /** `statusMap[loan.status] || statusMap.requested`. */
  function StatusLabel(status: string): (shown: string)
    ensures status in StatusLabels ==> shown == StatusLabels[status]
    ensures status !in StatusLabels ==> shown == StatusLabels["requested"]
  {
    if status in StatusLabels then StatusLabels[status] else StatusLabels["requested"]
  }

  /** "cancelled", a status of the loans table missing from the map, is shown as awaiting approval. */
  lemma CancelledShownAsRequested()
    ensures StatusLabel("cancelled") == "در انتظار تأیید"
  {
  }

  /** `isOwner`: the listing has an item and the current user's id equals `listing.item.id` (the item's id, not its owner's). */
  predicate IsOwner(l: Loan, currentUserId: Option<int>) {
    l.itemId.Some? && currentUserId == Some(l.itemId.value)
  }

  /** The approve and reject buttons show for a requested loan that `isOwner` accepts. */
  predicate ShowsActions(l: Loan, currentUserId: Option<int>) {
    l.status == "requested" && IsOwner(l, currentUserId)
  }

  /**
   * The buttons show exactly for a requested loan whose item id, not whose
   * owner, equals the current user's id; with no user signed in they never show.
   */
  lemma ShowsActionsExactly(l: Loan, currentUserId: Option<int>)
    ensures ShowsActions(l, currentUserId) <==>
              l.status == "requested" && l.itemId.Some? && currentUserId.Some? && currentUserId.value == l.itemId.value
    ensures currentUserId.None? || l.itemId.None? ==> !ShowsActions(l, currentUserId)
  {
  }

  /** Once a loan is approved or rejected in the list, its buttons are gone; the other cards are as before. */
  lemma DecidedLoanLosesActions(loans: seq<Loan>, loanId: int, status: string, uid: Option<int>)
    requires status == "approved" || status == "rejected"
    ensures forall i :: 0 <= i < |loans| && loans[i].id == loanId ==> !ShowsActions(SetStatus(loans, loanId, status)[i], uid)
    ensures forall i :: 0 <= i < |loans| && loans[i].id != loanId ==>
              ShowsActions(SetStatus(loans, loanId, status)[i], uid) == ShowsActions(loans[i], uid)
  {
  }

  /** The page's loans state. */
  class LoansPage {
    var loans: seq<Loan>
    /** The approve/reject calls sent to the API, in order. */
    var calls: seq<(string, int)>

    constructor (fetched: seq<Loan>)
      ensures loans == fetched && calls == []
    {
      loans := fetched;
      calls := [];
    }

    /**
     * `handleApprove(loanId)`: nothing unless the confirm is accepted; then
     * the API is called, and only on its success does the loan become
     * "approved" in the list.
     */
    method HandleApprove(loanId: int, confirmed: bool, apiSucceeds: bool)
      modifies this
      ensures calls == if confirmed then old(calls) + [("approve", loanId)] else old(calls)
      ensures loans == if confirmed && apiSucceeds then SetStatus(old(loans), loanId, "approved") else old(loans)
    {
      if !confirmed {
        return;
      }
      calls := calls + [("approve", loanId)];
      if apiSucceeds {
        loans := SetStatus(loans, loanId, "approved");
      }
    }

    /** `handleReject(loanId)`: as approve, with "rejected". */
    method HandleReject(loanId: int, confirmed: bool, apiSucceeds: bool)
      modifies this
      ensures calls == if confirmed then old(calls) + [("reject", loanId)] else old(calls)
      ensures loans == if confirmed && apiSucceeds then SetStatus(old(loans), loanId, "rejected") else old(loans)
    {
      if !confirmed {
        return;
      }
      calls := calls + [("reject", loanId)];
      if apiSucceeds {
        loans := SetStatus(loans, loanId, "rejected");
      }
    }
  }
}
