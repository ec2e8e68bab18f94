/**
 * The page that creates a listing: the form with its defaults, the check of
 * the required fields, the payload sent to the API and what the page shows
 * after the call.
 */
module NewListingPage {
  import opened Wrappers
  import opened Text

  /** `formData`: every field as the text its input holds. */
  datatype ListingForm = ListingForm(
    itemId: string, title: string, description: string, dailyFee: string,
    depositAmount: string, availableFrom: string, availableUntil: string, status: string)

  /** The form as the page opens: everything empty, status "active". */
  function DefaultForm(): (f: ListingForm)
    ensures f.status == "active"
    ensures f.itemId == "" && f.title == "" && f.description == "" && f.dailyFee == ""
    ensures f.depositAmount == "" && f.availableFrom == "" && f.availableUntil == ""
  {
    ListingForm("", "", "", "", "", "", "", "active")
  }

  /** The message shown when a required field is empty. */
  const RequiredFieldsError := "لطفا تمام فیلدهای الزامی را پر کنید"

  /** The message shown when the create call fails without a message of its own. */
  const CreateFailedError := "خطا در ایجاد آگهی"

  /**
   * The submit check: one of the six required inputs is the empty string.
   * Text made only of spaces is not empty and passes.
   */
  function RequiredMissing(f: ListingForm): (missing: bool)
    ensures !missing <==> f.itemId != "" && f.title != "" && f.dailyFee != "" &&
                          f.depositAmount != "" && f.availableFrom != "" && f.availableUntil != ""
  {
    f.itemId == "" || f.title == "" || f.dailyFee == "" || f.depositAmount == "" ||
    f.availableFrom == "" || f.availableUntil == ""
  }

  /** The form as the page opens cannot be submitted. */
  lemma DefaultFormRefused()
    ensures RequiredMissing(DefaultForm())
  {
  }

  /** The description and the status play no part in the check. */
  lemma DescriptionAndStatusNotRequired(f: ListingForm, description: string, status: string)
    ensures RequiredMissing(f.(description := description, status := status)) == RequiredMissing(f)
  {
  }

  /**
   * The check does not compare the two dates: a form whose availability ends
   * before it starts passes it.
   */
  lemma DatesNotCompared()
    ensures !RequiredMissing(ListingForm("1", "t", "", "10", "5", "2025-02-01", "2025-01-01", "active"))
  {
  }

  /** The body of the create call; the numbers are `None` where `parseInt`/`parseFloat` give `NaN`. */
  datatype ListingPayload = ListingPayload(
    itemId: Option<int>, title: string, description: string, dailyFee: Option<int>,
    depositAmount: Option<int>, availableFrom: string, availableUntil: string, status: string)

  /** The payload built from the form: numbers read from the text, everything else copied. */
  function BuildPayload(f: ListingForm): (p: ListingPayload)
    ensures p.title == f.title && p.description == f.description && p.status == f.status
    ensures p.availableFrom == f.availableFrom && p.availableUntil == f.availableUntil
    ensures AllDigits(f.itemId) && f.itemId != "" ==> p.itemId == Some(DigitsValue(f.itemId) as int)
    ensures AllDigits(f.dailyFee) && f.dailyFee != "" ==> p.dailyFee == Some(DigitsValue(f.dailyFee) as int)
    ensures AllDigits(f.depositAmount) && f.depositAmount != "" ==> p.depositAmount == Some(DigitsValue(f.depositAmount) as int)
  {
    assert AllDigits(f.itemId) && f.itemId != "" ==> ParseInt(f.itemId) == Some(DigitsValue(f.itemId) as int) by {
      if AllDigits(f.itemId) && f.itemId != "" { ParseIntOfDigits(f.itemId); }
    }
    assert AllDigits(f.dailyFee) && f.dailyFee != "" ==> ParseInt(f.dailyFee) == Some(DigitsValue(f.dailyFee) as int) by {
      if AllDigits(f.dailyFee) && f.dailyFee != "" { ParseIntOfDigits(f.dailyFee); }
    }
    assert AllDigits(f.depositAmount) && f.depositAmount != "" ==> ParseInt(f.depositAmount) == Some(DigitsValue(f.depositAmount) as int) by {
      if AllDigits(f.depositAmount) && f.depositAmount != "" { ParseIntOfDigits(f.depositAmount); }
    }
    ListingPayload(ParseInt(f.itemId), f.title, f.description, ParseInt(f.dailyFee),
                   ParseInt(f.depositAmount), f.availableFrom, f.availableUntil, f.status)
  }

  /** The fee typed with a rendering of an integer reaches the API as that integer. */
  lemma PayloadReadsRenderedFee(f: ListingForm, fee: int)
    requires f.dailyFee == IntToString(fee)
    ensures BuildPayload(f).dailyFee == Some(fee)
  {
    ParseIntOfIntToString(fee);
  }

  /** The outcome of the create call. */
  datatype ApiResult = Success | Failure(message: string)

  /** `err.response?.data?.message || "خطا در ایجاد آگهی"`. */
  function FailureMessage(message: string): (shown: string)
    ensures shown != ""
    ensures message != "" ==> shown == message
    ensures message == "" ==> shown == CreateFailedError
  {
    if message != "" then message else CreateFailedError
  }

  /** The page's form state. */
  class NewListingPage {
    var form: ListingForm
    var error: string
    var submitting: bool
    /** The forms submitted to the create call, in order; each call's body is `BuildPayload` of its form. */
    var created: seq<ListingForm>
    /** Whether the page has moved on to the listings page. */
    var navigated: bool

    constructor ()
      ensures form == DefaultForm() && error == "" && !submitting && created == [] && !navigated
    {
      form := DefaultForm();
      error := "";
      submitting := false;
      created := [];
      navigated := false;
    }

    /**
     * `handleSubmit`: the error is cleared; a form with an empty required
     * field gets the required-fields error and no call is made; otherwise
     * the form's payload is sent, and the page moves on after a success or shows
     * the failure's message. A call that was made is over when the method
     * returns.
     */
    method HandleSubmit(outcome: ApiResult)
      modifies this
      ensures form == old(form)
      ensures RequiredMissing(old(form)) ==>
                error == RequiredFieldsError && created == old(created) && navigated == old(navigated) &&
                submitting == old(submitting)
      ensures !RequiredMissing(old(form)) ==> created == old(created) + [old(form)] && !submitting
      ensures !RequiredMissing(old(form)) && outcome.Success? ==> error == "" && navigated
      ensures !RequiredMissing(old(form)) && outcome.Failure? ==>
                error == FailureMessage(outcome.message) && navigated == old(navigated)
    {
      error := "";
      if RequiredMissing(form) {
        error := RequiredFieldsError;
      } else {
        submitting := true;
        created := created + [form];
        if outcome.Success? {
          navigated := true;
        } else {
          error := FailureMessage(outcome.message);
        }
        submitting := false;
      }
    }
  }
}
