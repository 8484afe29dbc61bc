/**
 * app/coupons/add/page.jsx: the add-coupon form, the JSON payload it posts
 * and the message each outcome shows.
 */
module AddCouponPage {
  import opened Wrappers
  import opened Text
  import opened Fetch

  datatype CouponForm = CouponForm(
    code: string,
    discountType: string,
    discountValue: string,
    maxDiscount: string,
    expiryDate: string,
    isActive: bool)

  /** The initial form, and the one a successful submit restores. */
  const DefaultForm: CouponForm := CouponForm("", "PERCENTAGE", "", "", "", true)

  /**
   * The posted payload; numbers are `Number(...)` of the fields, `expiryDate`
   * stands for `new Date(form.expiryDate)`, and `maxDiscount` is absent
   * unless set.
   */
  datatype Payload = Payload(
    code: string,
    discountType: string,
    discountValue: Num,
    expiryDate: string,
    isActive: bool,
    maxDiscount: Option<Num>)

  /** The message line: a kind ("success" or "error") and its text. */
  datatype Message = Message(kind: string, text: string)

  /** The payload `handleSubmit` builds from the form. */
  function BuildPayload(form: CouponForm): (p: Payload)
    ensures p.code == form.code && p.discountType == form.discountType
    ensures p.discountValue == ParseNum(form.discountValue)
    ensures p.expiryDate == form.expiryDate && p.isActive == form.isActive
    ensures p.maxDiscount.Some? <==> form.discountType == "PERCENTAGE" && form.maxDiscount != ""
    ensures p.maxDiscount.Some? ==> p.maxDiscount.value == ParseNum(form.maxDiscount)
  {
    var base := Payload(form.code, form.discountType, ParseNum(form.discountValue), form.expiryDate, form.isActive, None);
    if form.discountType == "PERCENTAGE" && form.maxDiscount != "" then
      base.(maxDiscount := Some(ParseNum(form.maxDiscount)))
    else base
  }

  /** A flat coupon never carries a maximum discount, whatever the hidden field holds. */
  lemma FlatHasNoMaxDiscount(form: CouponForm)
    requires form.discountType == "FLAT"
    ensures BuildPayload(form).maxDiscount == None
  {
  }

  /** The message shown after the request: server text, or the fixed fallbacks. */
  function SubmitMessage(outcome: Outcome<Option<string>>): (m: Message)
    ensures outcome.Ok() ==> m == Message("success", "Coupon added successfully!")
    ensures outcome.Responded? && !outcome.ok && Truthy(outcome.body) ==> m == Message("error", outcome.body.value)
    ensures outcome.Responded? && !outcome.ok && !Truthy(outcome.body) ==> m == Message("error", "Failed to add coupon")
    ensures outcome.Threw? ==> m == Message("error", "Something went wrong")
    ensures m.kind == "success" <==> outcome.Ok()
  {
    match outcome
    case Threw => Message("error", "Something went wrong")
    case Responded(ok, errMessage) =>
      if ok then Message("success", "Coupon added successfully!")
      else if Truthy(errMessage) then Message("error", errMessage.value)
      else Message("error", "Failed to add coupon")
  }

  /** The state of the add-coupon screen. */
  class AddCouponScreen {
    var form: CouponForm
    var loading: bool
    var message: Option<Message>

    constructor ()
      ensures form == DefaultForm && !loading && message == None
    {
      form, loading, message := DefaultForm, false, None;
    }

    /**
     * `handleSubmit`: posts `BuildPayload(form)`; `outcome` is the response
     * (for a non-ok one, the `message` of its JSON body). Only an ok response
     * resets the form; loading is off afterwards in every case.
     */
    method HandleSubmit(outcome: Outcome<Option<string>>) returns (payload: Payload)
      modifies this
      ensures payload == BuildPayload(old(form))
      ensures message == Some(SubmitMessage(outcome))
      ensures outcome.Ok() ==> form == DefaultForm
      ensures !outcome.Ok() ==> form == old(form)
      ensures !loading
    {
      loading := true;
      message := None;
      payload := BuildPayload(form);
      message := Some(SubmitMessage(outcome));
      if outcome.Ok() {
        form := DefaultForm;
      }
      loading := false;
    }
  }
}
