/**
 * The checkout modal (components/CheckoutModal.tsx): applying and removing a
 * promo code, the price shown and charged, and starting the payment with the
 * redirect taken from the payment service's answer. The promo validator and
 * the payment service are outside the model: their answers are parameters.
 */
module Checkout {
  import opened Wrappers
  import opened Text

  /** A message shown to the user: a literal text (an error's own message),
      or a translation key looked up with `t`. */
  datatype Message = Literal(text: string) | Translated(key: string)

  const InvalidPromo: Message := Translated("checkout.invalidPromo")
  const ValidateError: Message := Translated("checkout.validateError")
  const NoRedirect: Message := Translated("checkout.noRedirect")
  const PaymentFailed: Message := Translated("checkout.paymentFailed")

  /** `s || fallback` for an optional text: absent and empty texts are falsy. */
  function OrElse(s: Option<string>, fallback: Message): (r: Message)
    ensures r == fallback || (s.Some? && s.value != "" && r == Literal(s.value))
    ensures s.Some? && s.value != "" ==> r == Literal(s.value)
  {
    if s.Some? && s.value != "" then Literal(s.value) else fallback
  }

  /** The applied discount, as `discountDetails`. */
  datatype Discount = Discount(code: string, discountAmount: int, newTotal: int, id: string)

  /** What `validatePromoCode` resolves to, when it resolves to an object. */
  datatype PromoResult = PromoResult(valid: bool, message: Option<string>, finalPrice: int, promoId: string)

  /** The validator either returns (possibly nothing) or throws (an error with
      a possibly absent message). */
  datatype ValidatorOutcome = Returned(result: Option<PromoResult>) | Threw(message: Option<string>)

  /** The arguments `validatePromoCode` is called with. */
  datatype PromoRequest = PromoRequest(code: string, userId: string, originalPrice: int)

  /** The discount and promo error an apply attempt ends with: a valid result
      is applied under the code as typed, anything else leaves no discount and
      an error message. */
  function ApplyOutcome(code: string, originalPrice: int, outcome: ValidatorOutcome): (r: (Option<Discount>, Option<Message>))
    ensures r.0.Some? <==> outcome.Returned? && outcome.result.Some? && outcome.result.value.valid
    ensures r.0.Some? <==> r.1.None?
    ensures r.0.Some? ==> r.0.value.code == code && r.0.value.newTotal == outcome.result.value.finalPrice
                          && r.0.value.discountAmount + r.0.value.newTotal == originalPrice
                          && r.0.value.id == outcome.result.value.promoId
    ensures outcome.Returned? && r.0.None? ==>
      r.1 == Some(OrElse(if outcome.result.Some? then outcome.result.value.message else None, InvalidPromo))
    ensures outcome.Threw? ==> r.1 == Some(OrElse(outcome.message, ValidateError))
  {
    match outcome
    case Returned(result) =>
      if result.Some? && result.value.valid then
        (Some(Discount(code, originalPrice - result.value.finalPrice, result.value.finalPrice, result.value.promoId)), None)
      else
        (None, Some(OrElse(if result.Some? then result.value.message else None, InvalidPromo)))
    case Threw(message) =>
      (None, Some(OrElse(message, ValidateError)))
  }

  /** The body sent to `initiatePayment`. */
  datatype PaymentPayload = PaymentPayload(userId: string, amount: int, kind: string, packageId: string, promoCode: Option<string>)

  /** The redirect fields of a response object (`redirect_url`, `redirectUrl`). */
  datatype ResponseData = ResponseData(snakeUrl: Option<string>, camelUrl: Option<string>)

  /** The payment service's answer: nothing, one object, or an array of them. */
  datatype Response = NoBody | Single(data: ResponseData) | Many(items: seq<ResponseData>)

  datatype PaymentOutcome = Responded(response: Response) | PaymentThrew(message: Option<string>)

  /** Where a found redirect goes: to the `onSuccess` callback when one is
      given, else to `window.location.href`. */
  datatype Navigation = CallOnSuccess(url: string) | AssignLocation(url: string)

  /** `Array.isArray(response) ? response[0] : response`. */
  function Resolve(response: Response): (d: Option<ResponseData>)
    ensures response.Many? && response.items != [] ==> d == Some(response.items[0])
    ensures response.Single? ==> d == Some(response.data)
    ensures d.None? <==> response.NoBody? || (response.Many? && response.items == [])
  {
    match response
    case NoBody => None
    case Single(data) => Some(data)
    case Many(items) => if items == [] then None else Some(items[0])
  }

  function Truthy(s: Option<string>): bool {
    s.Some? && s.value != ""
  }

  /** `data?.redirect_url || data?.redirectUrl`, None when both are falsy. */
  function TargetUrl(response: Response): (r: Option<string>)
    ensures r.Some? ==> r.value != ""
    ensures r.Some? ==>
      && Resolve(response).Some?
      && (r == Resolve(response).value.snakeUrl || (!Truthy(Resolve(response).value.snakeUrl) && r == Resolve(response).value.camelUrl))
    ensures r.None? <==> Resolve(response).None? || (!Truthy(Resolve(response).value.snakeUrl) && !Truthy(Resolve(response).value.camelUrl))
  {
    match Resolve(response)
    case None => None
    case Some(d) =>
      if Truthy(d.snakeUrl) then d.snakeUrl
      else if Truthy(d.camelUrl) then d.camelUrl
      else None
  }

  /** `redirect_url` wins over `redirectUrl` whenever it is non-empty. */
  lemma {:induction false} SnakeUrlFirst(response: Response, url: string)
    requires Resolve(response).Some? && Resolve(response).value.snakeUrl == Some(url) && url != ""
    ensures TargetUrl(response) == Some(url)
  {
  }

  /** An array answer is read through its first element only. */
  lemma {:induction false} ArrayUsesFirst(d: ResponseData, rest: seq<ResponseData>)
    ensures TargetUrl(Many([d] + rest)) == TargetUrl(Single(d))
  {
  }

  class CheckoutModal {
    const userId: string
    const packageId: string
    const originalPrice: int
    var promoCode: string
    var isApplyingPromo: bool
    var promoError: Option<Message>
    var discount: Option<Discount>
    var isProcessing: bool
    var paymentError: Option<Message>

    /** An applied discount and the new total add up to the original price. */
    predicate Valid()
      reads this
    {
      discount.Some? ==> discount.value.discountAmount + discount.value.newTotal == originalPrice
    }

    constructor (userId: string, packageId: string, originalPrice: int)
      ensures Valid()
      ensures this.userId == userId && this.packageId == packageId && this.originalPrice == originalPrice
      ensures promoCode == "" && !isApplyingPromo && promoError.None? && discount.None?
      ensures !isProcessing && paymentError.None?
    {
      this.userId, this.packageId, this.originalPrice := userId, packageId, originalPrice;
      promoCode, isApplyingPromo, promoError, discount := "", false, None, None;
      isProcessing, paymentError := false, None;
    }

    /** `finalPrice`, the total shown: the original price less the applied discount. */
    function FinalPrice(): (r: int)
      reads this
      requires Valid()
      ensures discount.None? ==> r == originalPrice
      ensures discount.Some? ==> r == originalPrice - discount.value.discountAmount
    {
      if discount.Some? then discount.value.newTotal else originalPrice
    }

    /** The payload `handlePayment` sends: it charges the total shown and names
        the applied code, if any. */
    function Payload(): (p: PaymentPayload)
      reads this
      requires Valid()
      ensures p.amount == FinalPrice()
      ensures p.promoCode.Some? <==> discount.Some?
      ensures discount.Some? ==> p.promoCode == Some(discount.value.code)
      ensures p.userId == userId && p.packageId == packageId && p.kind == "credits_purchase"
    {
      PaymentPayload(userId, if discount.Some? then discount.value.newTotal else originalPrice,
                     "credits_purchase", packageId, if discount.Some? then Some(discount.value.code) else None)
    }

    /** Typing in the code field; the field is disabled while a discount is applied. */
    method EditPromoCode(text: string)
      modifies this
      ensures old(discount).Some? ==> promoCode == old(promoCode)
      ensures old(discount).None? ==> promoCode == text
      ensures isApplyingPromo == old(isApplyingPromo) && promoError == old(promoError) && discount == old(discount)
      ensures isProcessing == old(isProcessing) && paymentError == old(paymentError)
    {
      if discount.None? {
        promoCode := text;
      }
    }

    /** `handleApplyPromo`: a blank code does nothing; otherwise the old
        discount and error are cleared, the trimmed code is validated, and the
        outcome decides the new discount or error. The request sent is returned. */
    method ApplyPromo(outcome: ValidatorOutcome) returns (request: Option<PromoRequest>)
      requires Valid()
      modifies this
      ensures Valid()
      ensures Trim(old(promoCode)) == [] ==>
        request.None? && discount == old(discount) && promoError == old(promoError) && isApplyingPromo == old(isApplyingPromo)
      ensures Trim(old(promoCode)) != [] ==>
        && request == Some(PromoRequest(Trim(old(promoCode)), userId, originalPrice))
        && (discount, promoError) == ApplyOutcome(old(promoCode), originalPrice, outcome)
        && !isApplyingPromo
      ensures promoCode == old(promoCode) && isProcessing == old(isProcessing) && paymentError == old(paymentError)
    {
      if Trim(promoCode) == [] {
        return None;
      }
      isApplyingPromo := true;
      promoError := None;
      discount := None;
      request := Some(PromoRequest(Trim(promoCode), userId, originalPrice));
      match outcome {
        case Returned(result) =>
          if result.Some? && result.value.valid {
            discount := Some(Discount(promoCode, originalPrice - result.value.finalPrice,
                                      result.value.finalPrice, result.value.promoId));
          } else {
            var message := if result.Some? then result.value.message else None;
            promoError := Some(OrElse(message, InvalidPromo));
          }
        case Threw(message) =>
          promoError := Some(OrElse(message, ValidateError));
      }
      isApplyingPromo := false;
    }

    /** The Remove button: the discount and the code field are both cleared. */
    method RemovePromo()
      modifies this
      ensures Valid()
      ensures discount.None? && promoCode == ""
      ensures isApplyingPromo == old(isApplyingPromo) && promoError == old(promoError)
      ensures isProcessing == old(isProcessing) && paymentError == old(paymentError)
    {
      discount := None;
      promoCode := "";
    }

    /** `handlePayment`: the payload is sent; a redirect found in the answer
        is followed, a missing one or a thrown error becomes the payment error. */
    method Pay(hasOnSuccess: bool, outcome: PaymentOutcome) returns (payload: PaymentPayload, navigation: Option<Navigation>)
      requires Valid()
      modifies this
      ensures Valid()
      ensures payload == old(Payload())
      ensures outcome.PaymentThrew? ==>
        navigation.None? && paymentError == Some(OrElse(outcome.message, PaymentFailed))
      ensures outcome.Responded? && TargetUrl(outcome.response).None? ==>
        navigation.None? && paymentError == Some(NoRedirect)
      ensures outcome.Responded? && TargetUrl(outcome.response).Some? ==>
        var url := TargetUrl(outcome.response).value;
        paymentError.None? && navigation == Some(if hasOnSuccess then CallOnSuccess(url) else AssignLocation(url))
      ensures !isProcessing
      ensures promoCode == old(promoCode) && isApplyingPromo == old(isApplyingPromo)
      ensures promoError == old(promoError) && discount == old(discount)
    {
      isProcessing := true;
      paymentError := None;
      payload := Payload();
      navigation := None;
      match outcome {
        case Responded(response) =>
          var targetUrl := TargetUrl(response);
          if targetUrl.Some? {
            navigation := Some(if hasOnSuccess then CallOnSuccess(targetUrl.value) else AssignLocation(targetUrl.value));
          } else {
            paymentError := Some(NoRedirect);
          }
        case PaymentThrew(message) =>
          paymentError := Some(OrElse(message, PaymentFailed));
      }
      isProcessing := false;
    }
  }

  /** The total shown is what is charged, before and after any apply attempt. */
  lemma {:induction false} ChargedIsShown(m: CheckoutModal)
    requires m.Valid()
    ensures m.Payload().amount == m.FinalPrice()
    ensures m.discount.Some? ==> m.Payload().amount + m.discount.value.discountAmount == m.originalPrice
  {
  }
}
