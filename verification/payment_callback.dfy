/**
 * The payment return page (pages/PaymentCallback.tsx): the payment id is
 * taken from the query string, the verification answer is classified into a
 * status and a message, and the status decides the icon, title, colour and
 * buttons. The verification request itself is outside the model: its outcome
 * is a parameter.
 */
module PaymentCallback {
  import opened Wrappers

  datatype Status = Loading | Success | Failed | Error

  /** The query string as its (name, value) pairs, in order. */
  type Params = seq<(string, string)>

  /** `params.get(name)`: the value of the first pair with that name. */
  function Get(params: Params, name: string): (r: Option<string>)
    ensures r.None? <==> forall i :: 0 <= i < |params| ==> params[i].0 != name
    ensures r.Some? ==> exists i :: 0 <= i < |params| && params[i] == (name, r.value) &&
                                   forall j :: 0 <= j < i ==> params[j].0 != name
  {
    if params == [] then None
    else if params[0].0 == name then Some(params[0].1)
    else
      var r := Get(params[1..], name);
      assert forall i :: 0 < i < |params| ==> params[i] == params[1..][i - 1];
      r
  }

  /** `params.get('paymentId') || params.get('Id')`, where an empty value
      counts as absent. */
  function PaymentId(params: Params): (r: Option<string>)
    ensures r.Some? ==> r.value != ""
    ensures Get(params, "paymentId").Some? && Get(params, "paymentId").value != "" ==> r == Get(params, "paymentId")
    ensures r.None? <==> (Get(params, "paymentId").None? || Get(params, "paymentId").value == "")
                          && (Get(params, "Id").None? || Get(params, "Id").value == "")
    ensures r.Some? && r != Get(params, "paymentId") ==> r == Get(params, "Id")
  {
    var primary := Get(params, "paymentId");
    if primary.Some? && primary.value != "" then primary
    else
      var secondary := Get(params, "Id");
      if secondary.Some? && secondary.value != "" then secondary else None
  }

  /** The parsed verification answer: the truthiness of `success`, and the
      `status` and `message` fields when present. */
  datatype PaymentData = PaymentData(success: bool, status: Option<string>, message: Option<string>)

  /** The request either answers with a JSON body (`null` is None) or throws. */
  datatype VerifyOutcome = Answered(data: Option<PaymentData>) | Threw

  /** The texts the page shows, before choosing the language. */
  datatype Note = IdNotFound | Succeeded | FailedDefault | FromServer(text: string) | VerifyError

  /** The success test of the verification answer. */
  predicate Settled(d: PaymentData) {
    d.success || d.status == Some("SETTLED") || d.status == Some("paid")
  }

  /** The status and note a verification outcome leads to: success only for a
      settled answer, failure for any other answer, error when the request
      throws or the body is `null` (reading a field of `null` throws). */
  function Classify(outcome: VerifyOutcome): (r: (Status, Note))
    ensures r.0 == Success <==> outcome.Answered? && outcome.data.Some? && Settled(outcome.data.value)
    ensures r.0 == Error <==> outcome.Threw? || outcome.data.None?
    ensures r.0 != Loading
    ensures r.0 == Failed ==> r.1 == (if outcome.data.value.message.Some? && outcome.data.value.message.value != ""
                                      then FromServer(outcome.data.value.message.value) else FailedDefault)
    ensures r.0 == Error ==> r.1 == VerifyError
    ensures r.0 == Success ==> r.1 == Succeeded
  {
    match outcome
    case Threw => (Error, VerifyError)
    case Answered(data) =>
      if data.None? then (Error, VerifyError)
      else if Settled(data.value) then (Success, Succeeded)
      else if data.value.message.Some? && data.value.message.value != "" then (Failed, FromServer(data.value.message.value))
      else (Failed, FailedDefault)
  }

  /** The text of a note in English, or in Arabic when the page is right to left. */
  function NoteText(note: Note, isRTL: bool): (r: string)
    ensures note.FromServer? ==> r == note.text
    ensures !note.FromServer? ==> r != ""
  {
    match note
    case IdNotFound => if isRTL then "معرف الدفع غير موجود" else "Payment ID not found"
    case Succeeded => if isRTL then "تم الدفع بنجاح! تم إضافة الأرصدة إلى حسابك." else "Payment successful! Credits have been added to your account."
    case FailedDefault => if isRTL then "فشل الدفع. يرجى المحاولة مرة أخرى." else "Payment failed. Please try again."
    case FromServer(text) => text
    case VerifyError => if isRTL then "خطأ في التحقق من الدفع" else "Error verifying payment"
  }

  datatype Icon = Spinner | CheckCircle | XCircle

  /** `getStatusIcon`. */
  function StatusIcon(status: Status): (r: Icon)
    ensures r == Spinner <==> status == Loading
    ensures r == CheckCircle <==> status == Success
  {
    match status
    case Loading => Spinner
    case Success => CheckCircle
    case Failed => XCircle
    case Error => XCircle
  }

  /** `getStatusTitle`. */
  function StatusTitle(status: Status, isRTL: bool): (r: string)
    ensures r != ""
  {
    match status
    case Loading => if isRTL then "جارٍ التحقق من الدفع..." else "Verifying Payment..."
    case Success => if isRTL then "تم الدفع بنجاح!" else "Payment Successful!"
    case Failed => if isRTL then "فشل الدفع" else "Payment Failed"
    case Error => if isRTL then "خطأ" else "Error"
  }

  /** `getStatusColor`. */
  function StatusColor(status: Status): (r: string)
    ensures status == Failed || status == Error ==> r == "from-red-500 to-orange-500"
  {
    match status
    case Loading => "from-primary to-secondary"
    case Success => "from-green-500 to-emerald-600"
    case Failed => "from-red-500 to-orange-500"
    case Error => "from-red-500 to-orange-500"
  }

  /** Failed and error look alike (icon and colour) and differ only in their title;
      every status has its own title in either language. */
  lemma {:induction false} StatusPresentation(a: Status, b: Status, isRTL: bool)
    ensures (a == Failed || a == Error) && (b == Failed || b == Error) ==>
      StatusIcon(a) == StatusIcon(b) && StatusColor(a) == StatusColor(b)
    ensures a != b ==> StatusTitle(a, isRTL) != StatusTitle(b, isRTL)
  {
  }

  /** The home button: shown in every state but loading. */
  predicate ShowsHome(status: Status) {
    status != Loading
  }

  /** The retry button to `/pricing`: shown only after a failure or an error. */
  predicate ShowsRetry(status: Status) {
    status == Failed || status == Error
  }

  /** No button while loading; retry only ever appears beside home. */
  lemma {:induction false} Buttons(status: Status)
    ensures status == Loading ==> !ShowsHome(status) && !ShowsRetry(status)
    ensures ShowsRetry(status) ==> ShowsHome(status)
    ensures status == Success ==> ShowsHome(status) && !ShowsRetry(status)
  {
  }

  class PaymentCallbackPage {
    var status: Status
    var message: string

    constructor ()
      ensures status == Loading && message == ""
    {
      status, message := Loading, "";
    }

    /** `verifyPayment`: without a payment id the page shows an error and no
        request is made; otherwise the id is sent (returned here) and the
        outcome is classified. */
    method VerifyPayment(params: Params, isRTL: bool, outcome: VerifyOutcome) returns (requested: Option<string>)
      modifies this
      ensures requested == PaymentId(params)
      ensures requested.None? ==> status == Error && message == NoteText(IdNotFound, isRTL)
      ensures requested.Some? ==>
        status == Classify(outcome).0 && message == NoteText(Classify(outcome).1, isRTL)
    {
      var paymentId := PaymentId(params);
      if paymentId.None? {
        status := Error;
        message := NoteText(IdNotFound, isRTL);
        return None;
      }
      requested := paymentId;
      match outcome {
        case Threw =>
          status := Error;
          message := NoteText(VerifyError, isRTL);
        case Answered(data) =>
          if data.None? {
            status := Error;
            message := NoteText(VerifyError, isRTL);
          } else if data.value.success || data.value.status == Some("SETTLED") || data.value.status == Some("paid") {
            status := Success;
            message := NoteText(Succeeded, isRTL);
          } else {
            status := Failed;
            message := if data.value.message.Some? && data.value.message.value != "" then data.value.message.value
                       else NoteText(FailedDefault, isRTL);
          }
      }
    }
  }
}
