/**
 * The success page shown after a checkout: once Stripe.js has loaded, it reads the
 * `payment_intent_client_secret` query parameter, retrieves the payment intent and sets
 * the page's status and message from the intent's status.
 */
module SuccessPage {
  import opened Wrappers
  import Js

  /** The `status` state of the page. */
  datatype UiStatus = LoadingStatus | SuccessStatus | ErrorStatus

  /** The page's state: `status`, `message` and `paymentDetails`. */
  datatype PageState = PageState(status: UiStatus, message: string, paymentDetails: Option<Intent>)

  /** The state before the effect has run. */
  const Initial := PageState(LoadingStatus, "", None)

  /** The part of a retrieved payment intent the page reads. */
  datatype Intent = Intent(status: string)

  /** A Stripe.js error; its `message` may be absent. */
  datatype StripeError = StripeError(message: Option<string>)

  /** What `stripe.retrievePaymentIntent` resolves to. */
  datatype Retrieval = Retrieval(paymentIntent: Option<Intent>, error: Option<StripeError>)

  const NoPaymentInformation := "No payment information found"
  const DefaultErrorMessage := "An error occurred"
  const SucceededMessage := "Payment successful! Thank you for your purchase."
  const ProcessingMessage := "Your payment is processing. This may take a few moments."
  const FailedMessage := "Payment failed. Please try another payment method."
  const ContactSupportMessage := "Something went wrong. Please contact support."

  /** `error.message || 'An error occurred'`: an absent or empty message gives the default. */
  function ErrorText(error: StripeError): (text: string)
    ensures text != ""
    ensures text == DefaultErrorMessage || Some(text) == error.message
    ensures error.message.Some? && error.message.value != "" ==> text == error.message.value
  {
    match error.message
    case Some(m) => if m != "" then m else DefaultErrorMessage
    case None => DefaultErrorMessage
  }

  /** The status and message for a retrieved intent, by the intent's status. */
  function IntentOutcome(intent: Intent): (r: PageState)
    ensures r.paymentDetails == Some(intent) && r.message != ""
    ensures r.message == SucceededMessage <==> intent.status == "succeeded"
    ensures r.message == ProcessingMessage <==> intent.status == "processing"
    ensures r.status == SuccessStatus <==> intent.status == "succeeded"
    ensures r.status == LoadingStatus <==> intent.status == "processing"
    ensures r.status == ErrorStatus <==> intent.status != "succeeded" && intent.status != "processing"
    ensures r.message == FailedMessage <==> intent.status == "requires_payment_method"
    ensures r.message == ContactSupportMessage <==>
      intent.status !in {"succeeded", "processing", "requires_payment_method"}
  {
    var details := Some(intent);
    match intent.status
    case "succeeded" => PageState(SuccessStatus, SucceededMessage, details)
    case "processing" => PageState(LoadingStatus, ProcessingMessage, details)
    case "requires_payment_method" => PageState(ErrorStatus, FailedMessage, details)
    case _ => PageState(ErrorStatus, ContactSupportMessage, details)
  }

  /**
   * `checkPaymentStatus`. `stripe` is what awaiting `stripePromise` gives: `Success(true)` for a
   * Stripe instance, `Success(false)` for `null`, or the value it rejects with. `clientSecret` is
   * the query parameter (`None` when absent), `retrieve` stands for `stripe.retrievePaymentIntent`
   * (what it resolves to, or the value it rejects with) and `prior` is the state before the call.
   * Neither await is guarded, so a rejection ends the call before any setter runs. The result is
   * the state after the setters the call reaches.
   */
  function CheckPaymentStatus(stripe: Result<bool, Js.Thrown>, clientSecret: Option<string>,
                              retrieve: string -> Result<Retrieval, Js.Thrown>, prior: PageState): (r: PageState)
    ensures stripe != Success(true) ==> r == prior
    ensures stripe == Success(true) && (clientSecret.None? || clientSecret.value == "") ==>
      r == PageState(ErrorStatus, NoPaymentInformation, prior.paymentDetails)
    ensures stripe == Success(true) && clientSecret.Some? && clientSecret.value != "" ==>
      match retrieve(clientSecret.value)
      case Failure(_) => r == prior
      case Success(retrieval) =>
        && (retrieval.error.Some? ==> r == PageState(ErrorStatus, ErrorText(retrieval.error.value), prior.paymentDetails))
        && (retrieval.error.None? && retrieval.paymentIntent.Some? ==> r == IntentOutcome(retrieval.paymentIntent.value))
        && (retrieval.error.None? && retrieval.paymentIntent.None? ==> r == prior)
  {
    if stripe != Success(true) then prior
    else match clientSecret
      case None => PageState(ErrorStatus, NoPaymentInformation, prior.paymentDetails)
      case Some(secret) =>
        if secret == "" then PageState(ErrorStatus, NoPaymentInformation, prior.paymentDetails)
        else
          match retrieve(secret)
          case Failure(_) => prior
          case Success(retrieval) =>
            if retrieval.error.Some? then PageState(ErrorStatus, ErrorText(retrieval.error.value), prior.paymentDetails)
            else if retrieval.paymentIntent.Some? then IntentOutcome(retrieval.paymentIntent.value)
            else prior
  }

  /** The page reports success exactly for a retrieved, error-free intent whose status is `succeeded`. */
  lemma SuccessIff(stripe: Result<bool, Js.Thrown>, clientSecret: Option<string>,
                   retrieve: string -> Result<Retrieval, Js.Thrown>)
    ensures CheckPaymentStatus(stripe, clientSecret, retrieve, Initial).status == SuccessStatus <==>
      && stripe == Success(true) && clientSecret.Some? && clientSecret.value != ""
      && retrieve(clientSecret.value).Success?
      && retrieve(clientSecret.value).value.error.None?
      && retrieve(clientSecret.value).value.paymentIntent.Some?
      && retrieve(clientSecret.value).value.paymentIntent.value.status == "succeeded"
  {
  }

  /** From the initial state, the page either stays as it was or shows a non-empty message. */
  lemma MessageShown(stripe: Result<bool, Js.Thrown>, clientSecret: Option<string>,
                     retrieve: string -> Result<Retrieval, Js.Thrown>)
    ensures var r := CheckPaymentStatus(stripe, clientSecret, retrieve, Initial);
      r == Initial || r.message != ""
  {
  }

  /** A rejected `stripePromise` or `retrievePaymentIntent` leaves the page as it was, so from
      the initial state the spinner stays with no message. */
  lemma RejectionKeepsLoading(stripe: Result<bool, Js.Thrown>, clientSecret: Option<string>,
                              retrieve: string -> Result<Retrieval, Js.Thrown>)
    requires stripe.Failure? || (stripe == Success(true) && clientSecret.Some? && clientSecret.value != ""
                                 && retrieve(clientSecret.value).Failure?)
    ensures CheckPaymentStatus(stripe, clientSecret, retrieve, Initial) == Initial
  {
  }
}
