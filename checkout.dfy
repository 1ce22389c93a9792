/** `create_checkout_session` of main.py: the guard on the payment
    provider's secret key and the parameters of the hosted checkout session
    that pays the booking deposit. The provider's `Session.create` is a
    function parameter: what it returns, or the message of what it raises. */
module Checkout {
  import opened Optional

  const Currency: string := "gbp"
  /** The deposit, in pence (GBP 100). */
  const DepositAmount: int := 10000
  const NotConfiguredMessage: string := "Stripe not configured"
  const SuccessPath: string := "/checkout/success"
  const CancelPath: string := "/checkout/cancel"

  datatype LineItem = LineItem(currency: string, productName: string, unitAmount: int, quantity: int)

  /** The arguments passed to the provider's `Session.create`. */
  datatype SessionParams = SessionParams(
    paymentMethodTypes: seq<string>,
    mode: string,
    lineItems: seq<LineItem>,
    successUrl: string,
    cancelUrl: string,
    metadata: map<string, string>)

  /** What the provider call does: returns a session with its hosted page
      URL, or raises an exception with a message. */
  datatype ProviderResult = Created(url: string) | Raised(message: string)

  /** The JSON reply: `{"checkout_url": url}` with status 200, or
      `{"error": message}` with status 500. */
  datatype CheckoutResponse = CheckoutUrl(url: string) | Error(message: string)
  {
    function Status(): int
    {
      if CheckoutUrl? then 200 else 500
    }
  }

  /** One request: the session parameters sent to the provider (`None` when no
      session was attempted) and the reply. */
  datatype Exchange = Exchange(request: Option<SessionParams>, response: CheckoutResponse)

  /** `not stripe.api_key`: the key is unset or empty. */
  predicate KeyMissing(apiKey: Option<string>)
  {
    !Truthy(apiKey)
  }

  /** The session parameters for a chosen date, which may be absent (no
      `date` in the request body, or no JSON body at all). */
  function SessionFor(domain: string, chosen: Option<string>): (p: SessionParams)
    ensures |p.lineItems| == 1
    ensures p.lineItems[0].currency == Currency
    ensures p.lineItems[0].unitAmount == DepositAmount
    ensures p.lineItems[0].quantity == 1
    ensures p.metadata.Keys == {"date"}
    ensures Truthy(chosen) ==> p.metadata["date"] == chosen.value
    ensures !Truthy(chosen) ==> p.metadata["date"] == ""
  {
    var shown := OrElse(chosen, "TBD");
    var echoed := OrElse(chosen, "");
    SessionParams(
      ["card"],
      "payment",
      [LineItem(Currency, "Build Slot Deposit (" + shown + ")", DepositAmount, 1)],
      domain + SuccessPath + "?date=" + echoed,
      domain + CancelPath,
      map["date" := echoed])
  }

  /** `create_checkout_session`: without a key it answers 500 "Stripe not
      configured" and sends nothing to the provider; otherwise it sends
      exactly one session request and answers with the session's URL, or
      with the provider's error message and status 500. */
  function CreateCheckoutSession(
    apiKey: Option<string>, domain: string, chosen: Option<string>,
    provider: SessionParams -> ProviderResult): (x: Exchange)
    ensures KeyMissing(apiKey) <==> x.request.None?
    ensures KeyMissing(apiKey) ==> x.response == Error(NotConfiguredMessage)
    ensures x.request.Some? ==> x.request.value == SessionFor(domain, chosen)
    ensures x.request.Some? ==>
      match provider(x.request.value)
      case Created(url) => x.response == CheckoutUrl(url)
      case Raised(message) => x.response == Error(message)
    ensures x.response.CheckoutUrl? ==> x.response.Status() == 200 && x.request.Some?
    ensures x.response.Error? ==> x.response.Status() == 500
  {
    if KeyMissing(apiKey) then
      Exchange(None, Error(NotConfiguredMessage))
    else
      var params := SessionFor(domain, chosen);
      match provider(params)
      case Created(url) => Exchange(Some(params), CheckoutUrl(url))
      case Raised(message) => Exchange(Some(params), Error(message))
  }
}
