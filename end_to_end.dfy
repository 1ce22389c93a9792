/** How the pieces meet: the date the calendar sends to the checkout
    endpoint travels in the session metadata to the webhook, which books it;
    `/api/booked-dates` then hands the booked list back to the calendar; and
    the checkout endpoint's JSON reply is what `bookDate` reads. */
module EndToEnd {
  import opened Optional
  import DateOrder
  import DateStore
  import Checkout
  import Webhook
  import Calendar

  /** The JSON body of a `create_checkout_session` reply, as `bookDate`
      parses it (the status code is not looked at by the client). */
  function AsClientReply(r: Checkout.CheckoutResponse): Calendar.CheckoutReply
  {
    match r
    case CheckoutUrl(url) => Calendar.Reply(Some(Calendar.ReplyFields(Some(url), None)))
    case Error(message) => Calendar.Reply(Some(Calendar.ReplyFields(None, Some(message))))
  }

  /** What `/api/booked-dates` gives the calendar: `{"booked_dates": [...]}`. */
  function BookedDatesReply(doc: DateStore.Document): Calendar.FetchResult
  {
    Calendar.Fetched(Calendar.Array(DateStore.LoadDates(doc)))
  }

  /** Paying for a session created for `chosen` and having the provider
      confirm it books exactly `chosen` when it is a non-empty date, and
      nothing otherwise: the metadata carries the date from one request to
      the other. */
  lemma PaidSessionBooksChosenDate(
    apiKey: Option<string>, domain: string, chosen: Option<string>,
    provider: Checkout.SessionParams -> Checkout.ProviderResult, doc: DateStore.Document)
    requires !Checkout.KeyMissing(apiKey)
    ensures
      var x := Checkout.CreateCheckoutSession(apiKey, domain, chosen, provider);
      && x.request.Some?
      && var paid := Webhook.Verified(Webhook.Event(Webhook.CheckoutCompleted, Some(x.request.value.metadata)));
      Webhook.Effect(doc, paid) == (if Truthy(chosen) then DateStore.Reserve(doc, chosen.value) else doc)
  {
    var x := Checkout.CreateCheckoutSession(apiKey, domain, chosen, provider);
    var paid := Webhook.Verified(Webhook.Event(Webhook.CheckoutCompleted, Some(x.request.value.metadata)));
    if Truthy(chosen) {
      assert Webhook.Dispatch(paid) == Webhook.Acknowledge(Some(chosen.value));
    } else {
      assert Webhook.Dispatch(paid) == Webhook.Acknowledge(None);
    }
  }

  /** The calendar's booked set is exactly the set of dates in the file. */
  lemma CalendarSeesStore(doc: DateStore.Document)
    ensures Calendar.FetchedDates(BookedDatesReply(doc)) == DateOrder.Elems(DateStore.LoadDates(doc))
  {
  }

  /** Once the webhook has booked `d`, in a calendar loaded afterwards the
      cell whose ISO string is `d` is "Booked", disabled and without a click
      handler, whatever its past/today flags; and every date booked before
      stays booked. The ISO string is `toISOString()` of local midnight, so
      east of UTC it is the previous day's and that cell is numbered `d + 1`. */
  lemma ConfirmedDateShowsBooked(doc: DateStore.Document, v: Webhook.Verification, d: string,
                                 day: int, isPast: bool, isToday: bool)
    requires Webhook.Dispatch(v) == Webhook.Acknowledge(Some(d))
    ensures
      var booked := Calendar.FetchedDates(BookedDatesReply(Webhook.Effect(doc, v)));
      var c := Calendar.DayButton(day, Calendar.DayFacts(d, isPast, isToday), booked);
      && c.title == Calendar.BookedTitle && c.disabled && c.onClick.None?
      && Calendar.FetchedDates(BookedDatesReply(doc)) <= booked
  {
    var after := Webhook.Effect(doc, v);
    assert after == DateStore.Reserve(doc, d);
    CalendarSeesStore(after);
    CalendarSeesStore(doc);
  }

  /** `bookDate` redirects exactly when the endpoint produced a session with
      a non-empty URL; any error reply, including a missing key, shows the
      endpoint's message (or the fallback text when it is empty). */
  lemma ClientFollowsServer(r: Checkout.CheckoutResponse)
    ensures Calendar.BookDate(AsClientReply(r)).Redirect? <==> r.CheckoutUrl? && r.url != ""
    ensures r.CheckoutUrl? && r.url != "" ==> Calendar.BookDate(AsClientReply(r)) == Calendar.Redirect(r.url)
    ensures r.Error? ==>
      Calendar.BookDate(AsClientReply(r)) == Calendar.Show(if r.message != "" then r.message else Calendar.FallbackMessage)
  {
  }

  /** Without a payment key the calendar shows "Stripe not configured". */
  lemma MissingKeyShownToVisitor(
    apiKey: Option<string>, domain: string, chosen: Option<string>,
    provider: Checkout.SessionParams -> Checkout.ProviderResult)
    requires Checkout.KeyMissing(apiKey)
    ensures
      var x := Checkout.CreateCheckoutSession(apiKey, domain, chosen, provider);
      Calendar.BookDate(AsClientReply(x.response)) == Calendar.Show(Checkout.NotConfiguredMessage)
  {
  }
}
