/** `stripe_webhook` of main.py: the provider's signature check, the event
    filter, the date carried in the session metadata, and the reservation.
    The signature check (`construct_event`) is an input: the event it
    rebuilt, or the message of the exception it raised. */
module Webhook {
  import opened Optional
  import opened DateOrder
  import DateStore

  const CheckoutCompleted: string := "checkout.session.completed"

  /** A verified event: its `type` and the `metadata` of its session object
      (`None` when the session has no metadata or it is null). */
  datatype Event = Event(kind: string, metadata: Option<map<string, string>>)

  datatype Verification = Verified(event: Event) | Rejected(reason: string)

  /** What the handler decides: reject the call, or acknowledge it and
      reserve a date or nothing. */
  datatype Action = Reject(reason: string) | Acknowledge(reserve: Option<string>)

  datatype Response = Response(status: int, body: string)

  /** `(session.get("metadata") or {}).get("date")`. */
  function ChosenDate(e: Event): Option<string>
  {
    if e.metadata.Some? && "date" in e.metadata.value then Some(e.metadata.value["date"]) else None
  }

  /** The handler's decision. A failed verification is rejected; after it
      passes, a date is reserved exactly when the event is a completed
      checkout whose metadata carries a non-empty date, and that date is
      the one reserved. */
  function Dispatch(v: Verification): (a: Action)
    ensures a.Reject? <==> v.Rejected?
    ensures v.Rejected? ==> a.reason == v.reason
    ensures forall d :: a == Acknowledge(Some(d)) <==>
      (v.Verified? && v.event.kind == CheckoutCompleted && v.event.metadata.Some?
       && "date" in v.event.metadata.value && v.event.metadata.value["date"] == d && d != "")
  {
    match v
    case Rejected(reason) => Reject(reason)
    case Verified(e) =>
      if e.kind == CheckoutCompleted && Truthy(ChosenDate(e)) then
        Acknowledge(Some(ChosenDate(e).value))
      else
        Acknowledge(None)
  }

  /** The HTTP reply: the exception text with status 400, or an empty body
      with status 200 once verification has passed, whatever was decided. */
  function Reply(a: Action): (r: Response)
    ensures a.Reject? ==> r == Response(400, a.reason)
    ensures a.Acknowledge? ==> r == Response(200, "")
  {
    match a
    case Reject(reason) => Response(400, reason)
    case Acknowledge(_) => Response(200, "")
  }

  /** The booking file after one delivery of `v`. */
  function Effect(doc: DateStore.Document, v: Verification): (r: DateStore.Document)
    ensures v.Rejected? ==> r == doc
    ensures Dispatch(v) == Acknowledge(None) ==> r == doc
  {
    match Dispatch(v)
    case Acknowledge(Some(d)) => DateStore.Reserve(doc, d)
    case _ => doc
  }

  /** The provider may deliver the same event more than once; a second
      delivery leaves the booking file as the first one left it. */
  lemma RedeliveryIdempotent(doc: DateStore.Document, v: Verification)
    ensures Effect(Effect(doc, v), v) == Effect(doc, v)
  {
    if Dispatch(v).Acknowledge? && Dispatch(v).reserve.Some? {
      DateStore.ReserveIdempotent(doc, Dispatch(v).reserve.value);
    }
  }

  /** A verified `checkout.session.completed` event whose session carries
      `d` in its metadata. */
  function CompletedCheckout(d: string): Verification
  {
    Verified(Event(CheckoutCompleted, Some(map["date" := d])))
  }

  /** A verified completed checkout for a non-empty date leaves that date in
      the booked list exactly once, beside every date booked before; by
      `RedeliveryIdempotent`, so does a second delivery of it. */
  lemma CompletedCheckoutBooksOnce(doc: DateStore.Document, d: string)
    requires d != ""
    ensures d in DateStore.LoadDates(Effect(doc, CompletedCheckout(d)))
    ensures forall i, j :: 0 <= i < j < |DateStore.LoadDates(Effect(doc, CompletedCheckout(d)))| ==>
      DateStore.LoadDates(Effect(doc, CompletedCheckout(d)))[i] != d
      || DateStore.LoadDates(Effect(doc, CompletedCheckout(d)))[j] != d
    ensures Elems(DateStore.LoadDates(doc)) <= Elems(DateStore.LoadDates(Effect(doc, CompletedCheckout(d))))
  {
    var after := Effect(doc, CompletedCheckout(d));
    assert Dispatch(CompletedCheckout(d)) == Acknowledge(Some(d));
    assert after == DateStore.Reserve(doc, d);
    var dates := DateStore.LoadDates(after);
    assert d in Elems(dates);
    forall i, j | 0 <= i < j < |dates| ensures dates[i] != d || dates[j] != d {
      if dates[i] == d && dates[j] == d {
        StrictlySortedDistinct(dates, i, j);
      }
    }
  }

  /** `stripe_webhook`, acting on the booking file. */
  method StripeWebhook(store: DateStore.BookingStore, v: Verification) returns (resp: Response)
    modifies store
    ensures resp == Reply(Dispatch(v))
    ensures v.Rejected? ==> resp.status == 400 && store.file == old(store.file)
    ensures v.Verified? ==> resp.status == 200
    ensures store.file == Effect(old(store.file), v)
  {
    var action := Dispatch(v);
    match action {
      case Reject(reason) =>
        resp := Response(400, reason);
      case Acknowledge(reserve) =>
        if reserve.Some? {
          var _ := store.ReserveDate(reserve.value);
        }
        resp := Response(200, "");
    }
  }
}
