/** The booking calendar of static/js/calendar.js (`renderCalendar`): the set
    of booked dates fetched from `/api/booked-dates`, the month on view and
    its navigation, the grid of day cells that `draw` lays out, and how
    `bookDate` reacts to the checkout endpoint's reply. JavaScript `Date`
    arithmetic, the clock and the DOM are left to the caller: the weekday of
    the 1st, and each day's ISO string and past/today flags, are inputs. */
module Calendar {
  import opened Optional

  /** A month as `Date.getMonth` numbers it: 0 is January. */
  type MonthIndex = m: int | 0 <= m < 12

  datatype Month = Month(year: int, month: MonthIndex)

  /** Months counted from January of year 0, so that consecutive months are
      consecutive numbers. */
  function Ordinal(v: Month): int
  {
    12 * v.year + v.month
  }

  /** The "←" button: `new Date(y, m - 1, 1)`, which rolls January back to
      December of the year before. */
  function Previous(v: Month): (r: Month)
    ensures Ordinal(r) == Ordinal(v) - 1
  {
    if v.month == 0 then Month(v.year - 1, 11) else Month(v.year, v.month - 1)
  }

  /** The "→" button: `new Date(y, m + 1, 1)`, which rolls December on to
      January of the year after. */
  function Following(v: Month): (r: Month)
    ensures Ordinal(r) == Ordinal(v) + 1
  {
    if v.month == 11 then Month(v.year + 1, 0) else Month(v.year, v.month + 1)
  }

  /** "←" and "→" undo each other. */
  lemma NavigationRoundTrip(v: Month)
    ensures Following(Previous(v)) == v
    ensures Previous(Following(v)) == v
  {
  }

  /** The `booked_dates` field of the fetched JSON. */
  datatype JsonField = Absent | Array(items: seq<string>) | NotAnArray

  /** The outcome of `fetch('/api/booked-dates').then(r => r.json())`. */
  datatype FetchResult = FetchFailed | Fetched(bookedDates: JsonField)

  /** The booked set the calendar ends up with: the strings of
      `booked_dates` when it is an array, otherwise nothing (a falsy field
      becomes `[]`; any other value makes `forEach` throw, and the `catch`
      draws anyway; so does a failed fetch or parse). */
  function FetchedDates(f: FetchResult): (r: set<string>)
    ensures f.Fetched? && f.bookedDates.Array? ==>
      forall x :: x in r <==> x in f.bookedDates.items
    ensures !(f.Fetched? && f.bookedDates.Array?) ==> r == {}
  {
    if f.Fetched? && f.bookedDates.Array? then set x | x in f.bookedDates.items else {}
  }

  /** What `draw` knows of one day of the month on view. */
  datatype DayFacts = DayFacts(iso: string, isPast: bool, isToday: bool)

  /** A grid cell: an empty `div`, or a day button with its number, its
      title, whether it is disabled, and the date its click handler passes
      to `bookDate` (`None`: no handler). */
  datatype Cell = Blank | Button(day: int, title: string, disabled: bool, onClick: Option<string>)

  const BookedTitle: string := "Booked"
  const TodayTitle: string := "Today (not bookable)"
  const PastTitle: string := "Past date"
  const AvailableTitle: string := "Available \U{2013} click to checkout"

  /** The button `draw` makes for day `day`. Booked wins over past and
      today; a day is clickable exactly when it is neither booked, past nor
      today, and then its click books its own date. */
  function DayButton(day: int, facts: DayFacts, booked: set<string>): (c: Cell)
    ensures c.Button? && c.day == day
    ensures facts.iso in booked ==> c.title == BookedTitle && c.disabled
    ensures facts.iso !in booked && (facts.isPast || facts.isToday) ==>
      c.disabled && c.title == (if facts.isToday then TodayTitle else PastTitle)
    ensures c.onClick.Some? <==> facts.iso !in booked && !facts.isPast && !facts.isToday
    ensures c.onClick.Some? ==> c.onClick.value == facts.iso && c.title == AvailableTitle
    ensures c.disabled <==> c.onClick.None?
  {
    if facts.iso in booked then
      Button(day, BookedTitle, true, None)
    else if facts.isPast || facts.isToday then
      Button(day, if facts.isToday then TodayTitle else PastTitle, true, None)
    else
      Button(day, AvailableTitle, false, Some(facts.iso))
  }

  /** The JSON `bookDate` reads from `/create-checkout-session`. */
  datatype ReplyFields = ReplyFields(checkoutUrl: Option<string>, error: Option<string>)

  /** The reply to `bookDate`'s request: a network or parse failure, or the
      parsed JSON (`None`: not an object, e.g. `null`). */
  datatype CheckoutReply = NetworkError | Reply(body: Option<ReplyFields>)

  /** Where `bookDate` leaves the page: sent to the hosted checkout, or
      still on the calendar showing a message. */
  datatype BookingOutcome = Redirect(url: string) | Show(message: string)

  /** The message shown while the request is in flight; a redirect leaves it
      in place. */
  const RedirectingMessage: string := "Redirecting to secure checkout..."
  const FallbackMessage: string := "Could not create checkout session."
  const NetworkMessage: string := "Network error. Try again."

  /** `bookDate`'s handling of the reply: redirect exactly when the reply
      has a non-empty `checkout_url`; otherwise show its non-empty `error`,
      or the fallback text; a failed request shows the network message. */
  function BookDate(reply: CheckoutReply): (o: BookingOutcome)
    ensures o.Redirect? <==> reply.Reply? && reply.body.Some? && Truthy(reply.body.value.checkoutUrl)
    ensures o.Redirect? ==> o.url == reply.body.value.checkoutUrl.value
    ensures reply.NetworkError? ==> o == Show(NetworkMessage)
    ensures reply.Reply? && o.Show? ==>
      o.message == (if reply.body.Some? && Truthy(reply.body.value.error)
                    then reply.body.value.error.value else FallbackMessage)
  {
    match reply
    case NetworkError => Show(NetworkMessage)
    case Reply(None) => Show(FallbackMessage)
    case Reply(Some(fields)) =>
      if Truthy(fields.checkoutUrl) then Redirect(fields.checkoutUrl.value)
      else Show(OrElse(fields.error, FallbackMessage))
  }

  /** The text left in the message element once `bookDate` has handled the
      reply: it is set to the in-flight text before the request, and only a
      reply that does not redirect replaces it. The visitor is never left
      with an empty message. */
  function MessageAfter(reply: CheckoutReply): (m: string)
    ensures m != ""
    ensures reply.Reply? && reply.body.Some? && Truthy(reply.body.value.checkoutUrl) ==>
      m == RedirectingMessage
    ensures reply.NetworkError? ==> m == NetworkMessage
    ensures BookDate(reply).Show? ==> m == BookDate(reply).message
  {
    match BookDate(reply)
    case Redirect(_) => RedirectingMessage
    case Show(text) => text
  }

  /** The `state` object of `renderCalendar`: the month on view and the set
      of booked ISO dates. */
  class CalendarState {
    var view: Month
    var booked: set<string>

    /** `{ view: new Date(), booked: new Set() }`. */
    constructor (today: Month)
      ensures view == today && booked == {}
    {
      view := today;
      booked := {};
    }

    /** `(d.booked_dates || []).forEach(x => state.booked.add(x))`, or
        nothing when the fetch, the parse or `forEach` fails. */
    method AddFetched(f: FetchResult)
      modifies this
      ensures booked == old(booked) + FetchedDates(f)
      ensures view == old(view)
    {
      if f.Fetched? && f.bookedDates.Array? {
        var items := f.bookedDates.items;
        var i := 0;
        while i < |items|
          invariant 0 <= i <= |items|
          invariant booked == old(booked) + set x | x in items[..i]
          invariant view == old(view)
        {
          assert items[..i + 1] == items[..i] + [items[i]];
          booked := booked + {items[i]};
          i := i + 1;
        }
        assert items[..|items|] == items;
      }
    }

    /** The "←" button's handler, before it redraws. */
    method ShowPrevious()
      modifies this
      ensures view == Previous(old(view)) && booked == old(booked)
    {
      view := Previous(view);
    }

    /** The "→" button's handler, before it redraws. */
    method ShowNext()
      modifies this
      ensures view == Following(old(view)) && booked == old(booked)
    {
      view := Following(view);
    }

    /** `draw`'s grid for the month on view: `startDay` blanks (the weekday
        of the 1st, Sunday = 0), then one button per day, numbered from 1
        upwards, each classified against the booked set. */
    method Draw(startDay: nat, days: seq<DayFacts>) returns (grid: seq<Cell>)
      ensures |grid| == startDay + |days|
      ensures forall k :: 0 <= k < startDay ==> grid[k] == Blank
      ensures forall k :: startDay <= k < |grid| ==> grid[k].Button? && grid[k].day == k - startDay + 1
      ensures forall d :: 0 <= d < |days| ==> grid[startDay + d] == DayButton(d + 1, days[d], booked)
    {
      grid := [];
      for i := 0 to startDay
        invariant |grid| == i
        invariant forall k :: 0 <= k < i ==> grid[k] == Blank
      {
        grid := grid + [Blank];
      }
      for d := 1 to |days| + 1
        invariant |grid| == startDay + d - 1
        invariant forall k :: 0 <= k < startDay ==> grid[k] == Blank
        invariant forall e :: 0 <= e < d - 1 ==> grid[startDay + e] == DayButton(e + 1, days[e], booked)
      {
        grid := grid + [DayButton(d, days[d - 1], booked)];
      }
      forall k | startDay <= k < |grid| ensures grid[k].Button? && grid[k].day == k - startDay + 1 {
        assert grid[startDay + (k - startDay)] == DayButton(k - startDay + 1, days[k - startDay], booked);
      }
    }
  }

  /** `renderCalendar` up to the first `draw`: the booked set comes from the
      fetch alone, and the grid is drawn whether or not the fetch worked;
      when it failed, no day is marked booked. */
  method RenderCalendar(today: Month, response: FetchResult, startDay: nat, days: seq<DayFacts>)
    returns (grid: seq<Cell>)
    ensures |grid| == startDay + |days|
    ensures forall k :: 0 <= k < startDay ==> grid[k] == Blank
    ensures forall d :: 0 <= d < |days| ==>
      grid[startDay + d] == DayButton(d + 1, days[d], FetchedDates(response))
    ensures response.FetchFailed? ==>
      forall k :: 0 <= k < |grid| ==> grid[k] == Blank || grid[k].title != BookedTitle
  {
    var state := new CalendarState(today);
    state.AddFetched(response);
    grid := state.Draw(startDay, days);
    if response.FetchFailed? {
      forall k | 0 <= k < |grid| ensures grid[k] == Blank || grid[k].title != BookedTitle {
        if k >= startDay {
          assert grid[k] == DayButton(k - startDay + 1, days[k - startDay], {});
        }
      }
    }
  }
}
