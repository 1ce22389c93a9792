# Booking core of the business website, in Dafny

The site sells build slots. A visitor picks a day on a calendar
(`static/js/calendar.js`). The server (`main.py`) opens a hosted Stripe checkout
for a £100 deposit, with the chosen date in the session metadata. When Stripe
calls the webhook with a verified "checkout completed" event, the server adds that
date to `bookings.json`. That file holds a sorted list of `YYYY-MM-DD` strings.
The calendar reads the list back through `/api/booked-dates` and greys out the
cells whose ISO strings are in it.

The model has one module per piece:

- `DateOrder` (date_order.dfy): Python's `<` on strings, strictly ascending lists,
  and `sorted(set(...))`. It proves that a strictly ascending list is determined
  by its set of elements.
- `DateStore` (date_store.dfy): `bookings.json` as a value (`Missing`,
  `Unparsable`, `NotAnObject`, `Object(...)`). A `BookingStore` class holds that
  value in a field. It has `get_booked_dates`, `save_booked_dates` and
  `reserve_date`.
- `Checkout` (checkout.dfy): the key guard of `create_checkout_session` and the
  session it asks Stripe for. The Stripe call is a function parameter.
- `Webhook` (webhook.dfy): the `stripe_webhook` dispatch. It is a decision
  function, plus the effect of that decision on the booking file.
- `Catalog` (catalog.dfy): the slug lookup of `template_detail`.
- `Calendar` (calendar.dfy): the calendar's `state` object (a class), the booked
  set taken from the fetch, month navigation, `draw`'s grid and `bookDate`'s
  reply handling.
- `EndToEnd` (end_to_end.dfy): lemmas that connect the pieces. One example: a
  paid session books exactly the date it was created for. Another: the calendar
  cell whose ISO string is that date then shows as "Booked".
- `Optional` (optional.dfy): `Option`, and the truthiness of a string that may be
  absent.

Inputs stand in for everything the code gets from outside:

- the outcome of Stripe's signature check: the rebuilt event, or the exception text;
- Stripe's `Session.create`;
- the secret key and the site's domain;
- the fetch results in the browser;
- for each day: its ISO string, whether it is past, and whether it is today;
- the weekday of the 1st of the month.

`get_booked_dates` does not check the value under `booked_dates`: a JSON object
with that key gives back whatever value is stored there.

## Model

| member | source | states |
|---|---|---|
| `DateStore.LoadDates` | main.py:24-31 | `get_booked_dates` gives `[]` in four cases: the file is missing, it does not parse, it is not an object (`.get` raises), or it has no `booked_dates` key. Otherwise it gives the stored list unchanged. |
| `DateStore.BookingStore.SaveBookedDates` | main.py:33-35 | Rewrites the whole file. Reading it back with `get_booked_dates` gives exactly the list written. |
| `DateStore.BookingStore.ReserveDate` | main.py:37-41 | Always returns `True`. The new file is `Reserve(old file, iso)`: strictly ascending, holding exactly the old dates plus `iso`. |
| `DateStore.Reserve` | main.py:37-40 | The file after `reserve_date` is strictly ascending (so sorted and duplicate-free, whatever the file held before). Its set of dates is the old set plus `iso`: monotone growth, and nothing else is added. |
| `DateStore.ReserveIdempotent` | main.py:38-40 | Reserving the same date twice leaves the same file as reserving it once. |
| `DateStore.ReserveBookedIsNoOp` | main.py:37-40 | On a file the store wrote (strictly ascending), reserving a date that is already booked leaves the file exactly as it was. |
| `DateStore.ReserveCommutes` | main.py:38-40 | Two reservations give the same file in either order. |
| `DateStore.ReserveAllContents` | main.py:37-40 | After any non-empty run of reservations, the file is strictly ascending and holds exactly the de-duplicated union of the old dates and every date reserved. |
| `DateOrder.SortedDistinct` | main.py:38-40 | `sorted(set(xs))` is strictly ascending and has exactly the elements of `xs`. |
| `DateOrder.SortedList` | main.py:40 | `sorted(list(s))` on a set is strictly ascending with exactly the elements of `s`, whatever order the set is walked in. |
| `DateOrder.StrictlySortedUnique` | main.py:40 | Two strictly ascending lists with the same elements are equal, so the sorted output is determined by the set alone. |
| `DateOrder.SortedDistinctOfSorted` | main.py:38-40 | De-duplicating and sorting a list that is already strictly ascending returns it unchanged. |
| `DateOrder.Insert` | main.py:39 | Adding one date to a strictly ascending list keeps it strictly ascending and adds exactly that date. |
| `DateOrder.LessTotal` | main.py:40 | Python's string `<` orders any two different strings, so sorting is well defined. |
| `DateOrder.LessTransitive` | main.py:40 | Python's string `<` is transitive. |
| `DateOrder.StrictlySortedDistinct` | main.py:40 | A strictly ascending list holds each date at most once. |
| `Checkout.CreateCheckoutSession` | main.py:174-199 | With the key unset or empty, the reply is the "Stripe not configured" error with status 500, and no session request is made. Otherwise exactly one request is made, and the reply is the session's URL (status 200) or the provider's error text (status 500). |
| `Checkout.SessionFor` | main.py:180-194 | The session has exactly one line item: currency `gbp`, unit amount 10000, quantity 1. Its metadata is exactly `{date: chosen}`, or `{date: ""}` when no date (or an empty one) was given. |
| `Webhook.Dispatch` | main.py:215-224 | A failed verification is rejected with its message. After verification passes, a date `d` is reserved if and only if the event is `checkout.session.completed` and its metadata's `date` is `d`, non-empty. Missing metadata, `None` metadata or a missing key reserve nothing. |
| `Webhook.Reply` | main.py:215-227 | A rejection answers 400 with the exception text. Every verified event answers 200 with an empty body. |
| `Webhook.Effect` | main.py:220-224 | A rejected call, or a verified event that reserves nothing, leaves the booking file unchanged. |
| `Webhook.StripeWebhook` | main.py:212-227 | A failed verification answers 400 and leaves the store unchanged. Otherwise it answers 200. The store becomes `Effect(old store, event)`. |
| `Webhook.RedeliveryIdempotent` | main.py:220-224 | A second delivery of the same event leaves the booking file as the first delivery left it. |
| `Webhook.CompletedCheckoutBooksOnce` | main.py:220-224 | A verified completed checkout for a non-empty date leaves that date in the booked list exactly once, and keeps every date booked before. Together with `RedeliveryIdempotent`, the same holds after a second delivery. |
| `Catalog.FindBySlug` | main.py:133 | Gives nothing if and only if no package has the slug. Otherwise it gives a package with that slug, and no earlier package has that slug. |
| `Catalog.TemplateDetail` | main.py:132-136 | "Not found" (404) if and only if no catalog package has the slug. Otherwise the page shows a catalog package with that slug. |
| `Catalog.EveryPackageHasAPage` | main.py:79-98 | Each package of `PACKAGES` is found by its own slug. |
| `Calendar.FetchedDates` | static/js/calendar.js:7-10 | The booked set is exactly the strings of `booked_dates` when that field is an array. It is empty when the field is missing or not an array, or when the fetch or the parse failed. |
| `Calendar.CalendarState.constructor` | static/js/calendar.js:5 | The calendar starts on the current month with an empty booked set. |
| `Calendar.CalendarState.AddFetched` | static/js/calendar.js:8 | The `forEach` adds exactly the fetched dates to the booked set, and the view is unchanged. |
| `Calendar.Previous` | static/js/calendar.js:31 | "←" moves to the month exactly one before, and January wraps to December of the year before. |
| `Calendar.Following` | static/js/calendar.js:32 | "→" moves to the month exactly one after, and December wraps to January of the year after. |
| `Calendar.NavigationRoundTrip` | static/js/calendar.js:31-32 | "←" and "→" undo each other. |
| `Calendar.CalendarState.ShowPrevious` | static/js/calendar.js:31 | The view becomes the previous month, and the booked set is unchanged. |
| `Calendar.CalendarState.ShowNext` | static/js/calendar.js:32 | The view becomes the next month, and the booked set is unchanged. |
| `Calendar.DayButton` | static/js/calendar.js:48-60 | A booked day is disabled and titled "Booked", even when it is past or today. A day that is not booked but is past or today is disabled, titled "Today (not bookable)" or "Past date". A day gets a handler, which books its own ISO date, if and only if it is not booked, not past and not today. It is disabled if and only if it has no handler. |
| `Calendar.CalendarState.Draw` | static/js/calendar.js:35-62 | The grid is exactly `startDay` blank cells, then one button per day, numbered 1, 2, … in order. Each button is classified by `DayButton` against the current booked set. |
| `Calendar.RenderCalendar` | static/js/calendar.js:5-10 | The calendar is drawn even when the fetch fails. Its booked set comes from the fetch alone. After a failed fetch, no day shows as "Booked". |
| `Calendar.MessageAfter` | static/js/calendar.js:65-81 | The text left in the message element once the reply is handled is never empty. On a redirect it is still "Redirecting to secure checkout...", set before the request was sent. A network or parse failure leaves "Network error. Try again.". Otherwise it is the message `BookDate` shows. |
| `Calendar.BookDate` | static/js/calendar.js:74-81 | Redirects if and only if the reply has a non-empty `checkout_url`, and to that URL. Otherwise it shows the reply's non-empty `error`, or "Could not create checkout session.". A network or parse failure shows "Network error. Try again.". |
| `EndToEnd.PaidSessionBooksChosenDate` | main.py:193-224 | Suppose a session was created for a chosen date and its completion is confirmed. If the date is non-empty, exactly that date is reserved; otherwise the file is unchanged. |
| `EndToEnd.CalendarSeesStore` | main.py:166-168 | The calendar's booked set is exactly the set of dates in the booking file. |
| `EndToEnd.ConfirmedDateShowsBooked` | static/js/calendar.js:48-51 | After the webhook books a date `d`, in a freshly loaded calendar the cell whose ISO string is `d` is "Booked", disabled and without a handler. Earlier bookings stay booked. Which numbered cell carries that ISO string depends on the time zone (see "## Left out"). |
| `EndToEnd.ClientFollowsServer` | static/js/calendar.js:74-81 | `bookDate` redirects if and only if the endpoint created a session with a non-empty URL. An error reply shows the endpoint's message, or the fallback when the message is empty. |
| `EndToEnd.MissingKeyShownToVisitor` | main.py:177-178 | With no payment key, the visitor sees "Stripe not configured". |

## Left out

- `send_email` (main.py:43-65) and its calls after a checkout starts and after a booking: SMTP and TLS I/O. Its `try` makes a failed send return `False`, and that value never reaches a reply or the store. The exception path below, which raises before the `try`, is not modelled.
- A non-numeric `SMTP_PORT` (an empty `SMTP_PORT=` line, say): `int(...)` at main.py:45 raises `ValueError` before `send_email`'s `try`. In `create_checkout_session` (main.py:195-199) the error is caught after the session was created, so a request with a date gets a 500 `{"error": ...}` instead of the checkout URL. `Checkout.CreateCheckoutSession` always answers with the URL. In `stripe_webhook` (main.py:224-225) the error escapes after `reserve_date`: Flask answers 500 although the date is booked. `Webhook.StripeWebhook` always answers 200.
- A `bookings.json` that exists but cannot be opened (permissions, a directory of that name): `open` at main.py:26 is outside `get_booked_dates`' `try`, so it raises instead of returning `[]`. `/api/booked-dates`, `reserve_date` and the webhook then answer 500. `DateStore.Document` has no case for an unreadable file.
- Flask routing and template rendering, the static pages, `checkout_success` and `checkout_cancel`: presentation only.
- The contact form's CSV append and its UTC timestamp: file I/O and the wall clock.
- The catalogs `PROJECTS`, `STARTERS`, `PLANS` and the descriptions and images of `PACKAGES`: static data. Only the slugs and names of `PACKAGES` are kept, for the slug lookup.
- Stripe's signature check (`construct_event`) and the real `Session.create`: a foreign library. They are inputs.
- An event whose `data.object` is missing: the resulting `KeyError` (a 500 from Flask) is not modelled.
- A `booked_dates` value that is not a list of strings (for example `null` or a string), and the `TypeError` or per-character set it would give in `reserve_date`, are not modelled.
- A request body for `/create-checkout-session` that is not a JSON object, or a `date` that is not a string, are not modelled.
- A write to `bookings.json` that fails: this exception is not modelled.
- The read-merge-write race between concurrent `reserve_date` calls: concurrency.
- JavaScript `Date` arithmetic: the weekday of the 1st, the number of days, each day's ISO string (a UTC conversion of local midnight) and the past/today flags are inputs.
- The ISO string of day `d` (calendar.js:38-39) is `toISOString()` of local midnight. East of UTC, British Summer Time included, that is the previous day's date. So after `d` is booked, cell `d` stays clickable, cell `d + 1` shows "Booked", and clicking cell `d` sends `d - 1` to checkout (calendar.js:59, 71). `EndToEnd.ConfirmedDateShowsBooked` speaks of the cell whose ISO string is the booked date, not of the cell numbered with its day.
- `new Date(y, m, 1)` maps years 0-99 to 1900-1999. This is not modelled: the view is a plain (year, month) pair.
- The DOM: CSS class strings, the month-name heading, and the `if (msg)` checks (the message element always exists once `draw` has run). The message text itself is modelled by `Calendar.MessageAfter`.
- `DateOrder.Less`: Dafny's `char` is a Unicode scalar value, so Python strings that hold lone surrogates are not modelled.
