/** The booking-date store of main.py: a JSON file `bookings.json` holding
    `{"booked_dates": [...]}`, read by `get_booked_dates`, rewritten whole by
    `save_booked_dates`, and updated by `reserve_date` with a
    read-merge-write. The file system and the JSON encoding are abstracted to
    the value the file holds. */
module DateStore {
  import opened Optional
  import opened DateOrder

  /** What `bookings.json` holds, as far as `get_booked_dates` can tell. */
  datatype Document =
    | Missing                                   // the file does not exist
    | Unparsable                                // `json.load` raises
    | NotAnObject                               // valid JSON without `.get` (a list, a number, ...)
    | Object(bookedDates: Option<seq<string>>)  // a JSON object, with or without the key

  /** `get_booked_dates`: the stored list, or `[]` whenever the file is
      absent, cannot be parsed, is not an object or has no `booked_dates`. */
  function LoadDates(doc: Document): (r: seq<string>)
    ensures doc.Missing? || doc.Unparsable? || doc.NotAnObject? ==> r == []
    ensures doc.Object? && doc.bookedDates.None? ==> r == []
    ensures doc.Object? && doc.bookedDates.Some? ==> r == doc.bookedDates.value
  {
    match doc
    case Object(Some(dates)) => dates
    case _ => []
  }

  /** What `save_booked_dates(dates)` leaves in the file. */
  function Saved(dates: seq<string>): Document
  {
    Object(Some(dates))
  }

  /** The file after `reserve_date(iso)`: the stored dates with `iso` added,
      de-duplicated and sorted. */
  function Reserve(doc: Document, iso: string): (r: Document)
    ensures StrictlySorted(LoadDates(r))
    ensures Elems(LoadDates(r)) == Elems(LoadDates(doc)) + {iso}
  {
    Saved(SortedDistinct(LoadDates(doc) + [iso]))
  }

  /** Reserving the same date twice leaves the file as reserving it once. */
  lemma ReserveIdempotent(doc: Document, iso: string)
    ensures Reserve(Reserve(doc, iso), iso) == Reserve(doc, iso)
  {
    var once := LoadDates(Reserve(doc, iso));
    var twice := SortedDistinct(once + [iso]);
    assert Elems(once + [iso]) == Elems(once) + {iso};
    StrictlySortedUnique(twice, once);
  }

  /** On a file the store wrote itself (strictly ascending), reserving a date
      that is already booked leaves the file exactly as it was. A file in any
      other order is rewritten sorted. */
  lemma ReserveBookedIsNoOp(xs: seq<string>, iso: string)
    requires StrictlySorted(xs) && iso in xs
    ensures Reserve(Object(Some(xs)), iso) == Object(Some(xs))
  {
    assert Elems(xs + [iso]) == Elems(xs);
    StrictlySortedUnique(SortedDistinct(xs + [iso]), xs);
  }

  /** Reservations commute: the order in which two dates are booked does not
      matter to the file. */
  lemma ReserveCommutes(doc: Document, a: string, b: string)
    ensures Reserve(Reserve(doc, a), b) == Reserve(Reserve(doc, b), a)
  {
    var docA, docB := Reserve(doc, a), Reserve(doc, b);
    var ab, ba := Reserve(docA, b), Reserve(docB, a);
    assert Elems(LoadDates(ab)) == Elems(LoadDates(ba));
    StrictlySortedUnique(LoadDates(ab), LoadDates(ba));
  }

  /** The file after `reserve_date` has been called with each date of `isos`
      in turn. */
  function ReserveAll(doc: Document, isos: seq<string>): Document
    decreases |isos|
  {
    if isos == [] then doc else Reserve(ReserveAll(doc, isos[..|isos| - 1]), isos[|isos| - 1])
  }

  /** After any non-empty run of reservations the file holds exactly the
      de-duplicated union of what it held and every date reserved, in
      ascending order. */
  lemma {:induction false} ReserveAllContents(doc: Document, isos: seq<string>)
    requires isos != []
    ensures StrictlySorted(LoadDates(ReserveAll(doc, isos)))
    ensures Elems(LoadDates(ReserveAll(doc, isos))) == Elems(LoadDates(doc)) + Elems(isos)
    decreases |isos|
  {
    var prefix, last := isos[..|isos| - 1], isos[|isos| - 1];
    var before := ReserveAll(doc, prefix);
    assert ReserveAll(doc, isos) == Reserve(before, last);
    ElemsSnoc(isos);
    if prefix == [] {
      assert before == doc;
    } else {
      ReserveAllContents(doc, prefix);
    }
  }

  /** `isos` is its prefix followed by its last date. */
  lemma ElemsSnoc(isos: seq<string>)
    requires isos != []
    ensures Elems(isos) == Elems(isos[..|isos| - 1]) + {isos[|isos| - 1]}
  {
    assert isos == isos[..|isos| - 1] + [isos[|isos| - 1]];
  }

  /** `bookings.json` together with the three helpers of main.py that use it. */
  class BookingStore {
    var file: Document

    constructor (initial: Document)
      ensures file == initial
    {
      file := initial;
    }

    /** `save_booked_dates`: rewrites the whole file; reading it back gives
        exactly the list written. */
    method SaveBookedDates(dates: seq<string>)
      modifies this
      ensures file == Saved(dates)
      ensures LoadDates(file) == dates
    {
      file := Object(Some(dates));
    }

    /** `reserve_date`: loads the list into a set, adds `iso`, and writes the
        set back as a sorted list; it always reports success. */
    method ReserveDate(iso: string) returns (ok: bool)
      modifies this
      ensures ok
      ensures file == Reserve(old(file), iso)
      ensures StrictlySorted(LoadDates(file))
      ensures Elems(LoadDates(file)) == Elems(LoadDates(old(file))) + {iso}
    {
      var dates := set d | d in LoadDates(file);
      dates := dates + {iso};
      var sorted := SortedList(dates);
      ghost var expected := SortedDistinct(LoadDates(file) + [iso]);
      assert Elems(LoadDates(file) + [iso]) == dates;
      StrictlySortedUnique(sorted, expected);
      SaveBookedDates(sorted);
      ok := true;
    }
  }
}
