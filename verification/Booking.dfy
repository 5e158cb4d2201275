/**
 * The booking page: the trip read from the query, the passenger form, the
 * terms checkbox and the submit flow, which after a delay synthesises a
 * booking reference from the clock and opens the confirmation page.
 */
module Booking {
  import opened Wrappers
  import opened Strings
  import opened QueryParams
  import SeatSelection

  // ---------------------------------------------------------------------
  // The trip, read from the query

  datatype Trip = Trip(busId: string, from: string, to: string, date: string, seats: seq<string>, totalPrice: string)

  /**
   * `get("seats")?.split(",") || []`: only a missing parameter gives no
   * seats; a present one, even empty, gives its comma-separated parts,
   * which join back to it.
   */
  function ReadSeats(query: Query): (seats: seq<string>)
    ensures seats == [] <==> "seats" !in query
    ensures "seats" in query ==> Join(seats, ",") == query["seats"]
    ensures forall k :: 0 <= k < |seats| ==> ',' !in seats[k]
  {
    match Get(query, "seats")
    case None => []
    case Some(v) => JoinSplit(v, ','); Split(v, ',')
  }

  /**
   * The query as this page reads it: `get(key) || ""` for the route and
   * bus, the seat list, and `get("price") || "0"` for the total.
   */
  function ReadTrip(query: Query): (trip: Trip)
    ensures trip.busId == (if "busId" in query then query["busId"] else "")
    ensures trip.from == (if "from" in query then query["from"] else "")
    ensures trip.to == (if "to" in query then query["to"] else "")
    ensures trip.date == (if "date" in query then query["date"] else "")
    ensures trip.totalPrice == (if "price" in query && query["price"] != "" then query["price"] else "0")
  {
    Trip(GetOr(query, "busId", ""), GetOr(query, "from", ""), GetOr(query, "to", ""),
         GetOr(query, "date", ""), ReadSeats(query), GetOr(query, "price", "0"))
  }

  /**
   * Proceeding from the seat map opens this page on the same bus, route and
   * date, one seat number per selected seat in selection order, and the
   * total price written in decimal.
   */
  lemma ProceedOpensBooking(page: SeatSelection.SeatSelectionPage)
    requires page.Valid() && page.selectedSeats != []
    ensures var trip := ReadTrip(page.HandleProceedToPayment().value.query);
      && trip.busId == page.busId && trip.from == page.from && trip.to == page.to && trip.date == page.date
      && |trip.seats| == |page.selectedSeats|
      && (forall k :: 0 <= k < |trip.seats| ==>
            trip.seats[k] == SeatSelection.FindSeat(page.seats, page.selectedSeats[k]).value.number)
      && JsNumber(trip.totalPrice) == Some(page.CalculateTotalPrice())
  {
    var q := page.HandleProceedToPayment().value.query;
    page.ProceedForwardsSelection();
    GetOrEmpty(q, "busId", page.busId);
    GetOrEmpty(q, "from", page.from);
    GetOrEmpty(q, "to", page.to);
    GetOrEmpty(q, "date", page.date);
    GetOrEmpty(q, "price", q["price"]);
  }

  // ---------------------------------------------------------------------
  // Passenger details

  datatype PassengerDetails = PassengerDetails(fullName: string, email: string, phone: string, address: string)

  /** The `name` attributes of the four inputs of the form. */
  datatype Field = FullName | Email | Phone | Address

  function FieldValue(details: PassengerDetails, field: Field): string {
    match field
    case FullName => details.fullName
    case Email => details.email
    case Phone => details.phone
    case Address => details.address
  }

  /**
   * All four inputs are marked `required`, so the browser lets the form
   * submit only when none of them is empty.
   */
  predicate Filled(details: PassengerDetails) {
    details.fullName != "" && details.email != "" && details.phone != "" && details.address != ""
  }

  /** `{ ...prev, [name]: value }` */
  function WithField(details: PassengerDetails, field: Field, value: string): (r: PassengerDetails)
    ensures FieldValue(r, field) == value
    ensures forall other :: other != field ==> FieldValue(r, other) == FieldValue(details, other)
  {
    match field
    case FullName => details.(fullName := value)
    case Email => details.(email := value)
    case Phone => details.(phone := value)
    case Address => details.(address := value)
  }

  // ---------------------------------------------------------------------
  // Booking reference and the hand-off to the confirmation page

  /** `BT-${Date.now().toString().slice(-6)}`, with `now` the clock in milliseconds. */
  function BookingReference(now: nat): (reference: string)
    ensures |reference| >= 4 && reference[..3] == "BT-"
  {
    "BT-" + TakeLast(NatToString(now), 6)
  }

  /**
   * After the prefix the reference holds the last six digits of the clock,
   * which spell the clock modulo one million; from 100000 ms on there are
   * always six of them.
   */
  lemma BookingReferenceDigits(now: nat)
    ensures var digits := BookingReference(now)[3..];
      && AllDigits(digits) && |digits| <= 6
      && DigitsValue(digits) == now % 1000000
      && (now >= 100000 ==> |digits| == 6)
  {
    var digits := BookingReference(now)[3..];
    assert digits == TakeLast(NatToString(now), 6);
    LastDigits(now, 6);
    assert Pow10(6) == 1000000;
    assert Pow10(5) == 100000;
    NatToStringLength(now, 5);
  }

  /**
   * The confirmation page's query: the reference, the trip as read (seats
   * joined back with ","), and name, e-mail and phone; the address is not
   * forwarded.
   */
  function ConfirmationNavigation(trip: Trip, details: PassengerDetails, reference: string): (nav: Navigation)
    ensures nav.path == "/booking-confirmation"
    ensures nav.query.Keys == {"reference", "busId", "from", "to", "date", "seats", "price", "name", "email", "phone"}
  {
    Navigation("/booking-confirmation", map[
      "reference" := reference, "busId" := trip.busId, "from" := trip.from, "to" := trip.to,
      "date" := trip.date, "seats" := Join(trip.seats, ","), "price" := trip.totalPrice,
      "name" := details.fullName, "email" := details.email, "phone" := details.phone])
  }

  // ---------------------------------------------------------------------
  // The page

  const TermsError := "Please agree to the terms and conditions"

  /**
   * The page state. `pending` holds the passenger details captured when a
   * submit started the delayed hand-off, which are the ones forwarded even
   * if the form is edited meanwhile.
   */
  class BookingPage {
    const trip: Trip
    var passengerDetails: PassengerDetails
    var agreedToTerms: bool
    var isSubmitting: bool
    var pending: Option<PassengerDetails>

    /** Submitting exactly while a hand-off is pending. */
    ghost predicate Valid()
      reads this
    {
      isSubmitting <==> pending.Some?
    }

    constructor(query: Query)
      ensures trip == ReadTrip(query)
      ensures passengerDetails == PassengerDetails("", "", "", "")
      ensures !agreedToTerms && !isSubmitting && pending == None
      ensures Valid()
    {
      trip := ReadTrip(query);
      passengerDetails := PassengerDetails("", "", "", "");
      agreedToTerms := false;
      isSubmitting := false;
      pending := None;
    }

    /** handleInputChange: the named field takes the new value, the others keep theirs. */
    method HandleInputChange(field: Field, value: string)
      requires Valid()
      modifies this`passengerDetails
      ensures Valid()
      ensures FieldValue(passengerDetails, field) == value
      ensures forall other :: other != field ==> FieldValue(passengerDetails, other) == FieldValue(old(passengerDetails), other)
    {
      passengerDetails := WithField(passengerDetails, field, value);
    }

    /** The terms checkbox. */
    method SetAgreedToTerms(checked: bool)
      requires Valid()
      modifies this`agreedToTerms
      ensures Valid() && agreedToTerms == checked
    {
      agreedToTerms := checked;
    }

    /**
     * handleSubmit, which the browser runs only on a filled-in form and the
     * disabled button keeps from running while a submit is pending: without agreement to the terms only the error is
     * reported and nothing changes; with it the page starts submitting and
     * schedules the hand-off with the current details.
     */
    method HandleSubmit() returns (error: Option<string>)
      requires Valid() && !isSubmitting && Filled(passengerDetails)
      modifies this`isSubmitting, this`pending
      ensures Valid()
      ensures !agreedToTerms ==> error == Some(TermsError) && !isSubmitting && pending == None
      ensures agreedToTerms ==> error == None && isSubmitting && pending == Some(passengerDetails)
    {
      if !agreedToTerms {
        return Some(TermsError);
      }
      isSubmitting := true;
      pending := Some(passengerDetails);
      error := None;
    }

    /**
     * The delayed part of handleSubmit: submitting ends and the
     * confirmation page opens with a reference made from the clock and the
     * details captured at submit time.
     */
    method FinishSubmit(now: nat) returns (nav: Navigation)
      requires Valid() && isSubmitting
      modifies this`isSubmitting, this`pending
      ensures Valid() && !isSubmitting
      ensures nav == ConfirmationNavigation(trip, old(pending).value, BookingReference(now))
    {
      var captured := pending.value;
      isSubmitting := false;
      pending := None;
      nav := ConfirmationNavigation(trip, captured, BookingReference(now));
    }
  }

  /**
   * The whole submit flow on a page that agreed to the terms: submitting
   * starts, then ends on the confirmation page carrying the details as
   * they were at submit time.
   */
  method SubmitFlow(page: BookingPage, now: nat) returns (nav: Navigation)
    requires page.Valid() && !page.isSubmitting && page.agreedToTerms && Filled(page.passengerDetails)
    modifies page
    ensures !page.isSubmitting && page.Valid()
    ensures nav == ConfirmationNavigation(page.trip, old(page.passengerDetails), BookingReference(now))
  {
    var error := page.HandleSubmit();
    assert error == None;
    nav := page.FinishSubmit(now);
  }
}
