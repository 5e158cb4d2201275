/**
 * The confirmation page: the booking read back from the query (with its
 * defaults), the seat list as displayed, and the download button with its
 * busy flag.
 */
module BookingConfirmation {
  import opened Wrappers
  import opened Strings
  import opened QueryParams
  import Booking
  import MyTickets

  /** What the page shows; the bus id is forwarded to it but never read. */
  datatype Confirmation = Confirmation(
    bookingReference: string, from: string, to: string, date: string,
    seats: seq<string>, totalPrice: string,
    passengerName: string, passengerEmail: string, passengerPhone: string)

  /**
   * The query as this page reads it: `get(key) || ""` for the text fields,
   * the seat list as on the booking page, and `get("price") || "0"`.
   */
  function ReadConfirmation(query: Query): (c: Confirmation)
    ensures c.bookingReference == (if "reference" in query then query["reference"] else "")
    ensures c.from == (if "from" in query then query["from"] else "")
    ensures c.to == (if "to" in query then query["to"] else "")
    ensures c.date == (if "date" in query then query["date"] else "")
    ensures c.passengerName == (if "name" in query then query["name"] else "")
    ensures c.passengerEmail == (if "email" in query then query["email"] else "")
    ensures c.passengerPhone == (if "phone" in query then query["phone"] else "")
    ensures c.totalPrice == (if "price" in query && query["price"] != "" then query["price"] else "0")
    ensures c.seats == [] <==> "seats" !in query
    ensures "seats" in query && query["seats"] == "" ==> c.seats == [""]
  {
    Confirmation(
      GetOr(query, "reference", ""), GetOr(query, "from", ""), GetOr(query, "to", ""),
      GetOr(query, "date", ""), Booking.ReadSeats(query), GetOr(query, "price", "0"),
      GetOr(query, "name", ""), GetOr(query, "email", ""), GetOr(query, "phone", ""))
  }

  /** `seats.join(", ")`: the forwarded seat list with a space after every comma. */
  function SeatsDisplay(c: Confirmation): string {
    Join(c.seats, ", ")
  }

  /** The displayed seats are the forwarded parameter with each "," widened to ", ". */
  lemma SeatsDisplayOfQuery(query: Query)
    requires "seats" in query
    ensures SeatsDisplay(ReadConfirmation(query)) == ReplaceChar(query["seats"], ',', ", ")
  {
    JoinSplitGlue(query["seats"], ',', ", ");
  }

  /**
   * The hand-off from the booking page: the confirmation page reads back
   * the reference, the route, the date, the price and the three forwarded
   * passenger fields exactly, and the seats exactly when the booking page
   * had a seats parameter; without one, the empty list it forwards comes
   * back as a single empty seat.
   */
  lemma BookingHandOff(query: Query, details: Booking.PassengerDetails, now: nat)
    ensures var trip := Booking.ReadTrip(query);
      var c := ReadConfirmation(Booking.ConfirmationNavigation(trip, details, Booking.BookingReference(now)).query);
      && c.bookingReference == Booking.BookingReference(now)
      && c.from == trip.from && c.to == trip.to && c.date == trip.date
      && c.totalPrice == trip.totalPrice
      && c.passengerName == details.fullName && c.passengerEmail == details.email && c.passengerPhone == details.phone
      && c.seats == (if "seats" in query then trip.seats else [""])
  {
    var trip := Booking.ReadTrip(query);
    ConfirmationReadsBack(trip, details, Booking.BookingReference(now));
    if "seats" in query {
      SplitJoin(trip.seats, ',');
    }
  }

  lemma ConfirmationReadsBack(trip: Booking.Trip, details: Booking.PassengerDetails, reference: string)
    requires trip.totalPrice != ""
    ensures var c := ReadConfirmation(Booking.ConfirmationNavigation(trip, details, reference).query);
      && c.bookingReference == reference
      && c.from == trip.from && c.to == trip.to && c.date == trip.date
      && c.totalPrice == trip.totalPrice
      && c.passengerName == details.fullName && c.passengerEmail == details.email && c.passengerPhone == details.phone
      && c.seats == Split(Join(trip.seats, ","), ',')
  {
  }

  /** "View Ticket" forwards only the reference: every other field shows its default. */
  lemma ViewTicketShowsDefaults(bookingReference: string)
    ensures ReadConfirmation(MyTickets.HandleViewTicket(bookingReference).query)
      == Confirmation(bookingReference, "", "", "", [], "0", "", "", "")
  {
  }

  const DownloadedMessage := "Ticket downloaded successfully!"

  class ConfirmationPage {
    const confirmation: Confirmation
    var isDownloading: bool

    constructor(query: Query)
      ensures confirmation == ReadConfirmation(query) && !isDownloading
    {
      confirmation := ReadConfirmation(query);
      isDownloading := false;
    }

    /** handleDownloadTicket, which the disabled button keeps from running while a download is under way. */
    method HandleDownloadTicket()
      requires !isDownloading
      modifies this`isDownloading
      ensures isDownloading
    {
      isDownloading := true;
    }

    /** The delayed part of the download: the flag clears and the success message shows; it never fails. */
    method FinishDownload() returns (toast: string)
      requires isDownloading
      modifies this`isDownloading
      ensures !isDownloading && toast == DownloadedMessage
    {
      isDownloading := false;
      toast := DownloadedMessage;
    }
  }
}
