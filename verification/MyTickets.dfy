/**
 * The "My Tickets" page: the fixed list of past and future tickets, the
 * status filter behind the four tabs, the status badge, the empty-list
 * message and "View Ticket".
 */
module MyTickets {
  import opened Wrappers
  import opened Strings
  import opened QueryParams

  datatype Status = Upcoming | Completed | Cancelled

  /** The status as the string the page compares and switches on. */
  function StatusName(status: Status): string {
    match status
    case Upcoming => "upcoming"
    case Completed => "completed"
    case Cancelled => "cancelled"
  }

  datatype Ticket = Ticket(
    id: string, bookingReference: string, from: string, to: string,
    date: string, departureTime: string, seats: seq<string>, price: nat,
    status: Status)

  /** The five tickets the mocked fetch returns. */
  function MockTickets(): seq<Ticket> {
    [ Ticket("1", "BT-982731", "New York", "Boston", "2025-07-15", "07:00 AM", ["3A", "3B"], 70, Upcoming),
      Ticket("2", "BT-876543", "Chicago", "Detroit", "2025-06-20", "09:15 AM", ["5C"], 30, Upcoming),
      Ticket("3", "BT-762135", "Washington", "Philadelphia", "2025-06-01", "11:30 AM", ["8D"], 25, Completed),
      Ticket("4", "BT-654321", "Boston", "New York", "2025-05-15", "02:00 PM", ["12A", "12B"], 70, Completed),
      Ticket("5", "BT-543210", "Philadelphia", "Washington", "2025-05-10", "10:30 AM", ["4C"], 25, Cancelled) ]
  }

  // ---------------------------------------------------------------------
  // filterTickets

  /** `tickets.filter(ticket => ticket.status === status)` */
  function FilterTickets(tickets: seq<Ticket>, status: string): (r: seq<Ticket>)
    ensures |r| <= |tickets|
    ensures forall t :: t in r <==> t in tickets && StatusName(t.status) == status
  {
    if tickets == [] then []
    else
      var rest := FilterTickets(tickets[1..], status);
      assert forall t :: t in tickets <==> t == tickets[0] || t in tickets[1..];
      if StatusName(tickets[0].status) == status then [tickets[0]] + rest else rest
  }

  /** Filtering keeps the original order: the filter of two lists one after the other is the two filters one after the other. */
  lemma {:induction false} FilterConcat(a: seq<Ticket>, b: seq<Ticket>, status: string)
    ensures FilterTickets(a + b, status) == FilterTickets(a, status) + FilterTickets(b, status)
    decreases |a|
  {
    if a == [] {
      assert a + b == b;
    } else {
      assert (a + b)[0] == a[0] && (a + b)[1..] == a[1..] + b;
      FilterConcat(a[1..], b, status);
    }
  }

  /** A status no ticket can have (anything but the three names) filters to the empty list. */
  lemma {:induction false} FilterUnknownStatus(tickets: seq<Ticket>, status: string)
    requires status !in {"upcoming", "completed", "cancelled"}
    ensures FilterTickets(tickets, status) == []
    decreases |tickets|
  {
    if tickets != [] {
      FilterUnknownStatus(tickets[1..], status);
    }
  }

  /**
   * Every ticket has one of the three statuses, so the upcoming, completed
   * and cancelled lists together are as long as the whole list.
   */
  lemma {:induction false} StatusTabsPartition(tickets: seq<Ticket>)
    ensures |FilterTickets(tickets, "upcoming")| + |FilterTickets(tickets, "completed")|
            + |FilterTickets(tickets, "cancelled")| == |tickets|
    decreases |tickets|
  {
    if tickets != [] {
      StatusTabsPartition(tickets[1..]);
    }
  }

  // ---------------------------------------------------------------------
  // Tabs

  datatype Tab = AllTab | UpcomingTab | CompletedTab | CancelledTab

  /** The tickets listed under a tab: the whole list under "all", the filtered list under the others. */
  function TabTickets(tickets: seq<Ticket>, tab: Tab): (r: seq<Ticket>)
    ensures tab == AllTab ==> r == tickets
    ensures tab != AllTab ==> forall t :: t in r <==> t in tickets && t.status == TabStatus(tab)
  {
    match tab
    case AllTab => tickets
    case UpcomingTab => FilterTickets(tickets, "upcoming")
    case CompletedTab => FilterTickets(tickets, "completed")
    case CancelledTab => FilterTickets(tickets, "cancelled")
  }

  function TabStatus(tab: Tab): Status
    requires tab != AllTab
  {
    match tab
    case UpcomingTab => Upcoming
    case CompletedTab => Completed
    case CancelledTab => Cancelled
  }

  /** Distinct statuses have distinct names. */
  lemma StatusNameInjective(a: Status, b: Status)
    ensures StatusName(a) == StatusName(b) <==> a == b
  {
    assert "upcoming"[0] != "completed"[0] && "upcoming"[0] != "cancelled"[0];
    assert "completed"[1] != "cancelled"[1];
  }

  /** The number of tickets with a status. */
  function StatusCount(tickets: seq<Ticket>, status: Status): nat {
    if tickets == [] then 0
    else (if tickets[0].status == status then 1 else 0) + StatusCount(tickets[1..], status)
  }

  /** A status tab lists as many tickets as have that status. */
  lemma {:induction false} FilterLength(tickets: seq<Ticket>, status: Status)
    ensures |FilterTickets(tickets, StatusName(status))| == StatusCount(tickets, status)
    decreases |tickets|
  {
    if tickets != [] {
      StatusNameInjective(tickets[0].status, status);
      FilterLength(tickets[1..], status);
    }
  }

  /** Of the five mocked tickets two are upcoming, two completed and one cancelled. */
  lemma MockTicketTabs()
    ensures |TabTickets(MockTickets(), AllTab)| == 5
    ensures |TabTickets(MockTickets(), UpcomingTab)| == 2
    ensures |TabTickets(MockTickets(), CompletedTab)| == 2
    ensures |TabTickets(MockTickets(), CancelledTab)| == 1
  {
    var m := MockTickets();
    FilterLength(m, Upcoming);
    FilterLength(m, Completed);
    FilterLength(m, Cancelled);
    assert m[1..][1..][1..][1..][1..] == [];
  }

  // ---------------------------------------------------------------------
  // Badge, list and View Ticket

  datatype BadgeVariant = DefaultVariant | Outline | Destructive
  datatype Badge = Badge(text: string, style: BadgeVariant)

  /** getStatusBadge: one badge per known status, null for any other string. */
  function GetStatusBadge(status: string): (badge: Option<Badge>)
    ensures badge.None? <==> status !in {"upcoming", "completed", "cancelled"}
    ensures status == "cancelled" <==> badge.Some? && badge.value.style == Destructive
  {
    if status == "upcoming" then Some(Badge("Upcoming", DefaultVariant))
    else if status == "completed" then Some(Badge("Completed", Outline))
    else if status == "cancelled" then Some(Badge("Cancelled", Destructive))
    else None
  }

  /** Every ticket's own status has a badge, labelled with the status capitalised. */
  lemma EveryTicketHasBadge(ticket: Ticket)
    ensures GetStatusBadge(StatusName(ticket.status)).Some?
    ensures var name, text := StatusName(ticket.status), GetStatusBadge(StatusName(ticket.status)).value.text;
      |text| == |name| && text[0] == ToUpper(name[0]) && text[1..] == name[1..]
  {
  }

  /** handleViewTicket: open the confirmation page with the booking reference and nothing else. */
  function HandleViewTicket(bookingReference: string): (nav: Navigation)
    ensures nav.path == "/booking-confirmation"
    ensures nav.query.Keys == {"reference"} && nav.query["reference"] == bookingReference
  {
    Navigation("/booking-confirmation", map["reference" := bookingReference])
  }

  /** One ticket card: reference, badge, route, seats joined with ", " and where View Ticket leads. */
  datatype Card = Card(reference: string, badge: Option<Badge>, route: string, seats: string, viewTicket: Navigation)

  datatype TicketList = NoTickets(message: string) | Cards(cards: seq<Card>)

  function TicketCard(ticket: Ticket): Card {
    Card(ticket.bookingReference, GetStatusBadge(StatusName(ticket.status)),
         ticket.from + " to " + ticket.to, Join(ticket.seats, ", "), HandleViewTicket(ticket.bookingReference))
  }

  /** renderTicketList: the "No tickets found" message for an empty list, otherwise one card per ticket in order. */
  function RenderTicketList(tickets: seq<Ticket>): (view: TicketList)
    ensures view.NoTickets? <==> tickets == []
    ensures view.NoTickets? ==> view.message == "No tickets found"
    ensures view.Cards? ==> |view.cards| == |tickets| && forall k :: 0 <= k < |tickets| ==>
      view.cards[k].reference == tickets[k].bookingReference
      && view.cards[k].viewTicket.query == map["reference" := tickets[k].bookingReference]
  {
    if |tickets| == 0 then NoTickets("No tickets found")
    else Cards(seq(|tickets|, k requires 0 <= k < |tickets| => TicketCard(tickets[k])))
  }
}
