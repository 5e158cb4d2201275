/**
 * The bus listing page: the route read from the query, the fixed list of
 * four buses, the star row drawn for each bus's rating, and "View Seats",
 * which opens the seat map of one bus.
 */
module AvailableBuses {
  import opened Wrappers
  import opened Strings
  import opened QueryParams
  import opened Location
  import SeatSelection
  import PopularRoutes

  // ---------------------------------------------------------------------
  // The route being listed

  datatype Search = Search(from: string, to: string, date: string)

  /** `get("from") || ""`, and the same for `to` and `date`. */
  function ReadSearch(query: Query): Search {
    Search(GetOr(query, "from", ""), GetOr(query, "to", ""), GetOr(query, "date", ""))
  }

  /**
   * "Book Now" on a popular route opens this page on the two slugs and the
   * day of the timestamp.
   */
  lemma BookNowOpensListing(from: string, to: string, day: string, time: string)
    requires 'T' !in day
    ensures var search := ReadSearch(PopularRoutes.HandleBookNow(from, to, day + "T" + time).query);
      search == Search(PopularRoutes.Slugify(from), PopularRoutes.Slugify(to), day)
  {
    var q := PopularRoutes.HandleBookNow(from, to, day + "T" + time).query;
    PopularRoutes.IsoDateOf(day, time);
    GetOrEmpty(q, "from", PopularRoutes.Slugify(from));
    GetOrEmpty(q, "to", PopularRoutes.Slugify(to));
    GetOrEmpty(q, "date", day);
  }

  // ---------------------------------------------------------------------
  // The bus list

  datatype Bus = Bus(
    id: string, busName: string, busType: string,
    departureTime: string, arrivalTime: string, duration: string,
    price: nat, availableSeats: nat, amenities: seq<string>,
    ratingTenths: int)

  /** The four buses the mocked fetch returns, whatever the route and date; ratings in tenths. */
  function MockBuses(): seq<Bus> {
    [ Bus("bus1", "Express Liner", "Luxury", "07:00 AM", "11:30 AM", "4h 30m", 35, 23,
          ["WiFi", "AC", "Snacks", "Charging Port"], 45),
      Bus("bus2", "City Connector", "Standard", "09:15 AM", "02:30 PM", "5h 15m", 28, 18,
          ["WiFi", "AC"], 41),
      Bus("bus3", "Royal Travels", "Premium", "11:30 AM", "03:45 PM", "4h 15m", 42, 12,
          ["WiFi", "AC", "Food", "Charging Port", "Entertainment"], 48),
      Bus("bus4", "Budget Express", "Economy", "01:00 PM", "06:00 PM", "5h 00m", 22, 30,
          ["AC"], 39) ]
  }

  /**
   * The listing holds bus1..bus4 in that order, and each listed bus has
   * the name, type, times and price that the seat map page shows for the
   * same id.
   */
  lemma ListingMatchesProfiles(k: nat)
    requires k < |MockBuses()|
    ensures |MockBuses()| == 4
    ensures MockBuses()[k].id == ["bus1", "bus2", "bus3", "bus4"][k]
    ensures var bus, info := MockBuses()[k], SeatSelection.MockBusInfo(MockBuses()[k].id);
      && bus.busName == info.name && bus.busType == info.busType
      && bus.departureTime == info.departureTime && bus.arrivalTime == info.arrivalTime
      && bus.price == info.seatPrice
  {
  }

  // ---------------------------------------------------------------------
  // Star rows

  datatype Star = Full | Half | Empty

  /** n copies of a star. */
  function Repeat(star: Star, n: nat): (row: seq<Star>)
    ensures |row| == n
  {
    if n == 0 then [] else Repeat(star, n - 1) + [star]
  }

  /** `Math.floor(rating)` as a loop bound: the loop runs that many times, none when it is negative. */
  function FullStars(ratingTenths: int): nat {
    if ratingTenths / 10 < 0 then 0 else ratingTenths / 10
  }

  /** `rating - Math.floor(rating) >= 0.5` */
  function HasHalfStar(ratingTenths: int): bool {
    ratingTenths % 10 >= 5
  }

  /**
   * The star row of a rating: floor(rating) full stars, a half star when the
   * fraction is at least one half, and empty stars up to five in all (none
   * when there are already five or more).
   */
  function StarRow(ratingTenths: int): seq<Star> {
    var full := FullStars(ratingTenths);
    var half := if HasHalfStar(ratingTenths) then 1 else 0;
    Repeat(Full, full) + Repeat(Half, half) + Repeat(Empty, if full + half < 5 then 5 - (full + half) else 0)
  }

  /**
   * renderStars: a loop pushing the full stars, the half star, then a loop
   * pushing `5 - stars.length` empty stars.
   */
  method RenderStars(ratingTenths: int) returns (stars: seq<Star>)
    ensures stars == StarRow(ratingTenths)
  {
    stars := [];
    var fullStars := ratingTenths / 10;
    var hasHalfStar := ratingTenths % 10 >= 5;
    var i := 0;
    while i < fullStars
      invariant 0 <= i <= FullStars(ratingTenths)
      invariant stars == Repeat(Full, i)
    {
      stars := stars + [Full];
      i := i + 1;
    }
    assert i == FullStars(ratingTenths);
    if hasHalfStar {
      stars := stars + [Half];
    }
    assert stars == Repeat(Full, i) + Repeat(Half, if hasHalfStar then 1 else 0);
    var prefix := stars;
    var remainingStars := 5 - |stars|;
    var j := 0;
    while j < remainingStars
      invariant 0 <= j <= (if remainingStars < 0 then 0 else remainingStars)
      invariant stars == prefix + Repeat(Empty, j)
    {
      stars := stars + [Empty];
      j := j + 1;
    }
  }

  lemma {:induction false} RepeatCount(star: Star, n: nat)
    ensures multiset(Repeat(star, n)) == multiset{}[star := n]
    decreases n
  {
    if n > 0 {
      RepeatCount(star, n - 1);
    }
  }

  /**
   * For a rating from 0 to 5 the row has exactly five stars: floor(rating)
   * full ones, a half one exactly when the fraction is at least one half,
   * and the rest empty.
   */
  lemma StarsOfRating(ratingTenths: int)
    requires 0 <= ratingTenths <= 50
    ensures |StarRow(ratingTenths)| == 5
    ensures multiset(StarRow(ratingTenths))[Full] == ratingTenths / 10
    ensures multiset(StarRow(ratingTenths))[Half] == (if ratingTenths % 10 >= 5 then 1 else 0)
    ensures multiset(StarRow(ratingTenths))[Empty] == 5 - ratingTenths / 10 - (if ratingTenths % 10 >= 5 then 1 else 0)
  {
    var full := ratingTenths / 10;
    var half := if ratingTenths % 10 >= 5 then 1 else 0;
    StarRowShape(ratingTenths, full, half);
    StarCounts(StarRow(ratingTenths), full, half, 5 - full - half);
  }

  lemma StarRowShape(ratingTenths: int, full: nat, half: nat)
    requires 0 <= ratingTenths <= 50
    requires full == ratingTenths / 10 && half == (if ratingTenths % 10 >= 5 then 1 else 0)
    ensures full + half <= 5
    ensures StarRow(ratingTenths) == Repeat(Full, full) + Repeat(Half, half) + Repeat(Empty, 5 - full - half)
  {
  }

  lemma StarCounts(row: seq<Star>, full: nat, half: nat, empty: nat)
    requires row == Repeat(Full, full) + Repeat(Half, half) + Repeat(Empty, empty)
    ensures |row| == full + half + empty
    ensures multiset(row)[Full] == full && multiset(row)[Half] == half && multiset(row)[Empty] == empty
  {
    RepeatCount(Full, full);
    RepeatCount(Half, half);
    RepeatCount(Empty, empty);
  }

  /** A rating from 5.5 to 5.9 draws six stars: five full and a half one, and no empty one. */
  lemma SixStarsAboveFive(ratingTenths: int)
    requires 55 <= ratingTenths <= 59
    ensures StarRow(ratingTenths) == [Full, Full, Full, Full, Full, Half]
  {
    assert Repeat(Full, 5) == [Full, Full, Full, Full, Full];
  }

  /** The four listed buses all draw five stars. */
  lemma ListedBusesDrawFiveStars(k: nat)
    requires k < |MockBuses()|
    ensures |StarRow(MockBuses()[k].ratingTenths)| == 5
  {
    StarsOfRating(MockBuses()[k].ratingTenths);
  }

  // ---------------------------------------------------------------------
  // View Seats

  /** handleViewSeats: open the seat map of one bus for the route being listed. */
  function HandleViewSeats(search: Search, busId: string): (nav: Navigation)
    ensures nav.path == "/seat-selection"
    ensures nav.query.Keys == {"busId", "from", "to", "date"}
  {
    Navigation("/seat-selection", map["busId" := busId, "from" := search.from, "to" := search.to, "date" := search.date])
  }

  /** The seat map page reads back exactly the bus id, route and date that View Seats forwards. */
  lemma ViewSeatsRoundTrip(search: Search, busId: string)
    ensures var q := HandleViewSeats(search, busId).query;
      && GetOr(q, "busId", "") == busId
      && GetOr(q, "from", "") == search.from
      && GetOr(q, "to", "") == search.to
      && GetOr(q, "date", "") == search.date
  {
    var q := HandleViewSeats(search, busId).query;
    GetOrEmpty(q, "busId", busId);
    GetOrEmpty(q, "from", search.from);
    GetOrEmpty(q, "to", search.to);
    GetOrEmpty(q, "date", search.date);
  }
}
