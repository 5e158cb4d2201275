# Bus booking front end: verified model of its page logic

This project models, in Dafny, the logic of a mocked bus-ticket booking web
front end. The front end has these pages and components:

- a list of popular routes whose "Book Now" button turns each city name into a URL slug;
- a bus listing with star ratings;
- a seat map on which the user picks seats;
- a booking form with a terms check that synthesises a booking reference;
- a confirmation page that reads the booking back from the URL;
- a "My Tickets" page with status tabs;
- a registration form;
- two clock-time helpers.

Everything here works on integers, strings and sequences.

- A URL query is a map from parameter names to decoded values.
- A navigation is a path plus such a map.
- The random and clock inputs are parameters:
  - the booked flags of the seat map are a `seq<bool>`;
  - `Date.now()` is a `nat`;
  - the ISO timestamp is a string.
- Each component whose state the page updates is a class:
  - the seat map (`SeatSelection.SeatSelectionPage`);
  - the booking form (`Booking.BookingPage`);
  - the registration form (`Register.RegisterPage`);
  - the confirmation page's download flag (`BookingConfirmation.ConfirmationPage`).
- A delayed `setTimeout` callback is modelled as a second method that runs
  from the state the first one left. Examples are `FinishSubmit` and
  `FinishLoading`.

Modules:

| module | models |
|---|---|
| `Wrappers` | `Option` |
| `Strings` | decimal numerals, `slice(-k)`, `split`/`join`, ASCII case mapping, `trimStart`, `parseInt`, `Number` on digit strings |
| `QueryParams` | `searchParams.get(key) \|\| fallback` and navigations |
| `Location` | `formatLocation`, which four pages define identically |
| `TimeFormat` | `formatTime`, `calculateTimeDifference` |
| `PopularRoutes` | the route list, slugs, "Book Now" |
| `AvailableBuses` | search, bus list, `renderStars`, "View Seats" |
| `SeatSelection` | bus profile, seat generation, selection, total, proceed |
| `Booking` | query decoding, passenger form, terms guard, reference, hand-off |
| `MyTickets` | ticket list, `filterTickets`, badges, empty list, "View Ticket" |
| `Register` | form, guard order, loading flag |
| `BookingConfirmation` | query decoding, seat display, download flag, both hand-offs |

Two behaviours of the code worth noting:

- The per-seat figure on the booking page is a floating-point division of
  the total by the seat count, not a truncating one
  (src/pages/Booking.tsx:208). It is left out below.
- A rating of 5.5 to 5.9 draws six stars, not five. Five full stars and a
  half star come first, and the empty-star loop then runs zero times
  (`AvailableBuses.SixStarsAboveFive`). The listed buses are rated from 3.9
  to 4.8, so all of them draw five stars (`AvailableBuses.ListedBusesDrawFiveStars`).

## Model

| member | source | states |
|---|---|---|
| Strings.NatToString | src/pages/SeatSelection.tsx:76 | the decimal text of a number is non-empty and all digits |
| Strings.NatToStringRoundTrip | src/pages/SeatSelection.tsx:117 | reading the decimal text of a number back gives the number |
| Strings.NatToStringInjective | src/pages/SeatSelection.tsx:76 | distinct numbers have distinct decimal texts |
| Strings.NatToStringLength | src/pages/Booking.tsx:65 | a number of at least 10^k has at least k+1 digits, and is below 10 to the power of its digit count |
| Strings.IntToString | src/lib/utils.ts:30 | an integer's text is digits, preceded by '-' when negative |
| Strings.TakeLast | src/pages/Booking.tsx:65 | `slice(-k)` for k at least 1 keeps the last min(length, k) characters |
| Strings.LastDigits | src/pages/Booking.tsx:65 | the last k digits of a number's decimal text are digits and spell the number modulo 10^k |
| Strings.Split | src/lib/utils.ts:25 | a split has at least one part and no part contains the separator |
| Strings.JoinSplit | src/pages/Booking.tsx:29 | joining the parts of a split with the same separator gives the string back |
| Strings.SplitJoin | src/pages/Booking.tsx:67 | splitting a join of separator-free parts (at least one) gives the parts back |
| Strings.JoinSplitGlue | src/pages/BookingConfirmation.tsx:109 | joining split parts with another glue replaces each separator by the glue |
| Strings.ReplaceChar | src/pages/BookingConfirmation.tsx:109 | replacing a character changes nothing in a string without it, and leaves none behind when the glue lacks it |
| Strings.LowerAll | src/components/PopularRoutes.tsx:37 | `toLowerCase` keeps the length and lowers each character |
| Strings.TrimStart | src/components/PopularRoutes.tsx:37 | dropping a leading whitespace run leaves a suffix that does not start with whitespace, and only whitespace is dropped |
| Strings.TakeDigits | src/lib/utils.ts:26 | the longest digit prefix, followed by a non-digit or the end |
| Strings.ParseInt | src/lib/utils.ts:26 | `parseInt` gives NaN exactly when no digit follows the leading white space and optional sign; its values are given by `Strings.ParseIntPrefix` |
| Strings.ParseIntPrefix | src/lib/utils.ts:26 | for white space, then "", "+" or "-", then a non-empty digit run, then the end or a non-digit, `parseInt` gives the digits' value, negated after "-"; what follows the digits is ignored |
| Strings.TrimStartRun | src/components/PopularRoutes.tsx:37 | trimming a whole run of white space before the end or a non-space character leaves exactly what follows the run |
| Strings.ParseIntOfDigits | src/lib/utils.ts:26 | `parseInt` of a digit string is its value |
| Strings.Join | src/pages/SeatSelection.tsx:117 | definition (no contract of its own): `parts.join(sep)`, "" for no parts; its meaning is fixed by `Strings.JoinSplit`, `Strings.SplitJoin` and `Strings.JoinSplitGlue` |
| Strings.JsNumber | src/lib/utils.ts:35-36 | definition (no contract of its own): `Number(s)` on a digit string is its value ("" is 0), anything else NaN; used through `TimeFormat.ClockMinutesOf` |
| Strings.DigitChar | src/pages/SeatSelection.tsx:76 | each digit value has a digit character that reads back as it |
| QueryParams.GetOrEmpty | src/pages/SeatSelection.tsx:32-35 | `get(key) \|\| ""` of a present key is its value, empty or not |
| QueryParams.Get | src/pages/Booking.tsx:29 | definition (no contract of its own): `searchParams.get(key)` is the value of a present parameter and null otherwise |
| QueryParams.GetOr | src/pages/SeatSelection.tsx:32-35 | definition (no contract of its own): `get(key) \|\| fallback` gives the fallback for a missing or empty value; `QueryParams.GetOrEmpty` and the page read-back lemmas use it |
| Location.FormatLocation | src/pages/SeatSelection.tsx:120-125 | same length; each '-' becomes a space; the first character of each segment is upper-cased; nothing else changes |
| Location.Capitalize | src/pages/AvailableBuses.tsx:98 | definition (no contract of its own): `word.charAt(0).toUpperCase() + word.slice(1)`, "" for "" |
| Location.CapitalizeAll | src/pages/AvailableBuses.tsx:98 | mapping the capitalisation over the words keeps their number; the content is given by `Location.FormatIsScan` |
| Location.FormatIsScan | src/pages/SeatSelection.tsx:120-125 | split on '-', capitalise each word and join with a space is the same as the one-pass scan |
| Location.ScanAt | src/pages/AvailableBuses.tsx:95-100 | the scan's character at each position, by the rule above |
| Location.ScanLength | src/pages/Booking.tsx:71-76 | the scan keeps the length |
| Location.FormatLocationEmpty | src/pages/BookingConfirmation.tsx:28-33 | "" formats to "" |
| TimeFormat.JsRem | src/lib/utils.ts:28 | JavaScript's `%` agrees with the modulo on non-negative numbers, stays strictly between -b and b, is never positive for a negative dividend, and differs from the dividend by a multiple of b |
| TimeFormat.FormatTime | src/lib/utils.ts:21-31 | the result is "" exactly for the empty string |
| TimeFormat.DisplayHour | src/lib/utils.ts:28 | definition (no contract of its own): `hour % 12 \|\| 12`, with NaN giving 12; values given by `TimeFormat.DisplayHourOfNat` and `TimeFormat.DisplayHourOfDay` |
| TimeFormat.Meridiem | src/lib/utils.ts:27 | definition (no contract of its own): "PM" from hour 12 on, "AM" below it and for NaN; values given by `TimeFormat.FormatTimeOfClock` |
| TimeFormat.FormatTimeOfClock | src/lib/utils.ts:25-30 | for "HH:MM" the shown hour is in 1..12 and equal to the hour modulo 12, the minutes are copied unchanged, and the suffix is "PM" exactly when the hour is at least 12 |
| TimeFormat.DisplayHourOfNat | src/lib/utils.ts:28 | `hour % 12 \|\| 12` is in 1..12 and congruent to the hour modulo 12 |
| TimeFormat.DisplayHourOfDay | src/lib/utils.ts:27-28 | over 0..23, the hours 0 and 12 show as 12, 13..23 show as hour-12, and "PM" is shown exactly from 12 on |
| TimeFormat.SplitClock | src/lib/utils.ts:25 | "HH:MM" without further colons splits into the two parts |
| TimeFormat.CalculateTimeDifference | src/lib/utils.ts:33-45 | the text is "NaNh NaNm" exactly when one of the two times does not parse |
| TimeFormat.ClockMinutes | src/lib/utils.ts:35-38 | definition (no contract of its own): `split(':').map(Number)` read as hours*60+minutes, NaN when a part is missing or not a number; values given by `TimeFormat.ClockMinutesOf` |
| TimeFormat.DiffMinutes | src/lib/utils.ts:38-39 | definition (no contract of its own): end minus start, plus 24*60 when negative; range and wrap rule given by `TimeFormat.DiffMinutesOfDay` |
| TimeFormat.ClockValue | src/lib/utils.ts:38 | a valid clock time is less than 1440 minutes after midnight |
| TimeFormat.ClockMinutesOf | src/lib/utils.ts:35-36 | a valid "HH:MM" parses to its minutes since midnight |
| TimeFormat.DiffMinutesOfDay | src/lib/utils.ts:38-39 | the difference lies in 0..1439; a day is added only when the end is earlier; equal times give 0; for distinct times the two directions sum to 1440 |
| TimeFormat.TimeDifferenceOfClocks | src/lib/utils.ts:38-44 | for valid times the text is "<h>h <m>m" with h < 24, m < 60 and h*60+m equal to the wrapped difference |
| TimeFormat.SameTimeNoDuration | src/lib/utils.ts:38-44 | equal times give "0h 0m" |
| PopularRoutes.Slugify | src/components/PopularRoutes.tsx:37-38 | the slug contains no white space and is no longer than the name; the run rule of `/\s+/g` is `PopularRoutes.SlugOfRun` |
| PopularRoutes.SlugOfRun | src/components/PopularRoutes.tsx:37 | a whole run of white space (any length, any white-space characters, also at the start or the end) becomes exactly one '-', and the text around it is slugged on its own |
| PopularRoutes.SlugAppend | src/components/PopularRoutes.tsx:37 | text before any white space is only lower-cased |
| PopularRoutes.SlugOfWord | src/components/PopularRoutes.tsx:37 | a text without white space slugs to its lower case |
| PopularRoutes.Routes | src/components/PopularRoutes.tsx:6-31 | definition (no contract of its own): the three routes New York to Boston, Chicago to Detroit and Washington to Philadelphia with their prices, durations and times; their names are the subject of `PopularRoutes.RouteNamesRoundTrip` |
| PopularRoutes.SlugKeepsLetters | src/components/PopularRoutes.tsx:37-38 | the non-space, non-hyphen characters of the slug are those of the name, lower-cased, in order |
| PopularRoutes.SlugOfSingleSpaced | src/components/PopularRoutes.tsx:37-38 | for a name whose only whitespace is single spaces, each followed by a non-space, the slug has the same length, each space becomes '-' and every other character is lower-cased |
| PopularRoutes.TitleCaseSingleSpaced | src/components/PopularRoutes.tsx:37-38 | a name of capitalised words separated by single spaces is single-spaced |
| PopularRoutes.FormatSlugRoundTrip | src/components/PopularRoutes.tsx:37-38 | formatting the slug of a name of capitalised words separated by single spaces gives the name back |
| PopularRoutes.SlugOfSpace | src/components/PopularRoutes.tsx:37-38 | a single space between two words becomes a single '-' |
| PopularRoutes.SlugOfLowerWord | src/components/PopularRoutes.tsx:37-38 | a lower-case word is its own slug |
| PopularRoutes.RouteFromSlugs | src/components/PopularRoutes.tsx:6-31 | the three departure cities slug to new-york, chicago and washington |
| PopularRoutes.RouteToSlugs | src/components/PopularRoutes.tsx:6-31 | the three destinations slug to boston, detroit and philadelphia |
| PopularRoutes.RouteNamesRoundTrip | src/components/PopularRoutes.tsx:6-31 | each route's city names survive slugging and formatting |
| PopularRoutes.IsoDate | src/components/PopularRoutes.tsx:39 | the date part of a timestamp contains no 'T' |
| PopularRoutes.IsoDateOf | src/components/PopularRoutes.tsx:39 | the date part of "<day>T<time>" is the day |
| PopularRoutes.HandleBookNow | src/components/PopularRoutes.tsx:36-42 | opens /available-buses with exactly from, to and date; both slugs are whitespace-free and the date has no 'T' |
| AvailableBuses.BookNowOpensListing | src/pages/AvailableBuses.tsx:27-29 | the listing reads back the two slugs and the day that "Book Now" forwards |
| AvailableBuses.ReadSearch | src/pages/AvailableBuses.tsx:27-29 | definition (no contract of its own): from, to and date read with `get(key) \|\| ""`; read back by `AvailableBuses.BookNowOpensListing` |
| AvailableBuses.MockBuses | src/pages/AvailableBuses.tsx:37-86 | definition (no contract of its own): the four mocked buses with their fields, ratings in tenths; compared with the seat map by `AvailableBuses.ListingMatchesProfiles` |
| AvailableBuses.FullStars | src/pages/AvailableBuses.tsx:104 | definition (no contract of its own): `Math.floor(rating)` as the bound of the full-star loop, none when negative |
| AvailableBuses.HasHalfStar | src/pages/AvailableBuses.tsx:105 | definition (no contract of its own): the fraction of the rating is at least one half |
| AvailableBuses.StarRow | src/pages/AvailableBuses.tsx:102-118 | definition (no contract of its own): full stars, the half star, then empty stars up to five; `AvailableBuses.RenderStars` is proved equal to it and `AvailableBuses.StarsOfRating` counts it |
| AvailableBuses.ListingMatchesProfiles | src/pages/AvailableBuses.tsx:37-86 | the listing is bus1..bus4 in order, and each bus's name, type, times and price match the seat map's profile for that id |
| AvailableBuses.Repeat | src/pages/AvailableBuses.tsx:107-109 | n copies of a star have length n |
| AvailableBuses.RenderStars | src/pages/AvailableBuses.tsx:102-121 | the two loops build exactly the star row of the rating |
| AvailableBuses.RepeatCount | src/pages/AvailableBuses.tsx:107-109 | n copies of a star hold that star n times and nothing else |
| AvailableBuses.StarsOfRating | src/pages/AvailableBuses.tsx:104-118 | for a rating in [0, 5] there are exactly 5 stars: floor(rating) full ones, one half star exactly when the fraction is at least one half, and the rest empty |
| AvailableBuses.StarCounts | src/pages/AvailableBuses.tsx:107-118 | the row holds the full, half and empty stars in the numbers pushed |
| AvailableBuses.SixStarsAboveFive | src/pages/AvailableBuses.tsx:115-118 | a rating from 5.5 to 5.9 draws five full stars and a half star, and no empty one |
| AvailableBuses.ListedBusesDrawFiveStars | src/pages/AvailableBuses.tsx:48 | every listed bus draws five stars |
| AvailableBuses.HandleViewSeats | src/pages/AvailableBuses.tsx:91-93 | opens /seat-selection with exactly busId, from, to and date |
| AvailableBuses.ViewSeatsRoundTrip | src/pages/AvailableBuses.tsx:91-93 | the seat map reads back the bus id, route and date unchanged |
| SeatSelection.MockBusInfo | src/pages/SeatSelection.tsx:46-64 | the profile keeps the requested id |
| SeatSelection.SeatId | src/pages/SeatSelection.tsx:82 | definition (no contract of its own): "seat-" followed by the position; distinctness is `SeatSelection.SeatIdInjective` |
| SeatSelection.IsLayout | src/pages/SeatSelection.tsx:72-88 | definition (no contract of its own): one seat per position 1..totalSeats with its id, number, drawn flag and the bus's price; `SeatSelection.GenerateSeats` is proved to build it |
| SeatSelection.BusProfiles | src/pages/SeatSelection.tsx:60-63 | 36 seats for bus3 and 40 otherwise; prices 42, 28, 22 for bus3, bus2, bus4 and 35 otherwise, including unknown ids |
| SeatSelection.RowOf | src/pages/SeatSelection.tsx:74 | the row of seat i is ceil(i/4) |
| SeatSelection.PositionLetter | src/pages/SeatSelection.tsx:75 | the position letter is one of A, B, C, D |
| SeatSelection.SeatNumber | src/pages/SeatSelection.tsx:76 | a seat number has at least two characters and no comma |
| SeatSelection.SeatNumberOfRow | src/pages/SeatSelection.tsx:74-76 | seat 4q+p is numbered q+1 followed by the p-th letter of ABCD |
| SeatSelection.SeatNumberInjective | src/pages/SeatSelection.tsx:74-76 | distinct seats have distinct numbers |
| SeatSelection.SeatIdInjective | src/pages/SeatSelection.tsx:82 | distinct seats have distinct ids |
| SeatSelection.LayoutDistinct | src/pages/SeatSelection.tsx:72-87 | the generated seats have pairwise distinct ids and numbers |
| SeatSelection.GenerateSeats | src/pages/SeatSelection.tsx:69-87 | exactly totalSeats seats; seat i has id seat-i, its number, the i-th booked flag and the bus's seat price; ids and numbers are distinct |
| SeatSelection.FindSeat | src/pages/SeatSelection.tsx:113 | finds a seat with the id, and finds none exactly when no seat has it |
| SeatSelection.FindSeatAt | src/pages/SeatSelection.tsx:113 | with distinct ids, looking up a seat's id finds that seat |
| SeatSelection.FindInLayout | src/pages/SeatSelection.tsx:72-87 | looking up seat-i in the layout finds seat i with its number, flag and price |
| SeatSelection.RemoveAll | src/pages/SeatSelection.tsx:98 | the filter keeps exactly the other ids |
| SeatSelection.RemoveAbsent | src/pages/SeatSelection.tsx:98 | removing an absent id changes nothing |
| SeatSelection.RemoveAppend | src/pages/SeatSelection.tsx:98 | the filter keeps order: it distributes over concatenation |
| SeatSelection.RemoveKeepsDistinct | src/pages/SeatSelection.tsx:98 | removal keeps a selection free of duplicates |
| SeatSelection.RemoveMultiset | src/pages/SeatSelection.tsx:98 | removal drops every occurrence of the id and nothing else |
| SeatSelection.Toggled | src/pages/SeatSelection.tsx:94-102 | a booked seat leaves the selection unchanged; otherwise exactly the toggled id's membership flips |
| SeatSelection.ToggleKeepsDistinct | src/pages/SeatSelection.tsx:97-101 | toggling never creates a duplicate |
| SeatSelection.ToggleTwiceRestores | src/pages/SeatSelection.tsx:97-101 | toggling an unselected free seat twice restores the exact selection |
| SeatSelection.ToggleTwiceMovesToEnd | src/pages/SeatSelection.tsx:97-101 | toggling a selected seat twice keeps the same multiset of seats but moves that seat to the end |
| SeatSelection.SumOfUniformPrices | src/pages/SeatSelection.tsx:104-107 | when every seat has the same price, the selected seats' prices add up to count times price |
| SeatSelection.PriceOf | src/pages/SeatSelection.tsx:104-107 | definition (no contract of its own): the price of the seat with an id, 0 when there is none |
| SeatSelection.SumOfPrices | src/pages/SeatSelection.tsx:104-107 | definition (no contract of its own): the selected seats' own prices added up; `SeatSelection.SeatSelectionPage.TotalIsSumOfPrices` equates it with the page's total |
| SeatSelection.SelectedSeatNumbers | src/pages/SeatSelection.tsx:112-115 | the mapped and filtered seat numbers contain no empty string |
| SeatSelection.SeatNumbersInOrder | src/pages/SeatSelection.tsx:112-115 | when every id is found, there is one number per selected id, in selection order |
| SeatSelection.ForwardedSeats | src/pages/SeatSelection.tsx:112-117 | the comma-joined numbers split back into the numbers, one per selected seat, in order |
| SeatSelection.LayoutBookedFlags | src/pages/SeatSelection.tsx:79-86 | a generated seat map carries exactly the booked flags it was drawn with, so it is the layout of its own flags |
| SeatSelection.LayoutNumbers | src/pages/SeatSelection.tsx:81-86 | every generated seat has a non-empty, comma-free number and the bus's price |
| SeatSelection.SeatSelectionPage.constructor | src/pages/SeatSelection.tsx:32-40 | bus id and route come from the query; the page starts loading, with no bus, seats or selection |
| SeatSelection.SeatSelectionPage.FinishLoading | src/pages/SeatSelection.tsx:44-91 | the bus profile for the id is set, the seats are its layout for the booked flags, and loading ends |
| SeatSelection.SeatSelectionPage.ToggleSeatSelection | src/pages/SeatSelection.tsx:94-102 | the selection becomes the toggled selection, and the page invariant (no duplicates, no booked seat, only existing seats) is kept |
| SeatSelection.SeatSelectionPage.CalculateTotalPrice | src/pages/SeatSelection.tsx:104-107 | the total is 0 without a bus or without a selection |
| SeatSelection.SeatSelectionPage.TotalIsSumOfPrices | src/pages/SeatSelection.tsx:104-107 | the total equals the sum of the selected seats' own prices |
| SeatSelection.SeatSelectionPage.HandleProceedToPayment | src/pages/SeatSelection.tsx:109-118 | nothing happens exactly when nothing is selected; otherwise opens /booking with busId, from, to, date, seats and price |
| SeatSelection.SeatSelectionPage.ProceedForwardsSelection | src/pages/SeatSelection.tsx:109-117 | the forwarded seats split into the selected seats' numbers in selection order, the price reads as the total, and bus id, route and date are forwarded unchanged |
| SeatSelection.SeatSelectionPage.BookedSeatsNeverSelected | src/pages/SeatSelection.tsx:95 | a booked seat is never in the selection |
| Booking.ReadSeats | src/pages/Booking.tsx:29 | no seats exactly when the parameter is missing; otherwise the parts are comma-free and join back to the parameter |
| Booking.ReadTrip | src/pages/Booking.tsx:24-30 | a missing bus id, route or date reads as "", a present one as it is; a missing or empty price reads as "0" |
| Booking.ProceedOpensBooking | src/pages/Booking.tsx:24-30 | after proceeding from the seat map, the booking page has the same bus, route and date, one seat number per selected seat in order, and a price that reads as the total |
| Booking.WithField | src/pages/Booking.tsx:42-48 | the named field takes the value and the other fields keep theirs |
| Booking.BookingReference | src/pages/Booking.tsx:65 | the reference starts with "BT-" followed by at least one character |
| Booking.BookingReferenceDigits | src/pages/Booking.tsx:65 | after "BT-" come at most six digits spelling the timestamp modulo 1000000; exactly six from 100000 on |
| Booking.ConfirmationNavigation | src/pages/Booking.tsx:67 | opens /booking-confirmation with reference, busId, from, to, date, seats, price, name, email and phone; the address is not forwarded |
| Booking.BookingPage.constructor | src/pages/Booking.tsx:24-40 | the trip comes from the query; the form is blank, with terms unticked and no submit under way |
| Booking.BookingPage.HandleInputChange | src/pages/Booking.tsx:42-48 | only the named passenger field changes |
| Booking.BookingPage.SetAgreedToTerms | src/pages/Booking.tsx:155-156 | the checkbox sets the terms flag |
| Booking.Filled | src/pages/Booking.tsx:111 | definition (no contract of its own): none of the four `required` inputs (lines 111, 123, 135, 146) is empty |
| Booking.BookingPage.HandleSubmit | src/pages/Booking.tsx:50-59 | runs only on a filled-in form; without agreement, only the terms error is reported and nothing changes; with it, submitting starts with the current details captured |
| Booking.BookingPage.FinishSubmit | src/pages/Booking.tsx:61-68 | submitting ends and the confirmation page opens with a reference from the clock and the details captured at submit time |
| Booking.SubmitFlow | src/pages/Booking.tsx:50-69 | with agreement, a submit followed by its timer ends not submitting, on the confirmation page with the details as they were when submitted |
| MyTickets.FilterTickets | src/pages/MyTickets.tsx:112-114 | a ticket is in the result exactly when it is in the list and has the status; the result is no longer than the list |
| MyTickets.FilterConcat | src/pages/MyTickets.tsx:112-114 | filtering keeps the original order: it distributes over concatenation |
| MyTickets.FilterUnknownStatus | src/pages/MyTickets.tsx:112-114 | a status other than the three names filters to nothing |
| MyTickets.StatusTabsPartition | src/pages/MyTickets.tsx:201-209 | the upcoming, completed and cancelled lists together are as long as the whole list |
| MyTickets.StatusNameInjective | src/pages/MyTickets.tsx:21 | the three status strings are pairwise distinct, so a status name determines the status |
| MyTickets.FilterLength | src/pages/MyTickets.tsx:112-114 | a status tab lists exactly as many tickets as have that status |
| MyTickets.TabTickets | src/pages/MyTickets.tsx:198-209 | the "all" tab shows the whole list; each other tab shows exactly the tickets with its status |
| MyTickets.MockTicketTabs | src/pages/MyTickets.tsx:32-88 | the five mocked tickets split into two upcoming, two completed and one cancelled |
| MyTickets.MockTickets | src/pages/MyTickets.tsx:32-88 | definition (no contract of its own): the five mocked tickets with their fields |
| MyTickets.GetStatusBadge | src/pages/MyTickets.tsx:99-110 | there is no badge exactly for a string other than the three statuses; the destructive badge is exactly the cancelled one |
| MyTickets.EveryTicketHasBadge | src/pages/MyTickets.tsx:99-110 | each ticket's status has a badge, labelled with the status name capitalised |
| MyTickets.HandleViewTicket | src/pages/MyTickets.tsx:95-97 | opens /booking-confirmation with the booking reference and no other parameter |
| MyTickets.RenderTicketList | src/pages/MyTickets.tsx:116-123 | "No tickets found" exactly for an empty list; otherwise one card per ticket in order, each carrying its reference and View Ticket target |
| MyTickets.TicketCard | src/pages/MyTickets.tsx:125-164 | definition (no contract of its own): a card's reference, badge, "from to to" route, seats joined with ", " and View Ticket target |
| Register.WithField | src/pages/Register.tsx:25-31 | the named field takes the value and the other fields keep theirs |
| Register.RegistrationError | src/pages/Register.tsx:36-45 | a password mismatch is reported whatever the terms; the terms error only when the passwords are equal; no error exactly when both checks pass |
| Register.RegisterPage.constructor | src/pages/Register.tsx:15-23 | the form is blank, with terms unticked and not loading |
| Register.RegisterPage.HandleInputChange | src/pages/Register.tsx:25-31 | only the named form field changes |
| Register.RegisterPage.SetAgreedToTerms | src/pages/Register.tsx:22 | the checkbox sets the terms flag |
| Register.Filled | src/pages/Register.tsx:80 | definition (no contract of its own): none of the five `required` inputs (lines 80, 92, 104, 116, 128) is empty |
| Register.RegisterPage.HandleSubmit | src/pages/Register.tsx:33-47 | runs only on a filled-in form; reports the guard's error, with only the loading flag changeable, and loading starts exactly when there is no error |
| Register.RegisterPage.FinishRegistration | src/pages/Register.tsx:50-54 | loading ends with the success message and the /login page |
| BookingConfirmation.ReadConfirmation | src/pages/BookingConfirmation.tsx:16-24 | missing text fields read as ""; a missing or empty price reads as "0"; a missing seats parameter gives no seats and an empty one gives one empty seat |
| BookingConfirmation.SeatsDisplayOfQuery | src/pages/BookingConfirmation.tsx:109 | the shown seat list is the parameter with each comma widened to ", " |
| BookingConfirmation.SeatsDisplay | src/pages/BookingConfirmation.tsx:109 | definition (no contract of its own): the seats joined with ", "; its value from the query is `BookingConfirmation.SeatsDisplayOfQuery` |
| BookingConfirmation.ConfirmationReadsBack | src/pages/BookingConfirmation.tsx:16-24 | the page reads back every field the booking page forwards, and the seats as the split of the joined list |
| BookingConfirmation.BookingHandOff | src/pages/Booking.tsx:67 | after a booking, the confirmation shows its reference, route, date, price, name, e-mail and phone, and its seats when the booking page had a seats parameter (one empty seat when it had none) |
| BookingConfirmation.ViewTicketShowsDefaults | src/pages/MyTickets.tsx:95-97 | opened from "View Ticket", the page shows the reference, no seats, price "0" and blank other fields |
| BookingConfirmation.ConfirmationPage.constructor | src/pages/BookingConfirmation.tsx:16-26 | the page reads the query and is not downloading |
| BookingConfirmation.ConfirmationPage.HandleDownloadTicket | src/pages/BookingConfirmation.tsx:39-40 | the download flag goes up |
| BookingConfirmation.ConfirmationPage.FinishDownload | src/pages/BookingConfirmation.tsx:43-46 | the flag clears with the success message; there is no failure path |

## Left out

- Rendering is not modelled: all markup, layout, icons and the `cn` class-name helper. `MyTickets.RenderTicketList` keeps only the empty-list message and, per card, the reference, badge, route, seats and View Ticket target.
- The header, footer, hero section, router table and home-page search form are left out; they are static markup or one-line URL templates.
- URL percent-encoding is not modelled. Queries are maps of already decoded values. In particular a value containing '&' or '=', which the pages interpolate unencoded into the URL, is not modelled.
- Foreign calls are not modelled: `navigate` becomes a returned `Navigation`, `toast` a returned message, and `window.print` (`handlePrint`) is left out.
- `formatDate` is left out; it depends on `Date` parsing and the locale.
- Timers are not modelled as time. Each `setTimeout` is a pair of methods for the state before and after it. The loading flags of the bus listing and the tickets page, which only flip once when their fixed data arrive, are left out. The fixed data are the functions `MockBuses` and `MockTickets`.
- Randomness: the booked flags are an input sequence with one flag per seat, and the random barcode is left out.
- Floating-point values are not modelled. The per-seat price (src/pages/Booking.tsx:208) and `toFixed(2)` prices are left out. Ratings are integer tenths, so `Math.floor` and the fraction test are exact.
- Case mapping covers ASCII letters only. `parseInt` covers whitespace, sign and decimal digits. `Number` covers strings of decimal digits, and anything else counts as NaN; for example " 7" and "1e3", which JavaScript reads as numbers, are NaN here.
- `SeatSelection.GenerateSeats`: requires as many booked flags as seats, because the random source supplies one flag per seat.
- `SeatSelection.SeatSelectionPage.ToggleSeatSelection`: requires the id of an existing seat and that seat's own booked flag, which is what the seat grid passes; `SeatSelection.Toggled` covers arbitrary arguments.
- `Booking.BookingPage.HandleSubmit`, `Register.RegisterPage.HandleSubmit` and `BookingConfirmation.ConfirmationPage.HandleDownloadTicket`: require that the action is not already under way, because the buttons are disabled meanwhile (src/pages/Booking.tsx:170, src/pages/Register.tsx:156, src/pages/BookingConfirmation.tsx:164).
- `Booking.BookingPage.HandleSubmit`: requires all four passenger inputs to be non-empty, because they are marked `required` and the browser does not submit the form otherwise (src/pages/Booking.tsx:111, 123, 135, 146); `Booking.SubmitFlow` inherits this. The browser's format check of the `type="email"` input (src/pages/Booking.tsx:119) is not modelled, so a filled-in but malformed e-mail is accepted here.
- `Register.RegisterPage.HandleSubmit`: requires all five inputs to be non-empty, for the same reason (src/pages/Register.tsx:80, 92, 104, 116, 128). The format check of the `type="email"` input (src/pages/Register.tsx:88) is not modelled either.
- `Strings.TakeLast`: models `slice(-k)` only for k at least 1 (the page calls it with 6); `slice(-0)`, which returns the whole string, is not modelled.
- The form inputs' `name` attributes are modelled as an enumeration of the fields present, so the `[name]: value` update of an arbitrary key is not modelled. The checkbox's "indeterminate" value is not modelled either.
