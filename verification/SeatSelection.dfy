/**
 * The seat-selection page: the bus profile looked up from the bus id, the
 * generated seat map (four seats a row, numbered "1A", "1B", ...), the
 * selection of seat ids the passenger toggles, the total price and the
 * hand-off to the booking page.
 */
module SeatSelection {
  import opened Wrappers
  import opened Strings
  import opened QueryParams

  // ---------------------------------------------------------------------
  // Bus profile

  datatype BusInfo = BusInfo(
    id: string, name: string, busType: string,
    departureTime: string, arrivalTime: string,
    totalSeats: nat, seatPrice: nat)

  /**
   * The mocked profile of a bus: bus2, bus3 and bus4 have their own
   * profiles, every other id (bus1 included) gets the Express Liner one.
   * bus3 has 36 seats and every other bus 40.
   */
  function MockBusInfo(busId: string): (info: BusInfo)
    ensures info.id == busId
  {
    BusInfo(
      busId,
      if busId == "bus3" then "Royal Travels"
      else if busId == "bus2" then "City Connector"
      else if busId == "bus4" then "Budget Express" else "Express Liner",
      if busId == "bus3" then "Premium"
      else if busId == "bus2" then "Standard"
      else if busId == "bus4" then "Economy" else "Luxury",
      if busId == "bus2" then "09:15 AM"
      else if busId == "bus3" then "11:30 AM"
      else if busId == "bus4" then "01:00 PM" else "07:00 AM",
      if busId == "bus2" then "02:30 PM"
      else if busId == "bus3" then "03:45 PM"
      else if busId == "bus4" then "06:00 PM" else "11:30 AM",
      if busId == "bus3" then 36 else 40,
      if busId == "bus3" then 42
      else if busId == "bus2" then 28
      else if busId == "bus4" then 22 else 35)
  }

  /**
   * bus3 has 36 seats at 42 and every other bus 40 seats, at 28 for bus2,
   * 22 for bus4 and 35 otherwise; so every bus has 9 or 10 full rows of
   * four seats, and any id other than bus2, bus3 and bus4 gets the same
   * profile as bus1 apart from the id.
   */
  lemma BusProfiles(busId: string)
    ensures var info := MockBusInfo(busId);
      && info.totalSeats == (if busId == "bus3" then 36 else 40)
      && info.seatPrice == (if busId == "bus3" then 42 else if busId == "bus2" then 28
                            else if busId == "bus4" then 22 else 35)
      && info.totalSeats % 4 == 0
      && 9 <= info.totalSeats / 4 <= 10
      && (busId !in {"bus2", "bus3", "bus4"} ==> info == MockBusInfo("bus1").(id := busId))
  {
  }

  // ---------------------------------------------------------------------
  // Seat numbering

  datatype Seat = Seat(id: string, number: string, isBooked: bool, price: nat)

  /** `Math.ceil(i / 4)`: the row of the i-th seat (counting from 1). */
  function RowOf(i: nat): (row: nat)
    requires i >= 1
    ensures row >= 1 && 4 * (row - 1) < i <= 4 * row
  {
    (i + 3) / 4
  }

  /** The seat's letter within its row: A, B, C, D for i % 4 = 1, 2, 3, 0. */
  function PositionLetter(i: nat): (c: char)
    ensures c in "ABCD"
  {
    if i % 4 == 1 then 'A' else if i % 4 == 2 then 'B' else if i % 4 == 3 then 'C' else 'D'
  }

  /** The printed number of the i-th seat: row then letter, "1A" .. "10D". */
  function SeatNumber(i: nat): (number: string)
    requires i >= 1
    ensures |number| >= 2 && ',' !in number
  {
    NatToString(RowOf(i)) + [PositionLetter(i)]
  }

  /** The id of the i-th seat: "seat-1", "seat-2", ... */
  function SeatId(i: nat): string {
    "seat-" + NatToString(i)
  }

  /**
   * Seat 4q+p, for p in 1..4, is numbered q+1 followed by the p-th of the
   * letters A, B, C, D.
   */
  lemma SeatNumberOfRow(q: nat, p: nat)
    requires 1 <= p <= 4
    ensures SeatNumber(4 * q + p) == NatToString(q + 1) + ["ABCD"[p - 1]]
  {
    RowOfRow(q, p);
    LetterOfRow(q, p);
  }

  lemma RowOfRow(q: nat, p: nat)
    requires 1 <= p <= 4
    ensures RowOf(4 * q + p) == q + 1
  {
  }

  lemma LetterOfRow(q: nat, p: nat)
    requires 1 <= p <= 4
    ensures PositionLetter(4 * q + p) == "ABCD"[p - 1]
  {
    assert (4 * q + p) % 4 == p % 4;
  }

  /** Distinct seats have distinct numbers. */
  lemma SeatNumberInjective(i: nat, j: nat)
    requires i >= 1 && j >= 1
    ensures SeatNumber(i) == SeatNumber(j) ==> i == j
  {
    if SeatNumber(i) == SeatNumber(j) {
      var a, b := NatToString(RowOf(i)), NatToString(RowOf(j));
      assert |a| == |b|;
      assert PositionLetter(i) == SeatNumber(i)[|a|] == SeatNumber(j)[|b|] == PositionLetter(j);
      assert a == SeatNumber(i)[..|a|] && b == SeatNumber(j)[..|b|];
      NatToStringInjective(RowOf(i), RowOf(j));
      assert i % 4 == j % 4;
    }
  }

  /** Distinct seats have distinct ids. */
  lemma SeatIdInjective(i: nat, j: nat)
    ensures SeatId(i) == SeatId(j) ==> i == j
  {
    if SeatId(i) == SeatId(j) {
      assert SeatId(i)[5..] == NatToString(i);
      assert SeatId(j)[5..] == NatToString(j);
      NatToStringInjective(i, j);
    }
  }

  // ---------------------------------------------------------------------
  // Seat generation

  /**
   * The seat map of a bus, given the booked flag drawn for each seat: seat
   * k (from 0) has id SeatId(k+1), number SeatNumber(k+1), the bus's price
   * and the k-th flag.
   */
  predicate IsLayout(seats: seq<Seat>, info: BusInfo, booked: seq<bool>) {
    && |seats| == info.totalSeats == |booked|
    && forall k :: 0 <= k < |seats| ==>
         seats[k] == Seat(SeatId(k + 1), SeatNumber(k + 1), booked[k], info.seatPrice)
  }

  /** No two seats share an id, and no two share a number. */
  predicate DistinctSeats(seats: seq<Seat>) {
    forall a, b :: 0 <= a < b < |seats| ==> seats[a].id != seats[b].id && seats[a].number != seats[b].number
  }

  lemma LayoutDistinct(seats: seq<Seat>, info: BusInfo, booked: seq<bool>)
    requires IsLayout(seats, info, booked)
    ensures DistinctSeats(seats)
  {
    forall a, b | 0 <= a < b < |seats|
      ensures seats[a].id != seats[b].id && seats[a].number != seats[b].number
    {
      SeatIdInjective(a + 1, b + 1);
      SeatNumberInjective(a + 1, b + 1);
    }
  }

  /**
   * The generation loop: one seat per position 1..totalSeats, where
   * `booked[i-1]` stands for the random draw `Math.random() < 0.3` of seat
   * i. The result is the layout, with distinct ids and distinct numbers.
   */
  method GenerateSeats(info: BusInfo, booked: seq<bool>) returns (seats: seq<Seat>)
    requires |booked| == info.totalSeats
    ensures IsLayout(seats, info, booked)
    ensures DistinctSeats(seats)
  {
    seats := [];
    var i := 1;
    while i <= info.totalSeats
      invariant 1 <= i <= info.totalSeats + 1
      invariant |seats| == i - 1
      invariant forall k :: 0 <= k < |seats| ==>
        seats[k] == Seat(SeatId(k + 1), SeatNumber(k + 1), booked[k], info.seatPrice)
    {
      var row := RowOf(i);
      var position := PositionLetter(i);
      var seatNumber := NatToString(row) + [position];
      seats := seats + [Seat("seat-" + NatToString(i), seatNumber, booked[i - 1], info.seatPrice)];
      i := i + 1;
    }
    LayoutDistinct(seats, info, booked);
  }

  // ---------------------------------------------------------------------
  // Looking seats up by id

  /** `seats.find(s => s.id === id)`: the first seat with that id, if any. */
  function FindSeat(seats: seq<Seat>, id: string): (r: Option<Seat>)
    ensures r.None? <==> forall k :: 0 <= k < |seats| ==> seats[k].id != id
    ensures r.Some? ==> r.value in seats && r.value.id == id
    decreases |seats|
  {
    if seats == [] then None
    else if seats[0].id == id then Some(seats[0])
    else FindSeat(seats[1..], id)
  }

  /** In a map of distinct ids, looking up the k-th seat's id finds the k-th seat. */
  lemma {:induction false} FindSeatAt(seats: seq<Seat>, k: nat)
    requires k < |seats| && DistinctSeats(seats)
    ensures FindSeat(seats, seats[k].id) == Some(seats[k])
    decreases k
  {
    if k > 0 {
      assert seats[0].id != seats[k].id;
      assert DistinctSeats(seats[1..]) by {
        forall a, b | 0 <= a < b < |seats| - 1
          ensures seats[1..][a].id != seats[1..][b].id && seats[1..][a].number != seats[1..][b].number
        {
          assert seats[1..][a] == seats[a + 1] && seats[1..][b] == seats[b + 1];
        }
      }
      FindSeatAt(seats[1..], k - 1);
      assert seats[1..][k - 1] == seats[k];
    }
  }

  /** Seat `SeatId(i)` of the layout is the i-th seat. */
  lemma FindInLayout(seats: seq<Seat>, info: BusInfo, booked: seq<bool>, i: nat)
    requires IsLayout(seats, info, booked) && 1 <= i <= |seats|
    ensures FindSeat(seats, SeatId(i)) == Some(Seat(SeatId(i), SeatNumber(i), booked[i - 1], info.seatPrice))
  {
    LayoutDistinct(seats, info, booked);
    FindSeatAt(seats, i - 1);
  }

  // ---------------------------------------------------------------------
  // The selection: a sequence of seat ids

  predicate NoDuplicates(ids: seq<string>) {
    forall a, b :: 0 <= a < b < |ids| ==> ids[a] != ids[b]
  }

  /** `ids.filter(x => x !== id)` */
  function RemoveAll(ids: seq<string>, id: string): (r: seq<string>)
    ensures forall x :: x in r <==> x in ids && x != id
    ensures |r| <= |ids|
    decreases |ids|
  {
    if ids == [] then []
    else (if ids[0] == id then [] else [ids[0]]) + RemoveAll(ids[1..], id)
  }

  /** Removing an id that is not there changes nothing. */
  lemma {:induction false} RemoveAbsent(ids: seq<string>, id: string)
    requires id !in ids
    ensures RemoveAll(ids, id) == ids
    decreases |ids|
  {
    if ids != [] {
      RemoveAbsent(ids[1..], id);
      assert [ids[0]] + ids[1..] == ids;
    }
  }

  /** Removal works piecewise, so the ids that stay keep their order. */
  lemma {:induction false} RemoveAppend(a: seq<string>, b: seq<string>, id: string)
    ensures RemoveAll(a + b, id) == RemoveAll(a, id) + RemoveAll(b, id)
    decreases |a|
  {
    if a != [] {
      RemoveAppend(a[1..], b, id);
      assert (a + b)[1..] == a[1..] + b;
    } else {
      assert a + b == b;
    }
  }

  lemma {:induction false} RemoveKeepsDistinct(ids: seq<string>, id: string)
    requires NoDuplicates(ids)
    ensures NoDuplicates(RemoveAll(ids, id))
    decreases |ids|
  {
    if ids != [] {
      var tail := ids[1..];
      assert NoDuplicates(tail) by {
        forall a, b | 0 <= a < b < |tail| ensures tail[a] != tail[b] {
          assert tail[a] == ids[a + 1] && tail[b] == ids[b + 1];
        }
      }
      RemoveKeepsDistinct(tail, id);
      assert ids[0] !in tail by {
        forall k | 0 <= k < |tail| ensures tail[k] != ids[0] {
          assert tail[k] == ids[k + 1];
        }
      }
      var rest := RemoveAll(tail, id);
      assert ids[0] !in rest;
      var head: seq<string> := if ids[0] == id then [] else [ids[0]];
      forall a, b | 0 <= a < b < |head + rest| ensures (head + rest)[a] != (head + rest)[b] {
        if a >= |head| {
          assert (head + rest)[a] == rest[a - |head|] && (head + rest)[b] == rest[b - |head|];
        } else {
          assert (head + rest)[b] == rest[b - 1];
        }
      }
    }
  }

  /** The number of times x occurs after removing id: none for id, unchanged for the others. */
  lemma {:induction false} RemoveMultiset(ids: seq<string>, id: string)
    ensures multiset(RemoveAll(ids, id)) == multiset(ids)[id := 0]
    decreases |ids|
  {
    if ids != [] {
      RemoveMultiset(ids[1..], id);
      assert ids == [ids[0]] + ids[1..];
    }
  }

  lemma {:induction false} DistinctOccursOnce(ids: seq<string>, x: string)
    requires NoDuplicates(ids) && x in ids
    ensures multiset(ids)[x] == 1
    decreases |ids|
  {
    var tail := ids[1..];
    assert ids == [ids[0]] + tail;
    assert NoDuplicates(tail) by {
      forall a, b | 0 <= a < b < |tail| ensures tail[a] != tail[b] {
        assert tail[a] == ids[a + 1] && tail[b] == ids[b + 1];
      }
    }
    if ids[0] == x {
      assert x !in tail by {
        forall k | 0 <= k < |tail| ensures tail[k] != x {
          assert tail[k] == ids[k + 1];
        }
      }
    } else {
      DistinctOccursOnce(tail, x);
    }
  }

  /**
   * `toggleSeatSelection(seatId, isBooked)` on the selection: a booked seat
   * leaves it as it is; otherwise the seat's id is removed when present and
   * appended when absent. Exactly the membership of that id flips.
   */
  function Toggled(selected: seq<string>, seatId: string, isBooked: bool): (r: seq<string>)
    ensures isBooked ==> r == selected
    ensures !isBooked ==> forall x :: x in r <==> if x == seatId then seatId !in selected else x in selected
  {
    if isBooked then selected
    else if seatId in selected then RemoveAll(selected, seatId)
    else selected + [seatId]
  }

  /** A selection without repeated ids keeps that property under every toggle. */
  lemma ToggleKeepsDistinct(selected: seq<string>, seatId: string, isBooked: bool)
    requires NoDuplicates(selected)
    ensures NoDuplicates(Toggled(selected, seatId, isBooked))
  {
    if !isBooked {
      if seatId in selected {
        RemoveKeepsDistinct(selected, seatId);
      } else {
        var r := selected + [seatId];
        forall a, b | 0 <= a < b < |r| ensures r[a] != r[b] {
          if b == |selected| {
            assert r[a] == selected[a];
          }
        }
      }
    }
  }

  /** Toggling a free seat that is not selected, twice, gives back exactly the same selection. */
  lemma ToggleTwiceRestores(selected: seq<string>, seatId: string)
    requires seatId !in selected
    ensures Toggled(Toggled(selected, seatId, false), seatId, false) == selected
  {
    assert seatId in selected + [seatId];
    RemoveAppend(selected, [seatId], seatId);
    RemoveAbsent(selected, seatId);
    assert RemoveAll([seatId], seatId) == [];
    assert selected + [] == selected;
  }

  /**
   * Toggling a selected seat twice keeps the same seats selected, each
   * once, but the seat moves to the end and the others keep their order.
   */
  lemma ToggleTwiceMovesToEnd(selected: seq<string>, seatId: string)
    requires NoDuplicates(selected) && seatId in selected
    ensures Toggled(Toggled(selected, seatId, false), seatId, false) == RemoveAll(selected, seatId) + [seatId]
    ensures multiset(Toggled(Toggled(selected, seatId, false), seatId, false)) == multiset(selected)
  {
    var once := RemoveAll(selected, seatId);
    assert seatId !in once;
    RemoveMultiset(selected, seatId);
    DistinctOccursOnce(selected, seatId);
    assert multiset(once + [seatId]) == multiset(once) + multiset{seatId};
  }

  // ---------------------------------------------------------------------
  // What the selection is worth and what it forwards

  /** The price of the seat with this id, 0 when no seat has it. */
  function PriceOf(seats: seq<Seat>, id: string): nat {
    match FindSeat(seats, id)
    case Some(seat) => seat.price
    case None => 0
  }

  /** The sum of the prices of the selected seats, seat by seat. */
  function SumOfPrices(seats: seq<Seat>, ids: seq<string>): nat
    decreases |ids|
  {
    if ids == [] then 0 else PriceOf(seats, ids[0]) + SumOfPrices(seats, ids[1..])
  }

  /** When every selected id names a seat and every seat costs `price`, the sum is count times price. */
  lemma {:induction false} SumOfUniformPrices(seats: seq<Seat>, ids: seq<string>, price: nat)
    requires forall k :: 0 <= k < |seats| ==> seats[k].price == price
    requires forall id :: id in ids ==> FindSeat(seats, id).Some?
    ensures SumOfPrices(seats, ids) == |ids| * price
    decreases |ids|
  {
    if ids != [] {
      assert ids[0] in ids;
      SumOfUniformPrices(seats, ids[1..], price);
    }
  }

  /**
   * `selectedSeats.map(id => seats.find(...)?.number ?? "").filter(Boolean)`:
   * the printed numbers of the selected seats, in selection order, without
   * the empty strings of ids that name no seat.
   */
  function SelectedSeatNumbers(seats: seq<Seat>, ids: seq<string>): (numbers: seq<string>)
    ensures forall k :: 0 <= k < |numbers| ==> numbers[k] != ""
    decreases |ids|
  {
    if ids == [] then []
    else
      var number := match FindSeat(seats, ids[0]) case Some(seat) => seat.number case None => "";
      (if number == "" then [] else [number]) + SelectedSeatNumbers(seats, ids[1..])
  }

  /** When every id names a seat with a non-empty number, there is one number per id, in order. */
  lemma {:induction false} SeatNumbersInOrder(seats: seq<Seat>, ids: seq<string>)
    requires forall id :: id in ids ==> FindSeat(seats, id).Some? && FindSeat(seats, id).value.number != ""
    ensures |SelectedSeatNumbers(seats, ids)| == |ids|
    ensures forall k :: 0 <= k < |ids| ==> SelectedSeatNumbers(seats, ids)[k] == FindSeat(seats, ids[k]).value.number
    decreases |ids|
  {
    if ids != [] {
      assert ids[0] in ids;
      SeatNumbersInOrder(seats, ids[1..]);
      var numbers := SelectedSeatNumbers(seats, ids);
      assert numbers == [FindSeat(seats, ids[0]).value.number] + SelectedSeatNumbers(seats, ids[1..]);
      forall k | 0 <= k < |ids| ensures numbers[k] == FindSeat(seats, ids[k]).value.number {
        if k > 0 {
          assert ids[1..][k - 1] == ids[k];
        }
      }
    }
  }

  /**
   * Seat numbers of a layout forwarded as one comma-joined string split
   * back into one number per selected id, in selection order.
   */
  lemma ForwardedSeats(seats: seq<Seat>, info: BusInfo, booked: seq<bool>, ids: seq<string>)
    requires IsLayout(seats, info, booked) && ids != []
    requires forall id :: id in ids ==> FindSeat(seats, id).Some?
    ensures var numbers := SelectedSeatNumbers(seats, ids);
      && Split(Join(numbers, ","), ',') == numbers
      && |numbers| == |ids|
      && forall k :: 0 <= k < |ids| ==> numbers[k] == FindSeat(seats, ids[k]).value.number
  {
    forall id | id in ids
      ensures FindSeat(seats, id).value.number != "" && ',' !in FindSeat(seats, id).value.number
    {
      LayoutNumbers(seats, info, booked, FindSeat(seats, id).value);
    }
    SeatNumbersInOrder(seats, ids);
    var numbers := SelectedSeatNumbers(seats, ids);
    forall k | 0 <= k < |numbers| ensures ',' !in numbers[k] {
      assert ids[k] in ids;
    }
    SplitJoin(numbers, ',');
  }

  /** The booked flags of a seat map, seat by seat. */
  function BookedFlags(seats: seq<Seat>): (booked: seq<bool>)
    ensures |booked| == |seats|
    ensures forall k :: 0 <= k < |seats| ==> booked[k] == seats[k].isBooked
  {
    seq(|seats|, k requires 0 <= k < |seats| => seats[k].isBooked)
  }

  /**
   * A seat map is the layout of exactly one draw of booked flags: the
   * flags it was generated from are the ones its seats carry.
   */
  lemma LayoutBookedFlags(seats: seq<Seat>, info: BusInfo, booked: seq<bool>)
    requires IsLayout(seats, info, booked)
    ensures BookedFlags(seats) == booked
    ensures IsLayout(seats, info, BookedFlags(seats))
  {
    var flags := BookedFlags(seats);
    assert |flags| == |booked|;
    forall k | 0 <= k < |booked| ensures flags[k] == booked[k] {
      assert seats[k].isBooked == booked[k];
    }
  }

  /** Every seat of a layout has a number that is non-empty and free of commas. */
  lemma LayoutNumbers(seats: seq<Seat>, info: BusInfo, booked: seq<bool>, seat: Seat)
    requires IsLayout(seats, info, booked) && seat in seats
    ensures seat.number != "" && ',' !in seat.number && seat.price == info.seatPrice
  {
    var k :| 0 <= k < |seats| && seats[k] == seat;
    assert seat.number == SeatNumber(k + 1);
  }

  // ---------------------------------------------------------------------
  // The page

  /**
   * The page state: the query it was opened with, the bus profile and seat
   * map once the mocked fetch has finished, the selection and the loading
   * flag.
   */
  class SeatSelectionPage {
    const busId: string
    const from: string
    const to: string
    const date: string
    var busInfo: Option<BusInfo>
    var seats: seq<Seat>
    var selectedSeats: seq<string>
    var loading: bool

    /**
     * Loading exactly until the profile is there; the seat map is that
     * bus's layout; the selection holds each id once, and only ids of
     * seats that are not booked.
     */
    ghost predicate Valid()
      reads this
    {
      && (loading <==> busInfo.None?)
      && (busInfo.None? ==> seats == [] && selectedSeats == [])
      && (busInfo.Some? ==> busInfo.value == MockBusInfo(busId) && IsLayout(seats, busInfo.value, BookedFlags(seats)))
      && NoDuplicates(selectedSeats)
      && forall id :: id in selectedSeats ==> FindSeat(seats, id).Some? && !FindSeat(seats, id).value.isBooked
    }

    /** The page opens on `busId`, `from`, `to` and `date` read with `get(key) || ""`, and loading. */
    constructor(query: Query)
      ensures busId == GetOr(query, "busId", "") && from == GetOr(query, "from", "")
      ensures to == GetOr(query, "to", "") && date == GetOr(query, "date", "")
      ensures busInfo == None && seats == [] && selectedSeats == [] && loading
      ensures Valid()
    {
      busId := GetOr(query, "busId", "");
      from := GetOr(query, "from", "");
      to := GetOr(query, "to", "");
      date := GetOr(query, "date", "");
      busInfo := None;
      seats := [];
      selectedSeats := [];
      loading := true;
    }

    /**
     * The mocked fetch completes: the profile of `busId`, its seat map
     * generated with the given booked flags, and loading cleared.
     */
    method FinishLoading(booked: seq<bool>)
      requires Valid() && loading
      requires |booked| == MockBusInfo(busId).totalSeats
      modifies this
      ensures Valid()
      ensures busInfo == Some(MockBusInfo(busId)) && IsLayout(seats, busInfo.value, booked)
      ensures selectedSeats == old(selectedSeats) == [] && !loading
    {
      var info := MockBusInfo(busId);
      busInfo := Some(info);
      var generated := GenerateSeats(info, booked);
      seats := generated;
      loading := false;
      LayoutBookedFlags(seats, info, booked);
    }

    /**
     * A click on a seat of the grid, which passes that seat's id and booked
     * flag: the selection becomes Toggled(selection, seatId, isBooked).
     */
    method ToggleSeatSelection(seatId: string, isBooked: bool)
      requires Valid()
      requires FindSeat(seats, seatId).Some? && FindSeat(seats, seatId).value.isBooked == isBooked
      modifies this`selectedSeats
      ensures Valid()
      ensures selectedSeats == Toggled(old(selectedSeats), seatId, isBooked)
    {
      ToggleKeepsDistinct(selectedSeats, seatId, isBooked);
      if isBooked {
        return;
      }
      if seatId in selectedSeats {
        selectedSeats := RemoveAll(selectedSeats, seatId);
      } else {
        selectedSeats := selectedSeats + [seatId];
      }
    }

    /**
     * calculateTotalPrice: 0 before the profile is there, otherwise the
     * number of selected seats times the bus's seat price, which is the
     * sum of the prices of the selected seats.
     */
    function CalculateTotalPrice(): (total: nat)
      reads this
      ensures busInfo.None? || selectedSeats == [] ==> total == 0
    {
      if busInfo.None? then 0 else |selectedSeats| * busInfo.value.seatPrice
    }

    /** On a valid page the total is the sum of the prices of the selected seats. */
    lemma TotalIsSumOfPrices()
      requires Valid()
      ensures CalculateTotalPrice() == SumOfPrices(seats, selectedSeats)
    {
      if busInfo.Some? {
        forall k | 0 <= k < |seats| ensures seats[k].price == busInfo.value.seatPrice {
          LayoutNumbers(seats, busInfo.value, BookedFlags(seats), seats[k]);
        }
        SumOfUniformPrices(seats, selectedSeats, busInfo.value.seatPrice);
      }
    }

    /**
     * handleProceedToPayment: nothing on an empty selection; otherwise the
     * booking page, forwarding the query, the selected seat numbers joined
     * with "," and the total price.
     */
    function HandleProceedToPayment(): (nav: Option<Navigation>)
      reads this
      ensures nav.None? <==> selectedSeats == []
      ensures nav.Some? ==>
        nav.value.path == "/booking" && nav.value.query.Keys == {"busId", "from", "to", "date", "seats", "price"}
    {
      if selectedSeats == [] then None
      else Some(Navigation("/booking", map[
        "busId" := busId, "from" := from, "to" := to, "date" := date,
        "seats" := Join(SelectedSeatNumbers(seats, selectedSeats), ","),
        "price" := NatToString(CalculateTotalPrice())]))
    }

    /**
     * On a valid page with a selection, the forwarded seats split back on
     * "," into one number per selected seat, in selection order, and the
     * forwarded price reads back as the total.
     */
    lemma ProceedForwardsSelection()
      requires Valid() && selectedSeats != []
      ensures var q := HandleProceedToPayment().value.query;
        && |Split(q["seats"], ',')| == |selectedSeats|
        && (forall k :: 0 <= k < |selectedSeats| ==>
              Split(q["seats"], ',')[k] == FindSeat(seats, selectedSeats[k]).value.number)
        && JsNumber(q["price"]) == Some(CalculateTotalPrice())
        && q["busId"] == busId && q["from"] == from && q["to"] == to && q["date"] == date
    {
      assert busInfo.Some? && IsLayout(seats, busInfo.value, BookedFlags(seats));
      assert forall id :: id in selectedSeats ==> FindSeat(seats, id).Some?;
      ForwardedSeats(seats, busInfo.value, BookedFlags(seats), selectedSeats);
      NatToStringRoundTrip(CalculateTotalPrice());
      ProceedQuery();
    }

    /** The entries of the forwarded query, spelled out. */
    lemma ProceedQuery()
      requires selectedSeats != []
      ensures var q := HandleProceedToPayment().value.query;
        && q["seats"] == Join(SelectedSeatNumbers(seats, selectedSeats), ",")
        && q["price"] == NatToString(CalculateTotalPrice())
        && q["busId"] == busId && q["from"] == from && q["to"] == to && q["date"] == date
    {
    }

    /** No booked seat is ever selected. */
    lemma BookedSeatsNeverSelected(k: nat)
      requires Valid() && k < |seats| && seats[k].isBooked
      ensures seats[k].id !in selectedSeats
    {
      if seats[k].id in selectedSeats {
        LayoutDistinct(seats, busInfo.value, BookedFlags(seats));
        FindSeatAt(seats, k);
      }
    }
  }
}
