/**
 * `formatLocation`, which four pages carry as identical copies
 * (AvailableBuses, SeatSelection, Booking, BookingConfirmation): split a
 * slug on "-", upper-case the first character of every segment, join the
 * segments with " ".
 */
module Location {
  import opened Strings

  function Capitalize(word: string): string {
    if word == [] then [] else [ToUpper(word[0])] + word[1..]
  }

  function CapitalizeAll(words: seq<string>): (r: seq<string>)
    ensures |r| == |words|
    decreases |words|
  {
    if words == [] then [] else [Capitalize(words[0])] + CapitalizeAll(words[1..])
  }

  /** Position i of s begins a hyphen-separated segment. */
  predicate StartsSegment(s: string, i: int)
    requires 0 <= i < |s|
  {
    i == 0 || s[i - 1] == '-'
  }

  /**
   * The display name of a slug: same length; every "-" becomes " ", the
   * first character of every segment is upper-cased, and every other
   * character is kept as it is.
   */
  function FormatLocation(location: string): (r: string)
    ensures |r| == |location|
    ensures forall i :: 0 <= i < |location| ==>
      r[i] == (if location[i] == '-' then ' '
               else if StartsSegment(location, i) then ToUpper(location[i])
               else location[i])
  {
    var r := Join(CapitalizeAll(Split(location, '-')), " ");
    FormatIsScan(location, true);
    ScanLength(location, true);
    assert r == Scan(location, true);
    assert forall i :: 0 <= i < |location| ==>
      r[i] == (if location[i] == '-' then ' '
               else if StartsSegment(location, i) then ToUpper(location[i])
               else location[i]) by {
      forall i | 0 <= i < |location|
        ensures r[i] == (if location[i] == '-' then ' '
                         else if StartsSegment(location, i) then ToUpper(location[i])
                         else location[i])
      {
        ScanAt(location, true, i);
      }
    }
    r
  }

  /** A left-to-right scan that does what FormatLocation does, one character at a time. */
  function Scan(s: string, atStart: bool): string
    decreases |s|
  {
    if s == [] then []
    else if s[0] == '-' then " " + Scan(s[1..], true)
    else [if atStart then ToUpper(s[0]) else s[0]] + Scan(s[1..], false)
  }

  /** What FormatIsScan states about `s`, starting a segment or not. */
  predicate ScanAgrees(s: string, atStart: bool) {
    var parts := Split(s, '-');
    Join([if atStart then Capitalize(parts[0]) else parts[0]] + CapitalizeAll(parts[1..]), " ") == Scan(s, atStart)
  }

  lemma {:induction false} FormatIsScan(s: string, atStart: bool)
    ensures var parts := Split(s, '-');
      Join([if atStart then Capitalize(parts[0]) else parts[0]] + CapitalizeAll(parts[1..]), " ")
      == Scan(s, atStart)
    ensures atStart ==> Join(CapitalizeAll(Split(s, '-')), " ") == Scan(s, true)
    decreases |s|
  {
    if s == [] {
      assert Split(s, '-') == [""];
    } else if s[0] == '-' {
      FormatIsScan(s[1..], true);
      ScanDash(s, atStart);
    } else {
      FormatIsScan(s[1..], false);
      ScanLetter(s, atStart);
    }
    var parts := Split(s, '-');
    assert CapitalizeAll(parts) == [Capitalize(parts[0])] + CapitalizeAll(parts[1..]);
  }

  lemma ScanDash(s: string, atStart: bool)
    requires s != [] && s[0] == '-'
    requires Join(CapitalizeAll(Split(s[1..], '-')), " ") == Scan(s[1..], true)
    ensures ScanAgrees(s, atStart)
  {
    var parts := Split(s, '-');
    var rest := Split(s[1..], '-');
    assert parts == [""] + rest && parts[1..] == rest;
    var caps := CapitalizeAll(rest);
    assert caps == [Capitalize(rest[0])] + CapitalizeAll(rest[1..]);
    assert ([""] + caps)[1..] == caps;
  }

  lemma ScanLetter(s: string, atStart: bool)
    requires s != [] && s[0] != '-'
    requires ScanAgrees(s[1..], false)
    ensures ScanAgrees(s, atStart)
  {
    var parts := Split(s, '-');
    var rest := Split(s[1..], '-');
    var c := if atStart then ToUpper(s[0]) else s[0];
    assert parts == [[s[0]] + rest[0]] + rest[1..];
    assert parts[1..] == rest[1..];
    var first := if atStart then Capitalize(parts[0]) else parts[0];
    assert first == [c] + rest[0];
    var tail := [rest[0]] + CapitalizeAll(rest[1..]);
    JoinPrependChar(c, tail, " ");
    assert [[c] + tail[0]] + tail[1..] == [first] + CapitalizeAll(parts[1..]);
  }

  lemma {:induction false} ScanLength(s: string, atStart: bool)
    ensures |Scan(s, atStart)| == |s|
    decreases |s|
  {
    if s != [] {
      ScanLength(s[1..], s[0] == '-');
    }
  }

  lemma {:induction false} ScanAt(s: string, atStart: bool, i: nat)
    requires i < |s|
    ensures |Scan(s, atStart)| == |s|
    ensures Scan(s, atStart)[i] == (if s[i] == '-' then ' '
                                    else if (i == 0 && atStart) || (i > 0 && s[i - 1] == '-') then ToUpper(s[i])
                                    else s[i])
    decreases i
  {
    ScanLength(s, atStart);
    if i > 0 {
      ScanAt(s[1..], s[0] == '-', i - 1);
      assert Scan(s, atStart)[i] == Scan(s[1..], s[0] == '-')[i - 1];
      assert s[1..][i - 1] == s[i];
      if i > 1 {
        assert s[1..][i - 2] == s[i - 1];
      }
    }
  }

  /** The empty slug formats to the empty name. */
  lemma FormatLocationEmpty()
    ensures FormatLocation("") == ""
  {
  }
}
