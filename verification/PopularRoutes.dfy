/**
 * The popular-routes panel of the home page: three fixed routes, and
 * "Book Now", which turns each city name into a URL slug (lower case,
 * every run of white space replaced by one "-") and opens the bus
 * listing for today's date.
 */
module PopularRoutes {
  import opened Strings
  import opened QueryParams
  import opened Location

  datatype Route = Route(from: string, to: string, price: string, duration: string, departureTime: string)

  /** The three routes the panel shows, in display order (image URLs are not modelled). */
  function Routes(): seq<Route> {
    [ Route("New York", "Boston", "$35", "4h 30m", "Daily 7:00 AM"),
      Route("Chicago", "Detroit", "$30", "5h 15m", "Daily 8:30 AM"),
      Route("Washington", "Philadelphia", "$25", "3h 10m", "Daily 9:15 AM") ]
  }

  // ---------------------------------------------------------------------
  // Slugs

  /**
   * `name.toLowerCase().replace(/\s+/g, '-')`: a run of white space
   * becomes one "-", every other character is lower-cased. The slug is
   * never longer than the name and holds no white space.
   */
  function Slugify(name: string): (slug: string)
    ensures |slug| <= |name|
    ensures forall i :: 0 <= i < |slug| ==> !IsJsWhitespace(slug[i])
    decreases |name|
  {
    if name == [] then []
    else if IsJsWhitespace(name[0]) then "-" + Slugify(TrimStart(name))
    else [ToLower(name[0])] + Slugify(name[1..])
  }

  /** The characters of s that are neither white space nor "-", in order. */
  function Letters(s: string): (r: string)
    ensures |r| <= |s|
    decreases |s|
  {
    if s == [] then []
    else if IsJsWhitespace(s[0]) || s[0] == '-' then Letters(s[1..])
    else [s[0]] + Letters(s[1..])
  }

  /** Dropping a prefix of white space does not change the letters. */
  lemma {:induction false} LettersSkipSpace(s: string, k: nat)
    requires k <= |s|
    requires forall i :: 0 <= i < k ==> IsJsWhitespace(s[i])
    ensures Letters(s) == Letters(s[k..])
    decreases k
  {
    if k > 0 {
      LettersSkipSpace(s[1..], k - 1);
      assert s[1..][k - 1..] == s[k..];
    }
  }

  lemma LowerAllCons(c: char, s: string)
    ensures LowerAll([c] + s) == [ToLower(c)] + LowerAll(s)
  {
    var l := LowerAll([c] + s);
    var r := [ToLower(c)] + LowerAll(s);
    assert |l| == |r|;
    forall i | 0 <= i < |l| ensures l[i] == r[i] {
      if i > 0 {
        assert ([c] + s)[i] == s[i - 1];
      }
    }
  }

  /**
   * Apart from the inserted hyphens, the slug keeps every character of the
   * name that is not white space (nor "-"), lower-cased and in order.
   */
  lemma {:induction false} SlugKeepsLetters(name: string)
    ensures Letters(Slugify(name)) == LowerAll(Letters(name))
    decreases |name|
  {
    if name != [] {
      if IsJsWhitespace(name[0]) {
        var t := TrimStart(name);
        SlugKeepsLetters(t);
        LettersSkipSpace(name, |name| - |t|);
        assert ("-" + Slugify(t))[1..] == Slugify(t);
      } else {
        var tail := Slugify(name[1..]);
        SlugKeepsLetters(name[1..]);
        assert ([ToLower(name[0])] + tail)[1..] == tail;
        if name[0] != '-' {
          LowerAllCons(name[0], Letters(name[1..]));
        }
      }
    }
  }

  /** Words separated by single spaces, and no other white space. */
  predicate SingleSpaced(s: string) {
    forall i :: 0 <= i < |s| && IsJsWhitespace(s[i]) ==>
      s[i] == ' ' && (i + 1 < |s| ==> !IsJsWhitespace(s[i + 1]))
  }

  /** On a single-spaced name the slug has the same length, with "-" for each space and every other character lower-cased. */
  lemma {:induction false} SlugOfSingleSpaced(name: string)
    requires SingleSpaced(name)
    ensures |Slugify(name)| == |name|
    ensures forall i :: 0 <= i < |name| ==>
      Slugify(name)[i] == (if name[i] == ' ' then '-' else ToLower(name[i]))
    decreases |name|
  {
    if name != [] {
      var tail := name[1..];
      SingleSpacedTail(name);
      SlugOfSingleSpaced(tail);
      SlugStep(name);
      forall i | 0 <= i < |name|
        ensures Slugify(name)[i] == (if name[i] == ' ' then '-' else ToLower(name[i]))
      {
        if i > 0 {
          assert Slugify(name)[i] == Slugify(tail)[i - 1];
          assert tail[i - 1] == name[i];
        }
      }
    }
  }

  lemma SingleSpacedTail(name: string)
    requires name != [] && SingleSpaced(name)
    ensures SingleSpaced(name[1..])
  {
    var tail := name[1..];
    forall i | 0 <= i < |tail| && IsJsWhitespace(tail[i])
      ensures tail[i] == ' ' && (i + 1 < |tail| ==> !IsJsWhitespace(tail[i + 1]))
    {
      assert tail[i] == name[i + 1];
    }
  }

  /** One step of the slug on a single-spaced name: the first character becomes "-" or its lower case. */
  lemma SlugStep(name: string)
    requires name != [] && SingleSpaced(name)
    ensures Slugify(name) == [if name[0] == ' ' then '-' else ToLower(name[0])] + Slugify(name[1..])
  {
    var tail := name[1..];
    if IsJsWhitespace(name[0]) {
      assert name[0] == ' ';
      assert tail == [] || !IsJsWhitespace(tail[0]);
      assert TrimStart(tail) == tail;
      assert TrimStart(name) == tail;
    }
  }

  /**
   * A city name in title case: capitalised words of ASCII letters separated
   * by single spaces, like "New York".
   */
  predicate TitleCaseName(name: string) {
    forall i :: 0 <= i < |name| ==> CaseFits(name, i)
  }

  /**
   * Position i is a space not followed by another, an upper-case letter
   * opening a word, or a lower-case letter inside one.
   */
  predicate CaseFits(name: string, i: int)
    requires 0 <= i < |name|
  {
    if name[i] == ' ' then i + 1 < |name| ==> name[i + 1] != ' '
    else if i == 0 || name[i - 1] == ' ' then 'A' <= name[i] <= 'Z'
    else 'a' <= name[i] <= 'z'
  }

  lemma TitleCaseSingleSpaced(name: string)
    requires TitleCaseName(name)
    ensures SingleSpaced(name)
  {
    forall i | 0 <= i < |name| && IsJsWhitespace(name[i])
      ensures name[i] == ' ' && (i + 1 < |name| ==> !IsJsWhitespace(name[i + 1]))
    {
      assert CaseFits(name, i);
      if i + 1 < |name| {
        assert CaseFits(name, i + 1);
      }
    }
  }

  /** The listing page's formatLocation turns the slug of a title-case name back into the name. */
  lemma FormatSlugRoundTrip(name: string)
    requires TitleCaseName(name)
    ensures FormatLocation(Slugify(name)) == name
  {
    var slug := Slugify(name);
    TitleCaseSingleSpaced(name);
    SlugOfSingleSpaced(name);
    var r := FormatLocation(slug);
    forall i | 0 <= i < |name| ensures r[i] == name[i] {
      assert CaseFits(name, i);
      if name[i] != ' ' {
        assert slug[i] == ToLower(name[i]) && slug[i] != '-';
        if i > 0 {
          assert CaseFits(name, i - 1);
          assert slug[i - 1] == '-' <==> name[i - 1] == ' ';
        }
      }
    }
  }

  /** A word of lower-case ASCII letters. */
  predicate LowerWord(w: string) {
    forall i :: 0 <= i < |w| ==> 'a' <= w[i] <= 'z'
  }

  lemma {:induction false} SlugOfLowerWord(w: string)
    requires LowerWord(w)
    ensures Slugify(w) == w
    decreases |w|
  {
    if w != [] {
      SlugOfLowerWord(w[1..]);
      assert w == [w[0]] + w[1..];
    }
  }

  /** A capitalised word slugs to itself with the capital lowered. */
  lemma SlugOfCapitalWord(word: string)
    requires word != [] && 'A' <= word[0] <= 'Z' && LowerWord(word[1..])
    ensures Slugify(word) == [ToLower(word[0])] + word[1..]
  {
    SlugOfLowerWord(word[1..]);
  }

  /** One space between two words becomes one "-" between their slugs. */
  lemma {:induction false} SlugOfSpace(a: string, b: string)
    requires forall i :: 0 <= i < |a| ==> !IsJsWhitespace(a[i])
    requires b != [] && !IsJsWhitespace(b[0])
    ensures Slugify(a + " " + b) == Slugify(a) + "-" + Slugify(b)
    decreases |a|
  {
    if a == [] {
      assert a + " " + b == " " + b;
      SlugOfLeadingSpace(b);
    } else {
      SlugOfSpace(a[1..], b);
      assert (a + " " + b)[1..] == a[1..] + " " + b;
      assert (a + " " + b)[0] == a[0];
    }
  }

  /**
   * A whole run of white space, however long and whatever its characters,
   * becomes a single "-": between two words, at the start (a empty) or at
   * the end (b empty).
   */
  lemma {:induction false} SlugOfRun(a: string, w: string, b: string)
    requires forall i :: 0 <= i < |a| ==> !IsJsWhitespace(a[i])
    requires w != [] && forall i :: 0 <= i < |w| ==> IsJsWhitespace(w[i])
    requires b == [] || !IsJsWhitespace(b[0])
    ensures Slugify(a + w + b) == Slugify(a) + "-" + Slugify(b)
    decreases |a|
  {
    var rest := w + b;
    assert a + w + b == a + rest;
    SlugAppend(a, rest);
    SlugOfLeadingRun(w, b);
    SlugOfWord(a);
  }

  /** A text without white space slugs to its lower case. */
  lemma SlugOfWord(a: string)
    requires forall i :: 0 <= i < |a| ==> !IsJsWhitespace(a[i])
    ensures Slugify(a) == LowerAll(a)
  {
    SlugAppend(a, []);
    assert a + [] == a;
  }

  /** Before any white space, the slug is the lower-cased text. */
  lemma {:induction false} SlugAppend(a: string, t: string)
    requires forall i :: 0 <= i < |a| ==> !IsJsWhitespace(a[i])
    ensures Slugify(a + t) == LowerAll(a) + Slugify(t)
    decreases |a|
  {
    if a == [] {
      assert a + t == t;
    } else {
      var s := a + t;
      assert s[0] == a[0] && s[1..] == a[1..] + t;
      SlugCons(s);
      SlugAppend(a[1..], t);
      LowerAllCons(a[0], a[1..]);
      assert [a[0]] + a[1..] == a;
    }
  }

  lemma SlugOfLeadingRun(w: string, b: string)
    requires w != [] && forall i :: 0 <= i < |w| ==> IsJsWhitespace(w[i])
    requires b == [] || !IsJsWhitespace(b[0])
    ensures Slugify(w + b) == "-" + Slugify(b)
  {
    assert (w + b)[0] == w[0];
    TrimStartRun(w, b);
  }

  lemma SlugCons(s: string)
    requires s != [] && !IsJsWhitespace(s[0])
    ensures Slugify(s) == [ToLower(s[0])] + Slugify(s[1..])
  {
  }

  lemma SlugOfLeadingSpace(b: string)
    requires b != [] && !IsJsWhitespace(b[0])
    ensures Slugify(" " + b) == "-" + Slugify(b)
  {
    var s := " " + b;
    assert s[1..] == b;
    assert TrimStart(b) == b;
    assert TrimStart(s) == b;
  }

  /** The departure cities of the three routes slug to new-york, chicago and washington. */
  lemma RouteFromSlugs(k: nat)
    requires k < |Routes()|
    ensures Slugify(Routes()[k].from) == ["new-york", "chicago", "washington"][k]
  {
    if k == 0 {
      SlugTwoWords("New York", "New", "York", "new-york");
    } else if k == 1 {
      SlugWord("Chicago", "chicago");
    } else {
      SlugWord("Washington", "washington");
    }
  }

  /** The arrival cities of the three routes slug to boston, detroit and philadelphia. */
  lemma RouteToSlugs(k: nat)
    requires k < |Routes()|
    ensures Slugify(Routes()[k].to) == ["boston", "detroit", "philadelphia"][k]
  {
    if k == 0 {
      SlugWord("Boston", "boston");
    } else if k == 1 {
      SlugWord("Detroit", "detroit");
    } else {
      SlugWord("Philadelphia", "philadelphia");
    }
  }

  lemma SlugWord(word: string, slug: string)
    requires word != [] && 'A' <= word[0] <= 'Z' && LowerWord(word[1..])
    requires slug == [ToLower(word[0])] + word[1..]
    ensures Slugify(word) == slug
  {
    SlugOfCapitalWord(word);
  }

  lemma SlugTwoWords(name: string, first: string, second: string, slug: string)
    requires name == first + " " + second
    requires first != [] && 'A' <= first[0] <= 'Z' && LowerWord(first[1..])
    requires second != [] && 'A' <= second[0] <= 'Z' && LowerWord(second[1..])
    requires slug == [ToLower(first[0])] + first[1..] + "-" + [ToLower(second[0])] + second[1..]
    ensures Slugify(name) == slug
  {
    SlugOfCapitalWord(first);
    SlugOfCapitalWord(second);
    SlugOfSpace(first, second);
  }

  /** The listing page displays each route's cities under their original names. */
  lemma RouteNamesRoundTrip(k: nat)
    requires k < |Routes()|
    ensures FormatLocation(Slugify(Routes()[k].from)) == Routes()[k].from
    ensures FormatLocation(Slugify(Routes()[k].to)) == Routes()[k].to
  {
    if k == 0 {
      FirstRouteTitleCase();
    } else if k == 1 {
      SecondRouteTitleCase();
    } else {
      ThirdRouteTitleCase();
    }
    FormatSlugRoundTrip(Routes()[k].from);
    FormatSlugRoundTrip(Routes()[k].to);
  }

  /** A name that is a title-case literal is in title case. */
  lemma CityTitleCase(name: string, literal: string)
    requires name == literal && TitleCaseName(literal)
    ensures TitleCaseName(name)
  {
  }

  lemma FirstRouteTitleCase()
    ensures TitleCaseName(Routes()[0].from) && TitleCaseName(Routes()[0].to)
  {
    CityTitleCase(Routes()[0].from, "New York");
    CityTitleCase(Routes()[0].to, "Boston");
  }

  lemma SecondRouteTitleCase()
    ensures TitleCaseName(Routes()[1].from) && TitleCaseName(Routes()[1].to)
  {
    CityTitleCase(Routes()[1].from, "Chicago");
    CityTitleCase(Routes()[1].to, "Detroit");
  }

  lemma ThirdRouteTitleCase()
    ensures TitleCaseName(Routes()[2].from) && TitleCaseName(Routes()[2].to)
  {
    CityTitleCase(Routes()[2].from, "Washington");
    CityTitleCase(Routes()[2].to, "Philadelphia");
  }

  // ---------------------------------------------------------------------
  // Book Now

  /** `new Date().toISOString().split('T')[0]`: the calendar date in front of the "T". */
  function IsoDate(isoNow: string): (date: string)
    ensures 'T' !in date
  {
    Split(isoNow, 'T')[0]
  }

  /** The date of an ISO timestamp "<day>T<time>" is the day. */
  lemma IsoDateOf(day: string, time: string)
    requires 'T' !in day
    ensures IsoDate(day + "T" + time) == day
  {
    SplitPrefix(day, "T" + time, 'T');
    assert day + "T" + time == day + ("T" + time);
    assert Split("T" + time, 'T')[0] == "";
    assert day + "" == day;
  }

  /**
   * handleBookNow: open the listing for the two slugs and today's date,
   * `isoNow` being the current time as `toISOString` writes it. The query
   * holds no white space in either city and no "T" in the date.
   */
  function HandleBookNow(from: string, to: string, isoNow: string): (nav: Navigation)
    ensures nav.path == "/available-buses"
    ensures nav.query.Keys == {"from", "to", "date"}
    ensures forall i :: 0 <= i < |nav.query["from"]| ==> !IsJsWhitespace(nav.query["from"][i])
    ensures forall i :: 0 <= i < |nav.query["to"]| ==> !IsJsWhitespace(nav.query["to"][i])
    ensures 'T' !in nav.query["date"]
  {
    Navigation("/available-buses", map["from" := Slugify(from), "to" := Slugify(to), "date" := IsoDate(isoNow)])
  }
}
