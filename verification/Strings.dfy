/**
 * The JavaScript string primitives the pages rely on: `String(n)` for
 * non-negative and negative integers, `split` on a one-character separator,
 * `join`, `slice(-k)`, `parseInt(s, 10)`, `Number(s)` on digit strings,
 * ASCII `toUpperCase`/`toLowerCase`, and the white-space class of `\s`.
 */
module Strings {
  import opened Wrappers

  // ---------------------------------------------------------------------
  // Digits and numerals

  predicate IsDigit(c: char) {
    '0' <= c <= '9'
  }

  predicate AllDigits(s: string) {
    forall i :: 0 <= i < |s| ==> IsDigit(s[i])
  }

  function DigitChar(d: nat): (c: char)
    requires d < 10
    ensures IsDigit(c) && DigitValue(c) == d
  {
    (d + '0' as int) as char
  }

  function DigitValue(c: char): (d: nat)
    requires IsDigit(c)
    ensures d < 10
  {
    c as int - '0' as int
  }

  function Pow10(k: nat): (p: nat)
    ensures p >= 1
  {
    if k == 0 then 1 else 10 * Pow10(k - 1)
  }

  /** `String(n)` for a non-negative integer: its decimal numeral, no leading zeros. */
  function NatToString(n: nat): (s: string)
    ensures |s| >= 1 && AllDigits(s)
    decreases n
  {
    if n < 10 then [DigitChar(n)] else NatToString(n / 10) + [DigitChar(n % 10)]
  }

  /** `String(i)` for any integer (JavaScript prints -0 as "0", as here). */
  function IntToString(i: int): (s: string)
    ensures |s| >= 1
    ensures i >= 0 ==> AllDigits(s)
    ensures i < 0 ==> s[0] == '-' && AllDigits(s[1..])
  {
    if i < 0 then "-" + NatToString(-i) else NatToString(i)
  }

  /** The value of a string of decimal digits; the empty string has value 0 (as `Number("")`). */
  function DigitsValue(s: string): nat
    requires AllDigits(s)
    decreases |s|
  {
    if s == [] then 0 else 10 * DigitsValue(s[..|s| - 1]) + DigitValue(s[|s| - 1])
  }

  lemma {:induction false} NatToStringRoundTrip(n: nat)
    ensures DigitsValue(NatToString(n)) == n
    decreases n
  {
    var s := NatToString(n);
    if n < 10 {
      assert s[..|s| - 1] == [];
    } else {
      NatToStringRoundTrip(n / 10);
      assert s[..|s| - 1] == NatToString(n / 10);
    }
  }

  lemma NatToStringInjective(m: nat, n: nat)
    ensures NatToString(m) == NatToString(n) ==> m == n
  {
    NatToStringRoundTrip(m);
    NatToStringRoundTrip(n);
  }

  /** A numeral with k+1 or more digits is exactly a number of at least 10^k. */
  lemma {:induction false} NatToStringLength(n: nat, k: nat)
    ensures n >= Pow10(k) ==> |NatToString(n)| >= k + 1
    ensures n < Pow10(|NatToString(n)|)
    decreases n
  {
    if n >= 10 {
      NatToStringLength(n / 10, if k == 0 then 0 else k - 1);
    }
  }

  // ---------------------------------------------------------------------
  // slice(-k)

  /** `s.slice(-k)` for k >= 1: the last k characters, or all of s when it is shorter. */
  function TakeLast(s: string, k: nat): (r: string)
    requires k >= 1
    ensures |r| == if |s| <= k then |s| else k
    ensures r == s[|s| - |r|..]
  {
    if |s| <= k then s else s[|s| - k..]
  }

  lemma MulSign(d: int, x: int)
    requires d > 0
    ensures x >= 1 ==> d * x >= d
    ensures x <= -1 ==> d * x <= -d
  {
    if x >= 1 {
      assert d * x == d * (x - 1) + d;
      assert d * (x - 1) >= 0;
    } else if x <= -1 {
      assert d * x == d * (x + 1) - d;
      assert d * (x + 1) <= 0;
    }
  }

  lemma ModUnique(n: int, d: int, a: int, r: int)
    requires d > 0 && 0 <= r < d && n == d * a + r
    ensures n / d == a && n % d == r
  {
    var a', r' := n / d, n % d;
    assert d * a' + r' == d * a + r;
    assert d * (a' - a) == r - r';
    MulSign(d, a' - a);
  }

  lemma ModTenfold(n: nat, m: nat)
    requires m > 0
    ensures 10 * ((n / 10) % m) + n % 10 == n % (10 * m)
  {
    var q, r := n / 10, n % 10;
    var a, b := q / m, q % m;
    assert q == m * a + b;
    assert n == 10 * q + r;
    assert n == (10 * m) * a + (10 * b + r);
    ModUnique(n, 10 * m, a, 10 * b + r);
  }

  /** The last k digits of a numeral spell the number modulo 10^k. */
  lemma {:induction false} LastDigits(n: nat, k: nat)
    requires k >= 1
    ensures AllDigits(TakeLast(NatToString(n), k))
    ensures DigitsValue(TakeLast(NatToString(n), k)) == n % Pow10(k)
    decreases n
  {
    var s := NatToString(n);
    var t := TakeLast(s, k);
    if |s| <= k {
      NatToStringRoundTrip(n);
      NatToStringLength(n, 0);
      PowMonotone(|s|, k);
      ModUnique(n, Pow10(k), 0, n);
    } else {
      LastDigitsStep(n, k);
    }
  }

  lemma {:induction false} LastDigitsStep(n: nat, k: nat)
    requires k >= 1 && |NatToString(n)| > k
    ensures AllDigits(TakeLast(NatToString(n), k))
    ensures DigitsValue(TakeLast(NatToString(n), k)) == n % Pow10(k)
    decreases n, 1
  {
    if k == 1 {
      LastDigit(n);
    } else {
      LastDigitsMany(n, k);
    }
  }

  lemma {:induction false} LastDigitsMany(n: nat, k: nat)
    requires k >= 2 && |NatToString(n)| > k
    ensures AllDigits(TakeLast(NatToString(n), k))
    ensures DigitsValue(TakeLast(NatToString(n), k)) == n % Pow10(k)
    decreases n, 0
  {
    var p := NatToString(n / 10);
    var c := DigitChar(n % 10);
    var u := TakeLast(p, k - 1);
    var m := Pow10(k - 1);
    assert NatToString(n) == p + [c];
    TakeLastSnoc(p, c, k);
    LastDigits(n / 10, k - 1);
    DigitsValueSnoc(u, c);
    assert Pow10(k) == 10 * m;
    ModTenfold(n, m);
  }



  lemma TakeLastSnoc(p: string, c: char, k: nat)
    requires k >= 2 && |p| >= k
    ensures TakeLast(p + [c], k) == TakeLast(p, k - 1) + [c]
  {
    assert (p + [c])[|p| + 1 - k..] == p[|p| + 1 - k..] + [c];
  }

  lemma LastDigit(n: nat)
    requires |NatToString(n)| > 1
    ensures TakeLast(NatToString(n), 1) == [DigitChar(n % 10)]
    ensures DigitsValue(TakeLast(NatToString(n), 1)) == n % Pow10(1)
  {
    var c := DigitChar(n % 10);
    assert NatToString(n) == NatToString(n / 10) + [c];
    DigitsValueSnoc([], c);
    assert [] + [c] == [c];
  }

  lemma DigitsValueSnoc(u: string, c: char)
    requires AllDigits(u) && IsDigit(c)
    ensures AllDigits(u + [c])
    ensures DigitsValue(u + [c]) == 10 * DigitsValue(u) + DigitValue(c)
  {
    assert (u + [c])[..|u + [c]| - 1] == u;
  }

  lemma {:induction false} PowMonotone(i: nat, j: nat)
    requires i <= j
    ensures Pow10(i) <= Pow10(j)
    decreases j
  {
    if i < j {
      PowMonotone(i, j - 1);
    }
  }

  // ---------------------------------------------------------------------
  // split and join

  /** `s.split(sep)` for a one-character separator: never empty, and no part holds sep. */
  function Split(s: string, sep: char): (parts: seq<string>)
    ensures |parts| >= 1
    ensures forall k :: 0 <= k < |parts| ==> sep !in parts[k]
    decreases |s|
  {
    if s == [] then [""]
    else
      var rest := Split(s[1..], sep);
      if s[0] == sep then [""] + rest
      else [[s[0]] + rest[0]] + rest[1..]
  }

  /** `parts.join(sep)`: the empty list joins to "", a single part to itself. */
  function Join(parts: seq<string>, sep: string): string
  {
    if |parts| == 0 then ""
    else if |parts| == 1 then parts[0]
    else parts[0] + sep + Join(parts[1..], sep)
  }

  lemma JoinPrependChar(c: char, parts: seq<string>, sep: string)
    requires |parts| >= 1
    ensures Join([[c] + parts[0]] + parts[1..], sep) == [c] + Join(parts, sep)
  {
    var ps := [[c] + parts[0]] + parts[1..];
    if |parts| > 1 {
      assert ps[1..] == parts[1..];
    }
  }

  /** Joining the parts of a split gives the string back. */
  lemma {:induction false} JoinSplit(s: string, sep: char)
    ensures Join(Split(s, sep), [sep]) == s
    decreases |s|
  {
    if s != [] {
      var rest := Split(s[1..], sep);
      JoinSplit(s[1..], sep);
      if s[0] == sep {
        assert ([""] + rest)[1..] == rest;
      } else {
        JoinPrependChar(s[0], rest, [sep]);
      }
      assert s == [s[0]] + s[1..];
    }
  }

  /** `s` with every `sep` replaced by `glue`. */
  function ReplaceChar(s: string, sep: char, glue: string): (r: string)
    ensures sep !in s ==> r == s
    ensures sep !in glue ==> sep !in r
    decreases |s|
  {
    if s == [] then []
    else
      var rest := ReplaceChar(s[1..], sep, glue);
      if s[0] == sep then glue + rest
      else assert s == [s[0]] + s[1..]; [s[0]] + rest
  }

  /** Joining the parts of a split with another glue replaces each separator by the glue. */
  lemma {:induction false} JoinSplitGlue(s: string, sep: char, glue: string)
    ensures Join(Split(s, sep), glue) == ReplaceChar(s, sep, glue)
    decreases |s|
  {
    if s != [] {
      var rest := Split(s[1..], sep);
      JoinSplitGlue(s[1..], sep, glue);
      if s[0] == sep {
        assert ([""] + rest)[1..] == rest;
      } else {
        JoinPrependChar(s[0], rest, glue);
      }
    }
  }

  lemma {:induction false} SplitPrefix(w: string, rest: string, sep: char)
    requires sep !in w
    ensures Split(w + rest, sep) == [w + Split(rest, sep)[0]] + Split(rest, sep)[1..]
    decreases |w|
  {
    if w != [] {
      assert (w + rest)[1..] == w[1..] + rest;
      assert w[0] != sep;
      SplitPrefix(w[1..], rest, sep);
      assert [w[0]] + (w[1..] + Split(rest, sep)[0]) == w + Split(rest, sep)[0];
    } else {
      assert w + rest == rest;
      assert w + Split(rest, sep)[0] == Split(rest, sep)[0];
    }
  }

  /** Splitting a join of separator-free parts gives the parts back. */
  lemma {:induction false} SplitJoin(parts: seq<string>, sep: char)
    requires |parts| >= 1
    requires forall k :: 0 <= k < |parts| ==> sep !in parts[k]
    ensures Split(Join(parts, [sep]), sep) == parts
    decreases |parts|
  {
    if |parts| == 1 {
      SplitPrefix(parts[0], "", sep);
      assert parts[0] + "" == parts[0];
    } else {
      var tail := Join(parts[1..], [sep]);
      SplitJoin(parts[1..], sep);
      assert Join(parts, [sep]) == parts[0] + ([sep] + tail);
      SplitPrefix(parts[0], [sep] + tail, sep);
      assert ([sep] + tail)[1..] == tail;
      var st := Split([sep] + tail, sep);
      assert st == [""] + parts[1..];
      assert st[0] == "" && st[1..] == parts[1..];
      assert parts[0] + st[0] == parts[0];
      assert [parts[0]] + parts[1..] == parts;
    }
  }

  // ---------------------------------------------------------------------
  // Case mapping (ASCII letters only) and white space

  function ToUpper(c: char): char {
    if 'a' <= c <= 'z' then (c as int - 32) as char else c
  }

  function ToLower(c: char): char {
    if 'A' <= c <= 'Z' then (c as int + 32) as char else c
  }

  function LowerAll(s: string): (r: string)
    ensures |r| == |s|
    ensures forall i :: 0 <= i < |s| ==> r[i] == ToLower(s[i])
    decreases |s|
  {
    if s == [] then [] else [ToLower(s[0])] + LowerAll(s[1..])
  }

  /** The characters matched by the regular-expression class `\s` (and trimmed by `parseInt`). */
  predicate IsJsWhitespace(c: char) {
    || '\t' <= c <= '\r'
    || c == ' '
    || c == '\U{00A0}'
    || c == '\U{1680}'
    || '\U{2000}' <= c <= '\U{200A}'
    || c == '\U{2028}' || c == '\U{2029}'
    || c == '\U{202F}' || c == '\U{205F}'
    || c == '\U{3000}' || c == '\U{FEFF}'
  }

  /** s without its leading white space. */
  function TrimStart(s: string): (r: string)
    ensures |r| <= |s| && r == s[|s| - |r|..]
    ensures r == [] || !IsJsWhitespace(r[0])
    ensures forall i :: 0 <= i < |s| - |r| ==> IsJsWhitespace(s[i])
    decreases |s|
  {
    if s != [] && IsJsWhitespace(s[0]) then TrimStart(s[1..]) else s
  }

  /** A run of white space followed by the end or by anything else is trimmed exactly. */
  lemma {:induction false} TrimStartRun(w: string, b: string)
    requires forall i :: 0 <= i < |w| ==> IsJsWhitespace(w[i])
    requires b == [] || !IsJsWhitespace(b[0])
    ensures TrimStart(w + b) == b
    decreases |w|
  {
    if w == [] {
      assert w + b == b;
    } else {
      assert (w + b)[0] == w[0] && (w + b)[1..] == w[1..] + b;
      TrimStartRun(w[1..], b);
    }
  }

  // ---------------------------------------------------------------------
  // Number parsing

  /** The longest prefix of s made of decimal digits. */
  function TakeDigits(s: string): (d: string)
    ensures AllDigits(d) && |d| <= |s| && d == s[..|d|]
    ensures |d| < |s| ==> !IsDigit(s[|d|])
    decreases |s|
  {
    if s == [] || !IsDigit(s[0]) then [] else [s[0]] + TakeDigits(s[1..])
  }

  /**
   * `parseInt(s, 10)`: skip leading white space, take an optional sign and the
   * longest run of digits after it; no digit at all gives NaN (None).
   */
  function ParseInt(s: string): (r: Option<int>)
    ensures r.None? <==> TakeDigits(SignFree(TrimStart(s))) == []
  {
    var t := TrimStart(s);
    var digits := TakeDigits(SignFree(t));
    if digits == [] then None else Some(Signed(t, DigitsValue(digits)))
  }

  /** The magnitude, negated when the trimmed text starts with "-". */
  function Signed(t: string, magnitude: nat): int {
    if |t| > 0 && t[0] == '-' then -(magnitude as int) else magnitude
  }

  function SignFree(t: string): string {
    if |t| > 0 && (t[0] == '-' || t[0] == '+') then t[1..] else t
  }

  /** Digits followed by the end or by a non-digit: the digit prefix is exactly those digits. */
  lemma {:induction false} TakeDigitsPrefix(d: string, rest: string)
    requires AllDigits(d)
    requires rest == [] || !IsDigit(rest[0])
    ensures TakeDigits(d + rest) == d
    decreases |d|
  {
    if d == [] {
      assert d + rest == rest;
    } else {
      assert (d + rest)[0] == d[0] && (d + rest)[1..] == d[1..] + rest;
      TakeDigitsPrefix(d[1..], rest);
    }
  }

  /**
   * The general shape `parseInt` reads: leading white space, an optional
   * sign, a non-empty run of digits, then the end or anything that is not
   * a digit (which is ignored). The value is the digits' value, negated
   * after a "-".
   */
  lemma ParseIntPrefix(ws: string, sign: string, d: string, rest: string)
    requires forall i :: 0 <= i < |ws| ==> IsJsWhitespace(ws[i])
    requires sign == "" || sign == "+" || sign == "-"
    requires d != [] && AllDigits(d)
    requires rest == [] || !IsDigit(rest[0])
    ensures ParseInt(ws + sign + d + rest) ==
      Some(if sign == "-" then -(DigitsValue(d) as int) else DigitsValue(d) as int)
  {
    var t := sign + d + rest;
    assert ws + sign + d + rest == ws + t;
    SignedDigits(sign, d, rest);
    TrimStartRun(ws, t);
    TakeDigitsPrefix(d, rest);
    ParseIntValue(ws + t, d);
  }

  /** parseInt once the digits after the white space and sign are known. */
  lemma ParseIntValue(s: string, d: string)
    requires d != [] && AllDigits(d)
    requires TakeDigits(SignFree(TrimStart(s))) == d
    ensures ParseInt(s) == Some(Signed(TrimStart(s), DigitsValue(d)))
  {
  }

  /** After an optional sign, the digits and what follows them. */
  lemma SignedDigits(sign: string, d: string, rest: string)
    requires sign == "" || sign == "+" || sign == "-"
    requires d != [] && AllDigits(d)
    ensures var t := sign + d + rest;
      && !IsJsWhitespace(t[0])
      && SignFree(t) == d + rest
      && (t[0] == '-' <==> sign == "-")
  {
    var t := sign + d + rest;
    if sign == "" {
      assert t == d + rest;
    } else {
      assert t[0] == sign[0] && t[1..] == d + rest;
    }
  }

  lemma ParseIntOfDigits(s: string)
    requires s != [] && AllDigits(s)
    ensures ParseInt(s) == Some(DigitsValue(s))
  {
    assert TrimStart(s) == s;
    assert SignFree(s) == s;
    assert TakeDigits(s) == s;
  }

  /**
   * `Number(s)` on the strings this model covers: a string of decimal
   * digits (the empty string included) has its value; any other string
   * is NaN (None).
   */
  function JsNumber(s: string): (r: Option<nat>)
  {
    if AllDigits(s) then Some(DigitsValue(s)) else None
  }
}
