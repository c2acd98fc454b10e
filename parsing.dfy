/**
 * The command-line strings: Python's `str.split(sep)` and `sep.join(...)`,
 * the decimal integers and reals `int(...)` and `float(...)` accept (the
 * plain-digit subset), and the grid `"AxBxC"`, heights `"h1,h2,..."` and
 * centre `"x,y,z"` options.
 */
module Parsing {
  import opened Outcomes

  // ---- str.split / str.join ----

  /** `s.split(sep)`: always at least one field; an empty string gives `[""]`. */
  function Split(s: string, sep: char): (r: seq<string>)
    ensures |r| >= 1
    decreases |s|
  {
    if s == [] then [[]]
    else if s[0] == sep then [[]] + Split(s[1..], sep)
    else
      var rest := Split(s[1..], sep);
      [[s[0]] + rest[0]] + rest[1..]
  }

  /** `sep.join(parts)`. */
  function Join(parts: seq<string>, sep: char): string
    requires |parts| >= 1
    decreases |parts|
  {
    if |parts| == 1 then parts[0] else parts[0] + [sep] + Join(parts[1..], sep)
  }

  /** No field of a split contains the separator. */
  lemma {:induction false} SplitFieldsFree(s: string, sep: char)
    ensures forall k :: 0 <= k < |Split(s, sep)| ==> sep !in Split(s, sep)[k]
    decreases |s|
  {
    if s != [] {
      SplitFieldsFree(s[1..], sep);
      if s[0] != sep {
        var rest := Split(s[1..], sep);
        assert forall k :: 1 <= k < |rest| ==> rest[1..][k - 1] == rest[k];
      }
    }
  }

  /** Joining the fields of a split gives the string back. */
  lemma {:induction false} JoinSplit(s: string, sep: char)
    ensures Join(Split(s, sep), sep) == s
    decreases |s|
  {
    if s != [] {
      JoinSplit(s[1..], sep);
      var rest := Split(s[1..], sep);
      if s[0] == sep {
        assert ([[]] + rest)[1..] == rest;
      } else if |rest| > 1 {
        var first := [s[0]] + rest[0];
        assert ([first] + rest[1..])[1..] == rest[1..];
        assert Join(rest, sep) == rest[0] + [sep] + Join(rest[1..], sep);
        assert Join(Split(s, sep), sep) == first + [sep] + Join(rest[1..], sep);
        assert s == [s[0]] + s[1..];
      }
    }
  }

  lemma {:induction false} SplitFree(p: string, sep: char)
    requires sep !in p
    ensures Split(p, sep) == [p]
    decreases |p|
  {
    if p != [] {
      SplitFree(p[1..], sep);
      assert [p[0]] + p[1..] == p;
    }
  }

  lemma {:induction false} SplitAfterField(p: string, sep: char, t: string)
    requires sep !in p
    ensures Split(p + [sep] + t, sep) == [p] + Split(t, sep)
    decreases |p|
  {
    var s := p + [sep] + t;
    if p == [] {
      assert s[0] == sep && s[1..] == t;
    } else {
      assert s[0] == p[0] && s[1..] == p[1..] + [sep] + t;
      SplitAfterField(p[1..], sep, t);
      assert [p[0]] + p[1..] == p;
    }
  }

  /** Splitting a join of separator-free fields gives the fields back. */
  lemma {:induction false} SplitJoin(parts: seq<string>, sep: char)
    requires |parts| >= 1
    requires forall k :: 0 <= k < |parts| ==> sep !in parts[k]
    ensures Split(Join(parts, sep), sep) == parts
    decreases |parts|
  {
    if |parts| == 1 {
      SplitFree(parts[0], sep);
    } else {
      SplitJoin(parts[1..], sep);
      SplitAfterField(parts[0], sep, Join(parts[1..], sep));
      assert [parts[0]] + parts[1..] == parts;
    }
  }

  // ---- decimal digits ----

  predicate IsDigit(c: char) {
    '0' <= c <= '9'
  }

  predicate AllDigits(s: string) {
    forall k :: 0 <= k < |s| ==> IsDigit(s[k])
  }

  function DigitValue(c: char): nat
    requires IsDigit(c)
  {
    (c as int) - ('0' as int)
  }

  function DigitChar(d: nat): (c: char)
    requires d < 10
    ensures IsDigit(c) && DigitValue(c) == d
  {
    (('0' as int) + d) as char
  }

  /** The value of a string of decimal digits, most significant first (0 for ""). */
  function DigitsValue(s: string): nat
    requires AllDigits(s)
    decreases |s|
  {
    if s == [] then 0 else DigitsValue(s[..|s| - 1]) * 10 + DigitValue(s[|s| - 1])
  }

  /** `str(n)` for a non-negative integer. */
  function NatToString(n: nat): (s: string)
    ensures |s| >= 1 && AllDigits(s)
    decreases n
  {
    if n < 10 then [DigitChar(n)] else NatToString(n / 10) + [DigitChar(n % 10)]
  }

  /** Reading back the printed digits gives the number. */
  lemma {:induction false} NatToStringRoundTrip(n: nat)
    ensures DigitsValue(NatToString(n)) == n
    decreases n
  {
    var s := NatToString(n);
    if n >= 10 {
      NatToStringRoundTrip(n / 10);
      assert s[..|s| - 1] == NatToString(n / 10);
    }
  }

  /** Distinct numbers print differently. */
  lemma NatToStringInjective(m: nat, n: nat)
    requires NatToString(m) == NatToString(n)
    ensures m == n
  {
    NatToStringRoundTrip(m);
    NatToStringRoundTrip(n);
  }

  /** `str(i)` for any integer: a minus sign before the digits of `-i`. */
  function IntToString(i: int): string {
    if i < 0 then "-" + NatToString(-i) else NatToString(i)
  }

  /** The strings `int(...)` accepts here: an optional sign, then one or more digits. */
  predicate IntLiteral(s: string) {
    (|s| >= 1 && AllDigits(s)) || (|s| >= 2 && (s[0] == '+' || s[0] == '-') && AllDigits(s[1..]))
  }

  /** `int(s)`: a `ValueError` for anything but an optionally signed digit string. */
  function ParseInt(s: string): (r: Result<int>)
    ensures r.Ok? <==> IntLiteral(s)
    ensures r.Err? ==> r.error == ParseError
  {
    if |s| >= 1 && AllDigits(s) then Ok(DigitsValue(s))
    else if |s| >= 2 && (s[0] == '+' || s[0] == '-') && AllDigits(s[1..]) then
      var v: int := DigitsValue(s[1..]);
      if s[0] == '-' then Ok(-v) else Ok(v)
    else Err(ParseError)
  }

  /** `int(str(i)) == i`. */
  lemma ParseIntRoundTrip(i: int)
    ensures ParseInt(IntToString(i)) == Ok(i)
  {
    if i < 0 {
      var t := NatToString(-i);
      var s := "-" + t;
      assert IntToString(i) == s;
      NatToStringRoundTrip(-i);
      assert s[1..] == t;
      assert !IsDigit(s[0]);
      var v: int := DigitsValue(t);
      assert ParseInt(s) == Ok(-v);
    } else {
      NatToStringRoundTrip(i);
    }
  }

  /** A printed integer holds only digits and possibly a leading minus sign. */
  lemma IntToStringChars(i: int, c: char)
    requires c != '-' && !IsDigit(c)
    ensures c !in IntToString(i)
  {
    var s := IntToString(i);
    if i < 0 {
      var t := NatToString(-i);
      assert s == "-" + t;
      assert forall m :: 1 <= m < |s| ==> s[m] == t[m - 1];
    }
  }

  function Pow10(k: nat): (p: nat)
    ensures p >= 1
  {
    if k == 0 then 1 else 10 * Pow10(k - 1)
  }

  /** Position of the first `'.'`, or `|s|` when there is none. */
  function DotAt(s: string): (d: nat)
    ensures d <= |s|
    ensures d < |s| ==> s[d] == '.'
    ensures forall k :: 0 <= k < d ==> s[k] != '.'
    decreases |s|
  {
    if s == [] then 0 else if s[0] == '.' then 0 else 1 + DotAt(s[1..])
  }

  /** Unsigned decimal: digits, optionally a point and more digits, at least one digit in all. */
  predicate DecimalLiteral(s: string) {
    var d := DotAt(s);
    AllDigits(s[..d]) && (d < |s| ==> AllDigits(s[d + 1..])) && (d < |s| ==> |s| >= 2) && |s| >= 1
  }

  function DecimalValue(s: string): real
    requires DecimalLiteral(s)
  {
    var d := DotAt(s);
    if d == |s| then DigitsValue(s) as real
    else DigitsValue(s[..d]) as real + (DigitsValue(s[d + 1..]) as real) / (Pow10(|s| - d - 1) as real)
  }

  /** The strings `float(...)` accepts here: an optional sign, then a decimal. */
  predicate RealLiteral(s: string) {
    DecimalLiteral(s) || (|s| >= 1 && (s[0] == '+' || s[0] == '-') && DecimalLiteral(s[1..]))
  }

  /** `float(s)` over the reals: a `ValueError` for anything else. */
  function ParseReal(s: string): (r: Result<real>)
    ensures r.Ok? <==> RealLiteral(s)
    ensures r.Err? ==> r.error == ParseError
  {
    if DecimalLiteral(s) then Ok(DecimalValue(s))
    else if |s| >= 1 && (s[0] == '+' || s[0] == '-') && DecimalLiteral(s[1..]) then
      if s[0] == '-' then Ok(-DecimalValue(s[1..])) else Ok(DecimalValue(s[1..]))
    else Err(ParseError)
  }

  /** The first point of `u + "." + t` after a digit string `u` is the one after `u`. */
  lemma {:induction false} DotAfterDigits(u: string, t: string)
    requires AllDigits(u)
    ensures DotAt(u + "." + t) == |u|
    decreases |u|
  {
    var s := u + "." + t;
    if u != [] {
      assert s[0] == u[0] && s[1..] == u[1..] + "." + t;
      assert AllDigits(u[1..]) by {
        forall k | 0 <= k < |u| - 1 ensures IsDigit(u[1..][k]) {
          assert u[1..][k] == u[k + 1];
        }
      }
      DotAfterDigits(u[1..], t);
    }
  }

  /** The number written `u.t`: the integer part plus the fraction digits over `10^|t|`. */
  function PartsValue(u: string, t: string): real
    requires AllDigits(u) && AllDigits(t)
  {
    DigitsValue(u) as real + (DigitsValue(t) as real) / (Pow10(|t|) as real)
  }

  /** `u + "." + t` with digit strings `u` and `t` is an unsigned decimal of that value. */
  lemma DecimalOfParts(u: string, t: string)
    requires AllDigits(u) && AllDigits(t) && |u| + |t| >= 1
    ensures DecimalLiteral(u + "." + t)
    ensures DecimalValue(u + "." + t) == PartsValue(u, t)
  {
    var d := u + "." + t;
    DotAfterDigits(u, t);
    assert d[..|u|] == u && d[|u| + 1..] == t;
  }

  /**
   * `float` of a decimal `u.t`, and of `-u.t`: the integer part plus the
   * fraction digits over `10^|t|`, negated after the sign (`"-1.25"` is
   * -5/4; `"5."` and `".5"` are accepted as Python does).
   */
  lemma ParseRealDecimal(u: string, t: string)
    requires AllDigits(u) && AllDigits(t) && |u| + |t| >= 1
    ensures ParseReal(u + "." + t) == Ok(PartsValue(u, t))
    ensures ParseReal("-" + (u + "." + t)) == Ok(-PartsValue(u, t))
  {
    DecimalOfParts(u, t);
    ParseRealNegated(u + "." + t);
  }

  /** A minus sign before a decimal negates its value. */
  lemma ParseRealNegated(d: string)
    requires DecimalLiteral(d)
    ensures ParseReal("-" + d) == Ok(-DecimalValue(d))
  {
    var s := "-" + d;
    assert s[1..] == d;
    assert !DecimalLiteral(s) by {
      assert DotAt(s) == 1 + DotAt(d);
      assert s[..DotAt(s)][0] == '-';
    }
  }

  lemma AllDigitsNoDot(s: string)
    requires AllDigits(s)
    ensures DotAt(s) == |s|
  {
    if DotAt(s) < |s| {
      assert !IsDigit(s[DotAt(s)]);
    }
  }

  /** `float(str(n)) == n` for a non-negative integer. */
  lemma ParseRealOfNat(n: nat)
    ensures ParseReal(NatToString(n)) == Ok(n as real)
  {
    var s := NatToString(n);
    AllDigitsNoDot(s);
    assert s[..|s|] == s;
    NatToStringRoundTrip(n);
  }

  /** `float("1.5") == 1.5` and `float("-0.25") == -0.25`. */
  lemma ParseRealExamples()
    ensures ParseReal("1.5") == Ok(1.5)
    ensures ParseReal("-0.25") == Ok(-0.25)
  {
    var a := "1.5";
    assert DotAt(a) == 1;
    assert a[..1] == "1" && a[2..] == "5";
    assert DigitsValue("1") == 1 by { assert "1"[..0] == ""; }
    assert DigitsValue("5") == 5 by { assert "5"[..0] == ""; }
    assert !DecimalLiteral("-0.25") by { assert DotAt("-0.25") == 2; }
    var b := "0.25";
    assert DotAt(b) == 1;
    assert b[..1] == "0" && b[2..] == "25";
    assert DigitsValue("0") == 0 by { assert "0"[..0] == ""; }
    assert DigitsValue("25") == 25 by {
      assert "25"[..1] == "2";
      assert "2"[..0] == "";
    }
    assert "-0.25"[1..] == b;
  }

  // ---- the option strings ----

  /** Every field of a list parsed with `f`; the first failure is reported. */
  function ParseInts(fields: seq<string>): (r: Result<seq<int>>)
    ensures r.Ok? ==> |r.value| == |fields|
    ensures r.Ok? <==> forall k :: 0 <= k < |fields| ==> IntLiteral(fields[k])
    ensures r.Ok? ==> forall k :: 0 <= k < |fields| ==> ParseInt(fields[k]) == Ok(r.value[k])
    decreases |fields|
  {
    if fields == [] then Ok([])
    else
      var n := |fields| - 1;
      match ParseInts(fields[..n])
      case Err(e) => Err(e)
      case Ok(xs) =>
        match ParseInt(fields[n])
        case Err(e) => Err(e)
        case Ok(x) =>
          assert forall k :: 0 <= k < n ==> fields[..n][k] == fields[k];
          Ok(xs + [x])
  }

  function ParseReals(fields: seq<string>): (r: Result<seq<real>>)
    ensures r.Ok? ==> |r.value| == |fields|
    ensures r.Err? ==> r.error == ParseError
    ensures r.Ok? <==> forall k :: 0 <= k < |fields| ==> RealLiteral(fields[k])
    ensures r.Ok? ==> forall k :: 0 <= k < |fields| ==> ParseReal(fields[k]) == Ok(r.value[k])
    decreases |fields|
  {
    if fields == [] then Ok([])
    else
      var n := |fields| - 1;
      match ParseReals(fields[..n])
      case Err(e) => Err(e)
      case Ok(xs) =>
        match ParseReal(fields[n])
        case Err(e) => Err(e)
        case Ok(x) =>
          assert forall k :: 0 <= k < n ==> fields[..n][k] == fields[k];
          Ok(xs + [x])
  }

  /** `tuple(map(int, grid_size.split('x')))`. */
  function ParseGrid(s: string): Result<seq<int>> {
    ParseInts(Split(s, 'x'))
  }

  /** `tuple(map(float, box_size.split('x')))`. */
  function ParseBoxSizes(s: string): Result<seq<real>> {
    ParseReals(Split(s, 'x'))
  }

  /** `[float(c) for c in center.split(',')]`. */
  function ParseCentre(s: string): Result<seq<real>> {
    ParseReals(Split(s, ','))
  }

  /** `[float(h) for h in heights.split(',')] if heights else None`. */
  function ParseHeights(s: string): (r: Result<Option<seq<real>>>)
    ensures s == "" ==> r == Ok(None)
    ensures s != "" ==> (r.Ok? <==> forall f :: f in Split(s, ',') ==> RealLiteral(f))
    ensures s != "" && r.Ok? ==> r.value.Some? && |r.value.value| == |Split(s, ',')|
    ensures s != "" && r.Ok? ==> forall k :: 0 <= k < |Split(s, ',')| ==> ParseReal(Split(s, ',')[k]) == Ok(r.value.value[k])
    ensures r.Err? ==> r.error == ParseError
  {
    if s == "" then Ok(None)
    else
      var hs := ParseReals(Split(s, ','));
      if hs.Err? then Err(hs.error) else Ok(Some(hs.value))
  }

  function IntsToStrings(xs: seq<int>): (r: seq<string>)
    ensures |r| == |xs|
    ensures forall k :: 0 <= k < |xs| ==> r[k] == IntToString(xs[k])
  {
    seq(|xs|, k requires 0 <= k < |xs| => IntToString(xs[k]))
  }

  /** The grid option printed as `"AxBxC"` parses back to the same counts. */
  lemma ParseGridRoundTrip(g: seq<int>)
    requires |g| >= 1
    ensures ParseGrid(Join(IntsToStrings(g), 'x')) == Ok(g)
  {
    var parts := IntsToStrings(g);
    forall k | 0 <= k < |parts| ensures 'x' !in parts[k] {
      IntToStringChars(g[k], 'x');
    }
    SplitJoin(parts, 'x');
    forall k | 0 <= k < |parts| ensures ParseInt(parts[k]) == Ok(g[k]) {
      ParseIntRoundTrip(g[k]);
    }
    var r := ParseGrid(Join(parts, 'x'));
    assert r.Ok?;
    assert r.value == g;
  }

  /** The grid option parses iff every `x`-separated field is an integer literal. */
  lemma ParseGridFails(s: string)
    ensures ParseGrid(s).Err? <==> exists k :: 0 <= k < |Split(s, 'x')| && !IntLiteral(Split(s, 'x')[k])
  {
    var fields := Split(s, 'x');
    var r := ParseInts(fields);
    assert ParseGrid(s) == r;
    if r.Err? {
      assert !forall k :: 0 <= k < |fields| ==> IntLiteral(fields[k]);
      var k :| 0 <= k < |fields| && !IntLiteral(fields[k]);
      assert !IntLiteral(Split(s, 'x')[k]);
    }
  }
}
