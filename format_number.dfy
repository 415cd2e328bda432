/**
 * `formatWithCommas` (utils/formatNumberWithComma.ts): the number's
 * `toString()` text with the regular expression `\B(?=(\d{3})+(?!\d))`
 * replaced by commas everywhere. Every position is tested against the
 * original text, so the replacement is a comma inserted before each position
 * that matches.
 */
module FormatNumber {
  import Js

  /** `\w`: a letter, a digit or the underscore. */
  predicate IsWordChar(c: char)
  {
    ('a' <= c <= 'z') || ('A' <= c <= 'Z') || Js.IsDigit(c) || c == '_'
  }

  /** The number of consecutive digits of `s` starting at position `i`. */
  function DigitRun(s: string, i: nat): (n: nat)
    ensures i + n <= |s| || n == 0
    ensures forall j :: i <= j < i + n ==> Js.IsDigit(s[j])
    ensures i + n < |s| ==> !Js.IsDigit(s[i + n])
    decreases |s| - i
  {
    if i < |s| && Js.IsDigit(s[i]) then 1 + DigitRun(s, i + 1) else 0
  }

  /**
   * The pattern matches the empty string at position `i`: not a word boundary,
   * and followed by a run of digits whose length is a positive multiple of
   * three. A digit follows, so "not a boundary" means a word character precedes.
   */
  predicate CommaBefore(s: string, i: nat)
  {
    0 < i < |s| && IsWordChar(s[i - 1]) && DigitRun(s, i) > 0 && DigitRun(s, i) % 3 == 0
  }

  /** The replacement applied to the text from position `i` on. */
  function FormatFrom(s: string, i: nat): string
    decreases |s| - i
  {
    if i >= |s| then "" else (if CommaBefore(s, i) then "," else "") + [s[i]] + FormatFrom(s, i + 1)
  }

  /** `text.replace(/\B(?=(\d{3})+(?!\d))/g, ",")` */
  function FormatWithCommas(text: string): string
  {
    FormatFrom(text, 0)
  }

  /** `formatWithCommas(n)` for a non-negative integer. */
  function FormatNat(n: nat): string
  {
    FormatWithCommas(Js.NatToString(n))
  }

  /** `s` with every comma removed. */
  function RemoveCommas(s: string): (r: string)
    ensures |r| <= |s|
  {
    if s == [] then [] else (if s[0] == ',' then [] else [s[0]]) + RemoveCommas(s[1..])
  }

  /** Digit grouping by the usual rule: the last three digits, preceded by a comma and the grouping of the rest. */
  function Grouped(d: string): string
    decreases |d|
  {
    if |d| <= 3 then d else Grouped(d[..|d| - 3]) + "," + d[|d| - 3..]
  }

  lemma {:induction false} RemoveCommasAppend(a: string, b: string)
    ensures RemoveCommas(a + b) == RemoveCommas(a) + RemoveCommas(b)
    decreases |a|
  {
    if a == [] {
      assert a + b == b;
    } else {
      var ab := a + b;
      var h := if a[0] == ',' then [] else [a[0]];
      assert ab[0] == a[0];
      assert ab[1..] == a[1..] + b;
      RemoveCommasAppend(a[1..], b);
      assert RemoveCommas(ab) == h + (RemoveCommas(a[1..]) + RemoveCommas(b));
      assert RemoveCommas(a) == h + RemoveCommas(a[1..]);
    }
  }

  /** Removing the commas of an optional comma, a non-comma and a rest keeps the character and the rest's non-commas. */
  lemma RemoveCommasCons(c: string, x: char, rest: string)
    requires c == "" || c == ","
    requires x != ','
    ensures RemoveCommas(c + [x] + rest) == [x] + RemoveCommas(rest)
  {
    var t := [x] + rest;
    assert t[0] == x && t[1..] == rest;
    if c == "," {
      var u := c + [x] + rest;
      assert u[0] == ',' && u[1..] == t;
    } else {
      assert c + [x] + rest == t;
    }
  }

  /** Only commas are inserted: removing them from the result gives back a comma-free text. */
  lemma {:induction false} RemoveCommasFrom(s: string, i: nat)
    requires forall j :: 0 <= j < |s| ==> s[j] != ','
    requires i <= |s|
    ensures RemoveCommas(FormatFrom(s, i)) == s[i..]
    decreases |s| - i
  {
    if i < |s| {
      RemoveCommasFrom(s, i + 1);
      RemoveCommasCons(if CommaBefore(s, i) then "," else "", s[i], FormatFrom(s, i + 1));
      assert s[i..] == [s[i]] + s[i + 1..];
    }
  }

  /** Deleting the commas of an integer's output gives its `toString()`. */
  lemma NatRoundTrip(n: nat)
    ensures RemoveCommas(FormatNat(n)) == Js.NatToString(n)
  {
    var s := Js.NatToString(n);
    assert forall j :: 0 <= j < |s| ==> s[j] != ',' by {
      assert Js.AllDigits(s);
    }
    RemoveCommasFrom(s, 0);
  }

  /** In a digit string, the run from `i` reaches the end. */
  lemma {:induction false} DigitRunToEnd(d: string, i: nat)
    requires Js.AllDigits(d) && i <= |d|
    ensures DigitRun(d, i) == |d| - i
    decreases |d| - i
  {
    if i < |d| {
      DigitRunToEnd(d, i + 1);
    }
  }

  /** No comma goes into the last three digits, or into a digit string of at most three. */
  lemma {:induction false} ShortTail(d: string, i: nat)
    requires Js.AllDigits(d) && i <= |d| && |d| - i <= 3 && (|d| - i == 3 ==> i == 0)
    ensures FormatFrom(d, i) == d[i..]
    decreases |d| - i
  {
    if i < |d| {
      DigitRunToEnd(d, i);
      ShortTail(d, i + 1);
      assert d[i..] == [d[i]] + d[i + 1..];
    }
  }

  /** Dropping the last three digits of a digit string does not move a comma before them. */
  lemma CommaBeforeTrim(d: string, i: nat)
    requires Js.AllDigits(d) && |d| > 3 && i < |d| - 3
    ensures CommaBefore(d, i) == CommaBefore(d[..|d| - 3], i)
  {
    var p := d[..|d| - 3];
    DigitRunToEnd(d, i);
    DigitRunToEnd(p, i);
    assert DigitRun(d, i) == DigitRun(p, i) + 3;
    assert i > 0 ==> p[i - 1] == d[i - 1];
  }

  lemma Regroup(a: string, b: string, x: string, y: string)
    ensures a + ((b + x) + y) == ((a + b) + x) + y
  {
  }

  /**
   * Peeling off the last group: for a digit string longer than three, the
   * output from `i` is the output of the string without its last three digits,
   * a comma, and those three digits.
   */
  lemma {:induction false} SplitLastGroup(d: string, i: nat)
    requires Js.AllDigits(d) && |d| > 3 && i <= |d| - 3
    ensures FormatFrom(d, i) == FormatFrom(d[..|d| - 3], i) + "," + d[|d| - 3..]
    decreases |d| - i
  {
    var m := |d| - 3;
    var p := d[..m];
    var t := d[m..];
    if i == m {
      DigitRunToEnd(d, m);
      assert CommaBefore(d, m);
      ShortTail(d, m + 1);
      assert FormatFrom(d, m) == "," + [d[m]] + d[m + 1..];
      assert FormatFrom(p, m) == "";
      assert t == [d[m]] + d[m + 1..];
      assert "," + [d[m]] + d[m + 1..] == "" + "," + t;
    } else {
      SplitLastGroup(d, i + 1);
      CommaBeforeTrim(d, i);
      var c := if CommaBefore(d, i) then "," else "";
      var rp := FormatFrom(p, i + 1);
      assert FormatFrom(d, i) == (c + [d[i]]) + ((rp + ",") + t);
      assert FormatFrom(p, i) == (c + [d[i]]) + rp;
      Regroup(c + [d[i]], rp, ",", t);
    }
  }

  /** For digit strings, the regular expression groups as the usual rule does. */
  lemma {:induction false} DigitsGrouped(d: string)
    requires Js.AllDigits(d)
    ensures FormatWithCommas(d) == Grouped(d)
    decreases |d|
  {
    if |d| <= 3 {
      ShortTail(d, 0);
    } else {
      SplitLastGroup(d, 0);
      assert Js.AllDigits(d[..|d| - 3]);
      DigitsGrouped(d[..|d| - 3]);
    }
  }

  /**
   * In a grouping of digits, the commas stand exactly every fourth position
   * counted from the end and never first: the first group has one to three
   * digits and every later group three.
   */
  lemma {:induction false} GroupShape(d: string)
    requires Js.AllDigits(d)
    ensures forall j :: 0 <= j < |Grouped(d)| ==>
      (Grouped(d)[j] == ',' <==> 0 < j && (|Grouped(d)| - j) % 4 == 0)
    decreases |d|
  {
    var g := Grouped(d);
    if |d| <= 3 {
      assert g == d;
      forall j | 0 <= j < |g|
        ensures g[j] == ',' <==> 0 < j && (|g| - j) % 4 == 0
      {
        assert Js.IsDigit(d[j]);
        assert 0 < |g| - j <= 3;
      }
    } else {
      var p := d[..|d| - 3];
      var t := d[|d| - 3..];
      assert Js.AllDigits(p);
      GroupShape(p);
      var gp := Grouped(p);
      assert g == gp + "," + t;
      assert |g| == |gp| + 4;
      forall j | 0 <= j < |g|
        ensures g[j] == ',' <==> 0 < j && (|g| - j) % 4 == 0
      {
        if j < |gp| {
          assert g[j] == gp[j];
          assert gp[j] == ',' <==> 0 < j && (|gp| - j) % 4 == 0;
          assert (|g| - j) % 4 == (|gp| - j) % 4;
        } else if j == |gp| {
          assert g[j] == ',';
          assert |g| - j == 4;
          assert |gp| > 0 by { assert |p| > 0; }
        } else {
          var k := j - |gp| - 1;
          assert 0 <= k < 3;
          assert g[j] == t[k];
          assert t[k] == d[|d| - 3 + k];
          assert Js.IsDigit(d[|d| - 3 + k]);
          assert 0 < |g| - j < 4;
        }
      }
    }
  }

  /** A four-digit string gets one comma, after its first digit. */
  lemma FourDigitsGrouped(d: string)
    requires Js.AllDigits(d) && |d| == 4
    ensures FormatWithCommas(d) == d[..1] + "," + d[1..]
  {
    DigitsGrouped(d);
    assert d[..1][..|d[..1]|] == d[..1];
  }

  /** `formatWithCommas(1000)` is "1,000". */
  lemma Thousand()
    ensures FormatNat(1000) == "1,000"
  {
    assert Js.NatToString(10) == "10";
    assert Js.NatToString(100) == "100";
    assert Js.NatToString(1000) == "1000";
    ThousandGrouped("1000");
  }

  lemma ThousandGrouped(d: string)
    requires d == "1000"
    ensures FormatWithCommas(d) == "1,000"
  {
    FourDigitsGrouped(d);
    assert d[..1] == "1" && d[1..] == "000";
  }

  /** Integers below 1000 are returned as `toString()` writes them. */
  lemma {:induction false} BelowThousandUnchanged(n: nat)
    requires n < 1000
    ensures FormatNat(n) == Js.NatToString(n)
  {
    var s := Js.NatToString(n);
    if n < 10 {
      Js.NatToStringLength(n, 1, 1);
    } else if n < 100 {
      Js.NatToStringLength(n, 2, 10);
    } else {
      Js.NatToStringLength(n, 3, 100);
    }
    ShortTail(s, 0);
  }

  /** In digits followed by a point, the run of digits from `i` stops at the point. */
  lemma {:induction false} DigitRunStopsAtPoint(whole: string, fraction: string, i: nat)
    requires Js.AllDigits(whole) && i <= |whole|
    ensures DigitRun(whole + "." + fraction, i) == |whole| - i
    decreases |whole| - i
  {
    var s := whole + "." + fraction;
    if i < |whole| {
      DigitRunStopsAtPoint(whole, fraction, i + 1);
      assert s[i] == whole[i];
    } else {
      assert s[i] == '.';
    }
  }

  /** The run of digits of a suffix does not depend on what precedes it. */
  lemma {:induction false} DigitRunShift(pre: string, t: string, k: nat)
    requires k <= |t|
    ensures DigitRun(pre + t, |pre| + k) == DigitRun(t, k)
    decreases |t| - k
  {
    if k < |t| {
      DigitRunShift(pre, t, k + 1);
      assert (pre + t)[|pre| + k] == t[k];
    }
  }

  /** After a character that is not a word character, or at the start, a suffix gets its commas where it would alone. */
  lemma CommaBeforeShift(pre: string, t: string, k: nat)
    requires |pre| == 0 || !IsWordChar(pre[|pre| - 1])
    requires k < |t|
    ensures CommaBefore(pre + t, |pre| + k) == CommaBefore(t, k)
  {
    DigitRunShift(pre, t, k);
    if k > 0 {
      assert (pre + t)[|pre| + k - 1] == t[k - 1];
    }
  }

  /**
   * After a character that is not a word character, or at the start, the
   * replacement of a suffix is that of the suffix on its own.
   */
  lemma {:induction false} FormatFromShift(pre: string, t: string, k: nat)
    requires |pre| == 0 || !IsWordChar(pre[|pre| - 1])
    requires k <= |t|
    ensures FormatFrom(pre + t, |pre| + k) == FormatFrom(t, k)
    decreases |t| - k
  {
    var s := pre + t;
    var i := |pre| + k;
    if k < |t| {
      FormatFromShift(pre, t, k + 1);
      assert FormatFrom(s, i + 1) == FormatFrom(t, k + 1);
      CommaBeforeShift(pre, t, k);
      assert s[i] == t[k];
      assert FormatFrom(s, i) == (if CommaBefore(s, i) then "," else "") + [s[i]] + FormatFrom(s, i + 1);
    } else {
      assert i == |s|;
    }
  }

  /** Before the point, a comma goes where it would go in the integer digits alone. */
  lemma CommaBeforeInWhole(whole: string, fraction: string, i: nat)
    requires Js.AllDigits(whole) && i < |whole|
    ensures CommaBefore(whole + "." + fraction, i) == CommaBefore(whole, i)
  {
    DigitRunStopsAtPoint(whole, fraction, i);
    DigitRunToEnd(whole, i);
    if i > 0 {
      assert (whole + "." + fraction)[i - 1] == whole[i - 1];
    }
  }

  /**
   * In digits, a point and a fraction, the integer digits are formatted as on
   * their own, and the text after the point is formatted on its own too.
   */
  lemma {:induction false} IntegerPartLocal(whole: string, fraction: string, i: nat)
    requires Js.AllDigits(whole) && i <= |whole|
    ensures FormatFrom(whole + "." + fraction, i) == FormatFrom(whole, i) + "." + FormatFrom(fraction, 0)
    decreases |whole| - i
  {
    var s := whole + "." + fraction;
    var tail := FormatFrom(fraction, 0);
    if i == |whole| {
      DigitRunStopsAtPoint(whole, fraction, i);
      FormatFromShift(whole + ".", fraction, 0);
      assert FormatFrom(s, i) == "." + tail;
    } else {
      IntegerPartLocal(whole, fraction, i + 1);
      CommaBeforeInWhole(whole, fraction, i);
      assert s[i] == whole[i];
      var c := if CommaBefore(s, i) then "," else "";
      var rw := FormatFrom(whole, i + 1);
      assert FormatFrom(s, i) == (c + [whole[i]]) + ((rw + ".") + tail);
      assert FormatFrom(whole, i) == (c + [whole[i]]) + rw;
      Regroup(c + [whole[i]], rw, ".", tail);
    }
  }

  /**
   * As written, the pattern also groups the digits after a decimal point: the
   * integer digits and the fraction digits are each grouped by threes counted
   * from their right end.
   */
  lemma {:induction false} FractionGrouped(whole: string, fraction: string)
    requires Js.AllDigits(whole) && Js.AllDigits(fraction)
    ensures FormatWithCommas(whole + "." + fraction) == Grouped(whole) + "." + Grouped(fraction)
  {
    IntegerPartLocal(whole, fraction, 0);
    DigitsGrouped(whole);
    DigitsGrouped(fraction);
  }

  /** A balance of 1234.5678 is shown as "1,234.5,678". */
  lemma FractionGroupedExample(text: string)
    requires text == "1234.5678"
    ensures FormatWithCommas(text) == "1,234.5,678"
  {
    var w, f := "1234", "5678";
    assert w + "." + f == text;
    FractionGrouped(w, f);
    assert Grouped(w) == w[..1] + "," + w[1..];
    assert Grouped(f) == f[..1] + "," + f[1..];
    assert w[..1] + "," + w[1..] + "." + (f[..1] + "," + f[1..]) == "1,234.5,678";
  }

  /** The position of the first '.' in `s`, or `|s|`. */
  function PointIndex(s: string): (i: nat)
    ensures i <= |s|
    ensures i < |s| ==> s[i] == '.'
    ensures forall j :: 0 <= j < i ==> s[j] != '.'
  {
    if s == [] then 0 else if s[0] == '.' then 0 else 1 + PointIndex(s[1..])
  }

  /**
   * The evident intent: group only the part before the decimal point and keep
   * the fraction as it is.
   */
  function FormatWithCommasCorrected(text: string): (r: string)
    ensures var p := PointIndex(text);
      Js.AllDigits(text[..p]) ==> r == Grouped(text[..p]) + text[p..]
  {
    var p := PointIndex(text);
    if Js.AllDigits(text[..p]) then DigitsGrouped(text[..p]); FormatWithCommas(text[..p]) + text[p..]
    else FormatWithCommas(text[..p]) + text[p..]
  }

  /**
   * For the text of a decimal number, digits, a point and digits, the
   * corrected formatting groups the integer digits by the usual rule and keeps
   * the point and the fraction as they are; texts without a point are
   * formatted as before.
   */
  lemma {:induction false} CorrectedGroupsIntegerPart(whole: string, fraction: string)
    requires Js.AllDigits(whole) && Js.AllDigits(fraction)
    ensures FormatWithCommasCorrected(whole + "." + fraction) == Grouped(whole) + "." + fraction
    ensures FormatWithCommasCorrected(whole) == FormatWithCommas(whole)
  {
    var text := whole + "." + fraction;
    PointOfDecimal(whole, fraction);
    assert text[..|whole|] == whole;
    assert text[|whole|..] == "." + fraction;
    DigitsGrouped(whole);
    assert forall j :: 0 <= j < |whole| ==> whole[j] != '.';
    assert whole[..|whole|] == whole;
  }

  /** In digits, a point and digits, the point is after the integer digits. */
  lemma {:induction false} PointOfDecimal(whole: string, fraction: string)
    requires Js.AllDigits(whole)
    ensures PointIndex(whole + "." + fraction) == |whole|
  {
    var text := whole + "." + fraction;
    assert forall j :: 0 <= j < |whole| ==> text[j] == whole[j] && whole[j] != '.';
    assert text[|whole|] == '.';
  }
}
