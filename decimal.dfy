/** Decimal rendering of unsigned integers (what std::to_string produces for
    the header fields) and of the "label: value" summaries the layers build
    with an output string stream, with the facts that make a summary readable
    back: the digits determine the number, and a summary determines the
    values it shows. */
module Decimal {

  predicate IsDigit(c: char) {
    '0' <= c <= '9'
  }

  predicate IsDigits(s: string) {
    forall i :: 0 <= i < |s| ==> IsDigit(s[i])
  }

  /** A separator label: non-empty and not ending in a digit, so that the
      digits rendered after it cannot merge with it. */
  predicate IsLabel(s: string) {
    |s| > 0 && !IsDigit(s[|s| - 1])
  }

  function DigitChar(d: nat): (c: char)
    requires d < 10
    ensures IsDigit(c)
  {
    ('0' as int + d) as char
  }

  function DigitValue(c: char): (d: nat)
    requires IsDigit(c)
    ensures d < 10 && DigitChar(d) == c
  {
    c as int - '0' as int
  }

  /** std::to_string of an unsigned value: its decimal digits, most
      significant first, with no leading zero. */
  function NatToDecimal(n: nat): (s: string)
    ensures |s| >= 1 && IsDigits(s)
    ensures s[0] == '0' ==> n == 0
    decreases n
  {
    if n < 10 then [DigitChar(n)] else NatToDecimal(n / 10) + [DigitChar(n % 10)]
  }

  /** The number a string of decimal digits denotes. */
  function DecimalValue(s: string): nat
    requires IsDigits(s)
    decreases |s|
  {
    if s == [] then 0 else DecimalValue(s[..|s| - 1]) * 10 + DigitValue(s[|s| - 1])
  }

  /** Reading back the rendered digits gives the number. */
  lemma {:induction false} DecimalRoundTrip(n: nat)
    ensures DecimalValue(NatToDecimal(n)) == n
  {
    if n >= 10 {
      var s := NatToDecimal(n);
      assert s[..|s| - 1] == NatToDecimal(n / 10);
      DecimalRoundTrip(n / 10);
    }
  }

  /** A digit string without a leading zero denotes a positive number. */
  lemma {:induction false} LeadingDigitPositive(s: string)
    requires IsDigits(s) && |s| >= 1 && s[0] != '0'
    ensures DecimalValue(s) >= 1
  {
    if |s| > 1 {
      LeadingDigitPositive(s[..|s| - 1]);
    }
  }

  /** Every canonical digit string (no leading zero unless it is "0") is the
      rendering of the number it denotes, so NatToDecimal is a bijection onto
      canonical digit strings. */
  lemma {:induction false} DecimalCanonical(s: string)
    requires IsDigits(s) && |s| >= 1 && (s[0] == '0' ==> |s| == 1)
    ensures NatToDecimal(DecimalValue(s)) == s
  {
    if |s| > 1 {
      var init := s[..|s| - 1];
      LeadingDigitPositive(init);
      DecimalCanonical(init);
      var v := DecimalValue(s);
      assert v / 10 == DecimalValue(init) && v % 10 == DigitValue(s[|s| - 1]);
      assert s == init + [s[|s| - 1]];
    }
  }

  /** Different numbers render differently. */
  lemma NatToDecimalInjective(a: nat, b: nat)
    ensures NatToDecimal(a) == NatToDecimal(b) ==> a == b
  {
    DecimalRoundTrip(a);
    DecimalRoundTrip(b);
  }

  /** The number of digits at the end of s. */
  function TrailingDigits(s: string): (k: nat)
    ensures k <= |s|
    decreases |s|
  {
    if s != [] && IsDigit(s[|s| - 1]) then TrailingDigits(s[..|s| - 1]) + 1 else 0
  }

  /** The number of digits at the start of s. */
  function LeadingDigits(s: string): (k: nat)
    ensures k <= |s|
    decreases |s|
  {
    if s != [] && IsDigit(s[0]) then LeadingDigits(s[1..]) + 1 else 0
  }

  lemma {:induction false} TrailingDigitsAfterLabel(x: string, d: string)
    requires IsLabel(x) && IsDigits(d)
    ensures TrailingDigits(x + d) == |d|
    decreases |d|
  {
    if d == [] {
      assert x + d == x;
    } else {
      assert (x + d)[..|x + d| - 1] == x + d[..|d| - 1];
      TrailingDigitsAfterLabel(x, d[..|d| - 1]);
    }
  }

  lemma {:induction false} LeadingDigitsBeforeNonDigit(d: string, y: string)
    requires IsDigits(d) && |y| > 0 && !IsDigit(y[0])
    ensures LeadingDigits(d + y) == |d|
    decreases |d|
  {
    if d == [] {
      assert d + y == y;
    } else {
      assert (d + y)[1..] == d[1..] + y;
      LeadingDigitsBeforeNonDigit(d[1..], y);
    }
  }

  /** A label followed by a rendered number can be split back into the two. */
  lemma PeelDecimal(x1: string, n1: nat, x2: string, n2: nat)
    requires IsLabel(x1) && IsLabel(x2)
    requires x1 + NatToDecimal(n1) == x2 + NatToDecimal(n2)
    ensures x1 == x2 && n1 == n2
  {
    var d1, d2 := NatToDecimal(n1), NatToDecimal(n2);
    var s := x1 + d1;
    TrailingDigitsAfterLabel(x1, d1);
    TrailingDigitsAfterLabel(x2, d2);
    assert d1 == s[|x1|..] && d2 == s[|x2|..];
    assert x1 == s[..|x1|] && x2 == s[..|x2|];
    NatToDecimalInjective(n1, n2);
  }

  /** A rendered number followed by text that starts with a non-digit can be
      split back into the two. */
  lemma PeelLeadingDecimal(n1: nat, y1: string, n2: nat, y2: string)
    requires |y1| > 0 && !IsDigit(y1[0]) && |y2| > 0 && !IsDigit(y2[0])
    requires NatToDecimal(n1) + y1 == NatToDecimal(n2) + y2
    ensures n1 == n2 && y1 == y2
  {
    var d1, d2 := NatToDecimal(n1), NatToDecimal(n2);
    var s := d1 + y1;
    LeadingDigitsBeforeNonDigit(d1, y1);
    LeadingDigitsBeforeNonDigit(d2, y2);
    assert d1 == s[..|d1|] && d2 == s[..|d2|];
    assert y1 == s[|d1|..] && y2 == s[|d2|..];
    NatToDecimalInjective(n1, n2);
  }

  /** After a common prefix, a rendered number followed by text that starts
      with a non-digit can be split back into the two. */
  lemma PeelPrefixedDecimal(prefix: string, n1: nat, y1: string, n2: nat, y2: string)
    requires |y1| > 0 && !IsDigit(y1[0]) && |y2| > 0 && !IsDigit(y2[0])
    requires prefix + NatToDecimal(n1) + y1 == prefix + NatToDecimal(n2) + y2
    ensures n1 == n2 && y1 == y2
  {
    assert (prefix + NatToDecimal(n1) + y1)[|prefix|..] == NatToDecimal(n1) + y1;
    assert (prefix + NatToDecimal(n2) + y2)[|prefix|..] == NatToDecimal(n2) + y2;
    PeelLeadingDecimal(n1, y1, n2, y2);
  }

  /** The index of the first c in s, or |s| when there is none. */
  function IndexOf(c: char, s: string): (k: nat)
    ensures k <= |s|
    decreases |s|
  {
    if s == [] || s[0] == c then 0 else IndexOf(c, s[1..]) + 1
  }

  lemma {:induction false} IndexOfAfterFree(c: char, t: string, y: string)
    requires c !in t && |y| > 0 && y[0] == c
    ensures IndexOf(c, t + y) == |t|
    decreases |t|
  {
    if t == [] {
      assert t + y == y;
    } else {
      assert (t + y)[1..] == t[1..] + y;
      IndexOfAfterFree(c, t[1..], y);
    }
  }

  /** Text free of a separator character, followed by text that starts with
      it, can be split back into the two at the first separator. */
  lemma PeelBeforeSeparator(sep: char, t1: string, y1: string, t2: string, y2: string)
    requires sep !in t1 && sep !in t2
    requires |y1| > 0 && y1[0] == sep && |y2| > 0 && y2[0] == sep
    requires t1 + y1 == t2 + y2
    ensures t1 == t2 && y1 == y2
  {
    var s := t1 + y1;
    IndexOfAfterFree(sep, t1, y1);
    IndexOfAfterFree(sep, t2, y2);
    assert t1 == s[..|t1|] && t2 == s[..|t2|];
    assert y1 == s[|t1|..] && y2 == s[|t2|..];
  }

  /** head, then for each field its label and its value in decimal: the text
      `str << head << label0 << std::to_string(v0) << label1 << ...` builds. */
  function Render(head: string, labels: seq<string>, values: seq<nat>): string
    requires |labels| == |values|
    decreases |values|
  {
    if values == [] then head
    else
      var n := |values| - 1;
      Render(head, labels[..n], values[..n]) + labels[n] + NatToDecimal(values[n])
  }

  /** Rendering one more field appends its label and its digits. */
  lemma RenderSnoc(head: string, labels: seq<string>, values: seq<nat>, name: string, value: nat)
    requires |labels| == |values|
    ensures Render(head, labels + [name], values + [value]) == Render(head, labels, values) + name + NatToDecimal(value)
  {
    assert (labels + [name])[..|labels|] == labels;
    assert (values + [value])[..|values|] == values;
  }

  /** A rendering whose head is non-empty starts with its head's first
      character. */
  lemma RenderPrefix(head: string, labels: seq<string>, values: seq<nat>)
    requires |labels| == |values| && |head| > 0
    ensures |Render(head, labels, values)| > 0 && Render(head, labels, values)[0] == head[0]
    decreases |values|
  {
    if values != [] {
      var n := |values| - 1;
      RenderPrefix(head, labels[..n], values[..n]);
    }
  }

  /** With the same labels, equal renderings have equal heads and equal
      values: a summary determines every number it shows. */
  lemma {:induction false} RenderInjective(h1: string, h2: string, labels: seq<string>, v1: seq<nat>, v2: seq<nat>)
    requires |labels| == |v1| == |v2|
    requires forall i :: 0 <= i < |labels| ==> IsLabel(labels[i])
    requires Render(h1, labels, v1) == Render(h2, labels, v2)
    ensures h1 == h2 && v1 == v2
    decreases |labels|
  {
    if labels != [] {
      var n := |labels| - 1;
      var x1 := Render(h1, labels[..n], v1[..n]) + labels[n];
      var x2 := Render(h2, labels[..n], v2[..n]) + labels[n];
      assert x1[|x1| - 1] == labels[n][|labels[n]| - 1] && x2[|x2| - 1] == labels[n][|labels[n]| - 1];
      PeelDecimal(x1, v1[n], x2, v2[n]);
      assert Render(h1, labels[..n], v1[..n]) == x1[..|x1| - |labels[n]|];
      RenderInjective(h1, h2, labels[..n], v1[..n], v2[..n]);
      assert v1 == v1[..n] + [v1[n]] && v2 == v2[..n] + [v2[n]];
    }
  }
}
