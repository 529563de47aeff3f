/** Strings as the message builder sees them: substring occurrence and the
    decimal rendering that Python's f-string interpolation gives an integer. */
module Text {

  /** `s` begins with `t`. */
  predicate StartsWith(s: string, t: string)
  {
    |t| <= |s| && s[..|t|] == t
  }

  /** `t` occurs in `s` as a contiguous piece (Python's `t in s`). */
  predicate Contains(s: string, t: string)
    decreases |s|
  {
    StartsWith(s, t) || (|s| > 0 && Contains(s[1..], t))
  }

  lemma {:induction false} ContainsPrepend(a: string, s: string, t: string)
    requires Contains(s, t)
    ensures Contains(a + s, t)
    decreases |a|
  {
    if a == [] {
      assert a + s == s;
    } else {
      ContainsPrepend(a[1..], s, t);
      assert (a + s)[1..] == a[1..] + s;
    }
  }

  lemma {:induction false} ContainsAppend(s: string, b: string, t: string)
    requires Contains(s, t)
    ensures Contains(s + b, t)
    decreases |s|
  {
    if StartsWith(s, t) {
      assert (s + b)[..|t|] == s[..|t|];
    } else {
      ContainsAppend(s[1..], b, t);
      assert (s + b)[1..] == s[1..] + b;
    }
  }

  /** Whatever surrounds a piece of text, the piece still occurs. */
  lemma ContainsInfix(a: string, t: string, b: string)
    ensures Contains(a + t + b, t)
  {
    assert StartsWith(t, t);
    ContainsAppend(t, b, t);
    ContainsPrepend(a, t + b, t);
    assert a + t + b == a + (t + b);
  }

  /** An occurrence inside `m` is an occurrence inside `a + m + b`. */
  lemma ContainsWithin(a: string, m: string, b: string, t: string)
    requires Contains(m, t)
    ensures Contains(a + m + b, t)
  {
    ContainsAppend(m, b, t);
    ContainsPrepend(a, m + b, t);
    assert a + m + b == a + (m + b);
  }

  /** The texts of `items`, one after the other. */
  function Concat<L>(items: seq<L>, text: L -> string): string
    decreases |items|
  {
    if items == [] then "" else Concat(items[..|items| - 1], text) + text(items[|items| - 1])
  }

  lemma ConcatSnoc<L>(items: seq<L>, item: L, text: L -> string)
    ensures Concat(items + [item], text) == Concat(items, text) + text(item)
  {
    assert (items + [item])[..|items|] == items;
  }

  lemma {:induction false} ConcatAppend<L>(a: seq<L>, b: seq<L>, text: L -> string)
    ensures Concat(a + b, text) == Concat(a, text) + Concat(b, text)
    decreases |b|
  {
    if b == [] {
      assert a + b == a;
    } else {
      var n := |b| - 1;
      ConcatAppend(a, b[..n], text);
      assert (a + b)[..|a + b| - 1] == a + b[..n];
    }
  }

  /** Whatever occurs in the text of one item occurs in the whole. */
  lemma {:induction false} ConcatContains<L>(items: seq<L>, item: L, text: L -> string, t: string)
    requires item in items
    requires Contains(text(item), t)
    ensures Contains(Concat(items, text), t)
    decreases |items|
  {
    var n := |items| - 1;
    if items[n] == item {
      ContainsPrepend(Concat(items[..n], text), text(item), t);
    } else {
      assert item in items[..n];
      ConcatContains(items[..n], item, text, t);
      ContainsAppend(Concat(items[..n], text), text(items[n]), t);
    }
  }

  predicate IsDigit(c: char)
  {
    '0' <= c <= '9'
  }

  function DigitChar(d: int): (c: char)
    requires 0 <= d < 10
    ensures IsDigit(c) && c as int - '0' as int == d
  {
    ('0' as int + d) as char
  }

  /** The number a string of decimal digits denotes. */
  function DecimalValue(s: string): nat
    requires forall i :: 0 <= i < |s| ==> IsDigit(s[i])
    decreases |s|
  {
    if s == [] then 0
    else
      assert IsDigit(s[|s| - 1]);
      DecimalValue(s[..|s| - 1]) * 10 + (s[|s| - 1] as int - '0' as int)
  }

  /** Decimal digits of `n`, most significant first, without leading zeros. */
  function NatToDecimal(n: nat): (s: string)
    ensures |s| >= 1
    ensures forall i :: 0 <= i < |s| ==> IsDigit(s[i])
    ensures s[0] == '0' <==> n == 0
    ensures n == 0 ==> s == "0"
    decreases n
  {
    if n < 10 then [DigitChar(n)] else NatToDecimal(n / 10) + [DigitChar(n % 10)]
  }

  /** Reading the rendered digits back gives the number: the rendering is exact. */
  lemma {:induction false} DecimalRoundTrip(n: nat)
    ensures DecimalValue(NatToDecimal(n)) == n
    decreases n
  {
    var s := NatToDecimal(n);
    if n >= 10 {
      DecimalRoundTrip(n / 10);
      assert s[..|s| - 1] == NatToDecimal(n / 10);
    }
  }

  /** `str(i)` for a Python int: a minus sign for negatives, then the digits. */
  function IntToString(i: int): (s: string)
    ensures |s| >= 1
    ensures i >= 0 ==>
              && (forall k :: 0 <= k < |s| ==> IsDigit(s[k]))
              && DecimalValue(s) == i
              && (s[0] == '0' <==> i == 0)
              && (i == 0 ==> s == "0")
    ensures i < 0 ==>
              && |s| >= 2 && s[0] == '-' && s[1] != '0'
              && (forall k :: 1 <= k < |s| ==> IsDigit(s[k]))
              && DecimalValue(s[1..]) == -i
  {
    if i < 0 then
      DecimalRoundTrip(-i);
      var digits := NatToDecimal(-i);
      assert ("-" + digits)[1..] == digits;
      "-" + digits
    else
      DecimalRoundTrip(i);
      NatToDecimal(i)
  }
}
