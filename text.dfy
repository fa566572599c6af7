/** String helpers standing for the JavaScript built-ins the core relies on:
    number-to-string conversion in `prefix + n`, `Array.prototype.join`,
    `String.prototype.toLowerCase`, and a character count used to state the
    line layout of generated text. */
module Text {

  // ---------------------------------------------------------------------
  // Decimal rendering of natural numbers (`"H" + 3` is `"H3"`)
  // ---------------------------------------------------------------------

  function DigitChar(d: nat): char
    requires d < 10
  {
    "0123456789"[d]
  }

  predicate IsDigit(c: char) {
    '0' <= c <= '9'
  }

  function DigitValue(c: char): nat
    requires IsDigit(c)
  {
    (c as int - '0' as int) as nat
  }

  /** The decimal representation of `n`, without leading zeros. */
  function NatToString(n: nat): (s: string)
    ensures |s| > 0
    ensures forall i | 0 <= i < |s| :: IsDigit(s[i])
    ensures |s| > 1 ==> s[0] != '0'
  {
    if n < 10 then [DigitChar(n)] else NatToString(n / 10) + [DigitChar(n % 10)]
  }

  /** Reads a string of decimal digits back as a number. */
  function StringToNat(s: string): nat
    requires forall i | 0 <= i < |s| :: IsDigit(s[i])
  {
    if |s| == 0 then 0 else StringToNat(s[..|s| - 1]) * 10 + DigitValue(s[|s| - 1])
  }

  lemma {:induction false} StringToNatOfNatToString(n: nat)
    ensures StringToNat(NatToString(n)) == n
  {
    if n >= 10 {
      var s := NatToString(n);
      var front := NatToString(n / 10);
      assert s == front + [DigitChar(n % 10)];
      assert s[..|s| - 1] == front;
      StringToNatOfNatToString(n / 10);
    }
  }

  /** Distinct numbers give distinct names under one prefix. */
  lemma PrefixedNamesInjective(prefix: string, a: nat, b: nat)
    requires prefix + NatToString(a) == prefix + NatToString(b)
    ensures a == b
  {
    var sa, sb := prefix + NatToString(a), prefix + NatToString(b);
    assert NatToString(a) == sa[|prefix|..];
    assert NatToString(b) == sb[|prefix|..];
    StringToNatOfNatToString(a);
    StringToNatOfNatToString(b);
  }

  // ---------------------------------------------------------------------
  // Array.prototype.join
  // ---------------------------------------------------------------------

  /** `xs.join(sep)`: the entries separated by `sep`, no trailing separator. */
  function Join(xs: seq<string>, sep: string): string
  {
    if |xs| == 0 then "" else if |xs| == 1 then xs[0] else xs[0] + sep + Join(xs[1..], sep)
  }

  // ---------------------------------------------------------------------
  // String.prototype.toLowerCase, on ASCII letters
  // ---------------------------------------------------------------------

  function LowerChar(c: char): char {
    if 'A' <= c <= 'Z' then (c as int + 32) as char else c
  }

  function ToLower(s: string): (r: string)
    ensures |r| == |s|
    ensures forall i | 0 <= i < |s| :: r[i] == LowerChar(s[i])
  {
    if |s| == 0 then "" else [LowerChar(s[0])] + ToLower(s[1..])
  }

  lemma ToLowerIdempotent(s: string)
    ensures ToLower(ToLower(s)) == ToLower(s)
  {
  }

  // ---------------------------------------------------------------------
  // Counting characters
  // ---------------------------------------------------------------------

  function CountChar(s: string, c: char): nat
  {
    if |s| == 0 then 0 else (if s[0] == c then 1 else 0) + CountChar(s[1..], c)
  }

  lemma {:induction false} CountCharConcat(a: string, b: string, c: char)
    ensures CountChar(a + b, c) == CountChar(a, c) + CountChar(b, c)
  {
    if |a| > 0 {
      assert (a + b)[1..] == a[1..] + b;
      CountCharConcat(a[1..], b, c);
    } else {
      assert a + b == b;
    }
  }

  lemma {:induction false} CountCharAbsent(s: string, c: char)
    requires c !in s
    ensures CountChar(s, c) == 0
  {
    if |s| > 0 {
      assert c !in s[1..];
      CountCharAbsent(s[1..], c);
    }
  }

  /** Joining entries free of `c` counts one `sep`'s worth of `c` per gap. */
  lemma {:induction false} CountCharJoin(xs: seq<string>, sep: string, c: char)
    requires |xs| > 0
    requires forall i | 0 <= i < |xs| :: c !in xs[i]
    ensures CountChar(Join(xs, sep), c) == (|xs| - 1) * CountChar(sep, c)
  {
    if |xs| == 1 {
      CountCharAbsent(xs[0], c);
    } else {
      CountCharAbsent(xs[0], c);
      CountCharJoin(xs[1..], sep, c);
      CountCharConcat(xs[0], sep, c);
      CountCharConcat(xs[0] + sep, Join(xs[1..], sep), c);
    }
  }
}
