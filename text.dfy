/** Python's string formatting of integers (`f"{x}"`, `f"{x:03d}"`) and the two
    string tests the retrieval code uses (`str.endswith` and the `in` operator). */
module Text {

  predicate IsDigit(c: char) {
    '0' <= c <= '9'
  }

  predicate AllDigits(s: string) {
    forall i :: 0 <= i < |s| ==> IsDigit(s[i])
  }

  function DigitChar(d: nat): (c: char)
    requires d < 10
    ensures IsDigit(c)
  {
    ('0' as int + d) as char
  }

  function DigitValue(c: char): (d: nat)
    requires IsDigit(c)
    ensures d < 10 && DigitChar(d) == c
  {
    c as int - '0' as int
  }

  function Pow10(k: nat): (p: nat)
    ensures p >= 1
  {
    if k == 0 then 1 else 10 * Pow10(k - 1)
  }

  /** The decimal digits of a natural number, most significant first, without leading zeros. */
  function NatDigits(x: nat): (s: string)
    ensures |s| > 0 && AllDigits(s)
    ensures |s| > 1 ==> s[0] != '0'
  {
    if x < 10 then [DigitChar(x)] else NatDigits(x / 10) + [DigitChar(x % 10)]
  }

  /** The number a string of decimal digits denotes (leading zeros allowed). */
  function ParseDigits(s: string): nat
    requires AllDigits(s)
  {
    if s == [] then 0 else 10 * ParseDigits(s[..|s| - 1]) + DigitValue(s[|s| - 1])
  }

  /** Python's `str(x)` and `f"{x}"` for an `int`. */
  function IntText(x: int): (s: string)
    ensures |s| > 0
    ensures x >= 0 ==> AllDigits(s)
    ensures x < 0 ==> s[0] == '-' && AllDigits(s[1..])
  {
    if x < 0 then "-" + NatDigits(-x) else NatDigits(x)
  }

  /** The number written by IntText, read back. */
  function ParseInt(s: string): int
    requires |s| > 0
    requires AllDigits(s) || (s[0] == '-' && AllDigits(s[1..]))
  {
    if s[0] == '-' then -(ParseDigits(s[1..]) as int) else ParseDigits(s)
  }

  function Zeros(k: int): (s: string)
    ensures |s| == if k > 0 then k else 0
    ensures AllDigits(s)
  {
    seq(if k > 0 then k else 0, _ => '0')
  }

  /** Python's `f"{x:0wd}"`: the sign first, then zeros, then the digits, at least `w` characters in all. */
  function ZeroPad(x: int, w: nat): (s: string)
    ensures |s| >= w
    ensures x >= 0 ==> AllDigits(s)
  {
    if x < 0 then "-" + Zeros(w - 1 - |NatDigits(-x)|) + NatDigits(-x)
    else Zeros(w - |NatDigits(x)|) + NatDigits(x)
  }

  /** Python's `s.endswith(suffix)`. */
  predicate EndsWith(s: string, suffix: string) {
    |suffix| <= |s| && s[|s| - |suffix|..] == suffix
  }

  predicate OccursAt(s: string, sub: string, i: int) {
    0 <= i && i + |sub| <= |s| && s[i..i + |sub|] == sub
  }

  /** Python's `sub in s` on strings. */
  predicate Contains(s: string, sub: string) {
    exists i :: 0 <= i <= |s| - |sub| && OccursAt(s, sub, i)
  }

  // ---------------------------------------------------------------------------
  // Decimal round trips

  lemma {:induction false} NatDigitsRoundTrip(x: nat)
    ensures ParseDigits(NatDigits(x)) == x
  {
    if x >= 10 {
      NatDigitsRoundTrip(x / 10);
      var s := NatDigits(x);
      assert s[..|s| - 1] == NatDigits(x / 10);
    }
  }

  /** `f"{x}"` reads back as `x`: the decimal text of an int identifies it. */
  lemma IntTextRoundTrip(x: int)
    ensures ParseInt(IntText(x)) == x
  {
    if x < 0 {
      NatDigitsRoundTrip(-x);
      assert IntText(x)[1..] == NatDigits(-x);
    } else {
      NatDigitsRoundTrip(x);
    }
  }

  lemma IntTextInjective(x: int, y: int)
    requires IntText(x) == IntText(y)
    ensures x == y
  {
    IntTextRoundTrip(x);
    IntTextRoundTrip(y);
  }

  /** A number below 10^k has at most k digits. */
  lemma {:induction false} NatDigitsLength(x: nat, k: nat)
    requires k >= 1 && x < Pow10(k)
    ensures |NatDigits(x)| <= k
  {
    if x >= 10 {
      assert k >= 2;
      NatDigitsLength(x / 10, k - 1);
    }
  }

  lemma {:induction false} ParseLeadingZeros(k: int, s: string)
    requires AllDigits(s)
    ensures ParseDigits(Zeros(k) + s) == ParseDigits(s)
    decreases |s|
  {
    var z := Zeros(k);
    if s == [] {
      assert z + s == z;
      ParseZeros(k);
    } else {
      var t := z + s;
      assert t[..|t| - 1] == z + s[..|s| - 1];
      ParseLeadingZeros(k, s[..|s| - 1]);
    }
  }

  lemma {:induction false} ParseZeros(k: int)
    ensures ParseDigits(Zeros(k)) == 0
    decreases if k > 0 then k else 0
  {
    if k > 0 {
      assert Zeros(k)[..k - 1] == Zeros(k - 1);
      ParseZeros(k - 1);
    }
  }

  /** For a number below 10^w, `f"{x:0wd}"` has exactly w digits and reads back as x
      (`f"{x:03d}"` for an orbit, `f"{x:04d}"` for a burst cycle). */
  lemma ZeroPadReadsBack(x: nat, w: nat)
    requires w >= 1 && x < Pow10(w)
    ensures |ZeroPad(x, w)| == w && AllDigits(ZeroPad(x, w))
    ensures ParseDigits(ZeroPad(x, w)) == x
  {
    var digits := NatDigits(x);
    NatDigitsLength(x, w);
    assert ZeroPad(x, w) == Zeros(w - |digits|) + digits;
    ParseLeadingZeros(w - |digits|, digits);
    NatDigitsRoundTrip(x);
  }

  /** A number at or above 10^w is not truncated: `f"{x:0wd}"` is then its plain decimal text. */
  lemma {:induction false} ZeroPadWide(x: nat, w: nat)
    requires x >= Pow10(w)
    ensures ZeroPad(x, w) == NatDigits(x)
  {
    WideHasMoreDigits(x, w);
    assert Zeros(w - |NatDigits(x)|) == [];
  }

  lemma {:induction false} WideHasMoreDigits(x: nat, w: nat)
    requires x >= Pow10(w)
    ensures |NatDigits(x)| > w
  {
    if w > 0 {
      assert x >= 10;
      WideHasMoreDigits(x / 10, w - 1);
    }
  }

  // ---------------------------------------------------------------------------
  // Splitting at a separator

  /** Two strings that each begin with a separator-free part followed by the same
      separator agree on that part and on the rest. */
  lemma SplitAtSeparator(a: string, x: string, b: string, y: string, sep: char)
    requires sep !in a && sep !in b
    requires a + [sep] + x == b + [sep] + y
    ensures a == b && x == y
  {
    var s := a + [sep] + x;
    FirstSeparator(a, x, sep);
    FirstSeparator(b, y, sep);
    assert |a| == |b|;
    assert a == s[..|a|] == b;
    assert x == s[|a| + 1..] == y;
  }

  /** In `a + [sep] + x` with `sep` not in `a`, the first `sep` stands at `|a|`. */
  lemma FirstSeparator(a: string, x: string, sep: char)
    requires sep !in a
    ensures (a + [sep] + x)[|a|] == sep
    ensures forall i :: 0 <= i < |a| ==> (a + [sep] + x)[i] != sep
  {
    forall i | 0 <= i < |a| ensures (a + [sep] + x)[i] != sep {
      assert (a + [sep] + x)[i] == a[i];
    }
  }

  lemma DigitsHaveNoLetter(s: string, c: char)
    requires AllDigits(s) && !IsDigit(c)
    ensures c !in s
  {
  }

  lemma IntTextHasNoLetter(x: int, c: char)
    requires !IsDigit(c) && c != '-'
    ensures c !in IntText(x)
  {
    var s := IntText(x);
    if x < 0 {
      assert s == "-" + s[1..];
      DigitsHaveNoLetter(s[1..], c);
    }
  }
}
