/** Decimal text of numbers, as String(n), padStart and parseInt treat it. */
module Decimal {
  import opened Prelude

  predicate IsDigit(c: char) {
    '0' <= c <= '9'
  }

  function DigitChar(d: nat): char
    requires d < 10
  {
    ('0' as int + d) as char
  }

  function DigitValue(c: char): nat
    requires IsDigit(c)
  {
    c as int - '0' as int
  }

  /** String(n) for a natural number. */
  function Digits(n: nat): string {
    if n < 10 then [DigitChar(n)] else Digits(n / 10) + [DigitChar(n % 10)]
  }

  /** String(n) for an integer. */
  function IntText(n: int): string {
    if n < 0 then "-" + Digits(-n) else Digits(n)
  }

  /** s.padStart(width, '0'). */
  function PadStart(s: string, width: nat): string {
    if |s| >= width then s else "0" + PadStart(s, width - 1)
  }

  /** The number a string of digits denotes. */
  function Value(s: string): nat
    requires forall i :: 0 <= i < |s| ==> IsDigit(s[i])
  {
    if s == "" then 0 else Value(s[..|s| - 1]) * 10 + DigitValue(s[|s| - 1])
  }

  function DigitPrefix(s: string): (k: nat)
    ensures k <= |s| && forall i :: 0 <= i < k ==> IsDigit(s[i])
  {
    if s == "" || !IsDigit(s[0]) then 0 else 1 + DigitPrefix(s[1..])
  }

  function ParseDigits(s: string): Option<int> {
    var k := DigitPrefix(s);
    if k == 0 then None else Some(Value(s[..k]))
  }

  function SkipSpaces(s: string): string {
    if s != "" && s[0] in " \t\n\r" then SkipSpaces(s[1..]) else s
  }

  /** Number.parseInt(s, 10); None stands for NaN. */
  function ParseInt(s: string): Option<int> {
    var t := SkipSpaces(s);
    if t != "" && t[0] == '-' then
      match ParseDigits(t[1..]) case Some(n) => Some(-n) case None => None
    else if t != "" && t[0] == '+' then ParseDigits(t[1..])
    else ParseDigits(t)
  }

  predicate AllDigits(s: string) {
    forall i :: 0 <= i < |s| ==> IsDigit(s[i])
  }

  lemma {:induction false} ValueOfDigits(n: nat)
    ensures AllDigits(Digits(n)) && Digits(n) != "" && Value(Digits(n)) == n
  {
    if n >= 10 {
      ValueOfDigits(n / 10);
      var d := Digits(n);
      assert d[..|d| - 1] == Digits(n / 10);
    }
  }

  lemma {:induction false} DigitsInjective(m: nat, n: nat)
    requires Digits(m) == Digits(n)
    ensures m == n
  {
    ValueOfDigits(m);
    ValueOfDigits(n);
  }

  lemma {:induction false} PaddingKeepsValue(s: string, width: nat)
    requires AllDigits(s)
    ensures AllDigits(PadStart(s, width)) && Value(PadStart(s, width)) == Value(s)
    decreases width
  {
    if |s| < width {
      PaddingKeepsValue(s, width - 1);
      LeadingZero(PadStart(s, width - 1));
    }
  }

  lemma {:induction false} LeadingZero(s: string)
    requires AllDigits(s)
    ensures AllDigits("0" + s) && Value("0" + s) == Value(s)
  {
    var z := "0" + s;
    if s == "" {
      assert z[..0] == "";
    } else {
      LeadingZero(s[..|s| - 1]);
      assert z[..|z| - 1] == "0" + s[..|s| - 1];
    }
  }

  lemma {:induction false} ParseOfDigits(s: string)
    requires AllDigits(s) && s != ""
    ensures ParseInt(s) == Some(Value(s))
  {
    WholePrefix(s);
    assert s[..|s|] == s;
  }

  lemma {:induction false} WholePrefix(s: string)
    requires AllDigits(s)
    ensures DigitPrefix(s) == |s|
  {
    if s != "" {
      WholePrefix(s[1..]);
    }
  }

  /** Parsing undoes six-digit padding, for numbers of any length. */
  lemma {:induction false} ParseUndoesPadding(n: nat)
    ensures ParseInt(PadStart(Digits(n), 6)) == Some(n)
  {
    ValueOfDigits(n);
    PaddingKeepsValue(Digits(n), 6);
    ParseOfDigits(PadStart(Digits(n), 6));
  }

  // ----- fixed-width form -----

  function Pow10(w: nat): nat {
    if w == 0 then 1 else 10 * Pow10(w - 1)
  }

  /** n written with exactly w digits. */
  function Fixed(n: nat, w: nat): string {
    if w == 0 then "" else Fixed(n / 10, w - 1) + [DigitChar(n % 10)]
  }

  lemma {:induction false} PaddedIsFixed(n: nat, w: nat)
    requires w >= 1 && n < Pow10(w)
    ensures PadStart(Digits(n), w) == Fixed(n, w)
  {
    if w == 1 {
      assert Fixed(n / 10, 0) == "";
    } else if n < 10 {
      PaddedIsFixed(0, w - 1);
      PadBeforeLast(Digits(0), DigitChar(n), w, n);
    } else {
      PaddedIsFixed(n / 10, w - 1);
      PadSnoc(Digits(n / 10), DigitChar(n % 10), w);
    }
  }

  lemma {:induction false} PadSnoc(s: string, c: char, w: nat)
    requires w >= 1
    ensures PadStart(s + [c], w) == PadStart(s, w - 1) + [c]
  {
    if |s| + 1 < w {
      PadSnoc(s, c, w - 1);
    }
  }

  lemma {:induction false} PadBeforeLast(zero: string, c: char, w: nat, n: nat)
    requires zero == "0" && w >= 2 && n < 10 && c == DigitChar(n)
    ensures PadStart([c], w) == PadStart(zero, w - 1) + [c]
  {
    PadSnoc("", c, w);
    assert "" + [c] == [c];
    PadEmpty(w - 1);
  }

  lemma {:induction false} PadEmpty(w: nat)
    requires w >= 1
    ensures PadStart("", w) == PadStart("0", w)
  {
    if w > 1 {
      PadEmpty(w - 1);
    } else {
      assert PadStart("", 0) == "";
    }
  }

  // ----- text order -----

  /** Code-unit order on strings, as a text column sorts. */
  predicate LexLess(a: string, b: string) {
    b != "" && (a == "" || a[0] < b[0] || (a[0] == b[0] && LexLess(a[1..], b[1..])))
  }

  lemma {:induction false} LexAsymmetric(a: string, b: string)
    requires LexLess(a, b)
    ensures !LexLess(b, a)
  {
    if a != "" && a[0] == b[0] {
      LexAsymmetric(a[1..], b[1..]);
    }
  }

  lemma {:induction false} LexAfterPrefix(p: string, a: string, b: string)
    ensures LexLess(p + a, p + b) == LexLess(a, b)
  {
    if p == "" {
      assert p + a == a && p + b == b;
    } else {
      LexAfterPrefix(p[1..], a, b);
      assert (p + a)[1..] == p[1..] + a && (p + b)[1..] == p[1..] + b;
    }
  }

  lemma {:induction false} LexSnoc(x: string, y: string, c: char, d: char)
    requires |x| == |y| && (LexLess(x, y) || (x == y && c < d))
    ensures LexLess(x + [c], y + [d])
  {
    if x != "" {
      assert (x + [c])[1..] == x[1..] + [c] && (y + [d])[1..] == y[1..] + [d];
      if x[0] == y[0] {
        LexSnoc(x[1..], y[1..], c, d);
      }
    }
  }

  lemma {:induction false} FixedLength(n: nat, w: nat)
    ensures |Fixed(n, w)| == w
  {
    if w > 0 {
      FixedLength(n / 10, w - 1);
    }
  }

  /** On equally long digit strings, text order is numeric order. */
  lemma {:induction false} FixedOrder(a: nat, b: nat, w: nat)
    requires a < b < Pow10(w)
    ensures LexLess(Fixed(a, w), Fixed(b, w))
  {
    var x, y := Fixed(a / 10, w - 1), Fixed(b / 10, w - 1);
    FixedLength(a / 10, w - 1);
    FixedLength(b / 10, w - 1);
    if a / 10 < b / 10 {
      FixedOrder(a / 10, b / 10, w - 1);
    } else {
      assert a / 10 == b / 10 && a % 10 < b % 10;
    }
    LexSnoc(x, y, DigitChar(a % 10), DigitChar(b % 10));
  }
}
