/**
 * Decimal text as JavaScript prints and parses it, and the code-unit order in
 * which JavaScript compares strings.
 */
module Decimal {
  predicate IsDigit(c: char) {
    '0' <= c <= '9'
  }

  predicate AllDigits(s: string) {
    forall i :: 0 <= i < |s| ==> IsDigit(s[i])
  }

  /** White space and line terminators, ECMA-262 sections 12.2 and 12.3: what `trim` strips. */
  predicate IsWhiteSpace(c: char) {
    var u := c as int;
    9 <= u <= 13 || u in {0x20, 0xA0, 0x1680, 0x2028, 0x2029, 0x202F, 0x205F, 0x3000, 0xFEFF} || 0x2000 <= u <= 0x200A
  }

  function DigitValue(c: char): nat
    requires IsDigit(c)
  {
    c as int - '0' as int
  }

  function DigitChar(d: nat): (c: char)
    requires d < 10
    ensures IsDigit(c) && DigitValue(c) == d
  {
    ('0' as int + d) as char
  }

  function Pow10(width: nat): (p: nat)
    ensures p > 0
  {
    if width == 0 then 1 else 10 * Pow10(width - 1)
  }

  /** `Number(s)` for a string of digits. */
  function Value(s: string): nat
    requires AllDigits(s)
  {
    if s == "" then 0 else 10 * Value(s[..|s| - 1]) + DigitValue(s[|s| - 1])
  }

  /** `String(n).padStart(width, '0')` for a number of at most `width` digits. */
  function Padded(n: nat, width: nat): (s: string)
    ensures |s| == width && AllDigits(s)
  {
    if width == 0 then "" else Padded(n / 10, width - 1) + [DigitChar(n % 10)]
  }

  /** `String(n)`. */
  function Print(n: nat): (s: string)
    ensures s != "" && AllDigits(s)
  {
    if n < 10 then [DigitChar(n)] else Print(n / 10) + [DigitChar(n % 10)]
  }

  /** `left < right` on JavaScript strings. */
  predicate Less(left: string, right: string) {
    right != "" && (left == "" || left[0] < right[0] || (left[0] == right[0] && Less(left[1..], right[1..])))
  }

  lemma ValueOfLast(front: string, d: nat)
    requires AllDigits(front) && d < 10
    ensures AllDigits(front + [DigitChar(d)]) && Value(front + [DigitChar(d)]) == 10 * Value(front) + d
  {
    var s := front + [DigitChar(d)];
    assert s[..|s| - 1] == front;
  }

  lemma LessDigits(n: nat, limit: nat)
    requires n < 10 * limit
    ensures n / 10 < limit && 10 * (n / 10) + n % 10 == n
  {
  }

  lemma Pow10Step(width: nat)
    requires width > 0
    ensures Pow10(width) == 10 * Pow10(width - 1)
  {
  }

  /** One more digit. */
  lemma PaddedStep(n: nat, width: nat)
    requires width > 0 && Value(Padded(n / 10, width - 1)) == n / 10
    ensures Value(Padded(n, width)) == n
  {
    var front, d := Padded(n / 10, width - 1), n % 10;
    assert Padded(n, width) == front + [DigitChar(d)];
    hide Padded, Value, AllDigits, DigitChar;
    ValueOfLast(front, d);
  }

  lemma {:induction false} ValueOfPadded(n: nat, width: nat)
    requires n < Pow10(width)
    ensures Value(Padded(n, width)) == n
  {
    if width == 0 {
    } else {
      hide Value, Padded, Pow10;
      Pow10Step(width);
      LessDigits(n, Pow10(width - 1));
      ValueOfPadded(n / 10, width - 1);
      PaddedStep(n, width);
    }
  }

  lemma {:induction false} PaddedOfValue(s: string)
    requires AllDigits(s)
    ensures Value(s) < Pow10(|s|)
    ensures Padded(Value(s), |s|) == s
  {
    if s == "" {
    } else {
      var front := s[..|s| - 1];
      PaddedOfValue(front);
      var d := DigitValue(s[|s| - 1]);
      assert (10 * Value(front) + d) / 10 == Value(front);
      assert s == front + [s[|s| - 1]];
    }
  }

  /** Parsing what was printed gives the number back. */
  lemma {:induction false} ValueOfPrint(n: nat)
    ensures Value(Print(n)) == n
  {
    if n < 10 {
      assert Print(n)[..0] == "";
    } else {
      ValueOfPrint(n / 10);
      var s := Print(n);
      assert s[..|s| - 1] == Print(n / 10);
    }
  }

  lemma {:induction false} LessIrreflexive(s: string)
    ensures !Less(s, s)
  {
    if s != "" {
      LessIrreflexive(s[1..]);
    }
  }

  /** Equally long prefixes decide the comparison unless they are equal. */
  lemma {:induction false} LessOfConcat(a: string, b: string, c: string, d: string)
    requires |a| == |c|
    ensures Less(a + b, c + d) <==> Less(a, c) || (a == c && Less(b, d))
  {
    if a == "" {
      assert a + b == b && c + d == d;
    } else {
      LessOfConcat(a[1..], b, c[1..], d);
      assert (a + b)[1..] == a[1..] + b;
      assert (c + d)[1..] == c[1..] + d;
      assert a == [a[0]] + a[1..] && c == [c[0]] + c[1..];
    }
  }

  /** On zero-padded numbers of one width, text order is numeric order. */
  lemma {:induction false} PaddedOrder(m: nat, n: nat, width: nat)
    requires m < Pow10(width) && n < Pow10(width)
    ensures Less(Padded(m, width), Padded(n, width)) <==> m < n
    ensures Padded(m, width) == Padded(n, width) <==> m == n
  {
    if width == 0 {
    } else {
      PaddedOrder(m / 10, n / 10, width - 1);
      var a, b := Padded(m / 10, width - 1), Padded(n / 10, width - 1);
      LessOfConcat(a, [DigitChar(m % 10)], b, [DigitChar(n % 10)]);
      ValueOfPadded(m, width);
      ValueOfPadded(n, width);
    }
  }

  /** `a >= b` and `b >= c` give `a >= c`. */
  lemma NotLessTransitive(a: string, b: string, c: string)
    requires !Less(a, b) && !Less(b, c)
    ensures !Less(a, c)
  {
  }
}
