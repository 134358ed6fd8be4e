/** Decimal digits as the Rust standard library sees them: ASCII digit
    predicates, the value of a digit string, `format!("{}")` / `format!("{:02}")`
    of an integer, and `str::parse::<u8>()`. */
module Digits {

  datatype Option<T> = None | Some(value: T)

  predicate IsDigit(c: char) {
    '0' <= c <= '9'
  }

  predicate AllDigits(s: string) {
    forall i :: 0 <= i < |s| ==> IsDigit(s[i])
  }

  function DigitValue(c: char): (v: nat)
    ensures v <= 9
  {
    if IsDigit(c) then (c - '0') as nat else 0
  }

  function DigitChar(d: nat): (c: char)
    requires d <= 9
    ensures IsDigit(c) && DigitValue(c) == d
  {
    '0' + d as char
  }

  function Pow10(k: nat): (p: nat)
    ensures p >= 1
  {
    if k == 0 then 1 else 10 * Pow10(k - 1)
  }

  /** The number a string of decimal digits denotes, most significant first. */
  function DigitsValue(s: string): nat {
    if |s| == 0 then 0 else DigitsValue(s[..|s| - 1]) * 10 + DigitValue(s[|s| - 1])
  }

  /** `format!("{}", n)` for an unsigned integer: the shortest decimal form. */
  function Decimal(n: nat): (s: string)
    ensures |s| >= 1
    decreases n
  {
    if n < 10 then [DigitChar(n)] else Decimal(n / 10) + [DigitChar(n % 10)]
  }

  /** The decimal form is all digits and denotes the number. */
  lemma {:induction false} DecimalDigits(n: nat)
    ensures AllDigits(Decimal(n)) && DigitsValue(Decimal(n)) == n
    decreases n
  {
    if n >= 10 {
      DecimalDigits(n / 10);
      var s := Decimal(n);
      assert s[..|s| - 1] == Decimal(n / 10);
      assert forall i :: 0 <= i < |s| - 1 ==> s[i] == Decimal(n / 10)[i];
    }
  }

  /** `format!("{:02}", n)` for an unsigned integer: padded with '0' to width 2. */
  function Format02(n: nat): string {
    var d := Decimal(n);
    if |d| < 2 then ['0'] + d else d
  }

  /** `{:02}` prints at least two digits, and they read back as the number. */
  lemma Format02Digits(n: nat)
    ensures |Format02(n)| >= 2 && AllDigits(Format02(n)) && DigitsValue(Format02(n)) == n
  {
    var d := Decimal(n);
    DecimalDigits(n);
    if |d| < 2 {
      DigitsValueAppend(['0'], d);
      assert DigitsValue(['0']) == 0 by { assert ['0'][..0] == []; }
      assert forall i :: 1 <= i < |['0'] + d| ==> (['0'] + d)[i] == d[i - 1];
    }
  }

  /** `format!("{:02}", n)` for a signed integer: the sign counts toward the width,
      so a negative value is never padded. */
  function FormatSigned02(n: int): string {
    if n >= 0 then Format02(n) else ['-'] + Decimal(-n)
  }

  /** `s.parse::<u8>()`: an optional leading '+' (a lone sign is an error, and
      '-' is never accepted by an unsigned type), then one or more ASCII
      digits; a value above 255 is an overflow error. */
  function ParseU8(s: string): (r: Option<nat>)
    ensures r.Some? ==> r.value <= 255
  {
    var digits := if |s| >= 2 && s[0] == '+' then s[1..] else s;
    if |digits| == 0 || !AllDigits(digits) then None
    else if DigitsValue(digits) > 255 then None
    else Some(DigitsValue(digits))
  }

  lemma TwoDigitsValue(s: string)
    requires |s| == 2
    ensures DigitsValue(s) == DigitValue(s[0]) * 10 + DigitValue(s[1])
    ensures DigitsValue(s) <= 99
  {
    assert s[..1][..0] == [];
    assert s[..|s| - 1] == s[..1];
    assert DigitsValue(s[..1]) == DigitValue(s[0]);
  }

  /** Below 100, `{:02}` yields exactly two digits whose value is the number. */
  lemma Format02Small(n: nat)
    requires n < 100
    ensures Format02(n) == [DigitChar(n / 10), DigitChar(n % 10)]
    ensures |Format02(n)| == 2 && AllDigits(Format02(n)) && DigitsValue(Format02(n)) == n
  {
    var f := Format02(n);
    if n >= 10 {
      assert Decimal(n / 10) == [DigitChar(n / 10)];
    }
    TwoDigitsValue(f);
  }

  /** A two-character field never parses above 99. */
  lemma ParseTwoCharsBound(s: string)
    requires |s| == 2
    ensures ParseU8(s).Some? ==> ParseU8(s).value <= 99
  {
    TwoDigitsValue(s);
    var digits := if |s| >= 2 && s[0] == '+' then s[1..] else s;
    if |digits| == 1 {
      assert digits[..0] == [];
    }
  }

  /** Two ASCII digits parse to their value. */
  lemma ParseTwoDigits(s: string)
    requires |s| == 2 && AllDigits(s)
    ensures ParseU8(s) == Some(DigitsValue(s))
  {
    TwoDigitsValue(s);
  }

  lemma ShiftDigit(x: nat, p: nat, y: nat, d: nat)
    ensures (x * p + y) * 10 + d == x * (10 * p) + (y * 10 + d)
  {
  }

  lemma {:induction false} DigitsValueAppend(a: string, b: string)
    ensures DigitsValue(a + b) == DigitsValue(a) * Pow10(|b|) + DigitsValue(b)
    decreases |b|
  {
    if |b| == 0 {
      assert a + b == a;
    } else {
      var b' := b[..|b| - 1];
      assert (a + b)[..|a + b| - 1] == a + b';
      assert (a + b)[|a + b| - 1] == b[|b| - 1];
      DigitsValueAppend(a, b');
      var x, p, y, d := DigitsValue(a), Pow10(|b'|), DigitsValue(b'), DigitValue(b[|b| - 1]);
      assert DigitsValue(a + b) == DigitsValue(a + b') * 10 + d;
      assert DigitsValue(a + b') == x * p + y;
      assert Pow10(|b|) == 10 * p;
      assert DigitsValue(b) == y * 10 + d;
      ShiftDigit(x, p, y, d);
    }
  }
}
