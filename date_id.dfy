/** Card identifiers of the form `YYMMDDHHmm`: which ids are placeholders,
    the one-minute step, and the stamp built from the local time. */
module DateId {
  import opened Digits

  /** `^\d{6}$`, restricted to ASCII digits. */
  predicate IsSixDigits(s: string) {
    |s| == 6 && AllDigits(s)
  }

  /** `^\d{10}$`, restricted to ASCII digits. */
  predicate IsTenDigits(s: string) {
    |s| == 10 && AllDigits(s)
  }

  /** An id that still has to be assigned: empty, or a bare `YYMMDD` date. */
  predicate IsToAutoId(s: string) {
    if |s| == 0 then true else IsSixDigits(s)
  }

  /** `s.parse::<u8>().unwrap_or(0)`. */
  function FieldOr0(f: string): (v: nat)
    ensures v <= 255
  {
    match ParseU8(f)
    case Some(v) => v
    case None => 0
  }

  /** Adds one minute to the `HHmm` part of a ten-character id, carrying the
      first six characters through. Minute 59 rolls over into the hour, and the
      hour is never wrapped into the day. Any other length comes back as is. */
  function IncrementDateId(s: string): (r: string)
    ensures |s| != 10 ==> r == s
    ensures |s| == 10 ==> |r| >= 10
  {
    if |s| != 10 then s
    else
      var hour := FieldOr0(s[6..8]);
      var minute := FieldOr0(s[8..10]);
      ParseTwoCharsBound(s[6..8]);
      ParseTwoCharsBound(s[8..10]);
      // the `u8` additions below cannot overflow
      assert hour + 1 <= 255 && minute + 1 <= 255;
      s[..6] + Format02(NextHour(hour, minute)) + Format02(NextMinute(minute))
  }

  /** The step never touches the `YYMMDD` part. */
  lemma IncrementKeepsDate(s: string)
    requires |s| == 10
    ensures |IncrementDateId(s)| >= 10 && IncrementDateId(s)[..6] == s[..6]
  {
  }

  function NextHour(hour: nat, minute: nat): nat {
    if minute == 59 then hour + 1 else hour
  }

  function NextMinute(minute: nat): nat {
    if minute == 59 then 0 else minute + 1
  }

  lemma FieldOr0OfDigits(f: string)
    requires |f| == 2 && AllDigits(f)
    ensures FieldOr0(f) == DigitsValue(f)
  {
    ParseTwoDigits(f);
  }

  /** The step on a ten-character string, in terms of its parsed fields. */
  lemma IncrementOfTen(s: string)
    requires IsTenDigits(s)
    ensures IncrementDateId(s)
      == s[..6] + Format02(NextHour(Field(s, 6), Field(s, 8))) + Format02(NextMinute(Field(s, 8)))
  {
    FieldOr0OfDigits(s[6..8]);
    FieldOr0OfDigits(s[8..10]);
  }

  /** `year % 100` on a Rust integer: the remainder takes the sign of the
      dividend, and the dividend minus the remainder is a multiple of 100. */
  function YearRem(year: int): (r: int)
    ensures -100 < r < 100
    ensures year >= 0 ==> r >= 0
    ensures year < 0 ==> r <= 0
    ensures (year - r) % 100 == 0
  {
    if year >= 0 then year % 100 else -((-year) % 100)
  }

  /** `format!("{:02}{:02}{:02}{:02}{:02}", year % 100, month, day, hour, minute)`
      over the fields of the local time; the ranges are those the date-time
      type guarantees. */
  function FormatStamp(year: int, month: nat, day: nat, hour: nat, minute: nat): (r: string)
    requires 1 <= month <= 12 && 1 <= day <= 31 && hour <= 23 && minute <= 59
    ensures |r| >= 10
  {
    FormatSigned02(YearRem(year)) + Format02(month) + Format02(day)
      + Format02(hour) + Format02(minute)
  }

  /** The two-digit field of a ten-digit id starting at position k. */
  function Field(s: string, k: nat): (v: nat)
    requires k + 2 <= |s|
    ensures v <= 99
  {
    TwoDigitsValue(s[k..k + 2]);
    DigitsValue(s[k..k + 2])
  }

  // ---------------------------------------------------------------------------
  // Placeholders

  /** A resolved ten-digit id, or anything longer than six characters, is
      never a placeholder. */
  lemma LongIdIsNotPlaceholder(s: string)
    requires |s| > 6
    ensures !IsToAutoId(s)
  {
  }

  // ---------------------------------------------------------------------------
  // The one-minute step

  /** Splits a ten-character string into prefix and the two fields. */
  lemma SplitTen(s: string)
    requires |s| == 10
    ensures s == s[..6] + s[6..8] + s[8..10]
    ensures DigitsValue(s) == DigitsValue(s[..6]) * 10000 + Field(s, 6) * 100 + Field(s, 8)
  {
    assert s == s[..6] + s[6..8] + s[8..10];
    DigitsValueAppend(s[..6] + s[6..8], s[8..10]);
    DigitsValueAppend(s[..6], s[6..8]);
    assert Pow10(2) == 100;
  }

  /** On ten ASCII digits whose step does not widen a field past two digits,
      the step keeps `YYMMDD`, yields ten digits again, moves minute and hour
      as a clock without day rollover would, and increases the id's numeric
      value by exactly 1, or by 41 on a rollover (`..59` to `..00` of the
      next hour). */
  lemma {:induction false} IncrementTenDigits(s: string)
    requires IsTenDigits(s)
    requires Field(s, 8) <= 98 && (Field(s, 8) == 59 ==> Field(s, 6) <= 98)
    ensures var r := IncrementDateId(s);
      && IsTenDigits(r)
      && r[..6] == s[..6]
      && (Field(s, 8) == 59 ==> Field(r, 6) == Field(s, 6) + 1 && Field(r, 8) == 0)
      && (Field(s, 8) != 59 ==> Field(r, 6) == Field(s, 6) && Field(r, 8) == Field(s, 8) + 1)
      && DigitsValue(r) == DigitsValue(s) + (if Field(s, 8) == 59 then 41 else 1)
  {
    IncrementOfTen(s);
    Assemble(s[..6], NextHour(Field(s, 6), Field(s, 8)), NextMinute(Field(s, 8)));
    SplitTen(s);
  }

  /** A six-digit prefix followed by two fields below 100 in `{:02}` form. */
  lemma Assemble(p: string, h: nat, m: nat)
    requires IsSixDigits(p) && h < 100 && m < 100
    ensures var r := p + Format02(h) + Format02(m);
      && IsTenDigits(r) && r[..6] == p && Field(r, 6) == h && Field(r, 8) == m
      && DigitsValue(r) == DigitsValue(p) * 10000 + h * 100 + m
  {
    var r := p + Format02(h) + Format02(m);
    Format02Small(h);
    Format02Small(m);
    assert r[..6] == p && r[6..8] == Format02(h) && r[8..10] == Format02(m);
    assert AllDigits(r) by {
      forall i | 0 <= i < |r| ensures IsDigit(r[i]) {
        if i < 6 { assert r[i] == p[i]; }
        else if i < 8 { assert r[i] == Format02(h)[i - 6]; }
        else { assert r[i] == Format02(m)[i - 8]; }
      }
    }
    SplitTen(r);
  }

  /** The step spelled out character by character, for ten digits that do
      not widen a field. */
  lemma IncrementChars(s: string)
    requires IsTenDigits(s)
    requires Field(s, 8) <= 98 && (Field(s, 8) == 59 ==> Field(s, 6) <= 98)
    ensures var h, m := NextHour(Field(s, 6), Field(s, 8)), NextMinute(Field(s, 8));
      IncrementDateId(s)
        == s[..6] + [DigitChar(h / 10), DigitChar(h % 10), DigitChar(m / 10), DigitChar(m % 10)]
  {
    IncrementOfTen(s);
    Format02Small(NextHour(Field(s, 6), Field(s, 8)));
    Format02Small(NextMinute(Field(s, 8)));
  }

  /** A minute short of the hour becomes the next hour's minute 00. */
  lemma IncrementRolloverExample()
    ensures IncrementDateId("2501011259") == "2501011300"
  {
    var s := "2501011259";
    TwoDigitsValue(s[6..8]);
    TwoDigitsValue(s[8..10]);
    IncrementChars(s);
  }

  /** At 23:59 the hour becomes 24: the day field is never touched. */
  lemma IncrementPastMidnightExample()
    ensures IncrementDateId("2501012359") == "2501012400"
  {
    var s := "2501012359";
    TwoDigitsValue(s[6..8]);
    TwoDigitsValue(s[8..10]);
    IncrementChars(s);
  }

  lemma IncrementMinuteExample()
    ensures IncrementDateId("2506011430") == "2506011431"
  {
    var s := "2506011430";
    TwoDigitsValue(s[6..8]);
    TwoDigitsValue(s[8..10]);
    IncrementChars(s);
  }

  /** A field that does not parse as a `u8` counts as 00. */
  lemma UnparsedHourIsZero(s: string)
    requires |s| == 10 && ParseU8(s[6..8]).None?
    ensures IncrementDateId(s) == IncrementDateId(s[..6] + "00" + s[8..10])
  {
    var t := s[..6] + "00" + s[8..10];
    assert t[..6] == s[..6] && t[6..8] == "00" && t[8..10] == s[8..10];
    FieldOr0OfDigits("00");
    TwoDigitsValue("00");
  }

  lemma UnparsedMinuteIsZero(s: string)
    requires |s| == 10 && ParseU8(s[8..10]).None?
    ensures IncrementDateId(s) == IncrementDateId(s[..8] + "00")
  {
    var t := s[..8] + "00";
    assert t[..6] == s[..6] && t[6..8] == s[6..8] && t[8..10] == "00";
    FieldOr0OfDigits("00");
    TwoDigitsValue("00");
  }

  /** `u8` parsing accepts a leading '+', so "+5" is hour 05. */
  lemma PlusSignExample()
    ensures IncrementDateId("250101+5+9") == "2501010510"
  {
    var s := "250101+5+9";
    assert s[6..8] == "+5" && s[8..10] == "+9" && s[..6] == "250101";
    SignedDigitField("+5");
    SignedDigitField("+9");
    Format02Small(5);
    Format02Small(10);
    assert IncrementDateId(s) == "250101" + "05" + "10";
  }

  /** A '+' followed by one digit is a field holding that digit. */
  lemma SignedDigitField(f: string)
    requires |f| == 2 && f[0] == '+' && IsDigit(f[1])
    ensures FieldOr0(f) == DigitValue(f[1])
  {
    var digits := f[1..];
    assert digits[0] == f[1] && AllDigits(digits);
    assert digits[..|digits| - 1] == [];
    assert DigitsValue(digits) == DigitValue(f[1]);
    assert ParseU8(f) == Some(DigitValue(f[1]));
  }

  /** Hour 99 at minute 59 steps to hour 100, which `{:02}` prints with three
      digits: the result is no longer ten digits. */
  lemma WidensAtHourHundredExample()
    ensures IncrementDateId("2501019959") == "25010110000"
  {
    var s := "2501019959";
    TwoDigitsValue(s[6..8]);
    TwoDigitsValue(s[8..10]);
    IncrementOfTen(s);
    assert Decimal(100) == "100" by {
      assert Decimal(10) == Decimal(1) + [DigitChar(0)];
    }
    Format02Small(0);
  }

  // ---------------------------------------------------------------------------
  // The stamp

  /** For a year of the common era the stamp is ten digits whose fields read
      back as the year modulo 100, month, day, hour and minute. */
  lemma StampFields(year: int, month: nat, day: nat, hour: nat, minute: nat)
    requires 1 <= month <= 12 && 1 <= day <= 31 && hour <= 23 && minute <= 59
    requires year >= 0
    ensures var r := FormatStamp(year, month, day, hour, minute);
      && IsTenDigits(r)
      && Field(r, 0) == year % 100 && Field(r, 2) == month && Field(r, 4) == day
      && Field(r, 6) == hour && Field(r, 8) == minute
  {
    var yy := year % 100;
    assert YearRem(year) == yy;
    var p := Format02(yy) + Format02(month) + Format02(day);
    DateFields(yy, month, day);
    var r := FormatStamp(year, month, day, hour, minute);
    assert r == p + Format02(hour) + Format02(minute);
    Assemble(p, hour, minute);
    FieldOfPrefix(r, p, 0);
    FieldOfPrefix(r, p, 2);
    FieldOfPrefix(r, p, 4);
  }

  /** A `YYMMDD` date as the stamp writes it is a placeholder, and a whole
      stamp is not. */
  lemma DatePrefixIsPlaceholder(year: int, month: nat, day: nat, hour: nat, minute: nat)
    requires 1 <= month <= 12 && 1 <= day <= 31 && hour <= 23 && minute <= 59
    requires year >= 0
    ensures IsToAutoId(FormatStamp(year, month, day, hour, minute)[..6])
    ensures !IsToAutoId(FormatStamp(year, month, day, hour, minute))
  {
    var r := FormatStamp(year, month, day, hour, minute);
    StampFields(year, month, day, hour, minute);
    assert forall i :: 0 <= i < 6 ==> r[..6][i] == r[i];
    LongIdIsNotPlaceholder(r);
  }

  /** Three `{:02}` fields below 100 make six digits that read back. */
  lemma DateFields(a: nat, b: nat, c: nat)
    requires a < 100 && b < 100 && c < 100
    ensures var p := Format02(a) + Format02(b) + Format02(c);
      IsSixDigits(p) && Field(p, 0) == a && Field(p, 2) == b && Field(p, 4) == c
  {
    Format02Small(a);
    Format02Small(b);
    Format02Small(c);
    var p := Format02(a) + Format02(b) + Format02(c);
    assert p[0..2] == Format02(a) && p[2..4] == Format02(b) && p[4..6] == Format02(c);
    forall i | 0 <= i < 6 ensures IsDigit(p[i]) {
      if i < 2 { assert p[i] == Format02(a)[i]; }
      else if i < 4 { assert p[i] == Format02(b)[i - 2]; }
      else { assert p[i] == Format02(c)[i - 4]; }
    }
  }

  /** A field inside a prefix reads the same in the whole string. */
  lemma FieldOfPrefix(r: string, p: string, k: nat)
    requires |p| <= |r| && r[..|p|] == p && k + 2 <= |p|
    ensures Field(r, k) == Field(p, k)
  {
    assert r[k..k + 2] == p[k..k + 2];
  }

  /** A year before the common era yields a stamp with a leading '-': it is
      not ten digits, although it may be ten characters long. */
  lemma NegativeYearStampIsNotTenDigits(year: int, month: nat, day: nat, hour: nat, minute: nat)
    requires 1 <= month <= 12 && 1 <= day <= 31 && hour <= 23 && minute <= 59
    requires year < 0 && year % 100 != 0
    ensures !IsTenDigits(FormatStamp(year, month, day, hour, minute))
  {
    var r := FormatStamp(year, month, day, hour, minute);
    assert r[0] == '-';
  }
}
