/**
 * Timestamps as text: the profile of section 5.6 of RFC 3339 that Go's RFC3339Nano layout
 * writes (UTC, fraction without trailing zeros) and the RFC's own grammar for reading.
 * Instants count nanoseconds from 0001-01-01T00:00:00Z.
 */
module Timestamp {
  import opened Basics
  import opened Base64

  type Nanos = int

  const NANOS_PER_SECOND: nat := 1_000_000_000
  const SECONDS_PER_DAY: nat := 86_400

  // ---- calendar ----

  predicate IsLeap(y: nat) {
    y % 4 == 0 && (y % 100 != 0 || y % 400 == 0)
  }

  function DaysBeforeYear(y: nat): nat
    requires y >= 1
  {
    365 * (y - 1) + (y - 1) / 4 - (y - 1) / 100 + (y - 1) / 400
  }

  function DaysIn(m: nat, leap: bool): nat {
    if m == 2 then (if leap then 29 else 28)
    else if m == 4 || m == 6 || m == 9 || m == 11 then 30
    else 31
  }

  function DaysBeforeMonth(m: nat, leap: bool): nat
    requires m >= 1
  {
    if m == 1 then 0 else DaysBeforeMonth(m - 1, leap) + DaysIn(m - 1, leap)
  }

  lemma {:induction false} YearLength(y: nat)
    requires y >= 1
    ensures DaysBeforeYear(y + 1) == DaysBeforeYear(y) + if IsLeap(y) then 366 else 365
  {
    Multiples(y, 4);
    Multiples(y, 100);
    Multiples(y, 400);
    Centuries(y);
    assert DaysBeforeYear(y + 1) == 365 * y + y / 4 - y / 100 + y / 400;
  }

  lemma {:induction false} Centuries(y: nat)
    ensures y % 400 == 0 ==> y % 100 == 0
    ensures y % 100 == 0 ==> y % 4 == 0
  {
    var q, c := y / 400, y / 100;
    if y % 400 == 0 { assert y == 100 * (4 * q); }
    if y % 100 == 0 { assert y == 4 * (25 * c); }
  }

  /** How many multiples of d there are up to y goes up at the multiples. */
  lemma {:induction false} Multiples(y: nat, d: nat)
    requires y >= 1 && (d == 4 || d == 100 || d == 400)
    ensures y / d - (y - 1) / d == if y % d == 0 then 1 else 0
  {
    if d == 4 {
    } else if d == 100 {
    } else {
    }
  }

  lemma {:induction false} TwelveMonths(leap: bool)
    ensures DaysBeforeMonth(13, leap) == if leap then 366 else 365
  {
    var feb := if leap then 1 else 0;
    assert DaysBeforeMonth(2, leap) == 31;
    assert DaysBeforeMonth(3, leap) == 59 + feb;
    assert DaysBeforeMonth(5, leap) == 120 + feb;
    assert DaysBeforeMonth(7, leap) == 181 + feb;
    assert DaysBeforeMonth(9, leap) == 243 + feb;
    assert DaysBeforeMonth(11, leap) == 304 + feb;
  }

  /** The year, from y on, that a day falls in. */
  function YearFrom(y: nat, day: nat): (r: nat)
    requires y >= 1 && DaysBeforeYear(y) <= day
    ensures r >= y && DaysBeforeYear(r) <= day < DaysBeforeYear(r + 1)
    decreases day - DaysBeforeYear(y)
  {
    YearLength(y);
    if day < DaysBeforeYear(y + 1) then y else YearFrom(y + 1, day)
  }

  function MonthFrom(m: nat, dayOfYear: nat, leap: bool): (r: nat)
    requires 1 <= m <= 12 && DaysBeforeMonth(m, leap) <= dayOfYear < DaysBeforeMonth(13, leap)
    ensures m <= r <= 12 && DaysBeforeMonth(r, leap) <= dayOfYear < DaysBeforeMonth(r, leap) + DaysIn(r, leap)
    decreases 12 - m
  {
    if dayOfYear < DaysBeforeMonth(m + 1, leap) then m else MonthFrom(m + 1, dayOfYear, leap)
  }

  datatype Civil = Civil(year: nat, month: nat, day: nat, hour: nat, minute: nat, second: nat, nano: nat)

  predicate ValidCivil(c: Civil) {
    && 1 <= c.year && 1 <= c.month <= 12 && 1 <= c.day <= DaysIn(c.month, IsLeap(c.year))
    && c.hour < 24 && c.minute < 60 && c.second < 60 && c.nano < NANOS_PER_SECOND
  }

  function InstantOf(c: Civil): Nanos
    requires ValidCivil(c)
  {
    var day := DaysBeforeYear(c.year) + DaysBeforeMonth(c.month, IsLeap(c.year)) + c.day - 1;
    (day * SECONDS_PER_DAY + c.hour * 3600 + c.minute * 60 + c.second) * NANOS_PER_SECOND + c.nano
  }

  function CivilOf(t: nat): (c: Civil)
    ensures ValidCivil(c) && InstantOf(c) == t
  {
    var second, nano := t / NANOS_PER_SECOND, t % NANOS_PER_SECOND;
    var day, clock := second / SECONDS_PER_DAY, second % SECONDS_PER_DAY;
    var y := YearFrom(1, day);
    var leap, dayOfYear := IsLeap(y), day - DaysBeforeYear(y);
    YearLength(y);
    TwelveMonths(leap);
    var m := MonthFrom(1, dayOfYear, leap);
    var c := Civil(y, m, dayOfYear - DaysBeforeMonth(m, leap) + 1, clock / 3600, clock / 60 % 60, clock % 60, nano);
    ClockAddsUp(clock);
    c
  }

  lemma {:induction false} ClockAddsUp(clock: nat)
    requires clock < SECONDS_PER_DAY
    ensures clock / 3600 < 24 && clock / 3600 * 3600 + clock / 60 % 60 * 60 + clock % 60 == clock
  {
    assert clock / 60 / 60 == clock / 3600;
  }

  /** The first instant whose year no longer fits in four digits. */
  const YEAR_10000: nat := 315_537_897_600 * NANOS_PER_SECOND

  lemma {:induction false} LaterYearsStartLater(y: nat, z: nat)
    requires 1 <= y <= z
    ensures DaysBeforeYear(y) <= DaysBeforeYear(z)
    decreases z - y
  {
    if y < z {
      YearLength(y);
      LaterYearsStartLater(y + 1, z);
    }
  }

  lemma {:induction false} FourDigitYears(t: nat)
    ensures CivilOf(t).year < 10_000 <==> t < YEAR_10000
  {
    var day := t / NANOS_PER_SECOND / SECONDS_PER_DAY;
    var y := YearFrom(1, day);
    assert CivilOf(t).year == y;
    assert DaysBeforeYear(10_000) == 3_652_059;
    if y < 10_000 {
      LaterYearsStartLater(y + 1, 10_000);
    } else {
      LaterYearsStartLater(10_000, y);
    }
  }

  // ---- digits ----

  const DASH: Byte := 45
  const DOT: Byte := 46
  const COLON: Byte := 58
  const LETTER_T: Byte := 84
  const LETTER_Z: Byte := 90
  const PLUS: Byte := 43
  const ZERO: Byte := 48

  predicate IsDigit(b: Byte) {
    48 <= b <= 57
  }

  predicate AllDigits(s: Text) {
    forall i :: 0 <= i < |s| ==> IsDigit(s[i])
  }

  /** n in decimal, zero-padded to at least `width` digits. */
  function Decimal(n: nat, width: nat): (s: Text)
    ensures AllDigits(s) && |s| >= width && |s| >= 1
    decreases n, width
  {
    if n < 10 && width <= 1 then [48 + n]
    else Decimal(n / 10, if width == 0 then 0 else width - 1) + [48 + n % 10]
  }

  function DecimalValue(s: Text): nat
    requires AllDigits(s)
  {
    if s == [] then 0 else DecimalValue(s[..|s| - 1]) * 10 + (s[|s| - 1] - 48)
  }

  lemma {:induction false} DecimalReadsBack(n: nat, width: nat)
    ensures DecimalValue(Decimal(n, width)) == n
    decreases n, width
  {
    var s := Decimal(n, width);
    if !(n < 10 && width <= 1) {
      DecimalReadsBack(n / 10, if width == 0 then 0 else width - 1);
      assert s[..|s| - 1] == Decimal(n / 10, if width == 0 then 0 else width - 1);
    }
  }

  lemma {:induction false} DecimalWidth(n: nat, width: nat)
    requires width >= 1
    ensures n < Pow10(width) ==> |Decimal(n, width)| == width
    ensures n >= Pow10(width) ==> |Decimal(n, width)| > width
    decreases n, width
  {
    if width > 1 {
      DecimalWidth(n / 10, width - 1);
    }
  }

  /** A fraction without its trailing zeros. */
  function Trim(s: Text): Text {
    if s != [] && s[|s| - 1] == ZERO then Trim(s[..|s| - 1]) else s
  }

  /** The first nine digits of a fraction, filled up with zeros. */
  function Pad(s: Text): (r: Text)
    ensures |r| == 9
    ensures AllDigits(s) ==> AllDigits(r)
    decreases 9 - |s|
  {
    if |s| >= 9 then s[..9] else Pad(s + [ZERO])
  }

  lemma {:induction false} PadUndoesTrim(s: Text)
    requires |s| <= 9 && AllDigits(s)
    ensures Pad(Trim(s)) == Pad(s) && AllDigits(Trim(s)) && |Trim(s)| <= |s|
  {
    if s != [] && s[|s| - 1] == ZERO {
      var init := s[..|s| - 1];
      PadUndoesTrim(init);
      assert init + [ZERO] == s;
    }
  }

  // ---- writing ----

  function Fraction(nano: nat): Text {
    var digits := Trim(Decimal(nano, 9));
    if nano == 0 then [] else [DOT] + digits
  }

  function Layout(y: Text, mo: Text, d: Text, h: Text, mi: Text, s: Text, tail: Text): Text {
    y + [DASH] + mo + [DASH] + d + [LETTER_T] + h + [COLON] + mi + [COLON] + s + tail
  }

  function Format(t: nat): Text {
    var c := CivilOf(t);
    Layout(Decimal(c.year, 4), Decimal(c.month, 2), Decimal(c.day, 2),
           Decimal(c.hour, 2), Decimal(c.minute, 2), Decimal(c.second, 2), Fraction(c.nano) + [LETTER_Z])
  }

  // ---- reading ----

  function LeadingDigits(s: Text): (n: nat)
    ensures n <= |s| && AllDigits(s[..n]) && (n < |s| ==> !IsDigit(s[n]))
  {
    if s == [] || !IsDigit(s[0]) then 0 else
      var n := LeadingDigits(s[1..]);
      assert forall i :: 0 < i <= n ==> s[i] == s[1..][i - 1];
      1 + n
  }

  /** The zone in seconds east of UTC. */
  function ParseZone(s: Text): Option<int> {
    if s == [LETTER_Z] then Some(0)
    else if |s| == 6 && (s[0] == PLUS || s[0] == DASH) && s[3] == COLON && AllDigits(s[1..3]) && AllDigits(s[4..6]) then
      var hours, minutes := DecimalValue(s[1..3]), DecimalValue(s[4..6]);
      if hours < 24 && minutes < 60 then
        Some((if s[0] == PLUS then 1 else -1) * (hours * 3600 + minutes * 60))
      else None
    else None
  }

  /** After the seconds: an optional fraction, then the zone. */
  function ParseTail(s: Text): Option<(nat, int)> {
    if s != [] && s[0] == DOT then
      var n := LeadingDigits(s[1..]);
      if n == 0 then None else
        match ParseZone(s[1 + n..])
        case None => None
        case Some(z) => Some((DecimalValue(Pad(s[1..][..n])), z))
    else
      match ParseZone(s)
      case None => None
      case Some(z) => Some((0, z))
  }

  predicate Punctuated(s: Text) {
    && |s| >= 20
    && s[4] == DASH && s[7] == DASH && s[10] == LETTER_T && s[13] == COLON && s[16] == COLON
    && AllDigits(s[..4]) && AllDigits(s[5..7]) && AllDigits(s[8..10])
    && AllDigits(s[11..13]) && AllDigits(s[14..16]) && AllDigits(s[17..19])
  }

  function Parse(s: Text): Option<Nanos> {
    if !Punctuated(s) then None else
      match ParseTail(s[19..])
      case None => None
      case Some((nano, zone)) =>
        var c := Civil(DecimalValue(s[..4]), DecimalValue(s[5..7]), DecimalValue(s[8..10]),
                       DecimalValue(s[11..13]), DecimalValue(s[14..16]), DecimalValue(s[17..19]), nano);
        if ValidCivil(c) then Some(InstantOf(c) - zone * NANOS_PER_SECOND) else None
  }

  // ---- what the text looks like ----

  /** Where the months begin, counted in days from the first of January. */
  lemma {:induction false} MonthStarts(leap: bool)
    ensures var shift := if leap then 1 else 0;
      && DaysBeforeMonth(1, leap) == 0 && DaysBeforeMonth(2, leap) == 31 && DaysBeforeMonth(3, leap) == 59 + shift
      && DaysBeforeMonth(4, leap) == 90 + shift && DaysBeforeMonth(5, leap) == 120 + shift
      && DaysBeforeMonth(6, leap) == 151 + shift && DaysBeforeMonth(7, leap) == 181 + shift
      && DaysBeforeMonth(8, leap) == 212 + shift && DaysBeforeMonth(9, leap) == 243 + shift
      && DaysBeforeMonth(10, leap) == 273 + shift && DaysBeforeMonth(11, leap) == 304 + shift
      && DaysBeforeMonth(12, leap) == 334 + shift
  {
    var shift := if leap then 1 else 0;
    assert DaysBeforeMonth(2, leap) == 31;
    assert DaysBeforeMonth(3, leap) == 59 + shift;
    assert DaysBeforeMonth(5, leap) == 120 + shift;
    assert DaysBeforeMonth(7, leap) == 181 + shift;
    assert DaysBeforeMonth(9, leap) == 243 + shift;
    assert DaysBeforeMonth(11, leap) == 304 + shift;
  }

  /** The Unix epoch lies 62135596800 seconds after the year 1 began, and 2000 was a leap year, 1900 none. */
  lemma {:induction false} KnownInstants()
    ensures InstantOf(Civil(1, 1, 1, 0, 0, 0, 0)) == 0
    ensures InstantOf(Civil(1970, 1, 1, 0, 0, 0, 0)) == 62_135_596_800_000_000_000
    ensures InstantOf(Civil(2000, 3, 1, 0, 0, 0, 0)) - InstantOf(Civil(2000, 2, 28, 0, 0, 0, 0)) == 172_800_000_000_000
    ensures InstantOf(Civil(1900, 3, 1, 0, 0, 0, 0)) - InstantOf(Civil(1900, 2, 28, 0, 0, 0, 0)) == 86_400_000_000_000
  {
    MonthStarts(true);
    MonthStarts(false);
  }

  /** Year, month and day joined by dashes, T, the clock joined by colons, a fraction if there is one, Z. */
  lemma {:induction false} TextShape(t: nat)
    requires t < YEAR_10000
    ensures var s, c := Format(t), CivilOf(t);
      && Punctuated(s)
      && s[4] == s[7] == '-' as int && s[10] == 'T' as int && s[13] == s[16] == ':' as int
      && s[|s| - 1] == 'Z' as int && (c.nano == 0 <==> |s| == 20) && (c.nano > 0 ==> s[19] == '.' as int)
      && DecimalValue(s[..4]) == c.year && DecimalValue(s[5..7]) == c.month && DecimalValue(s[8..10]) == c.day
      && DecimalValue(s[11..13]) == c.hour && DecimalValue(s[14..16]) == c.minute && DecimalValue(s[17..19]) == c.second
  {
    FourDigitYears(t);
    var c := CivilOf(t);
    CivilDigits(c);
    LayoutSlices(Decimal(c.year, 4), Decimal(c.month, 2), Decimal(c.day, 2), Decimal(c.hour, 2),
                 Decimal(c.minute, 2), Decimal(c.second, 2), Fraction(c.nano) + [LETTER_Z]);
  }

  // ---- round trip ----

  /** A zone as text: a sign, two digits of hours, a colon, two digits of minutes. */
  function ZoneText(sign: Byte, hours: nat, minutes: nat): Text {
    [sign] + Decimal(hours, 2) + [COLON] + Decimal(minutes, 2)
  }

  /** Such a zone is read as its seconds ahead of UTC, or behind it after a minus. */
  lemma {:induction false} ZoneReadsBack(sign: Byte, hours: nat, minutes: nat)
    requires (sign == '+' as int || sign == '-' as int) && hours < 24 && minutes < 60
    ensures ParseZone(ZoneText(sign, hours, minutes)) ==
      Some(if sign == '-' as int then -(3600 * hours + 60 * minutes) else 3600 * hours + 60 * minutes)
  {
    TwoDigits(hours);
    TwoDigits(minutes);
    var s := ZoneText(sign, hours, minutes);
    assert s[1..3] == Decimal(hours, 2) && s[4..6] == Decimal(minutes, 2);
  }

  lemma {:induction false} StopsAt(digits: Text, rest: Text)
    requires AllDigits(digits) && rest != [] && !IsDigit(rest[0])
    ensures LeadingDigits(digits + rest) == |digits|
  {
    if digits != [] {
      assert (digits + rest)[1..] == digits[1..] + rest;
      StopsAt(digits[1..], rest);
    }
  }

  /** A fraction as it is written, before any zone, reads back. */
  lemma {:induction false} FractionReadsBack(nano: nat, zone: Text, shift: int)
    requires nano < NANOS_PER_SECOND && ParseZone(zone) == Some(shift)
    ensures ParseTail(Fraction(nano) + zone) == Some((nano, shift))
  {
    if nano > 0 {
      var digits, all := Trim(Decimal(nano, 9)), Decimal(nano, 9);
      assert Pow10(9) == NANOS_PER_SECOND by { Billion(); }
      DecimalWidth(nano, 9);
      DecimalReadsBack(nano, 9);
      PadUndoesTrim(all);
      assert Pad(all) == all[..9] == all;
      if digits == [] {
        ZerosAreZero(all);
      }
      var s := Fraction(nano) + zone;
      assert s[1..] == digits + zone;
      StopsAt(digits, zone);
      assert s[1..][..|digits|] == digits && s[1 + |digits|..] == zone;
    } else {
      assert Fraction(nano) + zone == zone;
    }
  }

  lemma {:induction false} Billion()
    ensures Pow10(9) == NANOS_PER_SECOND
  {
    assert Pow10(3) == 1000;
    assert Pow10(6) == 1000 * Pow10(3);
    assert Pow10(9) == 1000 * Pow10(6);
  }

  lemma {:induction false} ZerosAreZero(s: Text)
    requires AllDigits(s) && Trim(s) == []
    ensures DecimalValue(s) == 0
  {
    if s != [] {
      ZerosAreZero(s[..|s| - 1]);
    }
  }

  lemma {:induction false} TwoDigits(n: nat)
    requires n < 100
    ensures |Decimal(n, 2)| == 2 && DecimalValue(Decimal(n, 2)) == n
  {
    assert Pow10(1) == 10 && Pow10(2) == 100;
    DecimalWidth(n, 2);
    DecimalReadsBack(n, 2);
  }

  lemma {:induction false} YearDigits(y: nat)
    ensures y < 10_000 ==> |Decimal(y, 4)| == 4
    ensures y >= 10_000 ==> |Decimal(y, 4)| > 4
    ensures DecimalValue(Decimal(y, 4)) == y
  {
    assert Pow10(2) == 100;
    assert Pow10(4) == 100 * Pow10(2);
    DecimalWidth(y, 4);
    DecimalReadsBack(y, 4);
  }

  /** Every part of a date and time is written with two digits, or four for the year, and reads back. */
  lemma {:induction false} CivilDigits(c: Civil)
    requires ValidCivil(c)
    ensures c.year < 10_000 ==> |Decimal(c.year, 4)| == 4
    ensures c.year >= 10_000 ==> |Decimal(c.year, 4)| > 4
    ensures DecimalValue(Decimal(c.year, 4)) == c.year
    ensures |Decimal(c.month, 2)| == |Decimal(c.day, 2)| == 2
    ensures |Decimal(c.hour, 2)| == |Decimal(c.minute, 2)| == |Decimal(c.second, 2)| == 2
    ensures DecimalValue(Decimal(c.month, 2)) == c.month && DecimalValue(Decimal(c.day, 2)) == c.day
    ensures DecimalValue(Decimal(c.hour, 2)) == c.hour && DecimalValue(Decimal(c.minute, 2)) == c.minute
    ensures DecimalValue(Decimal(c.second, 2)) == c.second
  {
    YearDigits(c.year);
    TwoDigits(c.month);
    assert DaysIn(c.month, IsLeap(c.year)) <= 31;
    TwoDigits(c.day);
    TwoDigits(c.hour);
    TwoDigits(c.minute);
    TwoDigits(c.second);
  }

  lemma {:induction false} LayoutSlices(y: Text, mo: Text, d: Text, h: Text, mi: Text, s: Text, tail: Text)
    requires |mo| == |d| == |h| == |mi| == |s| == 2 && |tail| >= 1
    ensures var t := Layout(y, mo, d, h, mi, s, tail);
      |y| == 4 ==>
        && t[..4] == y && t[5..7] == mo && t[8..10] == d && t[11..13] == h && t[14..16] == mi && t[17..19] == s
        && t[4] == DASH && t[7] == DASH && t[10] == LETTER_T && t[13] == COLON && t[16] == COLON
        && t[19..] == tail
    ensures |y| > 4 ==> Layout(y, mo, d, h, mi, s, tail)[4] == y[4]
  {
  }

  lemma {:induction false} ParseLayout(y: Text, mo: Text, d: Text, h: Text, mi: Text, s: Text, tail: Text, nano: nat,
      shift: int)
    requires |mo| == |d| == |h| == |mi| == |s| == 2 && |tail| >= 1
    requires AllDigits(y) && AllDigits(mo) && AllDigits(d) && AllDigits(h) && AllDigits(mi) && AllDigits(s)
    requires ParseTail(tail) == Some((nano, shift))
    ensures |y| > 4 ==> Parse(Layout(y, mo, d, h, mi, s, tail)) == None
    ensures var c := Civil(DecimalValue(y), DecimalValue(mo), DecimalValue(d),
                           DecimalValue(h), DecimalValue(mi), DecimalValue(s), nano);
      |y| == 4 ==>
        Parse(Layout(y, mo, d, h, mi, s, tail)) ==
          if ValidCivil(c) then Some(InstantOf(c) - shift * NANOS_PER_SECOND) else None
  {
    LayoutSlices(y, mo, d, h, mi, s, tail);
  }

  /** A date and time with the given zone behind it. */
  function TextOf(c: Civil, zone: Text): Text {
    Layout(Decimal(c.year, 4), Decimal(c.month, 2), Decimal(c.day, 2),
           Decimal(c.hour, 2), Decimal(c.minute, 2), Decimal(c.second, 2), Fraction(c.nano) + zone)
  }

  /** A time given in a zone is read as the instant that far earlier in UTC. */
  lemma {:induction false} ZonedTimeReads(c: Civil, zone: Text, shift: int)
    requires ValidCivil(c) && ParseZone(zone) == Some(shift)
    ensures Parse(TextOf(c, zone)) == if c.year < 10_000 then Some(InstantOf(c) - shift * NANOS_PER_SECOND) else None
  {
    CivilDigits(c);
    FractionReadsBack(c.nano, zone, shift);
    ParseLayout(Decimal(c.year, 4), Decimal(c.month, 2), Decimal(c.day, 2), Decimal(c.hour, 2),
                Decimal(c.minute, 2), Decimal(c.second, 2), Fraction(c.nano) + zone, c.nano, shift);
  }

  /** Reading back what was written gives the same instant exactly in years with four digits. */
  lemma {:induction false} RoundTrip(t: nat)
    ensures Parse(Format(t)) == if t < YEAR_10000 then Some(t) else None
  {
    FourDigitYears(t);
    assert Format(t) == TextOf(CivilOf(t), [LETTER_Z]);
    ZonedTimeReads(CivilOf(t), [LETTER_Z], 0);
  }
}
