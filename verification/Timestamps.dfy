/**
 * SQLite keeps instants as text and compares them as text. Two formats meet in
 * one comparison: the store's own fixed format with six fraction digits and 'Z',
 * and RFC 3339 text (section 5.1 of RFC 3339) with 0, 3, 6 or 9 fraction digits
 * and "+00:00". Here text order is related to the order of the instants.
 */
module Timestamps {
  import opened Common
  import opened Decimals

  /** A UTC date and time without leap seconds, in years 0000 to 9999. */
  datatype DateTime = DateTime(year: nat, month: nat, day: nat, hour: nat, minute: nat, second: nat, nanos: nat)

  predicate Leap(year: nat) {
    year % 4 == 0 && (year % 100 != 0 || year % 400 == 0)
  }

  function MonthLength(year: nat, month: nat): nat {
    if month == 2 then (if Leap(year) then 29 else 28)
    else if month in {4, 6, 9, 11} then 30 else 31
  }

  predicate Valid(t: DateTime) {
    && t.year <= 9999 && 1 <= t.month <= 12 && 1 <= t.day <= MonthLength(t.year, t.month)
    && t.hour < 24 && t.minute < 60 && t.second < 60 && t.nanos < 1_000_000_000
  }

  // ---- Instants: time elapsed since year 0000 ----

  /** Days before the first of a month of a year. */
  function DaysBeforeMonth(year: nat, month: nat): nat {
    if month <= 1 then 0 else DaysBeforeMonth(year, month - 1) + MonthLength(year, month - 1)
  }

  function YearLength(year: nat): nat {
    if Leap(year) then 366 else 365
  }

  function DaysBeforeYear(year: nat): nat {
    if year == 0 then 0 else DaysBeforeYear(year - 1) + YearLength(year - 1)
  }

  function Day(t: DateTime): nat
    requires Valid(t)
  {
    DaysBeforeYear(t.year) + DaysBeforeMonth(t.year, t.month) + t.day - 1
  }

  function Seconds(t: DateTime): nat
    requires Valid(t)
  {
    ((Day(t) * 24 + t.hour) * 60 + t.minute) * 60 + t.second
  }

  function Nanos(t: DateTime): nat
    requires Valid(t)
  {
    Seconds(t) * 1_000_000_000 + t.nanos
  }

  /** The instant cut off to whole microseconds. */
  function Micros(t: DateTime): nat
    requires Valid(t)
  {
    Seconds(t) * 1_000_000 + t.nanos / 1000
  }

  /** The months make up the year. */
  lemma MonthsInDays(year: nat)
    ensures DaysBeforeMonth(year, 13) == YearLength(year)
  {
    var leap := if Leap(year) then 1 else 0;
    assert DaysBeforeMonth(year, 2) == 31;
    assert DaysBeforeMonth(year, 3) == 59 + leap;
    assert DaysBeforeMonth(year, 4) == 90 + leap;
    assert DaysBeforeMonth(year, 5) == 120 + leap;
    assert DaysBeforeMonth(year, 6) == 151 + leap;
    assert DaysBeforeMonth(year, 7) == 181 + leap;
    assert DaysBeforeMonth(year, 8) == 212 + leap;
    assert DaysBeforeMonth(year, 9) == 243 + leap;
    assert DaysBeforeMonth(year, 10) == 273 + leap;
    assert DaysBeforeMonth(year, 11) == 304 + leap;
    assert DaysBeforeMonth(year, 12) == 334 + leap;
  }

  lemma EveryFourth(y: nat)
    ensures (y + 4) / 4 - (y + 3) / 4 == if y % 4 == 0 then 1 else 0
  {
  }

  lemma EveryHundredth(y: nat)
    ensures (y + 100) / 100 - (y + 99) / 100 == if y % 100 == 0 then 1 else 0
  {
  }

  lemma EveryFourHundredth(y: nat)
    ensures (y + 400) / 400 - (y + 399) / 400 == if y % 400 == 0 then 1 else 0
  {
  }

  lemma Multiples(y: nat)
    ensures y % 400 == 0 ==> y % 100 == 0
    ensures y % 100 == 0 ==> y % 4 == 0
  {
    if y % 400 == 0 {
      assert y % 100 == 100 * (4 * (y / 400) - y / 100);
    }
    if y % 100 == 0 {
      assert y % 4 == 4 * (25 * (y / 100) - y / 4);
    }
  }

  /** How many of the years before this one are leap years. */
  function LeapYears(year: nat): nat {
    if year == 0 then 0 else LeapYears(year - 1) + if Leap(year - 1) then 1 else 0
  }

  /** Every fourth year is one, but not every hundredth unless it is a four-hundredth. */
  lemma {:induction false} LeapYearsCounted(year: nat)
    ensures LeapYears(year) == (year + 3) / 4 - (year + 99) / 100 + (year + 399) / 400
  {
    if year > 0 {
      LeapYearsCounted(year - 1);
      EveryFourth(year - 1);
      EveryHundredth(year - 1);
      EveryFourHundredth(year - 1);
      Multiples(year - 1);
    }
  }

  /** Years have 365 days, and leap years one more. */
  lemma {:induction false} YearsInDays(year: nat)
    ensures DaysBeforeYear(year) == 365 * year + LeapYears(year)
  {
    if year > 0 {
      YearsInDays(year - 1);
    }
  }

  // ---- Text ----

  /** `n` in exactly `width` decimal digits. */
  function Pad(n: nat, width: nat): (s: string)
    ensures |s| == width
    ensures forall i :: 0 <= i < |s| ==> '0' <= s[i] <= '9'
  {
    if width == 0 then "" else Pad(n / 10, width - 1) + [Digit(n % 10)]
  }

  function Power10(n: nat): nat {
    if n == 0 then 1 else 10 * Power10(n - 1)
  }

  /** The digits of a field stand for its number. */
  lemma {:induction false} PadValue(n: nat, width: nat)
    requires n < Power10(width)
    ensures AreDigits(Pad(n, width)) && Value(Pad(n, width)) == n
  {
    if width > 0 {
      PadValue(n / 10, width - 1);
      ValueOfLast(Pad(n / 10, width - 1), n % 10);
    }
  }

  /** The part both formats share, up to the seconds, followed by some rest. */
  function Clock(t: DateTime, rest: string): string {
    Pad(t.year, 4) + ("-" + (Pad(t.month, 2) + ("-" + (Pad(t.day, 2) + ("T"
    + (Pad(t.hour, 2) + (":" + (Pad(t.minute, 2) + (":" + (Pad(t.second, 2) + rest))))))))))
  }

  /** The format "%Y-%m-%dT%H:%M:%S%.6fZ". */
  function StoreText(t: DateTime): string {
    Clock(t, "." + (Pad(t.nanos / 1000, 6) + "Z"))
  }

  /** The store's text: four, two, two, two, two, two and six digits for the fields, with their separators. */
  lemma StoreTextReads(t: DateTime)
    requires Valid(t)
    ensures var s := StoreText(t);
      && |s| == 27
      && s[4] == '-' && s[7] == '-' && s[10] == 'T' && s[13] == ':' && s[16] == ':' && s[19] == '.' && s[26] == 'Z'
      && Reads(s[0..4], t.year) && Reads(s[5..7], t.month) && Reads(s[8..10], t.day) && Reads(s[11..13], t.hour)
      && Reads(s[14..16], t.minute) && Reads(s[17..19], t.second) && Reads(s[20..26], t.nanos / 1000)
  {
    var s := StoreText(t);
    var fraction := "." + (Pad(t.nanos / 1000, 6) + "Z");
    var time := "T" + (Pad(t.hour, 2) + (":" + (Pad(t.minute, 2) + (":" + (Pad(t.second, 2) + fraction)))));
    DateReads(s, t, time);
    TimeReads(s, t, fraction);
    FractionReads(s, t);
  }

  lemma YearReads(s: string, year: nat, tail: string)
    requires year <= 9999 && s == Pad(year, 4) + tail
    ensures |s| >= 4 && Reads(s[0..4], year) && s[4..] == tail
  {
    assert Power10(4) == 10000;
    PadValue(year, 4);
    assert s[0..4] == Pad(year, 4);
  }

  lemma DateReads(s: string, t: DateTime, tail: string)
    requires Valid(t) && s == Pad(t.year, 4) + ("-" + (Pad(t.month, 2) + ("-" + (Pad(t.day, 2) + tail))))
    ensures |s| >= 10 && s[4] == '-' && s[7] == '-'
    ensures Reads(s[0..4], t.year) && Reads(s[5..7], t.month) && Reads(s[8..10], t.day) && s[10..] == tail
  {
    var day := "-" + (Pad(t.day, 2) + tail);
    YearReads(s, t.year, "-" + (Pad(t.month, 2) + day));
    ReadTwoDigits(s, 4, "-", t.month, day);
    ReadTwoDigits(s, 7, "-", t.day, tail);
  }

  lemma TimeReads(s: string, t: DateTime, tail: string)
    requires Valid(t) && |s| >= 10
    requires s[10..] == "T" + (Pad(t.hour, 2) + (":" + (Pad(t.minute, 2) + (":" + (Pad(t.second, 2) + tail)))))
    ensures |s| >= 19 && s[10] == 'T' && s[13] == ':' && s[16] == ':'
    ensures Reads(s[11..13], t.hour) && Reads(s[14..16], t.minute) && Reads(s[17..19], t.second) && s[19..] == tail
  {
    var minutes := ":" + (Pad(t.minute, 2) + (":" + (Pad(t.second, 2) + tail)));
    ReadTwoDigits(s, 10, "T", t.hour, minutes);
    MinuteReads(s, t, tail);
  }

  lemma MinuteReads(s: string, t: DateTime, tail: string)
    requires Valid(t) && |s| >= 13 && s[13..] == ":" + (Pad(t.minute, 2) + (":" + (Pad(t.second, 2) + tail)))
    ensures |s| >= 19 && s[13] == ':' && s[16] == ':'
    ensures Reads(s[14..16], t.minute) && Reads(s[17..19], t.second) && s[19..] == tail
  {
    var seconds := ":" + (Pad(t.second, 2) + tail);
    ReadTwoDigits(s, 13, ":", t.minute, seconds);
    ReadTwoDigits(s, 16, ":", t.second, tail);
  }

  lemma FractionReads(s: string, t: DateTime)
    requires Valid(t) && |s| >= 19 && s[19..] == "." + (Pad(t.nanos / 1000, 6) + "Z")
    ensures |s| == 27 && s[19] == '.' && Reads(s[20..26], t.nanos / 1000) && s[26] == 'Z'
  {
    assert Power10(6) == 1_000_000;
    PadValue(t.nanos / 1000, 6);
    ReadPiece(s, 19, ".", Pad(t.nanos / 1000, 6) + "Z");
    ReadPiece(s, 20, Pad(t.nanos / 1000, 6), "Z");
  }

  lemma ReadTwoDigits(s: string, k: nat, mark: string, n: nat, tail: string)
    requires k <= |s| && |mark| == 1 && n < 100 && s[k..] == mark + (Pad(n, 2) + tail)
    ensures k + 3 <= |s| && s[k] == mark[0] && Reads(s[k + 1..k + 3], n) && s[k + 3..] == tail
  {
    assert Power10(2) == 100;
    PadValue(n, 2);
    ReadPiece(s, k, mark, Pad(n, 2) + tail);
    ReadPiece(s, k + 1, Pad(n, 2), tail);
  }

  lemma ReadPiece(s: string, k: nat, head: string, tail: string)
    requires k <= |s| && s[k..] == head + tail
    ensures k + |head| <= |s| && s[k..k + |head|] == head && s[k + |head|..] == tail
    ensures forall i :: 0 <= i < |head| ==> s[k + i] == head[i]
  {
    assert s[k..][..|head|] == head && s[k..][|head|..] == tail;
  }

  predicate Reads(s: string, n: nat) {
    AreDigits(s) && Value(s) == n
  }

  /** Fraction of an RFC 3339 text: as many groups of three digits as the nanoseconds need. */
  function Fraction(nanos: nat): string {
    if nanos == 0 then ""
    else if nanos % 1_000_000 == 0 then "." + Pad(nanos / 1_000_000, 3)
    else if nanos % 1000 == 0 then "." + Pad(nanos / 1000, 6)
    else "." + Pad(nanos, 9)
  }

  function Rfc3339(t: DateTime): string {
    Clock(t, Fraction(t.nanos) + "+00:00")
  }

  // ---- Text order ----

  /** Three-way comparison of texts, character by character: negative, zero or positive. */
  function Compare(s: string, t: string): int {
    if s == "" && t == "" then 0
    else if s == "" then -1
    else if t == "" then 1
    else if s[0] < t[0] then -1
    else if s[0] > t[0] then 1
    else Compare(s[1..], t[1..])
  }

  lemma {:induction false} ComparePrefix(p: string, s: string, t: string)
    ensures Compare(p + s, p + t) == Compare(s, t)
  {
    if p == "" {
      assert p + s == s && p + t == t;
    } else {
      ComparePrefix(p[1..], s, t);
      assert (p + s)[1..] == p[1..] + s && (p + t)[1..] == p[1..] + t;
    }
  }

  /** Fixed-width decimal fields compare like their numbers, then like what follows. */
  lemma {:induction false} ComparePad(m: nat, n: nat, width: nat, s: string, t: string)
    requires m < Power10(width) && n < Power10(width)
    ensures Compare(Pad(m, width) + s, Pad(n, width) + t)
         == if m < n then -1 else if m > n then 1 else Compare(s, t)
    decreases width
  {
    if width == 0 {
      assert Pad(m, width) + s == s && Pad(n, width) + t == t;
    } else {
      var p, q := [Digit(m % 10)] + s, [Digit(n % 10)] + t;
      assert Pad(m, width) + s == Pad(m / 10, width - 1) + p;
      assert Pad(n, width) + t == Pad(n / 10, width - 1) + q;
      ComparePad(m / 10, n / 10, width - 1, p, q);
      assert p[1..] == s && q[1..] == t;
    }
  }

  // ---- Order of the fields ----

  predicate SecondsBefore(a: DateTime, b: DateTime) {
    a.year < b.year || (a.year == b.year
    && (a.month < b.month || (a.month == b.month
    && (a.day < b.day || (a.day == b.day
    && (a.hour < b.hour || (a.hour == b.hour
    && (a.minute < b.minute || (a.minute == b.minute && a.second < b.second)))))))))
  }

  predicate SameSecond(a: DateTime, b: DateTime) {
    a.(nanos := 0) == b.(nanos := 0)
  }

  lemma {:induction false} DaysBeforeMonthMonotone(year: nat, m: nat, n: nat)
    requires 1 <= m <= n
    ensures DaysBeforeMonth(year, m) + (if m < n then MonthLength(year, m) else 0) <= DaysBeforeMonth(year, n)
  {
    if m < n {
      DaysBeforeMonthMonotone(year, m, n - 1);
    }
  }

  lemma {:induction false} DaysBeforeYearMonotone(y: nat, z: nat)
    requires y <= z
    ensures DaysBeforeYear(y) + (if y < z then YearLength(y) else 0) <= DaysBeforeYear(z)
  {
    if y < z {
      DaysBeforeYearMonotone(y, z - 1);
    }
  }

  /** An earlier calendar date is an earlier day. */
  lemma DaysOrdered(a: DateTime, b: DateTime)
    requires Valid(a) && Valid(b)
    requires a.year < b.year || (a.year == b.year && (a.month < b.month || (a.month == b.month && a.day < b.day)))
    ensures Day(a) < Day(b)
  {
    if a.year < b.year {
      DaysBeforeMonthMonotone(a.year, a.month, 13);
      MonthsInDays(a.year);
      DaysBeforeYearMonotone(a.year, b.year);
    } else {
      DaysBeforeMonthMonotone(a.year, a.month, b.month);
    }
  }

  /** The fields order instants as time does. */
  lemma SecondsOrdered(a: DateTime, b: DateTime)
    requires Valid(a) && Valid(b)
    ensures SecondsBefore(a, b) ==> Seconds(a) < Seconds(b)
    ensures SameSecond(a, b) ==> Seconds(a) == Seconds(b)
  {
    if a.year < b.year || (a.year == b.year && (a.month < b.month || (a.month == b.month && a.day < b.day))) {
      DaysOrdered(a, b);
    }
  }

  lemma SecondsTotal(a: DateTime, b: DateTime)
    ensures SecondsBefore(a, b) || SameSecond(a, b) || SecondsBefore(b, a)
  {
  }

  // ---- The two comparisons the store makes ----

  lemma CompareClock(a: DateTime, b: DateTime, s: string, t: string)
    requires Valid(a) && Valid(b)
    ensures Compare(Clock(a, s), Clock(b, t))
         == if SecondsBefore(a, b) then -1 else if SecondsBefore(b, a) then 1 else Compare(s, t)
  {
    assert Power10(4) == 10000 && Power10(2) == 100;
    var s6, t6 := Pad(a.second, 2) + s, Pad(b.second, 2) + t;
    var s5, t5 := Pad(a.minute, 2) + (":" + s6), Pad(b.minute, 2) + (":" + t6);
    var s4, t4 := Pad(a.hour, 2) + (":" + s5), Pad(b.hour, 2) + (":" + t5);
    var s3, t3 := Pad(a.day, 2) + ("T" + s4), Pad(b.day, 2) + ("T" + t4);
    var s2, t2 := Pad(a.month, 2) + ("-" + s3), Pad(b.month, 2) + ("-" + t3);
    ComparePad(a.year, b.year, 4, "-" + s2, "-" + t2);
    ComparePrefix("-", s2, t2);
    ComparePad(a.month, b.month, 2, "-" + s3, "-" + t3);
    ComparePrefix("-", s3, t3);
    ComparePad(a.day, b.day, 2, "T" + s4, "T" + t4);
    ComparePrefix("T", s4, t4);
    ComparePad(a.hour, b.hour, 2, ":" + s5, ":" + t5);
    ComparePrefix(":", s5, t5);
    ComparePad(a.minute, b.minute, 2, ":" + s6, ":" + t6);
    ComparePrefix(":", s6, t6);
    ComparePad(a.second, b.second, 2, s, t);
  }

  /** Store texts compare exactly as their instants do, to the microsecond. */
  lemma StoreTextOrder(a: DateTime, b: DateTime)
    requires Valid(a) && Valid(b)
    ensures Compare(StoreText(a), StoreText(b)) < 0 <==> Micros(a) < Micros(b)
    ensures Compare(StoreText(a), StoreText(b)) == 0 <==> Micros(a) == Micros(b)
  {
    var m, n := a.nanos / 1000, b.nanos / 1000;
    CompareClock(a, b, "." + (Pad(m, 6) + "Z"), "." + (Pad(n, 6) + "Z"));
    ComparePrefix(".", Pad(m, 6) + "Z", Pad(n, 6) + "Z");
    assert Power10(6) == 1_000_000;
    ComparePad(m, n, 6, "Z", "Z");
    SecondsOrdered(a, b);
    SecondsOrdered(b, a);
    SecondsTotal(a, b);
  }

  lemma PadStep(n: nat, width: nat)
    ensures Pad(n, width + 1) == Pad(n / 10, width) + [Digit(n % 10)]
  {
  }

  lemma DivideThrice(n: nat)
    ensures n / 10 / 10 / 10 == n / 1000
  {
  }

  lemma Regroup(p: string, x: char, y: char, z: char)
    ensures ((p + [x]) + [y]) + [z] == p + ((("" + [x]) + [y]) + [z])
  {
  }

  /** The last three digits of a decimal field, split off. */
  lemma PadSplit(n: nat, width: nat)
    ensures Pad(n, width + 3) == Pad(n / 1000, width) + Pad(n, 3)
  {
    var m := n / 10;
    var l := m / 10;
    PadStep(n, width + 2);
    PadStep(m, width + 1);
    PadStep(l, width);
    PadStep(n, 2);
    PadStep(m, 1);
    PadStep(l, 0);
    DivideThrice(n);
    Regroup(Pad(n / 1000, width), Digit(l % 10), Digit(m % 10), Digit(n % 10));
  }

  /** A fraction of three digits against six of them. */
  lemma MillisOrder(digits: nat, micros: nat)
    requires digits < 1000 && micros < 1_000_000
    ensures Compare("." + Pad(digits, 3) + "+00:00", "." + (Pad(micros, 6) + "Z")) <= 0 <==> digits * 1000 <= micros
  {
    assert Power10(3) == 1000;
    PadSplit(micros, 3);
    var head, tail := Pad(digits, 3) + "+00:00", Pad(micros / 1000, 3) + (Pad(micros, 3) + "Z");
    assert "." + Pad(digits, 3) + "+00:00" == "." + head && Pad(micros, 6) + "Z" == tail;
    ComparePrefix(".", head, tail);
    ComparePad(digits, micros / 1000, 3, "+00:00", Pad(micros, 3) + "Z");
  }

  /** A fraction of six digits, and possibly more, against one of six. */
  lemma MicrosOrder(digits: nat, more: string, micros: nat)
    requires digits < 1_000_000 && micros < 1_000_000
    ensures Compare("." + (Pad(digits, 6) + more + "+00:00"), "." + (Pad(micros, 6) + "Z")) <= 0
       <==> digits < micros || (digits == micros && Compare(more + "+00:00", "Z") <= 0)
  {
    assert Power10(6) == 1_000_000;
    var head, tail := Pad(digits, 6) + (more + "+00:00"), Pad(micros, 6) + "Z";
    assert Pad(digits, 6) + more + "+00:00" == head;
    ComparePrefix(".", head, tail);
    ComparePad(digits, micros, 6, more + "+00:00", "Z");
  }

  /** Comparing an RFC 3339 fraction with a store fraction compares whole microseconds. */
  lemma FractionOrder(nanos: nat, micros: nat)
    requires nanos < 1_000_000_000 && micros < 1_000_000
    ensures Compare(Fraction(nanos) + "+00:00", "." + (Pad(micros, 6) + "Z")) <= 0 <==> nanos / 1000 <= micros
  {
    if nanos == 0 {
      assert "" + "+00:00" == "+00:00";
    } else if nanos % 1_000_000 == 0 {
      MillisOrder(nanos / 1_000_000, micros);
    } else if nanos % 1000 == 0 {
      MicrosOrder(nanos / 1000, "", micros);
      assert "." + Pad(nanos / 1000, 6) + "+00:00" == "." + (Pad(nanos / 1000, 6) + "" + "+00:00");
    } else {
      PadSplit(nanos, 6);
      MicrosOrder(nanos / 1000, Pad(nanos, 3), micros);
      assert "." + Pad(nanos, 9) + "+00:00" == "." + (Pad(nanos / 1000, 6) + Pad(nanos, 3) + "+00:00");
    }
  }

  /**
   * `circuit_open_until <= now` as texts holds exactly when the instant the circuit
   * is open until, cut off to microseconds, has been reached.
   */
  lemma OpenUntilOrder(until: DateTime, now: DateTime)
    requires Valid(until) && Valid(now)
    ensures Compare(Rfc3339(until), StoreText(now)) <= 0 <==> Micros(until) <= Micros(now)
  {
    var m, n := until.nanos / 1000, now.nanos / 1000;
    CompareClock(until, now, Fraction(until.nanos) + "+00:00", "." + (Pad(n, 6) + "Z"));
    FractionOrder(until.nanos, n);
    SecondsOrdered(until, now);
    SecondsOrdered(now, until);
    SecondsTotal(until, now);
  }

  /** Cutting off to microseconds can close a circuit early, by less than one microsecond. */
  lemma OpenUntilPrecision(until: DateTime, now: DateTime)
    requires Valid(until) && Valid(now)
    ensures Nanos(until) <= Nanos(now) ==> Compare(Rfc3339(until), StoreText(now)) <= 0
    ensures Compare(Rfc3339(until), StoreText(now)) <= 0 ==> Nanos(until) < Nanos(now) + 1000
  {
    OpenUntilOrder(until, now);
  }
}
