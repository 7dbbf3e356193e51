/** Whole-second clocks and the text of dates and instants.
  *
  * An instant is a number of milliseconds since 1970-01-01T00:00:00Z, the unit the ERP
  * stores as a version. Dates use the proleptic Gregorian calendar.
  */
module Calendar {
  import opened Prelude

  const SECOND := 1000

  /** Milliseconds from 0001-01-01T00:00:00Z to 1970-01-01T00:00:00Z. */
  const EPOCH := 62135596800000

  /** Drop the sub-second part, towards the past. */
  function Truncate(t: int): (r: int)
    ensures r <= t < r + SECOND && WholeSecond(r)
  {
    t - t % SECOND
  }

  predicate WholeSecond(t: int) {
    t % SECOND == 0
  }

  // ---- digits ---------------------------------------------------------------

  predicate IsDigit(c: char) {
    '0' <= c <= '9'
  }

  function DigitValue(c: char): nat
    requires IsDigit(c)
  {
    (c as int) - ('0' as int)
  }

  function Digit(n: nat): (c: char)
    ensures IsDigit(c) && DigitValue(c) == n % 10
  {
    (('0' as int) + n % 10) as char
  }

  predicate AllDigits(s: string) {
    forall i :: 0 <= i < |s| ==> IsDigit(s[i])
  }

  function NatOf(s: string): nat
    requires AllDigits(s)
  {
    if s == "" then 0 else NatOf(s[..|s| - 1]) * 10 + DigitValue(s[|s| - 1])
  }

  function Decimal2(s: string, at: nat): nat
    requires at + 2 <= |s| && IsDigit(s[at]) && IsDigit(s[at + 1])
  {
    DigitValue(s[at]) * 10 + DigitValue(s[at + 1])
  }

  function Decimal4(s: string, at: nat): nat
    requires at + 4 <= |s| && forall i :: at <= i < at + 4 ==> IsDigit(s[i])
  {
    ((DigitValue(s[at]) * 10 + DigitValue(s[at + 1])) * 10 + DigitValue(s[at + 2])) * 10 + DigitValue(s[at + 3])
  }

  // ---- dates ----------------------------------------------------------------

  datatype Date = Date(year: nat, month: nat, day: nat)

  predicate IsLeap(y: nat) {
    y % 4 == 0 && (y % 100 != 0 || y % 400 == 0)
  }

  function YearDays(y: nat): nat {
    if IsLeap(y) then 366 else 365
  }

  function MonthDays(y: nat, m: nat): nat {
    if m == 2 then (if IsLeap(y) then 29 else 28)
    else if m in {4, 6, 9, 11} then 30
    else 31
  }

  predicate ValidDate(d: Date) {
    1 <= d.year <= 9999 && 1 <= d.month <= 12 && 1 <= d.day <= MonthDays(d.year, d.month)
  }

  function DaysBeforeYear(y: nat): nat {
    if y <= 1 then 0 else DaysBeforeYear(y - 1) + YearDays(y - 1)
  }

  function DaysBeforeMonth(y: nat, m: nat): nat {
    if m <= 1 then 0 else DaysBeforeMonth(y, m - 1) + MonthDays(y, m - 1)
  }

  /** Days since 0001-01-01. */
  function DayNumber(d: Date): int {
    DaysBeforeYear(d.year) + DaysBeforeMonth(d.year, d.month) + d.day - 1
  }

  function YearFrom(n: nat, y: nat): (nat, nat)
    decreases n
  {
    if n < YearDays(y) then (y, n) else YearFrom(n - YearDays(y), y + 1)
  }

  function MonthFrom(n: nat, y: nat, m: nat): (nat, nat)
    decreases 12 - m
  {
    if n < MonthDays(y, m) || m >= 12 then (m, n) else MonthFrom(n - MonthDays(y, m), y, m + 1)
  }

  function DateOf(n: nat): Date {
    var (y, rest) := YearFrom(n, 1);
    var (m, left) := MonthFrom(rest, y, 1);
    Date(y, m, left + 1)
  }

  lemma {:induction false} YearFromInverts(n: nat, y: nat)
    requires 1 <= y
    ensures var (year, rest) := YearFrom(n, y);
            y <= year && rest < YearDays(year) && DaysBeforeYear(year) + rest == DaysBeforeYear(y) + n
    decreases n
  {
    if n >= YearDays(y) {
      YearFromInverts(n - YearDays(y), y + 1);
    }
  }

  lemma {:induction false} MonthFromInverts(n: nat, y: nat, m: nat)
    requires 1 <= m <= 12
    requires DaysBeforeMonth(y, m) + n < YearDays(y)
    ensures var (month, rest) := MonthFrom(n, y, m);
            m <= month <= 12 && rest < MonthDays(y, month)
            && DaysBeforeMonth(y, month) + rest == DaysBeforeMonth(y, m) + n
    decreases 12 - m
  {
    if m == 12 {
      TwelveMonths(y);
    } else if n >= MonthDays(y, m) {
      MonthFromInverts(n - MonthDays(y, m), y, m + 1);
    }
  }

  lemma TwelveMonths(y: nat)
    ensures DaysBeforeMonth(y, 12) + 31 == YearDays(y)
  {
    assert DaysBeforeMonth(y, 1) == 0;
    assert DaysBeforeMonth(y, 2) == 31;
    assert DaysBeforeMonth(y, 3) == 31 + MonthDays(y, 2);
    assert DaysBeforeMonth(y, 5) == DaysBeforeMonth(y, 3) + 61;
    assert DaysBeforeMonth(y, 7) == DaysBeforeMonth(y, 5) + 61;
    assert DaysBeforeMonth(y, 9) == DaysBeforeMonth(y, 7) + 62;
    assert DaysBeforeMonth(y, 11) == DaysBeforeMonth(y, 9) + 61;
  }

  /** Every day number is the number of its own calendar date. */
  lemma DateOfInverts(n: nat)
    ensures DayNumber(DateOf(n)) == n
    ensures DateOf(n).year <= 9999 ==> ValidDate(DateOf(n))
  {
    var (y, rest) := YearFrom(n, 1);
    YearFromInverts(n, 1);
    assert DaysBeforeMonth(y, 1) == 0;
    var (m, left) := MonthFrom(rest, y, 1);
    MonthFromInverts(rest, y, 1);
    assert DateOf(n) == Date(y, m, left + 1);
  }

  // ---- the text of an instant -------------------------------------------------

  /** An instant split into a day number and a time of day. */
  datatype Fields = Fields(day: nat, hour: nat, minute: nat, second: nat, milli: nat) {
    function Instant(): int {
      (((day * 24 + hour) * 60 + minute) * 60 + second) * SECOND + milli - EPOCH
    }
  }

  function Split(t: int): (f: Fields)
    requires t + EPOCH >= 0
    ensures f.Instant() == t && f.hour < 24 && f.minute < 60 && f.second < 60 && f.milli < SECOND
  {
    var seconds := (t + EPOCH) / SECOND;
    var minutes := seconds / 60;
    var hours := minutes / 60;
    Fields(hours / 24, hours % 24, minutes % 60, seconds % 60, (t + EPOCH) % SECOND)
  }

  /** The instants a four-digit year can write: years 1 to 9999. */
  predicate Representable(t: int) {
    t + EPOCH >= 0 && DateOf(Split(t).day).year <= 9999
  }

  function DateText(d: Date): string {
    [Digit(d.year / 10 / 10 / 10), Digit(d.year / 10 / 10), Digit(d.year / 10), Digit(d.year), '-',
     Digit(d.month / 10), Digit(d.month), '-', Digit(d.day / 10), Digit(d.day)]
  }

  function ClockText(f: Fields): string {
    ['T', Digit(f.hour / 10), Digit(f.hour), ':', Digit(f.minute / 10), Digit(f.minute), ':',
     Digit(f.second / 10), Digit(f.second)]
  }

  function FractionText(ms: nat): string {
    ['.', Digit(ms / 10 / 10), Digit(ms / 10), Digit(ms)]
  }

  function SecondsText(f: Fields): (s: string)
    ensures |s| == 19
  {
    DateText(DateOf(f.day)) + ClockText(f)
  }

  /** A SOQL literal: unquoted, whole seconds, UTC. */
  function Literal(t: int): string
    requires t + EPOCH >= 0
  {
    SecondsText(Split(t)) + "Z"
  }

  /** The form used in event keys: UTC with milliseconds. */
  function Normalised(t: int): string
    requires t + EPOCH >= 0
  {
    SecondsText(Split(t)) + FractionText(Split(t).milli) + "Z"
  }

  predicate DateShape(s: string) {
    |s| >= 10 && s[4] == '-' && s[7] == '-'
    && forall i :: 0 <= i < 10 && i != 4 && i != 7 ==> IsDigit(s[i])
  }

  predicate ClockShape(s: string) {
    |s| >= 19 && s[10] == 'T' && s[13] == ':' && s[16] == ':'
    && forall i :: 10 < i < 19 && i != 13 && i != 16 ==> IsDigit(s[i])
  }

  function DigitsFrom(s: string, at: nat, limit: nat): (n: nat)
    requires at <= |s|
    ensures n <= limit && at + n <= |s|
    ensures forall i :: at <= i < at + n ==> IsDigit(s[i])
    decreases limit
  {
    if limit > 0 && at < |s| && IsDigit(s[at]) then 1 + DigitsFrom(s, at + 1, limit - 1) else 0
  }

  /** Length of an optional `.` and one to three digits at `at`. */
  function FractionLength(s: string, at: nat): (n: nat)
    requires at <= |s|
    ensures at + n <= |s| && n <= 4
    ensures n > 0 ==> n >= 2 && forall i :: at < i < at + n ==> IsDigit(s[i])
  {
    if at < |s| && s[at] == '.' && DigitsFrom(s, at + 1, 3) > 0 then 1 + DigitsFrom(s, at + 1, 3) else 0
  }

  /** Length of `Z` or of an offset such as +0530 or +05:30 at `at`; 0 if there is none. */
  function ZoneLength(s: string, at: nat): (n: nat)
    requires at <= |s|
    ensures at + n <= |s|
  {
    if at < |s| && s[at] == 'Z' then 1
    else if at + 5 <= |s| && s[at] in {'+', '-'} && IsDigit(s[at + 1]) && IsDigit(s[at + 2]) then
      if IsDigit(s[at + 3]) && IsDigit(s[at + 4]) then 5
      else if at + 6 <= |s| && s[at + 3] == ':' && IsDigit(s[at + 4]) && IsDigit(s[at + 5]) then 6
      else 0
    else 0
  }

  /** Length of the datetime literal at the front of `s`; 0 if there is none. */
  function InstantLength(s: string): (n: nat)
    ensures n <= |s|
    ensures n > 0 ==> n >= 20 && DateShape(s) && ClockShape(s)
  {
    if DateShape(s) && ClockShape(s) && ZoneLength(s, 19 + FractionLength(s, 19)) > 0 then
      19 + FractionLength(s, 19) + ZoneLength(s, 19 + FractionLength(s, 19))
    else 0
  }

  function DateIn(s: string): Date
    requires DateShape(s)
  {
    Date(Decimal4(s, 0), Decimal2(s, 5), Decimal2(s, 8))
  }

  /** A date literal's day number, or None for a date no calendar has. */
  function ParseDate(s: string): Option<nat>
    requires DateShape(s)
  {
    var d := DateIn(s);
    if ValidDate(d) then Some(DayNumber(d)) else None
  }

  function ParseFraction(s: string, at: nat, n: nat): nat
    requires at + n <= |s| && n <= 4 && (n > 0 ==> n >= 2)
    requires forall i :: at < i < at + n ==> IsDigit(s[i])
  {
    if n == 0 then 0
    else if n == 2 then DigitValue(s[at + 1]) * 100
    else if n == 3 then Decimal2(s, at + 1) * 10
    else Decimal2(s, at + 1) * 10 + DigitValue(s[at + 3])
  }

  /** The offset in milliseconds, or None when it is a day or more, or its minutes are out of range. */
  function ParseZone(s: string, at: nat): Option<int>
    requires at <= |s| && ZoneLength(s, at) > 0
  {
    if s[at] == 'Z' then Some(0)
    else
      var minutes := Decimal2(s, at + ZoneLength(s, at) - 2);
      var hours := Decimal2(s, at + 1);
      if hours >= 24 || minutes >= 60 then None
      else if s[at] == '+' then Some((hours * 60 + minutes) * 60 * SECOND)
      else Some(-((hours * 60 + minutes) * 60 * SECOND))
  }

  /** The instant a datetime literal names, or None when some field is out of range. */
  function ParseInstant(s: string): Option<int>
    requires |s| > 0 && InstantLength(s) == |s|
  {
    var fraction := FractionLength(s, 19);
    var day :- ParseDate(s);
    var hour, minute, second := Decimal2(s, 11), Decimal2(s, 14), Decimal2(s, 17);
    var offset :- ParseZone(s, 19 + fraction);
    if hour >= 24 || minute >= 60 || second >= 60 then None
    else
      var t := Fields(day, hour, minute, second, ParseFraction(s, 19, fraction)).Instant() - offset;
      if Representable(t) then Some(t) else None
  }

  lemma FourDigits(s: string, y: nat)
    requires y <= 9999 && |s| >= 4
    requires s[0] == Digit(y / 10 / 10 / 10) && s[1] == Digit(y / 10 / 10) && s[2] == Digit(y / 10) && s[3] == Digit(y)
    ensures Decimal4(s, 0) == y
  {
    assert y / 10 / 10 / 10 < 10;
  }

  lemma TwoDigits(s: string, at: nat, n: nat)
    requires n < 100 && at + 2 <= |s| && s[at] == Digit(n / 10) && s[at + 1] == Digit(n)
    ensures Decimal2(s, at) == n
  {
  }

  lemma DateTextParses(d: Date, rest: string)
    requires ValidDate(d)
    ensures DateShape(DateText(d) + rest) && DateIn(DateText(d) + rest) == d
  {
    var s := DateText(d) + rest;
    FourDigits(s, d.year);
    TwoDigits(s, 5, d.month);
    TwoDigits(s, 8, d.day);
  }

  lemma ClockTextParses(date: string, f: Fields, rest: string)
    requires |date| == 10 && f.hour < 24 && f.minute < 60 && f.second < 60
    ensures var s := date + ClockText(f) + rest;
            && |s| >= 19 && s[10] == 'T' && s[13] == ':' && s[16] == ':'
            && (forall i :: 10 < i < 19 && i != 13 && i != 16 ==> IsDigit(s[i]))
            && Decimal2(s, 11) == f.hour && Decimal2(s, 14) == f.minute && Decimal2(s, 17) == f.second
  {
    var s := date + ClockText(f) + rest;
    assert s[10] == 'T' && s[11] == Digit(f.hour / 10) && s[12] == Digit(f.hour);
    assert s[13] == ':' && s[14] == Digit(f.minute / 10) && s[15] == Digit(f.minute);
    assert s[16] == ':' && s[17] == Digit(f.second / 10) && s[18] == Digit(f.second);
  }

  lemma SecondsTextParses(f: Fields, rest: string)
    requires DateOf(f.day).year <= 9999 && f.hour < 24 && f.minute < 60 && f.second < 60
    ensures var s := SecondsText(f) + rest;
            && DateShape(s) && ClockShape(s) && ParseDate(s) == Some(f.day) && s[19..] == rest
            && Decimal2(s, 11) == f.hour && Decimal2(s, 14) == f.minute && Decimal2(s, 17) == f.second
  {
    var date := DateText(DateOf(f.day));
    DateOfInverts(f.day);
    assert SecondsText(f) + rest == date + (ClockText(f) + rest) == date + ClockText(f) + rest;
    DateTextParses(DateOf(f.day), ClockText(f) + rest);
    ClockTextParses(date, f, rest);
  }

  /** The whole-second literal of an instant reads back as that instant with its sub-second part dropped. */
  lemma LiteralParses(t: int, rest: string)
    requires Representable(t)
    ensures InstantLength(Literal(t) + rest) == 20 == |Literal(t)|
    ensures ParseInstant(Literal(t)) == Some(Truncate(t))
  {
    LiteralLength(t, rest);
    LiteralLength(t, "");
    assert Literal(t) + "" == Literal(t);
    LiteralValue(t);
  }

  lemma LiteralLength(t: int, rest: string)
    requires Representable(t)
    ensures InstantLength(Literal(t) + rest) == 20 == |Literal(t)|
  {
    var s := Literal(t) + rest;
    SecondsTextParses(Split(t), "Z" + rest);
    assert s == SecondsText(Split(t)) + ("Z" + rest);
    assert s[19] == 'Z' && FractionLength(s, 19) == 0 && ZoneLength(s, 19) == 1;
  }

  lemma LiteralValue(t: int)
    requires Representable(t) && InstantLength(Literal(t)) == |Literal(t)| == 20
    ensures ParseInstant(Literal(t)) == Some(Truncate(t))
  {
    TruncateFields(t);
    assert Split(Truncate(t)).Instant() == Truncate(t);
    SecondsValue(Split(t), Truncate(t));
  }

  lemma SecondsValue(f: Fields, t: int)
    requires DateOf(f.day).year <= 9999 && f.hour < 24 && f.minute < 60 && f.second < 60
    requires f.(milli := 0).Instant() == t && Representable(t)
    requires InstantLength(SecondsText(f) + "Z") == 20
    ensures ParseInstant(SecondsText(f) + "Z") == Some(t)
  {
    hide SecondsText, DateOf, Representable, ParseDate, DateShape, ClockShape, InstantLength;
    var s := SecondsText(f) + "Z";
    SecondsTextParses(f, "Z");
    assert s[19] == 'Z';
    assert FractionLength(s, 19) == 0;
    assert ParseZone(s, 19) == Some(0);
  }

  lemma TruncateFields(t: int)
    requires t + EPOCH >= 0
    ensures Truncate(t) + EPOCH >= 0 && Split(Truncate(t)) == Split(t).(milli := 0)
  {
    assert (t + EPOCH) % SECOND == t % SECOND;
    assert (Truncate(t) + EPOCH) / SECOND == (t + EPOCH) / SECOND;
  }

  /** The millisecond form reads back exactly, so equal texts name equal instants. */
  lemma NormalisedParses(t: int, rest: string)
    requires Representable(t)
    ensures InstantLength(Normalised(t) + rest) == 24 == |Normalised(t)|
    ensures ParseInstant(Normalised(t)) == Some(t)
  {
    var f := Split(t);
    var tail := FractionText(f.milli) + "Z";
    SecondsTextParses(f, tail);
    SecondsTextParses(f, tail + rest);
    assert Normalised(t) == SecondsText(f) + tail;
    assert Normalised(t) + rest == SecondsText(f) + (tail + rest);
    FractionParses(SecondsText(f), f.milli, rest);
    FractionParses(SecondsText(f), f.milli, "");
    assert SecondsText(f) + FractionText(f.milli) + "Z" + rest == Normalised(t) + rest;
    assert SecondsText(f) + FractionText(f.milli) + "Z" + "" == Normalised(t);
  }

  lemma FractionParses(head: string, ms: nat, rest: string)
    requires |head| == 19 && ms < SECOND
    ensures var s := head + FractionText(ms) + "Z" + rest;
            FractionLength(s, 19) == 4 && ZoneLength(s, 23) == 1 && ParseFraction(s, 19, 4) == ms && s[23] == 'Z'
  {
    var s := head + FractionText(ms) + "Z" + rest;
    assert s[19] == '.' && s[20] == Digit(ms / 10 / 10) && s[21] == Digit(ms / 10) && s[22] == Digit(ms) && s[23] == 'Z';
    assert DigitsFrom(s, 23, 0) == 0;
    assert DigitsFrom(s, 22, 1) == 1;
    assert DigitsFrom(s, 21, 2) == 2;
    assert DigitsFrom(s, 20, 3) == 3;
  }

  // ---- offsets and short fractions ----------------------------------------------------------

  /** An offset as a literal may write it, with or without a colon. */
  function ZoneText(plus: bool, hours: nat, minutes: nat, colon: bool): string {
    [if plus then '+' else '-', Digit(hours / 10), Digit(hours)]
    + (if colon then ":" else "") + [Digit(minutes / 10), Digit(minutes)]
  }

  /** The offset is what the local clock is ahead. */
  function Ahead(plus: bool, hours: nat, minutes: nat): int {
    (if plus then 1 else -1) * ((hours * 60 + minutes) * 60 * SECOND)
  }

  /** The local clock of an instant at any offset, with that offset behind it, names the instant. */
  lemma OffsetParses(t: int, plus: bool, hours: nat, minutes: nat, colon: bool)
    requires hours < 24 && minutes < 60
    requires Representable(Truncate(t)) && Representable(t + Ahead(plus, hours, minutes))
    ensures var s := SecondsText(Split(t + Ahead(plus, hours, minutes))) + ZoneText(plus, hours, minutes, colon);
            0 < |s| == InstantLength(s) && ParseInstant(s) == Some(Truncate(t))
  {
    hide *;
    var local := t + Ahead(plus, hours, minutes);
    FewYears(local);
    var f, zone := Split(local), ZoneText(plus, hours, minutes, colon);
    var s := SecondsText(f) + zone;
    SecondsTextParses(f, zone);
    ZoneParses(s, plus, hours, minutes, colon);
    AheadIsWhole(t, plus, hours, minutes);
    CutIsTruncated(local);
    LocalClock(s, f, Ahead(plus, hours, minutes), Truncate(t));
  }

  lemma CutIsTruncated(t: int)
    requires t + EPOCH >= 0
    ensures Split(t).(milli := 0).Instant() == Truncate(t)
  {
    TruncateFields(t);
  }

  /** A literal whose parts are these fields and this offset. */
  lemma LocalClock(s: string, f: Fields, ahead: int, t: int)
    requires DateShape(s) && ClockShape(s) && ParseDate(s) == Some(f.day) && f.hour < 24 && f.minute < 60 && f.second < 60
    requires Decimal2(s, 11) == f.hour && Decimal2(s, 14) == f.minute && Decimal2(s, 17) == f.second
    requires FractionLength(s, 19) == 0 && ZoneLength(s, 19) > 0 && 19 + ZoneLength(s, 19) == |s| && ParseZone(s, 19) == Some(ahead)
    requires f.(milli := 0).Instant() == t + ahead && Representable(t)
    ensures 0 < |s| == InstantLength(s) && ParseInstant(s) == Some(t)
  {
    hide Representable, ParseDate, DateShape, ClockShape, ParseZone, ZoneLength, FractionLength;
    assert InstantLength(s) == 19 + ZoneLength(s, 19);
  }

  lemma FewYears(t: int)
    requires Representable(t)
    ensures t + EPOCH >= 0 && DateOf(Split(t).day).year <= 9999
  {
  }

  lemma AheadIsWhole(t: int, plus: bool, hours: nat, minutes: nat)
    ensures Truncate(t + Ahead(plus, hours, minutes)) == Truncate(t) + Ahead(plus, hours, minutes)
  {
    var seconds := (hours * 60 + minutes) * 60;
    WholeSecondsStay(t, if plus then seconds else -seconds);
  }

  lemma WholeSecondsStay(t: int, seconds: int)
    ensures Truncate(t + seconds * SECOND) == Truncate(t) + seconds * SECOND
  {
  }

  lemma ZoneParses(s: string, plus: bool, hours: nat, minutes: nat, colon: bool)
    requires hours < 24 && minutes < 60 && |s| >= 19 && s[19..] == ZoneText(plus, hours, minutes, colon)
    ensures FractionLength(s, 19) == 0 && 19 + ZoneLength(s, 19) == |s| && ZoneLength(s, 19) > 0
    ensures ParseZone(s, 19) == Some(Ahead(plus, hours, minutes))
  {
    var zone := s[19..];
    assert forall i :: 0 <= i < |zone| ==> s[19 + i] == zone[i];
    TwoDigits(s, 20, hours);
    TwoDigits(s, |s| - 2, minutes);
  }

  /** Tenths and hundredths of a second read the same as the milliseconds they stand for. */
  lemma ShortFractions(s: string, tenths: nat, hundredths: nat)
    requires |s| == 22 && tenths < 10 && hundredths < 10
    requires s[19] == '.' && s[20] == Digit(tenths) && s[21] == Digit(hundredths)
    ensures ParseFraction(s, 19, 2) == tenths * 100
    ensures ParseFraction(s, 19, 3) == tenths * 100 + hundredths * 10
  {
  }

  /** No literal is taken for an instant unless its date exists and its clock and offset are in range. */
  lemma ParsedIsInRange(s: string)
    requires |s| > 0 && InstantLength(s) == |s| && ParseInstant(s).Some?
    ensures ValidDate(DateIn(s)) && Decimal2(s, 11) < 24 && Decimal2(s, 14) < 60 && Decimal2(s, 17) < 60
    ensures Representable(ParseInstant(s).value)
  {
  }
}
