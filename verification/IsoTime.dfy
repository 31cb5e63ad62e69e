/** The ISO 8601 text of an instant. The calendar is defined by counting days, year by
    year and month by month under the Gregorian rule, and shown to be one to one. The
    text is built from its fields as the formatter builds it, and read by a parser that
    takes the text apart as the program's regular expression does and then checks each
    field's range; reading a text gives the millisecond it was made from. */
module IsoTime {
  import opened Options

  // ---- the Gregorian calendar ----

  predicate IsLeap(y: nat) {
    y % 4 == 0 && (y % 100 != 0 || y % 400 == 0)
  }

  function DaysInYear(y: nat): nat {
    if IsLeap(y) then 366 else 365
  }

  function DaysInMonth(y: nat, m: nat): nat {
    if m == 2 then (if IsLeap(y) then 29 else 28)
    else if m == 4 || m == 6 || m == 9 || m == 11 then 30
    else 31
  }

  /** Days from the start of 1970 to the start of a year. */
  function YearStart(y: nat): nat {
    if y <= 1970 then 0 else YearStart(y - 1) + DaysInYear(y - 1)
  }

  function MonthStart(y: nat, m: nat): nat {
    if m <= 1 then 0 else MonthStart(y, m - 1) + DaysInMonth(y, m - 1)
  }

  datatype Civil = Civil(year: nat, month: nat, day: nat, hour: nat, minute: nat, second: nat)

  /** The year that a day of 1970 or later is in, given days from the start of `y`. */
  function YearOf(days: nat, y: nat): nat
    decreases days
  {
    if days < DaysInYear(y) then y else YearOf(days - DaysInYear(y), y + 1)
  }

  function MonthOf(days: nat, y: nat, m: nat): nat
    decreases 12 - m
  {
    if m >= 12 || days < DaysInMonth(y, m) then m else MonthOf(days - DaysInMonth(y, m), y, m + 1)
  }

  /** What `gmtime` makes of seconds since 1970. */
  function ToCivil(seconds: nat): Civil {
    var days, rest := seconds / 86400, seconds % 86400;
    var y := YearOf(days, 1970);
    YearFound(days, 1970);
    var inYear := days - YearStart(y);
    var m := MonthOf(inYear, y, 1);
    MonthFound(inYear, y, 1);
    Civil(y, m, inYear - MonthStart(y, m) + 1, rest / 3600, rest / 60 % 60, rest % 60)
  }

  /** What `timegm` makes of a date and a time of day. */
  function FromCivil(c: Civil): nat
    requires c.day > 0
  {
    (YearStart(c.year) + MonthStart(c.year, c.month) + c.day - 1) * 86400 + c.hour * 3600 + c.minute * 60 + c.second
  }

  lemma {:induction false} YearFound(days: nat, y: nat)
    requires y >= 1970
    ensures var r := YearOf(days, y);
            y <= r && YearStart(r) <= YearStart(y) + days < YearStart(r) + DaysInYear(r)
    decreases days
  {
    if days >= DaysInYear(y) { YearFound(days - DaysInYear(y), y + 1); }
  }

  lemma {:induction false} MonthFound(days: nat, y: nat, m: nat)
    requires 1 <= m <= 12 && MonthStart(y, m) + days < DaysInYear(y)
    ensures var r := MonthOf(days, y, m);
            m <= r <= 12 && MonthStart(y, r) <= MonthStart(y, m) + days < MonthStart(y, r) + DaysInMonth(y, r)
    decreases 12 - m
  {
    YearIsItsMonths(y);
    if m < 12 && days >= DaysInMonth(y, m) { MonthFound(days - DaysInMonth(y, m), y, m + 1); }
  }

  lemma YearIsItsMonths(y: nat)
    ensures MonthStart(y, 12) + DaysInMonth(y, 12) == DaysInYear(y)
  {
    assert MonthStart(y, 3) == 31 + DaysInMonth(y, 2) by { assert MonthStart(y, 2) == 31; }
    assert MonthStart(y, 5) == MonthStart(y, 3) + 61 by { assert MonthStart(y, 4) == MonthStart(y, 3) + 31; }
    assert MonthStart(y, 7) == MonthStart(y, 5) + 61 by { assert MonthStart(y, 6) == MonthStart(y, 5) + 31; }
    assert MonthStart(y, 9) == MonthStart(y, 7) + 62 by { assert MonthStart(y, 8) == MonthStart(y, 7) + 31; }
    assert MonthStart(y, 11) == MonthStart(y, 9) + 61 by { assert MonthStart(y, 10) == MonthStart(y, 9) + 30; }
  }

  predicate IsDate(c: Civil) {
    && 1970 <= c.year && 1 <= c.month <= 12 && 1 <= c.day <= DaysInMonth(c.year, c.month)
    && c.hour < 24 && c.minute < 60 && c.second < 60
  }

  lemma TimeOfDay(rest: nat)
    requires rest < 86400
    ensures rest / 3600 < 24 && rest / 3600 * 3600 + rest / 60 % 60 * 60 + rest % 60 == rest
  {
    assert rest == 60 * (rest / 60) + rest % 60;
    assert rest / 60 / 60 == rest / 3600;
  }

  /** The calendar is one to one: the date of an instant gives the instant back. */
  lemma CivilRoundTrip(seconds: nat)
    ensures IsDate(ToCivil(seconds)) && FromCivil(ToCivil(seconds)) == seconds
  {
    var days, rest := seconds / 86400, seconds % 86400;
    YearFound(days, 1970);
    var y := YearOf(days, 1970);
    MonthFound(days - YearStart(y), y, 1);
    TimeOfDay(rest);
  }

  /** The number of leap days before a year, by the rules of the calendar. */
  function LeapDays(y: nat): int
    requires y > 0
  {
    (y - 1) / 4 - (y - 1) / 100 + (y - 1) / 400
  }

  lemma Fourth(n: nat)
    requires n > 0
    ensures n / 4 - (n - 1) / 4 == if n % 4 == 0 then 1 else 0
  {
  }

  lemma Hundredth(n: nat)
    requires n > 0
    ensures n / 100 - (n - 1) / 100 == if n % 100 == 0 then 1 else 0
  {
    var q, r := n / 100, n % 100;
    assert n == 100 * q + r;
    if r == 0 { assert n - 1 == 100 * (q - 1) + 99; } else { assert n - 1 == 100 * q + (r - 1); }
  }

  lemma FourHundredth(n: nat)
    requires n > 0
    ensures n / 400 - (n - 1) / 400 == if n % 400 == 0 then 1 else 0
  {
    var q, r := n / 400, n % 400;
    assert n == 400 * q + r;
    if r == 0 { assert n - 1 == 400 * (q - 1) + 399; } else { assert n - 1 == 400 * q + (r - 1); }
  }

  lemma CenturiesAreFourths(n: nat)
    ensures n % 100 == 0 ==> n % 4 == 0
    ensures n % 400 == 0 ==> n % 100 == 0
  {
    if n % 100 == 0 { assert n == 4 * (25 * (n / 100)); }
    if n % 400 == 0 { assert n == 100 * (4 * (n / 400)); }
  }

  lemma LeapDayCounts(y: nat)
    requires y > 0
    ensures LeapDays(y + 1) - LeapDays(y) == if IsLeap(y) then 1 else 0
  {
    Fourth(y);
    Hundredth(y);
    FourHundredth(y);
    CenturiesAreFourths(y);
  }

  /** Years have the length that counting leap days gives. */
  lemma {:induction false} YearStartIs(y: nat)
    requires y >= 1970
    ensures YearStart(y) == 365 * (y - 1970) + LeapDays(y) - LeapDays(1970)
  {
    if y > 1970 {
      YearStartIs(y - 1);
      LeapDayCounts(y - 1);
    }
  }

  // ---- text ----

  function Digit(n: nat): char
    requires n < 10
  {
    '0' + n as char
  }

  function Two(n: nat): string
    requires n < 100
  {
    [Digit(n / 10), Digit(n % 10)]
  }

  function Three(n: nat): string
    requires n < 1000
  {
    [Digit(n / 100), Digit(n / 10 % 10), Digit(n % 10)]
  }

  /** The first character of a year: a digit up to 9999, and after that whatever the
      addition to an eight-bit character gives, beginning with a colon. */
  function Thousands(n: nat): char {
    ((48 + n / 1000) % 256) as char
  }

  function Four(n: nat): (s: string)
    ensures |s| == 4
  {
    [Thousands(n), Digit(n / 100 % 10), Digit(n / 10 % 10), Digit(n % 10)]
  }

  /** Four digits are enough for the year. */
  predicate Printable(seconds: nat) {
    ToCivil(seconds).year <= 9999
  }

  /** `YYYY-MM-DDThh:mm:ss`. */
  function Stamp(c: Civil): (s: string)
    requires IsDate(c)
    ensures |s| == 19
  {
    Four(c.year) + "-" + Two(c.month) + "-" + Two(c.day) + "T" + Two(c.hour) + ":" + Two(c.minute) + ":" + Two(c.second)
  }

  /** An instant in milliseconds, formatted from scratch. */
  function Format(ms: nat): (s: string)
    ensures |s| == 23
  {
    CivilRoundTrip(ms / 1000);
    Stamp(ToCivil(ms / 1000)) + "." + Three(ms % 1000)
  }

  // ---- reading ----

  predicate AreDigits(s: string, from: nat, to: nat)
    requires from <= to <= |s|
  {
    forall i :: from <= i < to ==> '0' <= s[i] <= '9'
  }

  function Number(s: string, from: nat, to: nat): nat
    requires from <= to <= |s| && AreDigits(s, from, to)
  {
    if from == to then 0 else 10 * Number(s, from, to - 1) + (s[to - 1] - '0') as nat
  }

  /** Nineteen characters with digits and separators in their places. */
  predicate HasStamp(s: string) {
    && |s| >= 19
    && AreDigits(s, 0, 4) && s[4] == '-' && AreDigits(s, 5, 7) && s[7] == '-' && AreDigits(s, 8, 10) && s[10] == 'T'
    && AreDigits(s, 11, 13) && s[13] == ':' && AreDigits(s, 14, 16) && s[16] == ':' && AreDigits(s, 17, 19)
  }

  /** The digits after the seconds, without a final `Z`: none, or a point and one to
      three of them. */
  function FractionOf(s: string): Option<nat>
    requires |s| >= 19
  {
    var n := if |s| > 19 && s[|s| - 1] == 'Z' then |s| - 1 else |s|;
    if n == 19 then Some(0)
    else if s[19] != '.' || n < 21 || n > 23 || !AreDigits(s, 20, n) then None
    else if n == 21 then Some(Number(s, 20, 21) * 100)
    else if n == 22 then Some(Number(s, 20, 22) * 10)
    else Some(Number(s, 20, 23))
  }

  /** A date and a time, with milliseconds; none if the text is no such thing. */
  function Parse(s: string): Option<(Civil, nat)> {
    if !HasStamp(s) || FractionOf(s).None? then None
    else
      var c := Civil(Number(s, 0, 4), Number(s, 5, 7), Number(s, 8, 10), Number(s, 11, 13), Number(s, 14, 16), Number(s, 17, 19));
      if 1 <= c.month <= 12 && 1 <= c.day <= 31 && c.hour <= 23 && c.minute <= 59 && c.second <= 60 then
        Some((c, FractionOf(s).value))
      else None
  }

  /** The instant a text stands for, for years from 1970 on. */
  function FromIso(s: string): Option<nat> {
    var p := Parse(s);
    if p.None? || p.value.0.year < 1970 then None else Some(FromCivil(p.value.0) * 1000 + p.value.1)
  }

  lemma ReadTwo(s: string, at: nat, n: nat)
    requires at + 2 <= |s| && n < 100 && s[at] == Digit(n / 10) && s[at + 1] == Digit(n % 10)
    ensures AreDigits(s, at, at + 2) && Number(s, at, at + 2) == n
  {
    assert Number(s, at, at) == 0;
    assert Number(s, at, at + 1) == n / 10;
  }

  lemma ReadThree(s: string, at: nat, n: nat)
    requires at + 3 <= |s| && n < 1000
    requires s[at] == Digit(n / 100) && s[at + 1] == Digit(n / 10 % 10) && s[at + 2] == Digit(n % 10)
    ensures AreDigits(s, at, at + 3) && Number(s, at, at + 3) == n
  {
    assert n / 10 == 10 * (n / 100) + n / 10 % 10;
    ReadTwo(s, at, n / 10);
  }

  lemma ReadFour(s: string, at: nat, n: nat)
    requires at + 4 <= |s| && n < 10000
    requires s[at] == Digit(n / 1000) && s[at + 1] == Digit(n / 100 % 10) && s[at + 2] == Digit(n / 10 % 10)
    requires s[at + 3] == Digit(n % 10)
    ensures AreDigits(s, at, at + 4) && Number(s, at, at + 4) == n
  {
    assert n / 10 / 100 == n / 1000 && n / 10 / 10 % 10 == n / 100 % 10;
    ReadThree(s, at, n / 10);
  }

  lemma StampReads(c: Civil, tail: string)
    requires IsDate(c) && c.year <= 9999
    ensures var s := Stamp(c) + tail;
            && HasStamp(s) && Number(s, 0, 4) == c.year && Number(s, 5, 7) == c.month && Number(s, 8, 10) == c.day
            && Number(s, 11, 13) == c.hour && Number(s, 14, 16) == c.minute && Number(s, 17, 19) == c.second
  {
    var s := Stamp(c) + tail;
    assert Thousands(c.year) == Digit(c.year / 1000);
    ReadFour(s, 0, c.year);
    ReadTwo(s, 5, c.month);
    ReadTwo(s, 8, c.day);
    ReadTwo(s, 11, c.hour);
    ReadTwo(s, 14, c.minute);
    ReadTwo(s, 17, c.second);
  }

  /** Up to the year 9999 reading the text of an instant gives the same millisecond. */
  lemma IsoRoundTrip(ms: nat)
    requires Printable(ms / 1000)
    ensures FromIso(Format(ms)) == Some(ms)
  {
    var seconds, millis := ms / 1000, ms % 1000;
    CivilRoundTrip(seconds);
    FormatIs(ms);
    StampIsRead(ToCivil(seconds), millis);
    assert ms == seconds * 1000 + millis;
  }

  lemma FormatIs(ms: nat)
    ensures IsDate(ToCivil(ms / 1000)) && Format(ms) == Stamp(ToCivil(ms / 1000)) + ("." + Three(ms % 1000))
  {
    CivilRoundTrip(ms / 1000);
  }

  lemma StampIsRead(c: Civil, millis: nat)
    requires IsDate(c) && c.year <= 9999 && millis < 1000
    ensures FromIso(Stamp(c) + ("." + Three(millis))) == Some(FromCivil(c) * 1000 + millis)
  {
    ParseReads(c, millis);
  }

  lemma ParseReads(c: Civil, millis: nat)
    requires IsDate(c) && c.year <= 9999 && millis < 1000
    ensures Parse(Stamp(c) + ("." + Three(millis))) == Some((c, millis))
  {
    var tail := "." + Three(millis);
    StampReads(c, tail);
    FractionReads(Stamp(c), millis);
  }

  lemma FractionReads(stamp: string, millis: nat)
    requires |stamp| == 19 && millis < 1000
    ensures FractionOf(stamp + ("." + Three(millis))) == Some(millis)
  {
    var s := stamp + ("." + Three(millis));
    assert s[20] == Three(millis)[0] && s[21] == Three(millis)[1] && s[22] == Three(millis)[2];
    ReadThree(s, 20, millis);
    assert s[19] == '.' && s[22] != 'Z';
  }

  /** Where the year 10000 begins, in seconds. */
  lemma PrintableIff(seconds: nat)
    ensures Printable(seconds) <==> seconds < 253402300800
  {
    var days := seconds / 86400;
    YearFound(days, 1970);
    var y := YearOf(days, 1970);
    YearStartIs(10000);
    assert YearStart(10000) == 2932897;
    if y >= 10000 { YearsIncrease(10000, y); } else { YearsIncrease(y + 1, 10000); }
  }

  /** No date that is read reaches the year 10000. */
  lemma ReadIsEarlier(c: Civil)
    requires 1970 <= c.year <= 9999 && 1 <= c.month <= 12 && 1 <= c.day <= 31
    requires c.hour <= 23 && c.minute <= 59 && c.second <= 59
    ensures FromCivil(c) < 253402300800
  {
    MonthsIncrease(c.year, c.month);
    YearIsItsMonths(c.year);
    YearsIncrease(c.year + 1, 10000);
    YearStartIs(10000);
    assert YearStart(c.year + 1) == YearStart(c.year) + DaysInYear(c.year);
    assert MonthStart(c.year, c.month) + c.day <= DaysInYear(c.year);
    assert YearStart(c.year) + MonthStart(c.year, c.month) + c.day <= 2932897;
  }

  lemma {:induction false} MonthsIncrease(y: nat, m: nat)
    requires 1 <= m <= 12
    ensures MonthStart(y, m) <= MonthStart(y, 12)
    decreases 12 - m
  {
    if m < 12 { MonthsIncrease(y, m + 1); }
  }

  /** The seconds of a text are read as they were written, whatever the year. */
  lemma SecondsRead(c: Civil, tail: string)
    requires IsDate(c)
    ensures var s := Stamp(c) + tail; AreDigits(s, 17, 19) && Number(s, 17, 19) == c.second
  {
    ReadTwo(Stamp(c) + tail, 17, c.second);
  }

  lemma {:induction false} FourDigits(s: string)
    requires |s| >= 4 && AreDigits(s, 0, 4)
    ensures Number(s, 0, 4) <= 9999
  {
    assert Number(s, 0, 1) <= 9 by { assert Number(s, 0, 0) == 0; }
    assert Number(s, 0, 2) <= 99;
    assert Number(s, 0, 3) <= 999;
  }

  /** Exactly the instants before the year 10000 come back from their texts. */
  lemma IsoRoundTripIff(ms: nat)
    ensures FromIso(Format(ms)) == Some(ms) <==> ms / 1000 < 253402300800
  {
    PrintableIff(ms / 1000);
    if Printable(ms / 1000) {
      IsoRoundTrip(ms);
    } else {
      CivilRoundTrip(ms / 1000);
      FormatIs(ms);
      var text, c := Format(ms), ToCivil(ms / 1000);
      SecondsRead(c, "." + Three(ms % 1000));
      FractionReads(Stamp(c), ms % 1000);
      if FromIso(text).Some? {
        var read := Parse(text).value.0;
        FourDigits(text);
        ReadIsEarlier(read);
      }
    }
  }

  lemma {:induction false} YearsIncrease(y: nat, z: nat)
    requires 1970 <= y <= z
    ensures YearStart(y) <= YearStart(z)
    decreases z - y
  {
    if y < z { YearsIncrease(y, z - 1); }
  }
}
