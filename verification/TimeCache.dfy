/** The cache of the last formatted instant. The formatter keeps the text it returned
    last, and the fields it was made of, and patches only the digits that have changed
    since. `Valid` ties the kept text to the kept fields, so that every method can be
    proved to leave the text of the instant it was asked for, whatever it was asked for
    before. The seconds are always written; the other fields only if they differ from
    those kept; when the day is another one the date is computed anew, and the first
    call writes everything. */
module TimeCache {
  import opened IsoTime

  /** -1 is no value yet. */
  class Cache {
    const withMillis: bool
    var str: string
    var msEpoch: int
    var seconds: int
    var minute: int
    var hour: int
    var day: int
    var month: int
    var year: int

    /** A cached field is what stands in the text. */
    ghost predicate Shows(at: nat, value: int)
      reads this
    {
      value != -1 ==> 0 <= value < 100 && at + 2 <= |str| && str[at..at + 2] == Two(value)
    }

    ghost predicate Valid()
      reads this
    {
      && |str| == (if withMillis then 23 else 19)
      && str[4] == '-' && str[7] == '-' && str[10] == 'T' && str[13] == ':' && str[16] == ':'
      && (withMillis ==> str[19] == '.')
      && (year != -1 ==> 0 <= year && str[..4] == Four(year))
      && Shows(5, month) && Shows(8, day) && Shows(11, hour) && Shows(14, minute)
      && (seconds != -1 ==>
            0 <= seconds && IsDate(ToCivil(seconds)) && str[..19] == Stamp(ToCivil(seconds)))
      && (msEpoch != -1 ==> 0 <= msEpoch && withMillis && str[20..] == Three(msEpoch % 1000))
    }

    constructor (withMillis: bool)
      ensures Valid() && this.withMillis == withMillis
    {
      this.withMillis := withMillis;
      str := if withMillis then "0000-00-00T00:00:00.000" else "0000-00-00T00:00:00";
      msEpoch, seconds, minute, hour, day, month, year := -1, -1, -1, -1, -1, -1, -1;
    }

    /** Patches two digits, if the value has changed. */
    method UpdateTimePart(at: nat, value: nat, cached: int) returns (now: int)
      requires at + 2 <= |str| && value < 100 && Shows(at, cached)
      modifies this`str
      ensures now == value && |str| == |old(str)| && str[at..at + 2] == Two(value)
      ensures forall i :: 0 <= i < |str| && !(at <= i < at + 2) ==> str[i] == old(str)[i]
    {
      if value != cached { str := str[at := Digit(value / 10)][at + 1 := Digit(value % 10)]; }
      now := value;
    }

    /** The text up to the seconds, patched where it differs from the last one. */
    method FormatSeconds(secs: nat)
      requires Valid()
      modifies this`str, this`seconds, this`minute, this`hour, this`day, this`month, this`year
      ensures Valid() && seconds == secs
      ensures IsDate(ToCivil(secs)) && str[..19] == Stamp(ToCivil(secs)) && str[19..] == old(str[19..])
    {
      CivilRoundTrip(secs);
      if secs == seconds { return; }
      seconds := -1;
      UpdateAll(ToCivil(secs));
      seconds := secs;
    }

    method UpdateAll(c: Civil)
      requires Valid() && IsDate(c) && seconds == -1
      modifies this`str, this`minute, this`hour, this`day, this`month, this`year
      ensures Valid() && str[..19] == Stamp(c) && str[19..] == old(str[19..])
    {
      UpdateYear(c.year);
      UpdateDay(c);
      UpdateClock(c);
      StampIs(str, c);
    }

    method UpdateDay(c: Civil)
      requires Valid() && IsDate(c) && seconds == -1
      modifies this`str, this`month, this`day
      ensures Valid() && month == c.month && day == c.day && str[10..] == old(str[10..])
    {
      DayInRange(c);
      month := UpdateTimePart(5, c.month, month);
      day := UpdateTimePart(8, c.day, day);
    }

    /** The seconds are always written. */
    method UpdateClock(c: Civil)
      requires Valid() && IsDate(c) && seconds == -1
      modifies this`str, this`hour, this`minute
      ensures Valid() && hour == c.hour && minute == c.minute && str[17..19] == Two(c.second)
      ensures str[..10] == old(str[..10]) && str[19..] == old(str[19..])
    {
      hour := UpdateTimePart(11, c.hour, hour);
      minute := UpdateTimePart(14, c.minute, minute);
      str := str[17 := Digit(c.second / 10)][18 := Digit(c.second % 10)];
    }

    method UpdateYear(y: nat)
      requires Valid() && seconds == -1
      modifies this`str, this`year
      ensures Valid() && year == y
      ensures forall i :: 4 <= i < |str| ==> str[i] == old(str)[i]
    {
      if y != year {
        str := str[0 := Thousands(y)][1 := Digit(y / 100 % 10)][2 := Digit(y / 10 % 10)][3 := Digit(y % 10)];
        year := y;
      }
    }

    /** Whatever earlier calls have left, the text is that of formatting from scratch. */
    method ToString(ms: nat) returns (text: string)
      requires Valid() && withMillis
      modifies this
      ensures Valid() && text == Format(ms)
    {
      FormatSeconds(ms / 1000);
      UpdateMillis(ms);
      assert str == str[..19] + [str[19]] + str[20..];
      text := str;
    }

    method UpdateMillis(ms: nat)
      requires Valid() && withMillis
      modifies this`str, this`msEpoch
      ensures Valid() && msEpoch == ms && str[..19] == old(str[..19]) && str[20..] == Three(ms % 1000)
    {
      if msEpoch != ms {
        var millis := ms % 1000;
        str := str[20 := Digit(millis / 100)][21 := Digit(millis / 10 % 10)][22 := Digit(millis % 10)];
        msEpoch := ms;
      }
    }

    /** The same to the second. */
    method ToSecondString(secs: nat) returns (text: string)
      requires Valid() && !withMillis
      modifies this
      ensures Valid() && IsDate(ToCivil(secs)) && text == Stamp(ToCivil(secs))
    {
      FormatSeconds(secs);
      assert str == str[..19];
      text := str;
    }
  }

  lemma DayInRange(c: Civil)
    requires IsDate(c)
    ensures c.day < 100
  {
  }

  lemma StampIs(s: string, c: Civil)
    requires IsDate(c) && |s| >= 19
    requires s[..4] == Four(c.year) && s[4] == '-' && s[5..7] == Two(c.month) && s[7] == '-' && s[8..10] == Two(c.day)
    requires s[10] == 'T' && s[11..13] == Two(c.hour) && s[13] == ':' && s[14..16] == Two(c.minute) && s[16] == ':'
    requires s[17..19] == Two(c.second)
    ensures s[..19] == Stamp(c)
  {
  }
}
