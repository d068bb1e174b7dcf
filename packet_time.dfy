/**
 * The text of one packet's timestamp cell: the clock label
 * `hh:mm:ss.ffffff`, the tooltip's date `dd/mm/yyyy` and its duration in
 * milliseconds. Timestamps are integers in microseconds since the epoch.
 * The calendar fields (day, month index, year, hours, minutes, seconds) come
 * from the JavaScript `Date` of the local time zone and are taken as inputs.
 */
module PacketTime {
  import opened Decimal

  /** The milliseconds handed to `Date`: the floor of `startTime / 1000`. */
  function EpochMillis(startTime: int): (ms: int)
    ensures ms * 1000 <= startTime < ms * 1000 + 1000
  {
    startTime / 1000
  }

  /** The duration in milliseconds: floor of the microsecond difference over 1000. */
  function DurationMillis(startTime: int, endTime: int): (ms: int)
    ensures ms * 1000 <= endTime - startTime < ms * 1000 + 1000
  {
    (endTime - startTime) / 1000
  }

  /** The duration is cut down to whole milliseconds, never rounded up. */
  lemma DurationNeverRoundsUp()
    ensures DurationMillis(1000, 2999) == 1
    ensures DurationMillis(0, 999) == 0
  {
  }

  /** For a packet that does not end before it starts the duration is a whole, non-negative count. */
  lemma DurationOfOrderedTimes(startTime: int, endTime: int)
    requires startTime <= endTime
    ensures 0 <= DurationMillis(startTime, endTime) <= endTime - startTime
  {
  }

  /**
   * `startTime % 1000000` in JavaScript: the microseconds past the second,
   * with the sign of `startTime` (JavaScript's remainder truncates).
   */
  function MicrosRemainder(startTime: int): (r: int)
    ensures startTime >= 0 ==> 0 <= r < 1000000
    ensures startTime < 0 ==> -1000000 < r <= 0
    ensures (startTime - r) % 1000000 == 0
  {
    if startTime >= 0 then startTime % 1000000 else -((-startTime) % 1000000)
  }

  /** JavaScript's `toString()` of an integer. */
  function IntToString(n: int): (s: string)
    ensures n >= 0 ==> s == FromNat(n)
    ensures n < 0 ==> s == "-" + FromNat(-n)
  {
    if n < 0 then "-" + FromNat(-n) else FromNat(n)
  }

  function MaxLen(a: nat, b: nat): nat {
    if a >= b then a else b
  }

  /** `s.padStart(width, fill)`: fill is put in front until the width is reached. */
  function PadStart(s: string, width: nat, fill: char): (r: string)
    ensures |r| == MaxLen(|s|, width)
    ensures r[|r| - |s|..] == s
    ensures forall i :: 0 <= i < |r| - |s| ==> r[i] == fill
  {
    if |s| >= width then s else Repeat(fill, width - |s|) + s
  }

  /** `s.padEnd(width, fill)`: fill is put behind until the width is reached. */
  function PadEnd(s: string, width: nat, fill: char): (r: string)
    ensures |r| == MaxLen(|s|, width)
    ensures r[..|s|] == s
    ensures forall i :: |s| <= i < |r| ==> r[i] == fill
  {
    if |s| >= width then s else s + Repeat(fill, width - |s|)
  }

  /** A two-digit calendar field: `v.toString().padStart(2, '0')`. */
  function Field2(v: nat): (r: string)
    ensures v >= 10 ==> r == FromNat(v)
    ensures v < 10 ==> r == "0" + FromNat(v)
    ensures IsDigits(r) && Value(r) == v
  {
    FromNatLength(v, 1);
    LeadingZerosKeepValue(1, FromNat(v));
    assert Repeat('0', 1) == "0";
    PadStart(FromNat(v), 2, '0')
  }

  /** A calendar field below 100 is exactly two digits. */
  lemma Field2Width(v: nat)
    requires v < 100
    ensures |Field2(v)| == 2
  {
    FromNatLength(v, 2);
  }

  /** As written: the microsecond remainder, padded at the END to six characters. */
  function SubSecondField(startTime: int): (r: string)
    ensures |r| == MaxLen(|IntToString(MicrosRemainder(startTime))|, 6)
    ensures r[..|IntToString(MicrosRemainder(startTime))|] == IntToString(MicrosRemainder(startTime))
    ensures forall i :: |IntToString(MicrosRemainder(startTime))| <= i < |r| ==> r[i] == '0'
  {
    PadEnd(IntToString(MicrosRemainder(startTime)), 6, '0')
  }

  /**
   * Padding at the end multiplies the remainder: 42 microseconds past the
   * second reads as ".420000", i.e. 420000 microseconds.
   */
  lemma SubSecondFieldMisplacesDigits()
    ensures SubSecondField(1000042) == "420000"
    ensures Value(SubSecondField(1000042)) != 1000042 % 1000000
  {
    assert FromNat(4) == "4";
    assert FromNat(42) == FromNat(4) + [DigitChar(2)];
    assert IntToString(MicrosRemainder(1000042)) == "42";
    assert Repeat('0', 4) == "0000";
    var r := SubSecondField(1000042);
    assert r == "420000";
    assert r[..5] == "42000" && r[..4] == "4200" && r[..3] == "420" && r[..2] == "42" && r[..1] == "4";
  }

  /** Corrected: the remainder padded at the FRONT, a six-digit microsecond fraction. */
  function SubSecondFieldPadded(startTime: int): (r: string)
    requires startTime >= 0
    ensures |r| == 6 && IsDigits(r)
    ensures Value(r) == startTime % 1000000
  {
    var micros := startTime % 1000000;
    FromNatLength(micros, 6);
    assert Pow10(6) == 1000000;
    var digits := FromNat(micros);
    LeadingZerosKeepValue(6 - |digits|, digits);
    PadStart(IntToString(MicrosRemainder(startTime)), 6, '0')
  }

  /** `${hours}:${minutes}:${seconds}.${fraction}`, from already formatted fields. */
  function ClockText(hh: string, mm: string, ss: string, fraction: string): string {
    hh + ":" + mm + ":" + ss + "." + fraction
  }

  /** The layout of `hh:mm:ss.ffffff`: with two-character fields, each sits at a fixed place. */
  lemma ClockTextLayout(hh: string, mm: string, ss: string, fraction: string)
    requires |hh| == 2 && |mm| == 2 && |ss| == 2
    ensures var t := ClockText(hh, mm, ss, fraction);
      && |t| == 9 + |fraction|
      && t[..2] == hh && t[2] == ':' && t[3..5] == mm && t[5] == ':'
      && t[6..8] == ss && t[8] == '.' && t[9..] == fraction
  {
  }

  /** The clock label as written, with the end-padded fraction. */
  function TimeLabelAsWritten(hours: nat, minutes: nat, seconds: nat, startTime: int): string {
    ClockText(Field2(hours), Field2(minutes), Field2(seconds), SubSecondField(startTime))
  }

  /** As written, the clock label's fraction is the end-padded remainder, behind `hh:mm:ss.`. */
  lemma TimeLabelAsWrittenLayout(hours: nat, minutes: nat, seconds: nat, startTime: int)
    requires hours < 24 && minutes < 60 && seconds < 60
    ensures var t := TimeLabelAsWritten(hours, minutes, seconds, startTime);
      && |t| == 9 + |SubSecondField(startTime)| && t[..2] == Field2(hours) && t[3..5] == Field2(minutes)
      && t[6..8] == Field2(seconds) && t[9..] == SubSecondField(startTime)
  {
    Field2Width(hours);
    Field2Width(minutes);
    Field2Width(seconds);
    ClockTextLayout(Field2(hours), Field2(minutes), Field2(seconds), SubSecondField(startTime));
  }

  /** The clock label with the corrected fraction. */
  function TimeLabel(hours: nat, minutes: nat, seconds: nat, startTime: int): string
    requires startTime >= 0
  {
    ClockText(Field2(hours), Field2(minutes), Field2(seconds), SubSecondFieldPadded(startTime))
  }

  /** With the corrected fraction the clock label is 15 characters and its fraction denotes the microseconds. */
  lemma TimeLabelLayout(hours: nat, minutes: nat, seconds: nat, startTime: int)
    requires hours < 24 && minutes < 60 && seconds < 60 && startTime >= 0
    ensures var t := TimeLabel(hours, minutes, seconds, startTime);
      && |t| == 15 && t[..2] == Field2(hours) && t[3..5] == Field2(minutes) && t[6..8] == Field2(seconds)
      && IsDigits(t[9..]) && Value(t[9..]) == startTime % 1000000
  {
    Field2Width(hours);
    Field2Width(minutes);
    Field2Width(seconds);
    ClockTextLayout(Field2(hours), Field2(minutes), Field2(seconds), SubSecondFieldPadded(startTime));
  }

  /** `${day}/${month}/${year}`, from already formatted fields. */
  function DateText(dd: string, mo: string, year: string): string {
    dd + "/" + mo + "/" + year
  }

  /** As written: the date with the 0-based month index of `getMonth()`. */
  function DateLabelAsWritten(day: nat, monthIndex: nat, year: nat): string {
    DateText(Field2(day), Field2(monthIndex), FromNat(year))
  }

  /** January is shown as month "00". */
  lemma DateLabelShowsJanuaryAsZero()
    ensures DateLabelAsWritten(15, 0, 2021) == "15/00/2021"
  {
    SmallFields();
    assert FromNat(2021) == "2021" by {
      assert FromNat(202) == FromNat(20) + [DigitChar(2)];
      assert FromNat(2021) == FromNat(202) + [DigitChar(1)];
    }
  }

  lemma SmallFields()
    ensures Field2(15) == "15" && Field2(0) == "00" && FromNat(20) == "20"
  {
    assert FromNat(15) == "15" by {
      assert FromNat(1) == "1";
      assert FromNat(15) == FromNat(1) + [DigitChar(5)];
    }
    assert FromNat(0) == "0";
    assert FromNat(20) == "20" by {
      assert FromNat(2) == "2";
      assert FromNat(20) == FromNat(2) + [DigitChar(0)];
    }
  }

  /** Corrected: the calendar month, one more than the index `getMonth()` returns. */
  function DateLabel(day: nat, monthIndex: nat, year: nat): string {
    DateText(Field2(day), Field2(monthIndex + 1), FromNat(year))
  }

  /** In the corrected date label the month field denotes a calendar month 1 to 12. */
  lemma DateLabelMonthIsCalendarMonth(day: nat, monthIndex: nat, year: nat)
    requires day < 100 && monthIndex < 12
    ensures var t := DateLabel(day, monthIndex, year);
      && t[..2] == Field2(day) && t[2] == '/' && t[3..5] == Field2(monthIndex + 1) && t[5] == '/'
      && 1 <= Value(t[3..5]) <= 12
  {
    Field2Width(day);
    Field2Width(monthIndex + 1);
    DateTextLayout(Field2(day), Field2(monthIndex + 1), FromNat(year));
  }

  lemma DateTextLayout(dd: string, mo: string, year: string)
    requires |dd| == 2 && |mo| == 2
    ensures var t := DateText(dd, mo, year);
      t[..2] == dd && t[2] == '/' && t[3..5] == mo && t[5] == '/' && t[6..] == year
  {
  }
}
