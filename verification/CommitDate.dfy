/**
  The printed form of a commit's date: seconds since the epoch and an offset in minutes,
  as text. A reader of that text shows that nothing is lost.
*/
module CommitDate {

  import opened Wrappers
  import opened Calendar

  // ----- Decimal digits -----

  predicate IsDigit(c: char) {
    '0' <= c <= '9'
  }

  predicate AllDigits(text: string) {
    forall c <- text :: IsDigit(c)
  }

  function Digit(n: int): (c: char)
    requires 0 <= n <= 9
    ensures IsDigit(c) && c as int - '0' as int == n
  {
    ('0' as int + n) as char
  }

  function Decimal(n: nat): string {
    if n < 10 then [Digit(n)] else Decimal(n / 10) + [Digit(n % 10)]
  }

  function Zeros(k: int): string {
    if k <= 0 then "" else Zeros(k - 1) + "0"
  }

  /** The source's `:02d` and `:04d`: a minimum width, never a maximum. */
  function Padded(n: nat, width: nat): string {
    Zeros(width - |Decimal(n)|) + Decimal(n)
  }

  function ReadDigits(text: string): nat
    requires AllDigits(text)
  {
    if text == "" then 0
    else
      assert IsDigit(text[|text| - 1]);
      10 * ReadDigits(text[..|text| - 1]) + (text[|text| - 1] as int - '0' as int)
  }

  lemma {:induction false} DecimalReadsBack(n: nat)
    ensures AllDigits(Decimal(n)) && ReadDigits(Decimal(n)) == n
    ensures |Decimal(n)| >= 1 && (n < 10 ==> |Decimal(n)| == 1) && (10 <= n < 100 ==> |Decimal(n)| == 2)
  {
    if n >= 10 {
      DecimalReadsBack(n / 10);
      assert Decimal(n)[..|Decimal(n)| - 1] == Decimal(n / 10);
      assert n < 100 ==> n / 10 < 10;
    }
  }

  lemma {:induction false} ZerosReadAsNothing(k: int, text: string)
    requires AllDigits(text)
    ensures AllDigits(Zeros(k) + text) && ReadDigits(Zeros(k) + text) == ReadDigits(text)
    ensures |Zeros(k)| == if k <= 0 then 0 else k
    decreases |text|, k
  {
    if text != "" {
      ZerosReadAsNothing(k, text[..|text| - 1]);
      assert (Zeros(k) + text)[..|Zeros(k) + text| - 1] == Zeros(k) + text[..|text| - 1];
    } else if k > 0 {
      ZerosReadAsNothing(k - 1, "");
      assert Zeros(k) + "" == Zeros(k) && Zeros(k - 1) + "" == Zeros(k - 1);
      assert Zeros(k)[..|Zeros(k)| - 1] == Zeros(k - 1);
    }
  }

  /** Padding never changes the number, and two digits hold every number below a hundred. */
  lemma PaddedReadsBack(n: nat, width: nat)
    requires 1 <= width
    ensures AllDigits(Padded(n, width)) && ReadDigits(Padded(n, width)) == n
    ensures |Padded(n, width)| >= width && (n < 100 && width == 2 ==> |Padded(n, width)| == 2)
  {
    hide ReadDigits, Decimal, Zeros;
    DecimalReadsBack(n);
    ZerosReadAsNothing(width - |Decimal(n)|, Decimal(n));
  }

  // ----- The source's formatting -----

  datatype LocalTime = LocalTime(date: Date, hour: int, minute: int, second: int)

  function LocalTimeOf(seconds: int, offset: int): LocalTime {
    var local := seconds + offset * 60;
    var secondsInDay := local % 86400;
    LocalTime(CivilFromDays(local / 86400), secondsInDay / 3600, secondsInDay % 3600 / 60, secondsInDay % 3600 % 60)
  }

  function Abs(n: int): nat {
    if n < 0 then -n else n
  }

  function FormatYear(year: int): string {
    if year < 0 then "-" + Padded(Abs(year), 4) else Padded(year, 4)
  }

  function FormatOffset(offset: int): string {
    (if offset < 0 then "-" else "+") + Padded(Abs(offset) / 60, 2) + Padded(Abs(offset) % 60, 2)
  }

  function FormatDay(date: Date): string
    requires IsDate(date)
  {
    FormatYear(date.year) + "-" + Padded(date.month, 2) + "-" + Padded(date.day, 2)
  }

  function FormatClock(time: LocalTime): string
    requires 0 <= time.hour && 0 <= time.minute && 0 <= time.second
  {
    Padded(time.hour, 2) + ":" + Padded(time.minute, 2) + ":" + Padded(time.second, 2)
  }

  function FormatDate(seconds: int, offsetMinutes: Option<int>): string {
    var offset := offsetMinutes.GetOr(0);
    var time := LocalTimeOf(seconds, offset);
    CivilIsADate((seconds + offset * 60) / 86400);
    FormatDay(time.date) + " " + FormatClock(time) + " " + FormatOffset(offset)
  }

  // ----- A reader of the printed form: it takes no negative zero -----

  function ReadPair(text: string): Option<nat> {
    if |text| == 2 && AllDigits(text) then Some(ReadDigits(text)) else None
  }

  function ReadYear(text: string): Option<int> {
    var digits := if text != "" && text[0] == '-' then text[1..] else text;
    if !AllDigits(digits) then None
    else
      var magnitude: int := ReadDigits(digits);
      if digits == text then Some(magnitude) else if magnitude == 0 then None else Some(-magnitude)
  }

  function ReadOffset(text: string): Option<int> {
    if |text| < 3 || !AllDigits(text[1..]) || text[0] !in "+-" then None
    else
      var digits := text[1..];
      var minutes := 60 * ReadDigits(digits[..|digits| - 2]) + ReadDigits(digits[|digits| - 2..]);
      if text[0] == '+' then Some(minutes) else if minutes == 0 then None else Some(-minutes)
  }

  function ReadDay(text: string): Option<Date> {
    var n := |text|;
    if n < 6 || text[n - 6] != '-' || text[n - 3] != '-' then None
    else
      match (ReadYear(text[..n - 6]), ReadPair(text[n - 5..n - 3]), ReadPair(text[n - 2..]))
      case (Some(year), Some(month), Some(day)) => Some(Date(year, month, day))
      case _ => None
  }

  /** Seconds into the day. */
  function ReadClock(text: string): Option<int> {
    if |text| != 8 || text[2] != ':' || text[5] != ':' then None
    else
      match (ReadPair(text[..2]), ReadPair(text[3..5]), ReadPair(text[6..]))
      case (Some(hour), Some(minute), Some(second)) => Some(hour * 3600 + minute * 60 + second)
      case _ => None
  }

  function SpaceAt(text: string): (k: nat)
    ensures k <= |text|
    ensures k < |text| ==> text[k] == ' '
  {
    if text == "" || text[0] == ' ' then 0 else 1 + SpaceAt(text[1..])
  }

  /** The seconds and the offset that a printed date stands for. */
  function ReadDate(text: string): Option<(int, int)> {
    var k := SpaceAt(text);
    if |text| < k + 10 then None
    else if text[k + 9] != ' ' then None
    else
      match (ReadDay(text[..k]), ReadClock(text[k + 1..k + 9]), ReadOffset(text[k + 10..]))
      case (Some(date), Some(clock), Some(offset)) => Some((DaysFromCivil(date) * 86400 + clock - offset * 60, offset))
      case _ => None
  }

  // ----- Each part reads back -----

  lemma YearReadsBack(year: int)
    ensures ReadYear(FormatYear(year)) == Some(year)
    ensures ' ' !in FormatYear(year)
  {
    hide ReadDigits, Padded;
    PaddedReadsBack(Abs(year), 4);
    var digits := Padded(Abs(year), 4);
    assert IsDigit(digits[0]);
    if year < 0 {
      assert FormatYear(year)[1..] == digits;
    }
  }

  lemma OffsetReadsBack(offset: int)
    ensures ReadOffset(FormatOffset(offset)) == Some(offset)
  {
    hide ReadDigits, Padded;
    var hours, minutes := Padded(Abs(offset) / 60, 2), Padded(Abs(offset) % 60, 2);
    PaddedReadsBack(Abs(offset) / 60, 2);
    PaddedReadsBack(Abs(offset) % 60, 2);
    var digits := FormatOffset(offset)[1..];
    assert digits == hours + minutes;
    assert digits[..|digits| - 2] == hours && digits[|digits| - 2..] == minutes;
  }

  lemma PairReadsBack(n: nat)
    requires n < 100
    ensures ReadPair(Padded(n, 2)) == Some(n) && |Padded(n, 2)| == 2 && ' ' !in Padded(n, 2)
  {
    hide ReadDigits, Padded;
    PaddedReadsBack(n, 2);
  }

  lemma DayReadsBack(date: Date)
    requires IsDate(date)
    ensures ReadDay(FormatDay(date)) == Some(date)
    ensures ' ' !in FormatDay(date)
  {
    hide ReadYear, ReadPair, FormatYear, Padded;
    var year, month, day := FormatYear(date.year), Padded(date.month, 2), Padded(date.day, 2);
    YearReadsBack(date.year);
    PairReadsBack(date.month);
    PairReadsBack(date.day);
    var text := FormatDay(date);
    assert text == year + "-" + month + "-" + day;
    assert text[..|text| - 6] == year && text[|text| - 5..|text| - 3] == month && text[|text| - 2..] == day;
  }

  lemma ClockReadsBack(time: LocalTime)
    requires 0 <= time.hour < 100 && 0 <= time.minute < 100 && 0 <= time.second < 100
    ensures |FormatClock(time)| == 8
    ensures ReadClock(FormatClock(time)) == Some(time.hour * 3600 + time.minute * 60 + time.second)
  {
    hide ReadPair, Padded;
    PairReadsBack(time.hour);
    PairReadsBack(time.minute);
    PairReadsBack(time.second);
    var text := FormatClock(time);
    assert text[..2] == Padded(time.hour, 2) && text[3..5] == Padded(time.minute, 2) &&
             text[6..] == Padded(time.second, 2);
  }

  lemma {:induction false} SpaceEndsWord(word: string, rest: string)
    requires ' ' !in word
    ensures SpaceAt(word + " " + rest) == |word|
  {
    if word != "" {
      assert (word + " " + rest)[1..] == word[1..] + " " + rest;
      SpaceEndsWord(word[1..], rest);
    }
  }

  // ----- Nothing is lost -----

  /** The printed hour, minute and second are those of a clock, and the date is of the calendar. */
  lemma LocalTimeInRange(seconds: int, offset: int)
    ensures
      var time := LocalTimeOf(seconds, offset);
      && IsDate(time.date)
      && 0 <= time.hour <= 23 && 0 <= time.minute <= 59 && 0 <= time.second <= 59
      && DaysFromCivil(time.date) * 86400 + time.hour * 3600 + time.minute * 60 + time.second == seconds + offset * 60
  {
    hide IsDate, CivilFromDays, DaysFromCivil;
    CivilIsADate((seconds + offset * 60) / 86400);
  }

  /** Printed text reads back to exactly the seconds and the offset it was made from, an absent offset as 0. */
  lemma FormatLosesNothing(seconds: int, offsetMinutes: Option<int>)
    ensures ReadDate(FormatDate(seconds, offsetMinutes)) == Some((seconds, offsetMinutes.GetOr(0)))
  {
    hide IsDate, CivilFromDays, DaysFromCivil, LocalTimeOf, ReadDay, ReadClock, ReadOffset, SpaceAt;
    hide FormatDay, FormatClock, FormatOffset;
    var offset := offsetMinutes.GetOr(0);
    LocalTimeInRange(seconds, offset);
    var time := LocalTimeOf(seconds, offset);
    var day, clock, shift := FormatDay(time.date), FormatClock(time), FormatOffset(offset);
    DayReadsBack(time.date);
    ClockReadsBack(time);
    OffsetReadsBack(offset);
    SpaceEndsWord(day, clock + " " + shift);
    var text := FormatDate(seconds, offsetMinutes);
    assert text == day + " " + (clock + " " + shift);
    assert text[..|day|] == day && text[|day| + 1..|day| + 9] == clock && text[|day| + 10..] == shift;
  }

  /** Two printed dates are the same text just when they stand for the same seconds and offset. */
  lemma FormatIsInjective(seconds: int, offset: Option<int>, seconds': int, offset': Option<int>)
    ensures FormatDate(seconds, offset) == FormatDate(seconds', offset')
       <==> seconds == seconds' && offset.GetOr(0) == offset'.GetOr(0)
  {
    hide ReadDate, LocalTimeOf;
    FormatLosesNothing(seconds, offset);
    FormatLosesNothing(seconds', offset');
  }

  // ----- The shape of the text -----

  /** At least `width` digits, and more only when the number needs them. */
  predicate IsPadded(digits: string, width: nat) {
    AllDigits(digits) && |digits| >= width && (|digits| > width ==> digits[0] != '0')
  }

  /** A sign only below zero, and four digits or as many as it takes. */
  predicate IsYearText(text: string) {
    IsPadded(text, 4) || (text != "" && text[0] == '-' && IsPadded(text[1..], 4))
  }

  /** Always a sign, and two digits for the minutes behind two or more for the hours. */
  predicate IsOffsetText(text: string) {
    |text| >= 5 && text[0] in "+-" && IsPadded(text[1..], 4)
  }

  lemma {:induction false} NoLeadingZero(n: nat)
    ensures n > 0 ==> Decimal(n)[0] != '0'
    ensures |Decimal(n)| >= 1
  {
    if n >= 10 {
      NoLeadingZero(n / 10);
      assert Decimal(n)[0] == Decimal(n / 10)[0];
    }
  }

  lemma PaddedIsPadded(n: nat, width: nat)
    requires 1 <= width
    ensures IsPadded(Padded(n, width), width)
  {
    hide ReadDigits, Decimal, Zeros;
    PaddedReadsBack(n, width);
    DecimalReadsBack(n);
    NoLeadingZero(n);
    ZerosReadAsNothing(width - |Decimal(n)|, Decimal(n));
  }

  lemma OffsetHasItsShape(offset: int)
    ensures IsOffsetText(FormatOffset(offset))
  {
    hide Padded, ReadDigits;
    var hours, minutes := Padded(Abs(offset) / 60, 2), Padded(Abs(offset) % 60, 2);
    PaddedIsPadded(Abs(offset) / 60, 2);
    PaddedReadsBack(Abs(offset) % 60, 2);
    assert FormatOffset(offset)[1..] == hours + minutes;
  }

  lemma YearHasItsShape(year: int)
    ensures IsYearText(FormatYear(year))
  {
    hide Padded;
    PaddedIsPadded(Abs(year), 4);
    if year < 0 {
      assert FormatYear(year)[1..] == Padded(Abs(year), 4);
    }
  }

  /** `-MM-DD HH:MM:SS ` with digits for the letters. */
  predicate IsMiddle(text: string) {
    && |text| == 16 && text[0] == '-' && text[3] == '-' && text[6] == ' ' && text[9] == ':' && text[12] == ':'
    && text[15] == ' '
    && forall i <- [1, 2, 4, 5, 7, 8, 10, 11, 13, 14] :: IsDigit(text[i])
  }

  lemma MiddleHasItsShape(month: string, day: string, hour: string, minute: string, second: string)
    requires |month| == |day| == |hour| == |minute| == |second| == 2
    requires AllDigits(month) && AllDigits(day) && AllDigits(hour) && AllDigits(minute) && AllDigits(second)
    ensures IsMiddle("-" + month + "-" + day + " " + hour + ":" + minute + ":" + second + " ")
  {
    assert forall text: string :: AllDigits(text) && |text| == 2 ==> IsDigit(text[0]) && IsDigit(text[1]);
  }

  /** Every date is printed as `YYYY-MM-DD HH:MM:SS +HHMM`, wider only where the year or the hours need it. */
  lemma TextHasItsShape(seconds: int, offsetMinutes: Option<int>) returns (year: string, middle: string, shift: string)
    ensures FormatDate(seconds, offsetMinutes) == year + middle + shift
    ensures IsYearText(year) && IsMiddle(middle) && IsOffsetText(shift)
  {
    hide IsDate, CivilFromDays, DaysFromCivil, LocalTimeOf, IsMiddle, IsYearText, IsOffsetText, Padded, FormatYear;
    hide FormatOffset, ReadDigits;
    var offset := offsetMinutes.GetOr(0);
    LocalTimeInRange(seconds, offset);
    var time := LocalTimeOf(seconds, offset);
    MonthsAndDaysAreSmall(time.date);
    year, shift := FormatYear(time.date.year), FormatOffset(offset);
    var month, day := Padded(time.date.month, 2), Padded(time.date.day, 2);
    var hour, minute, second := Padded(time.hour, 2), Padded(time.minute, 2), Padded(time.second, 2);
    PaddedReadsBack(time.date.month, 2);
    PaddedReadsBack(time.date.day, 2);
    PaddedReadsBack(time.hour, 2);
    PaddedReadsBack(time.minute, 2);
    PaddedReadsBack(time.second, 2);
    middle := "-" + month + "-" + day + " " + hour + ":" + minute + ":" + second + " ";
    MiddleHasItsShape(month, day, hour, minute, second);
    YearHasItsShape(time.date.year);
    OffsetHasItsShape(offset);
    assert FormatDate(seconds, offsetMinutes) == year + middle + shift;
  }

  lemma MonthsAndDaysAreSmall(date: Date)
    requires IsDate(date)
    ensures 0 <= date.month < 100 && 0 <= date.day < 100
  {
  }
}
