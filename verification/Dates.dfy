/** Date literals: the two syntaxes that are read, the one that is printed, and
    which dates read back. */
module Dates {
  import opened Integers
  import opened Results
  import opened Formulas
  import opened Texts
  import opened Decimals

  /** A moment in UTC; second 60 is a leap second. */
  datatype Stamp = Stamp(year: int, month: nat, day: nat, hour: nat, minute: nat, second: nat, nano: nat)

  /** The years the date library holds. */
  const MIN_YEAR := -262_143
  const MAX_YEAR := 262_142

  predicate IsLeap(year: int) {
    year % 4 == 0 && (year % 100 != 0 || year % 400 == 0)
  }

  function DaysIn(year: int, month: nat): (n: nat)
    ensures 28 <= n <= 31
  {
    if month == 2 then (if IsLeap(year) then 29 else 28)
    else if month == 4 || month == 6 || month == 9 || month == 11 then 30
    else 31
  }

  predicate IsDay(year: int, month: nat, day: nat) {
    MIN_YEAR <= year <= MAX_YEAR && 1 <= month <= 12 && 1 <= day <= DaysIn(year, month)
  }

  predicate IsClock(hour: nat, minute: nat, second: nat) {
    hour < 24 && minute < 60 && second <= 60
  }

  predicate IsStamp(s: Stamp) {
    IsDay(s.year, s.month, s.day) && IsClock(s.hour, s.minute, s.second) && s.nano < 1_000_000_000
  }

  // ----- reading -----

  /** Exactly `n` digits, and what follows. */
  function Fixed(s: string, n: nat): Option<(nat, string)> {
    if |s| >= n && AllDigits(s[..n]) then Some((IntOf(s[..n]), s[n..])) else None
  }

  /** At least one digit and at most `max`, and what follows. */
  function Run(s: string, max: nat): Option<(nat, string)> {
    var n := Min(DigitRun(s), max);
    if n == 0 then None else Some((IntOf(s[..n]), s[n..]))
  }

  /** What follows `c`. */
  function Mark(s: string, c: char): Option<string> {
    if s != [] && s[0] == c then Some(s[1..]) else None
  }

  /** `YYYY-MM-DD`, as RFC 3339 writes it, and what follows. */
  function ReadFullDate(s: string): Option<((nat, nat, nat), string)> {
    var year :- Fixed(s, 4);
    var r :- Mark(year.1, '-');
    var month :- Fixed(r, 2);
    var r' :- Mark(month.1, '-');
    var day :- Fixed(r', 2);
    Some(((year.0, month.0, day.0), day.1))
  }

  /** `HH:MM:SS`, and what follows. */
  function ReadClock(s: string): Option<((nat, nat, nat), string)> {
    var hour :- Fixed(s, 2);
    var r :- Mark(hour.1, ':');
    var minute :- Fixed(r, 2);
    var r' :- Mark(minute.1, ':');
    var second :- Fixed(r', 2);
    Some(((hour.0, minute.0, second.0), second.1))
  }

  /** A fraction of a second in nanoseconds, if there is one; digits after the ninth are dropped. */
  function ReadFraction(s: string): Option<(nat, string)> {
    if s == [] || s[0] != '.' then Some((0, s))
    else
      var n := DigitRun(s[1..]);
      var k := Min(n, 9);
      if n == 0 then None else Some((IntOf(s[1..][..k]) * Pow10(9 - k), s[1..][n..]))
  }

  /** The minutes that local time is ahead of UTC. */
  function ReadZone(s: string): Option<int> {
    if s == "Z" || s == "z" then Some(0)
    else if s == [] || s[0] !in {'+', '-', '\U{2212}'} then None
    else
      var hour :- Fixed(s[1..], 2);
      var r :- Mark(hour.1, ':');
      var minute :- Fixed(r, 2);
      var ahead := hour.0 * 60 + minute.0;
      if minute.0 >= 60 || ahead >= 1440 || minute.1 != [] then None
      else Some(if s[0] == '+' then ahead else -ahead)
  }

  function DayAfter(year: int, month: nat, day: nat): (int, nat, nat) {
    if day < DaysIn(year, month) then (year, month, day + 1)
    else if month < 12 then (year, month + 1, 1)
    else (year + 1, 1, 1)
  }

  function DayBefore(year: int, month: nat, day: nat): (int, nat, nat) {
    if day > 1 then (year, month, day - 1)
    else if month > 1 then (year, month - 1, DaysIn(year, month - 1))
    else (year - 1, 12, 31)
  }

  /** A local date and time, `ahead` minutes ahead of UTC, in UTC. */
  function InUtc(date: (nat, nat, nat), clock: (nat, nat, nat), nano: nat, ahead: int): Stamp
    requires -1440 < ahead < 1440 && IsClock(clock.0, clock.1, clock.2)
  {
    var minutes := clock.0 * 60 + clock.1 - ahead;
    var d := if minutes < 0 then DayBefore(date.0, date.1, date.2)
             else if minutes >= 1440 then DayAfter(date.0, date.1, date.2)
             else (date.0, date.1, date.2);
    var m := minutes % 1440;
    Stamp(d.0, d.1, d.2, m / 60, m % 60, clock.2, nano)
  }

  /** A date-time of RFC 3339, section 5.6, in UTC. */
  function ReadStamp(s: string): Option<Stamp> {
    var date :- ReadFullDate(s);
    if date.1 == [] || date.1[0] !in {'T', 't', ' '} then None
    else
      var clock :- ReadClock(date.1[1..]);
      var nano :- ReadFraction(clock.1);
      var ahead :- ReadZone(nano.1);
      if IsDay(date.0.0, date.0.1, date.0.2) && IsClock(clock.0.0, clock.0.1, clock.0.2) && -1440 < ahead < 1440
      then Some(InUtc(date.0, clock.0, nano.0, ahead))
      else None
  }

  /** A year: at most four digits, or any number of them after a sign. */
  function ReadYear(s: string): Option<(int, string)> {
    if s != [] && s[0] == '-' then
      var year :- Run(s[1..], |s|);
      Some((-(year.0 as int), year.1))
    else if s != [] && s[0] == '+' then
      var year :- Run(s[1..], |s|);
      Some((year.0, year.1))
    else
      var year :- Run(s, 4);
      Some((year.0, year.1))
  }

  /** `year-month-day`, with white space before each number; midnight. */
  function ReadDay(s: string): Option<Stamp> {
    var year :- ReadYear(TrimStart(s));
    var r :- Mark(year.1, '-');
    var month :- Run(TrimStart(r), 2);
    var r' :- Mark(month.1, '-');
    var day :- Run(TrimStart(r'), 2);
    if day.1 == [] && IsDay(year.0, month.0, day.0) then Some(Stamp(year.0, month.0, day.0, 0, 0, 0, 0)) else None
  }

  /** What the inside of `#…#` stands for. */
  function ReadDate(raw: string): Option<Stamp> {
    var s := Trim(raw);
    match ReadStamp(s)
    case Some(stamp) => Some(stamp)
    case None => ReadDay(s)
  }

  // ----- printing -----

  /** The last `width` digits of `n`. */
  function Padded(n: nat, width: nat): (s: string)
    ensures |s| == width && AllDigits(s)
  {
    if width == 0 then [] else Padded(n / 10, width - 1) + [('0' as int + n % 10) as char]
  }

  /** At least four digits. */
  function YearDigits(n: nat): string {
    if n <= 9999 then Padded(n, 4) else Digits(n)
  }

  function YearSign(year: int): char {
    if year < 0 then '-' else '+'
  }

  function Magnitude(n: int): nat {
    if n < 0 then -n else n
  }

  /** Four digits, or a sign and at least four. */
  function PrintYear(year: int): string {
    if 0 <= year <= 9999 then YearDigits(year) else [YearSign(year)] + YearDigits(Magnitude(year))
  }

  /** No fraction, or three, six or nine digits of one. */
  function PrintFraction(nano: nat): string {
    if nano == 0 then ""
    else if nano % 1_000_000 == 0 then "." + Padded(nano / 1_000_000, 3)
    else if nano % 1000 == 0 then "." + Padded(nano / 1000, 6)
    else "." + Padded(nano, 9)
  }

  function PrintClock(s: Stamp): string {
    Padded(s.hour, 2) + (":" + (Padded(s.minute, 2) + (":" + (Padded(s.second, 2) + (PrintFraction(s.nano) + "+00:00")))))
  }

  function PrintMonth(s: Stamp): string {
    "-" + (Padded(s.month, 2) + ("-" + (Padded(s.day, 2) + ("T" + PrintClock(s)))))
  }

  /** The moment in RFC 3339's form, as far as the year allows. */
  function PrintStamp(s: Stamp): string {
    PrintYear(s.year) + PrintMonth(s)
  }

  /** A date's text as its stamp's text, as the tokenizer keeps it. */
  function DateText(raw: string): Option<string> {
    var stamp :- ReadDate(raw);
    Some(PrintStamp(stamp))
  }

  // ----- what is read is a moment -----

  lemma FixedBound(s: string, n: nat)
    requires Fixed(s, n).Some?
    ensures Fixed(s, n).value.0 < Pow10(n)
  {
    IntOfBound(s[..n]);
  }

  lemma InUtcIsStamp(date: (nat, nat, nat), clock: (nat, nat, nat), nano: nat, ahead: int)
    requires -1440 < ahead < 1440 && IsClock(clock.0, clock.1, clock.2) && nano < 1_000_000_000
    requires IsDay(date.0, date.1, date.2) && date.0 <= 9999
    ensures IsStamp(InUtc(date, clock, nano, ahead))
  {
  }

  lemma FractionBound(s: string)
    requires ReadFraction(s).Some?
    ensures ReadFraction(s).value.0 < 1_000_000_000
  {
    if s != [] && s[0] == '.' {
      var n := DigitRun(s[1..]);
      var k := Min(n, 9);
      var d := s[1..][..k];
      IntOfBound(d);
      Pow10Sum(k, 9 - k);
      Scaled(IntOf(d), Pow10(k), Pow10(9 - k));
      assert Pow10(9) == 1_000_000_000 by {
        assert Pow10(5) == 100_000;
      }
    }
  }

  lemma Scaled(x: int, p: int, q: int)
    requires 0 <= x < p && q >= 1
    ensures 0 <= x * q < p * q
  {
  }

  lemma ReadIsStamp(raw: string)
    ensures ReadDate(raw).Some? ==> IsStamp(ReadDate(raw).value)
  {
    var s := Trim(raw);
    if ReadStamp(s).Some? {
      var date := ReadFullDate(s).value;
      var clock := ReadClock(date.1[1..]).value;
      var nano := ReadFraction(clock.1).value;
      FixedBound(s, 4);
      assert Pow10(4) == 10_000;
      FractionBound(clock.1);
      InUtcIsStamp(date.0, clock.0, nano.0, ReadZone(nano.1).value);
    }
  }

  // ----- what is printed is read -----

  lemma {:induction false} IntOfPadded(n: nat, width: nat)
    requires n < Pow10(width)
    ensures IntOf(Padded(n, width)) == n
  {
    if width > 0 {
      IntOfPadded(n / 10, width - 1);
      var c := ('0' as int + n % 10) as char;
      IntOfSnoc(Padded(n / 10, width - 1), c);
    }
  }

  lemma FixedRead(n: nat, width: nat, rest: string)
    requires n < Pow10(width)
    ensures Fixed(Padded(n, width) + rest, width) == Some((n, rest))
  {
    IntOfPadded(n, width);
    var s := Padded(n, width) + rest;
    assert s[..width] == Padded(n, width) && s[width..] == rest;
  }

  lemma Pair(n: nat, rest: string)
    requires n < 100
    ensures Fixed(Padded(n, 2) + rest, 2) == Some((n, rest))
  {
    assert Pow10(2) == 100;
    FixedRead(n, 2, rest);
  }

  lemma MarkRead(c: char, rest: string)
    ensures Mark([c] + rest, c) == Some(rest)
  {
    assert ([c] + rest)[1..] == rest;
  }

  lemma ClockRead(s: Stamp)
    requires IsStamp(s)
    ensures ReadClock(PrintClock(s)) == Some(((s.hour, s.minute, s.second), PrintFraction(s.nano) + "+00:00"))
  {
    var end := PrintFraction(s.nano) + "+00:00";
    var seconds := Padded(s.second, 2) + end;
    var minutes := Padded(s.minute, 2) + (":" + seconds);
    Pair(s.hour, ":" + minutes);
    MarkRead(':', minutes);
    Pair(s.minute, ":" + seconds);
    MarkRead(':', seconds);
    Pair(s.second, end);
  }

  lemma FullDateRead(s: Stamp)
    requires IsStamp(s) && 0 <= s.year <= 9999
    ensures ReadFullDate(PrintStamp(s)) == Some(((s.year, s.month, s.day), "T" + PrintClock(s)))
  {
    var end := "T" + PrintClock(s);
    var days := Padded(s.day, 2) + end;
    var months := Padded(s.month, 2) + ("-" + days);
    assert Pow10(4) == 10_000 && PrintYear(s.year) == Padded(s.year, 4);
    FixedRead(s.year, 4, "-" + months);
    MarkRead('-', months);
    Pair(s.month, "-" + days);
    MarkRead('-', days);
    Pair(s.day, end);
  }

  lemma FractionDigits(n: nat, width: nat, rest: string)
    requires 0 < width <= 9 && n < Pow10(width) && (rest == [] || !IsAsciiDigit(rest[0]))
    ensures ReadFraction("." + Padded(n, width) + rest) == Some((n * Pow10(9 - width), rest))
  {
    var d, s := Padded(n, width), "." + Padded(n, width) + rest;
    assert s[1..] == d + rest;
    DigitRunOf(d, rest);
    IntOfPadded(n, width);
    FractionIs(s, d, rest);
  }

  lemma FractionIs(s: string, d: string, rest: string)
    requires s != [] && s[0] == '.' && s[1..] == d + rest && DigitRun(d + rest) == |d| && 0 < |d| <= 9 && AllDigits(d)
    ensures ReadFraction(s) == Some((IntOf(d) * Pow10(9 - |d|), rest))
  {
    assert (d + rest)[..|d|] == d && (d + rest)[|d|..] == rest;
  }

  lemma Powers()
    ensures Pow10(0) == 1 && Pow10(3) == 1000 && Pow10(6) == 1_000_000 && Pow10(9) == 1_000_000_000
  {
    assert Pow10(3) == 1000;
    Pow10Sum(3, 3);
    Pow10Sum(6, 3);
  }

  lemma FractionRead(nano: nat, rest: string)
    requires nano < 1_000_000_000 && rest != [] && !IsAsciiDigit(rest[0]) && rest[0] != '.'
    ensures ReadFraction(PrintFraction(nano) + rest) == Some((nano, rest))
  {
    if nano == 0 {
      assert "" + rest == rest;
    } else {
      var unit, width := FractionUnit(nano);
      DigitsOfFraction(nano, unit, width, rest);
    }
  }

  lemma FractionUnit(nano: nat) returns (unit: nat, width: nat)
    requires nano != 0
    ensures (unit == 1_000_000 && width == 3) || (unit == 1000 && width == 6) || (unit == 1 && width == 9)
    ensures nano % unit == 0 && PrintFraction(nano) == "." + Padded(nano / unit, width)
  {
    unit, width := if nano % 1_000_000 == 0 then 1_000_000 else if nano % 1000 == 0 then 1000 else 1,
                   if nano % 1_000_000 == 0 then 3 else if nano % 1000 == 0 then 6 else 9;
  }

  lemma DigitsOfFraction(nano: nat, unit: nat, width: nat, rest: string)
    requires nano < 1_000_000_000 && rest != [] && !IsAsciiDigit(rest[0])
    requires (unit == 1_000_000 && width == 3) || (unit == 1000 && width == 6) || (unit == 1 && width == 9)
    requires nano % unit == 0
    ensures ReadFraction("." + Padded(nano / unit, width) + rest) == Some((nano, rest))
  {
    Powers();
    FractionDigits(nano / unit, width, rest);
  }

  lemma ZoneRead()
    ensures ReadZone("+00:00") == Some(0)
  {
    var s := "+00:00";
    assert s[1..] == "00:00" && s[1..][..2] == "00" && s[1..][2..] == ":00";
    assert ":00"[1..] == "00" && "00"[..2] == "00" && "00"[2..] == "";
    assert IntOf("00") == 0 by {
      assert "00"[..1] == "0" && "0"[..0] == "";
    }
  }

  lemma NoShift(s: Stamp)
    requires IsStamp(s) && 0 <= s.year
    ensures InUtc((s.year, s.month, s.day), (s.hour, s.minute, s.second), s.nano, 0) == s
  {
  }

  /** A year of four digits is read back. */
  lemma StampRead(s: Stamp)
    requires IsStamp(s) && 0 <= s.year <= 9999
    ensures ReadStamp(PrintStamp(s)) == Some(s)
  {
    var t := PrintStamp(s);
    FullDateRead(s);
    MarkRead('T', PrintClock(s));
    ClockRead(s);
    FractionRead(s.nano, "+00:00");
    ZoneRead();
    NoShift(s);
    StampIs(t, (s.year, s.month, s.day), "T" + PrintClock(s), (s.hour, s.minute, s.second),
            PrintFraction(s.nano) + "+00:00", s.nano, "+00:00", 0);
  }

  lemma StampIs(s: string, date: (nat, nat, nat), s': string, clock: (nat, nat, nat), s'': string, nano: nat, zone: string, ahead: int)
    requires ReadFullDate(s) == Some((date, s')) && s' != [] && s'[0] in {'T', 't', ' '}
    requires ReadClock(s'[1..]) == Some((clock, s'')) && ReadFraction(s'') == Some((nano, zone)) && ReadZone(zone) == Some(ahead)
    requires IsDay(date.0, date.1, date.2) && IsClock(clock.0, clock.1, clock.2) && -1440 < ahead < 1440
    ensures ReadStamp(s) == Some(InUtc(date, clock, nano, ahead))
  {
  }

  // ----- and nothing else is -----

  /** A sign is where four digits should be. */
  lemma SignIsNoStamp(s: Stamp)
    requires !(0 <= s.year <= 9999)
    ensures ReadStamp(PrintStamp(s)) == None
  {
    var t := PrintStamp(s);
    assert t[0] == '+' || t[0] == '-';
    assert |t| >= 4 ==> t[..4][0] == t[0];
  }

  lemma RunRead(d: string, rest: string, max: nat)
    requires d != [] && AllDigits(d) && |d| <= max && (rest == [] || !IsAsciiDigit(rest[0]))
    ensures Run(d + rest, max) == Some((IntOf(d), rest))
  {
    DigitRunOf(d, rest);
    assert (d + rest)[..|d|] == d && (d + rest)[|d|..] == rest;
  }

  lemma TrimDigit(s: string)
    requires s != [] && !IsWhitespace(s[0])
    ensures TrimStart(s) == s
  {
  }

  lemma {:induction false} IntOfDigits(n: nat)
    ensures AllDigits(Digits(n)) && Digits(n) != [] && IntOf(Digits(n)) == n
  {
    if n >= 10 {
      IntOfDigits(n / 10);
      IntOfSnoc(Digits(n / 10), ('0' as int + n % 10) as char);
    } else {
      assert Digits(n)[..0] == [];
    }
  }

  lemma YearDigitsSpell(n: nat)
    ensures AllDigits(YearDigits(n)) && YearDigits(n) != [] && IntOf(YearDigits(n)) == n
  {
    if n <= 9999 {
      assert Pow10(4) == 10_000;
      IntOfPadded(n, 4);
    } else {
      IntOfDigits(n);
    }
  }

  /** A year with a sign is read with all its digits. */
  lemma YearRead(year: int, rest: string)
    requires !(0 <= year <= 9999) && rest != [] && !IsAsciiDigit(rest[0])
    ensures ReadYear(PrintYear(year) + rest) == Some((year, rest)) && TrimStart(PrintYear(year) + rest) == PrintYear(year) + rest
  {
    SignedText(year, rest);
    YearValue(year, rest);
    TrimDigit([YearSign(year)] + (YearDigits(Magnitude(year)) + rest));
  }

  lemma SignedText(year: int, rest: string)
    requires !(0 <= year <= 9999)
    ensures PrintYear(year) + rest == [YearSign(year)] + (YearDigits(Magnitude(year)) + rest)
  {
    Reassociate([YearSign(year)], YearDigits(Magnitude(year)), rest);
  }

  lemma YearValue(year: int, rest: string)
    requires rest != [] && !IsAsciiDigit(rest[0])
    ensures ReadYear([YearSign(year)] + (YearDigits(Magnitude(year)) + rest)) == Some((year, rest))
  {
    YearDigitsSpell(Magnitude(year));
    SignedRead(YearSign(year), YearDigits(Magnitude(year)), rest);
  }

  lemma SignedRead(sign: char, d: string, rest: string)
    requires (sign == '+' || sign == '-') && AllDigits(d) && d != [] && (rest == [] || !IsAsciiDigit(rest[0]))
    ensures ReadYear([sign] + (d + rest)) == Some((if sign == '-' then -IntOf(d) else IntOf(d), rest))
  {
    RunRead(d, rest, 1 + |d + rest|);
    YearIs(sign, d + rest, IntOf(d), rest);
  }

  lemma YearIs(sign: char, s: string, n: nat, rest: string)
    requires (sign == '+' || sign == '-') && Run(s, 1 + |s|) == Some((n, rest))
    ensures ReadYear([sign] + s) == Some((if sign == '-' then -(n as int) else n, rest))
  {
    var t := [sign] + s;
    assert t[1..] == s && |t| == 1 + |s| && t[0] == sign;
  }

  lemma MonthRead(n: nat, rest: string)
    requires rest != [] && !IsAsciiDigit(rest[0])
    ensures var s := Padded(n, 2) + rest; TrimStart(s) == s && Run(s, 2).Some? && Run(s, 2).value.1 == rest
  {
    DigitFirst(Padded(n, 2), rest);
    RunRead(Padded(n, 2), rest, 2);
  }

  /** The text goes on after the day, so it is no date without a time. */
  lemma TimeIsNoDay(s: Stamp)
    requires !(0 <= s.year <= 9999)
    ensures ReadDay(PrintStamp(s)) == None
  {
    var end := "T" + PrintClock(s);
    var days := Padded(s.day, 2) + end;
    YearRead(s.year, PrintMonth(s));
    MarkRead('-', Padded(s.month, 2) + ("-" + days));
    MonthRead(s.month, "-" + days);
    MarkRead('-', days);
    MonthRead(s.day, end);
  }

  lemma DigitFirst(d: string, rest: string)
    requires d != [] && AllDigits(d)
    ensures TrimStart(d + rest) == d + rest
  {
    assert (d + rest)[0] == d[0];
  }

  lemma StampIsTrimmed(s: Stamp)
    ensures Trim(PrintStamp(s)) == PrintStamp(s)
  {
    var t := PrintStamp(s);
    assert t[|t| - 1] == '0' by {
      EndsInZero(s);
    }
    assert !IsWhitespace(t[0]);
  }

  lemma EndsInZero(s: Stamp)
    ensures var t := PrintStamp(s); t != [] && t[|t| - 1] == '0'
  {
    var zone := "+00:00";
    var seconds := Padded(s.second, 2) + (PrintFraction(s.nano) + zone);
    assert seconds[|seconds| - 1] == zone[|zone| - 1];
    var minutes := Padded(s.minute, 2) + (":" + seconds);
    assert minutes[|minutes| - 1] == seconds[|seconds| - 1];
    var clock := PrintClock(s);
    assert clock[|clock| - 1] == minutes[|minutes| - 1];
    var months := PrintMonth(s);
    assert months[|months| - 1] == clock[|clock| - 1];
  }

  /** A printed moment reads as itself if its year has four digits, and not at all otherwise. */
  lemma PrintedDate(s: Stamp)
    requires IsStamp(s)
    ensures ReadDate(PrintStamp(s)) == if 0 <= s.year <= 9999 then Some(s) else None
  {
    StampIsTrimmed(s);
    if 0 <= s.year <= 9999 {
      StampRead(s);
    } else {
      SignIsNoStamp(s);
      TimeIsNoDay(s);
    }
  }

  /** A date's text reads as itself exactly when its year in UTC has four digits. */
  lemma DateTextComesBackIff(raw: string)
    requires ReadDate(raw).Some?
    ensures var s := ReadDate(raw).value;
            && DateText(raw) == Some(PrintStamp(s))
            && (DateText(PrintStamp(s)) == DateText(raw) <==> 0 <= s.year <= 9999)
            && (DateText(PrintStamp(s)) == None <==> !(0 <= s.year <= 9999))
  {
    ReadIsStamp(raw);
    PrintedDate(ReadDate(raw).value);
  }

  lemma StampHasNoHash(s: Stamp)
    ensures '#' !in PrintStamp(s)
  {
    YearDigitsSpell(Magnitude(s.year));
    DigitsHaveNoHash(YearDigits(Magnitude(s.year)));
    ClockHasNoHash(s);
    DigitsHaveNoHash(Padded(s.month, 2));
    DigitsHaveNoHash(Padded(s.day, 2));
  }

  lemma ClockHasNoHash(s: Stamp)
    ensures '#' !in PrintClock(s)
  {
    DigitsHaveNoHash(Padded(s.hour, 2));
    DigitsHaveNoHash(Padded(s.minute, 2));
    DigitsHaveNoHash(Padded(s.second, 2));
    FractionHasNoHash(s.nano);
    assert '#' !in "+00:00";
  }

  lemma FractionHasNoHash(nano: nat)
    ensures '#' !in PrintFraction(nano)
  {
    DigitsHaveNoHash(Padded(nano / 1_000_000, 3));
    DigitsHaveNoHash(Padded(nano / 1000, 6));
    DigitsHaveNoHash(Padded(nano, 9));
  }

  lemma DigitsHaveNoHash(s: string)
    requires AllDigits(s)
    ensures '#' !in s
  {
  }

  // ----- every year the library holds can be typed -----

  /** The first of January, as it can be typed. */
  function NewYear(year: int): string {
    PrintYear(year) + "-01-01"
  }

  lemma FirstRead(rest: string)
    requires rest == [] || !IsAsciiDigit(rest[0])
    ensures TrimStart("01" + rest) == "01" + rest && Run("01" + rest, 2) == Some((1, rest))
  {
    assert IntOf("01") == 1 by {
      assert "01"[..1] == "0" && "0"[..0] == "";
    }
    RunRead("01", rest, 2);
    TrimDigit("01" + rest);
  }

  lemma NewYearIsDay(year: int)
    requires MIN_YEAR <= year <= MAX_YEAR && !(0 <= year <= 9999)
    ensures ReadDay(NewYear(year)) == Some(Stamp(year, 1, 1, 0, 0, 0, 0))
  {
    YearRead(year, "-01-01");
    MonthAndDay();
    FirstRead("-01");
    FirstRead("");
    DayIs(NewYear(year), year, "-01-01", "01" + "-01", 1, "-01", "01" + "", 1);
  }

  lemma MonthAndDay()
    ensures Mark("-01-01", '-') == Some("01" + "-01") && Mark("-01", '-') == Some("01" + "")
  {
    assert "-01-01"[1..] == "01" + "-01" && "-01"[1..] == "01" + "";
  }

  lemma DayIs(s: string, year: int, s': string, month: string, m: nat, s'': string, day: string, d: nat)
    requires TrimStart(s) == s && ReadYear(s) == Some((year, s')) && Mark(s', '-') == Some(month)
    requires TrimStart(month) == month && Run(month, 2) == Some((m, s'')) && Mark(s'', '-') == Some(day)
    requires TrimStart(day) == day && Run(day, 2) == Some((d, "")) && IsDay(year, m, d)
    ensures ReadDay(s) == Some(Stamp(year, m, d, 0, 0, 0, 0))
  {
  }

  /** A date of any year without four digits can be typed, and its text reads as nothing. */
  lemma NewYearIsLost(year: int)
    requires MIN_YEAR <= year <= MAX_YEAR && !(0 <= year <= 9999)
    ensures ReadDate(NewYear(year)) == Some(Stamp(year, 1, 1, 0, 0, 0, 0)) && '#' !in NewYear(year)
    ensures DateText(NewYear(year)).Some? && DateText(DateText(NewYear(year)).value) == None
  {
    NewYearIsNoStamp(year);
    NewYearIsDay(year);
    NewYearIsTrimmed(year);
    DateTextComesBackIff(NewYear(year));
    NoHash(year);
  }

  lemma NewYearIsNoStamp(year: int)
    requires !(0 <= year <= 9999)
    ensures ReadStamp(NewYear(year)) == None
  {
    var t := NewYear(year);
    assert t[0] == YearSign(year);
    assert |t| >= 4 ==> t[..4][0] == t[0];
  }

  lemma NewYearIsTrimmed(year: int)
    requires !(0 <= year <= 9999)
    ensures Trim(NewYear(year)) == NewYear(year)
  {
    var t, end := NewYear(year), "-01-01";
    assert t[0] == YearSign(year);
    assert t[|t| - 1] == end[|end| - 1];
  }

  lemma NoHash(year: int)
    ensures '#' !in NewYear(year)
  {
    YearDigitsSpell(Magnitude(year));
    assert forall c :: c in YearDigits(Magnitude(year)) ==> IsAsciiDigit(c);
    assert '#' !in "-01-01";
  }

  lemma LateYear()
    ensures NewYear(12_345) == "+12345-01-01"
  {
    assert Digits(12) == "12" && Digits(1234) == "1234";
  }
}
