/** The once-a-second tick of `updateTime`: the time and date texts and the
    hourly re-resolution of the automatic theme. The clock is a value passed in. */
module Clock {
  import opened Options
  import opened Strings
  import opened Theme

  /** What `new Date()` is read for: local hour, minute, second, full year,
      zero-based month index, day of the month and day of the week (0 = Sunday). */
  datatype Instant = Instant(hour: nat, minute: nat, second: nat,
                             year: int, month: nat, day: nat, weekday: nat)

  /** The fixed weekday table, indexed by day of the week, Sunday first. */
  const Weekdays: seq<string> := ["星期日", "星期一", "星期二", "星期三", "星期四", "星期五", "星期六"]

  /** `HH:MM:SS`, each field zero-padded to two digits. */
  function TimeText(hour: nat, minute: nat, second: nat): string
  {
    Pad2(hour) + ":" + Pad2(minute) + ":" + Pad2(second)
  }

  /** `YYYY-MM-DD <weekday>`: the year unpadded, the one-based month and the day
      padded to two digits, then the weekday name. */
  function DateText(year: int, month: nat, day: nat, weekday: nat): string
    requires weekday < 7
  {
    IntToString(year) + "-" + Pad2(month + 1) + "-" + Pad2(day) + " " + Weekdays[weekday]
  }

  /** A time of at most two digits per field reads back field by field: eight
      characters, colons at 2 and 5, and each field parses to its number. */
  lemma TimeTextReadsBack(hour: nat, minute: nat, second: nat)
    requires hour < 100 && minute < 100 && second < 100
    ensures var t := TimeText(hour, minute, second);
      && |t| == 8 && t[2] == ':' && t[5] == ':'
      && Split(t, ':') == [Pad2(hour), Pad2(minute), Pad2(second)]
      && ParseInt(t[..2]) == Some(hour)
      && ParseInt(t[3..5]) == Some(minute)
      && ParseInt(t[6..]) == Some(second)
  {
    var h, m, s := Pad2(hour), Pad2(minute), Pad2(second);
    Pad2ReadsBack(hour);
    Pad2ReadsBack(minute);
    Pad2ReadsBack(second);
    var t := TimeText(hour, minute, second);
    assert t == h + [':'] + m + [':'] + s;
    assert t[..2] == h && t[3..5] == m && t[6..] == s;
    DigitsHaveNoSeparator(h, ':');
    DigitsHaveNoSeparator(m, ':');
    DigitsHaveNoSeparator(s, ':');
    Join3(h, m, s, ':');
    SplitJoin([h, m, s], ':');
  }

  /** 9:05:00 is shown as "09:05:00". */
  lemma TimeExample()
    ensures TimeText(9, 5, 0) == "09:05:00"
  {
    Pad2Chars(9);
    Pad2Chars(5);
    Pad2Chars(0);
    assert DigitChar(0) == '0' && DigitChar(9) == '9' && DigitChar(5) == '5';
  }

  lemma WeekdaysHaveNoSpace(weekday: nat)
    requires weekday < 7
    ensures ' ' !in Weekdays[weekday]
  {
  }

  /** For a year from 0 on, the date text is the unpadded year, the two-digit
      month and day separated by '-', then a space and the weekday name; each
      numeric field parses back to its value (the month one-based). */
  lemma DateTextReadsBack(year: nat, month: nat, day: nat, weekday: nat)
    requires month < 12 && day < 100 && weekday < 7
    ensures var t := DateText(year, month, day, weekday);
      var date := NatToString(year) + "-" + Pad2(month + 1) + "-" + Pad2(day);
      && Split(t, ' ') == [date, Weekdays[weekday]]
      && Split(date, '-') == [NatToString(year), Pad2(month + 1), Pad2(day)]
      && ParseInt(NatToString(year)) == Some(year)
      && ParseInt(Pad2(month + 1)) == Some(month + 1)
      && ParseInt(Pad2(day)) == Some(day)
  {
    var y, mo, d := NatToString(year), Pad2(month + 1), Pad2(day);
    var date := y + "-" + mo + "-" + d;
    Pad2ReadsBack(month + 1);
    Pad2ReadsBack(day);
    ParseIntOfNatToString(year, "");
    assert y + "" == y;
    DigitsHaveNoSeparator(y, '-');
    DigitsHaveNoSeparator(mo, '-');
    DigitsHaveNoSeparator(d, '-');
    Join3(y, mo, d, '-');
    SplitJoin([y, mo, d], '-');
    DigitsHaveNoSeparator(y, ' ');
    DigitsHaveNoSeparator(mo, ' ');
    DigitsHaveNoSeparator(d, ' ');
    assert ' ' !in date;
    WeekdaysHaveNoSpace(weekday);
    assert [date, Weekdays[weekday]][1..] == [Weekdays[weekday]];
    assert DateText(year, month, day, weekday) == Join([date, Weekdays[weekday]], ' ');
    SplitJoin([date, Weekdays[weekday]], ' ');
  }

  /** Tuesday 2024-03-05 (month index 2, weekday 2) is shown as "2024-03-05 星期二". */
  lemma DateExample()
    ensures DateText(2024, 2, 5, 2) == "2024-03-05 星期二"
  {
    assert NatToString(2024) == "2024" by {
      assert DigitChar(0) == '0' && DigitChar(2) == '2' && DigitChar(4) == '4';
      assert NatToString(202) == "202";
    }
    Pad2Chars(3);
    Pad2Chars(5);
    assert DigitChar(0) == '0' && DigitChar(3) == '3' && DigitChar(5) == '5';
  }

  /** The hourly check: only in auto mode and only on the exact :00:00 tick. */
  predicate ResolvesOnTick(mode: string, now: Instant)
  {
    mode == "auto" && now.minute == 0 && now.second == 0
  }

  /** The class set after a tick. */
  function TickClasses(classes: set<string>, mode: string, now: Instant): set<string>
  {
    if ResolvesOnTick(mode, now) then ThemeAfter(classes, mode, now.hour) else classes
  }

  /** On the edge the tick leaves the classes matching the hour; off it they are untouched. */
  lemma TickAtEdge(classes: set<string>, mode: string, now: Instant)
    ensures ResolvesOnTick(mode, now) ==>
      var r := TickClasses(classes, mode, now);
      && ("theme-day" in r <==> IsDaytime(now.hour))
      && ("theme-night" in r <==> !IsDaytime(now.hour))
      && "theme-auto" in r
    ensures !ResolvesOnTick(mode, now) ==> TickClasses(classes, mode, now) == classes
  {
    if ResolvesOnTick(mode, now) {
      AutoFollowsHour(classes, now.hour);
    }
  }

  /** A tick on a class set the same mode already produced at that hour changes
      nothing, whether or not it lands on the edge. */
  lemma TickAfterResolveIsStable(classes: set<string>, mode: string, now: Instant)
    ensures var resolved := ThemeAfter(classes, mode, now.hour);
      TickClasses(resolved, mode, now) == resolved
  {
    ThemeIdempotent(classes, mode, now.hour);
  }

  /** The optimisation's boundary: classes resolved at 17:59 stay on day through
      a tick at 18:00:01 that missed the 18:00:00 edge, although 18:00 is night. */
  lemma MissedEdgeKeepsStaleTheme(classes: set<string>)
    ensures var before := ThemeAfter(classes, "auto", 17);
      var late := Instant(18, 0, 1, 2024, 0, 1, 1);
      && !IsDaytime(late.hour)
      && TickClasses(before, "auto", late) == before
      && "theme-day" in TickClasses(before, "auto", late)
  {
    AutoFollowsHour(classes, 17);
  }
}
