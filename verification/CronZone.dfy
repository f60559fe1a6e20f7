/** Wall-clock and UTC times of day (apps/api/src/routes/adminCron.ts). */
module CronZone {

  /** Minutes in a day. Instants are minutes since the epoch; a time of day is 0 to 1439. */
  const DAY := 1440

  /** The offset of a zone from UTC, in minutes, at an instant. */
  type Offset = int -> int

  /** The instant at which the UTC clock shows minute m today. */
  function TodayAt(today: int, m: int): int { today * DAY + m }

  /** The UTC time of day of an instant. */
  function Clock(t: int): (m: int)
    ensures 0 <= m < DAY
  {
    t % DAY
  }

  /** Stored UTC time of day to the wall clock. */
  function UtcToLocal(off: Offset, today: int, m: int): int
  {
    var at := TodayAt(today, m);
    Clock(at + off(at))
  }

  /** The instant two passes of the offset search reach for the wall-clock time `naive`. */
  function TwoPasses(off: Offset, naive: int): int { naive - off(naive - off(naive)) }

  function LocalToUtc(off: Offset, today: int, m: int): int { Clock(TwoPasses(off, TodayAt(today, m))) }

  /** Each pass applies the offset found at the instant of the pass before. */
  method SearchUtc(off: Offset, today: int, m: int) returns (utc: int)
    ensures utc == LocalToUtc(off, today, m)
  {
    var naive := TodayAt(today, m);
    var at := naive;
    for i := 0 to 2
      invariant i == 0 ==> at == naive
      invariant i == 1 ==> at == naive - off(naive)
      invariant i == 2 ==> at == TwoPasses(off, naive)
    {
      at := naive - off(at);
    }
    utc := Clock(at);
  }

  // ------------------------------------------------------------------ across a change of offset

  /** Yesterday, today and tomorrow. */
  predicate InWindow(today: int, t: int) { (today - 1) * DAY <= t < (today + 2) * DAY }

  /** Within the window the offset changes at most once, at instant `change`, from a to b; neither exceeds a day. */
  ghost predicate OneChange(off: Offset, today: int, change: int, a: int, b: int)
  {
    && -DAY <= a <= DAY && -DAY <= b <= DAY
    && forall t :: InWindow(today, t) ==> off(t) == if t < change then a else b
  }

  /** Some instant of the window reads as this wall-clock time. */
  ghost predicate Occurs(off: Offset, today: int, naive: int)
  {
    exists t :: InWindow(today, t) && t + off(t) == naive
  }

  /** Two passes reach an instant that reads as the wanted time exactly when that time occurs at all. */
  lemma TwoPassesReachEveryTimeThatOccurs(off: Offset, today: int, m: int, change: int, a: int, b: int)
    requires OneChange(off, today, change, a, b) && 0 <= m < DAY
    ensures var naive := TodayAt(today, m);
            var at := TwoPasses(off, naive);
            InWindow(today, at) && (at + off(at) == naive <==> Occurs(off, today, naive))
  {
    var naive := TodayAt(today, m);
    assert InWindow(today, naive) && InWindow(today, naive - a) && InWindow(today, naive - b);
    if Occurs(off, today, naive) {
      var t :| InWindow(today, t) && t + off(t) == naive;
      assert t == naive - a || t == naive - b;
    }
  }

  /** The offset applied to a wall-clock time is the one its stored form is presented with. */
  predicate ReadsBack(off: Offset, today: int, m: int)
  {
    var applied := off(TodayAt(today, m) - off(TodayAt(today, m)));
    (off(TodayAt(today, LocalToUtc(off, today, m))) - applied) % DAY == 0
  }

  /** A time typed and stored is presented as typed exactly when the two offsets agree. */
  lemma RoundTripAcrossChange(off: Offset, today: int, m: int)
    requires 0 <= m < DAY
    ensures UtcToLocal(off, today, LocalToUtc(off, today, m)) == m <==> ReadsBack(off, today, m)
  {
    var naive := TodayAt(today, m);
    var applied := off(naive - off(naive));
    var stored := Clock(naive - applied);
    var back := off(TodayAt(today, stored));
    ClockOfSum(today, m - applied);
    assert stored == Clock(m - applied);
    ClockOfSum(today, stored + back);
    ClockShift(m - applied, back);
    ClockShift(m, back - applied);
  }

  /** The offset a stored time is presented with is the one applied when it is saved again. */
  predicate SavesBack(off: Offset, today: int, m: int)
  {
    var naive := TodayAt(today, UtcToLocal(off, today, m));
    (off(TodayAt(today, m)) - off(naive - off(naive))) % DAY == 0
  }

  /** A stored time that is presented and saved again untouched stays exactly when the two offsets agree. */
  lemma SavingAgainAcrossChange(off: Offset, today: int, m: int)
    requires 0 <= m < DAY
    ensures LocalToUtc(off, today, UtcToLocal(off, today, m)) == m <==> SavesBack(off, today, m)
  {
    var shown := off(TodayAt(today, m));
    ClockOfSum(today, m + shown);
    var local := Clock(m + shown);
    assert UtcToLocal(off, today, m) == local;
    var naive := TodayAt(today, local);
    var applied := off(naive - off(naive));
    ClockOfSum(today, local - applied);
    ClockShift(m + shown, -applied);
    ClockShift(m, shown - applied);
  }

  /** The instant that a stored time, once shown, is taken for under the offset it was shown with. */
  function TakenFor(off: Offset, today: int, m: int): int
  {
    TodayAt(today, UtcToLocal(off, today, m)) - off(TodayAt(today, m))
  }

  /**
   With one change of offset, exactly these stored times move when they are shown and saved again: those before the
   change whose shown time the two passes put behind it, and those behind it whose shown time they put before.
   */
  lemma MovesIff(off: Offset, today: int, m: int, change: int, a: int, b: int)
    requires OneChange(off, today, change, a, b) && -DAY < a - b < DAY && 0 <= m < DAY
    ensures var at, taken := TodayAt(today, m), TakenFor(off, today, m);
            !SavesBack(off, today, m) <==>
              && a != b
              && (if at < change
                  then if taken + a < change then change <= taken else change <= taken + (a - b)
                  else if taken + b < change then taken - (a - b) < change else taken < change)
  {
    var at := TodayAt(today, m);
    var naive := TodayAt(today, UtcToLocal(off, today, m));
    assert InWindow(today, at) && InWindow(today, naive) && InWindow(today, naive - a) && InWindow(today, naive - b);
    assert (a - b) % DAY == 0 <==> a == b;
    assert (b - a) % DAY == 0 <==> a == b;
  }

  /** When the shown time falls on the same day, the time is taken for what it was. */
  lemma TakenForItself(off: Offset, today: int, m: int)
    requires 0 <= m + off(TodayAt(today, m)) < DAY
    ensures TakenFor(off, today, m) == TodayAt(today, m)
  {
    ClockOfSum(today, m + off(TodayAt(today, m)));
  }

  /**
   Shown on the same day, these are, east of UTC, the last stretch before a clock goes back and, west of it, the first
   stretch after.
   */
  lemma MovesWithinTheDayIff(off: Offset, today: int, m: int, change: int, a: int, b: int)
    requires OneChange(off, today, change, a, b) && -DAY < a - b < DAY && 0 <= m < DAY
    requires 0 <= m + off(TodayAt(today, m)) < DAY
    ensures var at := TodayAt(today, m);
            !SavesBack(off, today, m) <==>
              || (at < change <= at + a && change <= at + (a - b))
              || (at + b < change <= at && at - (a - b) < change)
  {
    MovesIff(off, today, m, change, a, b);
    TakenForItself(off, today, m);
  }

  /** The London clock on the last Sunday of October: exactly the hour before 01:00 UTC moves, an hour forward. */
  lemma LondonInOctober(off: Offset, m: int)
    requires OneChange(off, 0, 60, 60, 0) && 0 <= m < DAY
    ensures LocalToUtc(off, 0, UtcToLocal(off, 0, m)) == if m < 60 then m + 60 else m
  {
    ClockOfSum(0, m + off(m));
    assert InWindow(0, m);
    assert InWindow(0, m + off(m)) && InWindow(0, m + off(m) - 60);
  }

  /**
   The New York clock on the first Sunday of November: the hour from 06:00 UTC moves an hour back, and the times before
   04:00 UTC, which the clock shows on the evening before but saving takes for the evening after, an hour forward.
   */
  lemma NewYorkInNovember(off: Offset, m: int)
    requires OneChange(off, 0, 360, -240, -300) && 0 <= m < DAY
    ensures LocalToUtc(off, 0, UtcToLocal(off, 0, m))
            == if m < 240 then m + 60 else if 360 <= m < 420 then m - 60 else m
  {
    assert InWindow(0, m);
    var local := UtcToLocal(off, 0, m);
    assert local == if m < 240 then m + 1200 else if m < 360 then m - 240 else m - 300;
    assert InWindow(0, local) && InWindow(0, local + 240) && InWindow(0, local + 300);
  }

  lemma ClockOfSum(today: int, m: int)
    ensures Clock(today * DAY + m) == Clock(m)
  {}

  lemma ClockShift(x: int, y: int)
    ensures Clock(Clock(x) + y) == Clock(x + y)
    ensures 0 <= x < DAY ==> (Clock(x + y) == x <==> y % DAY == 0)
  {}

  // ------------------------------------------------------------------ with a constant offset

  ghost predicate ConstantOffset(off: Offset, today: int, a: int)
  {
    -DAY <= a <= DAY && forall t :: InWindow(today, t) ==> off(t) == a
  }

  lemma LocalThenUtc(off: Offset, today: int, m: int, a: int)
    requires ConstantOffset(off, today, a) && 0 <= m < DAY
    ensures UtcToLocal(off, today, LocalToUtc(off, today, m)) == m
  {
    var naive := TodayAt(today, m);
    assert InWindow(today, naive) && InWindow(today, naive - a);
    assert InWindow(today, TodayAt(today, LocalToUtc(off, today, m)));
    RoundTripAcrossChange(off, today, m);
  }

  lemma UtcThenLocal(off: Offset, today: int, m: int, a: int)
    requires ConstantOffset(off, today, a) && 0 <= m < DAY
    ensures LocalToUtc(off, today, UtcToLocal(off, today, m)) == m
  {
    var at := TodayAt(today, m);
    assert InWindow(today, at);
    ClockOfSum(today, m + a);
    var naive := TodayAt(today, Clock(m + a));
    assert InWindow(today, naive) && InWindow(today, naive - a);
    SavingAgainAcrossChange(off, today, m);
  }

  /** A witness that the hypothesis of one change is needed: with two close by, a third pass would be. */
  lemma TwoChangesDefeatTwoPasses()
    ensures var off := (t: int) => if t < 930 then 180 else if t < 990 then 120 else 60;
            var at := TwoPasses(off, 1000);
            Occurs(off, 0, 1000) && at + off(at) != 1000
  {
    var off := (t: int) => if t < 930 then 180 else if t < 990 then 120 else 60;
    assert InWindow(0, 820) && 820 + off(820) == 1000;
  }

  // ------------------------------------------------------------------ HH:MM

  predicate Digit(c: char) { '0' <= c <= '9' }

  function DigitOf(n: int): (c: char)
    requires 0 <= n < 10
    ensures Digit(c)
  {
    ('0' as int + n) as char
  }

  function ValueOf(c: char): (n: int)
    requires Digit(c)
    ensures 0 <= n < 10
  {
    c as int - '0' as int
  }

  function Pad2(n: int): (s: string)
    requires 0 <= n < 100
    ensures |s| == 2
  {
    [DigitOf(n / 10), DigitOf(n % 10)]
  }

  /** ^([01]\d|2[0-3]):[0-5]\d$ */
  predicate TimeOfDay(s: string)
  {
    && |s| == 5 && s[2] == ':' && Digit(s[1]) && Digit(s[4])
    && ('0' <= s[0] <= '1' || (s[0] == '2' && s[1] <= '3'))
    && '0' <= s[3] <= '5'
  }

  function ParseTime(s: string): (m: int)
    requires TimeOfDay(s)
    ensures 0 <= m < DAY
  {
    (ValueOf(s[0]) * 10 + ValueOf(s[1])) * 60 + ValueOf(s[3]) * 10 + ValueOf(s[4])
  }

  function FormatTime(m: int): (s: string)
    requires 0 <= m < DAY
    ensures TimeOfDay(s)
  {
    var h, mm := m / 60, m % 60;
    assert h < 20 || (h / 10 == 2 && h % 10 <= 3);
    Pad2(h) + ":" + Pad2(mm)
  }

  lemma FormatThenParse(m: int)
    requires 0 <= m < DAY
    ensures ParseTime(FormatTime(m)) == m
  {}

  lemma ParseThenFormat(s: string)
    requires TimeOfDay(s)
    ensures FormatTime(ParseTime(s)) == s
  {
    var h, mm := ValueOf(s[0]) * 10 + ValueOf(s[1]), ValueOf(s[3]) * 10 + ValueOf(s[4]);
    assert ParseTime(s) / 60 == h && ParseTime(s) % 60 == mm;
  }

  function UtcTimeToLocal(off: Offset, today: int, s: string): (r: string)
    requires TimeOfDay(s)
    ensures TimeOfDay(r)
  {
    FormatTime(UtcToLocal(off, today, ParseTime(s)))
  }

  function LocalTimeToUtc(off: Offset, today: int, s: string): (r: string)
    requires TimeOfDay(s)
    ensures TimeOfDay(r)
  {
    FormatTime(LocalToUtc(off, today, ParseTime(s)))
  }

  /** On every HH:MM, each conversion undoes the other exactly when the offsets they meet agree. */
  lemma ConversionsAreInverseIff(off: Offset, today: int, s: string)
    requires TimeOfDay(s)
    ensures UtcTimeToLocal(off, today, LocalTimeToUtc(off, today, s)) == s <==> ReadsBack(off, today, ParseTime(s))
    ensures LocalTimeToUtc(off, today, UtcTimeToLocal(off, today, s)) == s <==> SavesBack(off, today, ParseTime(s))
  {
    var m := ParseTime(s);
    FormatThenParse(LocalToUtc(off, today, m));
    FormatThenParse(UtcToLocal(off, today, m));
    RoundTripAcrossChange(off, today, m);
    SavingAgainAcrossChange(off, today, m);
    SameFormat(UtcToLocal(off, today, LocalToUtc(off, today, m)), s);
    SameFormat(LocalToUtc(off, today, UtcToLocal(off, today, m)), s);
  }

  lemma SameFormat(n: int, s: string)
    requires 0 <= n < DAY && TimeOfDay(s)
    ensures FormatTime(n) == s <==> n == ParseTime(s)
  {
    FormatThenParse(n);
    ParseThenFormat(s);
  }

  /** While the offset stands still they do, across midnight too. */
  lemma ConversionsAreInverse(off: Offset, today: int, s: string, a: int)
    requires ConstantOffset(off, today, a) && TimeOfDay(s)
    ensures ReadsBack(off, today, ParseTime(s)) && SavesBack(off, today, ParseTime(s))
    ensures UtcTimeToLocal(off, today, LocalTimeToUtc(off, today, s)) == s
    ensures LocalTimeToUtc(off, today, UtcTimeToLocal(off, today, s)) == s
  {
    LocalThenUtc(off, today, ParseTime(s), a);
    UtcThenLocal(off, today, ParseTime(s), a);
    RoundTripAcrossChange(off, today, ParseTime(s));
    SavingAgainAcrossChange(off, today, ParseTime(s));
    ConversionsAreInverseIff(off, today, s);
  }

  /** In texts: a job stored at 00:30 on that day in October is saved again at 01:30. */
  lemma LondonText(off: Offset)
    requires OneChange(off, 0, 60, 60, 0)
    ensures LocalTimeToUtc(off, 0, UtcTimeToLocal(off, 0, "00:30")) == "01:30"
  {
    assert TimeOfDay("00:30") && ParseTime("00:30") == 30 && FormatTime(90) == "01:30";
    LondonInOctober(off, 30);
    FormatThenParse(UtcToLocal(off, 0, 30));
  }

  /** A wall clock that is ahead of UTC by a constant shows its times later, and goes round at midnight. */
  lemma WallClockIsAhead(off: Offset, today: int, m: int, a: int)
    requires ConstantOffset(off, today, a) && 0 <= m < DAY
    ensures UtcToLocal(off, today, m) == (m + a) % 1440
    ensures LocalToUtc(off, today, m) == (m - a) % 1440
  {
    var at := TodayAt(today, m);
    assert InWindow(today, at) && InWindow(today, at - a);
    ClockOfSum(today, m + a);
    ClockOfSum(today, m - a);
  }

  /** What the clock texts mean. */
  lemma ClockTexts()
    ensures TimeOfDay("00:00") && ParseTime("00:00") == 0
    ensures TimeOfDay("01:23") && ParseTime("01:23") == 83
    ensures TimeOfDay("14:56") && ParseTime("14:56") == 896
    ensures TimeOfDay("23:59") && ParseTime("23:59") == 1439
    ensures !TimeOfDay("24:00") && !TimeOfDay("12:60") && !TimeOfDay("9:00")
  {}

  /** In Kampala, three hours ahead: six in the morning UTC is nine, and one at night is ten the evening before. */
  lemma KampalaTexts(off: Offset, today: int)
    requires ConstantOffset(off, today, 180)
    ensures UtcTimeToLocal(off, today, "06:00") == "09:00" && LocalTimeToUtc(off, today, "01:00") == "22:00"
  {
    assert TimeOfDay("06:00") && ParseTime("06:00") == 360;
    assert TimeOfDay("09:00") && ParseTime("09:00") == 540;
    assert TimeOfDay("01:00") && ParseTime("01:00") == 60;
    assert TimeOfDay("22:00") && ParseTime("22:00") == 1320;
    hide ParseTime, FormatTime, UtcToLocal, LocalToUtc, ConstantOffset;
    SameFormat(540, "09:00");
    SameFormat(1320, "22:00");
    WallClockIsAhead(off, today, 360, 180);
    WallClockIsAhead(off, today, 60, 180);
  }
}
