/** The calendar helpers of the booking application: the week window shown
    by the calendar, and the list of bookable start times generated from the
    business hours. Times of day are minutes since midnight or an
    (hour, minute) pair; dates are day numbers. */
module DateUtils {
  import opened JsSemantics

  // ---------------------------------------------------------------------
  // Times of day

  /** A time of day as `"HH:MM".split(':').map(Number)` yields it. */
  datatype Clock = Clock(hour: nat, minute: nat)

  /** A well-formed reading: the minute part is below 60. */
  predicate WellFormed(c: Clock)
  {
    c.minute < 60
  }

  /** Minutes since midnight. */
  function Minutes(c: Clock): nat
  {
    c.hour * 60 + c.minute
  }

  /** The loop guard of the slot generator: hour first, then minute. */
  predicate Before(a: Clock, b: Clock)
  {
    a.hour < b.hour || (a.hour == b.hour && a.minute < b.minute)
  }

  /** On well-formed readings, comparing hour then minute is comparing
      minutes since midnight. */
  lemma BeforeIsMinutesLess(a: Clock, b: Clock)
    requires WellFormed(a) && WellFormed(b)
    ensures Before(a, b) <==> Minutes(a) < Minutes(b)
  {
    if a.hour < b.hour {
      assert a.hour * 60 + 60 <= b.hour * 60;
    } else if a.hour > b.hour {
      assert b.hour * 60 + 60 <= a.hour * 60;
    }
  }

  /** The carry of the slot generator, `hour += floor(m / 60); m %= 60`,
      keeps the minutes since midnight and leaves a minute below 60. */
  lemma CarryPreservesMinutes(h: nat, m: nat)
    ensures Minutes(Clock(h + m / 60, m % 60)) == Minutes(Clock(h, m))
    ensures WellFormed(Clock(h + m / 60, m % 60))
  {
    assert (h + m / 60) * 60 == h * 60 + (m / 60) * 60;
  }

  /** One step of the slot generator's clock: `k` minutes later, with the
      carry into the hour when the minute reaches 60. */
  lemma Tick(h: nat, m: nat, k: nat)
    ensures m + k >= 60 ==> Minutes(Clock(h + (m + k) / 60, (m + k) % 60)) == Minutes(Clock(h, m)) + k && (m + k) % 60 < 60
    ensures m + k < 60 ==> Minutes(Clock(h, m + k)) == Minutes(Clock(h, m)) + k
  {
    CarryPreservesMinutes(h, m + k);
  }

  /** Splitting a minute count into hour and minute, then recombining it. */
  lemma SplitMinutes(h: nat, m: nat)
    requires m < 60
    ensures (h * 60 + m) / 60 == h && (h * 60 + m) % 60 == m
  {
  }

  // ---------------------------------------------------------------------
  // Formatting: `${String(h).padStart(2, '0')}:${String(m).padStart(2, '0')}`

  function DigitChar(d: nat): (c: char)
    requires d < 10
    ensures IsDigit(c)
  {
    (('0' as int) + d) as char
  }

  /** `String(n)` for a non-negative integer: its decimal digits. */
  function DecimalString(n: nat): (s: string)
    ensures |s| >= 1
    ensures n < 10 <==> |s| == 1
  {
    if n < 10 then [DigitChar(n)] else DecimalString(n / 10) + [DigitChar(n % 10)]
  }

  /** `String(n).padStart(2, '0')` */
  function Pad2(n: nat): (s: string)
    ensures |s| >= 2
    ensures n < 100 ==> s == [DigitChar(n / 10), DigitChar(n % 10)]
  {
    var d := DecimalString(n);
    assert 10 <= n < 100 ==> d == DecimalString(n / 10) + [DigitChar(n % 10)] == [DigitChar(n / 10), DigitChar(n % 10)];
    if |d| < 2 then ['0'] + d else d
  }

  /** The slot label of a clock reading. */
  function FormatTime(c: Clock): (s: string)
    ensures c.hour < 100 && c.minute < 100 ==>
              |s| == 5 && s[2] == ':' && IsDigit(s[0]) && IsDigit(s[1]) && IsDigit(s[3]) && IsDigit(s[4])
  {
    Pad2(c.hour) + ":" + Pad2(c.minute)
  }

  /** The label of a number of minutes since midnight. */
  function SlotLabel(m: nat): string
  {
    FormatTime(Clock(m / 60, m % 60))
  }

  function Labels(ms: seq<nat>): (r: seq<string>)
    ensures |r| == |ms|
  {
    if ms == [] then [] else [SlotLabel(ms[0])] + Labels(ms[1..])
  }

  /** A label below 100 hours is five characters, `HH:MM`, all digits but
      the colon, and its minute part is below 60. */
  lemma SlotLabelShape(m: nat)
    requires m < 6000
    ensures var s := SlotLabel(m);
      |s| == 5 && s[2] == ':' && IsDigit(s[0]) && IsDigit(s[1]) &&
      IsDigit(s[3]) && IsDigit(s[4]) && s[3] <= '5'
  {
    var mm := m % 60;
    assert Pad2(mm) == [DigitChar(mm / 10), DigitChar(mm % 10)];
    assert mm / 10 <= 5;
  }

  // ---------------------------------------------------------------------
  // Lexical order of labels

  lemma {:induction false} StrLessSamePrefix(p: string, q: string, r: string, s: string)
    requires |p| == |r|
    ensures StrLess(p + q, r + s) <==> StrLess(p, r) || (p == r && StrLess(q, s))
  {
    if |p| > 0 {
      assert (p + q)[1..] == p[1..] + q && (r + s)[1..] == r[1..] + s;
      StrLessSamePrefix(p[1..], q, r[1..], s);
      if p[0] == r[0] && p[1..] == r[1..] {
        assert p == [p[0]] + p[1..] && r == [r[0]] + r[1..];
      }
    } else {
      assert p + q == q && r + s == s;
    }
  }

  lemma LexOfDigitPair(x: nat, y: nat, base: nat)
    requires base == 10 || base == 60
    ensures x < y <==> x / base < y / base || (x / base == y / base && x % base < y % base)
  {
    var qx, qy := x / base, y / base;
    assert x == base * qx + x % base && y == base * qy + y % base;
    if qx < qy {
      assert base * qx + base <= base * qy;
    } else if qy < qx {
      assert base * qy + base <= base * qx;
    }
  }

  lemma Pad2Order(x: nat, y: nat)
    requires x < 100 && y < 100
    ensures StrLess(Pad2(x), Pad2(y)) <==> x < y
    ensures Pad2(x) == Pad2(y) <==> x == y
  {
    var px, py := Pad2(x), Pad2(y);
    assert px == [DigitChar(x / 10)] + [DigitChar(x % 10)];
    assert py == [DigitChar(y / 10)] + [DigitChar(y % 10)];
    StrLessSamePrefix([DigitChar(x / 10)], [DigitChar(x % 10)], [DigitChar(y / 10)], [DigitChar(y % 10)]);
    LexOfDigitPair(x, y, 10);
    assert x == 10 * (x / 10) + x % 10 && y == 10 * (y / 10) + y % 10;
  }

  /** For times below 100 hours, comparing labels as strings (as the
      booking form and the conflict check do) is comparing the times. */
  lemma SlotLabelOrder(a: nat, b: nat)
    requires a < 6000 && b < 6000
    ensures StrLess(SlotLabel(a), SlotLabel(b)) <==> a < b
    ensures SlotLabel(a) == SlotLabel(b) <==> a == b
  {
    var ha, ma, hb, mb := a / 60, a % 60, b / 60, b % 60;
    Pad2Order(ha, hb);
    Pad2Order(ma, mb);
    assert SlotLabel(a) == Pad2(ha) + (":" + Pad2(ma));
    assert SlotLabel(b) == Pad2(hb) + (":" + Pad2(mb));
    StrLessSamePrefix(Pad2(ha), ":" + Pad2(ma), Pad2(hb), ":" + Pad2(mb));
    StrLessSamePrefix(":", Pad2(ma), ":", Pad2(mb));
    LexOfDigitPair(a, b, 60);
    if SlotLabel(a) == SlotLabel(b) {
      assert SlotLabel(a)[..2] == Pad2(ha) && SlotLabel(b)[..2] == Pad2(hb);
      assert SlotLabel(a)[3..] == Pad2(ma) && SlotLabel(b)[3..] == Pad2(mb);
      assert a == 60 * ha + ma && b == 60 * hb + mb;
    }
  }

  // ---------------------------------------------------------------------
  // The slot generator

  /** The slot start times, in minutes since midnight: `from`, then every
      `interval` minutes, while strictly before `to`. */
  function SlotMinutes(from: nat, to: nat, interval: nat): seq<nat>
    requires interval > 0
    decreases (to as int) - from
  {
    if from < to then [from] + SlotMinutes(from + interval, to, interval) else []
  }

  /** The i-th slot is `from + i * interval`, every slot is before `to`, and
      there are ceil((to - from) / interval) of them. */
  lemma {:induction false} SlotMinutesShape(from: nat, to: nat, interval: nat)
    requires interval > 0
    ensures var r := SlotMinutes(from, to, interval);
      (from >= to ==> r == []) &&
      (from < to ==> (|r| - 1) * interval < to - from <= |r| * interval) &&
      (forall i :: 0 <= i < |r| ==> r[i] == from + i * interval && r[i] < to)
    decreases (to as int) - from
  {
    if from < to {
      var rest := SlotMinutes(from + interval, to, interval);
      SlotMinutesShape(from + interval, to, interval);
      var r := [from] + rest;
      assert |r| * interval == |rest| * interval + interval;
      forall i | 1 <= i < |r|
        ensures r[i] == from + i * interval
      {
        assert r[i] == rest[i - 1];
        assert (i - 1) * interval + interval == i * interval;
      }
    }
  }

  lemma MulMonotone(a: int, b: int, k: nat)
    requires a <= b
    ensures a * k <= b * k
  {
    assert b * k - a * k == (b - a) * k;
  }

  /** Integer division has exactly one quotient. */
  lemma DivUnique(x: nat, k: nat, c: nat)
    requires k > 0 && c * k <= x < c * k + k
    ensures x / k == c
  {
    var q := x / k;
    assert x == q * k + x % k;
    if q < c {
      MulMonotone(q + 1, c, k);
    } else if q > c {
      MulMonotone(c + 1, q, k);
    }
  }

  lemma CeilingDivision(n: nat, k: nat, c: nat)
    requires k > 0 && n > 0
    requires (c - 1) * k < n <= c * k
    ensures c == (n + k - 1) / k
  {
    assert (c - 1) * k + k == c * k;
    DivUnique(n + k - 1, k, c);
  }

  /** The number of slots is ceil((to - from) / interval). */
  lemma SlotCount(from: nat, to: nat, interval: nat)
    requires interval > 0 && from < to
    ensures |SlotMinutes(from, to, interval)| == (to - from + interval - 1) / interval
  {
    SlotMinutesShape(from, to, interval);
    CeilingDivision(to - from, interval, |SlotMinutes(from, to, interval)|);
  }

  /** The slots are strictly increasing, each exactly `interval` after the
      previous one. */
  lemma SlotsIncreasing(from: nat, to: nat, interval: nat, i: nat, j: nat)
    requires interval > 0
    requires i < j < |SlotMinutes(from, to, interval)|
    ensures SlotMinutes(from, to, interval)[i] < SlotMinutes(from, to, interval)[j]
    ensures j == i + 1 ==> SlotMinutes(from, to, interval)[j] == SlotMinutes(from, to, interval)[i] + interval
  {
    SlotMinutesShape(from, to, interval);
    assert i * interval < j * interval;
    assert (i + 1) * interval == i * interval + interval;
  }

  /** `generateTimeSlots`: the labels of the slots from the business start
      to the business end time. */
  method GenerateTimeSlots(startTime: Clock, endTime: Clock, intervalMinutes: nat)
    returns (slots: seq<string>)
    requires intervalMinutes > 0
    requires WellFormed(startTime) && WellFormed(endTime)
    ensures slots == Labels(SlotMinutes(Minutes(startTime), Minutes(endTime), intervalMinutes))
  {
    ghost var start, end := Minutes(startTime), Minutes(endTime);
    slots := [];
    var currentHour: nat, currentMinute: nat := startTime.hour, startTime.minute;
    ghost var now := start;
    BeforeIsMinutesLess(startTime, endTime);
    while currentHour < endTime.hour || (currentHour == endTime.hour && currentMinute < endTime.minute)
      invariant WellFormed(Clock(currentHour, currentMinute)) && now == Minutes(Clock(currentHour, currentMinute))
      invariant Emitted(slots, now, start, end, intervalMinutes)
      invariant !Before(Clock(currentHour, currentMinute), endTime) ==> now >= end
      decreases end - now
    {
      BeforeIsMinutesLess(Clock(currentHour, currentMinute), endTime);
      LabelOfClock(Clock(currentHour, currentMinute));
      ghost var emitted, at := slots, now;
      slots := slots + [FormatTime(Clock(currentHour, currentMinute))];
      now := now + intervalMinutes;
      AppendStep(emitted, at, slots, now, start, end, intervalMinutes);

      Tick(currentHour, currentMinute, intervalMinutes);
      currentMinute := currentMinute + intervalMinutes;
      if currentMinute >= 60 {
        currentHour := currentHour + currentMinute / 60;
        currentMinute := currentMinute % 60;
      }
      BeforeIsMinutesLess(Clock(currentHour, currentMinute), endTime);
    }
  }

  /** The generator yields nothing when the business day does not start
      before it ends, and otherwise starts with the opening time. */
  lemma FirstSlot(startTime: Clock, endTime: Clock, intervalMinutes: nat)
    requires intervalMinutes > 0
    requires WellFormed(startTime) && WellFormed(endTime)
    ensures var slots := Labels(SlotMinutes(Minutes(startTime), Minutes(endTime), intervalMinutes));
      (!Before(startTime, endTime) ==> slots == []) &&
      (Before(startTime, endTime) ==> |slots| > 0 && slots[0] == FormatTime(startTime))
  {
    BeforeIsMinutesLess(startTime, endTime);
    LabelOfClock(startTime);
  }

  /** `slots` followed by the labels of the slots from `now` on are all
      the labels of the slots from `start`. */
  ghost predicate Emitted(slots: seq<string>, now: nat, start: nat, end: nat, interval: nat)
  {
    interval > 0 &&
    slots + Labels(SlotMinutes(now, end, interval)) == Labels(SlotMinutes(start, end, interval))
  }

  /** Emitting the first slot moves it from the slots still to come to the
      slots produced. */
  lemma AppendStep(emitted: seq<string>, at: nat, slots: seq<string>, now: nat, start: nat, end: nat, interval: nat)
    requires Emitted(emitted, at, start, end, interval) && at < end
    requires slots == emitted + [SlotLabel(at)] && now == at + interval
    ensures Emitted(slots, now, start, end, interval)
  {
    assert emitted + Labels(SlotMinutes(at, end, interval)) ==
           slots + Labels(SlotMinutes(now, end, interval));
  }

  /** The label of a well-formed reading is that reading, formatted. */
  lemma LabelOfClock(c: Clock)
    requires WellFormed(c)
    ensures SlotLabel(Minutes(c)) == FormatTime(c)
  {
    SplitMinutes(c.hour, c.minute);
  }

  /** For business hours below 100 hours, every generated slot is a
      well-formed `HH:MM` label and the list is in strictly increasing
      lexical order. */
  lemma SlotsLexicallyIncreasing(from: nat, to: nat, interval: nat, i: nat, j: nat)
    requires interval > 0 && to <= 6000
    requires i < j < |SlotMinutes(from, to, interval)|
    ensures StrLess(Labels(SlotMinutes(from, to, interval))[i], Labels(SlotMinutes(from, to, interval))[j])
  {
    var r := SlotMinutes(from, to, interval);
    SlotMinutesShape(from, to, interval);
    SlotsIncreasing(from, to, interval, i, j);
    LabelsAt(r, i);
    LabelsAt(r, j);
    SlotLabelOrder(r[i], r[j]);
  }

  lemma {:induction false} LabelsAt(ms: seq<nat>, i: nat)
    requires i < |ms|
    ensures Labels(ms)[i] == SlotLabel(ms[i])
  {
    if i > 0 {
      LabelsAt(ms[1..], i - 1);
    }
  }

  // ---------------------------------------------------------------------
  // Weeks. A day is a day number counted from 1970-01-01, a Thursday.

  /** ISO weekday: Monday = 1, ..., Sunday = 7. */
  function IsoWeekday(day: int): (w: int)
    ensures 1 <= w <= 7
  {
    (day + 3) % 7 + 1
  }

  /** The weekday follows the calendar: day 0, 1970-01-01, is a Thursday,
      and each next day is the next weekday, Sunday wrapping to Monday. */
  lemma IsoWeekdayCalendar(day: int)
    ensures IsoWeekday(0) == 4
    ensures IsoWeekday(day + 1) == IsoWeekday(day) % 7 + 1
  {
  }

  /** `startOfWeek(day, { weekStartsOn: 1 })`: the Monday on or before `day`. */
  function StartOfWeek(day: int): (monday: int)
    ensures IsoWeekday(monday) == 1
    ensures monday <= day < monday + 7
  {
    day - (day + 3) % 7
  }

  /** `getWeekDates`: the seven consecutive days of the week of `base`,
      Monday first. */
  function WeekDates(base: int): (days: seq<int>)
    ensures |days| == 7
    ensures IsoWeekday(days[0]) == 1 && days[0] <= base <= days[6]
    ensures forall i :: 0 <= i < 7 ==> days[i] == days[0] + i
  {
    var monday := StartOfWeek(base);
    seq(7, i => monday + i)
  }

  /** The week window is the same for every day of a Monday-started week,
      and starts on that week's Monday. */
  lemma SameWeekSameDates(monday: int, a: int, b: int)
    requires IsoWeekday(monday) == 1
    requires monday <= a < monday + 7 && monday <= b < monday + 7
    ensures WeekDates(a)[0] == monday
    ensures WeekDates(a) == WeekDates(b)
  {
    MondayIsUnique(monday, a);
    MondayIsUnique(monday, b);
  }

  lemma MondayIsUnique(monday: int, day: int)
    requires IsoWeekday(monday) == 1
    requires monday <= day < monday + 7
    ensures StartOfWeek(day) == monday
  {
    var other := StartOfWeek(day);
    assert (monday + 3) % 7 == 0 && (other + 3) % 7 == 0;
    var q1, q2 := (monday + 3) / 7, (other + 3) / 7;
    assert monday + 3 == 7 * q1 && other + 3 == 7 * q2;
    assert -7 < monday - other < 7;
  }

  /** Each day of the window has the weekday of its position. */
  lemma WeekDatesWeekdays(base: int, i: nat)
    requires i < 7
    ensures IsoWeekday(WeekDates(base)[i]) == i + 1
  {
    var m := WeekDates(base)[0];
    assert (m + 3) % 7 == 0;
    assert (m + i + 3) % 7 == i;
  }

  /** The window of the day a week later is this window shifted by seven
      days: the calendar's "next week" shows the following week. */
  lemma NextWeekDates(base: int)
    ensures forall i :: 0 <= i < 7 ==> WeekDates(base + 7)[i] == WeekDates(base)[i] + 7
  {
    var m := WeekDates(base)[0];
    SameWeekSameDates(m + 7, base + 7, base + 7);
  }
}
