/** The expansion of weekly maintenance windows (src/lib/shared/maintenance.ts). Times are UTC
    milliseconds since 1970, which began on a Thursday. */
module Maintenance {

  const DAY_MS := 86_400_000
  const WEEK_MS := 7 * DAY_MS

  datatype Window = Window(start: int, end: int)

  /** JavaScript's %, which takes the sign of the dividend. */
  function JsMod(a: int, b: int): int
    requires b > 0
  {
    if a >= 0 then a % b else -(-a % b)
  }

  /** Date.getUTCDay: 0 is Sunday. */
  function UtcDay(t: int): (d: int)
    ensures 0 <= d < 7
  {
    (t / DAY_MS + 4) % 7
  }

  /** Weekdays by name, Sunday first; -1 for a name that is not one, as indexOf returns. */
  function DayIndex(weekday: string): (i: int)
    ensures -1 <= i < 7
  {
    match weekday
    case "sun" => 0
    case "mon" => 1
    case "tue" => 2
    case "wed" => 3
    case "thu" => 4
    case "fri" => 5
    case "sat" => 6
    case _ => -1
  }

  /** Days follow one another, and a day keeps its weekday from its first to its last millisecond. */
  lemma DaysAdvance(day: int, at: int, k: int)
    requires 0 <= at < DAY_MS
    ensures UtcDay(day * DAY_MS + at) == UtcDay(day * DAY_MS)
    ensures UtcDay((day + k) * DAY_MS) == (UtcDay(day * DAY_MS) + k) % 7
  {
    assert (day * DAY_MS + at) / DAY_MS == day && (day + k) * DAY_MS / DAY_MS == day + k;
  }

  /** Days whose weekday is known: the last of 1969, the first of 1970 and of 2000, and the first
      week of 2024, which began on a Monday. */
  lemma KnownDates()
    ensures UtcDay(-DAY_MS) == DayIndex("wed") && UtcDay(0) == DayIndex("thu") && UtcDay(946_684_800_000) == DayIndex("sat")
    ensures UtcDay(1_704_067_200_000) == DayIndex("mon") && UtcDay(1_704_153_600_000) == DayIndex("tue")
    ensures UtcDay(1_704_240_000_000) == DayIndex("wed") && UtcDay(1_704_326_400_000) == DayIndex("thu")
    ensures UtcDay(1_704_412_800_000) == DayIndex("fri") && UtcDay(1_704_499_200_000) == DayIndex("sat")
    ensures UtcDay(1_704_585_600_000) == DayIndex("sun")
  {}

  /** A weekly occurrence: at `offset` into a day of the given index; -1 counts as Saturday. */
  predicate Occurs(dayIdx: int, offset: int, start: int) {
    (start - offset) % DAY_MS == 0 && UtcDay(start - offset) == dayIdx % 7
  }

  /** The window reaches into [from, until]. */
  predicate Reaches(dur: int, from: int, until: int, start: int) {
    start <= until && start + dur >= from
  }

  /** Where the expansion begins: a week before the first such day from `from`'s day on. */
  function FirstStart(dayIdx: int, offset: int, from: int): int {
    var day0 := from / DAY_MS * DAY_MS;
    day0 + JsMod(JsMod(dayIdx - UtcDay(day0), 7) + 7, 7) * DAY_MS - WEEK_MS + offset
  }

  predicate ClockTime(hh: int, mm: int) {
    0 <= hh < 24 && 0 <= mm < 60
  }

  function Offset(hh: int, mm: int): (offset: int)
    requires ClockTime(hh, mm)
    ensures 0 <= offset < DAY_MS
  {
    (hh * 60 + mm) * 60_000
  }

  lemma ShiftHits(dayIdx: int, day0: int) returns (shift: int)
    requires -1 <= dayIdx < 7
    ensures shift == JsMod(JsMod(dayIdx - UtcDay(day0), 7) + 7, 7) && 0 <= shift < 7
    ensures (UtcDay(day0) + shift) % 7 == dayIdx % 7
  {
    shift := JsMod(JsMod(dayIdx - UtcDay(day0), 7) + 7, 7);
  }

  lemma DaysLater(t: int, n: int)
    requires t % DAY_MS == 0
    ensures (t + n * DAY_MS) % DAY_MS == 0 && (t + n * DAY_MS) / DAY_MS == t / DAY_MS + n
    ensures UtcDay(t + n * DAY_MS) == (UtcDay(t) + n) % 7
  {
    var q := t / DAY_MS;
    assert t == q * DAY_MS;
    assert t + n * DAY_MS == (q + n) * DAY_MS;
  }

  lemma FirstStartDays(dayIdx: int, offset: int, from: int) returns (day0: int, shift: int)
    requires -1 <= dayIdx < 7
    ensures day0 % DAY_MS == 0 && day0 <= from < day0 + DAY_MS && 0 <= shift < 7
    ensures (UtcDay(day0) + shift) % 7 == dayIdx % 7
    ensures FirstStart(dayIdx, offset, from) == day0 + (shift - 7) * DAY_MS + offset
  {
    day0 := from / DAY_MS * DAY_MS;
    shift := ShiftHits(dayIdx, day0);
  }

  /** The expansion begins at an occurrence, in the eight days before `from`. */
  lemma FirstStartOccurs(dayIdx: int, offset: int, from: int)
    requires -1 <= dayIdx < 7 && 0 <= offset < DAY_MS
    ensures Occurs(dayIdx, offset, FirstStart(dayIdx, offset, from))
    ensures from - WEEK_MS - DAY_MS < FirstStart(dayIdx, offset, from) < from
  {
    var day0, shift := FirstStartDays(dayIdx, offset, from);
    var n := shift - 7;
    DaysLater(day0, n);
    assert FirstStart(dayIdx, offset, from) - offset == day0 + n * DAY_MS;
  }

  lemma WeekLater(dayIdx: int, offset: int, a: int)
    requires Occurs(dayIdx, offset, a)
    ensures Occurs(dayIdx, offset, a + WEEK_MS) && Occurs(dayIdx, offset, a - WEEK_MS)
  {
    DaysLater(a - offset, 7);
    DaysLater(a - offset, -7);
  }

  /** Occurrences are a week apart. */
  lemma NoneBetween(dayIdx: int, offset: int, a: int, b: int)
    requires Occurs(dayIdx, offset, a) && Occurs(dayIdx, offset, b) && a <= b < a + WEEK_MS
    ensures a == b
  {
    var n := (b - offset) / DAY_MS - (a - offset) / DAY_MS;
    assert b == a + n * DAY_MS;
    DaysLater(a - offset, n);
  }

  predicate Listed(out: seq<Window>, start: int) {
    exists i :: 0 <= i < |out| && out[i].start == start
  }

  predicate Expansion(out: seq<Window>, dur: int) {
    && (forall i :: 0 <= i < |out| ==> out[i].end == out[i].start + dur)
    && (forall i, j :: 0 <= i < j < |out| ==> out[i].start < out[j].start)
  }

  method WeeklyOccurrences(dayIdx: int, hh: int, mm: int, durationMinutes: int, from: int, until: int)
    returns (out: seq<Window>)
    requires -1 <= dayIdx < 7 && ClockTime(hh, mm)
    ensures Expansion(out, durationMinutes * 60_000)
    ensures forall s ::
              Listed(out, s) <==> (&& Occurs(dayIdx, Offset(hh, mm), s) && s >= FirstStart(dayIdx, Offset(hh, mm), from)
                                   && Reaches(durationMinutes * 60_000, from, until, s))
  {
    var offset := (hh * 60 + mm) * 60_000;
    var dur := durationMinutes * 60_000;
    out := [];
    var day0 := from / DAY_MS * DAY_MS;
    var shift := JsMod(JsMod(dayIdx - UtcDay(day0), 7) + 7, 7);
    var day := day0 + shift * DAY_MS - 7 * DAY_MS;
    FirstStartOccurs(dayIdx, offset, from);
    ghost var first := FirstStart(dayIdx, offset, from);
    while day + offset <= until
      invariant Occurs(dayIdx, offset, day + offset) && first <= day + offset
      invariant Expansion(out, dur)
      invariant forall i :: 0 <= i < |out| ==> out[i].start < day + offset
      invariant forall s ::
                  Listed(out, s) <==> (Occurs(dayIdx, offset, s) && first <= s < day + offset && Reaches(dur, from, until, s))
      decreases until - day
    {
      var start := day + offset;
      ghost var before := out;
      WeekLater(dayIdx, offset, start);
      if start + dur >= from && start <= until {
        out := out + [Window(start, start + dur)];
        assert out[|before|].start == start;
      }
      Extended(before, out, start, dur);
      forall s | Occurs(dayIdx, offset, s) && start <= s < start + WEEK_MS ensures s == start {
        NoneBetween(dayIdx, offset, start, s);
      }
      day := day + 7 * DAY_MS;
    }
  }

  lemma Extended(before: seq<Window>, out: seq<Window>, start: int, dur: int)
    requires out == before || out == before + [Window(start, start + dur)]
    ensures forall s :: Listed(out, s) <==> Listed(before, s) || (out != before && s == start)
  {
    forall s ensures Listed(out, s) <==> Listed(before, s) || (out != before && s == start) {
      if Listed(before, s) {
        var i :| 0 <= i < |before| && before[i].start == s;
        assert out[i].start == s;
      }
      if out != before { assert out[|before|].start == start; }
    }
  }

  /** Every weekly occurrence that reaches into [from, until] is one the expansion lists. */
  ghost predicate Complete(dayIdx: int, offset: int, dur: int, from: int, until: int) {
    forall s :: Occurs(dayIdx, offset, s) && Reaches(dur, from, until, s) ==> s >= FirstStart(dayIdx, offset, from)
  }

  lemma EarlierByWeeks(dayIdx: int, offset: int, from: int, s: int)
    requires -1 <= dayIdx < 7 && 0 <= offset < DAY_MS
    requires Occurs(dayIdx, offset, s) && s < FirstStart(dayIdx, offset, from)
    ensures s <= FirstStart(dayIdx, offset, from) - WEEK_MS
  {
    var first := FirstStart(dayIdx, offset, from);
    FirstStartOccurs(dayIdx, offset, from);
    WeekLater(dayIdx, offset, first);
    if s > first - WEEK_MS {
      NoneBetween(dayIdx, offset, first - WEEK_MS, s);
    }
  }

  /** The one-week look-back is enough exactly when the occurrence before it has ended. */
  lemma LookBackEnoughIff(dayIdx: int, offset: int, dur: int, from: int, until: int)
    requires -1 <= dayIdx < 7 && 0 <= offset < DAY_MS && from <= until
    ensures Complete(dayIdx, offset, dur, from, until) <==> FirstStart(dayIdx, offset, from) - WEEK_MS + dur < from
  {
    var first := FirstStart(dayIdx, offset, from);
    FirstStartOccurs(dayIdx, offset, from);
    WeekLater(dayIdx, offset, first);
    if first - WEEK_MS + dur < from {
      forall s | Occurs(dayIdx, offset, s) && Reaches(dur, from, until, s) ensures s >= first {
        if s < first { EarlierByWeeks(dayIdx, offset, from, s); }
      }
    } else {
      assert Occurs(dayIdx, offset, first - WEEK_MS) && Reaches(dur, from, until, first - WEEK_MS);
    }
  }

  /** For windows of at most seven days it always is, whatever the range. */
  lemma LookBackEnough(dayIdx: int, offset: int, dur: int, from: int, until: int)
    requires -1 <= dayIdx < 7 && 0 <= offset < DAY_MS && dur <= WEEK_MS
    ensures Complete(dayIdx, offset, dur, from, until)
  {
    FirstStartOccurs(dayIdx, offset, from);
    forall s | Occurs(dayIdx, offset, s) && Reaches(dur, from, until, s)
      ensures s >= FirstStart(dayIdx, offset, from)
    {
      if s < FirstStart(dayIdx, offset, from) { EarlierByWeeks(dayIdx, offset, from, s); }
    }
  }

  /** What the configuration admits: durations from one minute to seven days. Then the result is
      every weekly occurrence with start <= until and end >= from, once each and ascending. */
  method AdmittedOccurrences(weekday: string, hh: int, mm: int, durationMinutes: int, from: int, until: int)
    returns (out: seq<Window>)
    requires ClockTime(hh, mm) && 1 <= durationMinutes <= 7 * 24 * 60
    ensures Expansion(out, durationMinutes * 60_000)
    ensures forall s ::
              Listed(out, s) <==> (Occurs(DayIndex(weekday), Offset(hh, mm), s) && Reaches(durationMinutes * 60_000, from, until, s))
  {
    out := WeeklyOccurrences(DayIndex(weekday), hh, mm, durationMinutes, from, until);
    LookBackEnough(DayIndex(weekday), Offset(hh, mm), durationMinutes * 60_000, from, until);
  }
}
