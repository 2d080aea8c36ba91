/** Recurrence calculations for scheduled tasks (agent/ollama_code/schedules.py).

    Instants on the zone side are whole minutes since the epoch: the offsets and the transitions
    of a zone are minute-aligned. `after`, `now` and `earliest` are exact timestamps in seconds.
*/
module Schedules {
  import opened Numbers
  import opened Options

  // ----- Time zones -----

  /** A zone is an initial UTC offset and a list of transitions, the latest one outermost.
      `offset` is the offset in force after the last transition. */
  datatype Zone =
    | Fixed(offset: int)
    | Shifted(earlier: Zone, at: int, offset: int)

  const MINUTES_PER_DAY := 1440
  const MAX_GAP := 180

  /** Offsets are under a day, no transition skips more than three hours, and the wall-clock
      intervals that successive transitions skip or repeat come one after the other. */
  ghost predicate WellFormed(z: Zone)
  {
    && -MINUTES_PER_DAY < z.offset < MINUTES_PER_DAY
    && match z
       case Fixed(_) => true
       case Shifted(e, at, o) =>
         && WellFormed(e)
         && o - e.offset <= MAX_GAP
         && (e.Shifted? ==> e.at < at && e.at + Max(e.earlier.offset, e.offset) <= at + Min(e.offset, o))
  }

  function OffsetAt(z: Zone, t: int): int
  {
    match z
    case Fixed(o) => o
    case Shifted(e, at, o) => if at <= t then o else OffsetAt(e, t)
  }

  /** Wall-clock minute shown at instant `t`. */
  function Local(z: Zone, t: int): int { t + OffsetAt(z, t) }

  /** The offset a naive wall-clock minute is given under `fold=0` (PEP 495): a transition counts
      once the wall clock is past both the skipped and the repeated interval. */
  function FoldZeroOffset(z: Zone, wall: int): int
  {
    match z
    case Fixed(o) => o
    case Shifted(e, at, o) => if at + Max(e.offset, o) <= wall then o else FoldZeroOffset(e, wall)
  }

  function Instant(z: Zone, wall: int): int { wall - FoldZeroOffset(z, wall) }

  predicate RoundTrips(z: Zone, wall: int) { Local(z, Instant(z, wall)) == wall }

  function DayOf(z: Zone, t: int): int { Local(z, t) / MINUTES_PER_DAY }

  /** `t` is the earliest instant whose wall clock is at or past `wall`. */
  ghost predicate IsEarliest(z: Zone, wall: int, t: int)
  {
    Local(z, t) >= wall && forall u :: u < t ==> Local(z, u) < wall
  }

  /** Until a transition, the wall clock stays below what the outgoing offset reaches there. */
  lemma {:induction false} BelowTransition(z: Zone, t: int)
    requires WellFormed(z) && z.Shifted? && t < z.at
    ensures Local(z, t) < z.at + z.earlier.offset
  {
    var e := z.earlier;
    assert Local(z, t) == Local(e, t);
    if e.Shifted? && t < e.at {
      BelowTransition(e, t);
    }
  }

  lemma {:induction false} RoundTripIsEarliest(z: Zone, wall: int)
    requires WellFormed(z) && RoundTrips(z, wall)
    ensures IsEarliest(z, wall, Instant(z, wall))
  {
    var t := Instant(z, wall);
    if z.Shifted? {
      var e, at, o := z.earlier, z.at, z.offset;
      if at + Max(e.offset, o) <= wall {
        forall u | u < t ensures Local(z, u) < wall {
          if u < at { BelowTransition(z, u); }
        }
      } else {
        assert t < at by {
          if at <= t { assert FoldZeroOffset(e, wall) == e.offset; }
        }
        assert Local(z, t) == Local(e, t);
        RoundTripIsEarliest(e, wall);
        forall u | u < t ensures Local(z, u) < wall {
          assert Local(z, u) == Local(e, u);
        }
      }
    }
  }

  /** A wall-clock minute that does not round trip is skipped by some transition: nothing shows it,
      and the clock resumes within `MAX_GAP` minutes at a minute that is shown. */
  lemma {:induction false} SkippedMinute(z: Zone, wall: int) returns (resume: int)
    requires WellFormed(z) && !RoundTrips(z, wall)
    ensures forall u :: Local(z, u) != wall
    ensures z.Shifted? && resume <= z.at && wall < Local(z, resume) <= wall + MAX_GAP
    ensures wall < z.at + Max(z.earlier.offset, z.offset)
  {
    var t := Instant(z, wall);
    if z.Shifted? {
      var e, at, o := z.earlier, z.at, z.offset;
      if at + Max(e.offset, o) <= wall {
        assert OffsetAt(z, t) == o;
      } else if RoundTrips(e, wall) {
        assert Local(z, t) == if t < at then Local(e, t) else t + o;
        resume := at;
        forall u ensures Local(z, u) != wall {
          if u < at { BelowTransition(z, u); }
        }
      } else {
        resume := SkippedMinute(e, wall);
        assert Local(z, resume) == Local(e, resume);
        forall u ensures Local(z, u) != wall {
          assert u < at ==> Local(z, u) == Local(e, u);
        }
      }
    }
  }

  lemma {:induction false} ShownRoundTrips(z: Zone, t: int)
    requires WellFormed(z)
    ensures RoundTrips(z, Local(z, t))
  {
    if !RoundTrips(z, Local(z, t)) {
      var _ := SkippedMinute(z, Local(z, t));
    }
  }

  lemma {:induction false} OffsetWithinADay(z: Zone, t: int)
    requires WellFormed(z)
    ensures -MINUTES_PER_DAY < OffsetAt(z, t) < MINUTES_PER_DAY
  {
    if z.Shifted? { OffsetWithinADay(z.earlier, t); }
  }

  // ----- Resolving a wall time -----

  const RESOLVE_STEPS := 181

  function ResolveFrom(z: Zone, desired: int, step: nat): Option<int>
    decreases RESOLVE_STEPS - step
  {
    if step >= RESOLVE_STEPS then None
    else if RoundTrips(z, desired + step) then Some(Instant(z, desired + step))
    else ResolveFrom(z, desired, step + 1)
  }

  function WallMinute(day: int, hour: int, minute: int): int
  {
    day * MINUTES_PER_DAY + hour * 60 + minute
  }

  function ResolvedWall(z: Zone, day: int, hour: int, minute: int): Option<int>
  {
    ResolveFrom(z, WallMinute(day, hour, minute), 0)
  }

  lemma {:induction false} ResolveFromIsEarliest(z: Zone, desired: int, step: nat, last: nat)
    requires WellFormed(z)
    requires step <= last < RESOLVE_STEPS && RoundTrips(z, desired + last)
    requires forall wall :: desired <= wall < desired + step ==> !RoundTrips(z, wall)
    ensures var r := ResolveFrom(z, desired, step);
            && r.Some? && IsEarliest(z, desired, r.value) && Local(z, r.value) <= desired + last
            && forall wall :: desired <= wall < Local(z, r.value) ==> !RoundTrips(z, wall)
    decreases last - step
  {
    if RoundTrips(z, desired + step) {
      var t := Instant(z, desired + step);
      RoundTripIsEarliest(z, desired + step);
      forall u | u < t ensures Local(z, u) < desired {
        ShownRoundTrips(z, u);
      }
    } else {
      ResolveFromIsEarliest(z, desired, step + 1, last);
    }
  }

  /** Resolving never fails, and the resolved time of a day is the earliest instant whose wall clock
      is at or past the requested one, whether that time is plain, repeated or skipped. */
  lemma ResolvedIsEarliest(z: Zone, day: int, hour: int, minute: int)
    requires WellFormed(z)
    ensures var r := ResolvedWall(z, day, hour, minute);
            && r.Some? && IsEarliest(z, WallMinute(day, hour, minute), r.value)
            && Local(z, r.value) <= WallMinute(day, hour, minute) + MAX_GAP
            && forall wall :: WallMinute(day, hour, minute) <= wall < Local(z, r.value) ==> !RoundTrips(z, wall)
  {
    var desired := WallMinute(day, hour, minute);
    var last := 0;
    if !RoundTrips(z, desired) {
      var resume := SkippedMinute(z, desired);
      ShownRoundTrips(z, resume);
      last := Local(z, resume) - desired;
    }
    ResolveFromIsEarliest(z, desired, 0, last);
  }

  function Resolved(z: Zone, day: int, hour: int, minute: int): int
    requires WellFormed(z)
  {
    ResolvedIsEarliest(z, day, hour, minute);
    ResolvedWall(z, day, hour, minute).value
  }

  lemma ResolvedStrictlyIncreases(z: Zone, day: int, later: int, hour: int, minute: int)
    requires WellFormed(z) && day < later
    ensures Resolved(z, day, hour, minute) < Resolved(z, later, hour, minute)
  {
    ResolvedIsEarliest(z, day, hour, minute);
    ResolvedIsEarliest(z, later, hour, minute);
  }

  /** The clock shows this date, hour and minute. */
  ghost predicate Shows(z: Zone, t: int, day: int, hour: int, minute: int)
  {
    var local := Local(z, t);
    local / 1440 == day && local % 1440 / 60 == hour && local % 60 == minute
  }

  lemma ClockFields(local: int, day: int, hour: int, minute: int)
    requires 0 <= hour < 24 && 0 <= minute < 60
    ensures local == 1440 * day + 60 * hour + minute <==> local / 1440 == day && local % 1440 / 60 == hour && local % 60 == minute
  {
    var q, rest := local / 1440, local % 1440;
    var h, m := rest / 60, rest % 60;
    QuotientIs(local, 24 * q + h, m, 60);
    if local == 1440 * day + 60 * hour + minute {
      QuotientIs(local, day, 60 * hour + minute, 1440);
      QuotientIs(rest, hour, minute, 60);
    }
  }

  /** What the clock shows at the resolved time: the requested date, hour and minute, for the first time, if it
      ever shows them; otherwise, for the first time, the first minute after them that it ever shows. */
  lemma ClockAtResolved(z: Zone, day: int, hour: int, minute: int)
    requires WellFormed(z) && 0 <= hour < 24 && 0 <= minute < 60
    ensures var t := Resolved(z, day, hour, minute);
            if exists u :: Shows(z, u, day, hour, minute) then
              Shows(z, t, day, hour, minute) && forall u :: Shows(z, u, day, hour, minute) ==> t <= u
            else
              && 1440 * day + 60 * hour + minute < Local(z, t)
              && forall u :: Local(z, u) < 1440 * day + 60 * hour + minute || (Local(z, t) <= Local(z, u) && t <= u)
  {
    var t, wall := Resolved(z, day, hour, minute), 1440 * day + 60 * hour + minute;
    ResolvedIsEarliest(z, day, hour, minute);
    hide RoundTrips;
    ClockFields(Local(z, t), day, hour, minute);
    forall u ensures Shows(z, u, day, hour, minute) <==> Local(z, u) == wall { ClockFields(Local(z, u), day, hour, minute); }
    forall u ensures Local(z, u) < wall || (Local(z, t) <= Local(z, u) && t <= u) { ShownRoundTrips(z, u); }
  }

  // ----- Rules -----

  datatype IntervalUnit = Minutes | Hours | Days | Weeks

  datatype Rule =
    | Once(when: real)
    | Interval(every: int, each: IntervalUnit, anchor: real)
    | Daily(hour: int, minute: int)
    | Weekdays(hour: int, minute: int)
    | Weekly(hour: int, minute: int, weekday: int)
  {
    predicate Calendar() { Daily? || Weekdays? || Weekly? }

    function Step(): int
      requires Interval?
    {
      every * match each case Minutes => 60 case Hours => 3600 case Days => 86400 case Weeks => 604800
    }

    predicate Valid()
    {
      match this
      case Once(_) => true
      case Interval(_, _, _) => 900 <= Step() <= 31536000
      case Weekly(h, m, w) => 0 <= h < 24 && 0 <= m < 60 && 0 <= w < 7
      case _ => 0 <= hour < 24 && 0 <= minute < 60
    }

    /** Day 0, 1 January 1970, is a Thursday; Monday is weekday 0. */
    predicate Matches(day: int)
    {
      match this
      case Daily(_, _) => true
      case Weekdays(_, _) => (day + 3) % 7 < 5
      case Weekly(_, _, w) => (day + 3) % 7 == w
      case _ => false
    }
  }

  const SLACK := 0.000001

  const SCAN_DAYS := 371

  function Seconds(t: int): real { (60 * t) as real }

  function MinuteOf(x: real): int { x.Floor / 60 }

  /** Rounds to an integer, ties to even. */
  function HalfEven(y: real): int
  {
    var rest := y - y.Floor as real;
    if rest < 0.5 || (rest == 0.5 && y.Floor % 2 == 0) then y.Floor else y.Floor + 1
  }

  /** A timestamp as a date and time show it: rounded to a microsecond. */
  function Clock(x: real): real { HalfEven(x * 1000000.0) as real / 1000000.0 }

  /** The local date at an instant. */
  function Today(z: Zone, x: real): int { DayOf(z, MinuteOf(Clock(x))) }

  lemma MinuteIsOver(x: real, t: int)
    requires MinuteOf(x) < t
    ensures x < Seconds(t)
  {
    assert x.Floor < 60 * t;
  }

  lemma MinuteHasCome(x: real, t: int)
    requires t <= MinuteOf(x)
    ensures Seconds(t) <= x
  {
    assert 60 * t <= x.Floor;
  }

  lemma MinuteComes(x: real, t: int)
    requires Seconds(t) <= x
    ensures t <= MinuteOf(x)
  {
    assert 60 * t <= x.Floor;
  }

  /** Rounding moves an instant by half a microsecond at most. */
  lemma ClockIsClose(x: real)
    ensures x - 0.0000005 <= Clock(x) <= x + 0.0000005
  {
    var y := x * 1000000.0;
    var h := HalfEven(y);
    assert y - 0.5 <= h as real <= y + 0.5;
  }

  /** A tie goes to the even neighbour. */
  lemma TiesGoToEven(n: int)
    ensures HalfEven(n as real + 0.5) % 2 == 0 && n <= HalfEven(n as real + 0.5) <= n + 1
  {
    assert (n as real + 0.5).Floor == n;
  }

  /** It never moves one back over a whole second. */
  lemma ClockKeepsSeconds(x: real, second: int)
    requires second as real <= x
    ensures second as real <= Clock(x)
  {
    var y := x * 1000000.0;
    var micros := 1000000 * second;
    assert micros as real <= y;
    assert micros <= y.Floor <= HalfEven(y);
  }

  datatype Outcome = NoOccurrence | At(time: real) | Raised

  /** When a calendar rule runs on a day it picks. */
  function RunOn(rule: Rule, z: Zone, day: int): real
    requires WellFormed(z) && rule.Calendar()
  {
    Seconds(Resolved(z, day, rule.hour, rule.minute))
  }

  ghost predicate IsOccurrence(rule: Rule, z: Zone, time: real)
    requires WellFormed(z)
  {
    match rule
    case Once(a) => time == a
    case Interval(_, _, a) => exists k: nat :: time == IntervalTick(rule, k)
    case _ => exists day :: rule.Matches(day) && time == RunOn(rule, z, day)
  }

  function IntervalTick(rule: Rule, k: int): real
    requires rule.Interval?
  {
    rule.anchor + (k * rule.Step()) as real
  }

  /** The instant that separates what is due from what is to come: the present for an interval, and the
      present with the slack for any other rule. */
  function Cutoff(rule: Rule, now: real): real { if rule.Interval? then now else now + SLACK }

  /** The clock at an occurrence of a calendar rule: on a date the rule picks, its hour and minute, unless they
      are skipped on that date. */
  lemma ClockAtOccurrence(rule: Rule, z: Zone, o: real) returns (day: int, t: int)
    requires WellFormed(z) && rule.Calendar() && rule.Valid() && IsOccurrence(rule, z, o)
    ensures rule.Matches(day) && o == t as real * 60.0
    ensures Shows(z, t, day, rule.hour, rule.minute) || forall u :: !Shows(z, u, day, rule.hour, rule.minute)
  {
    day :| rule.Matches(day) && o == RunOn(rule, z, day);
    t := Resolved(z, day, rule.hour, rule.minute);
    ClockAtResolved(z, day, rule.hour, rule.minute);
  }

  /** Intervals on the clock of a zone without transitions, anchored at a whole minute: an interval of hours keeps
      the minute, one of days the time of day, one of weeks the weekday too. */
  lemma TicksOnTheClock(rule: Rule, z: Zone, t: int, k: nat) returns (u: int)
    requires rule.Interval? && z.Fixed? && rule.anchor == Seconds(t)
    ensures IntervalTick(rule, k) == Seconds(u)
    ensures var first, now, n := Local(z, t), Local(z, u), k * rule.every;
            match rule.each
            case Minutes => now == first + n
            case Hours => now / 60 == first / 60 + n && now % 60 == first % 60
            case Days => now / 1440 == first / 1440 + n && now % 1440 == first % 1440
            case Weeks => now / 1440 == first / 1440 + 7 * n && now % 1440 == first % 1440
  {
    var n, first := k * rule.every, Local(z, t);
    match rule.each {
      case Minutes =>
        u := t + n;
        SameProduct(k, rule.every, 60);
      case Hours =>
        u := t + 60 * n;
        SameProduct(k, rule.every, 3600);
        PeriodsLater(first, n, 60);
      case Days =>
        u := t + 1440 * n;
        SameProduct(k, rule.every, 86400);
        PeriodsLater(first, n, 1440);
      case Weeks =>
        u := t + 10080 * n;
        SameProduct(k, rule.every, 604800);
        PeriodsLater(first, 7 * n, 1440);
    }
  }

  lemma SameProduct(k: int, every: int, c: int)
    ensures k * (every * c) == c * (k * every)
  {
  }

  lemma PeriodsLater(x: int, n: int, period: int)
    requires period > 0
    ensures (x + period * n) / period == x / period + n && (x + period * n) % period == x % period
  {
    var q, r, y := x / period, x % period, x + period * n;
    assert y == period * (q + n) + r by { assert period * (q + n) == period * q + period * n; }
    QuotientIs(y, q + n, r, period);
  }

  lemma QuotientIs(y: int, q: int, r: int, period: int)
    requires period > 0 && 0 <= r < period && y == period * q + r
    ensures y / period == q && y % period == r
  {
    var d := y / period - q;
    assert period * (y / period) == period * q + period * d;
    assert period * d + y % period == r;
    assert (d >= 1 ==> period * d >= period) && (d <= -1 ==> period * d <= -period);
  }

  // ----- The next occurrence -----

  function ScanForward(rule: Rule, z: Zone, day: int, after: real, offset: nat): Outcome
    requires rule.Calendar()
    decreases SCAN_DAYS - offset
  {
    if offset >= SCAN_DAYS then Raised
    else if !rule.Matches(day + offset) then ScanForward(rule, z, day, after, offset + 1)
    else match ResolvedWall(z, day + offset, rule.hour, rule.minute)
         case None => Raised
         case Some(t) =>
           if Seconds(t) > after + SLACK then At(Seconds(t)) else ScanForward(rule, z, day, after, offset + 1)
  }

  function NextOccurrence(rule: Rule, z: Zone, after: real): Outcome
    requires rule.Valid()
  {
    match rule
    case Once(a) => if a > after + SLACK then At(a) else NoOccurrence
    case Interval(_, _, a) =>
      if a > after + SLACK then At(a)
      else At(IntervalTick(rule, ((after - a) / rule.Step() as real).Floor + 1))
    case _ => ScanForward(rule, z, Today(z, after), after, 0)
  }

  lemma FloorBounds(x: real, s: real)
    requires s > 0.0
    ensures var f := (x / s).Floor as real; f * s <= x && x < (f + 1.0) * s
  {
    var y := x / s;
    var f := y.Floor as real;
    assert y * s == x;
    assert f <= y < f + 1.0;
    ScaleUp(f, y, s);
    var g := f + 1.0;
    ScaleUp(y, g, s);
    assert x < g * s;
    assert g * s == (f + 1.0) * s;
  }

  lemma CastProduct(a: int, b: int)
    ensures (a * b) as real == a as real * b as real
  {
  }

  lemma FloorOfQuotient(x: real, step: int)
    requires step > 0
    ensures var q := (x / step as real).Floor; (q * step) as real <= x < ((q + 1) * step) as real
  {
    FloorBounds(x, step as real);
    CastProduct((x / step as real).Floor, step);
    CastProduct((x / step as real).Floor + 1, step);
  }

  lemma ScaleUp(a: real, b: real, s: real)
    requires s > 0.0
    ensures a <= b ==> a * s <= b * s
    ensures a < b ==> a * s < b * s
  {
    assert b * s - a * s == (b - a) * s;
  }

  lemma TicksIncrease(rule: Rule, j: int, k: int)
    requires rule.Interval? && rule.Valid() && j <= k
    ensures IntervalTick(rule, j) <= IntervalTick(rule, k)
    ensures j < k ==> IntervalTick(rule, j) < IntervalTick(rule, k)
  {
    assert (k - j) * rule.Step() == k * rule.Step() - j * rule.Step();
  }

  /** Day 4, 5 January 1970, is a Monday: weekday rules match its first five days, a weekly rule the day of its
      number, and every calendar rule repeats each week. */
  lemma MatchingDays(rule: Rule, day: int, k: nat)
    requires rule.Calendar() && k < 7
    ensures rule.Matches(day + 7) <==> rule.Matches(day)
    ensures rule.Weekdays? ==> (rule.Matches(4 + k) <==> k < 5)
    ensures rule.Weekly? ==> (rule.Matches(4 + k) <==> k == rule.weekday)
  {
    assert (day + 7 + 3) % 7 == (day + 3) % 7;
  }

  lemma WeekdayAhead(day: int, w: int)
    requires 0 <= w < 7
    ensures (day + (w - (day + 3)) % 7 + 3) % 7 == w
  {
    var q := (w - (day + 3)) / 7;
    assert day + (w - (day + 3)) % 7 + 3 == w - 7 * q;
  }

  lemma WorkdayAhead(day: int)
    ensures (day + 3) % 7 >= 5 ==> (day + 5) % 7 < 5
  {
  }

  /** Every run of seven days has a day the rule picks. */
  lemma MatchWithinAWeek(rule: Rule, day: int) returns (pick: int)
    requires rule.Calendar() && rule.Valid()
    ensures day <= pick < day + 7 && rule.Matches(pick)
  {
    match rule
    case Daily(_, _) => pick := day;
    case Weekdays(_, _) =>
      WorkdayAhead(day);
      pick := if (day + 3) % 7 < 5 then day else day + 2;
    case Weekly(_, _, w) =>
      WeekdayAhead(day, w);
      pick := day + (w - (day + 3)) % 7;
  }

  /** Days before the local date of `now` are already due; a day at least three ahead is not. */
  lemma DueByLocalDate(z: Zone, t: int, day: int, hour: int, minute: int)
    requires WellFormed(z) && 0 <= hour < 24 && 0 <= minute < 60
    ensures day < DayOf(z, t) ==> Resolved(z, day, hour, minute) <= t
    ensures DayOf(z, t) + 3 <= day ==> t < Resolved(z, day, hour, minute)
  {
    ResolvedIsEarliest(z, day, hour, minute);
    OffsetWithinADay(z, t);
    OffsetWithinADay(z, Resolved(z, day, hour, minute));
  }

  lemma RunsIncrease(rule: Rule, z: Zone, day: int, later: int)
    requires WellFormed(z) && rule.Calendar() && day < later
    ensures RunOn(rule, z, day) < RunOn(rule, z, later)
  {
    ResolvedStrictlyIncreases(z, day, later, rule.hour, rule.minute);
  }

  lemma ScanForwardUnfold(rule: Rule, z: Zone, day: int, after: real, offset: nat)
    requires WellFormed(z) && rule.Calendar() && offset < SCAN_DAYS
    ensures ScanForward(rule, z, day, after, offset) ==
            if rule.Matches(day + offset) && RunOn(rule, z, day + offset) > after + SLACK
            then At(RunOn(rule, z, day + offset)) else ScanForward(rule, z, day, after, offset + 1)
  {
    ResolvedIsEarliest(z, day + offset, rule.hour, rule.minute);
  }

  /** The forward scan stops at the first picked day that runs late enough. */
  lemma {:induction false} ScanForwardFindsFirst(
    rule: Rule, z: Zone, day: int, after: real, offset: nat, good: int) returns (first: int)
    requires WellFormed(z) && rule.Calendar()
    requires day + offset <= good < day + SCAN_DAYS
    requires rule.Matches(good) && RunOn(rule, z, good) > after + SLACK
    ensures day + offset <= first <= good && rule.Matches(first) && RunOn(rule, z, first) > after + SLACK
    ensures ScanForward(rule, z, day, after, offset) == At(RunOn(rule, z, first))
    ensures forall d :: day + offset <= d < first && rule.Matches(d) ==> RunOn(rule, z, d) <= after + SLACK
    decreases good - day - offset
  {
    ScanForwardUnfold(rule, z, day, after, offset);
    if rule.Matches(day + offset) && RunOn(rule, z, day + offset) > after + SLACK {
      first := day + offset;
    } else {
      first := ScanForwardFindsFirst(rule, z, day, after, offset + 1, good);
    }
  }

  /** Runs of different days are whole minutes apart. */
  lemma RunsAreApart(rule: Rule, z: Zone, day: int, later: int)
    requires WellFormed(z) && rule.Calendar() && day < later
    ensures RunOn(rule, z, day) + 60.0 <= RunOn(rule, z, later)
  {
    ResolvedStrictlyIncreases(z, day, later, rule.hour, rule.minute);
    MinutesApart(Resolved(z, day, rule.hour, rule.minute), Resolved(z, later, rule.hour, rule.minute));
  }

  lemma MinutesApart(t: int, u: int)
    requires t < u
    ensures Seconds(t) + 60.0 <= Seconds(u)
  {
    assert 60 * t + 60 <= 60 * u;
  }

  lemma DueInSeconds(rule: Rule, z: Zone, after: real, day: int)
    requires WellFormed(z) && rule.Calendar() && rule.Valid()
    ensures day < Today(z, after) ==> RunOn(rule, z, day) <= after + SLACK
    ensures Today(z, after) + 4 <= day ==> RunOn(rule, z, day) > after + SLACK
  {
    var t := MinuteOf(Clock(after));
    ClockIsClose(after);
    hide Clock;
    DueByLocalDate(z, t, day, rule.hour, rule.minute);
    if day < DayOf(z, t) { MinuteHasCome(Clock(after), Resolved(z, day, rule.hour, rule.minute)); }
    if DayOf(z, t) + 4 <= day {
      DueByLocalDate(z, t, day - 1, rule.hour, rule.minute);
      RunsAreApart(rule, z, day - 1, day);
      MinuteIsOver(Clock(after), Resolved(z, day - 1, rule.hour, rule.minute));
    }
  }

  lemma FirstRunIsLeast(rule: Rule, z: Zone, after: real, first: int)
    requires WellFormed(z) && rule.Calendar() && rule.Valid()
    requires forall d :: Today(z, after) <= d < first && rule.Matches(d) ==> RunOn(rule, z, d) <= after + SLACK
    ensures forall o :: IsOccurrence(rule, z, o) && o > after + SLACK ==> RunOn(rule, z, first) <= o
  {
    forall o | IsOccurrence(rule, z, o) && o > after + SLACK ensures RunOn(rule, z, first) <= o {
      var d :| rule.Matches(d) && o == RunOn(rule, z, d);
      DueInSeconds(rule, z, after, d);
      if first < d { RunsIncrease(rule, z, first, d); }
    }
  }

  lemma NextRunIsLeast(rule: Rule, z: Zone, after: real)
    requires WellFormed(z) && rule.Calendar() && rule.Valid()
    ensures var r := NextOccurrence(rule, z, after);
            && r.At? && IsOccurrence(rule, z, r.time) && r.time > after + SLACK
            && forall o :: IsOccurrence(rule, z, o) && o > after + SLACK ==> r.time <= o
  {
    var day := Today(z, after);
    var good := MatchWithinAWeek(rule, day + 4);
    DueInSeconds(rule, z, after, good);
    var first := ScanForwardFindsFirst(rule, z, day, after, 0, good);
    FirstRunIsLeast(rule, z, after, first);
  }

  /** The answer is the least occurrence past the cutoff, and there is one unless the rule runs once. */
  ghost predicate LeastToCome(rule: Rule, z: Zone, now: real, answer: Outcome)
    requires WellFormed(z)
  {
    var cutoff := Cutoff(rule, now);
    match answer
    case At(t) => IsOccurrence(rule, z, t) && cutoff < t && forall o :: IsOccurrence(rule, z, o) && cutoff < o ==> t <= o
    case NoOccurrence => rule.Once? && forall o :: IsOccurrence(rule, z, o) ==> o <= cutoff
    case Raised => false
  }

  /** `next_occurrence` never raises, and returns the least occurrence past the cutoff. */
  lemma NextOccurrenceIsLeast(rule: Rule, z: Zone, after: real)
    requires WellFormed(z) && rule.Valid()
    ensures LeastToCome(rule, z, after, NextOccurrence(rule, z, after))
  {
    if rule.Interval? {
      NextTickIsLeast(rule, z, after);
    } else if rule.Calendar() {
      NextRunIsLeast(rule, z, after);
    }
  }

  lemma NextTickIsLeast(rule: Rule, z: Zone, after: real)
    requires WellFormed(z) && rule.Interval? && rule.Valid()
    ensures var r := NextOccurrence(rule, z, after);
            && r.At? && IsOccurrence(rule, z, r.time) && r.time > after
            && forall o :: IsOccurrence(rule, z, o) && o > after ==> r.time <= o
  {
    var q := ((after - rule.anchor) / rule.Step() as real).Floor;
    FloorOfQuotient(after - rule.anchor, rule.Step());
    assert IntervalTick(rule, 0) == rule.anchor;
    if rule.anchor <= after + SLACK {
      assert q >= -1 by {
        if q + 1 <= -1 { TicksIncrease(rule, q + 1, -1); }
      }
      forall o | IsOccurrence(rule, z, o) && o > after ensures IntervalTick(rule, q + 1) <= o {
        var k: nat :| o == IntervalTick(rule, k);
        if k <= q { TicksIncrease(rule, k, q); } else { TicksIncrease(rule, q + 1, k); }
      }
    } else {
      forall o | IsOccurrence(rule, z, o) ensures rule.anchor <= o {
        var k: nat :| o == IntervalTick(rule, k);
        TicksIncrease(rule, 0, k);
      }
    }
  }

  // ----- The newest due occurrence -----

  function ScanBack(rule: Rule, z: Zone, day: int, earliest: real, now: real, offset: nat): Outcome
    requires rule.Calendar()
    decreases SCAN_DAYS - offset
  {
    if offset >= SCAN_DAYS then NoOccurrence
    else if !rule.Matches(day - offset) then ScanBack(rule, z, day, earliest, now, offset + 1)
    else match ResolvedWall(z, day - offset, rule.hour, rule.minute)
         case None => Raised
         case Some(t) =>
           if earliest - SLACK <= Seconds(t) <= now + SLACK then At(Seconds(t))
           else ScanBack(rule, z, day, earliest, now, offset + 1)
  }

  function LatestDue(rule: Rule, z: Zone, earliest: real, now: real): Outcome
    requires rule.Valid()
  {
    if earliest > now + SLACK then NoOccurrence
    else match rule
      case Once(a) => if earliest - SLACK <= a <= now + SLACK then At(a) else NoOccurrence
      case Interval(_, _, a) =>
        if now < a then NoOccurrence
        else
          var tick := IntervalTick(rule, ((now - a) / rule.Step() as real).Floor);
          if tick >= earliest - SLACK then At(tick) else NoOccurrence
      case _ => ScanBack(rule, z, Today(z, now), earliest, now, 0)
  }

  /** The answer is the greatest occurrence up to the cutoff, unless that one is before `earliest`, give or
      take the slack. */
  ghost predicate NewestDue(rule: Rule, z: Zone, earliest: real, now: real, answer: Outcome)
    requires WellFormed(z)
  {
    var low, cutoff := earliest - SLACK, Cutoff(rule, now);
    match answer
    case At(t) =>
      IsOccurrence(rule, z, t) && low <= t <= cutoff && forall o :: IsOccurrence(rule, z, o) && o <= cutoff ==> o <= t
    case NoOccurrence => forall o :: IsOccurrence(rule, z, o) && o <= cutoff ==> o < low
    case Raised => false
  }

  /** The local date at `now` is the latest local date the zone shows up to the slack past `now`. */
  ghost predicate DatePeak(z: Zone, now: real)
  {
    forall u :: u <= MinuteOf(now + SLACK) ==> DayOf(z, u) <= Today(z, now)
  }

  predicate Due(rule: Rule, z: Zone, earliest: real, now: real, day: int)
    requires WellFormed(z) && rule.Calendar()
  {
    rule.Matches(day) && earliest - SLACK <= RunOn(rule, z, day) <= now + SLACK
  }

  lemma ScanBackUnfold(rule: Rule, z: Zone, day: int, earliest: real, now: real, offset: nat)
    requires WellFormed(z) && rule.Calendar() && offset < SCAN_DAYS
    ensures ScanBack(rule, z, day, earliest, now, offset) ==
            if Due(rule, z, earliest, now, day - offset)
            then At(RunOn(rule, z, day - offset)) else ScanBack(rule, z, day, earliest, now, offset + 1)
  {
    ResolvedIsEarliest(z, day - offset, rule.hour, rule.minute);
  }

  /** The backward scan stops at the last due day, or has passed over every day it covers. */
  lemma {:induction false} ScanBackFindsLast(
    rule: Rule, z: Zone, day: int, earliest: real, now: real, offset: nat) returns (last: int)
    requires WellFormed(z) && rule.Calendar() && offset <= SCAN_DAYS
    ensures last <= day - offset
    ensures forall d :: last < d <= day - offset ==> !Due(rule, z, earliest, now, d)
    ensures ScanBack(rule, z, day, earliest, now, offset) ==
            if Due(rule, z, earliest, now, last) && day - SCAN_DAYS < last
            then At(RunOn(rule, z, last)) else NoOccurrence
    ensures ScanBack(rule, z, day, earliest, now, offset).NoOccurrence? ==> last == day - SCAN_DAYS
    decreases SCAN_DAYS - offset
  {
    last := day - offset;
    if offset < SCAN_DAYS {
      ScanBackUnfold(rule, z, day, earliest, now, offset);
      if !Due(rule, z, earliest, now, day - offset) {
        last := ScanBackFindsLast(rule, z, day, earliest, now, offset + 1);
      }
    }
  }

  lemma NotDueAfterPeak(rule: Rule, z: Zone, now: real, day: int)
    requires WellFormed(z) && rule.Calendar() && rule.Valid()
    requires DatePeak(z, now) && Today(z, now) < day
    ensures now + SLACK < RunOn(rule, z, day)
  {
    var r := Resolved(z, day, rule.hour, rule.minute);
    ResolvedIsEarliest(z, day, rule.hour, rule.minute);
    assert r <= MinuteOf(now + SLACK) ==> DayOf(z, r) <= Today(z, now);
    MinuteIsOver(now + SLACK, r);
  }

  lemma OrderAtPeak(rule: Rule, z: Zone, now: real, d: int, e: int)
    requires WellFormed(z) && rule.Calendar() && rule.Valid() && DatePeak(z, now)
    requires RunOn(rule, z, d) <= now + SLACK
    ensures d <= Today(z, now)
    ensures d < e ==> RunOn(rule, z, d) < RunOn(rule, z, e)
  {
    if Today(z, now) < d { NotDueAfterPeak(rule, z, now, d); }
    if d < e { RunsIncrease(rule, z, d, e); }
  }

  lemma LastDueIsNewest(rule: Rule, z: Zone, earliest: real, now: real, last: int)
    requires WellFormed(z) && rule.Calendar() && rule.Valid() && DatePeak(z, now)
    requires Due(rule, z, earliest, now, last)
    requires forall d :: last < d <= Today(z, now) ==> !Due(rule, z, earliest, now, d)
    ensures NewestDue(rule, z, earliest, now, At(RunOn(rule, z, last)))
  {
    hide DatePeak;
    forall o | IsOccurrence(rule, z, o) && o <= now + SLACK ensures o <= RunOn(rule, z, last) {
      var d :| rule.Matches(d) && o == RunOn(rule, z, d);
      OrderAtPeak(rule, z, now, d, last);
      if last < d { assert !Due(rule, z, earliest, now, d); }
    }
  }

  lemma NoneDue(rule: Rule, z: Zone, earliest: real, now: real)
    requires WellFormed(z) && rule.Calendar() && rule.Valid() && DatePeak(z, now)
    requires var day := Today(z, now);
             forall d :: day - SCAN_DAYS < d <= day ==> !Due(rule, z, earliest, now, d)
    ensures NewestDue(rule, z, earliest, now, NoOccurrence)
  {
    hide DatePeak;
    var day := Today(z, now);
    var recent := MatchWithinAWeek(rule, day - 7);
    DueInSeconds(rule, z, now, recent);
    assert !Due(rule, z, earliest, now, recent);
    forall o | IsOccurrence(rule, z, o) && o <= now + SLACK ensures o < earliest - SLACK {
      var d :| rule.Matches(d) && o == RunOn(rule, z, d);
      OrderAtPeak(rule, z, now, d, recent);
      if recent < d { assert !Due(rule, z, earliest, now, d); }
    }
  }

  lemma NewestRunAtPeak(rule: Rule, z: Zone, earliest: real, now: real)
    requires WellFormed(z) && rule.Calendar() && rule.Valid()
    requires DatePeak(z, now) && earliest <= now + SLACK
    ensures NewestDue(rule, z, earliest, now, LatestDue(rule, z, earliest, now))
  {
    hide DatePeak, NewestDue;
    var day := Today(z, now);
    assert LatestDue(rule, z, earliest, now) == ScanBack(rule, z, day, earliest, now, 0);
    var last := ScanBackFindsLast(rule, z, day, earliest, now, 0);
    if ScanBack(rule, z, day, earliest, now, 0).NoOccurrence? {
      NoneDue(rule, z, earliest, now);
    } else {
      LastDueIsNewest(rule, z, earliest, now, last);
    }
  }

  /** The tick at the floor of the quotient is the newest one not after `now`. */
  lemma NewestTickIndex(rule: Rule, z: Zone, now: real) returns (k: nat)
    requires WellFormed(z) && rule.Interval? && rule.Valid() && rule.anchor <= now
    ensures k == ((now - rule.anchor) / rule.Step() as real).Floor && IntervalTick(rule, k) <= now
    ensures forall o :: IsOccurrence(rule, z, o) && o <= now ==> o <= IntervalTick(rule, k)
  {
    var q := ((now - rule.anchor) / rule.Step() as real).Floor;
    FloorOfQuotient(now - rule.anchor, rule.Step());
    assert IntervalTick(rule, 0) == rule.anchor;
    assert IntervalTick(rule, q) <= now < IntervalTick(rule, q + 1);
    if q + 1 <= 0 { TicksIncrease(rule, q + 1, 0); }
    k := q;
    forall o | IsOccurrence(rule, z, o) && o <= now ensures o <= IntervalTick(rule, q) {
      var j: nat :| o == IntervalTick(rule, j);
      if q + 1 <= j { TicksIncrease(rule, q + 1, j); } else { TicksIncrease(rule, j, q); }
    }
  }

  lemma NewestTick(rule: Rule, z: Zone, earliest: real, now: real)
    requires WellFormed(z) && rule.Interval? && rule.Valid() && earliest <= now + SLACK
    ensures NewestDue(rule, z, earliest, now, LatestDue(rule, z, earliest, now))
  {
    if rule.anchor <= now {
      var k := NewestTickIndex(rule, z, now);
      assert IsOccurrence(rule, z, IntervalTick(rule, k));
    } else {
      forall o | IsOccurrence(rule, z, o) ensures rule.anchor <= o {
        var k: nat :| o == IntervalTick(rule, k);
        assert IntervalTick(rule, 0) == rule.anchor;
        TicksIncrease(rule, 0, k);
      }
    }
  }

  /** Nothing is due before it may be. */
  lemma NothingIsDueEarly(rule: Rule, z: Zone, earliest: real, now: real)
    requires rule.Valid() && now + 0.000001 < earliest
    ensures LatestDue(rule, z, earliest, now) == NoOccurrence
  {
  }

  /** Missed cadence collapses to one run: `latest_due_occurrence` is the greatest occurrence up to the cutoff,
      `next_occurrence` the least one past it, and nothing lies between them. A calendar rule needs the local
      date to be at a peak. */
  lemma LatestAndNextBracketNow(rule: Rule, z: Zone, earliest: real, now: real)
    requires WellFormed(z) && rule.Valid() && earliest <= now + SLACK
    requires rule.Calendar() ==> DatePeak(z, now)
    ensures NewestDue(rule, z, earliest, now, LatestDue(rule, z, earliest, now))
    ensures LeastToCome(rule, z, now, NextOccurrence(rule, z, now))
    ensures var due, next := LatestDue(rule, z, earliest, now), NextOccurrence(rule, z, now);
            due.At? && next.At? ==>
              due.time <= Cutoff(rule, now) < next.time
              && forall o :: IsOccurrence(rule, z, o) ==> o <= due.time || next.time <= o
  {
    hide DatePeak;
    NextOccurrenceIsLeast(rule, z, now);
    match rule
    case Once(_) =>
    case Interval(_, _, _) => NewestTick(rule, z, earliest, now);
    case _ => NewestRunAtPeak(rule, z, earliest, now);
  }

  /** Away from a local-date peak a run is missed: the midnight occurrence of the date the zone has already
      reached, or reaches within the slack, is due, and the scan, which starts at the current local date, does
      not see it. */
  lemma MissedOffPeak(z: Zone, now: real) returns (earliest: real)
    requires WellFormed(z) && !DatePeak(z, now)
    ensures earliest <= now + SLACK && IsOccurrence(Daily(0, 0), z, earliest)
    ensures LatestDue(Daily(0, 0), z, earliest, now) == NoOccurrence
  {
    var rule := Daily(0, 0);
    var day := Today(z, now);
    var u :| u <= MinuteOf(now + SLACK) && day < DayOf(z, u);
    earliest := RunOn(rule, z, day + 1);
    ResolvedIsEarliest(z, day + 1, 0, 0);
    assert Resolved(z, day + 1, 0, 0) <= u;
    MinuteHasCome(now + SLACK, Resolved(z, day + 1, 0, 0));
    var _ := ScanBackFindsLast(rule, z, day, earliest, now, 0);
    forall d | d <= day ensures !Due(rule, z, earliest, now, d) {
      RunsAreApart(rule, z, d, day + 1);
    }
    assert rule.Matches(day + 1);
  }

  /** Exactly when `latest_due_occurrence` is right for every calendar rule: the local date at `now` is a
      peak. It is not when a fall-back transition has crossed midnight, or shortly before midnight. */
  lemma LatestDueIsRightIffPeak(z: Zone, now: real)
    requires WellFormed(z)
    ensures DatePeak(z, now) <==>
            forall rule: Rule, earliest: real ::
              rule.Valid() && rule.Calendar() && earliest <= now + SLACK ==>
                NewestDue(rule, z, earliest, now, LatestDue(rule, z, earliest, now))
  {
    if DatePeak(z, now) {
      forall rule: Rule, earliest: real |
        rule.Valid() && rule.Calendar() && earliest <= now + SLACK
        ensures NewestDue(rule, z, earliest, now, LatestDue(rule, z, earliest, now))
      {
        NewestRunAtPeak(rule, z, earliest, now);
      }
    } else {
      var earliest := MissedOffPeak(z, now);
      assert Daily(0, 0).Valid() && Daily(0, 0).Calendar();
      assert !NewestDue(Daily(0, 0), z, earliest, now, LatestDue(Daily(0, 0), z, earliest, now));
    }
  }

  /** Shortly before a midnight, within the slack but by more than half a microsecond, the run of that midnight
      is found by neither search: it is past for the next one, and on a day the latest one has not reached. */
  lemma MidnightRunIsSkipped(day: int, early: real)
    requires 0.0000005 < early <= 0.000001
    ensures var rule, z, now := Daily(0, 0), Fixed(0), Seconds(MINUTES_PER_DAY * day) - early;
            && IsOccurrence(rule, z, Seconds(MINUTES_PER_DAY * day))
            && LatestDue(rule, z, Seconds(MINUTES_PER_DAY * (day - 1)), now) == At(Seconds(MINUTES_PER_DAY * (day - 1)))
            && NextOccurrence(rule, z, now) == At(Seconds(MINUTES_PER_DAY * (day + 1)))
            && !DatePeak(z, now)
  {
    hide Clock;
    var rule, z, now := Daily(0, 0), Fixed(0), Seconds(MINUTES_PER_DAY * day) - early;
    var earliest := Seconds(MINUTES_PER_DAY * (day - 1));
    JustBefore(MINUTES_PER_DAY * day, early);
    assert Today(z, now) == day - 1 && DayOf(z, MinuteOf(now + SLACK)) == day;
    MidnightRun(day - 1);
    MidnightRun(day);
    MidnightRun(day + 1);
    assert rule.Matches(day);
    ScanBackUnfold(rule, z, day - 1, earliest, now, 0);
    ScanForwardUnfold(rule, z, day - 1, now, 0);
    ScanForwardUnfold(rule, z, day - 1, now, 1);
    ScanForwardUnfold(rule, z, day - 1, now, 2);
  }

  /** More than a microsecond before it, up to a day, the midnight run is the next one. */
  lemma MidnightRunIsNext(day: int, early: real)
    requires 0.000001 < early <= 86400.0
    ensures NextOccurrence(Daily(0, 0), Fixed(0), Seconds(MINUTES_PER_DAY * day) - early) == At(Seconds(MINUTES_PER_DAY * day))
  {
    MidnightRun(day - 1);
    MidnightRun(day);
    assert Seconds(MINUTES_PER_DAY * (day - 1)) == Seconds(MINUTES_PER_DAY * day) - 86400.0;
    NextDailyRun(Daily(0, 0), Fixed(0), Seconds(MINUTES_PER_DAY * day) - early, day);
  }

  lemma NextDailyRun(rule: Rule, z: Zone, now: real, day: int)
    requires WellFormed(z) && rule.Daily? && rule.Valid()
    requires RunOn(rule, z, day - 1) <= now + SLACK < RunOn(rule, z, day)
    ensures NextOccurrence(rule, z, now) == At(RunOn(rule, z, day))
  {
    hide RunOn, NextOccurrence, WellFormed;
    NextRunIsLeast(rule, z, now);
    assert rule.Matches(day) && IsOccurrence(rule, z, RunOn(rule, z, day));
    var d :| NextOccurrence(rule, z, now).time == RunOn(rule, z, d);
    if d < day - 1 { RunsIncrease(rule, z, d, day - 1); }
    if day < d { RunsIncrease(rule, z, day, d); }
  }

  /** In the last half microsecond before it, the clock already shows the midnight and its run is found. */
  lemma MidnightRunIsFound(day: int, early: real)
    requires 0.0 <= early <= 0.0000005
    ensures var rule, z, now := Daily(0, 0), Fixed(0), Seconds(MINUTES_PER_DAY * day) - early;
            LatestDue(rule, z, Seconds(MINUTES_PER_DAY * (day - 1)), now) == At(Seconds(MINUTES_PER_DAY * day))
  {
    var midnight := Seconds(MINUTES_PER_DAY * day);
    MidnightIsToday(day, early);
    MidnightRun(day);
    MinutesApart(MINUTES_PER_DAY * (day - 1), MINUTES_PER_DAY * day);
    hide Today, Seconds, RunOn, MINUTES_PER_DAY;
    assert Daily(0, 0).Matches(day);
    ScanBackUnfold(Daily(0, 0), Fixed(0), day, Seconds(MINUTES_PER_DAY * (day - 1)), midnight - early, 0);
  }

  lemma MidnightIsToday(day: int, early: real)
    requires 0.0 <= early <= 0.0000005
    ensures Today(Fixed(0), Seconds(MINUTES_PER_DAY * day) - early) == day
  {
    ClockShows(MINUTES_PER_DAY * day, early);
    hide Clock;
    MinuteShown(MINUTES_PER_DAY * day);
  }

  lemma MinuteShown(t: int)
    ensures MinuteOf(Seconds(t)) == t
  {
    assert Seconds(t).Floor == 60 * t;
  }

  lemma ClockShows(t: int, early: real)
    requires 0.0 <= early <= 0.0000005
    ensures Clock(Seconds(t) - early) == Seconds(t)
  {
    var micros := 60000000 * t;
    var y := (Seconds(t) - early) * 1000000.0;
    assert micros as real - 0.5 <= y <= micros as real;
    if early == 0.0 {
      assert y.Floor == micros;
    } else {
      assert y.Floor == micros - 1;
      assert (micros - 1) % 2 == 1;
    }
    assert HalfEven(y) == micros;
  }

  lemma MidnightRun(day: int)
    ensures RunOn(Daily(0, 0), Fixed(0), day) == Seconds(MINUTES_PER_DAY * day)
  {
    var wall := MINUTES_PER_DAY * day;
    assert WallMinute(day, 0, 0) == wall && RoundTrips(Fixed(0), wall) && Instant(Fixed(0), wall) == wall;
  }

  lemma JustBefore(t: int, early: real)
    requires 0.0000005 < early <= SLACK
    ensures MinuteOf(Clock(Seconds(t) - early)) == t - 1 && MinuteOf(Seconds(t) - early + SLACK) == t
  {
    var x := Seconds(t) - early;
    ClockIsClose(x);
    ClockKeepsSeconds(x, 60 * t - 1);
    hide Clock;
    assert Clock(x).Floor == 60 * t - 1;
    assert (x + SLACK).Floor == 60 * t;
  }

  /** A zone that falls back an hour at one minute past midnight, as Newfoundland did. */
  const FALL_BACK_PAST_MIDNIGHT := Shifted(Fixed(-150), 1591, -210)

  /** After the transition the local date is no peak, nor in the last half microsecond before it. */
  lemma DateRunsBackwards(early: real)
    requires 0.0 <= early <= 0.0000005
    ensures WellFormed(FALL_BACK_PAST_MIDNIGHT) && !DatePeak(FALL_BACK_PAST_MIDNIGHT, Seconds(1591) - early)
  {
    ClockShows(1591, early);
    assert MinuteOf(Seconds(1591)) == 1591;
    MinuteComes(Seconds(1591) - early + SLACK, 1591);
    assert DayOf(FALL_BACK_PAST_MIDNIGHT, 1590) == 1 && DayOf(FALL_BACK_PAST_MIDNIGHT, 1591) == 0;
  }
}
