/** When a report is next due (app/services/report_schedule_service.py:21-35). Instants
    are microseconds since the start of 1970, a Thursday, in UTC. */
module Calendar {
  import opened Wrappers
  import opened Arith

  type Time = int

  const SECOND: int := 1_000_000
  const HOUR: int := 3_600_000_000
  const DAY: int := 86_400_000_000

  datatype Frequency = Daily | Weekly

  /** A schedule's delivery slot, as stored. */
  datatype Slot = Slot(frequency: Frequency, hour: int, dayOfWeek: Option<int>)

  datatype Problem = HourOutOfRange | NoValidWeekday

  /** Monday is 0. */
  function Weekday(t: Time): int { (t / DAY + 3) % 7 }

  /** Every day is one weekday on from the day before, and the first of 2024 was a Monday. */
  lemma WeekdayTurns(t: Time)
    ensures Weekday(t + 86_400_000_000) == (Weekday(t) + 1) % 7 && 0 <= Weekday(t) <= 6
    ensures 1_704_067_200_000_000 <= t < 1_704_067_200_000_000 + 86_400_000_000 ==> Weekday(t) == 0
  {
    ModUnique(t + DAY, DAY, t / DAY + 1, t % DAY);
  }

  predicate ValidSlot(s: Slot) {
    0 <= s.hour <= 23 && (s.frequency == Daily || (s.dayOfWeek.Some? && 0 <= s.dayOfWeek.value <= 6))
  }

  function NextRunAt(now: Time, s: Slot): Result<Time, Problem> {
    if s.hour < 0 || s.hour > 23 then Err(HourOutOfRange)
    else
      var candidate := now / DAY * DAY + s.hour * HOUR;
      if s.frequency == Daily then Ok(if candidate > now then candidate else candidate + DAY)
      else if s.dayOfWeek.None? || s.dayOfWeek.value < 0 || s.dayOfWeek.value > 6 then Err(NoValidWeekday)
      else
        var ahead := (s.dayOfWeek.value - Weekday(now)) % 7;
        var planned := candidate + ahead * DAY;
        Ok(if planned > now then planned else planned + 7 * DAY)
  }

  /** An instant at which the schedule delivers. */
  ghost predicate OnSlot(t: Time, s: Slot) {
    t % DAY == s.hour * HOUR && (s.frequency == Weekly ==> s.dayOfWeek == Some(Weekday(t)))
  }

  lemma DayOf(day: int, rest: int)
    requires 0 <= rest < DAY
    ensures (day * DAY + rest) / DAY == day && (day * DAY + rest) % DAY == rest
  {
    ModUnique(day * DAY + rest, DAY, day, rest);
  }

  /** Two slots of a daily schedule, a day apart at least. */
  lemma SlotsApart(t: Time, day: int, s: Slot)
    requires 0 <= s.hour <= 23 && t % DAY == s.hour * HOUR
    ensures t == t / DAY * DAY + s.hour * HOUR
    ensures t > day * DAY + s.hour * HOUR ==> t / DAY > day
    ensures t >= day * DAY ==> t / DAY >= day
  {
  }

  /** The first day from `today` on with the slot's weekday. */
  function FirstDay(today: int, s: Slot): int
    requires ValidSlot(s)
  {
    if s.frequency == Daily then today else today + (s.dayOfWeek.value - (today + 3) % 7) % 7
  }

  function Stride(s: Slot): int { if s.frequency == Daily then 1 else 7 }

  /** The days strictly between two slots, and before the first, are no slots. */
  lemma NoDayBetween(today: int, d: int, s: Slot)
    requires ValidSlot(s) && today <= d < FirstDay(today, s) + Stride(s) && d != FirstDay(today, s)
    ensures s.frequency == Weekly && (d + 3) % 7 != s.dayOfWeek.value
  {
  }

  lemma FirstDayFits(today: int, s: Slot)
    requires ValidSlot(s)
    ensures today <= FirstDay(today, s)
    ensures s.frequency == Weekly ==> (FirstDay(today, s) + 3) % 7 == s.dayOfWeek.value &&
                                      (FirstDay(today, s) + 7 + 3) % 7 == s.dayOfWeek.value
  {
  }

  lemma NextRunIs(now: Time, s: Slot)
    requires ValidSlot(s)
    ensures NextRunAt(now, s).Ok?
    ensures var first := FirstDay(now / DAY, s) * DAY + s.hour * HOUR;
            NextRunAt(now, s).value == if first > now then first else first + Stride(s) * DAY
  {
  }

  lemma NoSlotBetween(now: Time, t: Time, s: Slot)
    requires ValidSlot(s)
    requires var first := FirstDay(now / DAY, s) * DAY + s.hour * HOUR;
             now < t < if first > now then first else first + Stride(s) * DAY
    ensures !OnSlot(t, s)
  {
    var today, day := now / DAY, FirstDay(now / DAY, s);
    if t % DAY == s.hour * HOUR {
      SlotsApart(t, day, s);
      FirstDayFits(today, s);
      assert now >= today * DAY;
      SlotsApart(t, today, s);
      NoDayBetween(today, t / DAY, s);
    }
  }

  /** The answer is the first instant after `now` on the schedule's slot; it exists
      exactly for a valid slot. */
  lemma NextRunIsFirst(now: Time, s: Slot)
    ensures NextRunAt(now, s).Ok? <==> ValidSlot(s)
    ensures ValidSlot(s) ==>
              var r := NextRunAt(now, s).value;
              r > now && OnSlot(r, s) && forall t | now < t < r :: !OnSlot(t, s)
  {
    if ValidSlot(s) {
      var day := FirstDay(now / DAY, s);
      NextRunIs(now, s);
      FirstDayFits(now / DAY, s);
      DayOf(day, s.hour * HOUR);
      DayOf(day + Stride(s), s.hour * HOUR);
      assert (day + Stride(s)) * DAY == day * DAY + Stride(s) * DAY;
      forall t | now < t < NextRunAt(now, s).value
        ensures !OnSlot(t, s)
      {
        NoSlotBetween(now, t, s);
      }
    }
  }
}
