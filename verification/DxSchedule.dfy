/** The weekly schedule of a label: which days it is on, and between which times, possibly past midnight. */
module DxSchedule {
  import opened DxLabel

  /** Times are written base 100: 12:34 is 1234. */
  const DAY := 2400

  predicate NoDays(flags: bv32) { flags & DOW == 0 }

  function AllDays(flags: bv32): bv32 { flags | DOW }

  /** No times means the whole day, and no days means all of them. */
  function Repaired(l: Label): Label {
    var l1 := if l.begin == 0 && l.end == 0 then l.(end := DAY) else l;
    if NoDays(l1.flags) then l1.(flags := AllDays(l1.flags)) else l1
  }

  /** The bit of a weekday, Monday being 0. */
  predicate DayBit(flags: bv32, monday0: int)
    requires 0 <= monday0 < 7
  {
    (if flags & DOW == 0 then DOW else flags & DOW) & (MON >> monday0) != 0
  }

  /** The day test. `sunday0` is today's weekday with Sunday 0, `now` the time of day. */
  predicate DayOk(l: Label, sunday0: int, now: nat)
    requires 0 <= sunday0 < 7
  {
    var today := if sunday0 == 0 then 6 else sunday0 - 1;
    var yesterday := if today == 0 then 6 else today - 1;
    if l.begin > l.end then DayBit(l.flags, if now >= l.begin then today else yesterday) else DayBit(l.flags, today)
  }

  /** The time test. */
  predicate TimeOk(l: Label, now: nat) {
    var within := l.begin <= now < l.end;
    var withinRev := l.end <= now < l.begin;
    if l.begin > l.end then !withinRev else within
  }

  predicate Accepts(l: Label, sunday0: int, now: nat)
    requires 0 <= sunday0 < 7
  {
    var m := Repaired(l);
    DayOk(m, sunday0, now) && TimeOk(m, now)
  }

  // ---- what the schedule means ---------------------------------------------------------------------------

  /** Whether day number `day`, counted from some Monday, is one of the label's days; no days means all. */
  predicate OnDay(flags: bv32, day: int) {
    flags & 0xfe00 == 0 ||
    match day % 7
    case 0 => flags & 0x8000 != 0
    case 1 => flags & 0x4000 != 0
    case 2 => flags & 0x2000 != 0
    case 3 => flags & 0x1000 != 0
    case 4 => flags & 0x0800 != 0
    case 5 => flags & 0x0400 != 0
    case _ => flags & 0x0200 != 0
  }

  /** The first minute of a day that is not before a stored time, or the end of the day: what is stored need not be a
      time of day. */
  function Clock(hhmm: nat): nat {
    var m := hhmm / 100 * 60 + if hhmm % 100 < 60 then hhmm % 100 else 60;
    if m < 1440 then m else 1440
  }

  /** Minutes from the start of day 0 to a time of a day. */
  function Minute(day: int, hhmm: nat): int { day * 1440 + Clock(hhmm) }

  predicate IsTime(hhmm: nat) { hhmm % 100 < 60 && hhmm < DAY }

  /** The minute lies in the interval that starts on the given day: from begin to end, or to the end of the next
      day's early part when begin is later than end. No times means the whole day. */
  predicate Covers(l: Label, day: int, minute: int) {
    var end := if l.begin == 0 && l.end == 0 then DAY else l.end;
    Minute(day, l.begin) <= minute < Minute(if l.begin > end then day + 1 else day, end)
  }

  /** Against a time of day, minutes are in the order of the numbers stored. */
  lemma MinuteOrder(d: int, stored: nat, e: int, now: nat)
    requires IsTime(now)
    ensures d == e ==> (Minute(d, stored) <= Minute(e, now) <==> stored <= now)
    ensures d < e ==> Minute(d, stored) <= Minute(e, now)
    ensures d > e ==> Minute(d, stored) > Minute(e, now)
  {
    ClockOrder(stored, now);
  }

  lemma ClockOrder(stored: nat, now: nat)
    requires IsTime(now)
    ensures Clock(stored) <= Clock(now) <==> stored <= now
    ensures Clock(now) < 1440
  {
  }

  lemma BitIsDay(flags: bv32, day: int)
    ensures DayBit(flags, day % 7) <==> OnDay(flags, day)
  {
    var m := day % 7;
    if m == 0 { assert MON >> 0 == 0x8000; }
    else if m == 1 { assert MON >> 1 == 0x4000; }
    else if m == 2 { assert MON >> 2 == 0x2000; }
    else if m == 3 { assert MON >> 3 == 0x1000; }
    else if m == 4 { assert MON >> 4 == 0x0800; }
    else if m == 5 { assert MON >> 5 == 0x0400; }
    else { assert MON >> 6 == 0x0200; }
    MaskedBit(flags, m);
  }

  lemma MaskedBit(flags: bv32, m: int)
    requires 0 <= m < 7
    ensures flags & DOW != 0 ==> (flags & DOW & (MON >> m) != 0 <==> flags & (MON >> m) != 0)
    ensures DOW & (MON >> m) != 0
  {
  }

  /** Putting every day where there is none does not change the days. */
  lemma RepairKeepsDays(l: Label, day: int)
    ensures OnDay(Repaired(l).flags, day) <==> OnDay(l.flags, day)
  {
    if l.flags & DOW == 0 { AllDaysSet(l.flags); }
  }

  lemma AllDaysSet(flags: bv32)
    ensures (flags | DOW) & 0x8000 != 0 && (flags | DOW) & 0x4000 != 0 && (flags | DOW) & 0x2000 != 0
    ensures (flags | DOW) & 0x1000 != 0 && (flags | DOW) & 0x0800 != 0 && (flags | DOW) & 0x0400 != 0
    ensures (flags | DOW) & 0x0200 != 0
  {
  }

  /** Only the interval that starts today or, past midnight, the one that started yesterday can cover a minute of
      today. */
  lemma CoversExact(l: Label, d: int, day: int, now: nat)
    requires IsTime(now)
    ensures var end := Repaired(l).end;
      Covers(l, d, Minute(day, now)) <==>
      (d == day && l.begin <= now && (l.begin > end || now < end)) || (d == day - 1 && l.begin > end && now < end)
  {
    var end := Repaired(l).end;
    var stop := if l.begin > end then d + 1 else d;
    MinuteOrder(d, l.begin, day, now);
    MinuteOrder(stop, end, day, now);
  }

  /** For every minute of every day, the day and time tests together accept a label exactly when the interval
      starting on one of its days contains that minute. */
  lemma AcceptsExact(l: Label, day: int, now: nat)
    requires IsTime(now)
    ensures Accepts(l, (day + 1) % 7, now) <==>
            exists d: int :: OnDay(l.flags, d) && Covers(l, d, Minute(day, now))
  {
    hide DayBit, OnDay, Covers, Minute;
    var m := Repaired(l);
    forall d ensures Covers(l, d, Minute(day, now)) <==>
      (d == day && l.begin <= now && (l.begin > m.end || now < m.end)) || (d == day - 1 && l.begin > m.end && now < m.end)
    {
      CoversExact(l, d, day, now);
    }
    BitIsDay(m.flags, day);
    BitIsDay(m.flags, day - 1);
    RepairKeepsDays(l, day);
    RepairKeepsDays(l, day - 1);
    Weekdays(day);
  }

  lemma Weekdays(day: int)
    ensures var s := (day + 1) % 7; (if s == 0 then 6 else s - 1) == day % 7
    ensures var t := day % 7; (if t == 0 then 6 else t - 1) == (day - 1) % 7
  {
  }
}
