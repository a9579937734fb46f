/** The pure rules of app/services/rules.py that concern days, caps and the play lock.
    A moment is a whole number of microseconds, which is the resolution of Python's datetime. */
module Rules {
  import opened Base

  type Moment = int
  type Day = int

  const SECOND := 1_000_000
  const MINUTE := 60 * SECOND
  const HOUR := 3600 * SECOND
  const DAY := 24 * HOUR

  /** Asia/Jakarta, the zone the application defaults to, is seven hours east of UTC all year. */
  const APP_TZ := 7 * HOUR

  type Week = w: seq<int> | |w| == 7 witness [0, 0, 0, 0, 0, 0, 0]

  /** Day 0 is 1970-01-01, a Thursday; Monday is weekday 0. */
  function Weekday(day: Day): (w: int)
    ensures 0 <= w < 7
  {
    (day + 3) % 7
  }

  function CapFor(day: Day, caps: Week): int {
    caps[Weekday(day)]
  }

  function GrantFor(day: Day, grants: Week): int {
    grants[Weekday(day)]
  }

  /** What the caps of the days from `lo` up to, but not including, `hi` allow together. */
  function CapsBetween(caps: Week, lo: Day, hi: Day): int
    decreases hi - lo
  {
    if lo >= hi then 0 else CapsBetween(caps, lo, hi - 1) + Max(0, CapFor(hi - 1, caps))
  }

  function WeekOf(caps: Week): int {
    Max(0, caps[0]) + Max(0, caps[1]) + Max(0, caps[2]) + Max(0, caps[3]) + Max(0, caps[4]) + Max(0, caps[5])
    + Max(0, caps[6])
  }

  lemma NextCap(caps: Week, lo: Day, hi: Day)
    requires lo <= hi
    ensures CapsBetween(caps, lo, hi + 1) == CapsBetween(caps, lo, hi) + Max(0, CapFor(hi, caps))
  {
  }

  lemma SevenCaps(caps: Week, day: Day)
    ensures CapsBetween(caps, day, day + 7)
            == Max(0, CapFor(day, caps)) + Max(0, CapFor(day + 1, caps)) + Max(0, CapFor(day + 2, caps))
               + Max(0, CapFor(day + 3, caps)) + Max(0, CapFor(day + 4, caps)) + Max(0, CapFor(day + 5, caps))
               + Max(0, CapFor(day + 6, caps))
  {
    assert CapsBetween(caps, day, day) == 0;
    NextCap(caps, day, day);
    NextCap(caps, day, day + 1);
    NextCap(caps, day, day + 2);
    NextCap(caps, day, day + 3);
    NextCap(caps, day, day + 4);
    NextCap(caps, day, day + 5);
    NextCap(caps, day, day + 6);
  }

  lemma CapAfter(caps: Week, day: Day, k: nat)
    requires k < 7
    ensures var w := Weekday(day) + k;
            CapFor(day + k, caps) == caps[if w < 7 then w else w - 7]
  {
  }

  /** Any seven consecutive days use every cap of the week once, whichever day they begin with; and day
      20703 (7 September 2026) uses Monday's. Allowances are read off their week like caps. */
  lemma SevenDaysUseTheWeek(caps: Week, day: Day)
    ensures CapsBetween(caps, day, day + 7) == WeekOf(caps)
    ensures CapFor(20703, caps) == caps[0]
    ensures GrantFor(day, caps) == CapFor(day, caps)
  {
    SevenCaps(caps, day);
    CapAfter(caps, day, 1);
    CapAfter(caps, day, 2);
    CapAfter(caps, day, 3);
    CapAfter(caps, day, 4);
    CapAfter(caps, day, 5);
    CapAfter(caps, day, 6);
  }

  function DayKey(at: Moment, resetHour: int, tz: int): Day {
    (at + tz - resetHour * HOUR) / DAY
  }

  /** Microseconds until the next local occurrence of the reset hour, never zero. */
  function UntilReset(at: Moment, resetHour: int, tz: int): int {
    var local := at + tz;
    var todays := local / DAY * DAY + resetHour * HOUR;
    (if todays <= local then todays + DAY else todays) - local
  }

  function SecondsUntilReset(at: Moment, resetHour: int, tz: int): int {
    UntilReset(at, resetHour, tz) / SECOND
  }

  lemma DivisionIsUnique(n: int, q: int)
    requires q * DAY <= n < (q + 1) * DAY
    ensures n / DAY == q
  {
  }

  /** The key of a later moment is the same key exactly until the reset, and the next one for exactly a day. */
  lemma ResetBoundary(at: Moment, resetHour: int, tz: int, later: int)
    requires 0 <= resetHour < 24 && 0 <= later
    ensures 0 < UntilReset(at, resetHour, tz) <= DAY
    ensures DayKey(at + later, resetHour, tz) == DayKey(at, resetHour, tz)
            <==> later < UntilReset(at, resetHour, tz)
    ensures DayKey(at + later, resetHour, tz) == DayKey(at, resetHour, tz) + 1
            <==> UntilReset(at, resetHour, tz) <= later < UntilReset(at, resetHour, tz) + DAY
  {
    var local := at + tz;
    var day := local / DAY;
    var key := DayKey(at, resetHour, tz);
    var until := UntilReset(at, resetHour, tz);
    assert local == day * DAY + local % DAY;
    assert key == if local % DAY >= resetHour * HOUR then day else day - 1 by {
      DivisionIsUnique(local - resetHour * HOUR, if local % DAY >= resetHour * HOUR then day else day - 1);
    }
    assert local + until == (key + 1) * DAY + resetHour * HOUR;
    var shifted := local + later - resetHour * HOUR;
    assert shifted == (key + 1) * DAY + (later - until);
    if later < until {
      DivisionIsUnique(shifted, key);
    } else if later < until + DAY {
      DivisionIsUnique(shifted, key + 1);
    } else {
      assert shifted >= (key + 2) * DAY;
      assert shifted / DAY >= key + 2;
    }
  }

  lemma SameRemainder(whole: int, local: int, until: int)
    requires until == whole * SECOND - local
    ensures until % SECOND == 0 <==> local % SECOND == 0
  {
  }

  lemma WholeSeconds(at: Moment, resetHour: int, tz: int)
    requires 0 <= resetHour < 24
    ensures 0 <= SecondsUntilReset(at, resetHour, tz)
    ensures (at + tz) % SECOND == 0
            <==> SecondsUntilReset(at, resetHour, tz) * SECOND == UntilReset(at, resetHour, tz)
  {
    ResetBoundary(at, resetHour, tz, 0);
    var local := at + tz;
    var until := UntilReset(at, resetHour, tz);
    var whole := local / DAY * 86400 + resetHour * 3600
                 + (if local / DAY * DAY + resetHour * HOUR <= local then 86400 else 0);
    assert until == whole * SECOND - local;
    assert local == local / SECOND * SECOND + local % SECOND;
    assert until == until / SECOND * SECOND + until % SECOND;
    SameRemainder(whole, local, until);
  }

  /** The countdown shown to the player is truncated to whole seconds: no moment before it elapses
      changes the key, at the very second it elapses the key has advanced exactly when the reading
      was taken on a whole local second, and one second later it always has. */
  lemma {:induction false} CountdownIsSafe(at: Moment, resetHour: int, tz: int, later: int)
    requires 0 <= resetHour < 24
    ensures 0 <= later < SecondsUntilReset(at, resetHour, tz) * SECOND
            ==> DayKey(at + later, resetHour, tz) == DayKey(at, resetHour, tz)
    ensures (at + tz) % SECOND == 0 <==>
            (DayKey(at + SecondsUntilReset(at, resetHour, tz) * SECOND, resetHour, tz)
             == DayKey(at, resetHour, tz) + 1)
    ensures DayKey(at + (SecondsUntilReset(at, resetHour, tz) + 1) * SECOND, resetHour, tz)
            == DayKey(at, resetHour, tz) + 1
  {
    var until := UntilReset(at, resetHour, tz);
    var shown := SecondsUntilReset(at, resetHour, tz);
    WholeSeconds(at, resetHour, tz);
    assert 0 <= until - shown * SECOND < SECOND;
    ResetBoundary(at, resetHour, tz, shown * SECOND);
    ResetBoundary(at, resetHour, tz, (shown + 1) * SECOND);
    if 0 <= later {
      ResetBoundary(at, resetHour, tz, later);
    }
  }

  /** Days are ordered like the moments they hold. */
  lemma DayKeyMonotonic(a: Moment, b: Moment, resetHour: int, tz: int)
    requires a <= b
    ensures DayKey(a, resetHour, tz) <= DayKey(b, resetHour, tz)
  {
  }

  const LEVELS := ["sd", "smp", "sma", "kuliah", "profesional"]

  /** A level the list does not name counts as the second. */
  function LevelIndex(level: string): (k: nat)
    ensures k < |LEVELS|
    ensures level in LEVELS ==> LEVELS[k] == level
  {
    if level == LEVELS[0] then 0 else if level == LEVELS[2] then 2 else if level == LEVELS[3] then 3
    else if level == LEVELS[4] then 4 else 1
  }

  function LevelFactor(declared: string, assessed: string): real {
    if LevelIndex(declared) <= LevelIndex(assessed) then 1.0 else 0.0
  }

  function IdleGap(lastStudyDay: Option<Day>, today: Day): Option<int> {
    match lastStudyDay
    case None => None
    case Some(last) => Some(today - last)
  }

  predicate LockedByIdle(lastStudyDay: Option<Day>, today: Day, allowed: int) {
    match IdleGap(lastStudyDay, today)
    case None => false
    case Some(gap) => gap > allowed
  }

  function PlayableSeconds(balance: int, dailyCap: int, spentToday: int, idleLocked: bool): int {
    if idleLocked then 0 else Max(0, Min(balance, dailyCap - spentToday))
  }

  datatype BlockReason = Unblocked | NoBalance | DailyCapReached | GuardianStale | Idle

  function BlockReasonFor(balance: int, dailyCap: int, spentToday: int, idleLocked: bool): BlockReason {
    if balance <= 0 then NoBalance
    else if idleLocked then Idle
    else if dailyCap - spentToday <= 0 then DailyCapReached
    else Unblocked
  }
}
