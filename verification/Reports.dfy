/** The day series of the guardian's report (app/routers/reports.py). */
module Reports {
  import opened Base
  import opened Rules
  import opened Ledger

  datatype Bucket = Bucket(earned: int, consumed: int)

  datatype DayPoint = DayPoint(day: Day, earned: int, consumed: int)

  function KeyOf(e: Entry, resetHour: int): Day {
    DayKey(e.occurredAt, resetHour, APP_TZ)
  }

  function EarnedBy(e: Entry, day: Day, resetHour: int): int {
    if e.Type() == EarnedType && KeyOf(e, resetHour) == day then e.delta else 0
  }

  function EarnedOn(log: seq<Entry>, day: Day, resetHour: int): int {
    if log == [] then 0
    else EarnedOn(log[..|log| - 1], day, resetHour) + EarnedBy(log[|log| - 1], day, resetHour)
  }

  function ConsumedBy(e: Entry, day: Day, resetHour: int): int {
    if e.Type() == ConsumedType && KeyOf(e, resetHour) == day then -e.delta else 0
  }

  function ConsumedOn(log: seq<Entry>, day: Day, resetHour: int): int {
    if log == [] then 0
    else ConsumedOn(log[..|log| - 1], day, resetHour) + ConsumedBy(log[|log| - 1], day, resetHour)
  }

  /** The rows the query fetches. */
  function Since(log: seq<Entry>, cutoff: Moment): seq<Entry> {
    if log == [] then []
    else if log[|log| - 1].occurredAt >= cutoff then Since(log[..|log| - 1], cutoff) + [log[|log| - 1]]
    else Since(log[..|log| - 1], cutoff)
  }

  function WindowOf(days: int): int {
    Min(Max(days, 1), 30)
  }

  function BucketOr0(buckets: map<Day, Bucket>, day: Day): Bucket {
    if day in buckets then buckets[day] else Bucket(0, 0)
  }

  /** An entry older than the cutoff belongs to a day before every day of the window, however much
      later the second clock reading is taken. */
  lemma CutoffPrecedesWindow(e: Entry, resetHour: int, window: int, asked: Moment, shown: Moment)
    requires asked <= shown && e.occurredAt < asked - (window + 1) * DAY
    ensures KeyOf(e, resetHour) <= DayKey(shown, resetHour, APP_TZ) - window
  {
    var aligned := e.occurredAt + (window + 1) * DAY;
    DayKeyMonotonic(aligned, shown, resetHour, APP_TZ);
    var n := e.occurredAt + APP_TZ - resetHour * HOUR;
    assert (n + (window + 1) * DAY) / DAY == n / DAY + window + 1;
  }

  lemma {:induction false} CutoffLosesNothing(log: seq<Entry>, resetHour: int, window: int, asked: Moment,
          shown: Moment, day: Day)
    requires asked <= shown && DayKey(shown, resetHour, APP_TZ) - window < day
    ensures EarnedOn(Since(log, asked - (window + 1) * DAY), day, resetHour) == EarnedOn(log, day, resetHour)
    ensures ConsumedOn(Since(log, asked - (window + 1) * DAY), day, resetHour) == ConsumedOn(log, day, resetHour)
    decreases |log|
  {
    if log == [] {
    } else {
      var cutoff := asked - (window + 1) * DAY;
      var e := log[|log| - 1];
      CutoffLosesNothing(log[..|log| - 1], resetHour, window, asked, shown, day);
      if e.occurredAt < cutoff {
        CutoffPrecedesWindow(e, resetHour, window, asked, shown);
      } else {
        assert Since(log, cutoff)[..|Since(log, cutoff)| - 1] == Since(log[..|log| - 1], cutoff);
      }
    }
  }

  /** The report lists exactly `window` consecutive days ending today, and each carries the sums over
      the entire ledger, although only part of the ledger is fetched and future entries may be in it. */
  method Report(log: seq<Entry>, resetHour: int, days: int, asked: Moment,
          shown: Moment) returns (series: seq<DayPoint>)
    requires asked <= shown
    ensures var window := WindowOf(days);
            var today := DayKey(shown, resetHour, APP_TZ);
            && |series| == window && 1 <= |series| <= 30 && (1 <= days <= 30 ==> |series| == days)
            && forall i :: 0 <= i < window ==>
                 var day := today - (window - 1) + i;
                 series[i] == DayPoint(day, EarnedOn(log, day, resetHour), ConsumedOn(log, day, resetHour))
  {
    var window := WindowOf(days);
    var entries := Since(log, asked - (window + 1) * DAY);

    var buckets: map<Day, Bucket> := map[];
    var n := 0;
    while n < |entries|
      invariant 0 <= n <= |entries|
      invariant forall day ::
                  BucketOr0(buckets, day)
                  == Bucket(EarnedOn(entries[..n], day, resetHour), ConsumedOn(entries[..n], day, resetHour))
    {
      var e := entries[n];
      assert entries[..n + 1][..n] == entries[..n];
      var k := KeyOf(e, resetHour);
      if k !in buckets {
        buckets := buckets[k := Bucket(0, 0)];
      }
      if e.Type() == EarnedType {
        buckets := buckets[k := buckets[k].(earned := buckets[k].earned + e.delta)];
      } else if e.Type() == ConsumedType {
        buckets := buckets[k := buckets[k].(consumed := buckets[k].consumed - e.delta)];
      }
      n := n + 1;
    }
    assert entries[..n] == entries;

    var today := DayKey(shown, resetHour, APP_TZ);
    series := [];
    var i := window - 1;
    while i >= 0
      invariant -1 <= i < window && |series| == window - 1 - i
      invariant forall j :: 0 <= j < |series| ==>
                  var day := today - (window - 1) + j;
                  series[j] == DayPoint(day, EarnedOn(log, day, resetHour), ConsumedOn(log, day, resetHour))
    {
      var day := today - i;
      var b := BucketOr0(buckets, day);
      CutoffLosesNothing(log, resetHour, window, asked, shown, day);
      series := series + [DayPoint(day, b.earned, b.consumed)];
      i := i - 1;
    }
  }

  ghost predicate KeysWithin(log: seq<Entry>, lo: Day, hi: Day, resetHour: int) {
    forall i :: 0 <= i < |log| ==> lo <= KeyOf(log[i], resetHour) < hi
  }

  function EarnedBetween(log: seq<Entry>, lo: Day, hi: Day, resetHour: int): int
    decreases hi - lo
  {
    if lo >= hi then 0 else EarnedBetween(log, lo, hi - 1, resetHour) + EarnedOn(log, hi - 1, resetHour)
  }

  function ConsumedBetween(log: seq<Entry>, lo: Day, hi: Day, resetHour: int): int
    decreases hi - lo
  {
    if lo >= hi then 0 else ConsumedBetween(log, lo, hi - 1, resetHour) + ConsumedOn(log, hi - 1, resetHour)
  }

  lemma {:induction false} BetweenAppended(log: seq<Entry>, e: Entry, lo: Day, hi: Day, resetHour: int)
    ensures var inside := lo <= KeyOf(e, resetHour) < hi;
            && EarnedBetween(log + [e], lo, hi, resetHour)
               == EarnedBetween(log, lo, hi, resetHour) + (if inside && e.origin.Earned? then e.delta else 0)
            && ConsumedBetween(log + [e], lo, hi, resetHour)
               == ConsumedBetween(log, lo, hi, resetHour) - (if inside && e.origin.Consumed? then e.delta else 0)
    decreases hi - lo
  {
    if lo >= hi {
    } else {
      BetweenAppended(log, e, lo, hi - 1, resetHour);
      assert (log + [e])[..|log|] == log;
    }
  }

  lemma {:induction false} NothingBetween(lo: Day, hi: Day, resetHour: int)
    ensures EarnedBetween([], lo, hi, resetHour) == 0 && ConsumedBetween([], lo, hi, resetHour) == 0
    decreases hi - lo
  {
    if lo >= hi {
    } else {
      NothingBetween(lo, hi - 1, resetHour);
    }
  }

  /** The days of a report add up: over any range of days that holds the whole ledger, what the days show as
      earned is every reward in it and nothing else, and what they show as consumed is every charge. */
  lemma {:induction false} DaysAddUp(log: seq<Entry>, lo: Day, hi: Day, resetHour: int)
    requires KeysWithin(log, lo, hi, resetHour)
    ensures EarnedBetween(log, lo, hi, resetHour) == EarnedSum(log)
    ensures ConsumedBetween(log, lo, hi, resetHour) == -ConsumedSum(log)
    decreases |log|
  {
    if log == [] {
      NothingBetween(lo, hi, resetHour);
    } else {
      var init := log[..|log| - 1];
      var e := log[|log| - 1];
      assert log == init + [e];
      assert forall i :: 0 <= i < |init| ==> init[i] == log[i];
      DaysAddUp(init, lo, hi, resetHour);
      BetweenAppended(init, e, lo, hi, resetHour);
    }
  }
}
