/** What personal mode lets a subject change at once, and what that is worth. The rule that matters is the
    hour at which a day of play begins: moving it can open the next day early, never more than one. */
module Undelayed {
  import opened Base
  import opened Rules
  import opened Ledger
  import LedgerLaws
  import P = Policies

  predicate IsHour(hour: int) {
    0 <= hour < 24
  }

  /** The columns of a policy row that the ledger reads. */
  function PolicyOf(t: P.Terms): Policy {
    Policy(t.dailyCaps, t.dailyGrants, t.resetHour, t.idleDays)
  }

  /** The date on the local wall clock, and the time past its midnight. */
  function LocalDate(at: Moment): Day {
    (at + APP_TZ) / DAY
  }

  function TimeOfDay(at: Moment): int {
    (at + APP_TZ) % DAY
  }

  /** Local midnight is five in the afternoon, UTC. */
  lemma LocalMidnight(day: Day)
    ensures LocalDate(day * DAY + 17 * HOUR) == day + 1 && TimeOfDay(day * DAY + 17 * HOUR) == 0
    ensures LocalDate(day * DAY + 17 * HOUR - 1) == day
  {
    DivisionIsUnique(day * DAY + 24 * HOUR, day + 1);
    DivisionIsUnique(day * DAY + 24 * HOUR - 1, day);
  }

  // ---------------------------------------------------------------- what moving the hour does

  /** Whatever the reset hour, a moment belongs to its own date or to the one before. */
  lemma KeyIsNear(at: Moment, hour: int)
    requires IsHour(hour)
    ensures DayKey(at, hour, APP_TZ) == if hour * HOUR <= TimeOfDay(at) then LocalDate(at) else LocalDate(at) - 1
  {
    var key := if hour * HOUR <= TimeOfDay(at) then LocalDate(at) else LocalDate(at) - 1;
    assert at + APP_TZ == LocalDate(at) * DAY + TimeOfDay(at);
    DivisionIsUnique(at + APP_TZ - hour * HOUR, key);
  }

  /** Moving the hour moves the current day's key exactly when the time of day lies between the two hours,
      and never by more than one. */
  lemma HourMovesKey(at: Moment, before: int, after: int)
    requires IsHour(before) && IsHour(after)
    ensures var moved := DayKey(at, after, APP_TZ) - DayKey(at, before, APP_TZ);
            && (moved == 1 <==> after * HOUR <= TimeOfDay(at) < before * HOUR)
            && (moved == -1 <==> before * HOUR <= TimeOfDay(at) < after * HOUR)
            && -1 <= moved <= 1
  {
    KeyIsNear(at, before);
    KeyIsNear(at, after);
  }

  /** A personal subject may move the reset hour, and it moves at once. In any ledger that has claimed its
      current day this yields another daily allowance if and only if the time of day lies between the two
      hours and the day it moves to is unclaimed; and a next day that was never begun comes with a cap of
      which nothing is spent. Moving the hour early, back and early again therefore yields one day, once. */
  lemma ResetHourOpensDay(db: Db, row: P.Row, hour: int, at: Moment)
    requires IsHour(row.terms.resetHour) && IsHour(hour) && Inv(db)
    requires Granted(db.usage, Today(PolicyOf(row.terms), at))
    ensures var terms := P.Step(row, true, P.PutOp(P.NO_CHANGES.(resetHour := Some(hour)), at)).terms;
            var today := Today(PolicyOf(row.terms), at);
            var after := Touch(db, PolicyOf(terms), at);
            var early := hour * HOUR <= TimeOfDay(at) < row.terms.resetHour * HOUR;
            var back := row.terms.resetHour * HOUR <= TimeOfDay(at) < hour * HOUR;
            && terms == row.terms.(resetHour := hour)
            && (after != db <==>
                (early && !Granted(db.usage, today + 1)) || (back && !Granted(db.usage, today - 1)))
            && (early && !Granted(db.usage, today + 1) ==>
                  Raw(after.log) == Raw(db.log) + Max(0, GrantFor(today + 1, terms.dailyGrants)))
            && (early && today + 1 !in db.usage ==>
                  Room(after, PolicyOf(terms), today + 1)
                  == Max(0, Min(Raw(after.log), CapFor(today + 1, terms.dailyCaps))))
  {
    var terms := row.terms.(resetHour := hour);
    HourMovesKey(at, row.terms.resetHour, hour);
    TouchEffect(db, PolicyOf(terms), at, at);
    TouchKeepsInv(db, PolicyOf(terms), at);
  }

  lemma FourInTheMorning(pol: Policy)
    requires pol.resetHour == 5 || pol.resetHour == 3
    ensures Today(pol, DAY + 4 * HOUR - APP_TZ) == if pol.resetHour == 5 then 0 else 1
  {
    var at := DAY + 4 * HOUR - APP_TZ;
    assert LocalDate(at) == 1 && TimeOfDay(at) == 4 * HOUR;
    KeyIsNear(at, pol.resetHour);
  }

  lemma SumOfTwo(a: Entry, b: Entry)
    ensures Raw([a, b]) == a.delta + b.delta
  {
    assert [a] + [b] == [a, b] && [] + [a] == [a];
    RawAppend([], a);
    RawAppend([a], b);
  }

  /** At four in the morning a subject whose day ends at five has played all of its ten minutes. It asks for
      a day that ends at three, and has ten minutes more at once. */
  lemma ResetHourExample(row: P.Row)
    requires row.terms.resetHour == 5
    requires row.terms.dailyCaps == row.terms.dailyGrants == [600, 600, 600, 600, 600, 600, 600]
    ensures var at := DAY + 4 * HOUR - APP_TZ;
            var db := Db([Entry(600, DailyGrant(0), None, 0), Entry(-600, Consumed, Some("event-00"), 0)],
                         map[0 := UsageRow(600, Some(0))]);
            var was := PolicyOf(row.terms);
            var now := PolicyOf(P.Step(row, true, P.PutOp(P.NO_CHANGES.(resetHour := Some(3)), at)).terms);
            && Room(Touch(db, was, at), was, Today(was, at)) == 0
            && Room(Touch(db, now, at), now, Today(now, at)) == 600
  {
    var at := DAY + 4 * HOUR - APP_TZ;
    var grant, play := Entry(600, DailyGrant(0), None, 0), Entry(-600, Consumed, Some("event-00"), 0);
    var db := Db([grant, play], map[0 := UsageRow(600, Some(0))]);
    FourInTheMorning(PolicyOf(row.terms));
    FourInTheMorning(PolicyOf(row.terms.(resetHour := 3)));
    SumOfTwo(grant, play);
    TouchEffect(db, PolicyOf(row.terms.(resetHour := 3)), at, at);
  }

  /** Lowering the academic level is the other change that loosens: it accepts every material the former
      level accepted, and when it is lower in the order, some that the former one refused. */
  lemma LowerLevelAcceptsMore(former: string, lower: string)
    requires LevelIndex(lower) <= LevelIndex(former)
    ensures forall assessed :: LevelFactor(former, assessed) == 1.0 ==> LevelFactor(lower, assessed) == 1.0
    ensures LevelIndex(lower) < LevelIndex(former)
            <==> exists assessed :: LevelFactor(lower, assessed) == 1.0 && LevelFactor(former, assessed) == 0.0
  {
    assert LevelFactor(lower, lower) == 1.0;
  }

  // ---------------------------------------------------------------- what it is worth over whole runs

  predicate InDates(at: Moment, lo: Day, hi: Day) {
    lo <= LocalDate(at) < hi
  }

  function ChargedAt(db: Db, pol: Policy, item: Item, at: Moment, lo: Day, hi: Day): int {
    if InDates(at, lo, hi) then Raw(Touch(db, pol, at).log) - Raw(Charge(db, pol, item, at).log) else 0
  }

  /** Seconds charged at readings that fall on the local dates from `lo` up to, but not including, `hi`. */
  function ChargedByItems(db: Db, pol: Policy, items: seq<Item>, clock: seq<Moment>, lo: Day, hi: Day): int
    requires |clock| == |items|
    decreases |items|
  {
    if items == [] then 0
    else
      ChargedAt(db, pol, items[0], clock[0], lo, hi)
      + ChargedByItems(Charge(db, pol, items[0], clock[0]), pol, items[1..], clock[1..], lo, hi)
  }

  function ChargedByStep(db: Db, op: Op, lo: Day, hi: Day): int
    requires Wellformed(op)
  {
    match op
    case SyncOp(pol, body, clock) => ChargedByItems(db, pol, Accepted(body), clock[..|Accepted(body)|], lo, hi)
    case _ => 0
  }

  function ChargedByRun(db: Db, ops: seq<Op>, lo: Day, hi: Day): int
    requires forall i :: 0 <= i < |ops| ==> Wellformed(ops[i])
    decreases |ops|
  {
    if ops == [] then 0 else ChargedByStep(db, ops[0], lo, hi) + ChargedByRun(Step(db, ops[0]), ops[1..], lo, hi)
  }

  /** A policy whose reset hour is an hour and whose caps are at most those of `top`. */
  predicate Under(pol: Policy, top: Week) {
    IsHour(pol.resetHour) && forall w :: 0 <= w < 7 ==> pol.dailyCaps[w] <= top[w]
  }

  predicate Fits(op: Op, top: Week) {
    Wellformed(op) && (!op.RewardOp? ==> Under(op.pol, top))
  }

  predicate AllFit(ops: seq<Op>, top: Week) {
    forall i :: 0 <= i < |ops| ==> Fits(ops[i], top)
  }

  ghost predicate WithinCaps(db: Db, top: Week) {
    forall day :: Spent(db.usage, day) <= Max(0, CapFor(day, top))
  }

  /** A daily grant is dated on its own day or the one after. */
  ghost predicate GrantsDated(log: seq<Entry>) {
    forall i :: 0 <= i < |log| && log[i].origin.DailyGrant? ==>
      LocalDate(log[i].occurredAt) - 1 <= log[i].origin.day <= LocalDate(log[i].occurredAt)
  }

  lemma TouchSpendsNothing(db: Db, pol: Policy, at: Moment, lo: Day, hi: Day)
    ensures SpentBetween(Touch(db, pol, at).usage, lo, hi) == SpentBetween(db.usage, lo, hi)
  {
    var day := Today(pol, at);
    SpentAfterUpdate(db.usage, day, UsageRow(Spent(db.usage, day), Some(at)), lo, hi);
  }

  lemma GrantKeepsDates(db: Db, top: Week, day: Day, seconds: int, at: Moment)
    requires WithinCaps(db, top) && GrantsDated(db.log) && LocalDate(at) - 1 <= day <= LocalDate(at)
    ensures WithinCaps(WithGrant(db, day, seconds, at), top) && GrantsDated(WithGrant(db, day, seconds, at).log)
  {
    GrantEffect(db, day, seconds, at);
  }

  lemma TouchKeepsDates(db: Db, pol: Policy, top: Week, at: Moment)
    requires WithinCaps(db, top) && GrantsDated(db.log) && Under(pol, top)
    ensures WithinCaps(Touch(db, pol, at), top) && GrantsDated(Touch(db, pol, at).log)
  {
    KeyIsNear(at, pol.resetHour);
    GrantKeepsDates(db, top, Today(pol, at), GrantFor(Today(pol, at), pol.dailyGrants), at);
  }

  /** A charge made on one of the dates shows on one of their keys, and on no key is more spent than a cap. */
  lemma ChargeIsDated(db: Db, pol: Policy, top: Week, item: Item, at: Moment, lo: Day, hi: Day)
    requires Inv(db) && WithinCaps(db, top) && GrantsDated(db.log) && Under(pol, top) && item.seconds >= 1
    ensures var after := Charge(db, pol, item, at);
            && WithinCaps(after, top) && GrantsDated(after.log)
            && ChargedAt(db, pol, item, at, lo, hi)
               <= SpentBetween(after.usage, lo - 1, hi) - SpentBetween(db.usage, lo - 1, hi)
  {
    var now := Touch(db, pol, at);
    var day := Today(pol, at);
    TouchKeepsInv(db, pol, at);
    TouchKeepsDates(db, pol, top, at);
    TouchSpendsNothing(db, pol, at, lo - 1, hi);
    ChargeEffect(db, pol, item, at);
    ChargeCases(db, pol, item, at);
    KeyIsNear(at, pol.resetHour);
    SpentAfterUpdate(now.usage, day, WithUsage(now.usage, day, Taken(now, pol, item, day))[day], lo - 1, hi);
  }

  lemma {:induction false} ItemsAreDated(db: Db, pol: Policy, top: Week, items: seq<Item>, clock: seq<Moment>, lo: Day,
                                         hi: Day)
    requires |clock| == |items| && Inv(db) && WithinCaps(db, top) && GrantsDated(db.log) && Under(pol, top)
    requires forall i :: 0 <= i < |items| ==> items[i].seconds >= 1
    ensures var after := ChargeAll(db, pol, items, clock);
            && WithinCaps(after, top) && GrantsDated(after.log)
            && ChargedByItems(db, pol, items, clock, lo, hi)
               <= SpentBetween(after.usage, lo - 1, hi) - SpentBetween(db.usage, lo - 1, hi)
    decreases |items|
  {
    if items == [] {
    } else {
      ChargeIsDated(db, pol, top, items[0], clock[0], lo, hi);
      ChargeKeepsInv(db, pol, items[0], clock[0]);
      ItemsAreDated(Charge(db, pol, items[0], clock[0]), pol, top, items[1..], clock[1..], lo, hi);
    }
  }

  lemma AdjustIsDated(db: Db, op: Op, top: Week, lo: Day, hi: Day)
    requires op.AdjustOp? && Inv(db) && WithinCaps(db, top) && GrantsDated(db.log) && Fits(op, top)
    ensures var after := Step(db, op);
            && WithinCaps(after, top) && GrantsDated(after.log)
            && SpentBetween(after.usage, lo, hi) == SpentBetween(db.usage, lo, hi)
  {
    TouchKeepsDates(db, op.pol, top, op.at);
    TouchSpendsNothing(db, op.pol, op.at, lo, hi);
    var adjusted := Adjusted(db, op.pol, op.direction, op.seconds, op.at);
    if adjusted.Some? {
      TouchKeepsDates(adjusted.value, op.pol, top, op.replied);
      TouchSpendsNothing(adjusted.value, op.pol, op.replied, lo, hi);
    }
  }

  lemma {:induction false} StepIsDated(db: Db, op: Op, top: Week, lo: Day, hi: Day)
    requires Inv(db) && WithinCaps(db, top) && GrantsDated(db.log) && Fits(op, top)
    ensures var after := Step(db, op);
            && WithinCaps(after, top) && GrantsDated(after.log)
            && ChargedByStep(db, op, lo, hi)
               <= SpentBetween(after.usage, lo - 1, hi) - SpentBetween(db.usage, lo - 1, hi)
  {
    match op
    case LookOp(pol, at) =>
      TouchKeepsDates(db, pol, top, at);
      TouchSpendsNothing(db, pol, at, lo - 1, hi);
    case SyncOp(pol, body, clock) =>
      var n := |Accepted(body)|;
      ItemsAreDated(db, pol, top, Accepted(body), clock[..n], lo, hi);
      TouchKeepsDates(ChargeAll(db, pol, Accepted(body), clock[..n]), pol, top, clock[n]);
      TouchSpendsNothing(ChargeAll(db, pol, Accepted(body), clock[..n]), pol, clock[n], lo - 1, hi);
    case AdjustOp(_, _, _, _, _) => AdjustIsDated(db, op, top, lo - 1, hi);
    case RewardOp(_, _, _) =>
  }

  lemma {:induction false} RunIsDated(db: Db, ops: seq<Op>, top: Week, lo: Day, hi: Day)
    requires Inv(db) && WithinCaps(db, top) && GrantsDated(db.log) && AllFit(ops, top)
    ensures var after := Run(db, ops);
            && WithinCaps(after, top) && GrantsDated(after.log)
            && ChargedByRun(db, ops, lo, hi)
               <= SpentBetween(after.usage, lo - 1, hi) - SpentBetween(db.usage, lo - 1, hi)
    decreases |ops|
  {
    if ops == [] {
    } else {
      StepIsDated(db, ops[0], top, lo, hi);
      StepKeepsInv(db, ops[0]);
      RunIsDated(Step(db, ops[0]), ops[1..], top, lo, hi);
    }
  }

  lemma {:induction false} SpentWithinCaps(db: Db, top: Week, lo: Day, hi: Day)
    requires WithinCaps(db, top)
    ensures SpentBetween(db.usage, lo, hi) <= CapsBetween(top, lo, hi)
    decreases hi - lo
  {
    if lo >= hi {
    } else {
      SpentWithinCaps(db, top, lo, hi - 1);
    }
  }

  /** What survives: however often the reset hour changes, and whatever the clocks read, what a subject is
      charged on the local dates from `lo` up to `hi` is at most the caps of those days and of the one
      day before them. */
  lemma ChargedWithinCaps(ops: seq<Op>, top: Week, lo: Day, hi: Day)
    requires AllFit(ops, top)
    ensures ChargedByRun(Db([], map[]), ops, lo, hi) <= CapsBetween(top, lo - 1, hi)
  {
    EmptyKeepsInv();
    NothingSpent(lo - 1, hi);
    RunIsDated(Db([], map[]), ops, top, lo, hi);
    SpentWithinCaps(Run(Db([], map[]), ops), top, lo - 1, hi);
  }

  lemma {:induction false} FirstCap(top: Week, lo: Day, hi: Day)
    requires lo <= hi
    ensures CapsBetween(top, lo - 1, hi) == Max(0, CapFor(lo - 1, top)) + CapsBetween(top, lo, hi)
    decreases hi - lo
  {
    if lo == hi {
      assert CapsBetween(top, lo - 1, hi - 1) == 0;
    } else {
      FirstCap(top, lo, hi - 1);
    }
  }

  /** On one date that is two caps, and in seven days a week of caps and one. */
  lemma OneDateTwoCaps(ops: seq<Op>, top: Week, date: Day)
    requires AllFit(ops, top)
    ensures ChargedByRun(Db([], map[]), ops, date, date + 1)
            <= Max(0, CapFor(date - 1, top)) + Max(0, CapFor(date, top))
    ensures ChargedByRun(Db([], map[]), ops, date, date + 7) <= WeekOf(top) + Max(0, CapFor(date - 1, top))
  {
    ChargedWithinCaps(ops, top, date, date + 1);
    ChargedWithinCaps(ops, top, date, date + 7);
    SevenDaysUseTheWeek(top, date);
    FirstCap(top, date, date + 7);
    assert CapsBetween(top, date - 1, date) == Max(0, CapFor(date - 1, top));
  }

  lemma SyncOfOne(db: Db, pol: Policy, item: Item, at: Moment, lo: Day, hi: Day)
    requires Inv(db) && item.seconds >= 1 && InDates(at, lo, hi)
    ensures var op := SyncOp(pol, [item], [at, at]);
            && Step(db, op) == Charge(db, pol, item, at)
            && ChargedByStep(db, op, lo, hi) == Taken(Touch(db, pol, at), pol, item, Today(pol, at))
  {
    var clock := [at, at];
    assert Accepted([item]) == [item] && clock[..1] == [at];
    TouchKeepsInv(db, pol, at);
    ChargeEffect(db, pol, item, at);
    var next := Charge(db, pol, item, at);
    assert ChargedByItems(next, pol, [item][1..], [at][1..], lo, hi) == 0;
    assert ChargeAll(next, pol, [item][1..], [at][1..]) == next;
  }

  /** A whole allowance played at once on a day that was not begun. */
  lemma WholeDay(db: Db, pol: Policy, event: EventId, at: Moment, lo: Day, hi: Day)
    requires var day := Today(pol, at);
             && Inv(db) && Raw(db.log) == 0 && Spent(db.usage, day) == 0 && !Granted(db.usage, day)
             && CapFor(day, pol.dailyCaps) == GrantFor(day, pol.dailyGrants) == 600
    requires !Seen(db.log, event) && InDates(at, lo, hi)
    ensures var op := SyncOp(pol, [Item(event, 600, None)], [at, at]);
            && Inv(Step(db, op)) && Raw(Step(db, op).log) == 0 && ChargedByStep(db, op, lo, hi) == 600
            && (forall other :: other != Today(pol, at) ==>
                  && Spent(Step(db, op).usage, other) == Spent(db.usage, other)
                  && (Granted(Step(db, op).usage, other) <==> Granted(db.usage, other)))
            && (forall e :: Seen(Step(db, op).log, e) ==> Seen(db.log, e) || e == event)
  {
    var item := Item(event, 600, None);
    TouchEffect(db, pol, at, at);
    LedgerLaws.TouchRecordsNoEvent(db, pol, at, event);
    ChargeEffect(db, pol, item, at);
    ChargeKeepsInv(db, pol, item, at);
    SyncOfOne(db, pol, item, at, lo, hi);
    forall e | Seen(Charge(db, pol, item, at).log, e) ensures Seen(db.log, e) || e == event {
      LedgerLaws.TouchRecordsNoEvent(db, pol, at, e);
    }
  }

  function PlayedAtOnce(pol: Policy, event: EventId, at: Moment): Op {
    SyncOp(pol, [Item(event, 600, None)], [at, at])
  }

  predicate TenMinutes(pol: Policy, day: Day) {
    CapFor(day, pol.dailyCaps) == GrantFor(day, pol.dailyGrants) == 600
  }

  /** Nothing is claimed, spent or recorded yet. */
  predicate Unbegun(db: Db, day: Day, event: EventId) {
    Spent(db.usage, day) == 0 && !Granted(db.usage, day) && !Seen(db.log, event)
  }

  lemma TwoWholeDays(db: Db, before: Policy, after: Policy, a: EventId, b: EventId, at: Moment, lo: Day, hi: Day)
    requires a != b && InDates(at, lo, hi) && Today(before, at) != Today(after, at)
    requires TenMinutes(before, Today(before, at)) && TenMinutes(after, Today(after, at))
    requires Inv(db) && Raw(db.log) == 0 && Unbegun(db, Today(before, at), a) && Unbegun(db, Today(after, at), b)
    ensures Wellformed(PlayedAtOnce(before, a, at)) && Wellformed(PlayedAtOnce(after, b, at))
    ensures ChargedByStep(db, PlayedAtOnce(before, a, at), lo, hi) == 600
    ensures ChargedByStep(Step(db, PlayedAtOnce(before, a, at)), PlayedAtOnce(after, b, at), lo, hi) == 600
  {
    WholeDay(db, before, a, at, lo, hi);
    WholeDay(Step(db, PlayedAtOnce(before, a, at)), after, b, at, lo, hi);
  }

  lemma RunOfTwo(db: Db, first: Op, second: Op, lo: Day, hi: Day)
    requires Wellformed(first) && Wellformed(second)
    ensures ChargedByRun(db, [first, second], lo, hi)
            == ChargedByStep(db, first, lo, hi) + ChargedByStep(Step(db, first), second, lo, hi)
  {
    var ops := [first, second];
    assert ops[1..] == [second] && [second][1..] == [];
    assert ChargedByRun(Step(Step(db, first), second), [], lo, hi) == 0;
  }

  /** The bound is reached: at four in the morning ten minutes are charged for the day that ends at five, the
      hour moves to three, and ten minutes more are charged on the same date. */
  lemma TwoCapsReached(before: Policy, after: Policy, top: Week, a: EventId, b: EventId)
    requires before.resetHour == 5 && after.resetHour == 3 && top == [600, 600, 600, 600, 600, 600, 600] && a != b
    requires before.dailyCaps == before.dailyGrants == after.dailyCaps == after.dailyGrants == top
    ensures var at := DAY + 4 * HOUR - APP_TZ;
            var ops := [PlayedAtOnce(before, a, at), PlayedAtOnce(after, b, at)];
            && LocalDate(at) == 1
            && AllFit(ops, top)
            && ChargedByRun(Db([], map[]), ops, 1, 2) == Max(0, CapFor(0, top)) + Max(0, CapFor(1, top)) == 1200
  {
    var at := DAY + 4 * HOUR - APP_TZ;
    FourInTheMorning(before);
    FourInTheMorning(after);
    EmptyKeepsInv();
    TwoWholeDays(Db([], map[]), before, after, a, b, at, 1, 2);
    RunOfTwo(Db([], map[]), PlayedAtOnce(before, a, at), PlayedAtOnce(after, b, at), 1, 2);
  }

  /** Daily allowances dated on the local dates from `lo` up to, but not including, `hi`. */
  function AllowancesOn(log: seq<Entry>, lo: Day, hi: Day): nat {
    if log == [] then 0
    else
      var e := log[|log| - 1];
      AllowancesOn(log[..|log| - 1], lo, hi) + (if e.origin.DailyGrant? && InDates(e.occurredAt, lo, hi) then 1 else 0)
  }

  function AllowancesFor(log: seq<Entry>, lo: Day, hi: Day): nat
    decreases hi - lo
  {
    if lo >= hi then 0 else AllowancesFor(log, lo, hi - 1) + DailyGrants(log, hi - 1)
  }

  lemma {:induction false} AllowancesForAppended(log: seq<Entry>, e: Entry, lo: Day, hi: Day)
    ensures AllowancesFor(log + [e], lo, hi)
            == AllowancesFor(log, lo, hi) + (if e.origin.DailyGrant? && lo <= e.origin.day < hi then 1 else 0)
    decreases hi - lo
  {
    if lo >= hi {
    } else {
      AllowancesForAppended(log, e, lo, hi - 1);
      AppendSums(log, e);
    }
  }

  lemma {:induction false} DatedIsKeyed(log: seq<Entry>, lo: Day, hi: Day)
    requires GrantsDated(log)
    ensures AllowancesOn(log, lo, hi) <= AllowancesFor(log, lo - 1, hi)
    decreases |log|
  {
    if log == [] {
    } else {
      var init := log[..|log| - 1];
      DatedIsKeyed(init, lo, hi);
      AllowancesForAppended(init, log[|log| - 1], lo - 1, hi);
      assert init + [log[|log| - 1]] == log;
    }
  }

  lemma {:induction false} OneAllowanceEach(db: Db, lo: Day, hi: Day)
    requires Inv(db) && lo <= hi
    ensures AllowancesFor(db.log, lo, hi) <= hi - lo
    decreases hi - lo
  {
    if lo == hi {
    } else {
      OneAllowanceEach(db, lo, hi - 1);
    }
  }

  /** And over n dates no more than n + 1 daily allowances are ever added. */
  lemma AllowancesWithinDates(ops: seq<Op>, top: Week, lo: Day, hi: Day)
    requires AllFit(ops, top) && lo <= hi
    ensures AllowancesOn(Run(Db([], map[]), ops).log, lo, hi) <= hi - lo + 1
  {
    EmptyKeepsInv();
    RunIsDated(Db([], map[]), ops, top, lo, hi);
    RunKeepsInv(Db([], map[]), ops);
    DatedIsKeyed(Run(Db([], map[]), ops).log, lo, hi);
    OneAllowanceEach(Run(Db([], map[]), ops), lo - 1, hi);
  }
}
