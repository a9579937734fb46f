/** The time ledger of one subject: an append-only log whose sum is the balance, a usage row per day,
    and the requests that write them (app/services/ledger.py, app/routers/ledger.py). */
module Ledger {
  import opened Base
  import opened Rules

  type EventId = string

  /** What put an entry in the log. The table stores the coarser `entry_type`; the day of a daily
      grant is kept here so that grants can be counted per day. */
  datatype Origin = DailyGrant(day: Day) | ParentGrant | Redeemed | Earned(ref: int) | Consumed

  datatype EntryType = GrantedType | RedeemedType | EarnedType | ConsumedType

  datatype Entry = Entry(delta: int, origin: Origin, event: Option<EventId>, occurredAt: Moment)
  {
    function Type(): EntryType {
      match origin
      case DailyGrant(_) => GrantedType
      case ParentGrant => GrantedType
      case Redeemed => RedeemedType
      case Earned(_) => EarnedType
      case Consumed => ConsumedType
    }
  }

  datatype UsageRow = UsageRow(spent: int, grantedAt: Option<Moment>)

  datatype Policy = Policy(dailyCaps: Week, dailyGrants: Week, resetHour: int, idleDaysAllowed: int)

  /** One item of a phone's batch; the request schema demands at least one second. */
  datatype Item = Item(event: EventId, seconds: int, occurredAt: Option<Moment>)

  datatype Db = Db(log: seq<Entry>, usage: map<Day, UsageRow>)

  const BATCH_LIMIT := 200

  // ---------------------------------------------------------------- reading

  function Raw(log: seq<Entry>): int {
    if log == [] then 0 else Raw(log[..|log| - 1]) + log[|log| - 1].delta
  }

  function Balance(log: seq<Entry>): int {
    Max(0, Raw(log))
  }

  function Spent(usage: map<Day, UsageRow>, day: Day): int {
    if day in usage then usage[day].spent else 0
  }

  predicate Granted(usage: map<Day, UsageRow>, day: Day) {
    day in usage && usage[day].grantedAt.Some?
  }

  predicate Seen(log: seq<Entry>, event: EventId) {
    exists i :: 0 <= i < |log| && log[i].event == Some(event)
  }

  function Today(pol: Policy, at: Moment): Day {
    DayKey(at, pol.resetHour, APP_TZ)
  }

  /** What today's play may still cost: the balance and the rest of the cap, whichever is smaller. */
  function Room(db: Db, pol: Policy, day: Day): int {
    Max(0, Min(Balance(db.log), CapFor(day, pol.dailyCaps) - Spent(db.usage, day)))
  }

  // ---------------------------------------------------------------- writing, as functions on tables

  function WithGrant(db: Db, day: Day, seconds: int, at: Moment): Db {
    if Granted(db.usage, day) then db
    else Db(
           if seconds <= 0 then db.log else db.log + [Entry(seconds, DailyGrant(day), None, at)],
           db.usage[day := UsageRow(Spent(db.usage, day), Some(at))])
  }

  /** Reading the standing claims today's grant on the way. */
  function Touch(db: Db, pol: Policy, at: Moment): Db {
    WithGrant(db, Today(pol, at), GrantFor(Today(pol, at), pol.dailyGrants), at)
  }

  function WithUsage(usage: map<Day, UsageRow>, day: Day, seconds: int): map<Day, UsageRow> {
    usage[day := UsageRow(Spent(usage, day) + seconds, if day in usage then usage[day].grantedAt else None)]
  }

  function Charge(db: Db, pol: Policy, item: Item, at: Moment): Db {
    var now := Touch(db, pol, at);
    var capped := Min(item.seconds, Room(now, pol, Today(pol, at)));
    if capped <= 0 || Seen(now.log, item.event) then now
    else Db(
           now.log + [Entry(-capped, Consumed, Some(item.event),
                            if item.occurredAt.Some? then item.occurredAt.value else at)],
           WithUsage(now.usage, Today(pol, at), capped))
  }

  /** Items are charged one by one, each against the clock as it stood then. */
  function ChargeAll(db: Db, pol: Policy, items: seq<Item>, clock: seq<Moment>): Db
    requires |clock| == |items|
    decreases |items|
  {
    if items == [] then db
    else ChargeAll(Charge(db, pol, items[0], clock[0]), pol, items[1..], clock[1..])
  }

  function Accepted(body: seq<Item>): seq<Item> {
    body[..Min(|body|, BATCH_LIMIT)]
  }

  function Sync(db: Db, pol: Policy, body: seq<Item>, clock: seq<Moment>): Db
    requires |clock| == |Accepted(body)| + 1
  {
    var n := |Accepted(body)|;
    Touch(ChargeAll(db, pol, Accepted(body), clock[..n]), pol, clock[n])
  }

  datatype Direction = Grant | Redeem

  function Adjusted(db: Db, pol: Policy, direction: Direction, seconds: int, at: Moment): Option<Db> {
    var now := Touch(db, pol, at);
    match direction
    case Grant => Some(now.(log := now.log + [Entry(seconds, ParentGrant, None, at)]))
    case Redeem =>
      var taken := Min(seconds, Balance(now.log));
      if taken == 0 then None
      else Some(now.(log := now.log + [Entry(-taken, Redeemed, None, at)]))
  }

  function Rewarded(db: Db, credited: int, ref: int, at: Moment): Db {
    if credited > 0 then db.(log := db.log + [Entry(credited, Earned(ref), None, at)]) else db
  }

  // ---------------------------------------------------------------- the standing

  /** A bound phone of the subject, as the standing sees it. */
  datatype Phone = Phone(disabled: bool, lastHeartbeat: Option<Moment>)

  const HEARTBEAT_GRACE := 5 * MINUTE

  predicate Frozen(phone: Option<Phone>, at: Moment) {
    && phone.Some?
    && (phone.value.disabled
        || (phone.value.lastHeartbeat.Some? && at - phone.value.lastHeartbeat.value > HEARTBEAT_GRACE))
  }

  predicate HeardLater(a: Phone, b: Phone) {
    a.lastHeartbeat.Some? && (b.lastHeartbeat == None || a.lastHeartbeat.value > b.lastHeartbeat.value)
  }

  /** The phone heard of last; one never heard of only when there is no other. */
  function Freshest(phones: seq<Phone>): (phone: Option<Phone>)
    ensures phone == None <==> phones == []
    ensures phone.Some? ==> phone.value in phones
    ensures phone.Some? ==> forall p :: p in phones ==> !HeardLater(p, phone.value)
  {
    if phones == [] then None
    else
      var rest := Freshest(phones[1..]);
      assert forall p :: p in phones ==> p == phones[0] || p in phones[1..];
      if rest == None || !HeardLater(rest.value, phones[0]) then Some(phones[0]) else rest
  }

  datatype Standing = Standing(
    balance: int, dailyCap: int, spentToday: int, playable: int, reason: BlockReason,
    idleDays: int, idleDaysAllowed: int, secondsUntilReset: int)

  /** The reply of the standing endpoint, read off tables in which today's grant is already claimed. */
  function StandingOf(db: Db, pol: Policy, lastStudy: Option<Day>, phone: Option<Phone>, at: Moment): Standing {
    var day := Today(pol, at);
    var cap := CapFor(day, pol.dailyCaps);
    var balance := Balance(db.log);
    var spent := Spent(db.usage, day);
    var locked := LockedByIdle(lastStudy, day, pol.idleDaysAllowed);
    var gap := IdleGap(lastStudy, day);
    Standing(
      balance, cap, spent,
      if Frozen(phone, at) then 0 else PlayableSeconds(balance, cap, spent, locked),
      if Frozen(phone, at) then GuardianStale else BlockReasonFor(balance, cap, spent, locked),
      if gap.Some? then gap.value else 0, pol.idleDaysAllowed, SecondsUntilReset(at, pol.resetHour, APP_TZ))
  }

  /** The streak columns of the progress row, if the subject has one. */
  datatype Streak = Streak(current: int, freezeTokens: int)

  datatype StandingReply = StandingReply(standing: Standing, streak: Streak)

  function ReplyOf(db: Db, pol: Policy, lastStudy: Option<Day>, phones: seq<Phone>, streak: Option<Streak>, at: Moment)
    : StandingReply
  {
    StandingReply(StandingOf(db, pol, lastStudy, Freshest(phones), at),
                  if streak.Some? then streak.value else Streak(0, 0))
  }

  // ---------------------------------------------------------------- the requests, as they run

  lemma RawAppend(log: seq<Entry>, e: Entry)
    ensures Raw(log + [e]) == Raw(log) + e.delta
  {
    assert (log + [e])[..|log|] == log;
  }

  class LedgerStore {
    var log: seq<Entry>
    var usage: map<Day, UsageRow>

    ghost function Tables(): Db
      reads this
    {
      Db(log, usage)
    }

    constructor ()
      ensures Tables() == Db([], map[])
    {
      log, usage := [], map[];
    }

    /** An upsert that claims the day only while `granted_at` is null. */
    method GrantToday(day: Day, seconds: int, at: Moment) returns (granted: int)
      modifies this
      ensures Tables() == WithGrant(old(Tables()), day, seconds, at)
      ensures granted == Raw(log) - Raw(old(log))
    {
      var claimed := false;
      if day !in usage {
        usage := usage[day := UsageRow(0, Some(at))];
        claimed := true;
      } else if usage[day].grantedAt == None {
        usage := usage[day := usage[day].(grantedAt := Some(at))];
        claimed := true;
      }
      if !claimed || seconds <= 0 {
        return 0;
      }
      RawAppend(log, Entry(seconds, DailyGrant(day), None, at));
      var _ := Append(Entry(seconds, DailyGrant(day), None, at));
      return seconds;
    }

    /** Entries that carry an event id insert at most once. */
    method Append(entry: Entry) returns (wrote: bool)
      modifies `log
      ensures wrote == (entry.event.Some? ==> !Seen(old(log), entry.event.value))
      ensures log == if wrote then old(log) + [entry] else old(log)
    {
      if entry.event.Some? && Seen(log, entry.event.value) {
        return false;
      }
      log := log + [entry];
      return true;
    }

    method AddUsage(day: Day, seconds: int)
      modifies `usage
      ensures usage == WithUsage(old(usage), day, seconds)
    {
      if day in usage {
        usage := usage[day := usage[day].(spent := usage[day].spent + seconds)];
      } else {
        usage := usage[day := UsageRow(seconds, None)];
      }
    }

    /** Every reading of the standing begins by claiming today's grant. */
    method ClaimToday(pol: Policy, at: Moment)
      modifies this
      ensures Tables() == Touch(old(Tables()), pol, at)
    {
      var day := Today(pol, at);
      var _ := GrantToday(day, GrantFor(day, pol.dailyGrants), at);
    }

    method ReadStanding(pol: Policy, lastStudy: Option<Day>, phones: seq<Phone>, streak: Option<Streak>, at: Moment)
      returns (reply: StandingReply)
      modifies this
      ensures Tables() == Touch(old(Tables()), pol, at)
      ensures reply == ReplyOf(Tables(), pol, lastStudy, phones, streak, at)
      ensures reply.streak == if streak == None then Streak(0, 0) else streak.value
    {
      ClaimToday(pol, at);
      reply := ReplyOf(Db(log, usage), pol, lastStudy, phones, streak, at);
    }

    method RecordConsumption(pol: Policy, item: Item, at: Moment) returns (wrote: bool)
      requires item.seconds >= 1
      modifies this
      ensures Tables() == Charge(old(Tables()), pol, item, at)
      ensures wrote == (log != Touch(old(Tables()), pol, at).log)
    {
      ClaimToday(pol, at);
      var day := Today(pol, at);
      var balance := Balance(log);
      var spent := Spent(usage, day);
      var capped := Max(0, Min(Min(item.seconds, balance), CapFor(day, pol.dailyCaps) - spent));
      if capped == 0 {
        return false;
      }
      wrote := Append(Entry(-capped, Consumed, Some(item.event),
                            if item.occurredAt.Some? then item.occurredAt.value else at));
      if wrote {
        AddUsage(day, capped);
      }
    }

    /** Only the phone that was played on reports its play; the reply is the standing afterwards. */
    method SyncConsumption(isProxy: bool, pol: Policy, body: seq<Item>, clock: seq<Moment>, lastStudy: Option<Day>,
                           phones: seq<Phone>, streak: Option<Streak>)
      returns (r: Outcome<StandingReply>)
      requires |clock| == |Accepted(body)| + 1
      requires forall i :: 0 <= i < |body| ==> body[i].seconds >= 1
      modifies this
      ensures r.Done? <==> !isProxy
      ensures Tables() == if isProxy then old(Tables()) else Sync(old(Tables()), pol, body, clock)
      ensures r.Done? ==> r.value == ReplyOf(Tables(), pol, lastStudy, phones, streak, clock[|clock| - 1])
    {
      if isProxy {
        return Refused("forbidden");
      }
      var n := Min(|body|, BATCH_LIMIT);
      var i := 0;
      while i < n
        invariant 0 <= i <= n
        invariant ChargeAll(old(Tables()), pol, Accepted(body), clock[..n])
                  == ChargeAll(Tables(), pol, Accepted(body)[i..], clock[..n][i..])
      {
        var _ := RecordConsumption(pol, body[i], clock[i]);
        assert Accepted(body)[i..][0] == body[i] && Accepted(body)[i..][1..] == Accepted(body)[i + 1..];
        assert clock[..n][i..][0] == clock[i] && clock[..n][i..][1..] == clock[..n][i + 1..];
        i := i + 1;
      }
      var reply := ReadStanding(pol, lastStudy, phones, streak, clock[n]);
      return Done(reply);
    }

    /** A refused adjustment also loses the daily grant it had claimed on the way; an accepted one replies
        with a fresh standing. */
    method Adjust(isParent: bool, pol: Policy, direction: Direction, seconds: int, at: Moment, replied: Moment)
      returns (r: Outcome<int>)
      requires 60 <= seconds
      modifies this
      ensures r.Done? <==> isParent && Adjusted(old(Tables()), pol, direction, seconds, at).Some?
      ensures r.Done? ==> Tables() == Touch(Adjusted(old(Tables()), pol, direction, seconds, at).value, pol, replied)
      ensures r.Refused? ==> Tables() == old(Tables())
      ensures r.Done? ==> r.value == Balance(log)
    {
      if !isParent {
        return Refused("forbidden");
      }
      var savedLog, savedUsage := log, usage;
      ClaimToday(pol, at);
      var delta := seconds;
      var origin := ParentGrant;
      if direction == Redeem {
        delta := -Min(seconds, Balance(log));
        origin := Redeemed;
        if delta == 0 {
          log, usage := savedLog, savedUsage;
          return Refused("empty_balance");
        }
      }
      var _ := Append(Entry(delta, origin, None, at));
      ClaimToday(pol, replied);
      return Done(Balance(log));
    }

    method CreditReward(gross: real, ref: int, at: Moment) returns (credited: int)
      modifies `log
      ensures credited == Truncate(gross)
      ensures Tables() == Rewarded(old(Tables()), credited, ref, at)
    {
      credited := Truncate(gross);
      if credited > 0 {
        var _ := Append(Entry(credited, Earned(ref), None, at));
      }
    }
  }

  // ---------------------------------------------------------------- sums over the log

  function ConsumedSum(log: seq<Entry>): int {
    if log == [] then 0
    else ConsumedSum(log[..|log| - 1]) + (if log[|log| - 1].origin.Consumed? then log[|log| - 1].delta else 0)
  }

  function EarnedSum(log: seq<Entry>): int {
    if log == [] then 0
    else EarnedSum(log[..|log| - 1]) + (if log[|log| - 1].origin.Earned? then log[|log| - 1].delta else 0)
  }

  function DailyGrants(log: seq<Entry>, day: Day): nat {
    if log == [] then 0
    else DailyGrants(log[..|log| - 1], day) + (if log[|log| - 1].origin == DailyGrant(day) then 1 else 0)
  }

  lemma AppendSums(log: seq<Entry>, e: Entry)
    ensures Raw(log + [e]) == Raw(log) + e.delta
    ensures ConsumedSum(log + [e]) == ConsumedSum(log) + (if e.origin.Consumed? then e.delta else 0)
    ensures forall day ::
              DailyGrants(log + [e], day) == DailyGrants(log, day) + (if e.origin == DailyGrant(day) then 1 else 0)
    ensures forall event :: Seen(log + [e], event) <==> Seen(log, event) || e.event == Some(event)
  {
    assert (log + [e])[..|log|] == log;
    forall event ensures Seen(log + [e], event) <==> Seen(log, event) || e.event == Some(event) {
      if Seen(log, event) {
        var i :| 0 <= i < |log| && log[i].event == Some(event);
        assert (log + [e])[i].event == Some(event);
      }
      if e.event == Some(event) {
        assert (log + [e])[|log|].event == Some(event);
      }
    }
  }

  /** Seconds spent from day `lo` up to, but not including, day `hi`. */
  function SpentBetween(usage: map<Day, UsageRow>, lo: Day, hi: Day): int
    decreases hi - lo
  {
    if lo >= hi then 0 else SpentBetween(usage, lo, hi - 1) + Spent(usage, hi - 1)
  }

  ghost predicate Covers(lo: Day, hi: Day, usage: map<Day, UsageRow>) {
    forall day :: day in usage ==> lo <= day < hi
  }

  lemma {:induction false} SpentAfterUpdate(usage: map<Day, UsageRow>, day: Day, row: UsageRow, lo: Day, hi: Day)
    ensures SpentBetween(usage[day := row], lo, hi)
            == SpentBetween(usage, lo, hi) + (if lo <= day < hi then row.spent - Spent(usage, day) else 0)
    decreases hi - lo
  {
    if lo >= hi {
    } else {
      SpentAfterUpdate(usage, day, row, lo, hi - 1);
    }
  }

  /** The usage rows account for exactly the seconds the log says were consumed, whatever range of
      days is summed as long as it holds them all. */
  ghost predicate UsageAgrees(db: Db) {
    forall lo, hi :: Covers(lo, hi, db.usage) ==> SpentBetween(db.usage, lo, hi) == -ConsumedSum(db.log)
  }

  lemma UpdateKeepsAgreement(db: Db, log: seq<Entry>, day: Day, row: UsageRow)
    requires UsageAgrees(db)
    requires row.spent - Spent(db.usage, day) == ConsumedSum(db.log) - ConsumedSum(log)
    ensures UsageAgrees(Db(log, db.usage[day := row]))
  {
    var usage := db.usage[day := row];
    forall lo, hi | Covers(lo, hi, usage) ensures SpentBetween(usage, lo, hi) == -ConsumedSum(log) {
      assert day in usage;
      assert forall d :: d in db.usage ==> d in usage;
      SpentAfterUpdate(db.usage, day, row, lo, hi);
    }
  }

  // ---------------------------------------------------------------- what every run keeps

  datatype Op =
    | LookOp(pol: Policy, at: Moment)
    | SyncOp(pol: Policy, body: seq<Item>, clock: seq<Moment>)
    | AdjustOp(pol: Policy, direction: Direction, seconds: int, at: Moment, replied: Moment)
    | RewardOp(gross: real, ref: int, at: Moment)

  /** The ranges the request schemas impose. */
  predicate Wellformed(op: Op) {
    match op
    case LookOp(_, _) => true
    case SyncOp(_, body, clock) =>
      |clock| == |Accepted(body)| + 1 && forall i :: 0 <= i < |body| ==> body[i].seconds >= 1
    case AdjustOp(_, _, seconds, _, _) => seconds >= 60
    case RewardOp(_, _, _) => true
  }

  function Step(db: Db, op: Op): Db
    requires Wellformed(op)
  {
    match op
    case LookOp(pol, at) => Touch(db, pol, at)
    case SyncOp(pol, body, clock) => Sync(db, pol, body, clock)
    case AdjustOp(pol, direction, seconds, at, replied) =>
      var after := Adjusted(db, pol, direction, seconds, at);
      if after.Some? then Touch(after.value, pol, replied) else db
    case RewardOp(gross, ref, at) => Rewarded(db, Truncate(gross), ref, at)
  }

  function Run(db: Db, ops: seq<Op>): Db
    requires forall i :: 0 <= i < |ops| ==> Wellformed(ops[i])
    decreases |ops|
  {
    if ops == [] then db else Run(Step(db, ops[0]), ops[1..])
  }

  ghost predicate EventsUnique(log: seq<Entry>) {
    forall i, j :: 0 <= i < j < |log| && log[i].event.Some? ==> log[i].event != log[j].event
  }

  ghost predicate Inv(db: Db) {
    && Raw(db.log) >= 0
    && UsageAgrees(db)
    && (forall day :: DailyGrants(db.log, day) <= if Granted(db.usage, day) then 1 else 0)
    && EventsUnique(db.log)
  }

  /** A step may only extend the log and never forgets a claimed day. */
  ghost predicate Extends(before: Db, after: Db) {
    && before.log <= after.log
    && (forall day :: Granted(before.usage, day) ==> Granted(after.usage, day))
  }

  lemma TouchKeepsInv(db: Db, pol: Policy, at: Moment)
    requires Inv(db)
    ensures Inv(Touch(db, pol, at)) && Extends(db, Touch(db, pol, at))
    ensures Granted(Touch(db, pol, at).usage, Today(pol, at))
  {
    var day := Today(pol, at);
    var seconds := GrantFor(day, pol.dailyGrants);
    if !Granted(db.usage, day) {
      if seconds > 0 {
        AppendSums(db.log, Entry(seconds, DailyGrant(day), None, at));
      }
      UpdateKeepsAgreement(db, Touch(db, pol, at).log, day, UsageRow(Spent(db.usage, day), Some(at)));
    }
  }

  lemma GrantEffect(db: Db, day: Day, seconds: int, at: Moment)
    ensures var now := WithGrant(db, day, seconds, at);
            && Raw(now.log) == Raw(db.log) + (if Granted(db.usage, day) then 0 else Max(0, seconds))
            && (forall d :: Granted(now.usage, d) <==> Granted(db.usage, d) || d == day)
            && (forall d :: Spent(now.usage, d) == Spent(db.usage, d))
            && WithGrant(now, day, seconds, at) == now
  {
    RawAppend(db.log, Entry(seconds, DailyGrant(day), None, at));
  }

  /** The first request of a day, and no other, adds the day's allowance - an allowance of zero or less
      adds nothing but is claimed all the same - and claiming it spends nothing. */
  lemma TouchEffect(db: Db, pol: Policy, at: Moment, again: Moment)
    ensures var day := Today(pol, at);
            var now := Touch(db, pol, at);
            && Raw(now.log)
               == Raw(db.log) + (if Granted(db.usage, day) then 0 else Max(0, GrantFor(day, pol.dailyGrants)))
            && (forall d :: Granted(now.usage, d) <==> Granted(db.usage, d) || d == day)
            && (forall d :: Spent(now.usage, d) == Spent(db.usage, d))
            && (Today(pol, again) == day ==> Touch(now, pol, again) == now)
  {
    GrantEffect(db, Today(pol, at), GrantFor(Today(pol, at), pol.dailyGrants), at);
  }

  /** A parent's gift adds all of it; a redemption takes what was asked or what there is, whichever is
      less, and is refused exactly when there is nothing to take. */
  lemma AdjustEffect(db: Db, pol: Policy, direction: Direction, seconds: int, at: Moment)
    requires Inv(db) && seconds >= 60
    ensures var now := Touch(db, pol, at);
            var after := Adjusted(db, pol, direction, seconds, at);
            && (after == None <==> direction == Redeem && Raw(now.log) == 0)
            && (after.Some? ==>
                  Raw(after.value.log)
                  == (if direction == Grant then Raw(now.log) + seconds else Max(0, Raw(now.log) - seconds)))
            && (after.Some? ==> after.value.usage == now.usage)
  {
    TouchKeepsInv(db, pol, at);
    var now := Touch(db, pol, at);
    match direction
    case Grant => RawAppend(now.log, Entry(seconds, ParentGrant, None, at));
    case Redeem => RawAppend(now.log, Entry(-Min(seconds, Balance(now.log)), Redeemed, None, at));
  }

  lemma AppendKeepsInv(db: Db, e: Entry)
    requires Inv(db) && e.event == None && Raw(db.log) + e.delta >= 0
    requires !e.origin.Consumed? && !e.origin.DailyGrant?
    ensures Inv(db.(log := db.log + [e])) && Extends(db, db.(log := db.log + [e]))
  {
    AppendSums(db.log, e);
  }

  function Taken(now: Db, pol: Policy, item: Item, day: Day): int {
    if Seen(now.log, item.event) then 0 else Min(item.seconds, Room(now, pol, day))
  }

  function ChargeEntry(item: Item, taken: int, at: Moment): Entry {
    Entry(-taken, Consumed, Some(item.event), if item.occurredAt.Some? then item.occurredAt.value else at)
  }

  /** A charge is what was asked, cut to the room there is; it is taken from balance and cap alike,
      ends within the cap in force, and touches no other day. */
  lemma ChargeEffect(db: Db, pol: Policy, item: Item, at: Moment)
    requires Raw(Touch(db, pol, at).log) >= 0 && item.seconds >= 1
    ensures var day := Today(pol, at);
            var now := Touch(db, pol, at);
            var after := Charge(db, pol, item, at);
            var taken := Taken(now, pol, item, day);
            && Raw(after.log) == Raw(now.log) - taken
            && Spent(after.usage, day) == Spent(now.usage, day) + taken
            && (taken > 0 ==> Spent(after.usage, day) <= CapFor(day, pol.dailyCaps))
            && Room(after, pol, day) == Room(now, pol, day) - taken
            && (forall event :: Seen(after.log, event) <==> Seen(now.log, event) || (taken > 0 && event == item.event))
            && (forall other :: other != day ==> Spent(after.usage, other) == Spent(now.usage, other))
            && (forall d :: Granted(after.usage, d) <==> Granted(now.usage, d))
  {
    var now := Touch(db, pol, at);
    AppendSums(now.log, ChargeEntry(item, Taken(now, pol, item, Today(pol, at)), at));
  }

  lemma FreshEventKeepsIndex(log: seq<Entry>, e: Entry)
    requires EventsUnique(log) && e.event.Some? && !Seen(log, e.event.value)
    ensures EventsUnique(log + [e])
  {
  }

  lemma ConsumeKeepsInv(db: Db, day: Day, e: Entry)
    requires Inv(db) && e.origin.Consumed? && 0 <= -e.delta <= Raw(db.log)
    requires e.event.Some? && !Seen(db.log, e.event.value)
    ensures Inv(Db(db.log + [e], WithUsage(db.usage, day, -e.delta)))
    ensures Extends(db, Db(db.log + [e], WithUsage(db.usage, day, -e.delta)))
  {
    AppendSums(db.log, e);
    var after := Db(db.log + [e], WithUsage(db.usage, day, -e.delta));
    assert UsageAgrees(after) by {
      UpdateKeepsAgreement(db, db.log + [e], day, WithUsage(db.usage, day, -e.delta)[day]);
    }
    assert EventsUnique(after.log) by {
      FreshEventKeepsIndex(db.log, e);
    }
    forall d ensures DailyGrants(after.log, d) <= (if Granted(after.usage, d) then 1 else 0) {
      assert DailyGrants(after.log, d) == DailyGrants(db.log, d);
    }
  }

  lemma ChargeCases(db: Db, pol: Policy, item: Item, at: Moment)
    requires Raw(Touch(db, pol, at).log) >= 0 && item.seconds >= 1
    ensures var day := Today(pol, at);
            var now := Touch(db, pol, at);
            var taken := Taken(now, pol, item, day);
            && 0 <= taken <= Raw(now.log)
            && (taken > 0 ==> !Seen(now.log, item.event))
            && Charge(db, pol, item, at) ==
               if taken > 0 then Db(now.log + [ChargeEntry(item, taken, at)], WithUsage(now.usage, day, taken)) else now
  {
  }

  lemma ChargeKeepsInv(db: Db, pol: Policy, item: Item, at: Moment)
    requires Inv(db) && item.seconds >= 1
    ensures Inv(Charge(db, pol, item, at)) && Extends(db, Charge(db, pol, item, at))
  {
    TouchKeepsInv(db, pol, at);
    var now := Touch(db, pol, at);
    ChargeCases(db, pol, item, at);
    var taken := Taken(now, pol, item, Today(pol, at));
    if taken > 0 {
      ConsumeKeepsInv(now, Today(pol, at), ChargeEntry(item, taken, at));
    }
  }

  lemma {:induction false} ChargeAllKeepsInv(db: Db, pol: Policy, items: seq<Item>, clock: seq<Moment>)
    requires |clock| == |items| && Inv(db)
    requires forall i :: 0 <= i < |items| ==> items[i].seconds >= 1
    ensures Inv(ChargeAll(db, pol, items, clock)) && Extends(db, ChargeAll(db, pol, items, clock))
    decreases |items|
  {
    if items == [] {
    } else {
      ChargeKeepsInv(db, pol, items[0], clock[0]);
      ChargeAllKeepsInv(Charge(db, pol, items[0], clock[0]), pol, items[1..], clock[1..]);
    }
  }

  lemma AdjustKeepsInv(db: Db, pol: Policy, direction: Direction, seconds: int, at: Moment)
    requires Inv(db) && seconds >= 60
    ensures var after := Adjusted(db, pol, direction, seconds, at);
            after.Some? ==> Inv(after.value) && Extends(db, after.value)
  {
    TouchKeepsInv(db, pol, at);
    var now := Touch(db, pol, at);
    match direction
    case Grant => AppendKeepsInv(now, Entry(seconds, ParentGrant, None, at));
    case Redeem =>
      var taken := Min(seconds, Balance(now.log));
      AppendKeepsInv(now, Entry(-taken, Redeemed, None, at));
  }

  lemma {:induction false} StepKeepsInv(db: Db, op: Op)
    requires Inv(db) && Wellformed(op)
    ensures Inv(Step(db, op)) && Extends(db, Step(db, op))
  {
    match op
    case LookOp(pol, at) => TouchKeepsInv(db, pol, at);
    case SyncOp(pol, body, clock) =>
      var n := |Accepted(body)|;
      ChargeAllKeepsInv(db, pol, Accepted(body), clock[..n]);
      TouchKeepsInv(ChargeAll(db, pol, Accepted(body), clock[..n]), pol, clock[n]);
    case AdjustOp(pol, direction, seconds, at, replied) =>
      AdjustKeepsInv(db, pol, direction, seconds, at);
      var after := Adjusted(db, pol, direction, seconds, at);
      if after.Some? {
        TouchKeepsInv(after.value, pol, replied);
      }
    case RewardOp(gross, ref, at) =>
      if Truncate(gross) > 0 {
        AppendKeepsInv(db, Entry(Truncate(gross), Earned(ref), None, at));
      }
  }

  /** Over every run from an empty ledger, under policies that may change before any request: the
      raw sum is never negative, the usage index equals what the log says was consumed, a day is
      granted at most once, an event is recorded at most once, and no entry is ever rewritten. */
  lemma {:induction false} RunKeepsInv(db: Db, ops: seq<Op>)
    requires Inv(db)
    requires forall i :: 0 <= i < |ops| ==> Wellformed(ops[i])
    ensures Inv(Run(db, ops)) && Extends(db, Run(db, ops))
    decreases |ops|
  {
    if ops == [] {
    } else {
      StepKeepsInv(db, ops[0]);
      RunKeepsInv(Step(db, ops[0]), ops[1..]);
    }
  }

  lemma {:induction false} NothingSpent(lo: Day, hi: Day)
    ensures SpentBetween(map[], lo, hi) == 0
    decreases hi - lo
  {
    if lo >= hi {
    } else {
      NothingSpent(lo, hi - 1);
    }
  }

  lemma EmptyKeepsInv()
    ensures Inv(Db([], map[]))
  {
    forall lo, hi ensures SpentBetween(map[], lo, hi) == 0 {
      NothingSpent(lo, hi);
    }
  }

  lemma {:induction false} EveryReachableLedger(ops: seq<Op>)
    requires forall i :: 0 <= i < |ops| ==> Wellformed(ops[i])
    ensures var db := Run(Db([], map[]), ops);
            && Raw(db.log) == Balance(db.log)
            && UsageAgrees(db)
            && (forall day :: DailyGrants(db.log, day) <= 1)
  {
    EmptyKeepsInv();
    RunKeepsInv(Db([], map[]), ops);
  }
}
