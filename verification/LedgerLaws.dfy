/** What a batch of offline play costs, whatever its order, and why sending it again costs nothing. */
module LedgerLaws {
  import opened Base
  import opened Rules
  import opened Ledger

  predicate SameDay(pol: Policy, clock: seq<Moment>, day: Day) {
    forall i :: 0 <= i < |clock| ==> Today(pol, clock[i]) == day
  }

  predicate Positive(items: seq<Item>) {
    forall i :: 0 <= i < |items| ==> items[i].seconds >= 1
  }

  ghost function Recorded(log: seq<Entry>): (events: set<EventId>)
    ensures forall e :: e in events <==> Seen(log, e)
  {
    var events := set i | 0 <= i < |log| && log[i].event.Some? :: log[i].event.value;
    assert forall e :: Seen(log, e) ==> e in events;
    events
  }

  ghost function EventsOf(items: seq<Item>): set<EventId> {
    set i | 0 <= i < |items| :: items[i].event
  }

  /** Seconds asked for by the first occurrence of every event that is not among `seen`. */
  function FreshSeconds(items: seq<Item>, seen: set<EventId>): int
    decreases |items|
  {
    if items == [] then 0
    else if items[0].event in seen then FreshSeconds(items[1..], seen)
    else items[0].seconds + FreshSeconds(items[1..], seen + {items[0].event})
  }

  lemma {:induction false} FreshSecondsNonnegative(items: seq<Item>, seen: set<EventId>)
    requires Positive(items)
    ensures FreshSeconds(items, seen) >= 0
    decreases |items|
  {
    if items == [] {
    } else {
      FreshSecondsNonnegative(items[1..], seen);
      FreshSecondsNonnegative(items[1..], seen + {items[0].event});
    }
  }

  // ---------------------------------------------------------------- the closed form

  /** The loop's total is the smaller of two numbers known before it starts. */
  lemma {:induction false} ChargeAllTotal(db: Db, pol: Policy, day: Day, items: seq<Item>, clock: seq<Moment>)
    requires |clock| == |items| && SameDay(pol, clock, day) && Positive(items)
    requires Granted(db.usage, day) && Raw(db.log) >= 0
    ensures var after := ChargeAll(db, pol, items, clock);
            var total := Min(FreshSeconds(items, Recorded(db.log)), Room(db, pol, day));
            && 0 <= total
            && Raw(db.log) - Raw(after.log) == total
            && Spent(after.usage, day) - Spent(db.usage, day) == total
            && Room(after, pol, day) == Room(db, pol, day) - total
            && Recorded(db.log) <= Recorded(after.log)
            && Granted(after.usage, day)
    decreases |items|
  {
    FreshSecondsNonnegative(items, Recorded(db.log));
    if items == [] {
    } else {
      var next := Charge(db, pol, items[0], clock[0]);
      ChargeEffect(db, pol, items[0], clock[0]);
      ChargeAllTotal(next, pol, day, items[1..], clock[1..]);
      var e := items[0].event;
      if Taken(db, pol, items[0], day) > 0 {
        assert Recorded(next.log) == Recorded(db.log) + {e};
      } else {
        assert Recorded(next.log) == Recorded(db.log);
        FreshSecondsNonnegative(items[1..], Recorded(db.log));
        FreshSecondsNonnegative(items[1..], Recorded(db.log) + {e});
      }
    }
  }

  /** A whole request, from the state in which the day's grant is claimed. */
  lemma SyncAfterGrant(db: Db, pol: Policy, day: Day, body: seq<Item>, clock: seq<Moment>)
    requires |clock| == |Accepted(body)| + 1 && SameDay(pol, clock, day)
    ensures var start := Touch(db, pol, clock[0]);
            && Granted(start.usage, day)
            && ChargeAll(db, pol, Accepted(body), clock[..|Accepted(body)|]) ==
               (if body == [] then db else ChargeAll(start, pol, Accepted(body), clock[..|Accepted(body)|]))
  {
  }

  /** Within one day and policy, a batch takes from the balance and adds to the day's usage exactly
      the smaller of what its unrecorded events ask for and what balance and cap leave. */
  lemma SyncTotal(db: Db, pol: Policy, day: Day, body: seq<Item>, clock: seq<Moment>)
    requires |clock| == |Accepted(body)| + 1 && SameDay(pol, clock, day) && Positive(body)
    requires Inv(db)
    ensures var start := Touch(db, pol, clock[0]);
            var after := Sync(db, pol, body, clock);
            var total := Min(FreshSeconds(Accepted(body), Recorded(start.log)), Room(start, pol, day));
            && Raw(start.log) - Raw(after.log) == total
            && Spent(after.usage, day) - Spent(start.usage, day) == total
  {
    TouchKeepsInv(db, pol, clock[0]);
    SyncAfterGrant(db, pol, day, body, clock);
    if body != [] {
      ChargeAllTotal(Touch(db, pol, clock[0]), pol, day, Accepted(body), clock[..|Accepted(body)|]);
    }
  }

  // ---------------------------------------------------------------- order does not matter

  ghost predicate DistinctEvents(items: seq<Item>) {
    forall i, j :: 0 <= i < j < |items| ==> items[i].event != items[j].event
  }

  function NewSeconds(items: seq<Item>, seen: set<EventId>): int {
    if items == [] then 0
    else (if items[0].event in seen then 0 else items[0].seconds) + NewSeconds(items[1..], seen)
  }

  lemma {:induction false} FreshIsNewWhenDistinct(items: seq<Item>, seen: set<EventId>, more: set<EventId>)
    requires DistinctEvents(items) && EventsOf(items) !! more
    ensures FreshSeconds(items, seen + more) == NewSeconds(items, seen)
    decreases |items|
  {
    if items == [] {
    } else {
      var e := items[0].event;
      assert e in EventsOf(items);
      assert forall i :: 0 <= i < |items| - 1 ==> items[1..][i].event == items[i + 1].event;
      assert EventsOf(items[1..]) <= EventsOf(items);
      if e in seen {
        FreshIsNewWhenDistinct(items[1..], seen, more);
      } else {
        FreshIsNewWhenDistinct(items[1..], seen, more + {e});
        assert seen + (more + {e}) == seen + more + {e};
      }
    }
  }

  lemma {:induction false} NewSecondsSplit(a: seq<Item>, b: seq<Item>, seen: set<EventId>)
    ensures NewSeconds(a + b, seen) == NewSeconds(a, seen) + NewSeconds(b, seen)
    decreases |a|
  {
    if a == [] {
      assert a + b == b;
    } else {
      assert (a + b)[1..] == a[1..] + b;
      NewSecondsSplit(a[1..], b, seen);
    }
  }

  function IndexOf(items: seq<Item>, x: Item): (k: nat)
    requires x in items
    ensures k < |items| && items[k] == x
  {
    if items[0] == x then 0 else 1 + IndexOf(items[1..], x)
  }

  function Without(items: seq<Item>, k: nat): seq<Item>
    requires k < |items|
  {
    items[..k] + items[k + 1..]
  }

  lemma FindFirst(xs: seq<Item>, ys: seq<Item>) returns (k: nat)
    requires xs != [] && multiset(xs) == multiset(ys)
    ensures k < |ys| && ys[k] == xs[0] && multiset(xs[1..]) == multiset(Without(ys, k))
  {
    assert xs[0] in multiset(ys);
    k := IndexOf(ys, xs[0]);
    assert xs == [xs[0]] + xs[1..];
    assert ys == ys[..k] + [ys[k]] + ys[k + 1..];
    assert multiset(ys) == multiset(Without(ys, k)) + multiset{ys[k]};
    assert multiset(xs) == multiset(xs[1..]) + multiset{xs[0]};
    assert multiset(xs[1..]) == multiset(xs) - multiset{xs[0]};
  }

  lemma NewSecondsWithout(items: seq<Item>, k: nat, seen: set<EventId>)
    requires k < |items|
    ensures NewSeconds(items, seen)
            == NewSeconds(Without(items, k), seen) + (if items[k].event in seen then 0 else items[k].seconds)
  {
    assert items == items[..k] + items[k..];
    NewSecondsSplit(items[..k], items[k..], seen);
    NewSecondsSplit(items[..k], items[k + 1..], seen);
    assert items[k..][1..] == items[k + 1..];
  }

  lemma {:induction false} NewSecondsPermuted(xs: seq<Item>, ys: seq<Item>, seen: set<EventId>)
    requires multiset(xs) == multiset(ys)
    ensures NewSeconds(xs, seen) == NewSeconds(ys, seen)
    decreases |xs|
  {
    if xs == [] {
      assert |ys| == |multiset(ys)| == 0;
    } else {
      var k := FindFirst(xs, ys);
      NewSecondsWithout(ys, k, seen);
      NewSecondsPermuted(xs[1..], Without(ys, k), seen);
    }
  }

  lemma {:induction false} DistinctIsPermutationInvariant(xs: seq<Item>, ys: seq<Item>)
    requires multiset(xs) == multiset(ys) && DistinctEvents(xs)
    ensures DistinctEvents(ys)
    decreases |xs|
  {
    if xs == [] {
      assert |ys| == |multiset(ys)| == 0;
    } else {
      var k := FindFirst(xs, ys);
      var rest := Without(ys, k);
      DistinctIsPermutationInvariant(xs[1..], rest);
      forall r | 0 <= r < |rest| ensures rest[r].event != xs[0].event {
        assert rest[r] in multiset(xs[1..]);
        var m := IndexOf(xs[1..], rest[r]);
        assert xs[m + 1] == rest[r];
      }
      forall i, j | 0 <= i < j < |ys| ensures ys[i].event != ys[j].event {
        assert i != k ==> rest[if i < k then i else i - 1] == ys[i];
        assert j != k ==> rest[if j < k then j else j - 1] == ys[j];
      }
    }
  }

  lemma {:induction false} GrantMomentIsImmaterial(db: Db, pol: Policy, a: Moment, b: Moment)
    requires Today(pol, a) == Today(pol, b)
    ensures var x := Touch(db, pol, a);
            var y := Touch(db, pol, b);
            && Raw(x.log) == Raw(y.log)
            && Recorded(x.log) == Recorded(y.log)
            && (forall day :: Spent(x.usage, day) == Spent(y.usage, day))
  {
    var day := Today(pol, a);
    var seconds := GrantFor(day, pol.dailyGrants);
    AppendSums(db.log, Entry(seconds, DailyGrant(day), None, a));
    AppendSums(db.log, Entry(seconds, DailyGrant(day), None, b));
    assert Recorded(Touch(db, pol, a).log) == Recorded(Touch(db, pol, b).log);
  }

  /** A phone that delivers the same distinct events in another order pays the same. */
  lemma OrderDoesNotMatter(db: Db, pol: Policy, day: Day, xs: seq<Item>, ys: seq<Item>,
                           xClock: seq<Moment>, yClock: seq<Moment>)
    requires |xClock| == |xs| + 1 && |yClock| == |ys| + 1 && |xs| <= 200
    requires SameDay(pol, xClock, day) && SameDay(pol, yClock, day) && Positive(xs) && Positive(ys)
    requires multiset(xs) == multiset(ys) && DistinctEvents(xs)
    requires Inv(db)
    ensures |ys| == |xs|
    ensures Raw(Sync(db, pol, xs, xClock).log) == Raw(Sync(db, pol, ys, yClock).log)
    ensures Spent(Sync(db, pol, xs, xClock).usage, day) == Spent(Sync(db, pol, ys, yClock).usage, day)
  {
    assert |xs| == |multiset(xs)| && |ys| == |multiset(ys)|;
    assert Accepted(xs) == xs && Accepted(ys) == ys;
    SyncTotal(db, pol, day, xs, xClock);
    SyncTotal(db, pol, day, ys, yClock);
    GrantMomentIsImmaterial(db, pol, xClock[0], yClock[0]);
    var seen := Recorded(Touch(db, pol, xClock[0]).log);
    DistinctIsPermutationInvariant(xs, ys);
    FreshIsNewWhenDistinct(xs, seen, {});
    FreshIsNewWhenDistinct(ys, seen, {});
    assert seen + {} == seen;
    NewSecondsPermuted(xs, ys, seen);
  }

  // ---------------------------------------------------------------- replay

  /** Each of the events is either recorded or cannot cost anything more today. */
  ghost predicate Settled(db: Db, pol: Policy, day: Day, events: set<EventId>) {
    && Raw(db.log) >= 0
    && Granted(db.usage, day)
    && (events <= Recorded(db.log) || Room(db, pol, day) == 0)
  }

  lemma {:induction false} ChargeAllSettles(db: Db, pol: Policy, day: Day, items: seq<Item>, clock: seq<Moment>)
    requires |clock| == |items| && SameDay(pol, clock, day) && Positive(items)
    requires Granted(db.usage, day) && Raw(db.log) >= 0
    ensures Settled(ChargeAll(db, pol, items, clock), pol, day, EventsOf(items))
    decreases |items|
  {
    ChargeAllTotal(db, pol, day, items, clock);
    if items == [] {
    } else {
      var next := Charge(db, pol, items[0], clock[0]);
      ChargeEffect(db, pol, items[0], clock[0]);
      ChargeAllSettles(next, pol, day, items[1..], clock[1..]);
      ChargeAllTotal(next, pol, day, items[1..], clock[1..]);
      assert EventsOf(items) == {items[0].event} + EventsOf(items[1..]) by {
        assert forall i :: 0 < i < |items| ==> items[i] == items[1..][i - 1];
      }
    }
  }

  lemma {:induction false} SettledCostsNothing(db: Db, pol: Policy, day: Day, items: seq<Item>, clock: seq<Moment>)
    requires |clock| == |items| && SameDay(pol, clock, day) && Positive(items)
    requires Settled(db, pol, day, EventsOf(items))
    ensures ChargeAll(db, pol, items, clock) == db
    decreases |items|
  {
    if items == [] {
    } else {
      assert items[0].event in EventsOf(items);
      assert Charge(db, pol, items[0], clock[0]) == db;
      assert EventsOf(items[1..]) <= EventsOf(items) by {
        assert forall i :: 0 <= i < |items| - 1 ==> items[1..][i] == items[i + 1];
      }
      SettledCostsNothing(db, pol, day, items[1..], clock[1..]);
    }
  }

  lemma SyncSettles(db: Db, pol: Policy, day: Day, body: seq<Item>, clock: seq<Moment>)
    requires |clock| == |Accepted(body)| + 1 && SameDay(pol, clock, day) && Positive(body) && Inv(db)
    ensures Settled(Sync(db, pol, body, clock), pol, day, EventsOf(Accepted(body)))
  {
    TouchKeepsInv(db, pol, clock[0]);
    SyncAfterGrant(db, pol, day, body, clock);
    if body != [] {
      ChargeAllSettles(Touch(db, pol, clock[0]), pol, day, Accepted(body), clock[..|Accepted(body)|]);
    }
  }

  /** Requests of the same day and policy that bring no new time: reading, playing, redeeming. */
  predicate Quiet(op: Op, pol: Policy, day: Day) {
    match op
    case LookOp(p, at) => p == pol && Today(pol, at) == day
    case SyncOp(p, _, clock) => p == pol && SameDay(pol, clock, day)
    case AdjustOp(p, direction, _, at, replied) =>
      p == pol && direction == Redeem && Today(pol, at) == day && Today(pol, replied) == day
    case RewardOp(_, _, _) => false
  }

  lemma QuietKeepsSettled(db: Db, pol: Policy, day: Day, events: set<EventId>, op: Op)
    requires Settled(db, pol, day, events) && Wellformed(op) && Quiet(op, pol, day)
    ensures Settled(Step(db, op), pol, day, events)
  {
    match op
    case LookOp(_, _) =>
    case SyncOp(_, body, clock) => ChargeAllTotal(db, pol, day, Accepted(body), clock[..|Accepted(body)|]);
    case AdjustOp(_, _, seconds, at, _) =>
      var taken := Min(seconds, Balance(db.log));
      AppendSums(db.log, Entry(-taken, Redeemed, None, at));
    case RewardOp(_, _, _) =>
  }

  lemma {:induction false} QuietRunKeepsSettled(db: Db, pol: Policy, day: Day, events: set<EventId>, ops: seq<Op>)
    requires Settled(db, pol, day, events)
    requires forall i :: 0 <= i < |ops| ==> Wellformed(ops[i]) && Quiet(ops[i], pol, day)
    ensures Settled(Run(db, ops), pol, day, events)
    decreases |ops|
  {
    if ops == [] {
    } else {
      QuietKeepsSettled(db, pol, day, events, ops[0]);
      QuietRunKeepsSettled(Step(db, ops[0]), pol, day, events, ops[1..]);
    }
  }

  /** Once a batch is synced, any list drawn from its events - whole, part, reordered, repeated, even
      with other durations - leaves every table as it was, also after more play and redemptions,
      and also for events that were cut to nothing and never recorded. */
  lemma {:induction false} ReplayChangesNothing(db: Db, pol: Policy, day: Day, body: seq<Item>, clock: seq<Moment>,
          meanwhile: seq<Op>, again: seq<Item>, againClock: seq<Moment>)
    requires Inv(db) && Positive(body) && Positive(again)
    requires |clock| == |Accepted(body)| + 1 && SameDay(pol, clock, day)
    requires |againClock| == |Accepted(again)| + 1 && SameDay(pol, againClock, day)
    requires forall i :: 0 <= i < |meanwhile| ==> Wellformed(meanwhile[i]) && Quiet(meanwhile[i], pol, day)
    requires EventsOf(Accepted(again)) <= EventsOf(Accepted(body))
    ensures var before := Run(Sync(db, pol, body, clock), meanwhile);
            Sync(before, pol, again, againClock) == before
  {
    SyncSettles(db, pol, day, body, clock);
    QuietRunKeepsSettled(Sync(db, pol, body, clock), pol, day, EventsOf(Accepted(body)), meanwhile);
    var before := Run(Sync(db, pol, body, clock), meanwhile);
    SettledCostsNothing(before, pol, day, Accepted(again), againClock[..|Accepted(again)|]);
  }

  lemma {:induction false} FreshExactlyWhenUnseen(items: seq<Item>, seen: set<EventId>)
    requires Positive(items)
    ensures FreshSeconds(items, seen) > 0 <==> !(EventsOf(items) <= seen)
    decreases |items|
  {
    if items == [] {
    } else {
      assert items[0].event in EventsOf(items);
      assert EventsOf(items) == {items[0].event} + EventsOf(items[1..]) by {
        assert forall i :: 0 < i < |items| ==> items[i] == items[1..][i - 1];
      }
      FreshExactlyWhenUnseen(items[1..], seen);
      FreshSecondsNonnegative(items[1..], seen + {items[0].event});
    }
  }

  lemma FreeOnClaimedDay(db: Db, pol: Policy, day: Day, items: seq<Item>, clock: seq<Moment>)
    requires |clock| == |items| && SameDay(pol, clock, day) && Positive(items)
    requires Granted(db.usage, day) && Raw(db.log) >= 0
    ensures ChargeAll(db, pol, items, clock) == db <==> Settled(db, pol, day, EventsOf(items))
  {
    if Settled(db, pol, day, EventsOf(items)) {
      SettledCostsNothing(db, pol, day, items, clock);
    } else {
      FreshExactlyWhenUnseen(items, Recorded(db.log));
      ChargeAllTotal(db, pol, day, items, clock);
    }
  }

  /** Apart from the day's first reading, a request is its charging loop. */
  lemma SyncIsCharging(db: Db, pol: Policy, day: Day, body: seq<Item>, clock: seq<Moment>)
    requires |clock| == |Accepted(body)| + 1 && SameDay(pol, clock, day) && Positive(body)
    requires Raw(Touch(db, pol, clock[0]).log) >= 0
    ensures Sync(db, pol, body, clock)
            == ChargeAll(Touch(db, pol, clock[0]), pol, Accepted(body), clock[..|Accepted(body)|])
  {
    SyncAfterGrant(db, pol, day, body, clock);
    ChargeAllTotal(Touch(db, pol, clock[0]), pol, day, Accepted(body), clock[..|Accepted(body)|]);
  }

  /** When is a batch free on a day that is not the replay law's? Exactly when the request's first reading,
      which may claim the day's allowance, leaves all its events recorded or the day without room. A batch
      that was cut to nothing yesterday therefore costs again on the first day that has room. */
  lemma FreeExactlyWhenSettled(db: Db, pol: Policy, day: Day, body: seq<Item>, clock: seq<Moment>)
    requires |clock| == |Accepted(body)| + 1 && SameDay(pol, clock, day) && Positive(body) && Inv(db)
    ensures Sync(db, pol, body, clock) == Touch(db, pol, clock[0])
            <==> Settled(Touch(db, pol, clock[0]), pol, day, EventsOf(Accepted(body)))
  {
    TouchKeepsInv(db, pol, clock[0]);
    SyncIsCharging(db, pol, day, body, clock);
    FreeOnClaimedDay(Touch(db, pol, clock[0]), pol, day, Accepted(body), clock[..|Accepted(body)|]);
  }

  lemma TouchRecordsNoEvent(db: Db, pol: Policy, at: Moment, event: EventId)
    ensures Seen(Touch(db, pol, at).log, event) <==> Seen(db.log, event)
  {
    AppendSums(db.log, Entry(GrantFor(Today(pol, at), pol.dailyGrants), DailyGrant(Today(pol, at)), None, at));
  }

  lemma FreshOfOne(item: Item, seen: set<EventId>)
    ensures FreshSeconds([item], seen) == if item.event in seen then 0 else item.seconds
  {
    assert [item][1..] == [];
  }

  /** The failing case in full: an unrecorded event played on a day without room leaves no trace there, and
      sending it again on another day costs whatever that day has room for. */
  lemma CutEventCostsLater(db: Db, pol: Policy, item: Item, at: Moment, later: Moment)
    requires Inv(db) && item.seconds >= 1 && !Seen(db.log, item.event)
    requires Room(Touch(db, pol, at), pol, Today(pol, at)) == 0
    ensures var once := Sync(db, pol, [item], [at, at]);
            var start := Touch(once, pol, later);
            var again := Sync(once, pol, [item], [later, later]);
            && once == Touch(db, pol, at)
            && Raw(start.log) - Raw(again.log) == Min(item.seconds, Room(start, pol, Today(pol, later)))
  {
    TouchKeepsInv(db, pol, at);
    var once := Touch(db, pol, at);
    assert Accepted([item]) == [item];
    FreeExactlyWhenSettled(db, pol, Today(pol, at), [item], [at, at]);
    TouchKeepsInv(once, pol, later);
    SyncTotal(once, pol, Today(pol, later), [item], [later, later]);
    assert !Seen(Touch(once, pol, later).log, item.event) by {
      TouchRecordsNoEvent(db, pol, at, item.event);
      TouchRecordsNoEvent(once, pol, later, item.event);
    }
    FreshOfOne(item, Recorded(Touch(once, pol, later).log));
  }

  /** A phone without allowance on Thursday and ten minutes on Friday: the minute played on Thursday is
      free that day, and is charged when the phone sends it again on Friday. Days 0 and 1 are 1 and 2
      January 1970, and the readings are taken at local noon. */
  lemma CutEventExample()
    ensures var caps: Week := [3600, 3600, 3600, 3600, 3600, 3600, 3600];
            var grants: Week := [0, 0, 0, 0, 600, 0, 0];
            var pol := Policy(caps, grants, 5, 7);
            var item := Item("event-01", 60, None);
            var once := Sync(Db([], map[]), pol, [item], [5 * HOUR, 5 * HOUR]);
            var again := Sync(once, pol, [item], [DAY + 5 * HOUR, DAY + 5 * HOUR]);
            Raw(once.log) == 0 && Spent(once.usage, 0) == 0 && Raw(again.log) == 540 && Spent(again.usage, 1) == 60
  {
    var caps: Week := [3600, 3600, 3600, 3600, 3600, 3600, 3600];
    var grants: Week := [0, 0, 0, 0, 600, 0, 0];
    var pol := Policy(caps, grants, 5, 7);
    var item := Item("event-01", 60, None);
    var empty := Db([], map[]);
    assert Today(pol, 5 * HOUR) == 0 && Today(pol, DAY + 5 * HOUR) == 1;
    var once := Touch(empty, pol, 5 * HOUR);
    assert once == Db([], map[0 := UsageRow(0, Some(5 * HOUR))]);
    EmptyKeepsInv();
    TouchKeepsInv(empty, pol, 5 * HOUR);
    CutEventCostsLater(empty, pol, item, 5 * HOUR, DAY + 5 * HOUR);
    var start := Touch(once, pol, DAY + 5 * HOUR);
    assert start.log == [Entry(600, DailyGrant(1), None, DAY + 5 * HOUR)];
    assert Raw(start.log) == 600;
    TouchKeepsInv(once, pol, DAY + 5 * HOUR);
    SyncTotal(once, pol, 1, [item], [DAY + 5 * HOUR, DAY + 5 * HOUR]);
  }

  // ---------------------------------------------------------------- the standing tells the truth

  /** A phone told it may play `playable` seconds is charged every second of any new event up to
      that, on the same day and policy; and it is told a positive figure exactly when nothing blocks. */
  lemma PlayableIsChargeable(db: Db, pol: Policy, lastStudy: Option<Day>, phone: Option<Phone>, at: Moment,
                             item: Item, later: Moment)
    requires Inv(db) && item.seconds >= 1 && Today(pol, later) == Today(pol, at)
    ensures var now := Touch(db, pol, at);
            var shown := StandingOf(now, pol, lastStudy, phone, at);
            && 0 <= shown.playable
            && (shown.playable > 0 <==> shown.reason == Unblocked)
            && (item.seconds <= shown.playable && !Seen(now.log, item.event)
                ==> Raw(Charge(now, pol, item, later).log) == Raw(now.log) - item.seconds)
  {
    TouchKeepsInv(db, pol, at);
    ChargeEffect(Touch(db, pol, at), pol, item, later);
  }

  /** When the guardian freezes play: some phone is bound, and the one heard of last is disabled or has been
      silent for more than five minutes. A phone never heard of freezes nothing by its silence. */
  lemma FrozenExactly(phones: seq<Phone>, at: Moment)
    ensures Frozen(Freshest(phones), at) <==>
            && phones != []
            && var phone := Freshest(phones).value;
               phone.disabled || (phone.lastHeartbeat.Some? && phone.lastHeartbeat.value + 5 * MINUTE < at)
    ensures forall p :: p in phones && p.lastHeartbeat.Some? ==>
              && Freshest(phones).value.lastHeartbeat.Some?
              && p.lastHeartbeat.value <= Freshest(phones).value.lastHeartbeat.value
  {
    forall p | p in phones && p.lastHeartbeat.Some?
      ensures Freshest(phones).value.lastHeartbeat.Some?
      ensures p.lastHeartbeat.value <= Freshest(phones).value.lastHeartbeat.value
    {
      assert !HeardLater(p, Freshest(phones).value);
    }
  }

  /** A subject that never studied is never locked; one that did is locked exactly when more days have passed
      since than the policy allows. */
  lemma IdleExactly(lastStudy: Option<Day>, today: Day, allowed: int)
    ensures LockedByIdle(lastStudy, today, allowed) <==> lastStudy.Some? && lastStudy.value + allowed < today
  {
  }

  /** Every figure of the standing, in terms of the log, the usage row and the policy: the balance is the sum of
      the log, the playable figure is the room unless something blocks, and the reason names what does, the
      guardian first, then an empty balance, then idleness, then the cap. */
  lemma StandingTells(db: Db, pol: Policy, lastStudy: Option<Day>, phone: Option<Phone>, at: Moment)
    requires Inv(db)
    ensures var shown := StandingOf(db, pol, lastStudy, phone, at);
            var day := Today(pol, at);
            var idle := LockedByIdle(lastStudy, day, pol.idleDaysAllowed);
            var capLeft := pol.dailyCaps[Weekday(day)] - Spent(db.usage, day);
            && shown.balance == Raw(db.log)
            && shown.dailyCap - shown.spentToday == capLeft && shown.spentToday == Spent(db.usage, day)
            && shown.playable == (if Frozen(phone, at) || idle then 0 else Room(db, pol, day))
            && (shown.reason == GuardianStale <==> Frozen(phone, at))
            && (shown.reason == NoBalance <==> !Frozen(phone, at) && Raw(db.log) == 0)
            && (shown.reason == Idle <==> !Frozen(phone, at) && Raw(db.log) > 0 && idle)
            && (shown.reason == DailyCapReached <==> !Frozen(phone, at) && Raw(db.log) > 0 && !idle && capLeft <= 0)
            && shown.idleDays == (if lastStudy.Some? then day - lastStudy.value else 0)
            && shown.idleDaysAllowed == pol.idleDaysAllowed
            && shown.secondsUntilReset == UntilReset(at, pol.resetHour, APP_TZ) / SECOND
  {
  }

  /** Whether a subject is kept from playing whatever its balance: a silent or disabled guardian, or idleness. */
  predicate Blocked(pol: Policy, lastStudy: Option<Day>, phone: Option<Phone>, at: Moment) {
    Frozen(phone, at) || LockedByIdle(lastStudy, Today(pol, at), pol.idleDaysAllowed)
  }

  /** The converse of the law above fails: play can be charged beyond the shown figure. It happens exactly
      when a new event arrives while the subject is blocked and the day has room, because the blocks
      hide the figure and do not enter the charge. */
  lemma ChargedBeyondShownExactly(db: Db, pol: Policy, lastStudy: Option<Day>, phone: Option<Phone>, at: Moment,
                                  item: Item)
    requires Inv(db) && item.seconds >= 1
    ensures var now := Touch(db, pol, at);
            Raw(now.log) - Raw(Charge(db, pol, item, at).log) > StandingOf(now, pol, lastStudy, phone, at).playable
            <==> Blocked(pol, lastStudy, phone, at) && !Seen(now.log, item.event) && Room(now, pol, Today(pol, at)) > 0
  {
    TouchKeepsInv(db, pol, at);
    ChargeEffect(db, pol, item, at);
  }

  /** A phone silent for six minutes, on a Thursday with ten minutes of allowance: it is shown nothing and
      charged the minute it reports. */
  lemma BlockedAndCharged()
    ensures var week: Week := [600, 600, 600, 600, 600, 600, 600];
            var pol := Policy(week, week, 5, 7);
            var phone := Some(Phone(false, Some(5 * HOUR - 6 * MINUTE)));
            var now := Touch(Db([], map[]), pol, 5 * HOUR);
            && StandingOf(now, pol, None, phone, 5 * HOUR).playable == 0
            && Raw(now.log) == 600
            && Raw(Charge(now, pol, Item("event-01", 60, None), 5 * HOUR).log) == 540
  {
    var week: Week := [600, 600, 600, 600, 600, 600, 600];
    var pol := Policy(week, week, 5, 7);
    var now := Touch(Db([], map[]), pol, 5 * HOUR);
    assert now.log == [Entry(600, DailyGrant(0), None, 5 * HOUR)];
    assert Raw(now.log) == 600;
    ChargeEffect(now, pol, Item("event-01", 60, None), 5 * HOUR);
  }

  // ---------------------------------------------------------------- what is written

  /** Of a body only the first two hundred items are looked at; what follows them costs nothing. */
  lemma BatchIsCut(db: Db, pol: Policy, body: seq<Item>, clock: seq<Moment>)
    requires |clock| == |Accepted(body)| + 1
    ensures |body| <= 200 ==> Accepted(body) == body
    ensures |body| > 200 ==> |clock| == 201 && Sync(db, pol, body, clock) == Sync(db, pol, body[..200], clock)
  {
    if |body| > 200 {
      assert Accepted(body) == body[..200] == Accepted(body[..200]);
    }
  }

  /** The row a charge writes: the seconds taken, as consumption, under the item's event, and dated when the
      phone says it was played or, if it does not say, now. */
  lemma ChargeIsLogged(db: Db, pol: Policy, item: Item, at: Moment)
    requires Inv(db) && item.seconds >= 1
    ensures var now := Touch(db, pol, at);
            var after := Charge(db, pol, item, at);
            && (after == now || |after.log| == |now.log| + 1)
            && now.log <= after.log
            && (after != now ==>
                  var e := after.log[|now.log|];
                  && e.Type() == ConsumedType && e.event == Some(item.event)
                  && e.occurredAt == (if item.occurredAt.Some? then item.occurredAt.value else at)
                  && 0 < -e.delta <= item.seconds)
  {
    TouchKeepsInv(db, pol, at);
    ChargeCases(db, pol, item, at);
  }

  /** The rows the other requests write, dated when they were made. */
  lemma OthersAreLogged(db: Db, pol: Policy, direction: Direction, seconds: int, credited: int, ref: int, at: Moment)
    requires Inv(db) && seconds >= 60
    ensures var now := Touch(db, pol, at);
            now != db && now.log != db.log ==>
              && |now.log| == |db.log| + 1 && db.log <= now.log
              && now.log[|db.log|].Type() == GrantedType && now.log[|db.log|].occurredAt == at
              && now.log[|db.log|].event == None
    ensures var now := Touch(db, pol, at);
            var after := Adjusted(db, pol, direction, seconds, at);
            after.Some? ==>
              && |after.value.log| == |now.log| + 1 && now.log <= after.value.log
              && after.value.log[|now.log|].Type() == (if direction == Grant then GrantedType else RedeemedType)
              && after.value.log[|now.log|].occurredAt == at && after.value.log[|now.log|].event == None
    ensures credited > 0 ==>
              && Rewarded(db, credited, ref, at).log[..|db.log|] == db.log
              && |Rewarded(db, credited, ref, at).log| == |db.log| + 1
              && Rewarded(db, credited, ref, at).log[|db.log|].Type() == EarnedType
              && Rewarded(db, credited, ref, at).log[|db.log|].occurredAt == at
  {
  }
}
