/** The rules of one subject and their delayed loosening (app/routers/policies.py). */
module Policies {
  import opened Base
  import opened Rules

  type Package = string

  const WEAKEN_DELAY := 24 * HOUR
  const UNDO_WINDOW := 10 * MINUTE

  /** The rule columns of a policy row. The essay ratio column keeps two decimals, held here as hundredths. */
  datatype Terms = Terms(
    questions: int, baseReward: int, essayHundredths: int, level: string, language: string,
    dailyCaps: Week, dailyGrants: Week, idleDays: int, resetHour: int, uploads: seq<string>,
    lockedApps: seq<Package>)

  /** The fields a request names; the others are absent. */
  datatype Changes = Changes(
    questions: Option<int>, baseReward: Option<int>, essayRatio: Option<real>, level: Option<string>,
    language: Option<string>, dailyCaps: Option<Week>, dailyGrants: Option<Week>, idleDays: Option<int>,
    resetHour: Option<int>, uploads: Option<seq<string>>, lockedApps: Option<seq<Package>>)

  const NO_CHANGES := Changes(None, None, None, None, None, None, None, None, None, None, None)

  /** The pending column is free-form; unlocking looks for a `__last_locked__` key in it. */
  datatype Payload = Payload(changes: Changes, lastLocked: Option<Package>)

  datatype Pending = Pending(at: Moment, payload: Payload)

  datatype Row = Row(terms: Terms, pending: Option<Pending>, updatedAt: Moment)

  function Or<T>(change: Option<T>, current: T): T {
    if change.Some? then change.value else current
  }

  function Install(t: Terms, c: Changes): Terms {
    Terms(
      Or(c.questions, t.questions), Or(c.baseReward, t.baseReward),
      if c.essayRatio.Some? then Hundredths(c.essayRatio.value) else t.essayHundredths,
      Or(c.level, t.level), Or(c.language, t.language), Or(c.dailyCaps, t.dailyCaps),
      Or(c.dailyGrants, t.dailyGrants), Or(c.idleDays, t.idleDays), Or(c.resetHour, t.resetHour),
      Or(c.uploads, t.uploads), Or(c.lockedApps, t.lockedApps))
  }

  predicate AnyDayHigher(after: Week, before: Week) {
    exists d :: 0 <= d < 7 && after[d] > before[d]
  }

  predicate EssayLower(t: Terms, c: Changes) {
    c.essayRatio.Some? && c.essayRatio.value < t.essayHundredths as real / 100.0
  }

  predicate IsWeakening(t: Terms, c: Changes) {
    || (c.baseReward.Some? && c.baseReward.value > t.baseReward)
    || (c.idleDays.Some? && c.idleDays.value > t.idleDays)
    || (c.questions.Some? && c.questions.value < t.questions)
    || (c.dailyCaps.Some? && AnyDayHigher(c.dailyCaps.value, t.dailyCaps))
    || (c.dailyGrants.Some? && AnyDayHigher(c.dailyGrants.value, t.dailyGrants))
    || (c.lockedApps.Some? && exists p :: p in t.lockedApps && p !in c.lockedApps.value)
    || EssayLower(t, c)
  }

  function Removed(apps: seq<Package>, package: Package): seq<Package> {
    if apps == [] then []
    else (if apps[0] != package then [apps[0]] else []) + Removed(apps[1..], package)
  }

  // ---------------------------------------------------------------- requests, as functions on the row

  datatype Op =
    | PutOp(changes: Changes, at: Moment)
    | ApplyOp(at: Moment)
    | CancelOp(at: Moment)
    | LockOp(package: Package, at: Moment)
    | UnlockOp(package: Package, at: Moment)

  predicate RecentlyLocked(row: Row, package: Package, at: Moment) {
    && at - row.updatedAt <= UNDO_WINDOW
    && row.pending.Some?
    && row.pending.value.payload.lastLocked == Some(package)
  }

  /** The changes a step would file in the pending slot, if it files any. */
  function Filed(row: Row, personal: bool, op: Op): Option<Changes> {
    match op
    case PutOp(c, _) => if personal && IsWeakening(row.terms, c) then Some(c) else None
    case UnlockOp(package, at) =>
      if package in row.terms.lockedApps && personal && !RecentlyLocked(row, package, at)
      then Some(NO_CHANGES.(lockedApps := Some(Removed(row.terms.lockedApps, package))))
      else None
    case _ => None
  }

  predicate Ripe(row: Row, at: Moment) {
    row.pending.Some? && row.pending.value.at <= at && row.pending.value.payload.lastLocked == None
  }

  function Step(row: Row, personal: bool, op: Op): Row {
    if Filed(row, personal, op).Some? then
      row.(pending := Some(Pending(op.at + WEAKEN_DELAY, Payload(Filed(row, personal, op).value, None))),
           updatedAt := op.at)
    else
      match op
      case PutOp(c, at) => if c == NO_CHANGES then row else row.(terms := Install(row.terms, c), updatedAt := at)
      case ApplyOp(at) =>
        if Ripe(row, at) then Row(Install(row.terms, row.pending.value.payload.changes), None, at) else row
      case CancelOp(at) => row.(pending := None, updatedAt := at)
      case LockOp(package, at) =>
        if package in row.terms.lockedApps then row
        else row.(terms := row.terms.(lockedApps := row.terms.lockedApps + [package]), updatedAt := at)
      case UnlockOp(package, at) =>
        if package !in row.terms.lockedApps then row
        else row.(terms := row.terms.(lockedApps := Removed(row.terms.lockedApps, package)), updatedAt := at)
  }

  // ---------------------------------------------------------------- requests, as they run

  datatype Reply = Reply(applied: bool, pendingUntil: Option<Moment>)

  lemma {:induction false} RemovedIsGone(apps: seq<Package>, package: Package)
    ensures forall p :: p in Removed(apps, package) <==> p in apps && p != package
  {
    if apps == [] {
    } else {
      RemovedIsGone(apps[1..], package);
      assert apps == [apps[0]] + apps[1..];
    }
  }

  class PolicyStore {
    const personal: bool
    var terms: Terms
    var pending: Option<Pending>
    var updatedAt: Moment

    ghost function Current(): Row
      reads this
    {
      Row(terms, pending, updatedAt)
    }

    constructor (personal: bool, terms: Terms, at: Moment)
      ensures this.personal == personal && Current() == Row(terms, None, at)
    {
      this.personal, this.terms, pending, updatedAt := personal, terms, None, at;
    }

    method PutPolicy(changes: Changes, at: Moment) returns (reply: Reply)
      modifies this
      ensures Current() == Step(old(Current()), personal, PutOp(changes, at))
      ensures reply.pendingUntil.Some? <==> Filed(old(Current()), personal, PutOp(changes, at)).Some?
      ensures reply.pendingUntil.Some? ==> terms == old(terms) && reply.pendingUntil == Some(at + WEAKEN_DELAY)
      ensures reply.applied <==> changes != NO_CHANGES && reply.pendingUntil == None
    {
      if changes == NO_CHANGES {
        return Reply(false, None);
      }
      var weakening := IsWeakening(terms, changes);
      if personal && weakening {
        pending := Some(Pending(at + WEAKEN_DELAY, Payload(changes, None)));
        updatedAt := at;
        return Reply(false, Some(at + WEAKEN_DELAY));
      }
      terms := Install(terms, changes);
      updatedAt := at;
      return Reply(true, None);
    }

    /** A payload with a key that is no column makes the update fail, like any refusal. */
    method ApplyPending(at: Moment) returns (r: Outcome<Reply>)
      modifies this
      ensures Current() == Step(old(Current()), personal, ApplyOp(at))
      ensures r.Done? <==> Ripe(old(Current()), at)
      ensures r.Done? ==> pending == None && terms == Install(old(terms), old(pending).value.payload.changes)
      ensures r.Refused? ==> Current() == old(Current())
    {
      if pending == None {
        return Refused("not_found");
      }
      if pending.value.at > at {
        return Refused("still_waiting");
      }
      var payload := pending.value.payload;
      if payload.lastLocked.Some? {
        return Refused("internal_error");
      }
      terms := Install(terms, payload.changes);
      pending := None;
      updatedAt := at;
      return Done(Reply(true, None));
    }

    method CancelPending(at: Moment) returns (reply: Reply)
      modifies this
      ensures Current() == Step(old(Current()), personal, CancelOp(at))
      ensures pending == None && terms == old(terms)
    {
      pending := None;
      updatedAt := at;
      return Reply(true, None);
    }

    method LockApp(package: Package, at: Moment) returns (reply: Reply)
      modifies this
      ensures Current() == Step(old(Current()), personal, LockOp(package, at))
      ensures terms == old(terms).(lockedApps := terms.lockedApps) && pending == old(pending)
      ensures forall other :: other in terms.lockedApps <==> other in old(terms).lockedApps || other == package
      ensures reply.applied <==> package !in old(terms).lockedApps
    {
      var apps := terms.lockedApps;
      if package in apps {
        return Reply(false, None);
      }
      apps := apps + [package];
      terms := terms.(lockedApps := apps);
      updatedAt := at;
      return Reply(true, None);
    }

    method UnlockApp(package: Package, at: Moment) returns (r: Outcome<Reply>)
      modifies this
      ensures Current() == Step(old(Current()), personal, UnlockOp(package, at))
      ensures r.Done? <==> package in old(terms).lockedApps
      ensures r.Done? ==> (r.value.applied <==> package !in terms.lockedApps)
    {
      var apps := terms.lockedApps;
      if package !in apps {
        return Refused("not_found");
      }
      RemovedIsGone(apps, package);
      var recentlyAdded :=
        && at - updatedAt <= UNDO_WINDOW
        && pending.Some?
        && pending.value.payload.lastLocked == Some(package);
      if personal && !recentlyAdded {
        var changes := NO_CHANGES.(lockedApps := Some(Removed(apps, package)));
        pending := Some(Pending(at + WEAKEN_DELAY, Payload(changes, None)));
        updatedAt := at;
        return Done(Reply(false, Some(at + WEAKEN_DELAY)));
      }
      terms := terms.(lockedApps := Removed(apps, package));
      updatedAt := at;
      return Done(Reply(true, None));
    }
  }

  // ---------------------------------------------------------------- how loose a policy is

  type DayIndex = i: int | 0 <= i < 7

  /** The fields whose loosening is delayed, one per day and one per package. */
  datatype Field =
    | Questions | BaseReward | EssayRatio | IdleDays
    | Cap(day: DayIndex) | Allowance(day: DayIndex) | Unlocked(package: Package)

  /** Larger is looser. Policies are compared field by field. */
  function Looseness(t: Terms, f: Field): int {
    match f
    case Questions => -t.questions
    case BaseReward => t.baseReward
    case EssayRatio => -t.essayHundredths
    case IdleDays => t.idleDays
    case Cap(day) => t.dailyCaps[day]
    case Allowance(day) => t.dailyGrants[day]
    case Unlocked(package) => if package in t.lockedApps then 0 else 1
  }

  predicate Mentions(c: Changes, f: Field) {
    match f
    case Questions => c.questions.Some?
    case BaseReward => c.baseReward.Some?
    case EssayRatio => c.essayRatio.Some?
    case IdleDays => c.idleDays.Some?
    case Cap(_) => c.dailyCaps.Some?
    case Allowance(_) => c.dailyGrants.Some?
    case Unlocked(_) => c.lockedApps.Some?
  }

  /** How loose the value a request names is, once the column has stored it. */
  function LoosenessOf(c: Changes, f: Field): int
    requires Mentions(c, f)
  {
    match f
    case Questions => -c.questions.value
    case BaseReward => c.baseReward.value
    case EssayRatio => -Hundredths(c.essayRatio.value)
    case IdleDays => c.idleDays.value
    case Cap(day) => c.dailyCaps.value[day]
    case Allowance(day) => c.dailyGrants.value[day]
    case Unlocked(package) => if package in c.lockedApps.value then 0 else 1
  }

  ghost predicate Loosens(t: Terms, u: Terms) {
    exists f :: Looseness(u, f) > Looseness(t, f)
  }

  lemma WeakeningShows(t: Terms, c: Changes)
    requires IsWeakening(t, c) && !EssayLower(t, c)
    ensures Loosens(t, Install(t, c))
  {
    var u := Install(t, c);
    if c.baseReward.Some? && c.baseReward.value > t.baseReward {
      assert Looseness(u, BaseReward) > Looseness(t, BaseReward);
    } else if c.idleDays.Some? && c.idleDays.value > t.idleDays {
      assert Looseness(u, IdleDays) > Looseness(t, IdleDays);
    } else if c.questions.Some? && c.questions.value < t.questions {
      assert Looseness(u, Questions) > Looseness(t, Questions);
    } else if c.dailyCaps.Some? && AnyDayHigher(c.dailyCaps.value, t.dailyCaps) {
      var d :| 0 <= d < 7 && c.dailyCaps.value[d] > t.dailyCaps[d];
      assert Looseness(u, Cap(d)) > Looseness(t, Cap(d));
    } else if c.dailyGrants.Some? && AnyDayHigher(c.dailyGrants.value, t.dailyGrants) {
      var d :| 0 <= d < 7 && c.dailyGrants.value[d] > t.dailyGrants[d];
      assert Looseness(u, Allowance(d)) > Looseness(t, Allowance(d));
    } else {
      var p :| p in t.lockedApps && p !in c.lockedApps.value;
      assert Looseness(u, Unlocked(p)) > Looseness(t, Unlocked(p));
    }
  }

  lemma HundredthsAreMonotone(ratio: real, current: int)
    ensures ratio >= current as real / 100.0 ==> Hundredths(ratio) >= current
    ensures ratio < current as real / 100.0 ==> Hundredths(ratio) <= current
  {
  }

  lemma LoosenedIsWeakening(t: Terms, c: Changes)
    requires Loosens(t, Install(t, c))
    ensures IsWeakening(t, c)
  {
    var f :| Looseness(Install(t, c), f) > Looseness(t, f);
    match f
    case EssayRatio => HundredthsAreMonotone(c.essayRatio.value, t.essayHundredths);
    case _ =>
  }

  /** The direction test is sound - nothing that loosens a field slips through - and exact, except that
      a ratio below the current one by less than the column can show counts although it stores the same. */
  lemma WeakeningIsLoosening(t: Terms, c: Changes)
    ensures IsWeakening(t, c) <==>
            Loosens(t, Install(t, c)) || (EssayLower(t, c) && Hundredths(c.essayRatio.value) == t.essayHundredths)
  {
    var u := Install(t, c);
    if Loosens(t, u) {
      LoosenedIsWeakening(t, c);
    }
    if IsWeakening(t, c) && !EssayLower(t, c) {
      WeakeningShows(t, c);
    }
    if EssayLower(t, c) {
      HundredthsAreMonotone(c.essayRatio.value, t.essayHundredths);
      if Hundredths(c.essayRatio.value) < t.essayHundredths {
        assert Looseness(u, EssayRatio) > Looseness(t, EssayRatio);
      }
    }
  }

  lemma InstallLooseness(t: Terms, c: Changes, f: Field)
    ensures Looseness(Install(t, c), f) == if Mentions(c, f) then LoosenessOf(c, f) else Looseness(t, f)
  {
  }

  /** The request that names every field as another policy has it. */
  function AllOf(u: Terms): Changes {
    Changes(Some(u.questions), Some(u.baseReward), Some(u.essayHundredths as real / 100.0), Some(u.level),
            Some(u.language),
            Some(u.dailyCaps), Some(u.dailyGrants), Some(u.idleDays), Some(u.resetHour), Some(u.uploads),
            Some(u.lockedApps))
  }

  /** Installing the whole of a policy reproduces it, whatever was there before; installing nothing changes
      nothing; and naming a policy's own terms is never a loosening. */
  lemma InstallRoundTrip(t: Terms, u: Terms)
    ensures Install(t, AllOf(u)) == u
    ensures Install(t, NO_CHANGES) == t
    ensures !IsWeakening(u, AllOf(u))
  {
    HundredthsExact(u.essayHundredths);
  }

  // ---------------------------------------------------------------- what is not delayed

  /** The rules that no direction test looks at. */
  datatype Undelayed = Level | Language | ResetHour | Uploads

  predicate Differs(t: Terms, u: Terms, r: Undelayed) {
    match r
    case Level => u.level != t.level
    case Language => u.language != t.language
    case ResetHour => u.resetHour != t.resetHour
    case Uploads => u.uploads != t.uploads
  }

  predicate AsksOther(t: Terms, c: Changes, r: Undelayed) {
    match r
    case Level => c.level.Some? && c.level.value != t.level
    case Language => c.language.Some? && c.language.value != t.language
    case ResetHour => c.resetHour.Some? && c.resetHour.value != t.resetHour
    case Uploads => c.uploads.Some? && c.uploads.value != t.uploads
  }

  /** Not every rule waits in personal mode. A request changes one of these at once if and only if it asks
      for another value and loosens nothing else on the way - the whole request waits otherwise - and
      a request that names none of the delayed fields is installed entirely at once. */
  lemma UndelayedExactly(row: Row, c: Changes, at: Moment, r: Undelayed)
    ensures var after := Step(row, true, PutOp(c, at)).terms;
            && (Differs(row.terms, after, r) <==> AsksOther(row.terms, c, r) && !IsWeakening(row.terms, c))
            && ((forall f :: !Mentions(c, f)) ==> after == Install(row.terms, c))
  {
    if forall f :: !Mentions(c, f) {
      assert !Mentions(c, Questions) && !Mentions(c, BaseReward) && !Mentions(c, EssayRatio) && !Mentions(c, IdleDays);
      assert !Mentions(c, Cap(0)) && !Mentions(c, Allowance(0)) && !Mentions(c, Unlocked(""));
    }
  }

  /** One extra second of reward makes a lower level wait with it. */
  lemma MixedRequestWaits(row: Row, level: string, at: Moment)
    ensures var alone := NO_CHANGES.(level := Some(level));
            && Step(row, true, PutOp(alone, at)).terms == row.terms.(level := level)
            && Step(row, true, PutOp(alone.(baseReward := Some(row.terms.baseReward + 1)), at)).terms == row.terms
  {
  }

  // ---------------------------------------------------------------- whole runs

  function Run(row: Row, personal: bool, ops: seq<Op>): Row {
    if ops == [] then row else Step(Run(row, personal, ops[..|ops| - 1]), personal, ops[|ops| - 1])
  }

  /** The row after the first k requests. */
  function At(row: Row, personal: bool, ops: seq<Op>, k: nat): Row
    requires k <= |ops|
  {
    Run(row, personal, ops[..k])
  }

  lemma AtNext(row: Row, personal: bool, ops: seq<Op>, k: nat)
    requires k < |ops|
    ensures At(row, personal, ops, k + 1) == Step(At(row, personal, ops, k), personal, ops[k])
  {
    assert ops[..k + 1][..k] == ops[..k];
  }

  /** Steps that change what is pending: a filing replaces it, a cancel drops it, a ripe apply uses it up. */
  predicate Disturbs(row: Row, personal: bool, op: Op) {
    Filed(row, personal, op).Some? || op.CancelOp? || (op.ApplyOp? && Ripe(row, op.at))
  }

  /** No step after the m-th and before the k-th disturbs the slot. */
  ghost predicate Undisturbed(row: Row, personal: bool, ops: seq<Op>, m: nat, k: nat)
    requires k <= |ops|
  {
    forall n :: m < n < k ==> !Disturbs(At(row, personal, ops, n), personal, ops[n])
  }

  lemma UndisturbedNext(row: Row, personal: bool, ops: seq<Op>, m: nat, k: nat)
    requires k < |ops| && Undisturbed(row, personal, ops, m, k)
    requires m < k ==> !Disturbs(At(row, personal, ops, k), personal, ops[k])
    ensures Undisturbed(row, personal, ops, m, k + 1)
  {
  }

  lemma SlotKept(row: Row, personal: bool, op: Op)
    requires Step(row, personal, op).pending.Some? && Filed(row, personal, op) == None
    ensures Step(row, personal, op).pending == row.pending && !Disturbs(row, personal, op)
  {
  }

  /** Whatever sits in the slot was filed by an earlier request exactly the delay before it ripens, never
      carries `__last_locked__`, and was neither replaced nor cancelled nor applied since. */
  lemma {:induction false} SlotOrigin(row: Row, personal: bool, ops: seq<Op>, k: nat) returns (m: nat)
    requires row.pending == None && k <= |ops|
    requires At(row, personal, ops, k).pending.Some?
    ensures m < k
    ensures var slot := At(row, personal, ops, k).pending.value;
            && slot.payload.lastLocked == None
            && Filed(At(row, personal, ops, m), personal, ops[m]) == Some(slot.payload.changes)
            && slot.at == ops[m].at + 24 * HOUR
    ensures Undisturbed(row, personal, ops, m, k)
  {
    assert ops[..0] == [];
    var before := At(row, personal, ops, k - 1);
    AtNext(row, personal, ops, k - 1);
    if Filed(before, personal, ops[k - 1]).Some? {
      m := k - 1;
    } else {
      SlotKept(before, personal, ops[k - 1]);
      m := SlotOrigin(row, personal, ops, k - 1);
      UndisturbedNext(row, personal, ops, m, k - 1);
    }
  }

  lemma FilingFills(row: Row, personal: bool, op: Op)
    requires Filed(row, personal, op).Some?
    ensures Step(row, personal, op).pending.Some?
  {
  }

  lemma UndisturbedStays(row: Row, personal: bool, op: Op)
    requires !Disturbs(row, personal, op)
    ensures Step(row, personal, op).pending == row.pending
  {
  }

  lemma {:induction false} SlotStays(row: Row, personal: bool, ops: seq<Op>, m: nat, k: nat, slot: Option<Pending>)
    requires m < k <= |ops| && Undisturbed(row, personal, ops, m, k)
    requires At(row, personal, ops, m + 1).pending == slot
    ensures At(row, personal, ops, k).pending == slot
    decreases k
  {
    if m + 1 == k {
    } else {
      SlotStays(row, personal, ops, m, k - 1, slot);
      AtNext(row, personal, ops, k - 1);
      UndisturbedStays(At(row, personal, ops, k - 1), personal, ops[k - 1]);
    }
  }

  /** In every run something is pending if and only if some request filed it and nothing has disturbed it
      since: a cancelled or applied request can never take effect again. */
  lemma {:induction false} SlotIsLastFiling(row: Row, personal: bool, ops: seq<Op>, k: nat)
    requires row.pending == None && k <= |ops|
    ensures At(row, personal, ops, k).pending.Some? <==>
            exists m :: 0 <= m < k && Filed(At(row, personal, ops, m), personal, ops[m]).Some?
                        && Undisturbed(row, personal, ops, m, k)
  {
    if At(row, personal, ops, k).pending.Some? {
      var m := SlotOrigin(row, personal, ops, k);
    }
    if m :| 0 <= m < k && Filed(At(row, personal, ops, m), personal, ops[m]).Some?
            && Undisturbed(row, personal, ops, m, k) {
      AtNext(row, personal, ops, m);
      FilingFills(At(row, personal, ops, m), personal, ops[m]);
      SlotStays(row, personal, ops, m, k, At(row, personal, ops, m + 1).pending);
    }
  }

  /** For a personal subject only a ripe apply can loosen anything, and it loosens to what it carries. */
  lemma OnlyApplyLoosens(row: Row, op: Op, f: Field)
    requires row.pending.Some? ==> row.pending.value.payload.lastLocked == None
    requires Looseness(Step(row, true, op).terms, f) > Looseness(row.terms, f)
    ensures op.ApplyOp? && Ripe(row, op.at)
    ensures Mentions(row.pending.value.payload.changes, f)
    ensures Looseness(Step(row, true, op).terms, f) == LoosenessOf(row.pending.value.payload.changes, f)
  {
    match op
    case PutOp(c, _) =>
      if !IsWeakening(row.terms, c) {
        assert Loosens(row.terms, Install(row.terms, c));
        WeakeningIsLoosening(row.terms, c);
      }
    case ApplyOp(at) =>
      InstallLooseness(row.terms, row.pending.value.payload.changes, f);
    case _ =>
  }

  lemma LoosenedBy(row: Row, ops: seq<Op>, k: nat, f: Field) returns (m: nat)
    requires row.pending == None && k < |ops|
    requires Looseness(At(row, true, ops, k + 1).terms, f) > Looseness(At(row, true, ops, k).terms, f)
    ensures m < k && Undisturbed(row, true, ops, m, k)
    ensures ops[k].ApplyOp? && ops[m].at + 24 * HOUR <= ops[k].at
    ensures var filed := Filed(At(row, true, ops, m), true, ops[m]);
            && filed.Some? && Mentions(filed.value, f)
            && LoosenessOf(filed.value, f) == Looseness(At(row, true, ops, k + 1).terms, f)
            && At(row, true, ops, k + 1).terms == Install(At(row, true, ops, k).terms, filed.value)
  {
    var before := At(row, true, ops, k);
    AtNext(row, true, ops, k);
    if before.pending.Some? {
      m := SlotOrigin(row, true, ops, k);
    }
    OnlyApplyLoosens(before, ops[k], f);
  }

  /** The safety promise of personal mode, over whole runs. If a field is looser at moment j than at an
      earlier moment i, then in between some request k applied changes that request m had filed at least
      24 hours before and nobody had replaced, cancelled or applied since, and whose value for the field is
      at least as loose as the later one. */
  lemma {:induction false} LooseningWaitsADay(row: Row, ops: seq<Op>, i: nat, j: nat, f: Field) returns (k: nat, m: nat)
    requires row.pending == None && i <= j <= |ops|
    requires Looseness(At(row, true, ops, j).terms, f) > Looseness(At(row, true, ops, i).terms, f)
    ensures m < k && i <= k < j
    ensures ops[k].ApplyOp? && ops[m].at + 24 * HOUR <= ops[k].at
    ensures Undisturbed(row, true, ops, m, k)
    ensures var filed := Filed(At(row, true, ops, m), true, ops[m]);
            && filed.Some? && Mentions(filed.value, f)
            && LoosenessOf(filed.value, f) >= Looseness(At(row, true, ops, j).terms, f)
            && At(row, true, ops, k + 1).terms == Install(At(row, true, ops, k).terms, filed.value)
    decreases j
  {
    AtNext(row, true, ops, j - 1);
    if Looseness(At(row, true, ops, j - 1).terms, f) >= Looseness(At(row, true, ops, j).terms, f) {
      k, m := LooseningWaitsADay(row, ops, i, j - 1, f);
    } else {
      k := j - 1;
      m := LoosenedBy(row, ops, k, f);
    }
  }

  /** Unlocking therefore always waits in personal mode: the ten-minute undo window needs a
      `__last_locked__` entry that no reachable slot holds. */
  lemma UndoWindowNeverOpens(row: Row, ops: seq<Op>, package: Package, at: Moment)
    requires row.pending == None
    ensures !RecentlyLocked(Run(row, true, ops), package, at)
    ensures Step(Run(row, true, ops), true, UnlockOp(package, at)).terms == Run(row, true, ops).terms
  {
    assert ops[..|ops|] == ops;
    if Run(row, true, ops).pending.Some? {
      var _ := SlotOrigin(row, true, ops, |ops|);
    }
  }

  predicate AllKeepSlot(row: Row, personal: bool, ops: seq<Op>) {
    ops == [] ||
    (AllKeepSlot(row, personal, ops[..|ops| - 1])
     && !Disturbs(Run(row, personal, ops[..|ops| - 1]), personal, ops[|ops| - 1]))
  }

  lemma {:induction false} SlotSurvives(row: Row, personal: bool, ops: seq<Op>)
    requires AllKeepSlot(row, personal, ops)
    ensures Run(row, personal, ops).pending == row.pending
    decreases |ops|
  {
    if ops == [] {
    } else {
      SlotSurvives(row, personal, ops[..|ops| - 1]);
    }
  }

  /** The other half of the promise: a filed request is not lost. Whatever else happens meanwhile, as
      long as it is neither replaced, cancelled nor applied, an apply succeeds exactly from 24 hours
      on, and installs exactly the request on top of whatever was tightened in between. */
  lemma FiledRequestRipens(row: Row, personal: bool, request: Op, meanwhile: seq<Op>, at: Moment)
    requires Filed(row, personal, request).Some?
    requires AllKeepSlot(Step(row, personal, request), personal, meanwhile)
    ensures var filed := Filed(row, personal, request).value;
            var now := Run(Step(row, personal, request), personal, meanwhile);
            && (Ripe(now, at) <==> request.at + 24 * HOUR <= at)
            && Step(now, personal, ApplyOp(at)).terms
               == if request.at + 24 * HOUR <= at then Install(now.terms, filed) else now.terms
  {
    SlotSurvives(Step(row, personal, request), personal, meanwhile);
  }

  /** What filing an unlock asks for: the list as it is, without the one package, and nothing else. */
  lemma UnlockFiles(row: Row, package: Package, at: Moment)
    requires row.pending.Some? ==> row.pending.value.payload.lastLocked == None
    ensures var filed := Filed(row, true, UnlockOp(package, at));
            && (filed.Some? <==> package in row.terms.lockedApps)
            && (filed.Some? ==>
                  && filed.value == NO_CHANGES.(lockedApps := filed.value.lockedApps) && filed.value.lockedApps.Some?
                  && forall p :: p in filed.value.lockedApps.value <==> p in row.terms.lockedApps && p != package)
  {
    RemovedIsGone(row.terms.lockedApps, package);
  }

  /** In a family the parent's word is immediate: nothing is ever pending, a request installs what it names,
      and unlocking removes the package at once. */
  lemma {:induction false} FamilyNeverWaits(row: Row, ops: seq<Op>, c: Changes, package: Package, at: Moment)
    requires row.pending == None
    ensures var now := Run(row, false, ops);
            && now.pending == None
            && Step(now, false, PutOp(c, at)).terms == Install(now.terms, c)
            && (forall p :: p in Step(now, false, UnlockOp(package, at)).terms.lockedApps
                            <==> p in now.terms.lockedApps && p != package)
    decreases |ops|
  {
    if ops == [] {
    } else {
      FamilyNeverWaits(row, ops[..|ops| - 1], c, package, at);
    }
    RemovedIsGone(Run(row, false, ops).terms.lockedApps, package);
  }

  /** A request that changes anything about the rules or the slot stamps the row with its time, and only then. */
  lemma ChangesAreStamped(row: Row, personal: bool, op: Op)
    ensures var after := Step(row, personal, op);
            && (after.terms != row.terms || after.pending != row.pending ==> after.updatedAt == op.at)
            && (after.updatedAt == row.updatedAt || after.updatedAt == op.at)
  {
  }
}
