/** Study streaks with freeze tokens, and badges (`advance_streak` in app/services/rules.py, and
    app/services/progress.py). */
module Progress {
  import opened Base
  import opened Rules

  datatype StreakState = StreakState(current: int, longest: int, tokens: int, last: Option<Day>)

  function AdvanceStreak(s: StreakState, today: Day): StreakState {
    if s.last == Some(today) then s
    else
      var (current, tokens) :=
        if s.last == None then (1, s.tokens)
        else if today - s.last.value == 1 then (s.current + 1, s.tokens)
        else if today - s.last.value == 2 && s.tokens > 0 then (s.current + 1, s.tokens - 1)
        else (1, s.tokens);
      StreakState(current, Max(s.longest, current), if current % 7 == 0 then Min(2, tokens + 1) else tokens,
                  Some(today))
  }

  // ---------------------------------------------------------------- streaks over any sequence of study days

  /** A streak with its history: the day it began, the tokens held then, the freezes spent in it, and
      over all streaks the freezes spent and the seventh days reached. */
  datatype Story = Story(
    state: StreakState, start: Day, heldAtStart: int, spentHere: nat, spentEver: nat, sevenths: nat)

  function Extend(s: Story, today: Day): Story {
    var next := AdvanceStreak(s.state, today);
    if s.state.last == Some(today) then s
    else
      var goesOn := s.state.last.Some? && next.current != 1;
      var froze := goesOn && today - s.state.last.value == 2;
      Story(next,
            if goesOn then s.start else today,
            if goesOn then s.heldAtStart else s.state.tokens,
            if froze then s.spentHere + 1 else if goesOn then s.spentHere else 0,
            if froze then s.spentEver + 1 else s.spentEver,
            if next.current % 7 == 0 then s.sevenths + 1 else s.sevenths)
  }

  function Follow(held: int, days: seq<Day>): Story {
    if days == [] then Story(StreakState(0, 0, held, None), 0, held, 0, 0, 0)
    else Extend(Follow(held, days[..|days| - 1]), days[|days| - 1])
  }

  lemma SeventhDays(c: int)
    requires c >= 1
    ensures (c + 1) / 7 == c / 7 + if (c + 1) % 7 == 0 then 1 else 0
  {
  }

  /** The calendar days a streak spans are the days studied in it plus the freezes spent in it; freezes never
      outnumber the tokens brought and awarded; and tokens and lengths stay in range. */
  ghost predicate Accounted(held: int, s: Story) {
    && s.state.last.Some?
    && s.state.last.value - s.start + 1 == s.state.current + s.spentHere
    && s.spentHere + s.state.tokens <= s.heldAtStart + s.state.current / 7
    && s.spentEver + s.state.tokens <= held + s.sevenths
    && 0 <= s.state.tokens <= 2 && 0 <= s.heldAtStart <= 2
    && 1 <= s.state.current <= s.state.longest
  }

  lemma ExtendAccounts(held: int, s: Story, today: Day)
    requires Accounted(held, s)
    ensures Accounted(held, Extend(s, today))
  {
    SeventhDays(s.state.current);
  }

  /** However a subject studies - days missed, repeated, or moved by a change of the reset hour - the account
      holds. */
  lemma {:induction false} StreakAccounting(held: int, days: seq<Day>)
    requires 0 <= held <= 2 && days != []
    ensures Accounted(held, Follow(held, days)) && Follow(held, days).state.last == Some(days[|days| - 1])
    decreases |days|
  {
    if |days| == 1 {
      assert Follow(held, days[..0]) == Follow(held, []);
    } else {
      StreakAccounting(held, days[..|days| - 1]);
      ExtendAccounts(held, Follow(held, days[..|days| - 1]), days[|days| - 1]);
    }
  }

  /** A streak of c days covers at most c + 2 + c/7 calendar days. */
  lemma StreakSpanBound(held: int, days: seq<Day>)
    requires 0 <= held <= 2 && days != []
    ensures var s := Follow(held, days);
            days[|days| - 1] - s.start + 1 <= s.state.current + 2 + s.state.current / 7
  {
    StreakAccounting(held, days);
  }

  predicate Consecutive(days: seq<Day>) {
    forall i :: 0 < i < |days| ==> days[i] == days[i - 1] + 1
  }

  /** Studying every day: the streak is the number of days, the longest so far, and every seventh day has
      awarded a token, up to two. */
  lemma {:induction false} DailyStudy(held: int, days: seq<Day>)
    requires 0 <= held <= 2 && days != [] && Consecutive(days)
    ensures Follow(held, days).state
            == StreakState(|days|, |days|, Min(2, held + |days| / 7), Some(days[|days| - 1]))
    decreases |days|
  {
    if |days| == 1 {
      assert Follow(held, days[..0]) == Follow(held, []);
    } else {
      DailyStudy(held, days[..|days| - 1]);
      SeventhDays(|days| - 1);
    }
  }

  /** What another day of study does to a streak, by the days since the last one. None is lost on the same or
      the next day; one missed day costs a token if there is one; anything else starts over. A token spent is
      gone even on a seventh day, which awards one, and no more than two are held. */
  lemma {:induction false} AnotherDay(held: int, days: seq<Day>, today: Day)
    requires 0 <= held <= 2 && days != []
    ensures var s := Follow(held, days).state;
            var next := Follow(held, days + [today]).state;
            var gap := today - days[|days| - 1];
            var goesOn := gap == 1 || (gap == 2 && s.tokens > 0);
            && (gap == 0 ==> next == s)
            && (gap != 0 ==>
                  && next.current == (if goesOn then s.current + 1 else 1)
                  && next.longest == (if next.current > s.longest then next.current else s.longest)
                  && next.tokens == Min(2, s.tokens - (if goesOn && gap == 2 then 1 else 0)
                                           + (if next.current % 7 == 0 then 1 else 0))
                  && next.last == Some(today))
  {
    StreakAccounting(held, days);
    assert (days + [today])[..|days|] == days;
  }

  // ---------------------------------------------------------------- progress rows and badges

  datatype Badge = First | SevenDays | Month | Hundred | Fifty | FiveHundred | Essay | Hard | Photo | Cross | Perfect

  const BADGES := [First, SevenDays, Month, Hundred, Fifty, FiveHundred, Essay, Hard, Photo, Cross, Perfect]

  datatype Row = Row(
    streak: StreakState, sessions: int, correct: int, hard: int, essays: int, photos: int, cross: int, perfect: int)

  const EMPTY_ROW := Row(StreakState(0, 0, 0, None), 0, 0, 0, 0, 0, 0, 0)

  datatype Session = Session(
    day: Day, correct: nat, hard: nat, essays: nat, fromPhoto: bool, crossLanguage: bool, perfect: bool)

  predicate Rule(b: Badge, r: Row) {
    match b
    case First => r.sessions >= 1
    case SevenDays => r.streak.current >= 7
    case Month => r.streak.current >= 30
    case Hundred => r.streak.current >= 100
    case Fifty => r.correct >= 50
    case FiveHundred => r.correct >= 500
    case Essay => r.essays >= 10
    case Hard => r.hard >= 25
    case Photo => r.photos >= 1
    case Cross => r.cross >= 1
    case Perfect => r.perfect >= 1
  }

  function Updated(r: Row, s: Session): Row {
    Row(AdvanceStreak(r.streak, s.day), r.sessions + 1, r.correct + s.correct, r.hard + s.hard, r.essays + s.essays,
        r.photos + (if s.fromPhoto then 1 else 0), r.cross + (if s.crossLanguage then 1 else 0),
        r.perfect + (if s.perfect then 1 else 0))
  }

  /** The badges of a list whose rule now holds and that are not owned yet, in the order of the list. */
  function FreshBadges(list: seq<Badge>, r: Row, owned: set<Badge>): seq<Badge> {
    if list == [] then []
    else
      var init := FreshBadges(list[..|list| - 1], r, owned);
      var b := list[|list| - 1];
      if b !in owned && Rule(b, r) then init + [b] else init
  }

  function ToSet(list: seq<Badge>): set<Badge> {
    set b | b in list
  }

  class ProgressStore {
    var row: Row
    var owned: set<Badge>

    constructor ()
      ensures row == EMPTY_ROW && owned == {}
    {
      row, owned := EMPTY_ROW, {};
    }

    method RecordSession(s: Session) returns (earned: seq<Badge>)
      modifies this
      ensures row == Updated(old(row), s)
      ensures earned == FreshBadges(BADGES, row, old(owned))
      ensures owned == old(owned) + ToSet(earned)
    {
      var streak := AdvanceStreak(row.streak, s.day);
      row := Row(streak, row.sessions + 1, row.correct + s.correct, row.hard + s.hard, row.essays + s.essays,
                 row.photos + (if s.fromPhoto then 1 else 0), row.cross + (if s.crossLanguage then 1 else 0),
                 row.perfect + (if s.perfect then 1 else 0));
      var before := owned;
      earned := [];
      var n := 0;
      while n < |BADGES|
        invariant 0 <= n <= |BADGES|
        invariant row == Updated(old(row), s)
        invariant earned == FreshBadges(BADGES[..n], row, before)
        invariant owned == before + ToSet(earned)
      {
        var b := BADGES[n];
        assert BADGES[..n + 1][..n] == BADGES[..n];
        if b !in before && Rule(b, row) {
          owned := owned + {b};
          earned := earned + [b];
        }
        n := n + 1;
      }
      assert BADGES[..n] == BADGES;
    }
  }

  // ---------------------------------------------------------------- badges over whole runs

  /** The badges whose rule would hold had the streak never broken. */
  ghost predicate Reached(b: Badge, r: Row) {
    Rule(b, r.(streak := r.streak.(current := r.streak.longest)))
  }

  ghost predicate Inv(r: Row, owned: set<Badge>) {
    r.streak.current <= r.streak.longest && forall b :: b in owned <==> Reached(b, r)
  }

  lemma EveryBadgeIsListed(b: Badge)
    ensures b in BADGES
  {
    assert BADGES[0] == First && BADGES[1] == SevenDays && BADGES[2] == Month && BADGES[3] == Hundred
           && BADGES[4] == Fifty
           && BADGES[5] == FiveHundred && BADGES[6] == Essay && BADGES[7] == Hard && BADGES[8] == Photo
           && BADGES[9] == Cross && BADGES[10] == Perfect;
  }

  lemma {:induction false} FreshBadgesMembers(list: seq<Badge>, r: Row, owned: set<Badge>, b: Badge)
    ensures b in FreshBadges(list, r, owned) <==> b in list && b !in owned && Rule(b, r)
    decreases |list|
  {
    if list == [] {
    } else {
      FreshBadgesMembers(list[..|list| - 1], r, owned, b);
      assert list == list[..|list| - 1] + [list[|list| - 1]];
    }
  }

  lemma {:induction false} FreshBadgesDistinct(list: seq<Badge>, r: Row, owned: set<Badge>)
    requires Distinct(list)
    ensures Distinct(FreshBadges(list, r, owned))
    decreases |list|
  {
    if list == [] {
    } else {
      var init := list[..|list| - 1];
      FreshBadgesDistinct(init, r, owned);
      FreshBadgesMembers(init, r, owned, list[|list| - 1]);
    }
  }

  lemma SessionKeepsInv(r: Row, owned: set<Badge>, s: Session)
    requires Inv(r, owned)
    ensures var next := Updated(r, s);
            var earned := FreshBadges(BADGES, next, owned);
            && Inv(next, owned + ToSet(earned))
            && Distinct(earned)
            && forall b :: b in earned ==> b !in owned
  {
    var next := Updated(r, s);
    var earned := FreshBadges(BADGES, next, owned);
    FreshBadgesDistinct(BADGES, next, owned);
    forall b ensures b in earned <==> b !in owned && Rule(b, next) {
      EveryBadgeIsListed(b);
      FreshBadgesMembers(BADGES, next, owned, b);
    }
    forall b ensures Reached(b, next) <==> Reached(b, r) || Rule(b, next) {
      assert next.streak.longest == Max(r.streak.longest, next.streak.current);
    }
  }

  datatype Run = Run(row: Row, owned: set<Badge>, announced: seq<Badge>)

  function Next(before: Run, s: Session): Run {
    var row := Updated(before.row, s);
    var earned := FreshBadges(BADGES, row, before.owned);
    Run(row, before.owned + ToSet(earned), before.announced + earned)
  }

  /** The state after a list of sessions, with every badge that was announced as new, in order. */
  function After(sessions: seq<Session>): Run {
    if sessions == [] then Run(EMPTY_ROW, {}, [])
    else Next(After(sessions[..|sessions| - 1]), sessions[|sessions| - 1])
  }

  /** After any sequence of sessions the badges owned are exactly those whose rule holds with the longest
      streak in place of the current one, and each was announced as new exactly once. */
  lemma {:induction false} BadgesMatchHighWater(sessions: seq<Session>)
    ensures var run := After(sessions);
            && Inv(run.row, run.owned)
            && ToSet(run.announced) == run.owned
            && Distinct(run.announced)
    decreases |sessions|
  {
    if sessions == [] {
    } else {
      BadgesMatchHighWater(sessions[..|sessions| - 1]);
      var before := After(sessions[..|sessions| - 1]);
      SessionKeepsInv(before.row, before.owned, sessions[|sessions| - 1]);
      var run := After(sessions);
      var earned := FreshBadges(BADGES, run.row, before.owned);
      var all := before.announced + earned;
      forall i, j | 0 <= i < j < |all| ensures all[i] != all[j] {
        if i < |before.announced| <= j {
          assert all[i] in ToSet(before.announced) && all[j] in earned;
        }
      }
    }
  }

  function DaysOf(sessions: seq<Session>): seq<Day> {
    if sessions == [] then [] else DaysOf(sessions[..|sessions| - 1]) + [sessions[|sessions| - 1].day]
  }

  datatype Column = Corrects | Hards | Essays | Photos | Crosses | Perfects

  function Adds(s: Session, column: Column): int {
    match column
    case Corrects => s.correct
    case Hards => s.hard
    case Essays => s.essays
    case Photos => if s.fromPhoto then 1 else 0
    case Crosses => if s.crossLanguage then 1 else 0
    case Perfects => if s.perfect then 1 else 0
  }

  function Total(sessions: seq<Session>, column: Column): int {
    if sessions == [] then 0 else Total(sessions[..|sessions| - 1], column) + Adds(sessions[|sessions| - 1], column)
  }

  lemma {:induction false} StreakOfDays(sessions: seq<Session>)
    ensures After(sessions).row.streak == Follow(0, DaysOf(sessions)).state
    decreases |sessions|
  {
    if sessions == [] {
    } else {
      StreakOfDays(sessions[..|sessions| - 1]);
      var days := DaysOf(sessions);
      assert days[..|days| - 1] == DaysOf(sessions[..|sessions| - 1]);
    }
  }

  /** The progress row is the sum of its sessions, column by column, and its streak is the one that the
      days studied make. */
  lemma {:induction false} RowSumsSessions(sessions: seq<Session>)
    ensures var row := After(sessions).row;
            && row.streak == Follow(0, DaysOf(sessions)).state
            && row.sessions == |sessions|
            && row.correct == Total(sessions, Corrects) && row.hard == Total(sessions, Hards)
            && row.essays == Total(sessions, Essays) && row.photos == Total(sessions, Photos)
            && row.cross == Total(sessions, Crosses) && row.perfect == Total(sessions, Perfects)
    decreases |sessions|
  {
    StreakOfDays(sessions);
    if sessions == [] {
    } else {
      RowSumsSessions(sessions[..|sessions| - 1]);
      assert After(sessions).row == Updated(After(sessions[..|sessions| - 1]).row, sessions[|sessions| - 1]);
    }
  }

  /** What a badge takes, told from the list of sessions alone. */
  ghost predicate Earned(b: Badge, sessions: seq<Session>, longest: int) {
    match b
    case First => sessions != []
    case SevenDays => longest >= 7
    case Month => longest >= 30
    case Hundred => longest >= 100
    case Fifty => Total(sessions, Corrects) >= 50
    case FiveHundred => Total(sessions, Corrects) >= 500
    case Essay => Total(sessions, Essays) >= 10
    case Hard => Total(sessions, Hards) >= 25
    case Photo => exists i :: 0 <= i < |sessions| && sessions[i].fromPhoto
    case Cross => exists i :: 0 <= i < |sessions| && sessions[i].crossLanguage
    case Perfect => exists i :: 0 <= i < |sessions| && sessions[i].perfect
  }

  predicate Mark(s: Session, column: Column) {
    match column
    case Photos => s.fromPhoto
    case Crosses => s.crossLanguage
    case _ => s.perfect
  }

  lemma {:induction false} AnyMarked(sessions: seq<Session>, column: Column)
    requires column == Photos || column == Crosses || column == Perfects
    ensures 0 <= Total(sessions, column)
    ensures Total(sessions, column) >= 1 <==> exists i :: 0 <= i < |sessions| && Mark(sessions[i], column)
    decreases |sessions|
  {
    if sessions == [] {
    } else {
      var n := |sessions| - 1;
      AnyMarked(sessions[..n], column);
      assert Mark(sessions[n], column) ==> exists i :: 0 <= i < |sessions| && Mark(sessions[i], column);
      if i :| 0 <= i < n && Mark(sessions[..n][i], column) {
        assert Mark(sessions[i], column);
      }
    }
  }

  /** The badges owned after any list of sessions are those the list has earned. */
  lemma {:induction false} BadgesAreEarned(sessions: seq<Session>, b: Badge)
    ensures b in After(sessions).owned <==> Earned(b, sessions, After(sessions).row.streak.longest)
  {
    BadgesMatchHighWater(sessions);
    RowSumsSessions(sessions);
    AnyMarked(sessions, Photos);
    AnyMarked(sessions, Crosses);
    AnyMarked(sessions, Perfects);
    assert forall i :: 0 <= i < |sessions| ==> (Mark(sessions[i], Photos) <==> sessions[i].fromPhoto);
    assert forall i :: 0 <= i < |sessions| ==> (Mark(sessions[i], Crosses) <==> sessions[i].crossLanguage);
    assert forall i :: 0 <= i < |sessions| ==> (Mark(sessions[i], Perfects) <==> sessions[i].perfect);
  }

  lemma {:induction false} DaysCount(sessions: seq<Session>)
    ensures |DaysOf(sessions)| == |sessions|
    decreases |sessions|
  {
    if sessions == [] {
    } else {
      DaysCount(sessions[..|sessions| - 1]);
    }
  }

  /** A session a day: the week's badge comes with the seventh, and not before. */
  lemma {:induction false} WeekOfStudy(sessions: seq<Session>)
    requires sessions != [] && Consecutive(DaysOf(sessions))
    ensures After(sessions).row.streak.current == |sessions|
    ensures SevenDays in After(sessions).owned <==> |sessions| >= 7
  {
    DaysCount(sessions);
    DailyStudy(0, DaysOf(sessions));
    StreakOfDays(sessions);
    BadgesAreEarned(sessions, SevenDays);
  }
}
