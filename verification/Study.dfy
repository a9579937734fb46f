/** One subject's study as a whole: its time ledger, its progress and the quiz desk it shares with others.
    Submitting a session writes all three (`submit` in app/routers/quizzes.py). */
module Study {
  import opened Base
  import opened Rules
  import G = Grading
  import L = Ledger
  import PR = Progress
  import Q = Quizzes
  import QL = QuizLaws

  datatype State = State(desk: Q.Desk, ledger: L.Db, row: PR.Row, owned: set<PR.Badge>)

  const EMPTY := State(Q.EMPTY, L.Db([], map[]), PR.EMPTY_ROW, {})

  /** What is known of the material of a session. */
  datatype Source = Source(fromPhoto: bool, crossLanguage: bool)

  /** The session as progress records it, on the day of the standing that follows the credit. */
  function SessionOf(d: Q.Desk, id: Q.SessionId, day: Day, source: Source): PR.Session
    requires Q.Submittable(d, id)
  {
    var paper := Q.Paper(d, id);
    var score := G.Counted(d.sessions[id].terms, paper);
    PR.Session(day, score.correct, score.hard, score.essays, source.fromPhoto, source.crossLanguage,
               score.correct == |paper| && score.correct > 0)
  }

  function Credited(d: Q.Desk, id: Q.SessionId): int
    requires Q.Submittable(d, id)
  {
    Truncate(G.RewardSum(d.sessions[id].terms, Q.Paper(d, id)))
  }

  function AfterSubmit(st: State, id: Q.SessionId, pol: L.Policy, at: Moment, read: Moment, source: Source): State
    requires Q.Submittable(st.desk, id)
  {
    var row := PR.Updated(st.row, SessionOf(st.desk, id, L.Today(pol, read), source));
    State(Q.AfterSubmit(st.desk, id, at),
          L.Touch(L.Rewarded(st.ledger, Credited(st.desk, id), id, at), pol, read),
          row, st.owned + PR.ToSet(PR.FreshBadges(PR.BADGES, row, st.owned)))
  }

  lemma {:induction false} AllCorrect(paper: seq<G.Answered>)
    ensures G.ScoreOf(paper).correct <= |paper|
    ensures G.ScoreOf(paper).correct == |paper| <==> forall i :: 0 <= i < |paper| ==> G.Right(paper[i])
    decreases |paper|
  {
    if paper == [] {
    } else {
      var init := paper[..|paper| - 1];
      AllCorrect(init);
      assert forall i :: 0 <= i < |init| ==> init[i] == paper[i];
    }
  }

  /** A session is recorded with the counts of its right answers, of the hard ones and of the essays among
      them, and as perfect exactly when it has answers and every one of them is right. */
  lemma {:induction false} PerfectMeansAllRight(d: Q.Desk, id: Q.SessionId, day: Day, source: Source)
    requires QL.Inv(d) && Q.Submittable(d, id)
    ensures var paper := Q.Paper(d, id);
            var recorded := SessionOf(d, id, day, source);
            && (recorded.perfect <==> paper != [] && forall i :: 0 <= i < |paper| ==> G.Right(paper[i]))
            && recorded.correct == G.ScoreOf(paper).correct && recorded.hard == G.ScoreOf(paper).hard
            && recorded.essays == G.ScoreOf(paper).essays
            && recorded.day == day
            && recorded.fromPhoto == source.fromPhoto && recorded.crossLanguage == source.crossLanguage
  {
    QL.SessionsAreStarted(d, id);
    AllCorrect(Q.Paper(d, id));
  }

  // ---------------------------------------------------------------- submitting, as it runs

  class StudyStore {
    const quizzes: Q.QuizStore
    const ledger: L.LedgerStore
    const progress: PR.ProgressStore

    ghost function Current(): State
      reads quizzes, ledger, progress
    {
      State(quizzes.Tables(), ledger.Tables(), progress.row, progress.owned)
    }

    constructor ()
      ensures Current() == EMPTY
      ensures fresh(quizzes) && fresh(ledger) && fresh(progress)
    {
      quizzes := new Q.QuizStore();
      ledger := new L.LedgerStore();
      progress := new PR.ProgressStore();
    }

    /** `at` is the clock when the reward is credited, `read` the clock of the standing that follows it. */
    method Submit(isProxy: bool, withinLimit: bool, id: Q.SessionId, pol: L.Policy, at: Moment, read: Moment,
                  source: Source)
      returns (r: Outcome<(G.Receipt, seq<PR.Badge>)>)
      requires id < |quizzes.sessions| ==> G.Scaled(quizzes.sessions[id].terms)
      modifies quizzes, ledger, progress
      ensures r.Done? <==> !isProxy && withinLimit && Q.Submittable(old(quizzes.Tables()), id)
      ensures Current() == if r.Done? then AfterSubmit(old(Current()), id, pol, at, read, source) else old(Current())
      ensures r.Done? ==>
                && r.value.0.credited == Credited(old(quizzes.Tables()), id)
                && r.value.1 == PR.FreshBadges(PR.BADGES, progress.row, old(progress.owned))
    {
      var submitted := quizzes.Submit(isProxy, withinLimit, id, at);
      if submitted.Refused? {
        return Refused(submitted.reason);
      }
      var receipt := submitted.value;
      var credited := ledger.CreditReward(receipt.gross, id, at);
      ledger.ClaimToday(pol, read);
      var score := receipt.score;
      var earned := progress.RecordSession(
        PR.Session(L.Today(pol, read), score.correct, score.hard, score.essays, source.fromPhoto, source.crossLanguage,
                   score.correct == receipt.rows && score.correct > 0));
      return Done((receipt, earned));
    }
  }

  // ---------------------------------------------------------------- runs

  /** What happens to the subject `s`: its submissions, everything else on the desk, other subjects'
      submissions included, and every request to its ledger. */
  datatype Op =
    | SubmitOp(id: Q.SessionId, pol: L.Policy, at: Moment, read: Moment, source: Source)
    | DeskOp(desk: QL.Op)
    | LedgerOp(ledger: L.Op)

  predicate Owned(d: Q.Desk, id: Q.SessionId, s: SubjectId) {
    id < |d.sessions| && d.sessions[id].subject == s
  }

  ghost predicate Wellformed(st: State, s: SubjectId, op: Op) {
    match op
    case SubmitOp(id, _, _, _, _) => Owned(st.desk, id, s)
    case DeskOp(o) => QL.Wellformed(st.desk, o) && (o.SubmitOp? ==> !Owned(st.desk, o.id, s))
    case LedgerOp(o) => L.Wellformed(o) && !o.RewardOp?
  }

  function Step(st: State, op: Op): State
    requires op.LedgerOp? ==> L.Wellformed(op.ledger)
  {
    match op
    case SubmitOp(id, pol, at, read, source) =>
      if Q.Submittable(st.desk, id) then AfterSubmit(st, id, pol, at, read, source) else st
    case DeskOp(o) => st.(desk := QL.Step(st.desk, o))
    case LedgerOp(o) => st.(ledger := L.Step(st.ledger, o))
  }

  predicate LedgerFits(ops: seq<Op>) {
    forall i :: 0 <= i < |ops| && ops[i].LedgerOp? ==> L.Wellformed(ops[i].ledger)
  }

  function Run(ops: seq<Op>): State
    requires LedgerFits(ops)
  {
    if ops == [] then EMPTY else Step(Run(ops[..|ops| - 1]), ops[|ops| - 1])
  }

  ghost predicate WellformedRun(ops: seq<Op>, s: SubjectId)
    requires LedgerFits(ops)
  {
    ops == [] || (WellformedRun(ops[..|ops| - 1], s) && Wellformed(Run(ops[..|ops| - 1]), s, ops[|ops| - 1]))
  }

  /** The sessions that progress recorded in a run, in order. */
  function Studied(ops: seq<Op>): seq<PR.Session>
    requires LedgerFits(ops)
  {
    if ops == [] then []
    else
      var init := ops[..|ops| - 1];
      var op := ops[|ops| - 1];
      if op.SubmitOp? && Q.Submittable(Run(init).desk, op.id)
      then Studied(init) + [SessionOf(Run(init).desk, op.id, L.Today(op.pol, op.read), op.source)]
      else Studied(init)
  }

  // ---------------------------------------------------------------- what is counted

  /** Over the submitted sessions of a subject: how many, how many right answers, how much reward. */
  datatype Totals = Totals(count: int, correct: int, reward: int)

  function TotalsOf(sessions: seq<Q.Session>, s: SubjectId): Totals {
    if sessions == [] then Totals(0, 0, 0)
    else
      var t := TotalsOf(sessions[..|sessions| - 1], s);
      var last := sessions[|sessions| - 1];
      if last.subject == s && last.status == Q.Submitted
      then Totals(t.count + 1, t.correct + last.correctCount, t.reward + last.rewardSeconds)
      else t
  }

  /** Allowances and gifts, less redemptions. */
  function GivenSum(log: seq<L.Entry>): int {
    if log == [] then 0
    else
      var e := log[|log| - 1];
      GivenSum(log[..|log| - 1]) + (if e.origin.Earned? || e.origin.Consumed? then 0 else e.delta)
  }

  lemma {:induction false} RawSplits(log: seq<L.Entry>)
    ensures L.Raw(log) == L.EarnedSum(log) + GivenSum(log) + L.ConsumedSum(log)
    decreases |log|
  {
    if log == [] {
    } else {
      RawSplits(log[..|log| - 1]);
    }
  }

  /** Nothing earned is added between two logs. */
  ghost predicate SameEarned(a: seq<L.Entry>, b: seq<L.Entry>) {
    L.EarnedSum(b) == L.EarnedSum(a) && forall id: nat :: QL.CreditsOf(b, id) == QL.CreditsOf(a, id)
  }

  lemma AppendUnearned(log: seq<L.Entry>, e: L.Entry)
    requires !e.origin.Earned?
    ensures SameEarned(log, log + [e])
  {
    assert (log + [e])[..|log|] == log;
  }

  lemma TouchEarnsNothing(db: L.Db, pol: L.Policy, at: Moment)
    ensures SameEarned(db.log, L.Touch(db, pol, at).log)
  {
    var day := L.Today(pol, at);
    AppendUnearned(db.log, L.Entry(GrantFor(day, pol.dailyGrants), L.DailyGrant(day), None, at));
  }

  lemma ChargeEarnsNothing(db: L.Db, pol: L.Policy, item: L.Item, at: Moment)
    ensures SameEarned(db.log, L.Charge(db, pol, item, at).log)
  {
    var now := L.Touch(db, pol, at);
    TouchEarnsNothing(db, pol, at);
    if L.Charge(db, pol, item, at) != now {
      var taken := Min(item.seconds, L.Room(now, pol, L.Today(pol, at)));
      AppendUnearned(now.log, L.ChargeEntry(item, taken, at));
    }
  }

  lemma {:induction false} ChargesEarnNothing(db: L.Db, pol: L.Policy, items: seq<L.Item>, clock: seq<Moment>)
    requires |clock| == |items|
    ensures SameEarned(db.log, L.ChargeAll(db, pol, items, clock).log)
    decreases |items|
  {
    if items == [] {
    } else {
      ChargeEarnsNothing(db, pol, items[0], clock[0]);
      ChargesEarnNothing(L.Charge(db, pol, items[0], clock[0]), pol, items[1..], clock[1..]);
    }
  }

  lemma LedgerEarnsNothing(db: L.Db, op: L.Op)
    requires L.Wellformed(op) && !op.RewardOp?
    ensures SameEarned(db.log, L.Step(db, op).log)
  {
    match op
    case LookOp(pol, at) => TouchEarnsNothing(db, pol, at);
    case SyncOp(pol, body, clock) =>
      var n := |L.Accepted(body)|;
      ChargesEarnNothing(db, pol, L.Accepted(body), clock[..n]);
      TouchEarnsNothing(L.ChargeAll(db, pol, L.Accepted(body), clock[..n]), pol, clock[n]);
    case AdjustOp(pol, direction, seconds, at, replied) =>
      TouchEarnsNothing(db, pol, at);
      var now := L.Touch(db, pol, at);
      var after := L.Adjusted(db, pol, direction, seconds, at);
      if after.Some? {
        AppendUnearned(now.log, after.value.log[|now.log|]);
        TouchEarnsNothing(after.value, pol, replied);
      }
    case RewardOp(_, _, _) =>
  }

  // ---------------------------------------------------------------- what stays of a desk

  /** Neither a new submitted session nor a change to one of the subject's. */
  ghost predicate SameSubmitted(a: seq<Q.Session>, b: seq<Q.Session>, s: SubjectId) {
    && |a| <= |b|
    && (forall i :: 0 <= i < |a| ==> QL.Grows(a[i], b[i]))
    && (forall i :: 0 <= i < |a| && a[i].subject == s ==> b[i].status == a[i].status)
    && (forall i :: |a| <= i < |b| ==> b[i].status == Q.Open)
  }

  lemma {:induction false} SameTotals(a: seq<Q.Session>, b: seq<Q.Session>, s: SubjectId)
    requires SameSubmitted(a, b, s)
    ensures TotalsOf(b, s) == TotalsOf(a, s)
    decreases |b|
  {
    if b == [] {
    } else if |a| < |b| {
      SameTotals(a, b[..|b| - 1], s);
    } else {
      var n := |b| - 1;
      assert QL.Grows(a[n], b[n]);
      SameTotals(a[..n], b[..n], s);
    }
  }

  lemma {:induction false} ClosingTotals(sessions: seq<Q.Session>, id: nat, closed: Q.Session)
    requires id < |sessions| && sessions[id].status == Q.Open && closed.status == Q.Submitted
    requires closed.subject == sessions[id].subject
    ensures var t := TotalsOf(sessions, closed.subject);
            TotalsOf(sessions[id := closed], closed.subject)
            == Totals(t.count + 1, t.correct + closed.correctCount, t.reward + closed.rewardSeconds)
    decreases |sessions|
  {
    var n := |sessions| - 1;
    if id == n {
      assert sessions[id := closed][..n] == sessions[..n];
    } else {
      ClosingTotals(sessions[..n], id, closed);
      assert sessions[id := closed][..n] == sessions[..n][id := closed];
    }
  }

  lemma DeskStepSubmitsNone(d: Q.Desk, op: QL.Op, s: SubjectId)
    requires QL.Inv(d) && QL.Wellformed(d, op) && (op.SubmitOp? ==> !Owned(d, op.id, s))
    ensures SameSubmitted(d.sessions, QL.Step(d, op).sessions, s)
  {
    QL.StepKeepsInv(d, op);
    QL.StepStatus(d, op, if op.SubmitOp? then op.id else |d.sessions|);
  }

  // ---------------------------------------------------------------- what every run keeps

  /** The earned entries of the ledger are the rewards of the subject's submitted sessions, one each. */
  ghost predicate EarnedIsRecorded(st: State, s: SubjectId) {
    forall id: nat :: QL.CreditsOf(st.ledger.log, id) ==
      if Owned(st.desk, id, s) && st.desk.sessions[id].status == Q.Submitted && st.desk.sessions[id].rewardSeconds > 0
      then [st.desk.sessions[id].rewardSeconds] else []
  }

  ghost predicate Books(st: State, s: SubjectId) {
    && EarnedIsRecorded(st, s)
    && TotalsOf(st.desk.sessions, s) == Totals(st.row.sessions, st.row.correct, L.EarnedSum(st.ledger.log))
    && (st.row.streak.last.Some? ==> L.Granted(st.ledger.usage, st.row.streak.last.value))
  }

  ghost predicate Inv(st: State, s: SubjectId) {
    QL.Inv(st.desk) && L.Inv(st.ledger) && Books(st, s)
  }

  lemma DeskKeepsBooks(st: State, s: SubjectId, desk: Q.Desk)
    requires Books(st, s) && SameSubmitted(st.desk.sessions, desk.sessions, s)
    ensures Books(st.(desk := desk), s)
  {
    SameTotals(st.desk.sessions, desk.sessions, s);
    forall id: nat
      ensures Owned(desk, id, s) && desk.sessions[id].status == Q.Submitted <==>
              Owned(st.desk, id, s) && st.desk.sessions[id].status == Q.Submitted
      ensures id < |st.desk.sessions| ==> QL.Grows(st.desk.sessions[id], desk.sessions[id])
    {
      assert id < |st.desk.sessions| ==> QL.Grows(st.desk.sessions[id], desk.sessions[id]);
    }
  }

  lemma DeskKeepsInv(st: State, s: SubjectId, op: QL.Op)
    requires Inv(st, s) && Wellformed(st, s, DeskOp(op))
    ensures Inv(Step(st, DeskOp(op)), s)
  {
    QL.StepKeepsInv(st.desk, op);
    DeskStepSubmitsNone(st.desk, op, s);
    DeskKeepsBooks(st, s, QL.Step(st.desk, op));
  }

  lemma LedgerKeepsInv(st: State, s: SubjectId, op: L.Op)
    requires Inv(st, s) && Wellformed(st, s, LedgerOp(op))
    ensures Inv(Step(st, LedgerOp(op)), s)
  {
    L.StepKeepsInv(st.ledger, op);
    LedgerEarnsNothing(st.ledger, op);
  }

  lemma CreditKeepsInv(db: L.Db, credited: int, id: Q.SessionId, pol: L.Policy, at: Moment, read: Moment)
    requires L.Inv(db) && credited >= 0
    ensures var after := L.Touch(L.Rewarded(db, credited, id, at), pol, read);
            L.Inv(after) && L.Granted(after.usage, L.Today(pol, read))
  {
    if credited > 0 {
      L.AppendKeepsInv(db, L.Entry(credited, L.Earned(id), None, at));
    }
    L.TouchKeepsInv(L.Rewarded(db, credited, id, at), pol, read);
  }

  ghost predicate Earns(a: seq<L.Entry>, b: seq<L.Entry>, id: Q.SessionId, credited: int) {
    && L.EarnedSum(b) == L.EarnedSum(a) + credited
    && forall k: nat :: QL.CreditsOf(b, k) == QL.CreditsOf(a, k) + (if k == id && credited > 0 then [credited] else [])
  }

  /** The credit is one earned entry, if anything, and the standing after it earns nothing. */
  lemma CreditEarns(db: L.Db, credited: int, id: Q.SessionId, pol: L.Policy, at: Moment, read: Moment)
    requires credited >= 0
    ensures Earns(db.log, L.Touch(L.Rewarded(db, credited, id, at), pol, read).log, id, credited)
  {
    assert (db.log + [L.Entry(credited, L.Earned(id), None, at)])[..|db.log|] == db.log;
    TouchEarnsNothing(L.Rewarded(db, credited, id, at), pol, read);
  }

  /** What one submission changes, table by table. */
  ghost predicate Submission(st: State, after: State, id: Q.SessionId, closed: Q.Session) {
    && id < |st.desk.sessions| && st.desk.sessions[id].status == Q.Open
    && closed.status == Q.Submitted && closed.subject == st.desk.sessions[id].subject && closed.rewardSeconds >= 0
    && after.desk.sessions == st.desk.sessions[id := closed]
    && Earns(st.ledger.log, after.ledger.log, id, closed.rewardSeconds)
    && after.row.sessions == st.row.sessions + 1
    && after.row.correct == st.row.correct + closed.correctCount
    && (after.row.streak.last.Some? ==> L.Granted(after.ledger.usage, after.row.streak.last.value))
  }

  lemma SubmitIsSubmission(st: State, id: Q.SessionId, pol: L.Policy, at: Moment, read: Moment, source: Source)
    requires Q.Submittable(st.desk, id) && L.Inv(st.ledger) && G.Scaled(st.desk.sessions[id].terms)
    ensures var after := AfterSubmit(st, id, pol, at, read, source);
            L.Inv(after.ledger) && Submission(st, after, id, after.desk.sessions[id])
  {
    G.SumNonnegative(st.desk.sessions[id].terms, Q.Paper(st.desk, id));
    CreditKeepsInv(st.ledger, Credited(st.desk, id), id, pol, at, read);
    CreditEarns(st.ledger, Credited(st.desk, id), id, pol, at, read);
  }

  lemma ClosingRecords(st: State, s: SubjectId, id: Q.SessionId, closed: Q.Session, after: State)
    requires EarnedIsRecorded(st, s) && Owned(st.desk, id, s) && st.desk.sessions[id].status == Q.Open
    requires closed.status == Q.Submitted && closed.subject == s
    requires after.desk.sessions == st.desk.sessions[id := closed]
    requires Earns(st.ledger.log, after.ledger.log, id, closed.rewardSeconds)
    ensures EarnedIsRecorded(after, s)
  {
    forall k: nat
      ensures QL.CreditsOf(after.ledger.log, k) ==
              if Owned(after.desk, k, s) && after.desk.sessions[k].status == Q.Submitted
                 && after.desk.sessions[k].rewardSeconds > 0
              then [after.desk.sessions[k].rewardSeconds] else []
    {
      if k == id {
        assert QL.CreditsOf(st.ledger.log, id) == [];
      }
    }
  }

  lemma SubmissionKeepsBooks(st: State, s: SubjectId, after: State, id: Q.SessionId, closed: Q.Session)
    requires Books(st, s) && Owned(st.desk, id, s) && Submission(st, after, id, closed)
    ensures Books(after, s)
  {
    ClosingTotals(st.desk.sessions, id, closed);
    ClosingRecords(st, s, id, closed, after);
  }

  lemma SessionsAreScaled(d: Q.Desk, id: Q.SessionId)
    requires QL.Inv(d) && id < |d.sessions|
    ensures G.Scaled(d.sessions[id].terms)
  {
  }

  lemma SubmitKeepsBooks(st: State, s: SubjectId, id: Q.SessionId, pol: L.Policy, at: Moment, read: Moment,
                         source: Source)
    requires Books(st, s) && L.Inv(st.ledger) && Owned(st.desk, id, s) && Q.Submittable(st.desk, id)
    requires G.Scaled(st.desk.sessions[id].terms)
    ensures var after := AfterSubmit(st, id, pol, at, read, source);
            Books(after, s) && L.Inv(after.ledger) && after.desk == Q.AfterSubmit(st.desk, id, at)
  {
    SubmitIsSubmission(st, id, pol, at, read, source);
    var after := AfterSubmit(st, id, pol, at, read, source);
    SubmissionKeepsBooks(st, s, after, id, after.desk.sessions[id]);
  }

  lemma SubmitKeepsInv(st: State, s: SubjectId, id: Q.SessionId, pol: L.Policy, at: Moment, read: Moment,
                       source: Source)
    requires Inv(st, s) && Owned(st.desk, id, s) && Q.Submittable(st.desk, id)
    ensures Inv(AfterSubmit(st, id, pol, at, read, source), s)
  {
    SessionsAreScaled(st.desk, id);
    SubmitKeepsBooks(st, s, id, pol, at, read, source);
    QL.SubmitKeepsInv(st.desk, id, at);
  }

  lemma StepKeepsInv(st: State, s: SubjectId, op: Op)
    requires Inv(st, s) && Wellformed(st, s, op)
    ensures Inv(Step(st, op), s)
  {
    match op
    case SubmitOp(id, pol, at, read, source) =>
      if Q.Submittable(st.desk, id) {
        SubmitKeepsInv(st, s, id, pol, at, read, source);
      }
    case DeskOp(o) => DeskKeepsInv(st, s, o);
    case LedgerOp(o) => LedgerKeepsInv(st, s, o);
  }

  lemma {:induction false} RunKeepsInv(ops: seq<Op>, s: SubjectId)
    requires LedgerFits(ops) && WellformedRun(ops, s)
    ensures Inv(Run(ops), s)
    decreases |ops|
  {
    if ops == [] {
      L.EmptyKeepsInv();
    } else {
      RunKeepsInv(ops[..|ops| - 1], s);
      StepKeepsInv(Run(ops[..|ops| - 1]), s, ops[|ops| - 1]);
    }
  }

  /** Progress is that of the sessions submitted, so all that is proved of a list of sessions - sums, streak,
      badges - holds of the row a subject sees. */
  lemma {:induction false} ProgressIsStudied(ops: seq<Op>)
    requires LedgerFits(ops)
    ensures var progress := PR.After(Studied(ops));
            Run(ops).row == progress.row && Run(ops).owned == progress.owned
    decreases |ops|
  {
    if ops == [] {
    } else {
      var init := ops[..|ops| - 1];
      ProgressIsStudied(init);
      if Studied(ops) != Studied(init) {
        assert Studied(ops)[..|Studied(ops)| - 1] == Studied(init);
      }
    }
  }

  /** One submission is one event in every table. After any run, the earned entries of the ledger are exactly
      the rewards its submitted sessions record, one entry each; progress counts exactly those sessions
      and their right answers; badges are those of these sessions; and the last study day is a day whose
      allowance was claimed. */
  lemma EveryReachableStudy(ops: seq<Op>, s: SubjectId)
    requires LedgerFits(ops) && WellformedRun(ops, s)
    ensures var st := Run(ops);
            && EarnedIsRecorded(st, s)
            && TotalsOf(st.desk.sessions, s)
               == Totals(|Studied(ops)|, PR.Total(Studied(ops), PR.Corrects), L.EarnedSum(st.ledger.log))
            && PR.Inv(st.row, st.owned)
            && (st.row.streak.last.Some? ==> L.Granted(st.ledger.usage, st.row.streak.last.value))
  {
    RunKeepsInv(ops, s);
    ProgressIsStudied(ops);
    PR.RowSumsSessions(Studied(ops));
    PR.BadgesMatchHighWater(Studied(ops));
  }

  /** Time is conserved: what a subject may still play is what its submitted sessions were worth, plus what was
      granted and given and not redeemed, less the seconds on its usage rows. */
  lemma TimeIsConserved(ops: seq<Op>, s: SubjectId, lo: Day, hi: Day)
    requires LedgerFits(ops) && WellformedRun(ops, s) && L.Covers(lo, hi, Run(ops).ledger.usage)
    ensures var st := Run(ops);
            L.Balance(st.ledger.log)
            == TotalsOf(st.desk.sessions, s).reward + GivenSum(st.ledger.log) - L.SpentBetween(st.ledger.usage, lo, hi)
  {
    RunKeepsInv(ops, s);
    RawSplits(Run(ops).ledger.log);
  }
}
