/** What every run of starting, reopening, answering and submitting quizzes keeps. */
module QuizLaws {
  import opened Base
  import opened Rules
  import opened Quizzes
  import G = Grading
  import L = Ledger
  import N = Generation

  // ---------------------------------------------------------------- one question, one permutation

  /** A stored multiple-choice question: four different options and a key among them. */
  ghost predicate WellShaped(q: Question) {
    q.body.Mcq? ==> |q.body.options| == 4 && Distinct(q.body.options) && 0 <= q.body.correct < 4
  }

  /** The quiz's view of a generated row. */
  function QuestionOf(row: N.Row, qset: SetId): Question {
    var q := row.question;
    Question(qset, q.difficulty,
             if q.qtype == N.McqType && q.options.Some? && q.correctIndex.Some?
             then Mcq(q.options.value, q.correctIndex.value) else Essay)
  }

  datatype Op =
    | StoreOp(stored: map<QuestionId, Question>)
    | StartOp(subject: SubjectId, qset: SetId, base: int, level: real, order: seq<QuestionId>,
              draws: map<QuestionId, Perm>)
    | GetOp(id: SessionId, rows: seq<QuestionId>, draws: map<QuestionId, Perm>)
    | AnswerOp(id: SessionId, q: QuestionId, a: Answer)
    | SubmitOp(id: SessionId, at: Moment)

  /** Stored questions are new and well shaped; queries return the rows of a set; draws are permutations;
      rewards and level factors come from the policy's range; picked positions are 0 to 3. */
  ghost predicate Wellformed(d: Desk, op: Op) {
    match op
    case StoreOp(rows) => rows.Keys !! d.questions.Keys && forall q :: q in rows ==> WellShaped(rows[q])
    case StartOp(_, qset, base, level, order, draws) =>
      && base >= 15 && (level == 0.0 || level == 1.0)
      && RowsOf(d.questions, order, qset) && Draws(d.questions, order, draws)
    case GetOp(id, rows, draws) =>
      id < |d.sessions| ==> RowsOf(d.questions, rows, d.sessions[id].qset) && Draws(d.questions, rows, draws)
    case AnswerOp(_, _, a) => a.chosen.Some? ==> 0 <= a.chosen.value < 4
    case SubmitOp(_, _) => true
  }

  /** What the generator stores, under whatever new ids, is what a quiz may rely on: multiple choice stays
      multiple choice with its options and key, and every question has the shape grading needs. */
  lemma StoredRowsFit(d: Desk, rows: seq<N.Row>, ids: seq<QuestionId>, qset: SetId)
    requires |ids| == |rows| && Distinct(ids) && forall i :: 0 <= i < |ids| ==> ids[i] !in d.questions
    requires forall i :: 0 <= i < |rows| ==> N.WellShaped(rows[i].question)
    ensures var stored := map i | 0 <= i < |ids| :: ids[i] := QuestionOf(rows[i], qset);
            && Wellformed(d, StoreOp(stored))
            && forall i :: 0 <= i < |ids| ==>
                 && stored[ids[i]] == QuestionOf(rows[i], qset)
                 && (stored[ids[i]].body.Mcq? <==> rows[i].question.qtype == N.McqType)
                 && (stored[ids[i]].body.Mcq? ==>
                       stored[ids[i]].body == Mcq(rows[i].question.options.value, rows[i].question.correctIndex.value))
  {
  }

  lemma PermHitsEverything(perm: Perm, v: int) returns (p: int)
    requires IsPerm(perm, 4) && 0 <= v < 4
    ensures 0 <= p < 4 && perm[p] == v
  {
    p := if perm[0] == v then 0 else if perm[1] == v then 1 else if perm[2] == v then 2 else 3;
    assert perm[0] != perm[1] && perm[0] != perm[2] && perm[0] != perm[3];
    assert perm[1] != perm[2] && perm[1] != perm[3] && perm[2] != perm[3];
  }

  /** However the options are shuffled, exactly one shown position is graded correct, and it is the one
      that shows the keyed option's text. */
  lemma ExactlyOneRight(q: Question, perm: Perm) returns (p: int)
    requires q.body.Mcq? && WellShaped(q) && IsPerm(perm, 4)
    ensures 0 <= p < 4
    ensures forall i :: 0 <= i < 4 ==> (G.GradeMcq(Decode(perm, Some(i)), q.body.correct) <==> i == p)
    ensures forall i :: 0 <= i < 4 ==> (Shown(q.body.options, perm)[i] == q.body.options[q.body.correct] <==> i == p)
  {
    p := PermHitsEverything(perm, q.body.correct);
    forall i | 0 <= i < 4 && i != p
      ensures perm[i] != q.body.correct && Shown(q.body.options, perm)[i] != q.body.options[q.body.correct]
    {
      assert perm[i] != perm[p];
    }
  }

  // ---------------------------------------------------------------- runs

  function Step(d: Desk, op: Op): Desk {
    match op
    case StoreOp(rows) => d.(questions := d.questions + rows)
    case StartOp(s, qset, base, level, order, draws) => AfterStart(d, s, qset, base, level, order, draws)
    case GetOp(id, rows, draws) => AfterGet(d, id, rows, draws)
    case AnswerOp(id, q, a) => if Answerable(d, id, q, a) then d.(answers := d.answers[(id, q) := a]) else d
    case SubmitOp(id, at) => if Submittable(d, id) then AfterSubmit(d, id, at) else d
  }

  function Run(d: Desk, ops: seq<Op>): Desk
    decreases |ops|
  {
    if ops == [] then d else Run(Step(d, ops[0]), ops[1..])
  }

  ghost predicate WellformedRun(d: Desk, ops: seq<Op>)
    decreases |ops|
  {
    ops == [] || (Wellformed(d, ops[0]) && WellformedRun(Step(d, ops[0]), ops[1..]))
  }

  // ---------------------------------------------------------------- invariants

  ghost predicate OneOpen(sessions: seq<Session>) {
    forall i, j :: 0 <= i < j < |sessions| && sessions[i].status == Open && sessions[j].status == Open ==>
      sessions[i].subject != sessions[j].subject || sessions[i].qset != sessions[j].qset
  }

  /** Sessions ever created for the subject on the set. */
  function Created(sessions: seq<Session>, s: SubjectId, qset: SetId): nat {
    if sessions == [] then 0
    else
      var last := sessions[|sessions| - 1];
      Created(sessions[..|sessions| - 1], s, qset) + (if last.subject == s && last.qset == qset then 1 else 0)
  }

  /** Which session of its subject on its set this is, counting from zero. */
  function Rank(sessions: seq<Session>, i: nat): nat
    requires i < |sessions|
  {
    Created(sessions[..i], sessions[i].subject, sessions[i].qset)
  }

  ghost predicate Discounted(sessions: seq<Session>) {
    forall i :: 0 <= i < |sessions| ==>
      && sessions[i].terms.novelty == NoveltyFactor(Rank(sessions, i))
      && sessions[i].replay == (Rank(sessions, i) > 0)
      && sessions[i].terms.level == 1.0 && sessions[i].terms.base >= 15
  }

  /** Every permutation belongs to a question of the order, and every such question has one. */
  ghost predicate PermsFit(questions: map<QuestionId, Question>, ses: Session) {
    && Distinct(ses.order)
    && (forall q :: q in ses.perms ==>
          q in ses.order && NeedsPerm(questions, q) && IsPerm(ses.perms[q], |questions[q].body.options|))
    && (forall q :: q in ses.order ==> q in questions && (NeedsPerm(questions, q) ==> q in ses.perms))
  }

  ghost predicate AllPermsFit(d: Desk) {
    forall i :: 0 <= i < |d.sessions| ==> PermsFit(d.questions, d.sessions[i])
  }

  ghost predicate ShapesFit(d: Desk) {
    && (forall q :: q in d.questions ==> WellShaped(d.questions[q]))
    && (forall key :: key in d.answers && d.answers[key].chosen.Some? ==> 0 <= d.answers[key].chosen.value < 4)
  }

  /** What the ledger was credited for a session, in order. */
  function CreditsOf(credits: seq<L.Entry>, id: int): seq<int> {
    if credits == [] then []
    else
      var init := CreditsOf(credits[..|credits| - 1], id);
      if credits[|credits| - 1].origin == L.Earned(id) then init + [credits[|credits| - 1].delta] else init
  }

  /** A session is paid at most once, after it closes, and then exactly what it recorded. */
  ghost predicate PaidOnce(d: Desk) {
    forall id: nat :: CreditsOf(d.credits, id) ==
      if id < |d.sessions| && d.sessions[id].status == Submitted && d.sessions[id].rewardSeconds > 0
      then [d.sessions[id].rewardSeconds] else []
  }

  ghost predicate Inv(d: Desk) {
    OneOpen(d.sessions) && Discounted(d.sessions) && AllPermsFit(d) && ShapesFit(d) && PaidOnce(d)
  }

  /** What later steps may still do to a session: extend its order and permutations, and close it. */
  ghost predicate Grows(a: Session, b: Session) {
    && b.subject == a.subject && b.qset == a.qset && b.terms == a.terms && b.replay == a.replay
    && a.order <= b.order
    && (forall q :: q in a.perms ==> q in b.perms && b.perms[q] == a.perms[q])
    && (a.status == Submitted ==>
          b.status == Submitted && b.rewardSeconds == a.rewardSeconds && b.correctCount == a.correctCount)
  }

  ghost predicate AllGrow(a: seq<Session>, b: seq<Session>) {
    |a| <= |b| && forall i :: 0 <= i < |a| ==> Grows(a[i], b[i])
  }

  lemma {:induction false} CreatedIgnoresGrowth(a: seq<Session>, b: seq<Session>, s: SubjectId, qset: SetId)
    requires |a| == |b| && AllGrow(a, b)
    ensures Created(a, s, qset) == Created(b, s, qset)
    decreases |a|
  {
    if a == [] {
    } else {
      assert Grows(a[|a| - 1], b[|b| - 1]);
      CreatedIgnoresGrowth(a[..|a| - 1], b[..|b| - 1], s, qset);
    }
  }

  lemma GrowthKeepsDiscounts(a: seq<Session>, b: seq<Session>)
    requires |a| == |b| && AllGrow(a, b) && Discounted(a)
    ensures Discounted(b)
  {
    forall i | 0 <= i < |b|
      ensures Rank(b, i) == Rank(a, i) && Grows(a[i], b[i])
    {
      CreatedIgnoresGrowth(a[..i], b[..i], a[i].subject, a[i].qset);
    }
  }

  lemma {:induction false} AllSubmittedWhenNoneOpen(sessions: seq<Session>, s: SubjectId, qset: SetId)
    requires FindOpen(sessions, s, qset) == None
    ensures SubmittedTimes(sessions, s, qset) == Created(sessions, s, qset)
    decreases |sessions|
  {
    if sessions == [] {
    } else {
      AllSubmittedWhenNoneOpen(sessions[..|sessions| - 1], s, qset);
    }
  }

  // ---------------------------------------------------------------- steps on sessions

  lemma {:induction false} ExtendedDistinct(order: seq<QuestionId>, rows: seq<QuestionId>)
    requires Distinct(order)
    ensures Distinct(ExtendedOrder(order, rows))
    decreases |rows|
  {
    if rows == [] {
    } else {
      ExtendedDistinct(order, rows[..|rows| - 1]);
    }
  }

  lemma RefreshedGrows(d: Desk, id: SessionId, rows: seq<QuestionId>, draws: map<QuestionId, Perm>)
    requires id < |d.sessions| && PermsFit(d.questions, d.sessions[id])
    requires RowsOf(d.questions, rows, d.sessions[id].qset) && Draws(d.questions, rows, draws)
    ensures Grows(d.sessions[id], Refreshed(d.sessions[id], d.questions, rows, draws))
    ensures PermsFit(d.questions, Refreshed(d.sessions[id], d.questions, rows, draws))
    ensures Refreshed(d.sessions[id], d.questions, rows, draws).status == d.sessions[id].status
  {
    var ses := d.sessions[id];
    var after := Refreshed(ses, d.questions, rows, draws);
    ExtendedMembers(ses.order, rows, 0);
    forall q ensures q in after.order <==> q in ses.order || q in rows {
      ExtendedMembers(ses.order, rows, q);
    }
    ExtendedDistinct(ses.order, rows);
    forall q
      ensures var drawn := q in rows && q !in ses.order && NeedsPerm(d.questions, q) && q in draws;
              && (q in after.perms <==> q in ses.perms || drawn)
              && (q in after.perms ==> after.perms[q] == if drawn then draws[q] else ses.perms[q])
    {
      ExtendedPermsMembers(ses.order, ses.perms, d.questions, rows, draws, q);
    }
  }

  /** Replacing one session by one it may grow into keeps all that does not concern payment. */
  lemma {:induction false} ReplaceKeeps(d: Desk, id: SessionId, ses: Session)
    requires Inv(d) && id < |d.sessions| && Grows(d.sessions[id], ses) && PermsFit(d.questions, ses)
    ensures var sessions := d.sessions[id := ses];
            OneOpen(sessions) && Discounted(sessions) && AllGrow(d.sessions, sessions)
            && AllPermsFit(d.(sessions := sessions))
  {
    var sessions := d.sessions[id := ses];
    assert AllGrow(d.sessions, sessions);
    GrowthKeepsDiscounts(d.sessions, sessions);
    assert OneOpen(sessions) by {
      forall i, j | 0 <= i < j < |sessions| && sessions[i].status == Open && sessions[j].status == Open
        ensures sessions[i].subject != sessions[j].subject || sessions[i].qset != sessions[j].qset
      {
        assert d.sessions[i].status == Open && d.sessions[j].status == Open;
      }
    }
  }

  lemma {:induction false} GetKeepsInv(d: Desk, id: SessionId, rows: seq<QuestionId>, draws: map<QuestionId, Perm>)
    requires Inv(d) && Wellformed(d, GetOp(id, rows, draws))
    ensures Inv(AfterGet(d, id, rows, draws)) && AllGrow(d.sessions, AfterGet(d, id, rows, draws).sessions)
  {
    if id < |d.sessions| {
      RefreshedGrows(d, id, rows, draws);
      var ses := Refreshed(d.sessions[id], d.questions, rows, draws);
      ReplaceKeeps(d, id, ses);
      assert PaidOnce(d.(sessions := d.sessions[id := ses]));
    }
  }

  lemma NewSessionFits(d: Desk, s: SubjectId, qset: SetId, base: int, level: real, order: seq<QuestionId>,
          draws: map<QuestionId, Perm>)
    requires RowsOf(d.questions, order, qset) && Draws(d.questions, order, draws)
    ensures PermsFit(d.questions, NewSession(d, s, qset, base, level, order, draws))
  {
  }

  lemma {:induction false} AppendKeepsDiscounts(sessions: seq<Session>, ses: Session)
    requires Discounted(sessions)
    requires ses.terms.novelty == NoveltyFactor(Created(sessions, ses.subject, ses.qset))
    requires ses.replay == (Created(sessions, ses.subject, ses.qset) > 0)
    requires ses.terms.level == 1.0 && ses.terms.base >= 15
    ensures Discounted(sessions + [ses])
  {
    var after := sessions + [ses];
    forall i | 0 <= i < |after|
      ensures after[i].terms.novelty == NoveltyFactor(Rank(after, i)) && after[i].replay == (Rank(after, i) > 0)
      ensures after[i].terms.level == 1.0 && after[i].terms.base >= 15
    {
      if i < |sessions| {
        assert after[..i] == sessions[..i];
        assert after[i] == sessions[i];
      } else {
        assert after[..i] == sessions;
      }
    }
  }

  lemma AppendKeepsInv(d: Desk, ses: Session)
    requires Inv(d) && PermsFit(d.questions, ses) && Discounted(d.sessions + [ses]) && ses.status == Open
    requires forall i :: 0 <= i < |d.sessions| ==> !IsOpen(d.sessions[i], ses.subject, ses.qset)
    ensures Inv(d.(sessions := d.sessions + [ses])) && AllGrow(d.sessions, d.sessions + [ses])
  {
    var after := d.(sessions := d.sessions + [ses]);
    assert AllPermsFit(after);
    assert OneOpen(after.sessions);
    assert PaidOnce(after) by {
      assert CreditsOf(after.credits, |d.sessions|) == [];
    }
  }

  lemma {:induction false} StartKeepsInv(d: Desk, s: SubjectId, qset: SetId, base: int, level: real,
          order: seq<QuestionId>, draws: map<QuestionId, Perm>)
    requires Inv(d) && Wellformed(d, StartOp(s, qset, base, level, order, draws))
    ensures Inv(AfterStart(d, s, qset, base, level, order, draws))
    ensures AllGrow(d.sessions, AfterStart(d, s, qset, base, level, order, draws).sessions)
  {
    FindOpenFinds(d.sessions, s, qset);
    var found := FindOpen(d.sessions, s, qset);
    if found.Some? {
      GetKeepsInv(d, found.value, order, draws);
    } else if level != 0.0 {
      AllSubmittedWhenNoneOpen(d.sessions, s, qset);
      var ses := NewSession(d, s, qset, base, level, order, draws);
      NewSessionFits(d, s, qset, base, level, order, draws);
      AppendKeepsDiscounts(d.sessions, ses);
      AppendKeepsInv(d, ses);
    }
  }

  lemma {:induction false} CreditsAfterAppend(credits: seq<L.Entry>, e: L.Entry, id: int)
    ensures CreditsOf(credits + [e], id)
            == if e.origin == L.Earned(id) then CreditsOf(credits, id) + [e.delta] else CreditsOf(credits, id)
  {
    assert (credits + [e])[..|credits|] == credits;
  }

  lemma PaymentKeepsInv(d: Desk, id: SessionId, marks: map<(SessionId, QuestionId), G.StoredMark>,
                        credits: seq<L.Entry>,
                        closed: Session)
    requires Inv(d) && id < |d.sessions| && d.sessions[id].status == Open && closed.status == Submitted
    requires Grows(d.sessions[id], closed) && PermsFit(d.questions, closed)
    requires forall k: nat ::
               CreditsOf(credits, k)
               == if k == id && closed.rewardSeconds > 0 then [closed.rewardSeconds] else CreditsOf(d.credits, k)
    ensures Inv(d.(sessions := d.sessions[id := closed], marks := marks, credits := credits))
    ensures AllGrow(d.sessions, d.sessions[id := closed])
  {
    ReplaceKeeps(d, id, closed);
    var after := d.(sessions := d.sessions[id := closed], marks := marks, credits := credits);
    assert PaidOnce(after);
  }

  lemma {:induction false} SubmitKeepsInv(d: Desk, id: SessionId, at: Moment)
    requires Inv(d) && Submittable(d, id)
    ensures Inv(AfterSubmit(d, id, at)) && AllGrow(d.sessions, AfterSubmit(d, id, at).sessions)
  {
    var after := AfterSubmit(d, id, at);
    var closed := after.sessions[id];
    var credited := closed.rewardSeconds;
    assert CreditsOf(d.credits, id) == [];
    forall k: nat
      ensures CreditsOf(after.credits, k) == if k == id && credited > 0 then [credited] else CreditsOf(d.credits, k)
    {
      CreditsAfterAppend(d.credits, L.Entry(credited, L.Earned(id), None, at), k);
    }
    assert PermsFit(d.questions, d.sessions[id]);
    PaymentKeepsInv(d, id, after.marks, after.credits, closed);
  }

  lemma StoreKeepsInv(d: Desk, rows: map<QuestionId, Question>)
    requires Inv(d) && Wellformed(d, StoreOp(rows))
    ensures Inv(Step(d, StoreOp(rows)))
  {
    var after := Step(d, StoreOp(rows));
    forall i | 0 <= i < |after.sessions| ensures PermsFit(after.questions, after.sessions[i]) {
      assert PermsFit(d.questions, d.sessions[i]);
    }
  }

  lemma AnswerKeepsInv(d: Desk, id: SessionId, q: QuestionId, a: Answer)
    requires Inv(d) && Wellformed(d, AnswerOp(id, q, a))
    ensures Inv(d.(answers := d.answers[(id, q) := a]))
  {
    var after := d.(answers := d.answers[(id, q) := a]);
    assert AllPermsFit(after) && ShapesFit(after) && PaidOnce(after);
  }

  lemma {:induction false} StepKeepsInv(d: Desk, op: Op)
    requires Inv(d) && Wellformed(d, op)
    ensures Inv(Step(d, op)) && AllGrow(d.sessions, Step(d, op).sessions)
  {
    match op
    case StoreOp(rows) => StoreKeepsInv(d, rows);
    case StartOp(s, qset, base, level, order, draws) => StartKeepsInv(d, s, qset, base, level, order, draws);
    case GetOp(id, rows, draws) => GetKeepsInv(d, id, rows, draws);
    case AnswerOp(id, q, a) => AnswerKeepsInv(d, id, q, a);
    case SubmitOp(id, at) => if Submittable(d, id) { SubmitKeepsInv(d, id, at); }
  }

  lemma StepKeepsQuestions(d: Desk, op: Op, q: QuestionId)
    requires Wellformed(d, op) && q in d.questions
    ensures q in Step(d, op).questions && Step(d, op).questions[q] == d.questions[q]
  {
  }

  lemma {:induction false} RunKeepsQuestions(d: Desk, ops: seq<Op>, q: QuestionId)
    requires WellformedRun(d, ops) && q in d.questions
    ensures q in Run(d, ops).questions && Run(d, ops).questions[q] == d.questions[q]
    decreases |ops|
  {
    if ops == [] {
    } else {
      StepKeepsQuestions(d, ops[0], q);
      RunKeepsQuestions(Step(d, ops[0]), ops[1..], q);
    }
  }

  lemma GrowthIsTransitive(a: seq<Session>, b: seq<Session>, c: seq<Session>)
    requires AllGrow(a, b) && AllGrow(b, c)
    ensures AllGrow(a, c)
  {
    forall i | 0 <= i < |a| ensures Grows(a[i], c[i]) {
      assert Grows(a[i], b[i]) && Grows(b[i], c[i]);
    }
  }

  lemma {:induction false} RunKeepsInv(d: Desk, ops: seq<Op>)
    requires Inv(d) && WellformedRun(d, ops)
    ensures Inv(Run(d, ops)) && AllGrow(d.sessions, Run(d, ops).sessions)
    decreases |ops|
  {
    if ops == [] {
    } else {
      StepKeepsInv(d, ops[0]);
      RunKeepsInv(Step(d, ops[0]), ops[1..]);
      GrowthIsTransitive(d.sessions, Step(d, ops[0]).sessions, Run(d, ops).sessions);
    }
  }

  // ---------------------------------------------------------------- stored marks

  ghost predicate MarkedWhenClosed(d: Desk) {
    forall key :: key in d.marks ==> key.0 < |d.sessions| && d.sessions[key.0].status == Submitted
  }

  ghost predicate MarksStay(a: Desk, b: Desk) {
    forall key :: key in a.marks ==> key in b.marks && b.marks[key] == a.marks[key]
  }

  lemma SubmitKeepsMarks(d: Desk, id: SessionId, at: Moment)
    requires Submittable(d, id) && MarkedWhenClosed(d)
    ensures MarkedWhenClosed(AfterSubmit(d, id, at)) && MarksStay(d, AfterSubmit(d, id, at))
  {
    var after := AfterSubmit(d, id, at);
    var present := Present(d.questions, d.sessions[id].order, d.sessions[id].qset);
    forall key ensures key in MarksFor(d, id, present) <==> key.0 == id && key.1 in present {
      MarksForMembers(d, id, present, key);
    }
    assert after.marks == d.marks + MarksFor(d, id, present);
  }

  lemma OthersLeaveMarks(d: Desk, op: Op)
    requires !(op.SubmitOp? && Submittable(d, op.id))
    ensures Step(d, op).marks == d.marks
  {
    match op
    case StoreOp(_) =>
    case StartOp(_, _, _, _, _, _) =>
    case GetOp(_, _, _) =>
    case AnswerOp(_, _, _) =>
    case SubmitOp(_, _) =>
  }

  lemma ClosedStaysClosed(a: Desk, b: Desk)
    requires MarkedWhenClosed(a) && AllGrow(a.sessions, b.sessions) && b.marks == a.marks
    ensures MarkedWhenClosed(b)
  {
    forall key | key in b.marks ensures key.0 < |b.sessions| && b.sessions[key.0].status == Submitted {
      assert Grows(a.sessions[key.0], b.sessions[key.0]);
    }
  }

  lemma StepKeepsMarks(d: Desk, op: Op)
    requires Inv(d) && Wellformed(d, op) && MarkedWhenClosed(d)
    ensures MarkedWhenClosed(Step(d, op)) && MarksStay(d, Step(d, op))
  {
    if op.SubmitOp? && Submittable(d, op.id) {
      SubmitKeepsMarks(d, op.id, op.at);
    } else {
      OthersLeaveMarks(d, op);
      StepKeepsInv(d, op);
      ClosedStaysClosed(d, Step(d, op));
    }
  }

  /** A mark is written when its session closes and never changes after. */
  lemma {:induction false} RunKeepsMarks(d: Desk, ops: seq<Op>)
    requires Inv(d) && WellformedRun(d, ops) && MarkedWhenClosed(d)
    ensures MarkedWhenClosed(Run(d, ops)) && MarksStay(d, Run(d, ops))
    decreases |ops|
  {
    if ops == [] {
    } else {
      StepKeepsMarks(d, ops[0]);
      StepKeepsInv(d, ops[0]);
      RunKeepsMarks(Step(d, ops[0]), ops[1..]);
    }
  }

  /** What submitting stores for an essay that was turned away: wrong, no score, no reward, and the flag if it
      tried to steer the marker. */
  lemma SteeringIsStored(d: Desk, id: SessionId, at: Moment, q: QuestionId)
    requires Submittable(d, id) && q in Present(d.questions, d.sessions[id].order, d.sessions[id].qset)
    requires d.questions[q].body.Essay? && G.TurnedAway(d.answers[(id, q)].essay)
    ensures var essay := d.answers[(id, q)].essay;
            && (id, q) in AfterSubmit(d, id, at).marks
            && AfterSubmit(d, id, at).marks[(id, q)]
               == G.StoredMark(false, Some(0), !essay.blank && essay.steers, 0)
  {
    var essay := d.answers[(id, q)].essay;
    var present := Present(d.questions, d.sessions[id].order, d.sessions[id].qset);
    MarksForMembers(d, id, present, (id, q));
    G.SteeringNeverPays(d.sessions[id].terms, d.questions[q].difficulty, essay);
    G.EssayVerdict(essay);
  }

  /** What submitting credits: the whole seconds of the rewards of the answers that were not turned away, as one
      earned row of the session, dated now, if that is anything. */
  lemma {:induction false} CreditedExactly(d: Desk, id: SessionId, at: Moment)
    requires Submittable(d, id)
    ensures var after := AfterSubmit(d, id, at);
            var seconds := after.sessions[id].rewardSeconds;
            && seconds == Truncate(G.RewardSum(d.sessions[id].terms, G.Serious(Paper(d, id))))
            && after.credits
               == if seconds > 0 then d.credits + [L.Entry(seconds, L.Earned(id), None, at)] else d.credits
  {
    G.TurnedAwayAddNothing(d.sessions[id].terms, Paper(d, id));
  }

  lemma ClosedAnswerStays(d: Desk, op: Op, id: SessionId, q: QuestionId)
    requires id < |d.sessions| && d.sessions[id].status == Submitted
    ensures (id, q) in Step(d, op).answers <==> (id, q) in d.answers
    ensures (id, q) in d.answers ==> Step(d, op).answers[(id, q)] == d.answers[(id, q)]
  {
    match op
    case StoreOp(_) =>
    case StartOp(_, _, _, _, _, _) =>
    case GetOp(_, _, _) =>
    case AnswerOp(_, _, _) =>
    case SubmitOp(_, _) =>
  }

  /** Once a session is closed its answers are what was marked: nothing saves another. */
  lemma {:induction false} ClosedAnswersStay(d: Desk, ops: seq<Op>, id: SessionId, q: QuestionId)
    requires Inv(d) && WellformedRun(d, ops) && id < |d.sessions| && d.sessions[id].status == Submitted
    ensures (id, q) in Run(d, ops).answers <==> (id, q) in d.answers
    ensures (id, q) in d.answers ==> Run(d, ops).answers[(id, q)] == d.answers[(id, q)]
    decreases |ops|
  {
    if ops == [] {
    } else {
      StepKeepsInv(d, ops[0]);
      assert Grows(d.sessions[id], Step(d, ops[0]).sessions[id]);
      ClosedAnswerStays(d, ops[0], id, q);
      ClosedAnswersStay(Step(d, ops[0]), ops[1..], id, q);
    }
  }

  /** Sums over the stored marks of a session's questions; rewards are in hundredths. */
  function StoredReward(marks: map<(SessionId, QuestionId), G.StoredMark>, id: SessionId, present: seq<QuestionId>): int
    requires forall q :: q in present ==> (id, q) in marks
  {
    if present == [] then 0
    else
      var last := present[|present| - 1];
      assert last in present;
      StoredReward(marks, id, present[..|present| - 1]) + marks[(id, last)].reward
  }

  function StoredCorrect(marks: map<(SessionId, QuestionId), G.StoredMark>, id: SessionId,
                         present: seq<QuestionId>): nat
    requires forall q :: q in present ==> (id, q) in marks
  {
    if present == [] then 0
    else
      var last := present[|present| - 1];
      assert last in present;
      StoredCorrect(marks, id, present[..|present| - 1]) + (if marks[(id, last)].isCorrect then 1 else 0)
  }

  lemma {:induction false} MarksAddUp(terms: G.Terms, marks: map<(SessionId, QuestionId), G.StoredMark>, id: SessionId,
                                      present: seq<QuestionId>, paper: seq<G.Answered>)
    requires |paper| == |present| && forall q :: q in present ==> (id, q) in marks
    requires forall i :: 0 <= i < |present| ==>
               (id, present[i]) in marks && marks[(id, present[i])] == G.StoredMarkOf(terms, paper[i])
    ensures StoredReward(marks, id, present) == G.StoredSum(terms, paper)
    ensures StoredCorrect(marks, id, present) == G.ScoreOf(paper).correct
    decreases |present|
  {
    if present == [] {
    } else {
      var n := |present| - 1;
      assert present[n] in present;
      MarksAddUp(terms, marks, id, present[..n], paper[..n]);
    }
  }

  lemma SessionsAreStarted(d: Desk, id: SessionId)
    requires Inv(d) && id < |d.sessions|
    ensures G.Started(d.sessions[id].terms) && G.Payable(d.sessions[id].terms)
  {
  }

  lemma SubmitStoresSums(d: Desk, id: SessionId, at: Moment)
    requires Submittable(d, id)
    ensures var after := AfterSubmit(d, id, at);
            var present := Present(d.questions, d.sessions[id].order, d.sessions[id].qset);
            && (forall q :: q in present ==> (id, q) in after.marks)
            && StoredReward(after.marks, id, present) == G.StoredSum(d.sessions[id].terms, Paper(d, id))
            && StoredCorrect(after.marks, id, present) == G.ScoreOf(Paper(d, id)).correct
  {
    var after := AfterSubmit(d, id, at);
    var present := Present(d.questions, d.sessions[id].order, d.sessions[id].qset);
    forall i | 0 <= i < |present|
      ensures present[i] in present && (id, present[i]) in after.marks
      ensures after.marks[(id, present[i])] == G.StoredMarkOf(d.sessions[id].terms, Paper(d, id)[i])
    {
      assert present[i] in present;
      MarksForMembers(d, id, present, (id, present[i]));
    }
    MarksAddUp(d.sessions[id].terms, after.marks, id, present, Paper(d, id));
  }

  /** The session row against the stored marks. The recorded count is that of the marks called correct. The
      stored rewards add up to the gross up to the rounding of the passed essays, half a hundredth each;
      and the recorded seconds are their whole part if and only if that rounding carries across no whole
      second, as is always so without a passed essay. */
  lemma MarksMatchSession(d: Desk, id: SessionId, at: Moment)
    requires Inv(d) && Submittable(d, id)
    ensures var after := AfterSubmit(d, id, at);
            var present := Present(d.questions, d.sessions[id].order, d.sessions[id].qset);
            var gross := G.RewardSum(d.sessions[id].terms, Paper(d, id));
            var error := G.RoundingError(d.sessions[id].terms, Paper(d, id));
            var passed := G.ScoreOf(Paper(d, id)).essays;
            && (forall q :: q in present ==> (id, q) in after.marks)
            && after.sessions[id].correctCount == StoredCorrect(after.marks, id, present)
            && StoredReward(after.marks, id, present) as real == gross * 100.0 + error
            && -(passed as real) <= 2.0 * error <= passed as real
            && (after.sessions[id].rewardSeconds == StoredReward(after.marks, id, present) / 100
                <==> 0.0 <= (gross - gross.Floor as real) * 100.0 + error < 100.0)
            && (passed == 0 ==> after.sessions[id].rewardSeconds == StoredReward(after.marks, id, present) / 100)
  {
    var terms := d.sessions[id].terms;
    SessionsAreStarted(d, id);
    SubmitStoresSums(d, id, at);
    G.StoredSumIsRounded(terms, Paper(d, id));
    G.StoredSecondsAgree(terms, Paper(d, id));
  }

  /** Two essays of middling difficulty at 352 seconds a question, both answered with the same essay. */
  function TwoEssays(a: QuestionId, b: QuestionId, essay: G.EssayAnswer): seq<Op> {
    var q := Question(7, G.Sedang, Essay);
    [StoreOp(map[a := q, b := q]), StartOp(1, 7, 352, 1.0, [a, b], map[]),
     AnswerOp(0, a, Answer(None, essay)), AnswerOp(0, b, Answer(None, essay))]
  }

  function TwoEssaysDesk(a: QuestionId, b: QuestionId, essay: G.EssayAnswer): Desk {
    var q := Question(7, G.Sedang, Essay);
    var ses := Session(1, 7, [a, b], map[], G.Terms(352, 1.0, 1.0), false, Open, 0, 0);
    Desk(map[a := q, b := q], [ses], map[(0, a) := Answer(None, essay), (0, b) := Answer(None, essay)], map[], [])
  }

  lemma RunOfMore(d: Desk, first: Op, rest: seq<Op>)
    ensures Run(d, [first] + rest) == Run(Step(d, first), rest)
    ensures WellformedRun(d, [first] + rest) <==> Wellformed(d, first) && WellformedRun(Step(d, first), rest)
  {
    assert ([first] + rest)[1..] == rest;
  }

  lemma RunOfFour(d: Desk, a: Op, b: Op, c: Op, e: Op)
    ensures Run(d, [a, b, c, e]) == Step(Step(Step(Step(d, a), b), c), e)
    ensures WellformedRun(d, [a, b, c, e]) <==>
            && Wellformed(d, a) && Wellformed(Step(d, a), b) && Wellformed(Step(Step(d, a), b), c)
            && Wellformed(Step(Step(Step(d, a), b), c), e)
  {
    assert [a, b, c, e] == [a] + ([b] + ([c] + ([e] + [])));
    RunOfMore(d, a, [b] + ([c] + ([e] + [])));
    RunOfMore(Step(d, a), b, [c] + ([e] + []));
    RunOfMore(Step(Step(d, a), b), c, [e] + []);
    RunOfMore(Step(Step(Step(d, a), b), c), e, []);
  }

  lemma TwoEssaysStarted(a: QuestionId, b: QuestionId, essay: G.EssayAnswer)
    requires a != b
    ensures var ops := TwoEssays(a, b, essay);
            var done := TwoEssaysDesk(a, b, essay);
            && Wellformed(EMPTY, ops[0]) && Wellformed(Step(EMPTY, ops[0]), ops[1])
            && Step(Step(EMPTY, ops[0]), ops[1]) == done.(answers := map[])
  {
    var ops := TwoEssays(a, b, essay);
    var done := TwoEssaysDesk(a, b, essay);
    var stored := Step(EMPTY, ops[0]);
    assert stored == EMPTY.(questions := done.questions);
    assert NewSession(stored, 1, 7, 352, 1.0, [a, b], map[]) == done.sessions[0];
  }

  lemma TwoEssaysReached(a: QuestionId, b: QuestionId, essay: G.EssayAnswer)
    requires a != b && !essay.blank
    ensures WellformedRun(EMPTY, TwoEssays(a, b, essay))
    ensures Run(EMPTY, TwoEssays(a, b, essay)) == TwoEssaysDesk(a, b, essay)
  {
    var ops := TwoEssays(a, b, essay);
    RunOfFour(EMPTY, ops[0], ops[1], ops[2], ops[3]);
    TwoEssaysStarted(a, b, essay);
    var begun := TwoEssaysDesk(a, b, essay).(answers := map[]);
    assert Step(begun, ops[2]).answers == map[(0, a) := Answer(None, essay)];
    assert Step(Step(begun, ops[2]), ops[3]) == TwoEssaysDesk(a, b, essay);
  }

  lemma SixtyOne(t: G.Terms, essay: G.EssayAnswer)
    requires !essay.blank && !essay.steers && essay.words >= G.MIN_ESSAY_WORDS && essay.total == 61.0
    requires t == G.Terms(352, 1.0, 1.0)
    ensures G.MarkOf(t, G.Written(G.Sedang, essay)).reward == 386.496
    ensures G.StoredMarkOf(t, G.Written(G.Sedang, essay)).reward == 38650
  {
  }

  lemma SumsOfTwo(t: G.Terms, a: G.Answered, b: G.Answered)
    ensures G.RewardSum(t, [a, b]) == G.MarkOf(t, a).reward + G.MarkOf(t, b).reward
    ensures G.StoredSum(t, [a, b]) == G.StoredMarkOf(t, a).reward + G.StoredMarkOf(t, b).reward
  {
    assert [a, b][..1] == [a] && [a][..0] == [];
    assert G.RewardSum(t, [a]) == G.MarkOf(t, a).reward;
    assert G.StoredSum(t, [a]) == G.StoredMarkOf(t, a).reward;
  }

  lemma PresentOfTwo(questions: map<QuestionId, Question>, a: QuestionId, b: QuestionId, qset: SetId)
    requires InSet(questions, a, qset) && InSet(questions, b, qset)
    ensures Present(questions, [a, b], qset) == [a, b]
  {
    assert [a, b][..1] == [a] && [a][..0] == [];
    assert Present(questions, [a], qset) == [a];
  }

  lemma TwoEssaysPaper(a: QuestionId, b: QuestionId, essay: G.EssayAnswer)
    requires a != b
    ensures Submittable(TwoEssaysDesk(a, b, essay), 0)
    ensures Paper(TwoEssaysDesk(a, b, essay), 0) == [G.Written(G.Sedang, essay), G.Written(G.Sedang, essay)]
  {
    var d := TwoEssaysDesk(a, b, essay);
    PresentOfTwo(d.questions, a, b, 7);
  }

  /** The rounding that carries: each essay, scored 61, earns 386.496 seconds and is stored as 386.50; the
      stored rewards add up to 773 seconds, and 772 are credited. */
  lemma RoundingCarriesExample(a: QuestionId, b: QuestionId, essay: G.EssayAnswer, at: Moment)
    requires a != b
    requires !essay.blank && !essay.steers && essay.words >= G.MIN_ESSAY_WORDS && essay.total == 61.0
    ensures var d := Run(EMPTY, TwoEssays(a, b, essay));
            && WellformedRun(EMPTY, TwoEssays(a, b, essay))
            && Submittable(d, 0)
            && var after := AfterSubmit(d, 0, at);
            && after.sessions[0].rewardSeconds == 772
            && (forall q :: q in [a, b] ==> (0, q) in after.marks)
            && StoredReward(after.marks, 0, [a, b]) == 77300
  {
    TwoEssaysReached(a, b, essay);
    TwoEssaysPaper(a, b, essay);
    PresentOfTwo(TwoEssaysDesk(a, b, essay).questions, a, b, 7);
    SubmitStoresSums(TwoEssaysDesk(a, b, essay), 0, at);
    var terms := G.Terms(352, 1.0, 1.0);
    var written := G.Written(G.Sedang, essay);
    SixtyOne(terms, essay);
    SumsOfTwo(terms, written, written);
  }

  // ---------------------------------------------------------------- the announced ceiling

  ghost predicate StatusStays(a: seq<Session>, b: seq<Session>, except: nat) {
    && |a| <= |b|
    && (forall i :: 0 <= i < |a| && i != except ==> b[i].status == a[i].status)
    && (forall i :: |a| <= i < |b| ==> b[i].status == Open)
  }

  lemma GetStatus(d: Desk, id: SessionId, rows: seq<QuestionId>, draws: map<QuestionId, Perm>, except: nat)
    ensures StatusStays(d.sessions, AfterGet(d, id, rows, draws).sessions, except)
  {
  }

  lemma StepStatus(d: Desk, op: Op, except: nat)
    requires op.SubmitOp? ==> op.id == except
    ensures StatusStays(d.sessions, Step(d, op).sessions, except)
  {
    match op
    case StoreOp(_) =>
    case StartOp(s, qset, _, _, order, draws) =>
      if FindOpen(d.sessions, s, qset).Some? {
        GetStatus(d, FindOpen(d.sessions, s, qset).value, order, draws, except);
      }
    case GetOp(id, rows, draws) => GetStatus(d, id, rows, draws, except);
    case AnswerOp(_, _, _) =>
    case SubmitOp(_, _) =>
  }

  function EssaysIn(questions: map<QuestionId, Question>, order: seq<QuestionId>): nat {
    if order == [] then 0
    else
      var last := order[|order| - 1];
      EssaysIn(questions, order[..|order| - 1]) + (if last in questions && questions[last].body.Essay? then 1 else 0)
  }

  lemma {:induction false} EssaysOfPresent(d: Desk, id: SessionId, order: seq<QuestionId>, qset: SetId,
                                           paper: seq<G.Answered>)
    requires id < |d.sessions| && |paper| == |Present(d.questions, order, qset)|
    requires forall i :: 0 <= i < |paper| ==>
               var q := Present(d.questions, order, qset)[i];
               Gradable(d, id, q) && paper[i] == AnsweredBy(d, id, q)
    ensures |paper| <= |order| && G.Essays(paper) <= EssaysIn(d.questions, order)
    decreases |order|
  {
    if order == [] {
    } else {
      var init := order[..|order| - 1];
      if InSet(d.questions, order[|order| - 1], qset) {
        var n := |paper| - 1;
        assert Present(d.questions, order, qset)[..n] == Present(d.questions, init, qset);
        forall i | 0 <= i < n
          ensures var q := Present(d.questions, init, qset)[i];
                  Gradable(d, id, q) && paper[..n][i] == AnsweredBy(d, id, q)
        {
          assert Present(d.questions, order, qset)[i] == Present(d.questions, init, qset)[i];
        }
        EssaysOfPresent(d, id, init, qset, paper[..n]);
      } else {
        EssaysOfPresent(d, id, init, qset, paper);
      }
    }
  }

  /** A session whose order holds no more essays than the ratio rounds to. */
  predicate WithinRatio(questions: map<QuestionId, Question>, order: seq<QuestionId>, essayRatio: real) {
    0.0 <= essayRatio <= 1.0 && EssaysIn(questions, order) <= G.AllowedEssays(|order|, essayRatio)
  }

  lemma SubmitWithinCeiling(d: Desk, id: SessionId, at: Moment, essayRatio: real)
    requires Inv(d) && Submittable(d, id) && WithinRatio(d.questions, d.sessions[id].order, essayRatio)
    ensures AfterSubmit(d, id, at).sessions[id].rewardSeconds <= Announced(d.sessions[id], essayRatio)
  {
    var ses := d.sessions[id];
    SessionsAreStarted(d, id);
    EssaysOfPresent(d, id, ses.order, ses.qset, Paper(d, id));
    G.CreditWithinCeiling(ses.terms, Paper(d, id), |ses.order|, essayRatio);
  }

  lemma {:induction false} StepKeepsEssays(d: Desk, op: Op, order: seq<QuestionId>)
    requires Wellformed(d, op) && forall q :: q in order ==> q in d.questions
    ensures EssaysIn(Step(d, op).questions, order) == EssaysIn(d.questions, order)
    decreases |order|
  {
    if order == [] {
    } else {
      assert order[|order| - 1] in order;
      StepKeepsQuestions(d, op, order[|order| - 1]);
      StepKeepsEssays(d, op, order[..|order| - 1]);
    }
  }

  lemma ClosedBySubmit(d: Desk, op: Op, id: SessionId)
    requires id < |d.sessions| && d.sessions[id].status == Open
    requires id < |Step(d, op).sessions| && Step(d, op).sessions[id].status == Submitted
    ensures op.SubmitOp? && op.id == id && Submittable(d, id)
  {
    StepStatus(d, op, if op.SubmitOp? then op.id else |d.sessions|);
  }

  ghost predicate RewardWithin(sessions: seq<Session>, id: SessionId, order: seq<QuestionId>, most: int) {
    && id < |sessions| && order <= sessions[id].order
    && (sessions[id].status == Submitted && sessions[id].order == order ==> sessions[id].rewardSeconds <= most)
  }

  lemma StepWithinAnnounced(d: Desk, op: Op, id: SessionId, essayRatio: real)
    requires Inv(d) && Wellformed(d, op) && id < |d.sessions| && d.sessions[id].status == Open
    requires WithinRatio(d.questions, d.sessions[id].order, essayRatio)
    ensures WithinRatio(Step(d, op).questions, d.sessions[id].order, essayRatio)
    ensures id < |Step(d, op).sessions| && Grows(d.sessions[id], Step(d, op).sessions[id])
    ensures RewardWithin(Step(d, op).sessions, id, d.sessions[id].order, Announced(d.sessions[id], essayRatio))
  {
    StepKeepsInv(d, op);
    assert PermsFit(d.questions, d.sessions[id]);
    StepKeepsEssays(d, op, d.sessions[id].order);
    if Step(d, op).sessions[id].status == Submitted {
      ClosedBySubmit(d, op, id);
      SubmitWithinCeiling(d, id, op.at, essayRatio);
    }
  }

  lemma GrownWithin(a: Session, later: seq<Session>, id: SessionId, order: seq<QuestionId>, most: int)
    requires id < |later| && Grows(a, later[id]) && order <= a.order && a.status == Submitted
    requires a.order == order ==> a.rewardSeconds <= most
    ensures RewardWithin(later, id, order, most)
  {
  }

  /** The ceiling announced for an open session holds to the end: whatever happens until the session is
      submitted and after, as long as its order has not grown meanwhile and holds no more essays than the
      ratio rounds to, no more is credited than was announced. */
  lemma {:induction false} CreditWithinAnnounced(d: Desk, ops: seq<Op>, id: SessionId, essayRatio: real)
    requires Inv(d) && WellformedRun(d, ops) && id < |d.sessions| && d.sessions[id].status == Open
    requires WithinRatio(d.questions, d.sessions[id].order, essayRatio)
    ensures RewardWithin(Run(d, ops).sessions, id, d.sessions[id].order, Announced(d.sessions[id], essayRatio))
    decreases |ops|
  {
    if ops == [] {
    } else {
      var next := Step(d, ops[0]);
      StepKeepsInv(d, ops[0]);
      StepWithinAnnounced(d, ops[0], id, essayRatio);
      RunKeepsInv(next, ops[1..]);
      assert Grows(next.sessions[id], Run(next, ops[1..]).sessions[id]);
      if next.sessions[id].status == Submitted {
        GrownWithin(next.sessions[id], Run(next, ops[1..]).sessions, id, d.sessions[id].order,
                    Announced(d.sessions[id], essayRatio));
      } else if next.sessions[id].order == d.sessions[id].order {
        CreditWithinAnnounced(next, ops[1..], id, essayRatio);
      }
    }
  }

  // ---------------------------------------------------------------- the promises

  /** In every reachable state a subject has at most one open session per question set; the sessions it
      ever opened there carry novelty 1.0, 0.6 and then 0.3, in that order; and a session is paid
      nothing while open, and afterwards exactly once what it recorded, if that is anything. */
  lemma EveryReachableDesk(ops: seq<Op>)
    requires WellformedRun(EMPTY, ops)
    ensures var d := Run(EMPTY, ops);
            && OneOpen(d.sessions)
            && (forall i :: 0 <= i < |d.sessions| ==>
                  d.sessions[i].terms.novelty ==
                  if Rank(d.sessions, i) == 0 then 1.0 else if Rank(d.sessions, i) == 1 then 0.6 else 0.3)
            && PaidOnce(d)
  {
    RunKeepsInv(EMPTY, ops);
  }

  /** A saved position keeps its meaning: whatever happens between two moments, the option a position of a
      session stands for, as shown at the first, is the one it is decoded to at the second, and it is
      graded correct exactly when the text shown there is the keyed option's. */
  lemma {:induction false} SavedPositionKeepsMeaning(d: Desk, ops: seq<Op>, id: SessionId, q: QuestionId, picked: int)
    requires Inv(d) && WellformedRun(d, ops)
    requires id < |d.sessions| && q in d.sessions[id].perms && 0 <= picked < 4
    ensures var later := Run(d, ops);
            var row := d.questions[q];
            var perm := PermOf(d.sessions[id], q);
            && IsPerm(perm, 4) && row.body.Mcq? && |row.body.options| == 4
            && id < |later.sessions|
            && PermOf(later.sessions[id], q) == perm
            && q in later.questions && later.questions[q] == row
            && (G.GradeMcq(Decode(PermOf(later.sessions[id], q), Some(picked)), row.body.correct)
                <==> Shown(row.body.options, perm)[picked] == row.body.options[row.body.correct])
  {
    RunKeepsInv(d, ops);
    RunKeepsQuestions(d, ops, q);
    assert PermsFit(d.questions, d.sessions[id]);
    assert Grows(d.sessions[id], Run(d, ops).sessions[id]);
    var p := ExactlyOneRight(d.questions[q], d.sessions[id].perms[q]);
  }

  lemma {:induction false} PresentMembers(questions: map<QuestionId, Question>, order: seq<QuestionId>, qset: SetId,
          q: QuestionId)
    ensures q in Present(questions, order, qset) <==> q in order && InSet(questions, q, qset)
    decreases |order|
  {
    if order == [] {
    } else {
      PresentMembers(questions, order[..|order| - 1], qset, q);
      assert order == order[..|order| - 1] + [order[|order| - 1]];
    }
  }

  /** Once every question of an open session is answered, submitting cannot fail: no saved position is
      ever out of range of its permutation. */
  lemma AnsweredMeansSubmittable(d: Desk, id: SessionId)
    requires Inv(d) && id < |d.sessions| && d.sessions[id].status == Open
    requires forall q ::
               q in d.sessions[id].order && InSet(d.questions, q, d.sessions[id].qset) ==> (id, q) in d.answers
    ensures Submittable(d, id) && G.Payable(d.sessions[id].terms)
  {
    var ses := d.sessions[id];
    assert PermsFit(d.questions, ses);
    forall q | q in Present(d.questions, ses.order, ses.qset) ensures Gradable(d, id, q) {
      PresentMembers(d.questions, ses.order, ses.qset, q);
      assert WellShaped(d.questions[q]);
    }
  }

  // ---------------------------------------------------------------- who may start, and what is shown

  /** A quiz can start exactly on the subject's own undeleted material whose questions are being or have been
      generated, with at least one ready; and never on a material assessed below the declared level. */
  lemma StartsExactly(s: SubjectId, material: Option<Material>, newest: Option<SetRow>, declared: string)
    ensures Obstacle(s, material, newest) == None <==>
            && material.Some? && material.value.owner == s && !material.value.deleted
            && material.value.status in {Generating, Ready}
            && newest.Some? && newest.value.readyCount > 0
    ensures material.Some? ==>
              (LevelOf(material.value, declared) == 1.0 <==>
               material.value.assessed == None || LevelIndex(declared) <= LevelIndex(material.value.assessed.value))
  {
  }

  /** Every question of the set is in the session, and every shuffled one has its shuffle. */
  ghost predicate ShowsAll(questions: map<QuestionId, Question>, ses: Session) {
    forall q :: q in questions && questions[q].qset == ses.qset ==>
      q in ses.order && (NeedsPerm(questions, q) ==> q in ses.perms)
  }

  /** Opening and reopening show every question there is by then: a session started while its set was still
      growing gets the questions that were missing. */
  lemma OpeningShowsAll(d: Desk, id: SessionId, rows: seq<QuestionId>, draws: map<QuestionId, Perm>)
    requires Inv(d) && id < |d.sessions| && Wellformed(d, GetOp(id, rows, draws))
    ensures ShowsAll(d.questions, AfterGet(d, id, rows, draws).sessions[id])
  {
    var ses := d.sessions[id];
    assert PermsFit(d.questions, ses);
    forall q | InSet(d.questions, q, ses.qset)
      ensures q in Refreshed(ses, d.questions, rows, draws).order
      ensures NeedsPerm(d.questions, q) ==> q in Refreshed(ses, d.questions, rows, draws).perms
    {
      assert q in rows;
      ExtendedMembers(ses.order, rows, q);
      ExtendedPermsMembers(ses.order, ses.perms, d.questions, rows, draws, q);
    }
  }

  lemma {:induction false} StartShowsAll(d: Desk, s: SubjectId, qset: SetId, base: int, level: real,
                                         order: seq<QuestionId>, draws: map<QuestionId, Perm>) returns (id: SessionId)
    requires Inv(d) && Wellformed(d, StartOp(s, qset, base, level, order, draws))
    requires FindOpen(d.sessions, s, qset).Some? || level != 0.0
    ensures var after := AfterStart(d, s, qset, base, level, order, draws);
            && id < |after.sessions|
            && after.sessions[id].subject == s && after.sessions[id].qset == qset && after.sessions[id].status == Open
            && ShowsAll(d.questions, after.sessions[id])
            && (id == |d.sessions| ==> after.sessions[id].terms.base == base)
  {
    FindOpenFinds(d.sessions, s, qset);
    if FindOpen(d.sessions, s, qset).Some? {
      id := FindOpen(d.sessions, s, qset).value;
      OpeningShowsAll(d, id, order, draws);
    } else {
      id := |d.sessions|;
    }
  }

  // ---------------------------------------------------------------- what is answered

  /** Saved answers belong to questions of their session's set, and are of the question's kind: an option for
      multiple choice, a text that is not blank for an essay. */
  ghost predicate AnswersFit(d: Desk) {
    forall key :: key in d.answers ==>
      && key.0 < |d.sessions| && key.1 in d.questions && d.questions[key.1].qset == d.sessions[key.0].qset
      && (d.questions[key.1].body.Mcq? ==> d.answers[key].chosen.Some?)
      && (d.questions[key.1].body.Essay? ==> !d.answers[key].essay.blank)
  }

  lemma OnlyAnswersAnswer(d: Desk, op: Op)
    ensures Step(d, op).answers
            == if op.AnswerOp? && Answerable(d, op.id, op.q, op.a) then d.answers[(op.id, op.q) := op.a] else d.answers
  {
    match op
    case StoreOp(_) =>
    case StartOp(_, _, _, _, _, _) =>
    case GetOp(_, _, _) =>
    case AnswerOp(_, _, _) =>
    case SubmitOp(_, _) =>
  }

  lemma StepKeepsAnswers(d: Desk, op: Op)
    requires Inv(d) && Wellformed(d, op) && AnswersFit(d)
    ensures AnswersFit(Step(d, op))
  {
    StepKeepsInv(d, op);
    var after := Step(d, op);
    forall key | key in after.answers && key in d.answers
      ensures key.0 < |after.sessions| && after.sessions[key.0].qset == d.sessions[key.0].qset
      ensures key.1 in after.questions && after.questions[key.1] == d.questions[key.1]
    {
      assert Grows(d.sessions[key.0], after.sessions[key.0]);
      StepKeepsQuestions(d, op, key.1);
    }
    OnlyAnswersAnswer(d, op);
  }

  lemma {:induction false} RunKeepsAnswers(d: Desk, ops: seq<Op>)
    requires Inv(d) && WellformedRun(d, ops) && AnswersFit(d)
    ensures AnswersFit(Run(d, ops))
    decreases |ops|
  {
    if ops == [] {
    } else {
      StepKeepsAnswers(d, ops[0]);
      StepKeepsInv(d, ops[0]);
      RunKeepsAnswers(Step(d, ops[0]), ops[1..]);
    }
  }

  lemma {:induction false} AnswerStands(d: Desk, ops: seq<Op>, id: SessionId, q: QuestionId)
    requires (id, q) in d.answers
    requires forall i :: 0 <= i < |ops| && ops[i].AnswerOp? ==> ops[i].id != id || ops[i].q != q
    ensures (id, q) in Run(d, ops).answers && Run(d, ops).answers[(id, q)] == d.answers[(id, q)]
    decreases |ops|
  {
    if ops == [] {
    } else {
      OnlyAnswersAnswer(d, ops[0]);
      AnswerStands(Step(d, ops[0]), ops[1..], id, q);
    }
  }

  /** What a player saved last is what is marked: an accepted answer stands until the same question of the same
      session is answered again. */
  lemma {:induction false} LastAnswerStands(d: Desk, ops: seq<Op>, id: SessionId, q: QuestionId, a: Answer)
    requires Answerable(d, id, q, a)
    requires forall i :: 0 <= i < |ops| && ops[i].AnswerOp? ==> ops[i].id != id || ops[i].q != q
    ensures var after := Run(Step(d, AnswerOp(id, q, a)), ops);
            (id, q) in after.answers && after.answers[(id, q)] == a
    decreases |ops|
  {
    AnswerStands(Step(d, AnswerOp(id, q, a)), ops, id, q);
  }

  /** The paper is what was shown and answered: in order, each present question with its own difficulty; an
      essay as it was saved; and a picked position right exactly when the text shown there is the keyed
      option's. */
  lemma PaperIsFaithful(d: Desk, id: SessionId, i: nat, q: QuestionId)
    requires Inv(d) && Submittable(d, id)
    requires var present := Present(d.questions, d.sessions[id].order, d.sessions[id].qset);
             q in present && i < |present| && present[i] == q
    ensures var present := Present(d.questions, d.sessions[id].order, d.sessions[id].qset);
            var question := d.questions[q];
            var answer := d.answers[(id, q)];
            var answered := Paper(d, id)[i];
            && |Paper(d, id)| == |present|
            && question.qset == d.sessions[id].qset && answered.difficulty == question.difficulty
            && (question.body.Essay? <==> answered.Written?)
            && (answered.Written? ==> answered.essay == answer.essay)
            && (answered.Picked? && answer.chosen == None ==> !G.Right(answered))
            && (answered.Picked? && answer.chosen.Some? ==>
                  var perm := PermOf(d.sessions[id], q);
                  && IsPerm(perm, 4) && |question.body.options| == 4 && 0 <= answer.chosen.value < 4
                  && (G.Right(answered) <==>
                      Shown(question.body.options, perm)[answer.chosen.value]
                      == question.body.options[question.body.correct]))
  {
    var ses := d.sessions[id];
    PresentMembers(d.questions, ses.order, ses.qset, q);
    assert PermsFit(d.questions, ses) && WellShaped(d.questions[q]);
    if d.questions[q].body.Mcq? {
      var p := ExactlyOneRight(d.questions[q], ses.perms[q]);
    }
  }
}
