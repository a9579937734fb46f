/** Quiz sessions from start to receipt (app/routers/quizzes.py). */
module Quizzes {
  import opened Base
  import opened Rules
  import G = Grading
  import L = Ledger

  type SetId = int
  type QuestionId = int
  type SessionId = nat
  type Perm = seq<int>

  datatype Body = Mcq(options: seq<string>, correct: int) | Essay

  datatype Question = Question(qset: SetId, difficulty: G.Difficulty, body: Body)

  datatype Status = Open | Submitted

  /** A session row; its id is its position in the table. */
  datatype Session = Session(
    subject: SubjectId, qset: SetId, order: seq<QuestionId>, perms: map<QuestionId, Perm>, terms: G.Terms,
    replay: bool, status: Status, correctCount: int, rewardSeconds: int)

  /** A saved answer. The essay is what the marker will make of the text. */
  datatype Answer = Answer(chosen: Option<int>, essay: G.EssayAnswer)

  /** `marks` are the columns of an answer row that submitting fills in; `credits` are the earned entries of
      the time ledger. */
  datatype Desk = Desk(
    questions: map<QuestionId, Question>, sessions: seq<Session>, answers: map<(SessionId, QuestionId), Answer>,
    marks: map<(SessionId, QuestionId), G.StoredMark>, credits: seq<L.Entry>)

  const EMPTY := Desk(map[], [], map[], map[], [])

  datatype MaterialStatus = Uploaded | Validating | Generating | Ready | Rejected | Failed

  datatype Material = Material(owner: SubjectId, deleted: bool, status: MaterialStatus, assessed: Option<string>)

  /** The newest question set of a material. */
  datatype SetRow = SetRow(id: SetId, readyCount: nat)

  // ---------------------------------------------------------------- pure rules

  function NoveltyFactor(timesSeen: int): real {
    if timesSeen <= 0 then 1.0 else if timesSeen == 1 then 0.6 else 0.3
  }

  /** What a player sees of a multiple-choice question. */
  function Shown(options: seq<string>, perm: Perm): seq<string>
    requires forall i :: 0 <= i < |perm| ==> 0 <= perm[i] < |options|
  {
    seq(|perm|, i requires 0 <= i < |perm| => options[perm[i]])
  }

  ghost predicate IsPerm(perm: Perm, n: nat) {
    && |perm| == n
    && (forall i :: 0 <= i < n ==> 0 <= perm[i] < n)
    && Distinct(perm)
  }

  predicate Decodable(perm: Perm, picked: Option<int>) {
    picked.Some? && perm != [] ==> 0 <= picked.value < |perm|
  }

  /** The stored index behind a picked position. */
  function Decode(perm: Perm, picked: Option<int>): Option<int>
    requires Decodable(perm, picked)
  {
    if picked.Some? && perm != [] then Some(perm[picked.value]) else picked
  }

  function PermOf(ses: Session, q: QuestionId): Perm {
    if q in ses.perms then ses.perms[q] else []
  }

  /** Why a quiz on the material cannot start, if it cannot. */
  function Obstacle(s: SubjectId, material: Option<Material>, newest: Option<SetRow>): Option<string> {
    if material == None || material.value.owner != s || material.value.deleted then Some("not_found")
    else if material.value.status == Rejected then Some("material_rejected")
    else if material.value.status != Generating && material.value.status != Ready then Some("not_ready")
    else if newest == None || newest.value.readyCount == 0 then Some("not_ready")
    else None
  }

  /** A material that was not assessed counts as being of the level the policy declares. */
  function LevelOf(material: Material, declared: string): real {
    LevelFactor(declared, if material.assessed.Some? then material.assessed.value else declared)
  }

  // ---------------------------------------------------------------- reading the tables

  predicate InSet(questions: map<QuestionId, Question>, q: QuestionId, s: SetId) {
    q in questions && questions[q].qset == s
  }

  predicate NeedsPerm(questions: map<QuestionId, Question>, q: QuestionId) {
    q in questions && questions[q].body.Mcq? && questions[q].body.options != []
  }

  predicate IsOpen(ses: Session, s: SubjectId, qset: SetId) {
    ses.subject == s && ses.qset == qset && ses.status == Open
  }

  /** The most recently started open session of the subject on the set. */
  function FindOpen(sessions: seq<Session>, s: SubjectId, qset: SetId): Option<SessionId> {
    if sessions == [] then None
    else if IsOpen(sessions[|sessions| - 1], s, qset) then Some(|sessions| - 1)
    else FindOpen(sessions[..|sessions| - 1], s, qset)
  }

  function SubmittedTimes(sessions: seq<Session>, s: SubjectId, qset: SetId): nat {
    if sessions == [] then 0
    else
      var last := sessions[|sessions| - 1];
      SubmittedTimes(sessions[..|sessions| - 1], s, qset)
      + (if last.subject == s && last.qset == qset && last.status == Submitted then 1 else 0)
  }

  /** The rows of a set, once each, in whatever order the query returns them. */
  ghost predicate RowsOf(questions: map<QuestionId, Question>, rows: seq<QuestionId>, qset: SetId) {
    Distinct(rows) && forall q :: q in rows <==> InSet(questions, q, qset)
  }

  /** Randomness enters as draws: one permutation for every question that needs one. */
  ghost predicate Draws(questions: map<QuestionId, Question>, rows: seq<QuestionId>, draws: map<QuestionId, Perm>) {
    forall q :: q in rows && NeedsPerm(questions, q) ==> q in draws && IsPerm(draws[q], |questions[q].body.options|)
  }

  // ---------------------------------------------------------------- writing, as functions on tables

  function ExtendedOrder(order: seq<QuestionId>, rows: seq<QuestionId>): seq<QuestionId> {
    if rows == [] then order
    else
      var init := ExtendedOrder(order, rows[..|rows| - 1]);
      if rows[|rows| - 1] in init then init else init + [rows[|rows| - 1]]
  }

  function ExtendedPerms(order: seq<QuestionId>, perms: map<QuestionId, Perm>, questions: map<QuestionId, Question>,
                         rows: seq<QuestionId>, draws: map<QuestionId, Perm>): map<QuestionId, Perm> {
    if rows == [] then perms
    else
      var init := ExtendedPerms(order, perms, questions, rows[..|rows| - 1], draws);
      var q := rows[|rows| - 1];
      if q !in order && NeedsPerm(questions, q) && q in draws then init[q := draws[q]] else init
  }

  function Refreshed(ses: Session, questions: map<QuestionId, Question>, rows: seq<QuestionId>,
          draws: map<QuestionId, Perm>): Session {
    ses.(order := ExtendedOrder(ses.order, rows), perms := ExtendedPerms(ses.order, ses.perms, questions, rows, draws))
  }

  function AfterGet(d: Desk, id: SessionId, rows: seq<QuestionId>, draws: map<QuestionId, Perm>): Desk {
    if id < |d.sessions|
    then d.(sessions := d.sessions[id := Refreshed(d.sessions[id], d.questions, rows, draws)]) else d
  }

  function NewSession(d: Desk, s: SubjectId, qset: SetId, base: int, level: real, order: seq<QuestionId>,
          draws: map<QuestionId, Perm>): Session {
    var times := SubmittedTimes(d.sessions, s, qset);
    Session(s, qset, order, map q | q in order && NeedsPerm(d.questions, q) && q in draws :: draws[q],
            G.Terms(base, level, NoveltyFactor(times)), times > 0, Open, 0, 0)
  }

  function AfterStart(d: Desk, s: SubjectId, qset: SetId, base: int, level: real, order: seq<QuestionId>,
          draws: map<QuestionId, Perm>): Desk {
    var open := FindOpen(d.sessions, s, qset);
    if open.Some? then AfterGet(d, open.value, order, draws)
    else if level == 0.0 then d
    else d.(sessions := d.sessions + [NewSession(d, s, qset, base, level, order, draws)])
  }

  predicate Answerable(d: Desk, id: SessionId, q: QuestionId, a: Answer) {
    && id < |d.sessions| && d.sessions[id].status == Open
    && InSet(d.questions, q, d.sessions[id].qset)
    && (d.questions[q].body.Mcq? ==> a.chosen.Some?)
    && (d.questions[q].body.Essay? ==> !a.essay.blank)
  }

  /** The questions of the order that still exist, in order. */
  function Present(questions: map<QuestionId, Question>, order: seq<QuestionId>, qset: SetId): seq<QuestionId> {
    if order == [] then []
    else
      var init := Present(questions, order[..|order| - 1], qset);
      if InSet(questions, order[|order| - 1], qset) then init + [order[|order| - 1]] else init
  }

  predicate Gradable(d: Desk, id: SessionId, q: QuestionId)
    requires id < |d.sessions|
  {
    && q in d.questions
    && (id, q) in d.answers
    && (d.questions[q].body.Mcq? ==> Decodable(PermOf(d.sessions[id], q), d.answers[(id, q)].chosen))
  }

  function AnsweredBy(d: Desk, id: SessionId, q: QuestionId): G.Answered
    requires id < |d.sessions| && Gradable(d, id, q)
  {
    var row := d.questions[q];
    var a := d.answers[(id, q)];
    match row.body
    case Mcq(_, correct) => G.Picked(row.difficulty, Decode(PermOf(d.sessions[id], q), a.chosen), correct)
    case Essay => G.Written(row.difficulty, a.essay)
  }

  predicate Submittable(d: Desk, id: SessionId) {
    && id < |d.sessions| && d.sessions[id].status == Open
    && forall q :: q in Present(d.questions, d.sessions[id].order, d.sessions[id].qset) ==> Gradable(d, id, q)
  }

  function Paper(d: Desk, id: SessionId): seq<G.Answered>
    requires Submittable(d, id)
  {
    var present := Present(d.questions, d.sessions[id].order, d.sessions[id].qset);
    seq(|present|, i requires 0 <= i < |present| => assert present[i] in present; AnsweredBy(d, id, present[i]))
  }

  /** The marks of some questions of a session. */
  function MarksFor(d: Desk, id: SessionId, present: seq<QuestionId>): map<(SessionId, QuestionId), G.StoredMark>
    requires id < |d.sessions| && forall q :: q in present ==> Gradable(d, id, q)
  {
    if present == [] then map[]
    else
      var last := present[|present| - 1];
      assert last in present;
      var mark := G.StoredMarkOf(d.sessions[id].terms, AnsweredBy(d, id, last));
      MarksFor(d, id, present[..|present| - 1])[(id, last) := mark]
  }

  function AfterSubmit(d: Desk, id: SessionId, at: Moment): Desk
    requires Submittable(d, id)
  {
    var ses := d.sessions[id];
    var paper := Paper(d, id);
    var credited := Truncate(G.RewardSum(ses.terms, paper));
    var correct := G.Counted(ses.terms, paper).correct;
    var closed := ses.(status := Submitted, correctCount := correct, rewardSeconds := credited);
    d.(sessions := d.sessions[id := closed],
       marks := d.marks + MarksFor(d, id, Present(d.questions, ses.order, ses.qset)),
       credits := L.Rewarded(L.Db(d.credits, map[]), credited, id, at).log)
  }

  /** The most a session may earn, as its reply announces it. */
  function Announced(ses: Session, essayRatio: real): int {
    Truncate(G.MaxPossibleReward(ses.terms, |ses.order|, essayRatio))
  }

  /** The part of a quiz reply that later requests depend on. */
  datatype QuizReply = QuizReply(id: SessionId, session: Session, maxReward: int)

  // ---------------------------------------------------------------- requests, as they run

  /** The first n questions are marked. */
  ghost predicate MarkedUpTo(d: Desk, id: SessionId, present: seq<QuestionId>, n: nat, paper: seq<G.Answered>,
                             marks: map<(SessionId, QuestionId), G.StoredMark>)
    requires id < |d.sessions|
  {
    && |paper| == n <= |present|
    && (forall q :: q in present[..n] ==> Gradable(d, id, q))
    && (forall i :: 0 <= i < n ==> present[i] in present[..n] && paper[i] == AnsweredBy(d, id, present[i]))
    && marks == d.marks + MarksFor(d, id, present[..n])
  }

  lemma MarkOneMore(d: Desk, id: SessionId, present: seq<QuestionId>, n: nat, paper: seq<G.Answered>,
                    marks: map<(SessionId, QuestionId), G.StoredMark>)
    requires id < |d.sessions| && MarkedUpTo(d, id, present, n, paper, marks)
    requires n < |present| && Gradable(d, id, present[n])
    ensures var answered := AnsweredBy(d, id, present[n]);
            MarkedUpTo(d, id, present, n + 1, paper + [answered],
                       marks[(id, present[n]) := G.StoredMarkOf(d.sessions[id].terms, answered)])
  {
    var more := present[..n + 1];
    assert more[..n] == present[..n] && more[n] == present[n];
    forall q | q in more ensures Gradable(d, id, q) {
      assert more == present[..n] + [present[n]];
    }
    forall i | 0 <= i < n + 1 ensures present[i] in more {
      assert more[i] == present[i];
    }
  }

  lemma {:induction false} ExtendedMembers(order: seq<QuestionId>, rows: seq<QuestionId>, q: QuestionId)
    ensures q in ExtendedOrder(order, rows) <==> q in order || q in rows
    ensures order <= ExtendedOrder(order, rows)
    ensures |ExtendedOrder(order, rows)| == |order| && q in rows ==> q in order
    decreases |rows|
  {
    if rows == [] {
    } else {
      ExtendedMembers(order, rows[..|rows| - 1], q);
      assert rows == rows[..|rows| - 1] + [rows[|rows| - 1]];
    }
  }

  /** One pass of the loop: a row not yet in the order is appended, with its draw if it needs one. */
  lemma OneMoreRow(ses: Session, questions: map<QuestionId, Question>, rows: seq<QuestionId>, n: nat,
          draws: map<QuestionId, Perm>)
    requires n < |rows| && Distinct(rows) && Draws(questions, rows, draws)
    ensures var q := rows[n];
            var order := ExtendedOrder(ses.order, rows[..n]);
            var perms := ExtendedPerms(ses.order, ses.perms, questions, rows[..n], draws);
            && (q in order <==> q in ses.order)
            && (NeedsPerm(questions, q) ==> q in draws)
            && ExtendedOrder(ses.order, rows[..n + 1]) == (if q in order then order else order + [q])
            && ExtendedPerms(ses.order, ses.perms, questions, rows[..n + 1], draws)
               == if q !in ses.order && NeedsPerm(questions, q) then perms[q := draws[q]] else perms
  {
    assert rows[..n + 1][..n] == rows[..n];
    assert rows[n] in rows;
    assert rows[n] !in rows[..n];
    ExtendedMembers(ses.order, rows[..n], rows[n]);
  }

  lemma {:induction false} NoDraws(order: seq<QuestionId>, perms: map<QuestionId, Perm>,
          questions: map<QuestionId, Question>, rows: seq<QuestionId>, draws: map<QuestionId, Perm>)
    requires forall q :: q in rows ==> q in order
    ensures ExtendedPerms(order, perms, questions, rows, draws) == perms
    decreases |rows|
  {
    if rows == [] {
    } else {
      NoDraws(order, perms, questions, rows[..|rows| - 1], draws);
    }
  }

  lemma NothingNew(ses: Session, questions: map<QuestionId, Question>, rows: seq<QuestionId>,
          draws: map<QuestionId, Perm>)
    requires |ExtendedOrder(ses.order, rows)| == |ses.order|
    ensures Refreshed(ses, questions, rows, draws) == ses
  {
    ExtendedMembers(ses.order, rows, 0);
    forall q | q in rows ensures q in ses.order {
      ExtendedMembers(ses.order, rows, q);
    }
    NoDraws(ses.order, ses.perms, questions, rows, draws);
  }

  lemma {:induction false} FindOpenFinds(sessions: seq<Session>, s: SubjectId, qset: SetId)
    ensures var open := FindOpen(sessions, s, qset);
            && (open.Some? ==> open.value < |sessions| && IsOpen(sessions[open.value], s, qset))
            && (open == None ==> forall i :: 0 <= i < |sessions| ==> !IsOpen(sessions[i], s, qset))
    decreases |sessions|
  {
    if sessions == [] {
    } else {
      FindOpenFinds(sessions[..|sessions| - 1], s, qset);
      assert forall i :: 0 <= i < |sessions| - 1 ==> sessions[i] == sessions[..|sessions| - 1][i];
    }
  }

  class QuizStore {
    var questions: map<QuestionId, Question>
    var sessions: seq<Session>
    var answers: map<(SessionId, QuestionId), Answer>
    var marks: map<(SessionId, QuestionId), G.StoredMark>
    var credits: seq<L.Entry>

    ghost function Tables(): Desk
      reads this
    {
      Desk(questions, sessions, answers, marks, credits)
    }

    constructor ()
      ensures Tables() == EMPTY
    {
      questions, sessions, answers, marks, credits := map[], [], map[], map[], [];
    }

    /** Opening a session again appends the questions it has not seen yet. The ceiling it announces makes no
        room for essays, whatever the policy's ratio is. */
    method GetQuiz(id: SessionId, rows: seq<QuestionId>, draws: map<QuestionId, Perm>) returns (r: Outcome<QuizReply>)
      requires id < |sessions| ==> RowsOf(questions, rows, sessions[id].qset) && Draws(questions, rows, draws)
      modifies `sessions
      ensures r.Done? <==> id < |old(sessions)|
      ensures Tables() == AfterGet(old(Tables()), id, rows, draws)
      ensures r.Done? ==> r.value == QuizReply(id, sessions[id], Announced(sessions[id], 0.0))
    {
      if id >= |sessions| {
        return Refused("not_found");
      }
      var ses := sessions[id];
      var order := ses.order;
      var perms := ses.perms;
      var n := 0;
      while n < |rows|
        invariant 0 <= n <= |rows| && sessions == old(sessions)
        invariant order == ExtendedOrder(ses.order, rows[..n])
        invariant perms == ExtendedPerms(ses.order, ses.perms, questions, rows[..n], draws)
      {
        var q := rows[n];
        OneMoreRow(ses, questions, rows, n, draws);
        if q !in order {
          order := order + [q];
          if NeedsPerm(questions, q) {
            perms := perms[q := draws[q]];
          }
        }
        n := n + 1;
      }
      assert rows[..n] == rows;
      if |order| != |ses.order| {
        sessions := sessions[id := ses.(order := order, perms := perms)];
      } else {
        NothingNew(ses, questions, rows, draws);
      }
      return Done(QuizReply(id, sessions[id], Announced(sessions[id], 0.0)));
    }

    /** Reopens the open session on the newest set, or creates one with the discount of its rank. */
    method StartQuiz(isProxy: bool, s: SubjectId, material: Option<Material>, newest: Option<SetRow>, declared: string,
                     base: int, essayRatio: real, order: seq<QuestionId>, draws: map<QuestionId, Perm>)
      returns (r: Outcome<QuizReply>)
      requires newest.Some? ==> RowsOf(questions, order, newest.value.id) && Draws(questions, order, draws)
      modifies `sessions
      ensures r.Done? <==>
              && !isProxy && Obstacle(s, material, newest) == None
              && (FindOpen(old(sessions), s, newest.value.id).Some? || LevelOf(material.value, declared) == 1.0)
      ensures Tables() == if isProxy || Obstacle(s, material, newest).Some? then old(Tables())
                          else AfterStart(old(Tables()), s, newest.value.id, base, LevelOf(material.value, declared),
                                          order, draws)
      ensures r.Done? ==>
                && r.value.id < |sessions| && r.value.session == sessions[r.value.id]
                && r.value.session.subject == s && r.value.session.qset == newest.value.id
                && r.value.session.status == Open
                && r.value.maxReward
                   == Announced(r.value.session, if r.value.id < |old(sessions)| then 0.0 else essayRatio)
    {
      if isProxy {
        return Refused("forbidden");
      }
      var obstacle := Obstacle(s, material, newest);
      if obstacle.Some? {
        return Refused(obstacle.value);
      }
      var qset := newest.value.id;
      var open := FindOpen(sessions, s, qset);
      if open.Some? {
        FindOpenFinds(sessions, s, qset);
        r := GetQuiz(open.value, order, draws);
        return;
      }
      var perms := map q | q in order && NeedsPerm(questions, q) && q in draws :: draws[q];
      var times := SubmittedTimes(sessions, s, qset);
      var novelty := NoveltyFactor(times);
      var level := LevelOf(material.value, declared);
      if level == 0.0 {
        return Refused("level_too_low");
      }
      var ses := Session(s, qset, order, perms, G.Terms(base, level, novelty), times > 0, Open, 0, 0);
      sessions := sessions + [ses];
      return Done(QuizReply(|sessions| - 1, ses, Announced(ses, essayRatio)));
    }

    method SaveAnswer(id: SessionId, q: QuestionId, a: Answer) returns (r: Outcome<()>)
      modifies `answers
      ensures r.Done? <==> Answerable(old(Tables()), id, q, a)
      ensures answers == if r.Done? then old(answers)[(id, q) := a] else old(answers)
    {
      if id >= |sessions| {
        return Refused("not_found");
      }
      if sessions[id].status != Open {
        return Refused("session_closed");
      }
      if q !in questions || questions[q].qset != sessions[id].qset {
        return Refused("not_found");
      }
      if questions[q].body.Mcq? && a.chosen == None {
        return Refused("invalid");
      }
      if questions[q].body.Essay? && a.essay.blank {
        return Refused("invalid");
      }
      answers := answers[(id, q) := a];
      return Done(());
    }

    /** The marking loop: every present question is decoded, marked, and its mark stored with the answer. An
        answer that cannot be decoded stops it. */
    method MarkPaper(id: SessionId, present: seq<QuestionId>) returns (done: bool, paper: seq<G.Answered>)
      requires id < |sessions|
      modifies `marks
      ensures done <==> forall q :: q in present ==> Gradable(old(Tables()), id, q)
      ensures done ==> marks == old(marks) + MarksFor(old(Tables()), id, present)
      ensures done ==> |paper| == |present|
      ensures done ==> forall i :: 0 <= i < |paper| ==>
                present[i] in present && paper[i] == AnsweredBy(old(Tables()), id, present[i])
    {
      var d := Desk(questions, sessions, answers, marks, credits);
      paper := [];
      var n := 0;
      assert present[..0] == [];
      while n < |present|
        invariant MarkedUpTo(d, id, present, n, paper, marks)
      {
        if !Gradable(d, id, present[n]) {
          assert present[n] in present;
          return false, [];
        }
        MarkOneMore(d, id, present, n, paper, marks);
        var answered := AnsweredBy(d, id, present[n]);
        paper := paper + [answered];
        marks := marks[(id, present[n]) := G.StoredMarkOf(d.sessions[id].terms, answered)];
        n := n + 1;
      }
      assert present[..n] == present;
      done := true;
    }

    /** Marks the paper, credits the whole seconds, and closes the session; any refusal leaves it open and
        takes back the marks. */
    method Submit(isProxy: bool, withinLimit: bool, id: SessionId, at: Moment) returns (r: Outcome<G.Receipt>)
      requires id < |sessions| ==> G.Scaled(sessions[id].terms)
      modifies `sessions, `marks, `credits
      ensures r.Done? <==> !isProxy && withinLimit && Submittable(old(Tables()), id)
      ensures Tables() == if r.Done? then AfterSubmit(old(Tables()), id, at) else old(Tables())
      ensures r.Done? ==> r.value.gross == G.RewardSum(old(sessions)[id].terms, Paper(old(Tables()), id))
      ensures r.Done? ==> r.value.credited == sessions[id].rewardSeconds
      ensures r.Done? ==> r.value.score == G.Counted(old(sessions)[id].terms, Paper(old(Tables()), id))
      ensures r.Done? ==> r.value.score.correct == sessions[id].correctCount
      ensures r.Done? ==> r.value.rows == |Paper(old(Tables()), id)|
    {
      if id >= |sessions| {
        return Refused("not_found");
      }
      if isProxy {
        return Refused("forbidden");
      }
      if !withinLimit {
        return Refused("rate_limited");
      }
      var ses := sessions[id];
      if ses.status != Open {
        return Refused("session_closed");
      }
      var present := Present(questions, ses.order, ses.qset);
      if exists q :: q in present && (id, q) !in answers {
        return Refused("incomplete_session");
      }
      var saved := marks;
      var marked, paper := MarkPaper(id, present);
      if !marked {
        marks := saved;
        return Refused("internal_error");
      }
      assert paper == Paper(old(Tables()), id);
      var receipt := G.Tally(ses.terms, paper);
      G.SumNonnegative(ses.terms, paper);
      credits := L.Rewarded(L.Db(credits, map[]), receipt.credited, id, at).log;
      var closed := ses.(status := Submitted, correctCount := receipt.score.correct, rewardSeconds := receipt.credited);
      sessions := sessions[id := closed];
      return Done(receipt);
    }
  }

  lemma {:induction false} MarksForMembers(d: Desk, id: SessionId, present: seq<QuestionId>,
                                           key: (SessionId, QuestionId))
    requires id < |d.sessions| && forall q :: q in present ==> Gradable(d, id, q)
    ensures key in MarksFor(d, id, present) <==> key.0 == id && key.1 in present
    ensures key in MarksFor(d, id, present) ==>
              MarksFor(d, id, present)[key] == G.StoredMarkOf(d.sessions[id].terms, AnsweredBy(d, id, key.1))
    decreases |present|
  {
    if present == [] {
    } else {
      var n := |present| - 1;
      MarksForMembers(d, id, present[..n], key);
      assert present == present[..n] + [present[n]];
    }
  }

  lemma {:induction false} ExtendedPermsMembers(order: seq<QuestionId>, perms: map<QuestionId, Perm>,
          questions: map<QuestionId, Question>, rows: seq<QuestionId>, draws: map<QuestionId, Perm>, q: QuestionId)
    ensures var after := ExtendedPerms(order, perms, questions, rows, draws);
            var drawn := q in rows && q !in order && NeedsPerm(questions, q) && q in draws;
            && (q in after <==> q in perms || drawn)
            && (q in after ==> after[q] == if drawn then draws[q] else perms[q])
    decreases |rows|
  {
    if rows == [] {
    } else {
      ExtendedPermsMembers(order, perms, questions, rows[..|rows| - 1], draws, q);
      assert rows == rows[..|rows| - 1] + [rows[|rows| - 1]];
    }
  }
}
