/** Marking answers and adding up a receipt, in exact arithmetic (app/services/grading.py, the reward
    rules of app/services/rules.py, and the two loops of `submit` in app/routers/quizzes.py). */
module Grading {
  import opened Base

  datatype Difficulty = Mudah | Sedang | Sulit

  const ESSAY_PASS_SCORE := 60.0
  const MIN_ESSAY_WORDS := 8
  const MCQ_FACTOR := 1.0
  const ESSAY_FACTOR := 1.8

  function DifficultyFactor(d: Difficulty): real {
    match d
    case Mudah => 0.6
    case Sedang => 1.0
    case Sulit => 1.6
  }

  // ---------------------------------------------------------------- marking

  /** What the essay marker sees of an answer: is it blank, does it try to steer the marker, how many
      words it has, and the total a model would give it. The last is an arbitrary input. */
  datatype EssayAnswer = EssayAnswer(blank: bool, steers: bool, words: nat, total: real)

  datatype EssayResult = EssayResult(score: real, passed: bool, flagged: bool)

  function Clamp(x: real, lo: real, hi: real): real {
    if x < lo then lo else if x > hi then hi else x
  }

  function GradeEssay(a: EssayAnswer): EssayResult {
    if a.blank then EssayResult(0.0, false, false)
    else if a.steers then EssayResult(0.0, false, true)
    else if a.words < MIN_ESSAY_WORDS then EssayResult(0.0, false, false)
    else
      var score := Clamp(a.total, 0.0, 100.0);
      EssayResult(score, score >= ESSAY_PASS_SCORE, false)
  }

  function RewardableScore(r: EssayResult): Option<real> {
    if r.flagged then None else Some(r.score)
  }

  predicate GradeMcq(chosen: Option<int>, correct: int) {
    chosen == Some(correct)
  }

  function EssayScoreFactor(score: Option<real>): real {
    if score == None || score.value < ESSAY_PASS_SCORE then 0.0 else Clamp(score.value / 100.0, 0.0, 1.0)
  }

  /** One answer as the marking loop meets it: the option picked, decoded to the stored order, or an essay. */
  datatype Answered =
    | Picked(difficulty: Difficulty, chosen: Option<int>, correct: int)
    | Written(difficulty: Difficulty, essay: EssayAnswer)

  datatype Mark = Mark(essay: bool, difficulty: Difficulty, isCorrect: bool, flagged: bool, reward: real)

  /** The terms of a session that scale every reward in it. */
  datatype Terms = Terms(base: int, level: real, novelty: real)

  function QuestionReward(t: Terms, d: Difficulty, typeFactor: real, scoreFactor: real): real {
    t.base as real * DifficultyFactor(d) * typeFactor * t.level * t.novelty * scoreFactor
  }

  function MarkOf(t: Terms, a: Answered): Mark {
    match a
    case Picked(d, chosen, correct) =>
      var ok := GradeMcq(chosen, correct);
      Mark(false, d, ok, false, QuestionReward(t, d, MCQ_FACTOR, if ok then 1.0 else 0.0))
    case Written(d, essay) =>
      var r := GradeEssay(essay);
      Mark(true, d, r.passed, r.flagged, QuestionReward(t, d, ESSAY_FACTOR, EssayScoreFactor(RewardableScore(r))))
  }

  lemma Proportion(unit: real, share: real, score: real)
    ensures unit * (share * (score / 100.0)) * 100.0 == unit * (share * 1.0) * score
  {
    assert share * (score / 100.0) * 100.0 == share * score;
  }

  /** The part of a reward all questions of a session share. */
  function Unit(t: Terms): real {
    t.base as real * t.level * t.novelty
  }

  lemma Regroup(b: real, x: real, level: real, novelty: real, s: real)
    ensures b * x * level * novelty * s == b * level * novelty * (x * s)
  {
    assert b * x * level == b * level * x;
    assert b * level * x * novelty == b * level * novelty * x;
  }

  lemma RewardIsUnits(t: Terms, d: Difficulty, typeFactor: real, scoreFactor: real)
    ensures QuestionReward(t, d, typeFactor, scoreFactor) == Unit(t) * (DifficultyFactor(d) * typeFactor * scoreFactor)
  {
    Regroup(t.base as real, DifficultyFactor(d) * typeFactor, t.level, t.novelty, scoreFactor);
    assert t.base as real * DifficultyFactor(d) * typeFactor == t.base as real * (DifficultyFactor(d) * typeFactor);
  }

  /** Blank, steering or too short: the marker never asks for a verdict. */
  predicate TurnedAway(a: EssayAnswer) {
    a.blank || a.steers || a.words < 8
  }

  /** When an essay passes, when it is flagged, and what it scores, in terms of the answer alone. */
  lemma EssayVerdict(a: EssayAnswer)
    ensures GradeEssay(a).passed <==> !TurnedAway(a) && a.total >= 60.0
    ensures GradeEssay(a).flagged <==> !a.blank && a.steers
    ensures TurnedAway(a) ==> GradeEssay(a).score == 0.0
    ensures !TurnedAway(a) && 0.0 <= a.total <= 100.0 ==> GradeEssay(a).score == a.total
    ensures 0.0 <= GradeEssay(a).score <= 100.0
  {
  }

  /** An essay that tries to steer the marker is flagged and worth nothing, whatever the model would have said. */
  lemma SteeringNeverPays(t: Terms, d: Difficulty, a: EssayAnswer)
    requires TurnedAway(a)
    ensures var m := MarkOf(t, Written(d, a));
            !m.isCorrect && m.reward == 0.0 && (m.flagged <==> !a.blank && a.steers)
  {
    RewardIsUnits(t, d, ESSAY_FACTOR, 0.0);
  }

  /** A passed essay earns its score's share of what a flawless one would. */
  lemma EssayPaysByScore(t: Terms, d: Difficulty, a: EssayAnswer)
    requires GradeEssay(a).passed
    ensures ESSAY_PASS_SCORE <= GradeEssay(a).score <= 100.0
    ensures MarkOf(t, Written(d, a)).reward * 100.0
            == MarkOf(t, Written(d, a.(total := 100.0))).reward * GradeEssay(a).score
  {
    RewardIsUnits(t, d, ESSAY_FACTOR, GradeEssay(a).score / 100.0);
    RewardIsUnits(t, d, ESSAY_FACTOR, 1.0);
    Proportion(Unit(t), DifficultyFactor(d) * ESSAY_FACTOR, GradeEssay(a).score);
  }

  // ---------------------------------------------------------------- the receipt

  datatype Score = Score(correct: nat, hard: nat, essays: nat)

  datatype Receipt = Receipt(rows: nat, subtotal: real, gross: real, credited: int, score: Score)

  function RewardSum(t: Terms, answers: seq<Answered>): real {
    if answers == [] then 0.0
    else RewardSum(t, answers[..|answers| - 1]) + MarkOf(t, answers[|answers| - 1]).reward
  }

  /** Marked correct by the marker, independently of any reward. */
  predicate Right(a: Answered) {
    match a
    case Picked(_, chosen, correct) => GradeMcq(chosen, correct)
    case Written(_, essay) => GradeEssay(essay).passed
  }

  /** How many answers are right, how many of those are hard, and how many are essays. */
  function ScoreOf(answers: seq<Answered>): Score {
    if answers == [] then Score(0, 0, 0)
    else
      var s := ScoreOf(answers[..|answers| - 1]);
      var a := answers[|answers| - 1];
      if !Right(a) then s
      else
        Score(s.correct + 1, s.hard + (if a.difficulty == Sulit then 1 else 0),
              s.essays + (if a.Written? then 1 else 0))
  }

  /** The terms of every session that can be started. */
  predicate Payable(t: Terms) {
    t.base > 0 && t.level > 0.0 && t.novelty > 0.0
  }

  /** What the columns of a session row can hold. */
  predicate Scaled(t: Terms) {
    t.base >= 0 && t.level >= 0.0 && t.novelty >= 0.0
  }

  lemma UnitPositive(t: Terms)
    requires Payable(t)
    ensures Unit(t) > 0.0
  {
    assert t.base as real * t.level > 0.0;
  }

  /** A positive unit times a share that is at most `top`, times a score between 0 and 1. */
  lemma ShareBounds(unit: real, share: real, top: real, score: real)
    requires unit > 0.0 && 0.0 < share <= top && 0.0 <= score <= 1.0
    ensures 0.0 <= unit * (share * score) <= unit * top
    ensures unit * (share * score) > 0.0 <==> score > 0.0
  {
    assert 0.0 <= share * score <= share;
  }

  lemma EssayScore(essay: EssayAnswer)
    ensures var s := EssayScoreFactor(RewardableScore(GradeEssay(essay)));
            && 0.0 <= s <= 1.0
            && (s > 0.0 <==> GradeEssay(essay).passed)
            && (GradeEssay(essay).flagged ==> s == 0.0)
  {
  }

  lemma RewardInUnits(t: Terms, d: Difficulty, typeFactor: real, top: real, score: real)
    requires Unit(t) > 0.0 && 0.0 <= score <= 1.0 && 1.0 <= typeFactor && 1.6 * typeFactor <= top
    ensures 0.0 <= QuestionReward(t, d, typeFactor, score) <= Unit(t) * top
    ensures QuestionReward(t, d, typeFactor, score) > 0.0 <==> score > 0.0
  {
    RewardIsUnits(t, d, typeFactor, score);
    var share := DifficultyFactor(d) * typeFactor;
    assert 0.0 < share <= top by {
      match d {
        case Mudah => assert share == 0.6 * typeFactor;
        case Sedang => assert share == typeFactor;
        case Sulit => assert share == 1.6 * typeFactor;
      }
    }
    ShareBounds(Unit(t), share, top, score);
  }

  /** What a flawless hard question of its type is worth, in units. */
  function Share(a: Answered): real {
    if a.Written? then 2.88 else 1.6
  }

  /** An answer earns something exactly when the marker calls it right - the pass threshold of the marker
      and the reward threshold agree - and never more than its type's share of a hard question. */
  lemma MarkPays(t: Terms, a: Answered)
    requires Payable(t)
    ensures var m := MarkOf(t, a);
            && m.isCorrect == Right(a)
            && (m.reward > 0.0 <==> Right(a))
            && (m.flagged ==> m.reward == 0.0)
            && 0.0 <= m.reward <= Unit(t) * Share(a)
  {
    UnitPositive(t);
    match a
    case Picked(d, chosen, correct) =>
      RewardInUnits(t, d, MCQ_FACTOR, 1.6, if GradeMcq(chosen, correct) then 1.0 else 0.0);
    case Written(d, essay) =>
      EssayScore(essay);
      RewardInUnits(t, d, ESSAY_FACTOR, 2.88, EssayScoreFactor(RewardableScore(GradeEssay(essay))));
  }

  lemma Redistribute(k: real, subtotal: real, earned: real, sum: real)
    requires k != 0.0 && subtotal * k == sum
    ensures (subtotal + earned / k) * k == sum + earned
  {
    assert earned / k * k == earned;
  }

  lemma Reassociate(x: real, level: real, novelty: real)
    ensures x * level * novelty == x * (level * novelty)
  {
  }

  /** Marks as the marker hands them out: nothing flagged pays. */
  predicate Sound(m: Mark) {
    m.reward >= 0.0 && (m.flagged ==> m.reward == 0.0)
  }

  function MarkSum(marks: seq<Mark>): real {
    if marks == [] then 0.0 else MarkSum(marks[..|marks| - 1]) + marks[|marks| - 1].reward
  }

  /** The receipt counts the marks that pay. */
  function ScoreOfMarks(marks: seq<Mark>): Score {
    if marks == [] then Score(0, 0, 0)
    else
      var s := ScoreOfMarks(marks[..|marks| - 1]);
      var m := marks[|marks| - 1];
      if m.reward <= 0.0 then s
      else
        Score(s.correct + 1, s.hard + (if m.difficulty == Sulit then 1 else 0), s.essays + (if m.essay then 1 else 0))
  }

  /** The score of a receipt: the answers marked right, or nothing in a session that pays nothing. */
  function Counted(t: Terms, answers: seq<Answered>): Score {
    if Payable(t) then ScoreOf(answers) else Score(0, 0, 0)
  }

  /** When a session's terms are not payable one of them is zero, and so is every reward. */
  lemma UnpayablePaysNothing(t: Terms, a: Answered)
    requires Scaled(t) && !Payable(t)
    ensures Unit(t) == 0.0 && MarkOf(t, a).reward == 0.0
  {
    match a
    case Picked(d, chosen, correct) => RewardIsUnits(t, d, MCQ_FACTOR, if GradeMcq(chosen, correct) then 1.0 else 0.0);
    case Written(d, essay) => RewardIsUnits(t, d, ESSAY_FACTOR, EssayScoreFactor(RewardableScore(GradeEssay(essay))));
  }

  lemma MarkIsSound(t: Terms, a: Answered)
    requires Scaled(t)
    ensures Sound(MarkOf(t, a))
    ensures MarkOf(t, a).reward > 0.0 <==> Payable(t) && Right(a)
  {
    if Payable(t) {
      MarkPays(t, a);
    } else {
      UnpayablePaysNothing(t, a);
    }
  }

  lemma {:induction false} MarksTellTheSame(t: Terms, answers: seq<Answered>, marks: seq<Mark>)
    requires Scaled(t) && |marks| == |answers|
    requires forall i :: 0 <= i < |marks| ==> marks[i] == MarkOf(t, answers[i])
    ensures MarkSum(marks) == RewardSum(t, answers) && ScoreOfMarks(marks) == Counted(t, answers)
    ensures forall i :: 0 <= i < |marks| ==> Sound(marks[i])
    ensures !Payable(t) ==> forall i :: 0 <= i < |marks| ==> marks[i].reward == 0.0
    decreases |answers|
  {
    if answers == [] {
    } else {
      MarksTellTheSame(t, answers[..|answers| - 1], marks[..|marks| - 1]);
      MarkIsSound(t, answers[|answers| - 1]);
    }
  }

  /** The marking loop. */
  method MarkAll(t: Terms, answers: seq<Answered>) returns (marks: seq<Mark>)
    ensures |marks| == |answers|
    ensures forall i :: 0 <= i < |marks| ==> marks[i] == MarkOf(t, answers[i])
  {
    marks := [];
    while |marks| < |answers|
      invariant |marks| <= |answers|
      invariant forall i :: 0 <= i < |marks| ==> marks[i] == MarkOf(t, answers[i])
    {
      marks := marks + [MarkOf(t, answers[|marks|])];
    }
  }

  function RowSum(marks: seq<Mark>, factors: real): real {
    if marks == [] then 0.0
    else
      var m := marks[|marks| - 1];
      var row := if m.reward <= 0.0 then 0.0 else if factors != 0.0 then m.reward / factors else m.reward;
      RowSum(marks[..|marks| - 1], factors) + row
  }

  lemma {:induction false} RowsMultiplyBack(marks: seq<Mark>, factors: real)
    requires forall i :: 0 <= i < |marks| ==> Sound(marks[i])
    requires factors == 0.0 ==> forall i :: 0 <= i < |marks| ==> marks[i].reward == 0.0
    ensures RowSum(marks, factors) * factors == MarkSum(marks)
    decreases |marks|
  {
    if marks == [] {
    } else {
      var init := marks[..|marks| - 1];
      var m := marks[|marks| - 1];
      RowsMultiplyBack(init, factors);
      assert Sound(m);
      if m.reward > 0.0 {
        Redistribute(factors, RowSum(init, factors), m.reward, MarkSum(init));
      }
    }
  }

  /** The receipt loop: rows divide the session's factors out of the rewards. */
  method AddUp(marks: seq<Mark>, factors: real) returns (subtotal: real, score: Score)
    requires forall i :: 0 <= i < |marks| ==> Sound(marks[i])
    requires factors == 0.0 ==> forall i :: 0 <= i < |marks| ==> marks[i].reward == 0.0
    ensures subtotal * factors == MarkSum(marks)
    ensures score == ScoreOfMarks(marks)
  {
    var correct, hard, essaysPassed := 0, 0, 0;
    subtotal := 0.0;
    var n := 0;
    while n < |marks|
      invariant 0 <= n <= |marks|
      invariant subtotal == RowSum(marks[..n], factors)
      invariant Score(correct, hard, essaysPassed) == ScoreOfMarks(marks[..n])
    {
      var m := marks[n];
      assert marks[..n + 1][..n] == marks[..n];
      assert Sound(m);
      n := n + 1;
      if m.flagged || m.reward <= 0.0 {
        continue;
      }
      subtotal := subtotal + (if factors != 0.0 then m.reward / factors else m.reward);
      correct := correct + 1;
      if m.difficulty == Sulit {
        hard := hard + 1;
      }
      if m.essay {
        essaysPassed := essaysPassed + 1;
      }
    }
    assert marks[..n] == marks;
    RowsMultiplyBack(marks, factors);
    score := Score(correct, hard, essaysPassed);
  }

  lemma FactorsZero(level: real, novelty: real)
    requires level >= 0.0 && novelty >= 0.0
    ensures level * novelty == 0.0 <==> level == 0.0 || novelty == 0.0
  {
  }

  lemma {:induction false} SumNonnegative(t: Terms, answers: seq<Answered>)
    requires Scaled(t)
    ensures RewardSum(t, answers) >= 0.0
    decreases |answers|
  {
    if answers == [] {
    } else {
      SumNonnegative(t, answers[..|answers| - 1]);
      MarkIsSound(t, answers[|answers| - 1]);
    }
  }

  /** The receipt conserves reward: although each row divides the session's factors out and the total
      multiplies them back in, gross is the sum of every answer's reward and what is credited is its
      whole part. The counts are those of the answers the marker calls right, in every session that
      pays at all. */
  method Tally(t: Terms, answers: seq<Answered>) returns (r: Receipt)
    requires Scaled(t)
    ensures r.rows == |answers|
    ensures r.gross == RewardSum(t, answers)
    ensures r.credited == RewardSum(t, answers).Floor && r.credited >= 0
    ensures r.score == Counted(t, answers)
  {
    var marks := MarkAll(t, answers);
    MarksTellTheSame(t, answers, marks);
    FactorsZero(t.level, t.novelty);
    var subtotal, score := AddUp(marks, t.level * t.novelty);
    var gross := subtotal * t.level * t.novelty;
    Reassociate(subtotal, t.level, t.novelty);
    SumNonnegative(t, answers);
    r := Receipt(|marks|, subtotal, gross, Truncate(gross), score);
  }

  /** The answers without the essays that were turned away. */
  function Serious(answers: seq<Answered>): seq<Answered> {
    if answers == [] then []
    else
      var init := Serious(answers[..|answers| - 1]);
      var a := answers[|answers| - 1];
      if a.Written? && TurnedAway(a.essay) then init else init + [a]
  }

  /** A receipt pays and counts as if the essays that were turned away had not been handed in. */
  lemma {:induction false} TurnedAwayAddNothing(t: Terms, answers: seq<Answered>)
    ensures RewardSum(t, Serious(answers)) == RewardSum(t, answers)
    ensures ScoreOf(Serious(answers)) == ScoreOf(answers)
    decreases |answers|
  {
    if answers == [] {
    } else {
      var init := Serious(answers[..|answers| - 1]);
      var a := answers[|answers| - 1];
      TurnedAwayAddNothing(t, answers[..|answers| - 1]);
      if a.Written? && TurnedAway(a.essay) {
        SteeringNeverPays(t, a.difficulty, a.essay);
        EssayVerdict(a.essay);
      } else {
        assert (init + [a])[..|init|] == init;
      }
    }
  }

  // ---------------------------------------------------------------- what the table keeps of a mark

  /** The mark columns of an answer row. Score and reward keep two decimals, held here as hundredths. */
  datatype StoredMark = StoredMark(isCorrect: bool, score: Option<int>, flagged: bool, reward: int)

  function StoredMarkOf(t: Terms, a: Answered): StoredMark {
    var m := MarkOf(t, a);
    StoredMark(m.isCorrect, if a.Written? then Some(Hundredths(GradeEssay(a.essay).score)) else None, m.flagged,
               Hundredths(m.reward))
  }

  function StoredSum(t: Terms, answers: seq<Answered>): int {
    if answers == [] then 0
    else StoredSum(t, answers[..|answers| - 1]) + StoredMarkOf(t, answers[|answers| - 1]).reward
  }

  /** What rounding adds to the rewards of the essays, in hundredths. */
  function RoundingError(t: Terms, answers: seq<Answered>): real {
    if answers == [] then 0.0
    else
      var a := answers[|answers| - 1];
      var r := MarkOf(t, a).reward;
      RoundingError(t, answers[..|answers| - 1]) + (if a.Written? then Hundredths(r) as real - r * 100.0 else 0.0)
  }

  /** The factors every session that was started carries. */
  predicate Started(t: Terms) {
    t.base >= 0 && t.level == 1.0 && (t.novelty == 1.0 || t.novelty == 0.6 || t.novelty == 0.3)
  }

  /** The share of a multiple-choice question in the base reward, in percent. */
  function Percent(d: Difficulty, novelty: real): int {
    match d
    case Mudah => if novelty == 1.0 then 60 else if novelty == 0.6 then 36 else 18
    case Sedang => if novelty == 1.0 then 100 else if novelty == 0.6 then 60 else 30
    case Sulit => if novelty == 1.0 then 160 else if novelty == 0.6 then 96 else 48
  }

  lemma PercentIsWhole(d: Difficulty, novelty: real)
    requires novelty == 1.0 || novelty == 0.6 || novelty == 0.3
    ensures novelty * DifficultyFactor(d) * 100.0 == Percent(d, novelty) as real
  {
  }

  lemma TimesPercent(base: int, novelty: real, factor: real, percent: int)
    requires novelty * factor * 100.0 == percent as real
    ensures base as real * 1.0 * novelty * (factor * 1.0 * 1.0) * 100.0 == (base * percent) as real
  {
    assert base as real * 1.0 * novelty * (factor * 1.0 * 1.0) * 100.0 == base as real * (novelty * factor * 100.0);
  }

  lemma WholeHundredths(x: real, n: int)
    requires x * 100.0 == n as real
    ensures Hundredths(x) == n
  {
  }

  /** A multiple-choice reward is a whole number of hundredths, so storing it loses nothing. */
  lemma ChoiceIsWhole(t: Terms, a: Answered)
    requires Started(t) && a.Picked?
    ensures Hundredths(MarkOf(t, a).reward) as real == MarkOf(t, a).reward * 100.0
  {
    var s := if GradeMcq(a.chosen, a.correct) then 1.0 else 0.0;
    RewardIsUnits(t, a.difficulty, MCQ_FACTOR, s);
    if s == 1.0 {
      var percent := Percent(a.difficulty, t.novelty);
      PercentIsWhole(a.difficulty, t.novelty);
      TimesPercent(t.base, t.novelty, DifficultyFactor(a.difficulty), percent);
      WholeHundredths(MarkOf(t, a).reward, t.base * percent);
    } else {
      WholeHundredths(MarkOf(t, a).reward, 0);
    }
  }

  lemma RoundingIsHalf(x: real)
    ensures -0.5 <= Hundredths(x) as real - x * 100.0 <= 0.5
    ensures x == 0.0 ==> Hundredths(x) == 0
  {
  }

  /** Conservation up to rounding: the stored rewards add up to a hundred times the gross, up to the rounding
      of the essays that passed, which is at most half a hundredth each. */
  lemma {:induction false} StoredSumIsRounded(t: Terms, answers: seq<Answered>)
    requires Started(t)
    ensures StoredSum(t, answers) as real == RewardSum(t, answers) * 100.0 + RoundingError(t, answers)
    ensures var passed := ScoreOf(answers).essays as real;
            -passed <= 2.0 * RoundingError(t, answers) <= passed
    decreases |answers|
  {
    if answers == [] {
    } else {
      var a := answers[|answers| - 1];
      StoredSumIsRounded(t, answers[..|answers| - 1]);
      MarkIsSound(t, a);
      RoundingIsHalf(MarkOf(t, a).reward);
      if a.Picked? {
        ChoiceIsWhole(t, a);
      }
    }
  }

  lemma WholePart(stored: int, gross: real, error: real)
    requires stored as real == gross * 100.0 + error && stored >= 0 && gross >= 0.0
    ensures stored / 100 == gross.Floor <==> 0.0 <= (gross - gross.Floor as real) * 100.0 + error < 100.0
  {
    assert stored as real == gross.Floor as real * 100.0 + ((gross - gross.Floor as real) * 100.0 + error);
  }

  lemma {:induction false} StoredSumNonnegative(t: Terms, answers: seq<Answered>)
    requires Started(t)
    ensures StoredSum(t, answers) >= 0
    decreases |answers|
  {
    if answers == [] {
    } else {
      StoredSumNonnegative(t, answers[..|answers| - 1]);
      MarkIsSound(t, answers[|answers| - 1]);
    }
  }

  /** Credited seconds are cut from the exact rewards, before any rounding. They are the whole part of what the
      stored rewards add up to if and only if the rounding of the essays does not carry the fraction of a
      second across a whole one; without a passed essay that is always so. */
  lemma StoredSecondsAgree(t: Terms, answers: seq<Answered>)
    requires Started(t)
    ensures var gross := RewardSum(t, answers);
            var fraction := (gross - gross.Floor as real) * 100.0;
            && 0 <= StoredSum(t, answers)
            && (StoredSum(t, answers) / 100 == Truncate(gross)
                <==> 0.0 <= fraction + RoundingError(t, answers) < 100.0)
            && (ScoreOf(answers).essays == 0 ==> StoredSum(t, answers) / 100 == Truncate(gross))
  {
    StoredSumIsRounded(t, answers);
    SumNonnegative(t, answers);
    StoredSumNonnegative(t, answers);
    WholePart(StoredSum(t, answers), RewardSum(t, answers), RoundingError(t, answers));
  }

  /** The rounded score can look passed when the essay was not: exactly from 59.995 on. */
  lemma StoredScoreMisleads(t: Terms, d: Difficulty, a: EssayAnswer)
    ensures var stored := StoredMarkOf(t, Written(d, a));
            && stored.score.Some?
            && (stored.score.value >= 6000 && !stored.isCorrect <==> 59.995 <= GradeEssay(a).score < ESSAY_PASS_SCORE)
            && (stored.isCorrect ==> stored.score.value >= 6000)
  {
  }

  // ---------------------------------------------------------------- the ceiling

  /** Python's round(): halves go to the even neighbour. */
  function RoundHalfEven(x: real): int {
    var low := x.Floor;
    var rest := x - low as real;
    if rest < 0.5 then low else if rest > 0.5 then low + 1 else if low % 2 == 0 then low else low + 1
  }

  /** It is the nearest whole number, and the even one of two equally near. */
  lemma RoundHalfEvenIsNearest(x: real)
    ensures var r := RoundHalfEven(x) as real;
            && -0.5 <= x - r <= 0.5
            && (x - r == 0.5 || x - r == -0.5 ==> RoundHalfEven(x) % 2 == 0)
  {
  }

  function MaxPossibleReward(t: Terms, questions: int, essayRatio: real): real {
    var essays := RoundHalfEven(questions as real * essayRatio);
    var mcqs := Max(0, questions - essays);
    var per := t.base as real * 1.6 * t.level * t.novelty;
    per * mcqs as real + per * ESSAY_FACTOR * essays as real
  }

  /** What so many flawless hard questions are worth together. */
  function Ceiling(unit: real, mcqs: nat, essays: nat): real {
    if mcqs > 0 then Ceiling(unit, mcqs - 1, essays) + unit * 1.6
    else if essays > 0 then Ceiling(unit, mcqs, essays - 1) + unit * 2.88
    else 0.0
  }

  lemma {:induction false} CeilingStep(unit: real, mcqs: nat, essays: nat)
    ensures Ceiling(unit, mcqs, essays + 1) == Ceiling(unit, mcqs, essays) + unit * 2.88
    decreases mcqs
  {
    if mcqs == 0 {
    } else {
      CeilingStep(unit, mcqs - 1, essays);
    }
  }

  /** Trading multiple choice for essays strictly raises the ceiling. */
  lemma {:induction false} CeilingShift(unit: real, questions: nat, fewer: nat, more: nat)
    requires unit > 0.0 && fewer <= more <= questions
    ensures fewer < more ==> Ceiling(unit, questions - fewer, fewer) < Ceiling(unit, questions - more, more)
    ensures Ceiling(unit, questions - fewer, fewer) <= Ceiling(unit, questions - more, more)
    decreases more
  {
    if fewer >= more {
    } else {
      CeilingShift(unit, questions, fewer, more - 1);
      CeilingStep(unit, questions - more, more - 1);
    }
  }

  lemma OneMore(x: real, n: nat)
    requires n > 0
    ensures x * n as real == x * (n - 1) as real + x
  {
    assert n as real == (n - 1) as real + 1.0;
  }

  lemma {:induction false} CeilingClosed(unit: real, mcqs: nat, essays: nat)
    ensures Ceiling(unit, mcqs, essays) == unit * 1.6 * mcqs as real + unit * 1.6 * ESSAY_FACTOR * essays as real
    decreases mcqs + essays
  {
    if mcqs > 0 {
      CeilingClosed(unit, mcqs - 1, essays);
      OneMore(unit * 1.6, mcqs);
    } else if essays > 0 {
      CeilingClosed(unit, mcqs, essays - 1);
      OneMore(unit * 1.6 * ESSAY_FACTOR, essays);
    }
  }

  function Essays(answers: seq<Answered>): (e: nat)
    ensures e <= |answers|
  {
    if answers == [] then 0 else Essays(answers[..|answers| - 1]) + (if answers[|answers| - 1].Written? then 1 else 0)
  }

  lemma {:induction false} SumWithinCeiling(t: Terms, answers: seq<Answered>)
    requires Payable(t)
    ensures 0.0 <= RewardSum(t, answers) <= Ceiling(Unit(t), |answers| - Essays(answers), Essays(answers))
    decreases |answers|
  {
    if answers == [] {
    } else {
      var init := answers[..|answers| - 1];
      SumWithinCeiling(t, init);
      MarkPays(t, answers[|answers| - 1]);
      CeilingStep(Unit(t), |init| - Essays(init), Essays(init));
    }
  }

  lemma RoundedInRange(x: real, n: nat)
    requires 0.0 <= x <= n as real
    ensures 0 <= RoundHalfEven(x) <= n
  {
  }

  lemma RatioInRange(n: real, ratio: real)
    requires 0.0 <= n && 0.0 <= ratio <= 1.0
    ensures 0.0 <= n * ratio <= n
  {
  }

  /** The essays the ratio makes room for. */
  function AllowedEssays(questions: nat, essayRatio: real): (e: nat)
    requires 0.0 <= essayRatio <= 1.0
    ensures e <= questions
  {
    RatioInRange(questions as real, essayRatio);
    RoundedInRange(questions as real * essayRatio, questions);
    RoundHalfEven(questions as real * essayRatio)
  }

  lemma PerIsUnits(base: real, level: real, novelty: real)
    ensures base * 1.6 * level * novelty == base * level * novelty * 1.6
  {
    assert base * 1.6 * level == base * level * 1.6;
  }

  lemma MaxIsCeiling(t: Terms, questions: nat, essayRatio: real)
    requires 0.0 <= essayRatio <= 1.0
    ensures var essays := AllowedEssays(questions, essayRatio);
            MaxPossibleReward(t, questions, essayRatio) == Ceiling(Unit(t), questions - essays, essays)
  {
    var essays := AllowedEssays(questions, essayRatio);
    PerIsUnits(t.base as real, t.level, t.novelty);
    CeilingClosed(Unit(t), questions - essays, essays);
  }

  lemma TruncateMonotone(x: real, y: real)
    requires 0.0 <= x <= y
    ensures Truncate(x) <= Truncate(y)
  {
  }

  lemma {:induction false} CeilingGrows(unit: real, fewer: nat, more: nat, essays: nat)
    requires unit > 0.0 && fewer <= more
    ensures Ceiling(unit, fewer, essays) <= Ceiling(unit, more, essays)
    decreases more
  {
    if fewer == more {
    } else {
      CeilingGrows(unit, fewer, more - 1, essays);
    }
  }

  /** What is credited never exceeds the ceiling for at least as many questions, not even after both are cut
      to whole seconds, as long as no more essays are present than the ratio rounds to. */
  lemma {:induction false} CreditWithinCeiling(t: Terms, answers: seq<Answered>, questions: nat, essayRatio: real)
    requires Payable(t) && 0.0 <= essayRatio <= 1.0
    requires |answers| <= questions && Essays(answers) <= AllowedEssays(questions, essayRatio)
    ensures RewardSum(t, answers) <= MaxPossibleReward(t, questions, essayRatio)
    ensures Truncate(RewardSum(t, answers)) <= Truncate(MaxPossibleReward(t, questions, essayRatio))
  {
    UnitPositive(t);
    SumWithinCeiling(t, answers);
    CeilingGrows(Unit(t), |answers| - Essays(answers), questions - Essays(answers), Essays(answers));
    MaxIsCeiling(t, questions, essayRatio);
    CeilingShift(Unit(t), questions, Essays(answers), AllowedEssays(questions, essayRatio));
    TruncateMonotone(RewardSum(t, answers), MaxPossibleReward(t, questions, essayRatio));
  }

  predicate PerfectAndHard(a: Answered) {
    && a.difficulty == Sulit
    && (a.Picked? ==> a.chosen == Some(a.correct))
    && (a.Written? ==> !a.essay.blank && !a.essay.steers && a.essay.words >= MIN_ESSAY_WORDS && a.essay.total >= 100.0)
  }

  lemma PerfectPays(t: Terms, a: Answered)
    requires PerfectAndHard(a)
    ensures MarkOf(t, a).reward == Unit(t) * Share(a)
  {
    RewardIsUnits(t, Sulit, if a.Written? then ESSAY_FACTOR else MCQ_FACTOR, 1.0);
  }

  lemma {:induction false} PerfectSum(t: Terms, answers: seq<Answered>)
    requires forall i :: 0 <= i < |answers| ==> PerfectAndHard(answers[i])
    ensures RewardSum(t, answers) == Ceiling(Unit(t), |answers| - Essays(answers), Essays(answers))
    decreases |answers|
  {
    if answers == [] {
    } else {
      var init := answers[..|answers| - 1];
      PerfectSum(t, init);
      PerfectPays(t, answers[|answers| - 1]);
      CeilingStep(Unit(t), |init| - Essays(init), Essays(init));
    }
  }

  /** The condition on essays is exact: a flawless session of hard questions stays within the ceiling if
      and only if it holds no more essays than the ratio rounds to. */
  lemma {:induction false} CeilingIsTight(t: Terms, answers: seq<Answered>, essayRatio: real)
    requires Payable(t) && 0.0 <= essayRatio <= 1.0
    requires forall i :: 0 <= i < |answers| ==> PerfectAndHard(answers[i])
    ensures RewardSum(t, answers) <= MaxPossibleReward(t, |answers|, essayRatio)
            <==> Essays(answers) <= AllowedEssays(|answers|, essayRatio)
  {
    UnitPositive(t);
    PerfectSum(t, answers);
    MaxIsCeiling(t, |answers|, essayRatio);
    var present := Essays(answers);
    var allowed := AllowedEssays(|answers|, essayRatio);
    CeilingShift(Unit(t), |answers|, Min(present, allowed), Max(present, allowed));
  }
}
