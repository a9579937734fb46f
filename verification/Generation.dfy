/** Which generated questions are stored, and in what shape (app/services/generation.py). */
module Generation {
  import opened Base
  import G = Grading

  datatype QuestionType = McqType | EssayType

  datatype Criterion = Criterion(criterion: string, indicator: string)

  datatype Generated = Generated(
    qtype: QuestionType, stem: string, options: Option<seq<string>>, correctIndex: Option<int>,
    rubric: Option<seq<Criterion>>, referenceAnswer: Option<string>, excerpt: string, explanation: string,
    difficulty: G.Difficulty)

  const STEM_MAX := 600
  const OPTION_MAX := 300
  const EXCERPT_MAX := 500
  const EXPLANATION_MAX := 700
  const REFERENCE_MAX := 1500
  const CRITERION_MAX := 300
  const INDICATOR_MAX := 300

  const BANNED := ["semua benar", "tidak ada yang benar", "all of the above", "none of the above"]

  function OrEmpty<T>(o: Option<seq<T>>): seq<T> {
    if o.Some? then o.value else []
  }

  predicate Overflows(q: Generated) {
    || |q.stem| > STEM_MAX
    || |q.excerpt| > EXCERPT_MAX
    || |q.explanation| > EXPLANATION_MAX
    || |OrEmpty(q.referenceAnswer)| > REFERENCE_MAX
    || (exists i :: 0 <= i < |OrEmpty(q.options)| && |OrEmpty(q.options)[i]| > OPTION_MAX)
    || (exists i :: 0 <= i < |OrEmpty(q.rubric)| && (|OrEmpty(q.rubric)[i].criterion| > CRITERION_MAX
                                                    || |OrEmpty(q.rubric)[i].indicator| > INDICATOR_MAX))
  }

  predicate FoundAt(text: string, part: string, i: int) {
    0 <= i <= |text| - |part| && text[i..i + |part|] == part
  }

  predicate Contains(text: string, part: string) {
    exists i :: 0 <= i <= |text| && FoundAt(text, part, i)
  }

  datatype Reason =
    | EmptyText | TooLong | BadRubric | NoReference
    | NotFourOptions | KeyOutOfRange | RepeatedOption | BannedOption

  /** Why a question is dropped. `clean` stands for stripping blanks and lowering case. */
  function Rejection(q: Generated, clean: string -> string): Option<Reason> {
    if clean(q.stem) == "" || clean(q.excerpt) == "" then Some(EmptyText)
    else if Overflows(q) then Some(TooLong)
    else if q.qtype == EssayType then
      if q.rubric == None || !(2 <= |q.rubric.value| <= 5) then Some(BadRubric)
      else if clean(OrEmpty(q.referenceAnswer)) == "" then Some(NoReference)
      else None
    else if q.options == None || |q.options.value| != 4 then Some(NotFourOptions)
    else if q.correctIndex == None || !(0 <= q.correctIndex.value < 4) then Some(KeyOutOfRange)
    else
      var cleaned := seq(4, i requires 0 <= i < 4 => clean(q.options.value[i]));
      if (exists i, j :: 0 <= i < j < 4 && cleaned[i] == cleaned[j]) || "" in cleaned then Some(RepeatedOption)
      else if exists i, b :: 0 <= i < 4 && 0 <= b < |BANNED| && Contains(cleaned[i], BANNED[b]) then Some(BannedOption)
      else None
  }

  function Kept(items: seq<Generated>, clean: string -> string): seq<Generated> {
    if items == [] then []
    else
      var init := Kept(items[..|items| - 1], clean);
      if Rejection(items[|items| - 1], clean) == None then init + [items[|items| - 1]] else init
  }

  /** `similar(a, b)`: the stem a reads like the stem b, which is asked of each newcomer against those kept. */
  predicate ReadsLikeNone(q: Generated, kept: seq<Generated>, similar: (string, string) -> bool) {
    forall k :: 0 <= k < |kept| ==> !similar(q.stem, kept[k].stem)
  }

  function Deduped(items: seq<Generated>, similar: (string, string) -> bool): seq<Generated> {
    if items == [] then []
    else
      var init := Deduped(items[..|items| - 1], similar);
      if ReadsLikeNone(items[|items| - 1], init, similar) then init + [items[|items| - 1]] else init
  }

  /** A stored row: the part of it the quizzes use. */
  datatype Row = Row(ordinal: nat, question: Generated)

  method Keep(items: seq<Generated>, clean: string -> string) returns (kept: seq<Generated>)
    ensures kept == Kept(items, clean)
  {
    kept := [];
    var n := 0;
    while n < |items|
      invariant 0 <= n <= |items|
      invariant kept == Kept(items[..n], clean)
    {
      assert items[..n + 1][..n] == items[..n];
      if Rejection(items[n], clean) == None {
        kept := kept + [items[n]];
      }
      n := n + 1;
    }
    assert items[..n] == items;
  }

  method Dedupe(items: seq<Generated>, similar: (string, string) -> bool) returns (kept: seq<Generated>)
    ensures kept == Deduped(items, similar)
  {
    kept := [];
    var n := 0;
    while n < |items|
      invariant 0 <= n <= |items|
      invariant kept == Deduped(items[..n], similar)
    {
      assert items[..n + 1][..n] == items[..n];
      if ReadsLikeNone(items[n], kept, similar) {
        kept := kept + [items[n]];
      }
      n := n + 1;
    }
    assert items[..n] == items;
  }

  method RowsFor(items: seq<Generated>) returns (rows: seq<Row>)
    ensures |rows| == |items| && forall i :: 0 <= i < |rows| ==> rows[i] == Row(i, items[i])
  {
    rows := [];
    while |rows| < |items|
      invariant |rows| <= |items|
      invariant forall i :: 0 <= i < |rows| ==> rows[i] == Row(i, items[i])
    {
      rows := rows + [Row(|rows|, items[|rows|])];
    }
  }

  /** The shape every stored question has. */
  ghost predicate WellShaped(q: Generated) {
    && !Overflows(q)
    && (q.qtype == McqType ==>
          && q.options.Some? && |q.options.value| == 4
          && q.correctIndex.Some? && 0 <= q.correctIndex.value < 4
          && Distinct(q.options.value) && "" !in q.options.value)
    && (q.qtype == EssayType ==>
          q.rubric.Some? && 2 <= |q.rubric.value| <= 5 && q.referenceAnswer.Some? && q.referenceAnswer.value != "")
  }

  lemma AcceptedIsWellShaped(q: Generated, clean: string -> string)
    requires Rejection(q, clean) == None && clean("") == ""
    ensures WellShaped(q)
  {
    if q.qtype == McqType {
      var options := q.options.value;
      var cleaned := seq(4, i requires 0 <= i < 4 => clean(options[i]));
      forall i, j | 0 <= i < j < 4 ensures options[i] != options[j] {
        assert cleaned[i] != cleaned[j];
      }
      forall i | 0 <= i < 4 ensures options[i] != "" {
        assert cleaned[i] in cleaned;
      }
    }
  }

  lemma {:induction false} KeptAreAccepted(items: seq<Generated>, clean: string -> string)
    ensures forall i :: 0 <= i < |Kept(items, clean)| ==> Rejection(Kept(items, clean)[i], clean) == None
    ensures forall q :: q in items && Rejection(q, clean) == None ==> q in Kept(items, clean)
    decreases |items|
  {
    if items == [] {
    } else {
      KeptAreAccepted(items[..|items| - 1], clean);
      assert items == items[..|items| - 1] + [items[|items| - 1]];
    }
  }

  /** Deduplication keeps no question that reads like an earlier kept one, drops none without such a
      reason, and invents nothing. */
  lemma {:induction false} DedupedIsMaximal(items: seq<Generated>, similar: (string, string) -> bool)
    ensures var kept := Deduped(items, similar);
            && (forall i, j :: 0 <= i < j < |kept| ==> !similar(kept[j].stem, kept[i].stem))
            && (forall q :: q in kept ==> q in items)
            && (forall q :: q in items && q !in kept ==> exists k :: k in kept && similar(q.stem, k.stem))
    decreases |items|
  {
    if items == [] {
    } else {
      var init := Deduped(items[..|items| - 1], similar);
      var q := items[|items| - 1];
      DedupedIsMaximal(items[..|items| - 1], similar);
      assert items == items[..|items| - 1] + [q];
      if !ReadsLikeNone(q, init, similar) {
        var k :| 0 <= k < |init| && similar(q.stem, init[k].stem);
        assert init[k] in init;
      }
    }
  }

  lemma {:induction false} KeptFrom(items: seq<Generated>, clean: string -> string)
    ensures forall q :: q in Kept(items, clean) ==> q in items
    decreases |items|
  {
    if items == [] {
    } else {
      KeptFrom(items[..|items| - 1], clean);
      assert items == items[..|items| - 1] + [items[|items| - 1]];
    }
  }

  /** Everything the pipeline stores has the shape grading relies on, under consecutive ordinals. */
  method Store(items: seq<Generated>, clean: string -> string, similar: (string, string) -> bool)
    returns (rows: seq<Row>)
    requires clean("") == ""
    ensures forall i :: 0 <= i < |rows| ==>
              rows[i].ordinal == i && WellShaped(rows[i].question) && rows[i].question in items
    ensures forall i, j :: 0 <= i < j < |rows| ==> !similar(rows[j].question.stem, rows[i].question.stem)
    ensures forall q :: q in items && Rejection(q, clean) == None ==>
              exists i :: 0 <= i < |rows| && (rows[i].question == q || similar(q.stem, rows[i].question.stem))
  {
    var kept := Keep(items, clean);
    var unique := Dedupe(kept, similar);
    rows := RowsFor(unique);
    KeptAreAccepted(items, clean);
    KeptFrom(items, clean);
    DedupedIsMaximal(kept, similar);
    forall i | 0 <= i < |rows| ensures WellShaped(rows[i].question) && rows[i].question in items {
      assert unique[i] in kept;
      AcceptedIsWellShaped(unique[i], clean);
    }
    forall q | q in items && Rejection(q, clean) == None
      ensures exists i :: 0 <= i < |rows| && (rows[i].question == q || similar(q.stem, rows[i].question.stem))
    {
      assert q in kept;
      var k :| k in unique && (k == q || similar(q.stem, k.stem));
      var i :| 0 <= i < |unique| && unique[i] == k;
      assert rows[i].question == k;
    }
  }

  /** Nothing a player is shown or the marker is given is longer than its column takes. */
  ghost predicate Fits(q: Generated) {
    && |q.stem| <= 600 && |q.excerpt| <= 500 && |q.explanation| <= 700
    && (q.referenceAnswer.Some? ==> |q.referenceAnswer.value| <= 1500)
    && (q.options.Some? ==> forall o :: o in q.options.value ==> |o| <= 300)
    && (q.rubric.Some? ==> forall c :: c in q.rubric.value ==> |c.criterion| <= 300 && |c.indicator| <= 300)
  }

  predicate Banned(option: string) {
    || Contains(option, "semua benar") || Contains(option, "tidak ada yang benar")
    || Contains(option, "all of the above") || Contains(option, "none of the above")
  }

  ghost predicate CleanOptions(cleaned: seq<string>) {
    && Distinct(cleaned)
    && forall i :: 0 <= i < |cleaned| ==> cleaned[i] != "" && !Banned(cleaned[i])
  }

  /** Exactly what is accepted, as a teacher would put it: it fits, it quotes its source, and it either has a
      rubric of two to five criteria and a reference answer, or four different non-empty options, none of
      them a catch-all, and a key among them. */
  ghost predicate Acceptable(q: Generated, clean: string -> string) {
    && Fits(q) && clean(q.stem) != "" && clean(q.excerpt) != ""
    && match q.qtype
       case EssayType =>
         && q.rubric.Some? && 2 <= |q.rubric.value| <= 5
         && clean(OrEmpty(q.referenceAnswer)) != ""
       case McqType =>
         && q.options.Some? && |q.options.value| == 4
         && q.correctIndex.Some? && 0 <= q.correctIndex.value <= 3
         && CleanOptions(seq(4, i requires 0 <= i < 4 => clean(q.options.value[i])))
  }

  lemma LongOption(options: seq<string>)
    ensures (exists i :: 0 <= i < |options| && |options[i]| > OPTION_MAX)
            <==> !(forall o :: o in options ==> |o| <= 300)
  {
    if i :| 0 <= i < |options| && |options[i]| > OPTION_MAX {
      assert options[i] in options;
    }
  }

  lemma LongCriterion(rubric: seq<Criterion>)
    ensures (exists i :: 0 <= i < |rubric| &&
               (|rubric[i].criterion| > CRITERION_MAX || |rubric[i].indicator| > INDICATOR_MAX))
            <==> !(forall c :: c in rubric ==> |c.criterion| <= 300 && |c.indicator| <= 300)
  {
    if i :| 0 <= i < |rubric| && (|rubric[i].criterion| > CRITERION_MAX || |rubric[i].indicator| > INDICATOR_MAX) {
      assert rubric[i] in rubric;
    }
  }

  lemma OverflowsExactly(q: Generated)
    ensures Overflows(q) <==> !Fits(q)
  {
    LongOption(OrEmpty(q.options));
    LongCriterion(OrEmpty(q.rubric));
  }

  lemma BannedExactly(option: string)
    ensures Banned(option) <==> exists b :: 0 <= b < |BANNED| && Contains(option, BANNED[b])
  {
    assert BANNED[0] == "semua benar" && BANNED[1] == "tidak ada yang benar";
    assert BANNED[2] == "all of the above" && BANNED[3] == "none of the above";
  }

  lemma CleanExactly(cleaned: seq<string>)
    requires |cleaned| == 4
    ensures (exists i, j :: 0 <= i < j < 4 && cleaned[i] == cleaned[j]) || "" in cleaned
            || (exists i, b :: 0 <= i < 4 && 0 <= b < |BANNED| && Contains(cleaned[i], BANNED[b]))
            <==> !CleanOptions(cleaned)
  {
    forall i | 0 <= i < 4
      ensures cleaned[i] in cleaned
      ensures Banned(cleaned[i]) <==> exists b :: 0 <= b < |BANNED| && Contains(cleaned[i], BANNED[b])
    {
      BannedExactly(cleaned[i]);
    }
  }

  lemma AcceptedExactly(q: Generated, clean: string -> string)
    ensures Rejection(q, clean) == None <==> Acceptable(q, clean)
  {
    OverflowsExactly(q);
    if q.qtype == McqType && q.options.Some? && |q.options.value| == 4 {
      CleanExactly(seq(4, i requires 0 <= i < 4 => clean(q.options.value[i])));
    }
  }
}
