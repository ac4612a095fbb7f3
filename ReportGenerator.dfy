/** Assessment reports: overall score and letter grade, a per-question join
    of the interactions against the assessment, an analysis of the
    knowledge components the assessment covers, and at most three
    recommendations for the weakest of them. */
module ReportGenerator {
  import opened Wrappers
  import opened OrderedDict
  import opened StableSort
  import opened KnowledgeTracing
  import opened AssessmentTypes

  // ---------------------------------------------------------------------
  // Configuration and grades
  // ---------------------------------------------------------------------

  /** grade -> minimum score, in dictionary order */
  type GradingScale = seq<(string, real)>

  /** The generator's fixed settings. */
  datatype Generator = Generator(gradingScale: GradingScale, masteryThreshold: real)

  function DefaultGradingScale(): GradingScale {
    [("A", 0.9), ("B", 0.8), ("C", 0.7), ("D", 0.6), ("F", 0.0)]
  }

  /** `ReportGenerator(grading_scale)`: a missing or empty scale means the
      default one; the mastery threshold is always 0.8. */
  function NewGenerator(gradingScale: Option<GradingScale>): (g: Generator)
    ensures g.masteryThreshold == 0.8
    ensures |g.gradingScale| > 0
    ensures gradingScale.None? || gradingScale.value == [] ==> g.gradingScale == DefaultGradingScale()
    ensures gradingScale.Some? && gradingScale.value != [] ==> g.gradingScale == gradingScale.value
  {
    if gradingScale.None? || gradingScale.value == [] then Generator(DefaultGradingScale(), 0.8)
    else Generator(gradingScale.value, 0.8)
  }

  function NegatedThreshold(entry: (string, real)): real { -entry.1 }

  /** The first grade, scanning by decreasing threshold, whose threshold the
      score reaches; "F" when there is none. */
  function FirstReached(entries: GradingScale, score: real): string {
    if entries == [] then "F"
    else if score >= entries[0].1 then entries[0].0
    else FirstReached(entries[1..], score)
  }

  /** The scan returns "F" or the grade of an entry the score reaches. */
  lemma {:induction false} FirstReachedIn(entries: GradingScale, score: real)
    ensures FirstReached(entries, score) == "F" ||
      exists e :: e in entries && e.0 == FirstReached(entries, score) && e.1 <= score
    decreases |entries|
  {
    if entries != [] && score < entries[0].1 {
      FirstReachedIn(entries[1..], score);
      assert forall e :: e in entries[1..] ==> e in entries;
    }
  }

  /** `_calculate_grade(score)`: "F", or a grade of the scale whose
      threshold the clamped score reaches. */
  function CalculateGrade(g: Generator, score: real): (grade: string)
    ensures grade == "F" || exists e :: e in g.gradingScale && e.0 == grade && e.1 <= Clamp(score, 0.0, 1.0)
  {
    var sorted := SortBy(g.gradingScale, NegatedThreshold);
    SortByMembers(g.gradingScale, NegatedThreshold);
    FirstReachedIn(sorted, Clamp(score, 0.0, 1.0));
    FirstReached(sorted, Clamp(score, 0.0, 1.0))
  }

  /** The scan returns the grade of the first threshold the score reaches,
      and "F" when it reaches none. */
  lemma {:induction false} FirstReachedFirst(entries: GradingScale, score: real)
    ensures (forall k :: 0 <= k < |entries| ==> entries[k].1 > score) ==> FirstReached(entries, score) == "F"
    ensures forall k :: 0 <= k < |entries| && entries[k].1 <= score && (forall j :: 0 <= j < k ==> entries[j].1 > score) ==>
      FirstReached(entries, score) == entries[k].0
    decreases |entries|
  {
    if entries != [] {
      var rest := entries[1..];
      FirstReachedFirst(rest, score);
      if forall k :: 0 <= k < |entries| ==> entries[k].1 > score {
        forall k | 0 <= k < |rest| ensures rest[k].1 > score {
          assert rest[k] == entries[k + 1];
        }
      }
      forall k | 0 <= k < |entries| && entries[k].1 <= score && (forall j :: 0 <= j < k ==> entries[j].1 > score)
        ensures FirstReached(entries, score) == entries[k].0
      {
        if k > 0 {
          assert entries[0].1 > score;
          assert rest[k - 1] == entries[k];
          forall j | 0 <= j < k - 1 ensures rest[j].1 > score {
            assert rest[j] == entries[j + 1];
          }
        }
      }
    }
  }

  /** Some threshold is reached exactly when there is a first one. */
  lemma {:induction false} FirstReachedExists(entries: GradingScale, score: real, k: nat)
    requires k < |entries| && entries[k].1 <= score
    ensures exists m :: 0 <= m <= k && entries[m].1 <= score && forall j :: 0 <= j < m ==> entries[j].1 > score
    decreases k
  {
    if exists j :: 0 <= j < k && entries[j].1 <= score {
      var j :| 0 <= j < k && entries[j].1 <= score;
      FirstReachedExists(entries, score, j);
    }
  }

  /** On the scale sorted by decreasing threshold, the grade found is that
      of a threshold at least as great as any other the score reaches. */
  lemma SortedGrade(entries: GradingScale, score: real, k: nat) returns (m: nat)
    requires SortedBy(entries, NegatedThreshold)
    requires k < |entries| && entries[k].1 <= score
    ensures m < |entries| && entries[m].1 <= score && FirstReached(entries, score) == entries[m].0
    ensures entries[k].1 <= entries[m].1
  {
    FirstReachedExists(entries, score, k);
    m :| 0 <= m <= k && entries[m].1 <= score && forall j :: 0 <= j < m ==> entries[j].1 > score;
    FirstReachedFirst(entries, score);
    if m < k {
      assert NegatedThreshold(entries[m]) <= NegatedThreshold(entries[k]);
    }
  }

  /** Whatever the order of the scale, the grade is "F" when no threshold
      is reached ... */
  lemma ScaleGradeNoneReached(scale: GradingScale, s: real)
    requires forall e :: e in scale ==> e.1 > s
    ensures FirstReached(SortBy(scale, NegatedThreshold), s) == "F"
  {
    var sorted := SortBy(scale, NegatedThreshold);
    FirstReachedFirst(sorted, s);
    forall k | 0 <= k < |sorted| ensures sorted[k].1 > s {
      assert sorted[k] in multiset(scale);
    }
  }

  /** ... and otherwise the grade of the greatest threshold reached. */
  lemma ScaleGradeReached(scale: GradingScale, s: real, e: (string, real))
    requires e in scale && e.1 <= s
    ensures exists best :: best in scale && best.1 <= s && FirstReached(SortBy(scale, NegatedThreshold), s) == best.0 && e.1 <= best.1
  {
    var sorted := SortBy(scale, NegatedThreshold);
    SortBySorted(scale, NegatedThreshold);
    assert e in multiset(sorted);
    var k :| 0 <= k < |sorted| && sorted[k] == e;
    var m := SortedGrade(sorted, s, k);
    assert sorted[m] in multiset(scale);
  }

  /** `_calculate_grade` clamps the score to [0, 1] and returns the grade of
      the greatest threshold the clamped score reaches, or "F" when it
      reaches none. */
  lemma GradeIsGreatestReached(g: Generator, score: real)
    ensures (forall e :: e in g.gradingScale ==> e.1 > Clamp(score, 0.0, 1.0)) ==> CalculateGrade(g, score) == "F"
    ensures forall e :: e in g.gradingScale && e.1 <= Clamp(score, 0.0, 1.0) ==>
      exists best :: best in g.gradingScale && best.1 <= Clamp(score, 0.0, 1.0) &&
        CalculateGrade(g, score) == best.0 && e.1 <= best.1
  {
    var s := Clamp(score, 0.0, 1.0);
    if forall e :: e in g.gradingScale ==> e.1 > s {
      ScaleGradeNoneReached(g.gradingScale, s);
    }
    forall e | e in g.gradingScale && e.1 <= s
      ensures exists best :: (best in g.gradingScale && best.1 <= s && CalculateGrade(g, score) == best.0 && e.1 <= best.1)
    {
      ScaleGradeReached(g.gradingScale, s, e);
    }
  }

  lemma DefaultScaleSorted()
    ensures SortBy(DefaultGradingScale(), NegatedThreshold) == DefaultGradingScale()
  {
    var scale := DefaultGradingScale();
    assert SortedBy(scale, NegatedThreshold);
    SortBySortedIdentity(scale, NegatedThreshold);
  }

  /** The scan over the default scale, band by band. */
  lemma DefaultScaleBands(c: real)
    ensures var grade := FirstReached(DefaultGradingScale(), c);
      && (c >= 0.9 ==> grade == "A")
      && (0.8 <= c < 0.9 ==> grade == "B")
      && (0.7 <= c < 0.8 ==> grade == "C")
      && (0.6 <= c < 0.7 ==> grade == "D")
      && (c < 0.6 ==> grade == "F")
  {
    var fromF: GradingScale := [("F", 0.0)];
    var fromD: GradingScale := [("D", 0.6)] + fromF;
    var fromC: GradingScale := [("C", 0.7)] + fromD;
    var fromB: GradingScale := [("B", 0.8)] + fromC;
    var fromA: GradingScale := [("A", 0.9)] + fromB;
    assert fromF[1..] == [];
    assert FirstReached(fromF, c) == "F";
    assert fromD[1..] == fromF;
    assert FirstReached(fromD, c) == if c >= 0.6 then "D" else "F";
    assert fromC[1..] == fromD;
    assert FirstReached(fromC, c) == if c >= 0.7 then "C" else FirstReached(fromD, c);
    assert fromB[1..] == fromC;
    assert FirstReached(fromB, c) == if c >= 0.8 then "B" else FirstReached(fromC, c);
    assert fromA[1..] == fromB;
    assert DefaultGradingScale() == fromA;
  }

  /** With the default scale: A from 0.9, B from 0.8, C from 0.7, D from
      0.6, F below (scores outside [0, 1] count as the nearest bound). */
  lemma DefaultGrades(score: real)
    ensures var grade := CalculateGrade(NewGenerator(None), score);
      && (score >= 0.9 ==> grade == "A")
      && (0.8 <= score < 0.9 ==> grade == "B")
      && (0.7 <= score < 0.8 ==> grade == "C")
      && (0.6 <= score < 0.7 ==> grade == "D")
      && (score < 0.6 ==> grade == "F")
  {
    var c := Clamp(score, 0.0, 1.0);
    DefaultScaleSorted();
    DefaultScaleBands(c);
    assert CalculateGrade(NewGenerator(None), score) == FirstReached(DefaultGradingScale(), c);
  }

  /** `_get_mastery_level(mastery)` */
  function MasteryLevel(mastery: real): (level: string)
    ensures level in ["Novice", "Basic", "Developing", "Proficient", "Expert"]
    ensures LevelRank(level) >= 3 <==> mastery >= 0.8
    ensures level == "Novice" <==> mastery < 0.5
  {
    if mastery >= 0.9 then "Expert"
    else if mastery >= 0.8 then "Proficient"
    else if mastery >= 0.7 then "Developing"
    else if mastery >= 0.5 then "Basic"
    else "Novice"
  }

  /** The levels in increasing order. */
  function LevelRank(level: string): nat {
    if level == "Novice" then 0
    else if level == "Basic" then 1
    else if level == "Developing" then 2
    else if level == "Proficient" then 3
    else 4
  }

  /** The level never drops as mastery grows, and it is "Proficient" or
      "Expert" exactly from the default mastery threshold 0.8 on. */
  lemma MasteryLevelMonotone(m1: real, m2: real)
    requires m1 <= m2
    ensures LevelRank(MasteryLevel(m1)) <= LevelRank(MasteryLevel(m2))
    ensures MasteryLevel(m1) in ["Proficient", "Expert"] <==> m1 >= 0.8
  {
  }

  // ---------------------------------------------------------------------
  // Question performance
  // ---------------------------------------------------------------------

  datatype QuestionPerformance = QuestionPerformance(
    questionId: string,
    text: string,
    isCorrect: bool,
    cognitiveSkills: seq<string>,
    knowledgeComponents: seq<(string, string)>)

  /** `{q.get("question_id"): q for q in questions}`: a later question with
      the same id replaces an earlier one. */
  function QuestionIndex(questions: seq<Question>): seq<(Option<string>, Question)> {
    if questions == [] then []
    else
      var last := questions[|questions| - 1];
      Put(QuestionIndex(questions[..|questions| - 1]), last.questionId, last)
  }

  /** The record for an interaction and the question it resolves to. */
  function PerformanceOf(i: Interaction, q: Question): QuestionPerformance {
    var components := q.knowledgeComponents.GetOr([]);
    QuestionPerformance(
      i.questionId, q.text, i.isCorrect, q.cognitiveSkills.GetOr([]),
      seq(|components|, k requires 0 <= k < |components| => (components[k].id, components[k].name.GetOr(""))))
  }

  /** The records of the interactions that resolve, in interaction order. */
  function PerformanceRecords(index: seq<(Option<string>, Question)>, interactions: seq<Interaction>): seq<QuestionPerformance> {
    if interactions == [] then []
    else
      var last := interactions[|interactions| - 1];
      var front := PerformanceRecords(index, interactions[..|interactions| - 1]);
      match Lookup(index, Some(last.questionId))
      case None => front
      case Some(q) => front + [PerformanceOf(last, q)]
  }

  /** What `_analyze_question_performance(assessment, interactions)` returns. */
  function QuestionPerformanceOf(a: Assessment, interactions: seq<Interaction>): seq<QuestionPerformance> {
    PerformanceRecords(QuestionIndex(a.questions.GetOr([])), interactions)
  }

  /** `_analyze_question_performance(assessment, interactions)` */
  method AnalyzeQuestionPerformance(a: Assessment, interactions: seq<Interaction>) returns (performance: seq<QuestionPerformance>)
    ensures performance == QuestionPerformanceOf(a, interactions)
  {
    var index := QuestionIndex(a.questions.GetOr([]));
    performance := [];
    var j := 0;
    while j < |interactions|
      invariant 0 <= j <= |interactions|
      invariant performance == PerformanceRecords(index, interactions[..j])
    {
      assert interactions[..j + 1][..j] == interactions[..j];
      var interaction := interactions[j];
      var question := Lookup(index, Some(interaction.questionId));
      if question.Some? {
        performance := performance + [PerformanceOf(interaction, question.value)];
      }
      j := j + 1;
    }
    assert interactions[..|interactions|] == interactions;
  }

  /** The ids of the questions, in order. */
  function QuestionIds(questions: seq<Question>): seq<Option<string>> {
    seq(|questions|, k requires 0 <= k < |questions| => questions[k].questionId)
  }

  /** An id resolves exactly when some question carries it ... */
  lemma {:induction false} QuestionIndexResolves(questions: seq<Question>, id: Option<string>)
    ensures Lookup(QuestionIndex(questions), id).Some? <==> id in QuestionIds(questions)
    decreases |questions|
  {
    if questions != [] {
      var front, last := questions[..|questions| - 1], questions[|questions| - 1];
      var ids, frontIds := QuestionIds(questions), QuestionIds(front);
      assert ids == frontIds + [last.questionId];
      assert id in ids <==> id == last.questionId || id in frontIds;
      assert QuestionIndex(questions) == Put(QuestionIndex(front), last.questionId, last);
      QuestionIndexResolves(front, id);
      LookupPut(QuestionIndex(front), last.questionId, last, id);
    }
  }

  /** ... and then to the last question carrying it. */
  lemma {:induction false} QuestionIndexLast(questions: seq<Question>, id: Option<string>, j: nat)
    requires j < |questions| && questions[j].questionId == id
    requires forall k :: j < k < |questions| ==> questions[k].questionId != id
    ensures Lookup(QuestionIndex(questions), id) == Some(questions[j])
    decreases |questions|
  {
    var front, last := questions[..|questions| - 1], questions[|questions| - 1];
    LookupPut(QuestionIndex(front), last.questionId, last, id);
    if j < |front| {
      assert front[j] == questions[j];
      forall k | j < k < |front| ensures front[k].questionId != id {
        assert front[k] == questions[k];
      }
      QuestionIndexLast(front, id, j);
    }
  }

  /** Whether an interaction's question id names a question of the index. */
  predicate Resolves(index: seq<(Option<string>, Question)>, i: Interaction) {
    Lookup(index, Some(i.questionId)).Some?
  }

  /** Never more records than interactions. */
  lemma {:induction false} PerformanceRecordsBound(index: seq<(Option<string>, Question)>, interactions: seq<Interaction>)
    ensures |PerformanceRecords(index, interactions)| <= |interactions|
    decreases |interactions|
  {
    if interactions != [] {
      PerformanceRecordsBound(index, interactions[..|interactions| - 1]);
    }
  }

  /** When every interaction resolves, record k is interaction k's. */
  lemma {:induction false} PerformanceRecordsAllResolve(index: seq<(Option<string>, Question)>, interactions: seq<Interaction>)
    requires forall k :: 0 <= k < |interactions| ==> Lookup(index, Some(interactions[k].questionId)).Some?
    ensures |PerformanceRecords(index, interactions)| == |interactions|
    ensures forall k :: 0 <= k < |interactions| ==>
      PerformanceRecords(index, interactions)[k] == PerformanceOf(interactions[k], Lookup(index, Some(interactions[k].questionId)).value)
    decreases |interactions|
  {
    if interactions != [] {
      var front, last := interactions[..|interactions| - 1], interactions[|interactions| - 1];
      forall k | 0 <= k < |front| ensures Lookup(index, Some(front[k].questionId)).Some? {
        assert front[k] == interactions[k];
      }
      PerformanceRecordsAllResolve(index, front);
      var q := Lookup(index, Some(last.questionId)).value;
      var rf := PerformanceRecords(index, front);
      assert PerformanceRecords(index, interactions) == rf + [PerformanceOf(last, q)];
      forall k | 0 <= k < |interactions|
        ensures PerformanceRecords(index, interactions)[k] == PerformanceOf(interactions[k], Lookup(index, Some(interactions[k].questionId)).value)
      {
        if k < |front| {
          assert front[k] == interactions[k];
        }
      }
    }
  }

  /** When no interaction resolves, there is no record. */
  lemma {:induction false} PerformanceRecordsNoneResolve(index: seq<(Option<string>, Question)>, interactions: seq<Interaction>)
    requires forall k :: 0 <= k < |interactions| ==> !Resolves(index, interactions[k])
    ensures PerformanceRecords(index, interactions) == []
    decreases |interactions|
  {
    if interactions != [] {
      var front, last := interactions[..|interactions| - 1], interactions[|interactions| - 1];
      assert forall k :: 0 <= k < |front| ==> front[k] == interactions[k];
      PerformanceRecordsNoneResolve(index, front);
      assert !Resolves(index, last);
    }
  }

  /** Every record joins a resolving interaction with the question its id
      resolves to. */
  lemma {:induction false} PerformanceRecordsMembers(index: seq<(Option<string>, Question)>, interactions: seq<Interaction>)
    ensures forall r :: r in PerformanceRecords(index, interactions) ==>
      exists k :: 0 <= k < |interactions| && Resolves(index, interactions[k]) &&
        r == PerformanceOf(interactions[k], Lookup(index, Some(interactions[k].questionId)).value)
    decreases |interactions|
  {
    if interactions != [] {
      var front, last := interactions[..|interactions| - 1], interactions[|interactions| - 1];
      PerformanceRecordsMembers(index, front);
      var rf := PerformanceRecords(index, front);
      var r := PerformanceRecords(index, interactions);
      forall x | x in r ensures exists k :: (0 <= k < |interactions| && Resolves(index, interactions[k]) &&
          x == PerformanceOf(interactions[k], Lookup(index, Some(interactions[k].questionId)).value))
      {
        if x in rf {
          var k :| 0 <= k < |front| && Resolves(index, front[k]) &&
            x == PerformanceOf(front[k], Lookup(index, Some(front[k].questionId)).value);
          assert interactions[k] == front[k];
        } else {
          assert Resolves(index, last);
          assert interactions[|interactions| - 1] == last;
        }
      }
    }
  }

  /** A single interaction yields its record when its id resolves and
      nothing otherwise. */
  lemma PerformanceRecordsSingle(index: seq<(Option<string>, Question)>, i: Interaction)
    ensures PerformanceRecords(index, [i]) ==
      if Lookup(index, Some(i.questionId)).Some? then [PerformanceOf(i, Lookup(index, Some(i.questionId)).value)] else []
  {
    assert [i][..0] == [];
  }

  /** The records keep the order of the interactions: those of a
      concatenation are the records of the first part followed by those of
      the second. */
  lemma {:induction false} PerformanceRecordsAppend(index: seq<(Option<string>, Question)>, s: seq<Interaction>, t: seq<Interaction>)
    ensures PerformanceRecords(index, s + t) == PerformanceRecords(index, s) + PerformanceRecords(index, t)
    decreases |t|
  {
    if t == [] {
      assert s + t == s;
    } else {
      var front, last := t[..|t| - 1], t[|t| - 1];
      assert t == front + [last];
      assert s + t == (s + front) + [last];
      PerformanceRecordsAppend(index, s, front);
      PerformanceRecordsSnoc(index, s + front, last);
      PerformanceRecordsSnoc(index, front, last);
    }
  }

  /** One more interaction adds its own records at the end. */
  lemma PerformanceRecordsSnoc(index: seq<(Option<string>, Question)>, s: seq<Interaction>, i: Interaction)
    ensures PerformanceRecords(index, s + [i]) == PerformanceRecords(index, s) + PerformanceRecords(index, [i])
  {
    assert (s + [i])[..|s|] == s;
    PerformanceRecordsSingle(index, i);
  }

  /** `_analyze_question_performance`: never more records than
      interactions; when every interaction names a question of the
      assessment, one record per interaction in the same order, with its id
      and verdict; when none does, no record. */
  lemma QuestionPerformanceSpec(a: Assessment, interactions: seq<Interaction>)
    ensures |QuestionPerformanceOf(a, interactions)| <= |interactions|
    ensures (forall k :: 0 <= k < |interactions| ==> Some(interactions[k].questionId) in QuestionIds(a.questions.GetOr([]))) ==>
      && |QuestionPerformanceOf(a, interactions)| == |interactions|
      && forall k :: 0 <= k < |interactions| ==>
           && QuestionPerformanceOf(a, interactions)[k].questionId == interactions[k].questionId
           && QuestionPerformanceOf(a, interactions)[k].isCorrect == interactions[k].isCorrect
    ensures (forall k :: 0 <= k < |interactions| ==> Some(interactions[k].questionId) !in QuestionIds(a.questions.GetOr([]))) ==>
      QuestionPerformanceOf(a, interactions) == []
  {
    var qs := a.questions.GetOr([]);
    var index := QuestionIndex(qs);
    forall k | 0 <= k < |interactions|
      ensures Lookup(index, Some(interactions[k].questionId)).Some? <==> Some(interactions[k].questionId) in QuestionIds(qs)
    {
      QuestionIndexResolves(qs, Some(interactions[k].questionId));
    }
    PerformanceRecordsBound(index, interactions);
    if forall k :: 0 <= k < |interactions| ==> Some(interactions[k].questionId) in QuestionIds(qs) {
      PerformanceRecordsAllResolve(index, interactions);
    }
    if forall k :: 0 <= k < |interactions| ==> Some(interactions[k].questionId) !in QuestionIds(qs) {
      PerformanceRecordsNoneResolve(index, interactions);
    }
  }

  // ---------------------------------------------------------------------
  // Knowledge-component analysis
  // ---------------------------------------------------------------------

  datatype ComponentAnalysis = ComponentAnalysis(
    componentId: string,
    name: string,
    category: string,
    subject: string,
    mastery: real,
    masteryLevel: string)

  /** The components of all questions, question by question. */
  function AllComponents(questions: seq<Question>): seq<Component> {
    if questions == [] then []
    else AllComponents(questions[..|questions| - 1]) + questions[|questions| - 1].knowledgeComponents.GetOr([])
  }

  /** `component_map`: id -> the first component carrying it (empty ids
      skipped). */
  function FirstById(components: seq<Component>): seq<(string, Component)> {
    if components == [] then []
    else RecordFirst(FirstById(components[..|components| - 1]), components[|components| - 1])
  }

  /** One component seen: recorded when its id is new and not empty. */
  function RecordFirst(m: seq<(string, Component)>, c: Component): seq<(string, Component)> {
    if c.id != "" && c.id !in Keys(m) then Put(m, c.id, c) else m
  }

  /** The analysis record of a knowledge-state entry with its details. */
  function AnalysisOf(c: Component, entry: (string, real)): ComponentAnalysis {
    ComponentAnalysis(entry.0, c.name.GetOr(ComponentDisplayName(entry.0)), c.category, c.subject, entry.1, MasteryLevel(entry.1))
  }

  /** The records of the knowledge-state entries the map knows, in
      knowledge-state order. */
  function Analyses(componentMap: seq<(string, Component)>, knowledgeState: seq<(string, real)>): seq<ComponentAnalysis> {
    if knowledgeState == [] then []
    else
      var last := knowledgeState[|knowledgeState| - 1];
      Analyses(componentMap, knowledgeState[..|knowledgeState| - 1]) +
        (if last.0 in Keys(componentMap) then [AnalysisOf(Get(componentMap, last.0), last)] else [])
  }

  function AnalysisMastery(c: ComponentAnalysis): real { c.mastery }

  /** What `_analyze_knowledge_components(assessment, knowledge_state)`
      returns. */
  function ComponentAnalysesOf(a: Assessment, knowledgeState: seq<(string, real)>): seq<ComponentAnalysis> {
    SortBy(Analyses(FirstById(AllComponents(a.questions.GetOr([]))), knowledgeState), AnalysisMastery)
  }

  /** One more component: recorded when its id is new and not empty. */
  lemma FirstByIdStep(done: seq<Component>, c: Component)
    ensures FirstById(done + [c]) == RecordFirst(FirstById(done), c)
  {
    assert (done + [c])[..|done + [c]| - 1] == done;
  }

  /** The same step, one component further into a question's list. */
  lemma FirstByIdNext(done: seq<Component>, kcs: seq<Component>, j: nat)
    requires j < |kcs|
    ensures FirstById(done + kcs[..j + 1]) == RecordFirst(FirstById(done + kcs[..j]), kcs[j])
  {
    assert done + kcs[..j + 1] == (done + kcs[..j]) + [kcs[j]];
    FirstByIdStep(done + kcs[..j], kcs[j]);
  }

  /** The inner loop of the component map: one question's components. */
  method AddComponents(componentMap: seq<(string, Component)>, kcs: seq<Component>, ghost done: seq<Component>)
    returns (extended: seq<(string, Component)>)
    requires componentMap == FirstById(done)
    ensures extended == FirstById(done + kcs)
  {
    extended := componentMap;
    assert done + kcs[..0] == done;
    var j := 0;
    while j < |kcs|
      invariant 0 <= j <= |kcs|
      invariant extended == FirstById(done + kcs[..j])
    {
      var c := kcs[j];
      FirstByIdNext(done, kcs, j);
      if c.id != "" && c.id !in Keys(extended) {
        extended := Put(extended, c.id, c);
      }
      j := j + 1;
    }
    assert kcs[..|kcs|] == kcs;
  }

  /** `component_map`, built question by question. */
  method BuildComponentMap(questions: seq<Question>) returns (componentMap: seq<(string, Component)>)
    ensures componentMap == FirstById(AllComponents(questions))
  {
    componentMap := [];
    var i := 0;
    while i < |questions|
      invariant 0 <= i <= |questions|
      invariant componentMap == FirstById(AllComponents(questions[..i]))
    {
      assert questions[..i + 1][..i] == questions[..i];
      var kcs := questions[i].knowledgeComponents.GetOr([]);
      componentMap := AddComponents(componentMap, kcs, AllComponents(questions[..i]));
      i := i + 1;
    }
    assert questions[..|questions|] == questions;
  }

  /** The loop over the knowledge state. */
  method CollectAnalyses(componentMap: seq<(string, Component)>, knowledgeState: seq<(string, real)>)
    returns (analyses: seq<ComponentAnalysis>)
    ensures analyses == Analyses(componentMap, knowledgeState)
  {
    analyses := [];
    var i := 0;
    while i < |knowledgeState|
      invariant 0 <= i <= |knowledgeState|
      invariant analyses == Analyses(componentMap, knowledgeState[..i])
    {
      assert knowledgeState[..i + 1][..i] == knowledgeState[..i];
      var id, mastery := knowledgeState[i].0, knowledgeState[i].1;
      if id in Keys(componentMap) {
        var kc := Get(componentMap, id);
        analyses := analyses + [ComponentAnalysis(id, kc.name.GetOr(ComponentDisplayName(id)), kc.category, kc.subject, mastery, MasteryLevel(mastery))];
      }
      i := i + 1;
    }
    assert knowledgeState[..|knowledgeState|] == knowledgeState;
  }

  /** `_analyze_knowledge_components(assessment, knowledge_state)` */
  method AnalyzeKnowledgeComponents(a: Assessment, knowledgeState: seq<(string, real)>) returns (components: seq<ComponentAnalysis>)
    ensures components == ComponentAnalysesOf(a, knowledgeState)
  {
    var componentMap := BuildComponentMap(a.questions.GetOr([]));
    var analyses := CollectAnalyses(componentMap, knowledgeState);
    components := SortBy(analyses, AnalysisMastery);
  }

  /** The flattened list holds exactly the components of the questions ... */
  lemma {:induction false} AllComponentsMembers(questions: seq<Question>)
    ensures forall c :: c in AllComponents(questions) <==>
      exists k :: 0 <= k < |questions| && c in questions[k].knowledgeComponents.GetOr([])
    decreases |questions|
  {
    if questions != [] {
      var front := questions[..|questions| - 1];
      AllComponentsMembers(front);
      var tail := questions[|questions| - 1].knowledgeComponents.GetOr([]);
      assert AllComponents(questions) == AllComponents(front) + tail;
      forall c ensures c in AllComponents(questions) <==>
        exists k :: 0 <= k < |questions| && c in questions[k].knowledgeComponents.GetOr([])
      {
        if exists k :: 0 <= k < |front| && c in front[k].knowledgeComponents.GetOr([]) {
          var k :| 0 <= k < |front| && c in front[k].knowledgeComponents.GetOr([]);
          assert questions[k] == front[k];
        }
        if exists k :: 0 <= k < |questions| && c in questions[k].knowledgeComponents.GetOr([]) {
          var k :| 0 <= k < |questions| && c in questions[k].knowledgeComponents.GetOr([]);
          if k < |front| {
            assert front[k] == questions[k];
          } else {
            assert k == |questions| - 1;
          }
        }
      }
    }
  }

  /** ... with a question's components after those of every earlier
      question. */
  lemma {:induction false} AllComponentsOrder(questions: seq<Question>, k: nat)
    requires k < |questions|
    ensures AllComponents(questions[..k]) + questions[k].knowledgeComponents.GetOr([]) <= AllComponents(questions)
    decreases |questions|
  {
    var front := questions[..|questions| - 1];
    if k < |front| {
      AllComponentsOrder(front, k);
      assert questions[..k] == front[..k];
      assert questions[k] == front[k];
    } else {
      assert questions[..k] == front;
    }
  }

  /** The map holds each non-empty id of the components, once ... */
  lemma {:induction false} FirstByIdKeys(components: seq<Component>)
    ensures forall id :: id in Keys(FirstById(components)) <==>
      id != "" && exists k :: 0 <= k < |components| && components[k].id == id
    decreases |components|
  {
    if components != [] {
      var front, c := components[..|components| - 1], components[|components| - 1];
      FirstByIdKeys(front);
      var mf := FirstById(front);
      var m := FirstById(components);
      assert Keys(m) == if c.id != "" && c.id !in Keys(mf) then Keys(mf) + [c.id] else Keys(mf);
      forall id ensures id in Keys(m) <==> id != "" && exists k :: 0 <= k < |components| && components[k].id == id {
        if id in Keys(mf) {
          var k :| 0 <= k < |front| && front[k].id == id;
          assert components[k] == front[k];
        }
        if id != "" && exists k :: 0 <= k < |components| && components[k].id == id {
          var k :| 0 <= k < |components| && components[k].id == id;
          if k < |front| {
            assert front[k] == components[k];
          } else {
            assert k == |components| - 1;
          }
        }
      }
    }
  }

  /** ... each of them once, ... */
  lemma {:induction false} FirstByIdDistinct(components: seq<Component>)
    ensures DistinctKeys(FirstById(components))
    decreases |components|
  {
    if components != [] {
      var front, c := components[..|components| - 1], components[|components| - 1];
      FirstByIdDistinct(front);
      if c.id != "" && c.id !in Keys(FirstById(front)) {
        PutDistinct(FirstById(front), c.id, c);
      }
    }
  }

  /** ... with the first component carrying it. */
  lemma {:induction false} FirstByIdFirst(components: seq<Component>)
    ensures forall id :: id in Keys(FirstById(components)) ==>
      exists k :: 0 <= k < |components| && components[k].id == id && Get(FirstById(components), id) == components[k] &&
        forall j :: 0 <= j < k ==> components[j].id != id
    decreases |components|
  {
    if components != [] {
      var front, c := components[..|components| - 1], components[|components| - 1];
      FirstByIdFirst(front);
      FirstByIdKeys(front);
      var mf := FirstById(front);
      var m := FirstById(components);
      forall id | id in Keys(m) ensures exists k :: (0 <= k < |components| && components[k].id == id && Get(m, id) == components[k] &&
          forall j :: 0 <= j < k ==> components[j].id != id)
      {
        if id in Keys(mf) {
          var k :| 0 <= k < |front| && front[k].id == id && Get(mf, id) == front[k] &&
            forall j :: 0 <= j < k ==> front[j].id != id;
          assert Get(m, id) == Get(mf, id);
          assert components[k] == front[k];
          assert forall j :: 0 <= j < k ==> components[j] == front[j];
        } else {
          assert id == c.id && Get(m, id) == c;
          assert forall j :: 0 <= j < |front| ==> front[j].id != id;
          assert forall j :: 0 <= j < |front| ==> components[j] == front[j];
        }
      }
    }
  }

  /** The unsorted records are exactly one per knowledge-state entry whose id
      the map knows. */
  lemma {:induction false} AnalysesMembers(componentMap: seq<(string, Component)>, knowledgeState: seq<(string, real)>)
    ensures forall x :: x in Analyses(componentMap, knowledgeState) <==>
      exists k :: 0 <= k < |knowledgeState| && knowledgeState[k].0 in Keys(componentMap) &&
        x == AnalysisOf(Get(componentMap, knowledgeState[k].0), knowledgeState[k])
    decreases |knowledgeState|
  {
    if knowledgeState != [] {
      var front, last := knowledgeState[..|knowledgeState| - 1], knowledgeState[|knowledgeState| - 1];
      AnalysesMembers(componentMap, front);
      assert Analyses(componentMap, knowledgeState) == Analyses(componentMap, front) +
        (if last.0 in Keys(componentMap) then [AnalysisOf(Get(componentMap, last.0), last)] else []);
      forall x ensures x in Analyses(componentMap, knowledgeState) <==>
        exists k :: 0 <= k < |knowledgeState| && knowledgeState[k].0 in Keys(componentMap) &&
          x == AnalysisOf(Get(componentMap, knowledgeState[k].0), knowledgeState[k])
      {
        if x in Analyses(componentMap, front) {
          var k :| 0 <= k < |front| && front[k].0 in Keys(componentMap) && x == AnalysisOf(Get(componentMap, front[k].0), front[k]);
          assert knowledgeState[k] == front[k];
        }
        if exists k :: 0 <= k < |knowledgeState| && knowledgeState[k].0 in Keys(componentMap) &&
             x == AnalysisOf(Get(componentMap, knowledgeState[k].0), knowledgeState[k]) {
          var k :| 0 <= k < |knowledgeState| && knowledgeState[k].0 in Keys(componentMap) &&
            x == AnalysisOf(Get(componentMap, knowledgeState[k].0), knowledgeState[k]);
          if k < |front| {
            assert front[k] == knowledgeState[k];
          } else {
            assert k == |knowledgeState| - 1;
          }
        }
      }
    }
  }

  /** The analysis covers exactly the knowledge-state ids that some question
      of the assessment mentions, with the details of the first component
      carrying the id and the level of the mastery; it is sorted by
      increasing mastery, a permutation of the records in knowledge-state
      order, with ties kept in that order. */
  lemma ComponentAnalysesSpec(a: Assessment, knowledgeState: seq<(string, real)>)
    ensures var all := AllComponents(a.questions.GetOr([]));
      var m := FirstById(all);
      var r := ComponentAnalysesOf(a, knowledgeState);
      && (forall x :: x in r <==>
            exists k :: 0 <= k < |knowledgeState| && knowledgeState[k].0 in Keys(m) &&
              x == AnalysisOf(Get(m, knowledgeState[k].0), knowledgeState[k]))
      && (forall id :: id in Keys(m) <==> id != "" && exists k :: 0 <= k < |all| && all[k].id == id)
      && (forall id :: id in Keys(m) ==>
            exists k :: 0 <= k < |all| && all[k].id == id && Get(m, id) == all[k] && forall j :: 0 <= j < k ==> all[j].id != id)
      && (forall x :: x in r ==> x.masteryLevel == MasteryLevel(x.mastery))
      && multiset(r) == multiset(Analyses(m, knowledgeState))
      && (forall i, j :: 0 <= i < j < |r| ==> r[i].mastery <= r[j].mastery)
      && (forall v :: WithKey(r, AnalysisMastery, v) == WithKey(Analyses(m, knowledgeState), AnalysisMastery, v))
  {
    var m := FirstById(AllComponents(a.questions.GetOr([])));
    var u := Analyses(m, knowledgeState);
    var r := ComponentAnalysesOf(a, knowledgeState);
    FirstByIdKeys(AllComponents(a.questions.GetOr([])));
    FirstByIdFirst(AllComponents(a.questions.GetOr([])));
    AnalysesMembers(m, knowledgeState);
    SortBySorted(u, AnalysisMastery);
    forall x ensures x in r <==> x in u {
      assert x in r <==> x in multiset(r);
    }
    forall v ensures WithKey(r, AnalysisMastery, v) == WithKey(u, AnalysisMastery, v) {
      SortByStable(u, AnalysisMastery, v);
    }
  }

  // ---------------------------------------------------------------------
  // Recommendations
  // ---------------------------------------------------------------------

  datatype ReportRecommendation = ReportRecommendation(
    componentId: string,
    componentName: string,
    currentMastery: real,
    targetMastery: real,
    text: string)

  /** `[c for c in components if c["mastery"] < threshold]` */
  function Focus(components: seq<ComponentAnalysis>, threshold: real): seq<ComponentAnalysis> {
    if components == [] then []
    else
      var last := components[|components| - 1];
      Focus(components[..|components| - 1], threshold) + (if last.mastery < threshold then [last] else [])
  }

  function RecommendationOf(c: ComponentAnalysis, threshold: real): ReportRecommendation {
    ReportRecommendation(c.componentId, c.name, c.mastery, threshold, "Focus on " + c.name + " skills to improve mastery")
  }

  /** What `_generate_recommendations(components)` returns. */
  function RecommendationsOf(g: Generator, components: seq<ComponentAnalysis>): seq<ReportRecommendation> {
    var focus := Focus(components, g.masteryThreshold);
    var top := if |focus| <= 3 then focus else focus[..3];
    seq(|top|, k requires 0 <= k < |top| => RecommendationOf(top[k], g.masteryThreshold))
  }

  /** `_generate_recommendations(components)` */
  method GenerateRecommendations(g: Generator, components: seq<ComponentAnalysis>) returns (recommendations: seq<ReportRecommendation>)
    ensures recommendations == RecommendationsOf(g, components)
  {
    var focus := Focus(components, g.masteryThreshold);
    var top := if |focus| <= 3 then focus else focus[..3];
    recommendations := [];
    var k := 0;
    while k < |top|
      invariant 0 <= k <= |top|
      invariant |recommendations| == k
      invariant forall j :: 0 <= j < k ==> recommendations[j] == RecommendationOf(top[j], g.masteryThreshold)
    {
      var c := top[k];
      recommendations := recommendations + [ReportRecommendation(c.componentId, c.name, c.mastery, g.masteryThreshold,
                                                                "Focus on " + c.name + " skills to improve mastery")];
      k := k + 1;
    }
  }

  /** The focus list keeps exactly the components below the threshold ... */
  lemma {:induction false} FocusMembers(components: seq<ComponentAnalysis>, threshold: real)
    ensures forall c :: c in Focus(components, threshold) <==> c in components && c.mastery < threshold
    ensures |Focus(components, threshold)| <= |components|
    decreases |components|
  {
    if components != [] {
      var front, last := components[..|components| - 1], components[|components| - 1];
      FocusMembers(front, threshold);
      assert components == front + [last];
    }
  }

  /** ... and keeps their order, so it is sorted when they are. */
  lemma {:induction false} FocusSorted(components: seq<ComponentAnalysis>, threshold: real)
    requires SortedBy(components, AnalysisMastery)
    ensures SortedBy(Focus(components, threshold), AnalysisMastery)
    decreases |components|
  {
    if components != [] {
      var front, last := components[..|components| - 1], components[|components| - 1];
      assert SortedBy(front, AnalysisMastery);
      FocusSorted(front, threshold);
      var f := Focus(front, threshold);
      if last.mastery < threshold {
        var r := f + [last];
        assert Focus(components, threshold) == r;
        FocusMembers(front, threshold);
        forall i, j | 0 <= i < j < |r| ensures AnalysisMastery(r[i]) <= AnalysisMastery(r[j]) {
          assert r[i] == f[i] && f[i] in front;
          if j < |f| {
            assert r[j] == f[j];
          } else {
            var k :| 0 <= k < |front| && front[k] == f[i];
            assert components[k] == f[i];
          }
        }
      } else {
        assert Focus(components, threshold) == f;
      }
    }
  }

  /** At most three recommendations, three whenever three components are
      below the threshold; each for a component below the threshold with the
      threshold as target; they are the first such components, so for
      components sorted by increasing mastery, no component left out is
      below the threshold with a lower mastery. */
  lemma RecommendationsSpec(g: Generator, components: seq<ComponentAnalysis>)
    ensures var r := RecommendationsOf(g, components);
      var focus := Focus(components, g.masteryThreshold);
      && |r| <= 3
      && |r| == (if |focus| <= 3 then |focus| else 3)
      && (forall k :: 0 <= k < |r| ==> r[k] == RecommendationOf(focus[k], g.masteryThreshold))
      && (forall k :: 0 <= k < |r| ==> r[k].currentMastery < g.masteryThreshold && r[k].targetMastery == g.masteryThreshold)
      && (forall k :: 0 <= k < |r| ==> exists c :: c in components && c.componentId == r[k].componentId && c.mastery == r[k].currentMastery)
      && (SortedBy(components, AnalysisMastery) ==>
            forall k, j :: 0 <= k < |r| <= j < |focus| ==> r[k].currentMastery <= focus[j].mastery)
  {
    var focus := Focus(components, g.masteryThreshold);
    FocusMembers(components, g.masteryThreshold);
    if SortedBy(components, AnalysisMastery) {
      FocusSorted(components, g.masteryThreshold);
    }
    var r := RecommendationsOf(g, components);
    forall k | 0 <= k < |r| ensures focus[k] in focus { }
  }

  // ---------------------------------------------------------------------
  // The report
  // ---------------------------------------------------------------------

  datatype OverallPerformance = OverallPerformance(correctCount: nat, totalQuestions: nat, percentage: real, grade: string)

  datatype Report = Report(
    reportId: string,
    studentId: string,
    assessmentId: Option<string>,
    assessmentTitle: string,
    generatedAt: string,
    overall: Option<OverallPerformance>,
    questionPerformance: seq<QuestionPerformance>,
    knowledgeComponents: seq<ComponentAnalysis>,
    recommendations: seq<ReportRecommendation>)

  /** `sum(1 for i in interactions if i["is_correct"])` */
  function CorrectCount(interactions: seq<Interaction>): nat {
    if interactions == [] then 0
    else CorrectCount(interactions[..|interactions| - 1]) + (if interactions[|interactions| - 1].isCorrect then 1 else 0)
  }

  /** The overall block: none without interactions. */
  function OverallOf(g: Generator, interactions: seq<Interaction>): Option<OverallPerformance> {
    var total := |interactions|;
    if total == 0 then None
    else
      var correct := CorrectCount(interactions);
      var score := correct as real / total as real;
      Some(OverallPerformance(correct, total, score * 100.0, CalculateGrade(g, score)))
  }

  /** What `generate_report(student_id, assessment, interactions,
      knowledge_state)` returns, with the report id and clock reading given. */
  function ReportOf(g: Generator, studentId: string, a: Assessment, interactions: seq<Interaction>,
                    knowledgeState: seq<(string, real)>, reportId: string, now: string): Report
  {
    var analyses := ComponentAnalysesOf(a, knowledgeState);
    Report(reportId, studentId, a.assessmentId, a.title.GetOr("Untitled Assessment"), now,
           OverallOf(g, interactions), QuestionPerformanceOf(a, interactions), analyses, RecommendationsOf(g, analyses))
  }

  /** The overall block of `generate_report`. */
  method ComputeOverall(g: Generator, interactions: seq<Interaction>) returns (overall: Option<OverallPerformance>)
    ensures overall == OverallOf(g, interactions)
  {
    var correct := 0;
    var j := 0;
    while j < |interactions|
      invariant 0 <= j <= |interactions|
      invariant correct == CorrectCount(interactions[..j])
    {
      assert interactions[..j + 1][..j] == interactions[..j];
      if interactions[j].isCorrect {
        correct := correct + 1;
      }
      j := j + 1;
    }
    assert interactions[..|interactions|] == interactions;
    var total := |interactions|;
    if total > 0 {
      var score := correct as real / total as real;
      overall := Some(OverallPerformance(correct, total, score * 100.0, CalculateGrade(g, score)));
    } else {
      overall := None;
    }
  }

  /** `generate_report(student_id, assessment, interactions, knowledge_state)` */
  method GenerateReport(g: Generator, studentId: string, a: Assessment, interactions: seq<Interaction>,
                        knowledgeState: seq<(string, real)>, reportId: string, now: string) returns (report: Report)
    ensures report == ReportOf(g, studentId, a, interactions, knowledgeState, reportId, now)
  {
    var overall := ComputeOverall(g, interactions);
    var performance := AnalyzeQuestionPerformance(a, interactions);
    var analyses := AnalyzeKnowledgeComponents(a, knowledgeState);
    var recommendations := GenerateRecommendations(g, analyses);
    report := Report(reportId, studentId, a.assessmentId, a.title.GetOr("Untitled Assessment"), now,
                     overall, performance, analyses, recommendations);
  }

  lemma {:induction false} CorrectCountBound(interactions: seq<Interaction>)
    ensures CorrectCount(interactions) <= |interactions|
    ensures CorrectCount(interactions) == |interactions| <==> forall k :: 0 <= k < |interactions| ==> interactions[k].isCorrect
    ensures CorrectCount(interactions) == 0 <==> forall k :: 0 <= k < |interactions| ==> !interactions[k].isCorrect
    decreases |interactions|
  {
    if interactions != [] {
      var front := interactions[..|interactions| - 1];
      CorrectCountBound(front);
      assert forall k :: 0 <= k < |front| ==> front[k] == interactions[k];
    }
  }

  /** Without interactions there is no overall block.  Otherwise it counts
      every interaction, at most that many correct ones, a percentage in
      [0, 100] (100 exactly when all are correct, 0 when none is), and the
      grade of the score. */
  lemma OverallSpec(g: Generator, interactions: seq<Interaction>)
    ensures OverallOf(g, interactions).None? <==> interactions == []
    ensures interactions != [] ==>
      var o := OverallOf(g, interactions).value;
      && o.totalQuestions == |interactions|
      && o.correctCount == CorrectCount(interactions) <= o.totalQuestions
      && 0.0 <= o.percentage <= 100.0
      && (o.percentage == 100.0 <==> forall k :: 0 <= k < |interactions| ==> interactions[k].isCorrect)
      && (o.percentage == 0.0 <==> forall k :: 0 <= k < |interactions| ==> !interactions[k].isCorrect)
      && o.grade == CalculateGrade(g, o.correctCount as real / o.totalQuestions as real)
  {
    CorrectCountBound(interactions);
    if interactions != [] {
      PercentageBounds(CorrectCount(interactions), |interactions|);
    }
  }

  /** The percentage of `correct` out of `total` answers. */
  lemma PercentageBounds(correct: nat, total: nat)
    requires 0 < total && correct <= total
    ensures var p := (correct as real / total as real) * 100.0;
      && 0.0 <= p <= 100.0
      && (p == 100.0 <==> correct == total)
      && (p == 0.0 <==> correct == 0)
  {
    var c, t := correct as real, total as real;
    var r := c / t;
    assert r * t == c;
    assert 0.0 <= r;
    assert r <= 1.0;
    if r == 1.0 {
      assert c == t;
    }
    if r == 0.0 {
      assert c == 0.0;
    }
  }

  /** The report's parts fit together: its recommendations are drawn from
      its own component analysis, and the question records come from its
      interactions. */
  lemma ReportSpec(g: Generator, studentId: string, a: Assessment, interactions: seq<Interaction>,
                   knowledgeState: seq<(string, real)>, reportId: string, now: string)
    ensures var r := ReportOf(g, studentId, a, interactions, knowledgeState, reportId, now);
      && r.studentId == studentId && r.assessmentId == a.assessmentId
      && (r.overall.None? <==> interactions == [])
      && |r.questionPerformance| <= |interactions|
      && |r.recommendations| <= 3
      && (forall k :: 0 <= k < |r.recommendations| ==>
            r.recommendations[k].currentMastery < g.masteryThreshold)
      && (forall k :: 0 <= k < |r.recommendations| ==>
            exists c :: c in r.knowledgeComponents && c.componentId == r.recommendations[k].componentId &&
              c.mastery == r.recommendations[k].currentMastery)
  {
    var analyses := ComponentAnalysesOf(a, knowledgeState);
    OverallSpec(g, interactions);
    PerformanceRecordsBound(QuestionIndex(a.questions.GetOr([])), interactions);
    RecommendationsSpec(g, analyses);
  }
}
