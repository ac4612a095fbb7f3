# Assessment knowledge modelling, in Dafny

This project models the assessment pipeline of an adaptive-learning tool and proves properties of it. The pipeline has four parts.

1. **Knowledge tracer.** A Bayesian update of the probability that a student knows a knowledge component (KC). It takes a prior, the outcome of an answer and an optional question difficulty. It returns a clamped posterior and a separate "confidence" signal.
2. **Assessment processor.** It tags each question with cognitive skills, by looking for indicator words in the lower-cased text. It finds knowledge components against a subject → category → skill taxonomy. It estimates a difficulty, judges a response with a rule per question type, and turns one answer into a *trace*: one interaction plus one knowledge update per KC of the question.
3. **Student profile manager.** A read-modify-write over a key-value store of student profiles. Applying a trace does three things:
   - it appends the interaction to the profile's history;
   - it creates or overwrites the KC entries, keeping each entry's initial value and appending one history entry per update;
   - it recomputes the derived metrics (mean mastery, plus the sorted lists of strengths and areas for improvement).

   The manager also serves a subject-filtered view of the knowledge state, and recommendations bucketed by priority and stably sorted.
4. **Report generator.** It computes:
   - a score and a letter grade from a threshold scale;
   - a join of the interactions against the assessment's questions;
   - a KC analysis with mastery labels, sorted by mastery;
   - at most three recommendations.

Layout, one module per file:

| file | module | what it holds |
|---|---|---|
| `Wrappers.dfy` | `Wrappers` | `Option` |
| `Text.dfy` | `Text` | ASCII `lower`, `title`, `strip`, substring search, `replace`, and a decimal `float()` parser |
| `OrderedDict.dfy` | `OrderedDict` | insertion-ordered dictionaries as sequences of pairs; `d[k] = v` is `Put` |
| `StableSort.dfy` | `StableSort` | Python's stable `sort(key=...)` as an insertion sort, proved sorted, a permutation and stable |
| `KnowledgeTracing.dfy` | `KnowledgeTracing` | the tracer (pure functions over `real`) |
| `AssessmentTypes.dfy` | `AssessmentTypes` | questions, assessments, components, interactions and traces |
| `AssessmentProcessor.dfy` | `AssessmentProcessor` | the processor: loops become methods proved against specification functions |
| `StudentProfileManager.dfy` | `StudentProfiles` | the manager: a class whose `store: map<string, Profile>` field stands for the shared state store |
| `ReportGenerator.dfy` | `ReportGenerator` | the report generator: loops become methods proved against specification functions |

Python dictionaries keep insertion order, and that order decides how loops and stable sorts break ties. So every dictionary the code iterates over is a sequence of `(key, value)` pairs with distinct keys. The clock reading and the generated uuids are parameters (`now`, `freshId`, `reportId`, `questionIds`). Floats are `real`.

The confidence rule on `knowledge_tracing.py` lines 62-64 gives `prior + 0.1 * (1 - prior)` whenever the outcome matches the prediction. A prior below 0.5 with an incorrect answer therefore gives a confidence below 0.5: the lemma `KnowledgeTracing.ConfirmedLowPriorConfidence` shows that prior 0.2 and an incorrect answer give 0.28. The processor always passes prior 0.5, so the traces it builds always carry confidence 0.5 (`AssessmentProcessor.FixedPriorUpdate`).

## Model

| member | source | states |
|---|---|---|
| KnowledgeTracing.NewTracer | core/assessment/knowledge_tracing.py:9-17 | both parameters end up in [0.01, 0.5]; an in-range value is kept, one below or above becomes the bound |
| KnowledgeTracing.UpdateKnowledge | core/assessment/knowledge_tracing.py:19-72 | the value lies in [0.01, 0.99] for every prior, outcome and difficulty; the confidence is at most 1, at least 0.5 when the outcome contradicts the prediction, and exactly 0.5 for prior 0.5 |
| KnowledgeTracing.AdjustedBounds | core/assessment/knowledge_tracing.py:35-41 | for a valid tracer, the difficulty-adjusted slip and guess stay in [0.005, 0.5] |
| KnowledgeTracing.DifficultyMonotone | core/assessment/knowledge_tracing.py:38-41 | the adjusted slip never decreases and the adjusted guess never increases as the difficulty grows |
| KnowledgeTracing.DefaultCorrectFromEvenPrior | core/assessment/knowledge_tracing.py:44-54 | with slip 0.1, guess 0.2, prior 0.5, a correct answer and no difficulty, the value is exactly 0.45/0.55 and the confidence 0.5 |
| KnowledgeTracing.ClampMonotone | core/assessment/knowledge_tracing.py:32 | clamping preserves the order of its inputs |
| KnowledgeTracing.DenominatorAboveFloor | core/assessment/knowledge_tracing.py:47-54 | for a clamped prior and valid parameters, P(answer) is at least 0.005, so the 0.001 floor never applies |
| KnowledgeTracing.PosteriorIsRatio | core/assessment/knowledge_tracing.py:54 | then the posterior is exactly Bayes' ratio |
| KnowledgeTracing.CorrectRatioAtLeastPrior | core/assessment/knowledge_tracing.py:46-47 | after a correct answer Bayes' ratio is at least the prior |
| KnowledgeTracing.IncorrectRatioAtMostPrior | core/assessment/knowledge_tracing.py:50-51 | after an incorrect answer Bayes' ratio is at most the prior |
| KnowledgeTracing.OutcomeDirection | core/assessment/knowledge_tracing.py:44-57 | a correct answer never lowers the value below the clamped prior, and an incorrect one never raises it above |
| KnowledgeTracing.PosteriorMonotone | core/assessment/knowledge_tracing.py:44-54 | for a fixed outcome the posterior is non-decreasing in the prior |
| KnowledgeTracing.MonotoneInPrior | core/assessment/knowledge_tracing.py:32-57 | for a fixed outcome and difficulty the returned value is non-decreasing in the prior |
| KnowledgeTracing.ConfirmedLowPriorConfidence | core/assessment/knowledge_tracing.py:62-64 | prior 0.2 with an incorrect answer gives confidence 0.28, below 0.5 |
| Text.ContainsInfix | core/assessment/assessment_processor.py:157 | the substring test finds a word wherever it sits in the text |
| Text.StripLower | core/assessment/assessment_processor.py:336-337 | stripping and lower-casing commute |
| Text.LowerIdempotent | core/assessment/assessment_processor.py:331 | lower-casing twice is lower-casing once |
| Text.StripPadding | core/assessment/assessment_processor.py:336 | surrounding spaces do not change the stripped text |
| Text.ParseDecimalExample | core/assessment/assessment_processor.py:343 | `float("10.005")` is 10.005 |
| Text.ParseDecimalExample2 | core/assessment/assessment_processor.py:343 | `float("10.02")` is 10.02 |
| Text.ParseDecimalRejectsWords | core/assessment/assessment_processor.py:343 | `float("ten")` fails |
| OrderedDict.Put | core/assessment/student_profile_manager.py:97-109 | `d[k] = v` keeps the key order, or appends a new key at the end; `k` then reads `v`, every other key reads as before, and keys stay distinct |
| OrderedDict.LookupPut | core/assessment/student_profile_manager.py:97-109 | `d.get(k')` after `d[k] = v` is `v` for `k` and the old lookup for every other key |
| OrderedDict.PutTwice | core/assessment/student_profile_manager.py:97-118 | assigning a key twice equals assigning the second value once, in the same place |
| StableSort.SortBy | core/assessment/student_profile_manager.py:258 | the sorted list is a permutation of its input |
| StableSort.SortBySorted | core/assessment/student_profile_manager.py:258-261 | the result is sorted by the key |
| StableSort.SortByStable | core/assessment/student_profile_manager.py:208 | elements with equal keys keep their relative order |
| StableSort.SortBySortedIdentity | core/assessment/report_generator.py:115 | sorting a sorted list changes nothing |
| StableSort.SortByMembers | core/assessment/report_generator.py:207 | sorting keeps exactly the elements it was given |
| AssessmentProcessor.IdentifyCognitiveSkills | core/assessment/assessment_processor.py:143-165 | the loop with `break` computes `CognitiveSkillsOf` the taxonomy and the text |
| AssessmentProcessor.DetectedSkillsMembers | core/assessment/assessment_processor.py:155-159 | a skill is detected iff one of its indicators occurs in the text |
| AssessmentProcessor.DetectedSkillsOrdered | core/assessment/assessment_processor.py:155-159 | detected skills follow taxonomy order, each at most once |
| AssessmentProcessor.CognitiveSkillsSpec | core/assessment/assessment_processor.py:152-165 | the list is never empty; it is `["remember"]` when no indicator occurs in the lower-cased text; otherwise it holds exactly the detected skills, without repeats, in taxonomy order |
| AssessmentProcessor.IdentifyKnowledgeComponents | core/assessment/assessment_processor.py:167-205 | the nested loops compute `KnowledgeComponentsOf` the taxonomy, the text and the subject |
| AssessmentProcessor.ScanSkillsExtends | core/assessment/assessment_processor.py:201-203 | scanning only appends to the components found so far |
| AssessmentProcessor.ScanCategoriesExtends | core/assessment/assessment_processor.py:186-203 | the same across categories |
| AssessmentProcessor.ScanSkillsDistinct | core/assessment/assessment_processor.py:201-203 | the duplicate check keeps ids pairwise distinct |
| AssessmentProcessor.ScanCategoriesDistinct | core/assessment/assessment_processor.py:186-203 | the same across categories |
| AssessmentProcessor.ScanSkillsSound | core/assessment/assessment_processor.py:187-199 | every appended component is the record of a listed skill whose phrase occurs in the text |
| AssessmentProcessor.ScanCategoriesSound | core/assessment/assessment_processor.py:186-199 | the same for the whole taxonomy of the subject |
| AssessmentProcessor.ScanSkillsComplete | core/assessment/assessment_processor.py:187-203 | every mentioned skill of a category has its id in the result |
| AssessmentProcessor.ScanCategoriesComplete | core/assessment/assessment_processor.py:186-203 | every mentioned skill of every category has its id in the result |
| AssessmentProcessor.KnowledgeComponentsSpec | core/assessment/assessment_processor.py:177-205 | an unknown subject gives no component; otherwise ids are pairwise distinct, each component is `kc_<subject>_<category>_<skill>` for a skill whose phrase occurs in the lower-cased text, and every such skill is covered |
| AssessmentProcessor.EstimateDifficulty | core/assessment/assessment_processor.py:207-238 | the estimate always lies in [0.1, 0.9] |
| AssessmentProcessor.DifficultySumBounds | core/assessment/assessment_processor.py:218-229 | each skill contributes between 0.2 and 0.9 to the sum |
| AssessmentProcessor.DifficultyWithSkills | core/assessment/assessment_processor.py:228-238 | with at least one skill the estimate is at least 0.14 |
| AssessmentProcessor.DifficultyComponentsMonotone | core/assessment/assessment_processor.py:232-238 | more components never lower the estimate, and beyond ten they no longer change it |
| AssessmentProcessor.DifficultyExamples | core/assessment/assessment_processor.py:218-238 | worked values: 0.14, 0.515, 0.9 and 0.1 |
| AssessmentProcessor.EvaluateCorrectness | core/assessment/assessment_processor.py:305-350 | a missing answer key, an unknown type, or an unparseable number on a numeric question all mean "incorrect" |
| AssessmentProcessor.KeyIsCorrect | core/assessment/assessment_processor.py:316-343 | the answer key itself is judged correct for every known type |
| AssessmentProcessor.VerdictSymmetric | core/assessment/assessment_processor.py:325-326 | for multiple-choice and numeric questions, swapping the response and the key does not change the verdict |
| AssessmentProcessor.StringResponseIgnoresCase | core/assessment/assessment_processor.py:328-338 | true/false and fill-in verdicts ignore the case of a string response |
| AssessmentProcessor.FillInIgnoresPadding | core/assessment/assessment_processor.py:334-338 | fill-in verdicts ignore surrounding white space |
| AssessmentProcessor.ChoiceExamples | core/assessment/assessment_processor.py:325-346 | "TRUE" matches True, "yes" does not, 1 matches True, "1" does not equal 1, an essay question is never correct |
| AssessmentProcessor.FillInExample | core/assessment/assessment_processor.py:334-338 | " paris " matches "Paris" |
| AssessmentProcessor.NumericVerdict | core/assessment/assessment_processor.py:340-343 | a numeric question is correct exactly when the parsed response lies within the tolerance (0.001 by default) of the parsed key |
| AssessmentProcessor.NumericToleranceExamples | core/assessment/assessment_processor.py:340-343 | with tolerance 0.01 against 10.0, "10.005" is accepted, "10.02" is rejected, and "ten" is rejected because it does not parse |
| AssessmentProcessor.NumericDefaultToleranceExamples | core/assessment/assessment_processor.py:340-343 | with no tolerance given, the default 0.001 accepts 10.0005 and rejects 10.002 against 10.0 |
| AssessmentProcessor.ProcessedQuestion | core/assessment/assessment_processor.py:99-141 | keeps an existing id or takes the fresh one; keeps text, type, key and tolerance; always sets both lists; never overwrites a difficulty |
| AssessmentProcessor.ProcessQuestion | core/assessment/assessment_processor.py:110-141 | the copy-and-assign steps compute `ProcessedQuestion` |
| AssessmentProcessor.ProcessQuestionIdempotent | core/assessment/assessment_processor.py:113-119 | an already processed question changes at most by its id, and processing twice equals processing once |
| AssessmentProcessor.ProcessQuestionEmptyText | core/assessment/assessment_processor.py:121-126 | empty text gives two empty lists and no new difficulty |
| AssessmentProcessor.ProcessQuestionWithText | core/assessment/assessment_processor.py:128-139 | with text: at least one skill, distinct component ids, and a difficulty, an estimated one lying in [0.14, 0.9] |
| AssessmentProcessor.ProcessedAssessment | core/assessment/assessment_processor.py:59-91 | keeps an existing id, title, subject and grade level; questions keep their count and order, question k becoming `ProcessedQuestion` of question k; the processing time is set |
| AssessmentProcessor.ProcessAssessment | core/assessment/assessment_processor.py:68-91 | the loop computes `ProcessedAssessment`, question by question in order |
| AssessmentProcessor.ProcessAssessmentIdempotent | core/assessment/assessment_processor.py:72-89 | processing an assessment again only renews its processing time |
| AssessmentProcessor.FixedPriorUpdate | core/assessment/assessment_processor.py:278-293 | every update has prior 0.5 and confidence 0.5, and a value in [0.01, 0.99], at least 0.5 after a correct answer and at most 0.5 after an incorrect one |
| AssessmentProcessor.ProcessStudentResponse | core/assessment/assessment_processor.py:240-299 | the update loop computes `StudentResponseTrace` |
| AssessmentProcessor.ComponentUpdatesDistinct | core/assessment/assessment_processor.py:270-293 | the update keys are distinct |
| AssessmentProcessor.ComponentUpdatesKeys | core/assessment/assessment_processor.py:273-289 | the update keys are exactly the question's non-empty component ids |
| AssessmentProcessor.ComponentUpdatesKeysFrom | core/assessment/assessment_processor.py:273-289 | every update key is the non-empty id of one of the question's components |
| AssessmentProcessor.ComponentUpdatesKeysCover | core/assessment/assessment_processor.py:273-289 | every non-empty component id of the question is an update key |
| AssessmentProcessor.ComponentUpdatesValues | core/assessment/assessment_processor.py:279-293 | every update is the same fixed-prior update |
| AssessmentProcessor.StudentResponseSpec | core/assessment/assessment_processor.py:251-299 | an empty student id or a missing question id gives the "Invalid inputs" error; otherwise the interaction carries the student, the question id and the verdict, and the updates cover exactly the non-empty component ids with prior 0.5 |
| StudentProfiles.DefaultProfileConsistent | core/assessment/student_profile_manager.py:36-51 | a new profile has the student's id, an empty history and knowledge state, and metrics equal to those computed for an empty state |
| StudentProfiles.StateAfter | core/assessment/student_profile_manager.py:95-118 | an update sets the current value, confidence and time; it keeps the initial value of an existing entry, or seeds it with the new value; the history grows by exactly one entry at the end |
| StudentProfiles.UpdateStep | core/assessment/student_profile_manager.py:97-118 | the source's create-or-overwrite step followed by the history append equals one `StateAfter` assignment |
| StudentProfiles.UpdateKnowledgeState | core/assessment/student_profile_manager.py:94-118 | the update loop computes `ApplyUpdates` |
| StudentProfiles.UpdateComponent | core/assessment/student_profile_manager.py:96-117 | one pass of the update loop computes `ApplyUpdate`, the single assignment of `StateAfter` |
| StudentProfiles.ApplyUpdateKeys | core/assessment/student_profile_manager.py:96-104 | one update keeps the ids and their order, appending the id when it is new; distinct ids stay distinct |
| StudentProfiles.ApplyUpdateLookup | core/assessment/student_profile_manager.py:96-117 | one update sets its own KC to `StateAfter` its previous state and leaves every other KC as it was |
| StudentProfiles.ApplyUpdatesKeys | core/assessment/student_profile_manager.py:95-118 | no KC is removed or reordered; the keys become the old ones plus the updated ones |
| StudentProfiles.ApplyUpdatesDistinct | core/assessment/student_profile_manager.py:95-118 | distinct KC ids stay distinct |
| StudentProfiles.ApplyUpdatesUntouched | core/assessment/student_profile_manager.py:95-118 | a KC without an update keeps its state |
| StudentProfiles.ApplyUpdatesTouched | core/assessment/student_profile_manager.py:95-118 | a KC updated exactly once ends in `StateAfter` of its previous state |
| StudentProfiles.ApplyTraceIgnoresFailures | core/assessment/student_profile_manager.py:71-83 | an error trace, or one without an interaction, leaves the profile as it was |
| StudentProfiles.ApplyTraceSuccess | core/assessment/student_profile_manager.py:85-124 | identity fields and grade level are kept; the interaction is appended to the end of the history; each updated KC reads exactly `StateAfter` of its previous state (new value, confidence and time, kept or new initial value, one more history entry); untouched KCs are unchanged; metrics are recomputed and the time is set |
| StudentProfiles.ItemsWhereMembers | core/assessment/student_profile_manager.py:239-255 | the filtered items are exactly the entries whose mastery passes the test |
| StudentProfiles.MasterySumBounds | core/assessment/student_profile_manager.py:234-237 | the sum of masteries lies between n·lo and n·hi |
| StudentProfiles.MetricsMean | core/assessment/student_profile_manager.py:234-237 | the overall mastery lies between the least and the greatest current value |
| StudentProfiles.MetricsStrengths | core/assessment/student_profile_manager.py:239-258 | strengths are exactly the entries with mastery ≥ 0.8 (a permutation of them), highest first, ties in knowledge-state order |
| StudentProfiles.MetricsAreas | core/assessment/student_profile_manager.py:250-261 | areas for improvement are exactly the entries with mastery < 0.6 (a permutation of them), lowest first, ties in knowledge-state order |
| StudentProfiles.MetricsBands | core/assessment/student_profile_manager.py:244-255 | the two lists are disjoint, and a mastery in [0.6, 0.8) appears in neither |
| StudentProfiles.KnowledgeStateViewKeys | core/assessment/student_profile_manager.py:150-162 | the view keeps exactly the KCs whose id contains the lower-cased subject, or all of them without a subject, with distinct keys |
| StudentProfiles.KnowledgeStateViewAt | core/assessment/student_profile_manager.py:154-160 | a matching component whose id does not recur later reads its current value in the view |
| StudentProfiles.KnowledgeStateViewValues | core/assessment/student_profile_manager.py:154-160 | each viewed value is the KC's current value |
| StudentProfiles.FilterKnowledgeState | core/assessment/student_profile_manager.py:150-162 | the filtering loop builds the view, in knowledge-state order |
| StudentProfiles.CandidatesMembers | core/assessment/student_profile_manager.py:179-204 | a recommendation exists exactly for each viewed KC with mastery below 0.8 |
| StudentProfiles.CollectCandidates | core/assessment/student_profile_manager.py:177-204 | the loop collects the candidate recommendations in view order |
| StudentProfiles.RecommendationsSpec | core/assessment/student_profile_manager.py:179-210 | exactly the KCs below 0.8; priority high below 0.4, medium below 0.6, low otherwise; ordered high, medium, low, ties in view order; a permutation of the candidates |
| StudentProfiles.StudentProfileManager.constructor | core/assessment/student_profile_manager.py:16-19 | the manager starts on the given store |
| StudentProfiles.StudentProfileManager.GetStudentProfile | core/assessment/student_profile_manager.py:21-55 | returns the stored profile, or creates, stores and returns the default one; nothing else in the store changes |
| StudentProfiles.StudentProfileManager.UpdateProfileWithTrace | core/assessment/student_profile_manager.py:57-130 | returns `ApplyTrace` of the current or default profile and writes it back under `student_profile_<id>` |
| StudentProfiles.StudentProfileManager.GetStudentKnowledgeState | core/assessment/student_profile_manager.py:136-162 | returns the subject-filtered view of the profile's knowledge state |
| StudentProfiles.StudentProfileManager.GetLearningRecommendations | core/assessment/student_profile_manager.py:164-210 | returns `RecommendationsOf` that view |
| StudentProfiles.StudentProfileManager.CalculateMetrics | core/assessment/student_profile_manager.py:212-263 | the loops and sorts compute `MetricsOf` the knowledge state |
| ReportGenerator.NewGenerator | core/assessment/report_generator.py:16-38 | a missing or empty scale becomes the default scale A 0.9, B 0.8, C 0.7, D 0.6, F 0.0; a non-empty scale is kept as given; the mastery threshold is 0.8 |
| ReportGenerator.FirstReachedFirst | core/assessment/report_generator.py:115-120 | the scan returns the grade of the first threshold the score reaches, and "F" when it reaches none |
| ReportGenerator.ScaleGradeNoneReached | core/assessment/report_generator.py:112-120 | whatever the order of the scale, a score below every threshold gets "F" |
| ReportGenerator.ScaleGradeReached | core/assessment/report_generator.py:112-120 | otherwise the grade belongs to a scale entry whose threshold is reached and is at least every other reached threshold |
| ReportGenerator.FirstReachedIn | core/assessment/report_generator.py:114-120 | the scan over the sorted scale returns "F" or the grade of an entry whose threshold the score reaches |
| ReportGenerator.CalculateGrade | core/assessment/report_generator.py:102-120 | the grade is "F" or the grade of a scale entry whose threshold the score, clamped to [0, 1], reaches (which entry: `GradeIsGreatestReached`) |
| ReportGenerator.GradeIsGreatestReached | core/assessment/report_generator.py:102-120 | `_calculate_grade` clamps the score to [0, 1] and returns the grade of the greatest threshold reached, "F" when there is none |
| ReportGenerator.DefaultScaleSorted | core/assessment/report_generator.py:32-38 | the default scale is already in decreasing threshold order |
| ReportGenerator.DefaultScaleBands | core/assessment/report_generator.py:32-38 | the scan over the default scale, band by band |
| ReportGenerator.DefaultGrades | core/assessment/report_generator.py:32-38 | with the default scale: A from 0.9, B from 0.8, C from 0.7, D from 0.6, F below |
| ReportGenerator.MasteryLevel | core/assessment/report_generator.py:220-229 | the label is one of Novice, Basic, Developing, Proficient, Expert; Proficient or above exactly from 0.8; Novice exactly below 0.5 (band order: `MasteryLevelMonotone`) |
| ReportGenerator.MasteryLevelMonotone | core/assessment/report_generator.py:220-229 | the mastery label never drops as mastery grows, and it is Proficient or Expert exactly from 0.8 |
| ReportGenerator.AnalyzeQuestionPerformance | core/assessment/report_generator.py:122-162 | the loop computes `QuestionPerformanceOf` |
| ReportGenerator.QuestionIndexResolves | core/assessment/report_generator.py:136 | an id resolves in the question index exactly when some question carries it |
| ReportGenerator.QuestionIndexLast | core/assessment/report_generator.py:136 | it resolves to the last question carrying it |
| ReportGenerator.PerformanceRecordsBound | core/assessment/report_generator.py:139-160 | at most one record per interaction |
| ReportGenerator.PerformanceRecordsAllResolve | core/assessment/report_generator.py:139-160 | when every interaction's id resolves, there is one record per interaction and record k joins interaction k with its question |
| ReportGenerator.PerformanceRecordsNoneResolve | core/assessment/report_generator.py:139-160 | when no interaction's id resolves, there is no record |
| ReportGenerator.PerformanceRecordsMembers | core/assessment/report_generator.py:139-160 | every record joins a resolving interaction with the question its id resolves to |
| ReportGenerator.PerformanceRecordsSingle | core/assessment/report_generator.py:141-160 | one interaction yields the record joining it with its question when its id resolves, and nothing otherwise |
| ReportGenerator.PerformanceRecordsAppend | core/assessment/report_generator.py:139-160 | records keep interaction order: the records of a concatenation are the concatenated records |
| ReportGenerator.QuestionPerformanceSpec | core/assessment/report_generator.py:133-162 | the same in terms of the assessment's question ids, with the ids and verdicts of the interactions |
| ReportGenerator.AddComponents | core/assessment/report_generator.py:180-183 | the inner loop extends the first-occurrence map by one question's components |
| ReportGenerator.BuildComponentMap | core/assessment/report_generator.py:176-183 | the nested loops compute `FirstById` of all the components |
| ReportGenerator.CollectAnalyses | core/assessment/report_generator.py:186-204 | the loop computes `Analyses` of the knowledge state |
| ReportGenerator.AnalyzeKnowledgeComponents | core/assessment/report_generator.py:164-209 | the whole analysis computes `ComponentAnalysesOf` |
| ReportGenerator.AllComponentsMembers | core/assessment/report_generator.py:179-180 | the flattened list holds exactly the components of the questions |
| ReportGenerator.AllComponentsOrder | core/assessment/report_generator.py:179-180 | a question's components come after those of every earlier question |
| ReportGenerator.FirstByIdKeys | core/assessment/report_generator.py:176-183 | the map holds exactly the non-empty component ids |
| ReportGenerator.FirstByIdDistinct | core/assessment/report_generator.py:176-183 | each id is held once |
| ReportGenerator.FirstByIdFirst | core/assessment/report_generator.py:180-183 | each id maps to the first component carrying it |
| ReportGenerator.AnalysesMembers | core/assessment/report_generator.py:186-204 | one record per knowledge-state entry whose id the map knows |
| ReportGenerator.ComponentAnalysesSpec | core/assessment/report_generator.py:175-209 | exactly the KCs in both the knowledge state and some question, with the first component's details and the mastery's label; sorted by increasing mastery, a permutation, ties in knowledge-state order |
| ReportGenerator.GenerateRecommendations | core/assessment/report_generator.py:231-260 | the loop computes `RecommendationsOf` |
| ReportGenerator.FocusMembers | core/assessment/report_generator.py:243 | the focus list keeps exactly the components below the threshold |
| ReportGenerator.FocusSorted | core/assessment/report_generator.py:243 | filtering a list sorted by mastery leaves it sorted |
| ReportGenerator.RecommendationsSpec | core/assessment/report_generator.py:240-260 | at most three, and three whenever three qualify; each below the threshold with the threshold as target, for a component of the analysis; from a sorted analysis, no left-out qualifying component has lower mastery |
| ReportGenerator.ComputeOverall | core/assessment/report_generator.py:68-79 | the counting loop computes `OverallOf` |
| ReportGenerator.GenerateReport | core/assessment/report_generator.py:40-90 | the report assembles `ReportOf` its parts |
| ReportGenerator.CorrectCountBound | core/assessment/report_generator.py:69 | the correct count is at most the number of interactions; it equals it iff all are correct, and is 0 iff none is |
| ReportGenerator.OverallSpec | core/assessment/report_generator.py:62-79 | no overall block without interactions; otherwise correct ≤ total = number of interactions, percentage in [0, 100] (100 iff all correct, 0 iff none), grade of the score |
| ReportGenerator.PercentageBounds | core/assessment/report_generator.py:73-77 | 100·correct/total lies in [0, 100], with the two ends reached exactly at all and none |
| ReportGenerator.ReportSpec | core/assessment/report_generator.py:54-90 | the report's parts fit together: overall block iff interactions, no more records than interactions, at most three recommendations, each drawn from the report's own analysis |

## Left out

- The generic `except Exception` paths are not modelled (`assessment_processor.py` lines 93-97, 301-303 and 348-350; `student_profile_manager.py` lines 132-134; `report_generator.py` lines 92-100). They catch errors that Python's dynamic typing makes possible, and the typed model cannot reach them. The one reachable failure, `float()` rejecting a response, is modelled as "incorrect".
- Uuids and `datetime.now()` are parameters. One call reads the clock once, so timestamps the source takes separately within a call are equal in the model.
- Floating point: all arithmetic is on `real`. Rounding is not modelled.
- Text: `lower`, `title` and `strip` act on ASCII only. `float()` accepts plain decimals with an optional sign and surrounding white space, but no exponents, `inf`, `nan` or underscores.
- Dictionaries whose fields may be absent are datatypes with `Option` fields. `None` stands for a missing key. A key present with the value `None` is not distinguished from a missing one, and neither is a falsy value such as an empty dictionary (`report_generator.py` line 143). A knowledge component without an `"id"` has the id `""`. It is skipped wherever the source tests the id for truth (`assessment_processor.py` line 275, `report_generator.py` line 182), as `None` would be. In a question-performance record, however, the source writes `None` for such a component (`report_generator.py` line 154) and the model writes `""`.
- A knowledge-state entry always has a current value, so the `0.5` default of `state.get("current_value", 0.5)` (`student_profile_manager.py` lines 160, 235 and 241) is not modelled. Every entry the core creates is given a `current_value` (lines 98-104), and the default profile starts with no entries, so the core never reaches that default.
- An interaction always carries a question id, as every trace built by the processor does. An interaction without one is not modelled.
- A curriculum passed as an empty dictionary is modelled as no curriculum, which is what `curriculum_data or ...` does with it.
- `process_assessment` receives the grade level and passes it on, but never reads it. The model carries it without using it.
- The `processing_error` result of `process_assessment` belongs to the exception path above.
- Per-student locking and concurrent access are not modelled: calls are sequential.
- Aliasing: the source mutates the profile dictionary it read from the store and then stores it again. The model builds the new profile as a value and writes it back explicitly, so updates to other references of the same dictionary are not captured.
- In-place sorts (`list.sort`) are modelled as the pure stable `SortBy`.
- Logging, the Streamlit user interface, the document loader and the abstract interfaces carry no behaviour of the core and are not part of this model.
