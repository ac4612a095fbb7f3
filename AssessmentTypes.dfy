/** The records that flow between the assessment components: questions and
    assessments (Python dictionaries whose optional keys become `Option`
    fields), interactions, knowledge updates and traces. */
module AssessmentTypes {
  import opened Wrappers
  import opened Text

  /** A Python value as it reaches the correctness check: `None`, a bool, a
      number (with the text Python's `str` gives for it) or a string. */
  datatype Value = VNone | VBool(b: bool) | VNum(x: real, text: string) | VStr(s: string)

  /** A knowledge component as stored on a question.  A missing or empty
      `id` is the empty string; `category` and `subject` default to "". */
  datatype Component = Component(id: string, name: Option<string>, category: string, subject: string)

  /** A question.  A missing `text` reads as "", a missing `question_type`
      as "", a missing `correct_answer` as `VNone`. */
  datatype Question = Question(
    questionId: Option<string>,
    text: string,
    questionType: string,
    correctAnswer: Value,
    tolerance: Option<real>,
    cognitiveSkills: Option<seq<string>>,
    knowledgeComponents: Option<seq<Component>>,
    difficulty: Option<real>)

  /** An assessment.  A missing `subject` or `grade_level` reads as "". */
  datatype Assessment = Assessment(
    assessmentId: Option<string>,
    title: Option<string>,
    subject: string,
    gradeLevel: string,
    questions: Option<seq<Question>>,
    processedAt: Option<string>)

  /** One answered question. */
  datatype Interaction = Interaction(
    timestamp: string,
    studentId: string,
    questionId: string,
    isCorrect: bool,
    response: Value)

  /** The per-component result of one Bayesian update. */
  datatype KnowledgeUpdate = KnowledgeUpdate(prior: real, newValue: real, confidence: real)

  /** What `process_student_response` returns: an error record, or an
      interaction with the knowledge updates keyed by component id (an
      ordered dictionary).  A missing or empty interaction is `None`. */
  datatype Trace =
    | TraceError(message: string)
    | Trace(interaction: Option<Interaction>, knowledgeUpdates: seq<(string, KnowledgeUpdate)>)

  /** `component_id.replace("kc_", "").replace("_", " ").title()`, the
      display name used by the profile manager and the report generator. */
  function ComponentDisplayName(id: string): string {
    Title(ReplaceAll(ReplaceAll(id, "kc_", ""), "_", " "))
  }
}
