/**
 * The entity schema of interviewhub/models.py: the two choice enumerations
 * with their defaults, the length and precision bounds of the columns, and
 * the record shapes of Question, Interview and Submission.
 *
 * Each record is split into the columns a client may write (the `...Fields`
 * datatype, whose constructor defaults are the columns' declared defaults)
 * and the columns kept beside it: the ones the server assigns (id,
 * owner/candidate, timestamps) and, on a submission, the interview and
 * question references, which the client supplies but which are keys rather
 * than answer data. Timestamps are values of a monotone counter.
 */
module Models {
  import opened Wrappers
  import Json

  type UserId = nat
  type QuestionId = nat
  type InterviewId = nat
  type SubmissionId = nat
  type Timestamp = nat

  /** max_length of the `qtype` and `confidentiality` columns. */
  const CHOICE_MAX_LENGTH: nat := 16
  /** max_length of Question.title and Interview.title. */
  const TITLE_MAX_LENGTH: nat := 200
  /** max_length of Interview.project_code. */
  const PROJECT_CODE_MAX_LENGTH: nat := 64
  /** Submission.metric_score is decimal(5, 2): five digits, two of them after the point. */
  const METRIC_MAX_DIGITS: nat := 5
  const METRIC_DECIMAL_PLACES: nat := 2

  // ---------------------------------------------------------------- choices

  /** Question.QUESTION_TYPES */
  datatype QType = MultipleChoice | OpenEnded | Scale {

    /** The stored value of the choice (Question.MULTIPLE_CHOICE, ...). */
    function Code(): string {
      match this
      case MultipleChoice => "Multiple Choice"
      case OpenEnded => "Open Ended"
      case Scale => "Scale"
    }

    /** The human-readable label of the choice. */
    function Label(): string {
      match this
      case MultipleChoice => "Multiple Choice"
      case OpenEnded => "Open Ended"
      case Scale => "Scale (1-5)"
    }
  }

  const DEFAULT_QTYPE: QType := OpenEnded

  /** The choice whose stored value is `code`, if there is one: the `choices` check of the column. */
  function ParseQType(code: string): (r: Option<QType>)
    ensures r.Some? ==> r.value.Code() == code
    ensures r.None? ==> forall t: QType :: t.Code() != code
  {
    if code == MultipleChoice.Code() then Some(MultipleChoice)
    else if code == OpenEnded.Code() then Some(OpenEnded)
    else if code == Scale.Code() then Some(Scale)
    else None
  }

  /** Interview.CONF_CHOICES */
  datatype Confidentiality = Public | Internal | Anonymous {

    function Code(): string {
      match this
      case Public => "public"
      case Internal => "internal"
      case Anonymous => "anonymous"
    }

    function Label(): string {
      match this
      case Public => "Public results"
      case Internal => "Internal only"
      case Anonymous => "Anonymous outputs"
    }
  }

  const DEFAULT_CONFIDENTIALITY: Confidentiality := Internal

  function ParseConfidentiality(code: string): (r: Option<Confidentiality>)
    ensures r.Some? ==> r.value.Code() == code
    ensures r.None? ==> forall c: Confidentiality :: c.Code() != code
  {
    if code == Public.Code() then Some(Public)
    else if code == Internal.Code() then Some(Internal)
    else if code == Anonymous.Code() then Some(Anonymous)
    else None
  }

  /** Every choice is read back from its stored value, and every stored value fits its column. */
  lemma ChoicesRoundTrip(t: QType, c: Confidentiality)
    ensures ParseQType(t.Code()) == Some(t)
    ensures ParseConfidentiality(c.Code()) == Some(c)
    ensures |t.Code()| <= CHOICE_MAX_LENGTH
    ensures |c.Code()| <= CHOICE_MAX_LENGTH
  {
  }

  // ---------------------------------------------------------------- metric score

  function Pow10(n: nat): nat
  {
    if n == 0 then 1 else 10 * Pow10(n - 1)
  }

  /**
   * A metric score is kept as an integer count of hundredths (so it has at
   * most METRIC_DECIMAL_PLACES digits after the point by construction);
   * it fits decimal(5, 2) when it has at most METRIC_MAX_DIGITS digits.
   */
  predicate FitsMetric(hundredths: int) {
    (if hundredths < 0 then -hundredths else hundredths) < Pow10(METRIC_MAX_DIGITS)
  }

  /** decimal(5, 2) holds exactly the values from -999.99 to 999.99. */
  lemma MetricRange(hundredths: int)
    ensures FitsMetric(hundredths) <==> -99999 <= hundredths <= 99999
  {
    assert Pow10(METRIC_MAX_DIGITS) == 100000;
  }

  // ---------------------------------------------------------------- records

  /** The client-writable columns of a Question, with their declared defaults. */
  datatype QuestionFields = QuestionFields(
    title: string,
    body: string := "",
    qtype: QType := DEFAULT_QTYPE,
    tags: Json.Value := Json.List([]),
    options: Json.Value := Json.List([]))

  datatype Question = Question(
    id: QuestionId,
    fields: QuestionFields,
    createdAt: Timestamp,
    updatedAt: Timestamp)

  /** The client-writable columns of an Interview, with their declared defaults. */
  datatype InterviewFields = InterviewFields(
    title: string,
    description: string := "",
    questions: set<QuestionId> := {},
    scheduledAt: Option<Timestamp> := None,
    isPublished: bool := false,
    confidentiality: Confidentiality := DEFAULT_CONFIDENTIALITY,
    projectCode: string := "",
    allowedParticipants: set<UserId> := {})

  datatype Interview = Interview(
    id: InterviewId,
    owner: UserId,
    fields: InterviewFields,
    createdAt: Timestamp,
    updatedAt: Timestamp)
  {
    /**
     * The row after its association rows for the questions in `gq` and the
     * participants in `gu` are deleted; its own columns are untouched.
     */
    function Unlink(gu: set<UserId>, gq: set<QuestionId>): Interview {
      this.(fields := fields.(questions := fields.questions - gq,
                              allowedParticipants := fields.allowedParticipants - gu))
    }
  }

  /** The client-writable columns of a Submission, with their declared defaults. */
  datatype SubmissionFields = SubmissionFields(
    answerText: string := "",
    metricScore: Option<int> := None,
    isAnonymous: bool := false,
    consentGiven: bool := false,
    meta: map<string, Json.Value> := map[])

  datatype Submission = Submission(
    id: SubmissionId,
    candidate: UserId,
    interview: InterviewId,
    question: QuestionId,
    fields: SubmissionFields,
    submittedAt: Timestamp)
  {
    /** The columns of the `unique_together` constraint. */
    function Key(): (UserId, InterviewId, QuestionId) {
      (candidate, interview, question)
    }
  }

  /** A new question takes the declared defaults for the columns it is not given. */
  lemma QuestionDefaults(title: string)
    ensures QuestionFields(title) == QuestionFields(title, "", OpenEnded, Json.List([]), Json.List([]))
    ensures QuestionFields(title).qtype.Code() == "Open Ended"
  {
  }

  /** A new interview is unpublished, internal, unscheduled and has no questions or allowed participants. */
  lemma InterviewDefaults(title: string)
    ensures InterviewFields(title) == InterviewFields(title, "", {}, None, false, Internal, "", {})
    ensures InterviewFields(title).confidentiality.Code() == "internal"
  {
  }

  /** A new submission has an empty answer, no score, is not anonymous, has no consent and an empty meta. */
  lemma SubmissionDefaults()
    ensures SubmissionFields() == SubmissionFields("", None, false, false, map[])
    ensures SubmissionFieldsOk(SubmissionFields())
  {
  }

  // ---------------------------------------------------------------- column bounds

  predicate QuestionFieldsOk(f: QuestionFields) {
    |f.title| <= TITLE_MAX_LENGTH
  }

  predicate InterviewFieldsOk(f: InterviewFields) {
    |f.title| <= TITLE_MAX_LENGTH && |f.projectCode| <= PROJECT_CODE_MAX_LENGTH
  }

  predicate SubmissionFieldsOk(f: SubmissionFields) {
    f.metricScore.Some? ==> FitsMetric(f.metricScore.value)
  }
}
