/** The graded report of `GetAssessmentResult`: every question of the
    assessment is joined with the student's first recorded answer to it and
    with its options, the entries marked correct are counted, and the count
    is printed as `"correct/total"`. */
module Grading {
  import opened Common
  import opened Entities
  import opened Formatting

  /** One entry of the report's `Answers` list. */
  datatype GradedAnswer = GradedAnswer(
    questionId: Guid,
    questionText: string,
    selectedOptionId: Nullable<Guid>,
    selectedOptionText: Nullable<string>,
    correctOptionId: Nullable<Guid>,
    correctOptionText: Nullable<string>,
    isCorrect: bool,
    assessmentId: Guid,
    studentId: Guid,
    allOptions: seq<AnswerOption>)

  /** The body of the 200 response. */
  datatype AssessmentReport = AssessmentReport(
    assessmentId: Guid,
    assessmentTitle: string,
    studentId: Guid,
    totalQuestions: nat,
    correctAnswers: nat,
    score: string,
    attemptDate: int,
    answers: seq<GradedAnswer>)

  function AnswersQuestion(questionId: Guid): StudentAnswer -> bool {
    (sa: StudentAnswer) => sa.questionId == questionId
  }

  function HasOptionId(optionId: Guid): AnswerOption -> bool {
    (o: AnswerOption) => o.optionId == optionId
  }

  predicate MarkedCorrect(o: AnswerOption) {
    o.isCorrect
  }

  /** Grades one question against the student's recorded answers. */
  function GradeQuestion(q: Question, answers: seq<StudentAnswer>, assessmentId: Guid, studentId: Guid): (g: GradedAnswer)
    ensures g.questionId == q.questionId && g.questionText == q.questionText
    ensures g.assessmentId == assessmentId && g.studentId == studentId && g.allOptions == q.options
    // the selection is the student's first answer to this question, and null without one
    ensures g.selectedOptionId.Null? <==> forall i :: 0 <= i < |answers| ==> answers[i].questionId != q.questionId
    ensures forall i :: IsFirst(answers, AnswersQuestion(q.questionId), i) ==>
      g.selectedOptionId == Some(answers[i].selectedOptionId)
    // the selected option is the question's first option carrying the selected id
    ensures forall i, j ::
      IsFirst(answers, AnswersQuestion(q.questionId), i) && IsFirst(q.options, HasOptionId(answers[i].selectedOptionId), j) ==>
      g.selectedOptionText == Some(q.options[j].text)
    // correct exactly when that option is marked correct
    ensures g.isCorrect <==> exists i, j ::
      && IsFirst(answers, AnswersQuestion(q.questionId), i)
      && IsFirst(q.options, HasOptionId(answers[i].selectedOptionId), j)
      && q.options[j].isCorrect
    ensures g.selectedOptionText.Null? ==> !g.isCorrect
    // no selected text without an answer, or when no option has the selected id
    ensures g.selectedOptionText.Null? <==>
      g.selectedOptionId.Null? || forall j :: 0 <= j < |q.options| ==> q.options[j].optionId != g.selectedOptionId.value
    // the key is the first option marked correct, and null without one
    ensures g.correctOptionId.Null? <==> forall j :: 0 <= j < |q.options| ==> !q.options[j].isCorrect
    ensures forall j :: IsFirst(q.options, MarkedCorrect, j) ==>
      g.correctOptionId == Some(q.options[j].optionId) && g.correctOptionText == Some(q.options[j].text)
    ensures g.correctOptionId.Null? ==> g.correctOptionText.Null?
  {
    var studentAnswer := FirstOrDefault(answers, AnswersQuestion(q.questionId));
    var selectedOption :=
      match studentAnswer
      case Null => Null
      case Some(sa) => FirstOrDefault(q.options, HasOptionId(sa.selectedOptionId));
    var correctOption := FirstOrDefault(q.options, MarkedCorrect);
    GradedAnswer(
      questionId := q.questionId,
      questionText := q.questionText,
      selectedOptionId := if studentAnswer.Some? then Some(studentAnswer.value.selectedOptionId) else Null,
      selectedOptionText := if selectedOption.Some? then Some(selectedOption.value.text) else Null,
      correctOptionId := if correctOption.Some? then Some(correctOption.value.optionId) else Null,
      correctOptionText := if correctOption.Some? then Some(correctOption.value.text) else Null,
      isCorrect := selectedOption.Some? && selectedOption.value.isCorrect,
      assessmentId := assessmentId,
      studentId := studentId,
      allOptions := q.options)
  }

  /** `assessment.Questions.Select(...)`: one graded entry per question, in question order. */
  function GradeAll(questions: seq<Question>, answers: seq<StudentAnswer>, assessmentId: Guid, studentId: Guid): (gs: seq<GradedAnswer>)
    ensures |gs| == |questions|
    ensures forall k :: 0 <= k < |gs| ==>
      gs[k].questionId == questions[k].questionId && gs[k] == GradeQuestion(questions[k], answers, assessmentId, studentId)
  {
    seq(|questions|, k requires 0 <= k < |questions| => GradeQuestion(questions[k], answers, assessmentId, studentId))
  }

  /** `answers.Count(a => a.IsCorrect)`. */
  function CountCorrect(gs: seq<GradedAnswer>): (n: nat)
    ensures n <= |gs|
  {
    if |gs| == 0 then 0 else CountCorrect(gs[..|gs| - 1]) + (if gs[|gs| - 1].isCorrect then 1 else 0)
  }

  /** The positions of the entries graded correct. */
  ghost function CorrectIndices(gs: seq<GradedAnswer>): set<nat> {
    set k: nat | k < |gs| && gs[k].isCorrect
  }

  /** The count is the number of entries graded correct. */
  lemma {:induction false} CountCorrectIsCardinality(gs: seq<GradedAnswer>)
    ensures CountCorrect(gs) == |CorrectIndices(gs)|
  {
    if |gs| > 0 {
      var n := |gs| - 1;
      var prefix := gs[..n];
      CountCorrectIsCardinality(prefix);
      var rest := if gs[n].isCorrect then {n} else {};
      assert CorrectIndices(gs) == CorrectIndices(prefix) + rest;
      assert n !in CorrectIndices(prefix);
    }
  }

  lemma {:induction false} CountCorrectAllCorrect(gs: seq<GradedAnswer>)
    requires forall k :: 0 <= k < |gs| ==> gs[k].isCorrect
    ensures CountCorrect(gs) == |gs|
  {
    if |gs| > 0 {
      CountCorrectAllCorrect(gs[..|gs| - 1]);
    }
  }

  lemma {:induction false} CountCorrectNoneCorrect(gs: seq<GradedAnswer>)
    requires forall k :: 0 <= k < |gs| ==> !gs[k].isCorrect
    ensures CountCorrect(gs) == 0
  {
    if |gs| > 0 {
      CountCorrectNoneCorrect(gs[..|gs| - 1]);
    }
  }

  // ----- the score string -----

  predicate IsSlash(c: char) {
    c == '/'
  }

  /** Reads a `"correct/total"` string back into its two counts. */
  function ParseScore(s: string): Nullable<(nat, nat)> {
    match FirstIndex(s, IsSlash)
    case Null => Null
    case Some(i) =>
      match (ParseNat(s[..i]), ParseNat(s[i + 1..]))
      case (Some(c), Some(t)) => Some((c, t))
      case _ => Null
  }

  lemma ScoreTextParses(correct: nat, total: nat)
    ensures ParseScore(NatToString(correct) + "/" + NatToString(total)) == Some((correct, total))
  {
    var a := NatToString(correct);
    var b := NatToString(total);
    var s := a + "/" + b;
    assert s[..|a|] == a;
    assert s[|a| + 1..] == b;
    assert IsFirst(s, IsSlash, |a|) by {
      forall k | 0 <= k < |a| ensures !IsSlash(s[k]) {
        assert IsDigit(a[k]);
      }
    }
    FirstIsUnique(s, IsSlash, |a|, FirstIndex(s, IsSlash).value);
    NatToStringParses(correct);
    NatToStringParses(total);
  }

  /** `$"{correctAnswers}/{totalQuestions}"`; the text determines both counts. */
  function FormatScore(correct: nat, total: nat): (s: string)
    ensures ParseScore(s) == Some((correct, total))
  {
    ScoreTextParses(correct, total);
    NatToString(correct) + "/" + NatToString(total)
  }

  // ----- the report -----

  /** The report for `assessment` and the student's recorded `result`. */
  function GradeAssessment(assessment: Assessment, result: Result, studentId: Guid): (rep: AssessmentReport)
    ensures rep.assessmentId == assessment.assessmentId && rep.assessmentTitle == assessment.title
    ensures rep.studentId == studentId && rep.attemptDate == result.attemptDate
    // one entry per question, in question order
    ensures rep.totalQuestions == |rep.answers| == |assessment.questions|
    ensures forall k :: 0 <= k < |assessment.questions| ==>
      rep.answers[k] == GradeQuestion(assessment.questions[k], result.studentAnswers, assessment.assessmentId, studentId)
    // the count of correct entries, bounded by the number of questions
    ensures rep.correctAnswers == |CorrectIndices(rep.answers)|
    ensures rep.correctAnswers <= rep.totalQuestions
    ensures rep.score == NatToString(rep.correctAnswers) + "/" + NatToString(rep.totalQuestions)
    ensures ParseScore(rep.score) == Some((rep.correctAnswers, rep.totalQuestions))
  {
    var answers := GradeAll(assessment.questions, result.studentAnswers, assessment.assessmentId, studentId);
    var correct := CountCorrect(answers);
    CountCorrectIsCardinality(answers);
    AssessmentReport(
      assessmentId := assessment.assessmentId,
      assessmentTitle := assessment.title,
      studentId := studentId,
      totalQuestions := |answers|,
      correctAnswers := correct,
      score := FormatScore(correct, |answers|),
      attemptDate := result.attemptDate,
      answers := answers)
  }

  // ----- laws of the grading -----

  /** No two options of the question share an id (they are primary keys). */
  ghost predicate DistinctOptionIds(q: Question) {
    forall j, k :: 0 <= j < k < |q.options| ==> q.options[j].optionId != q.options[k].optionId
  }

  /** The student's first answer to `q` selects the id of `q`'s first correct option. */
  ghost predicate SelectsKey(answers: seq<StudentAnswer>, q: Question) {
    exists i, j ::
      && IsFirst(answers, AnswersQuestion(q.questionId), i)
      && IsFirst(q.options, MarkedCorrect, j)
      && answers[i].selectedOptionId == q.options[j].optionId
  }

  lemma KeyIsGradedCorrect(q: Question, answers: seq<StudentAnswer>, assessmentId: Guid, studentId: Guid)
    requires DistinctOptionIds(q) && SelectsKey(answers, q)
    ensures GradeQuestion(q, answers, assessmentId, studentId).isCorrect
  {
  }

  /** Selecting the key of every question (with option ids distinct within
      each question) gives full marks. */
  lemma AnswerKeyScoresFull(assessment: Assessment, result: Result, studentId: Guid)
    requires forall k :: 0 <= k < |assessment.questions| ==>
      DistinctOptionIds(assessment.questions[k]) && SelectsKey(result.studentAnswers, assessment.questions[k])
    ensures GradeAssessment(assessment, result, studentId).correctAnswers == |assessment.questions|
  {
    var rep := GradeAssessment(assessment, result, studentId);
    forall k | 0 <= k < |rep.answers| ensures rep.answers[k].isCorrect {
      KeyIsGradedCorrect(assessment.questions[k], result.studentAnswers, assessment.assessmentId, studentId);
    }
    CountCorrectIsCardinality(rep.answers);
    CountCorrectAllCorrect(rep.answers);
  }

  /** A student who answered none of the questions scores zero, and every
      entry shows no selection. */
  lemma UnansweredScoresZero(assessment: Assessment, result: Result, studentId: Guid)
    requires forall k, i :: 0 <= k < |assessment.questions| && 0 <= i < |result.studentAnswers| ==>
      result.studentAnswers[i].questionId != assessment.questions[k].questionId
    ensures GradeAssessment(assessment, result, studentId).correctAnswers == 0
    ensures forall k :: 0 <= k < |assessment.questions| ==>
      GradeAssessment(assessment, result, studentId).answers[k].selectedOptionId.Null?
  {
  }
}
