/** `AssessmentsController`: reading, replacing, creating and deleting
    assessments together with their question and option tree, listing the
    assessments of a course, and the graded result of one student. */
module Assessments {
  import opened Common
  import opened Entities
  import opened Grading

  datatype OptionCreateDto = OptionCreateDto(optionId: Guid, text: string, isCorrect: bool)

  datatype QuestionCreateDto = QuestionCreateDto(questionId: Guid, questionText: string, options: seq<OptionCreateDto>)

  datatype AssessmentCreateDto = AssessmentCreateDto(
    assessmentId: Guid,
    courseId: Guid,
    title: string,
    maxScore: int,
    questions: seq<QuestionCreateDto>)

  /** One element of the list `GetAssessmentsByCourse` returns. */
  datatype AssessmentSummary = AssessmentSummary(assessmentId: Guid, title: string, maxScore: int, questionCount: nat)

  const AssessmentNotFoundMessage := "Assessment not found"
  const NoResultMessage := "No result found for this student and assessment"
  const CourseNotFoundMessage := "Course not found"

  function OptionFromDto(d: OptionCreateDto): AnswerOption {
    AnswerOption(d.optionId, d.text, d.isCorrect)
  }

  function QuestionFromDto(d: QuestionCreateDto, assessmentId: Guid): Question {
    Question(d.questionId, assessmentId, d.questionText,
             seq(|d.options|, k requires 0 <= k < |d.options| => OptionFromDto(d.options[k])))
  }

  function QuestionsFromDto(ds: seq<QuestionCreateDto>, assessmentId: Guid): seq<Question> {
    seq(|ds|, k requires 0 <= k < |ds| => QuestionFromDto(ds[k], assessmentId))
  }

  /** The projection `PostAssessment` answers with (the anonymous object of
      its CreatedAtAction): an assessment's fields, questions and options. */
  function ToCreateDto(a: Assessment): (dto: AssessmentCreateDto)
    ensures dto.assessmentId == a.assessmentId && dto.courseId == a.courseId
    ensures dto.title == a.title && dto.maxScore == a.maxScore
    ensures |dto.questions| == |a.questions|
    ensures forall k :: 0 <= k < |a.questions| ==>
      dto.questions[k].questionId == a.questions[k].questionId && |dto.questions[k].options| == |a.questions[k].options|
  {
    AssessmentCreateDto(a.assessmentId, a.courseId, a.title, a.maxScore,
      seq(|a.questions|, k requires 0 <= k < |a.questions| =>
        QuestionCreateDto(a.questions[k].questionId, a.questions[k].questionText,
          seq(|a.questions[k].options|, j requires 0 <= j < |a.questions[k].options| =>
            OptionCreateDto(a.questions[k].options[j].optionId, a.questions[k].options[j].text,
                            a.questions[k].options[j].isCorrect)))))
  }

  /** The assessment a DTO describes. Its questions all belong to it, and
      projecting it back gives the DTO again. */
  function AssessmentFromDto(dto: AssessmentCreateDto): (a: Assessment)
    ensures a.assessmentId == dto.assessmentId && a.courseId == dto.courseId
    ensures a.title == dto.title && a.maxScore == dto.maxScore
    ensures |a.questions| == |dto.questions|
    ensures forall k :: 0 <= k < |a.questions| ==> a.questions[k].assessmentId == dto.assessmentId
    ensures ToCreateDto(a) == dto
  {
    var a := Assessment(dto.assessmentId, dto.courseId, dto.title, dto.maxScore,
                        QuestionsFromDto(dto.questions, dto.assessmentId));
    assert forall k :: 0 <= k < |dto.questions| ==> ToCreateDto(a).questions[k] == dto.questions[k] by {
      forall k | 0 <= k < |dto.questions| ensures ToCreateDto(a).questions[k] == dto.questions[k] {
        assert ToCreateDto(a).questions[k].options == dto.questions[k].options;
      }
    }
    a
  }

  /** The other half of the round trip: an assessment whose questions all
      refer to it is rebuilt exactly from its projection. */
  lemma CreateDtoRoundTrip(a: Assessment)
    requires forall k :: 0 <= k < |a.questions| ==> a.questions[k].assessmentId == a.assessmentId
    ensures AssessmentFromDto(ToCreateDto(a)) == a
  {
    var b := AssessmentFromDto(ToCreateDto(a));
    assert forall k :: 0 <= k < |a.questions| ==> b.questions[k] == a.questions[k] by {
      forall k | 0 <= k < |a.questions| ensures b.questions[k] == a.questions[k] {
        assert b.questions[k].options == a.questions[k].options;
      }
    }
  }

  /** The two nested `foreach` loops of PutAssessment and PostAssessment:
      one question per question DTO, in order, each owning one option per
      option DTO and carrying `assessmentId`. */
  method BuildQuestions(dtos: seq<QuestionCreateDto>, assessmentId: Guid) returns (questions: seq<Question>)
    ensures questions == QuestionsFromDto(dtos, assessmentId)
  {
    questions := [];
    var i := 0;
    while i < |dtos|
      invariant 0 <= i <= |dtos|
      invariant |questions| == i
      invariant forall k :: 0 <= k < i ==> questions[k] == QuestionFromDto(dtos[k], assessmentId)
    {
      var questionDto := dtos[i];
      var options: seq<AnswerOption> := [];
      var j := 0;
      while j < |questionDto.options|
        invariant 0 <= j <= |questionDto.options|
        invariant |options| == j
        invariant forall k :: 0 <= k < j ==> options[k] == OptionFromDto(questionDto.options[k])
      {
        var optionDto := questionDto.options[j];
        options := options + [AnswerOption(optionDto.optionId, optionDto.text, optionDto.isCorrect)];
        j := j + 1;
      }
      questions := questions + [Question(questionDto.questionId, assessmentId, questionDto.questionText, options)];
      i := i + 1;
    }
  }

  /** Keeps the results that do not belong to the assessment `id`, in order
      (the cascade of deleting that assessment). */
  function ResultsWithout(results: seq<Result>, id: Guid): (kept: seq<Result>)
    ensures |kept| <= |results|
    ensures forall r :: r in kept <==> r in results && r.assessmentId != id
  {
    if |results| == 0 then []
    else if results[0].assessmentId == id then ResultsWithout(results[1..], id)
    else [results[0]] + ResultsWithout(results[1..], id)
  }

  /** The filter of the results query in `GetAssessmentResult`. */
  function ResultOf(assessmentId: Guid, studentId: Guid): Result -> bool {
    (r: Result) => r.assessmentId == assessmentId && r.userId == studentId
  }

  /** Dropping the results of assessment `id` keeps the order of the others:
      the first result found for any other assessment and student is the same. */
  lemma {:induction false} ResultsWithoutKeepsFirstMatch(results: seq<Result>, id: Guid, assessmentId: Guid, studentId: Guid)
    requires assessmentId != id
    ensures FirstOrDefault(ResultsWithout(results, id), ResultOf(assessmentId, studentId))
         == FirstOrDefault(results, ResultOf(assessmentId, studentId))
  {
    if |results| > 0 {
      var p := ResultOf(assessmentId, studentId);
      var tail := ResultsWithout(results[1..], id);
      ResultsWithoutKeepsFirstMatch(results[1..], id, assessmentId, studentId);
      FirstOrDefaultCons(results, p);
      if results[0].assessmentId != id {
        var kept := [results[0]] + tail;
        assert kept[1..] == tail;
        FirstOrDefaultCons(kept, p);
      }
    }
  }

  class AssessmentsController {
    const db: AppDbContext

    constructor (context: AppDbContext)
      ensures db == context
    {
      db := context;
    }

    /** GET api/Assessments/{id}. */
    function GetAssessment(id: Guid): (r: ActionResult<Assessment>)
      reads db
      ensures r.Ok? <==> id in db.assessments
      ensures r.Ok? ==> r.value == db.assessments[id]
      ensures !r.Ok? ==> r == NotFound(Null)
    {
      if id in db.assessments then Ok(db.assessments[id]) else NotFound(Null)
    }

    /** PUT api/Assessments/{id}: overwrites Title, MaxScore and CourseId and
        replaces the whole question and option tree with the DTO's. */
    method PutAssessment(id: Guid, dto: AssessmentCreateDto) returns (r: ActionResult<()>)
      requires db.Valid()
      modifies db`assessments
      ensures db.Valid()
      ensures id != dto.assessmentId ==> r == BadRequest(Null) && db.assessments == old(db.assessments)
      ensures id == dto.assessmentId && id !in old(db.assessments) ==>
        r == NotFound(Null) && db.assessments == old(db.assessments)
      ensures id == dto.assessmentId && id in old(db.assessments) ==>
        && r == NoContent
        && db.assessments == old(db.assessments)[id := AssessmentFromDto(dto)]
        && db.assessments[id].questions == QuestionsFromDto(dto.questions, id)
    {
      if id != dto.assessmentId {
        return BadRequest(Null);
      }
      if id !in db.assessments {
        return NotFound(Null);
      }
      var assessment := db.assessments[id];
      assessment := assessment.(title := dto.title, maxScore := dto.maxScore, courseId := dto.courseId);
      // every old question, and with it every old option, is removed
      assessment := assessment.(questions := []);
      var questions := BuildQuestions(dto.questions, assessment.assessmentId);
      assessment := assessment.(questions := assessment.questions + questions);
      assert assessment.questions == questions;
      db.assessments := db.assessments[id := assessment];
      r := NoContent;
    }

    /** POST api/Assessments: stores the assessment the DTO describes and
        answers with its projection, which is the DTO itself. An id that is
        already stored makes SaveChanges throw, and the exception is rethrown. */
    method PostAssessment(dto: AssessmentCreateDto) returns (r: ActionResult<AssessmentCreateDto>)
      requires db.Valid()
      modifies db`assessments
      ensures db.Valid()
      ensures dto.assessmentId in old(db.assessments) ==>
        r == InternalServerError && db.assessments == old(db.assessments)
      ensures dto.assessmentId !in old(db.assessments) ==>
        && db.assessments == old(db.assessments)[dto.assessmentId := AssessmentFromDto(dto)]
        && r == CreatedAt(dto)
    {
      if dto.assessmentId in db.assessments {
        return InternalServerError;
      }
      var questions := BuildQuestions(dto.questions, dto.assessmentId);
      var assessment := Assessment(dto.assessmentId, dto.courseId, dto.title, dto.maxScore, questions);
      db.assessments := db.assessments[assessment.assessmentId := assessment];
      r := CreatedAt(ToCreateDto(assessment));
    }

    /** DELETE api/Assessments/{id}: removes the assessment, its questions and
        options, and the results recorded for it. */
    method DeleteAssessment(id: Guid) returns (r: ActionResult<()>)
      requires db.Valid()
      modifies db`assessments, db`results
      ensures db.Valid()
      ensures id !in old(db.assessments) ==>
        && r == NotFound(Some(AssessmentNotFoundMessage))
        && db.assessments == old(db.assessments) && db.results == old(db.results)
      ensures id in old(db.assessments) ==>
        && r == NoContent
        && db.assessments == old(db.assessments) - {id}
        && db.results == ResultsWithout(old(db.results), id)
      ensures forall studentId :: GetAssessmentResult(id, studentId).NotFound?
      // every other assessment grades the same result as before
      ensures forall assessmentId, studentId :: assessmentId != id ==>
        GetAssessmentResult(assessmentId, studentId) == old(GetAssessmentResult(assessmentId, studentId))
    {
      if id !in db.assessments {
        return NotFound(Some(AssessmentNotFoundMessage));
      }
      db.assessments := db.assessments - {id};
      db.results := ResultsWithout(db.results, id);
      forall assessmentId, studentId | assessmentId != id
        ensures GetAssessmentResult(assessmentId, studentId) == old(GetAssessmentResult(assessmentId, studentId))
      {
        ResultsWithoutKeepsFirstMatch(old(db.results), id, assessmentId, studentId);
      }
      r := NoContent;
    }

    /** GET api/Assessments/course/{courseId}: NotFound for an unknown
        course, otherwise exactly the course's assessments, each with its
        number of questions. */
    function GetAssessmentsByCourse(courseId: Guid): (r: ActionResult<map<Guid, AssessmentSummary>>)
      reads db
      ensures r == NotFound(Some(CourseNotFoundMessage)) <==> courseId !in db.courses
      ensures r.Ok? || r.NotFound?
      ensures r.Ok? ==> forall id :: id in r.value <==> id in db.assessments && db.assessments[id].courseId == courseId
      ensures r.Ok? ==> forall id :: id in r.value ==>
        && r.value[id].assessmentId == db.assessments[id].assessmentId
        && r.value[id].title == db.assessments[id].title
        && r.value[id].maxScore == db.assessments[id].maxScore
        && r.value[id].questionCount == |db.assessments[id].questions|
    {
      if courseId !in db.courses then
        NotFound(Some(CourseNotFoundMessage))
      else
        Ok(map id | id in db.assessments && db.assessments[id].courseId == courseId ::
             var a := db.assessments[id];
             AssessmentSummary(a.assessmentId, a.title, a.maxScore, |a.questions|))
    }

    /** GET api/Assessments/{assessmentId}/result/{studentId}: the graded
        report of the first recorded result of that student for that
        assessment. */
    function GetAssessmentResult(assessmentId: Guid, studentId: Guid): (r: ActionResult<AssessmentReport>)
      reads db
      ensures assessmentId !in db.assessments ==> r == NotFound(Some(AssessmentNotFoundMessage))
      ensures assessmentId in db.assessments && (forall i :: 0 <= i < |db.results| ==> !ResultOf(assessmentId, studentId)(db.results[i])) ==>
        r == NotFound(Some(NoResultMessage))
      ensures forall i :: assessmentId in db.assessments && IsFirst(db.results, ResultOf(assessmentId, studentId), i) ==>
        r == Ok(GradeAssessment(db.assessments[assessmentId], db.results[i], studentId))
      ensures r.Ok? || r.NotFound?
    {
      if assessmentId !in db.assessments then
        NotFound(Some(AssessmentNotFoundMessage))
      else
        match FirstOrDefault(db.results, ResultOf(assessmentId, studentId))
        case Null => NotFound(Some(NoResultMessage))
        case Some(result) => Ok(GradeAssessment(db.assessments[assessmentId], result, studentId))
    }
  }
}
