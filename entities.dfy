/** The persisted entities and the database context the controllers share.
    Users, courses and assessments are tables looked up by primary key, so
    they are maps keyed by id; the results table is read with
    `FirstOrDefault` over a predicate that is not a key, so its row order is
    kept and it is a sequence. An assessment owns its questions and a
    question owns its options, so those two tables appear as nested
    sequences inside their owner. */
module Entities {
  import opened Common

  datatype Course = Course(courseId: Guid, title: string, description: string, instructorId: Guid)

  /** `courseIds` are the courses the user is enrolled in (the many-to-many
      `User.Courses` navigation). Role, PasswordHash and PasswordSalt may be
      null in the store: PostUser and PutUser copy them from a DTO, and
      PostUser never sets a salt. */
  datatype User = User(
    userId: Guid,
    name: string,
    email: string,
    role: Nullable<string>,
    passwordHash: Nullable<string>,
    passwordSalt: Nullable<string>,
    courseIds: set<Guid>)

  /** The `Option` entity: one choice of a question. */
  datatype AnswerOption = AnswerOption(optionId: Guid, text: string, isCorrect: bool)

  datatype Question = Question(questionId: Guid, assessmentId: Guid, questionText: string, options: seq<AnswerOption>)

  datatype Assessment = Assessment(assessmentId: Guid, courseId: Guid, title: string, maxScore: int, questions: seq<Question>)

  datatype StudentAnswer = StudentAnswer(questionId: Guid, selectedOptionId: Guid)

  /** A recorded attempt. `attemptDate` is a wall-clock value the model only copies. */
  datatype Result = Result(
    resultId: Guid,
    userId: Guid,
    assessmentId: Guid,
    score: int,
    attemptDate: int,
    studentAnswers: seq<StudentAnswer>)

  ghost predicate UsersKeyed(users: map<Guid, User>) {
    forall id :: id in users ==> users[id].userId == id
  }

  ghost predicate CoursesKeyed(courses: map<Guid, Course>) {
    forall id :: id in courses ==> courses[id].courseId == id
  }

  /** Every assessment is stored under its own id and every one of its
      questions refers back to it. */
  ghost predicate AssessmentsKeyed(assessments: map<Guid, Assessment>) {
    forall id :: id in assessments ==>
      && assessments[id].assessmentId == id
      && forall k :: 0 <= k < |assessments[id].questions| ==> assessments[id].questions[k].assessmentId == id
  }

  /** `AppDbContext`: the tables of the application's database. */
  class AppDbContext {
    var users: map<Guid, User>
    var courses: map<Guid, Course>
    var assessments: map<Guid, Assessment>
    var results: seq<Result>

    /** The key of every row is the row's own id. */
    ghost predicate Valid()
      reads this
    {
      UsersKeyed(users) && CoursesKeyed(courses) && AssessmentsKeyed(assessments)
    }

    constructor (users: map<Guid, User>, courses: map<Guid, Course>, assessments: map<Guid, Assessment>, results: seq<Result>)
      ensures this.users == users && this.courses == courses
      ensures this.assessments == assessments && this.results == results
      ensures Valid() <==> UsersKeyed(users) && CoursesKeyed(courses) && AssessmentsKeyed(assessments)
    {
      this.users := users;
      this.courses := courses;
      this.assessments := assessments;
      this.results := results;
    }
  }
}
