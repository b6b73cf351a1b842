# Assessment backend controllers: a Dafny model

This project models the three controllers of an ASP.NET course-assessment
backend and proves properties about them.

- **AssessmentsController** reads, replaces, creates and deletes assessments
  together with their question and option trees. It lists the assessments of
  a course. It also grades one student's recorded result: every question is
  matched against the student's answers and the question's options, and the
  report carries a correct count, a total count and a `"c/t"` score.
- **AuthController** registers users with a salted HMAC-SHA512 password hash.
  It logs users in:
  - an unknown e-mail and an account without a hash are refused;
  - an account without a salt goes through a legacy check, which migrates the
    record to a salted hash when it succeeds;
  - a salted account is checked by recomputing the hash.
  A successful login returns a token whose claims are the user's id, e-mail
  and role.
- **UsersController** reads, overwrites, creates and deletes user records by
  id.

Modules:

- `Common`: Guids (128-bit numbers), bytes and nullable values. Also the action
  results an endpoint returns, and the LINQ first-match query (`FirstOrDefault`)
  the controllers use.
- `Formatting`: decimal text of a number and the canonical text of a Guid, each
  with a parser and a round-trip lemma. The grading score and the token's id
  claim are written with these.
- `Entities`: the stored records, and the database context `AppDbContext`.
  - The context is a class whose tables are fields.
  - Users, courses and assessments are maps keyed by id.
  - Results are a sequence: the results query takes the first match, and
    a sequence fixes one row order for it.
  - Questions sit inside their assessment, and options inside their question.
  - `Valid()` says every row is stored under its own id, and every question
    refers to its assessment.
- `Grading`: the pure computation behind `GetAssessmentResult`.
- `Assessments`, `Auth`, `Users`: one controller class each. Its methods change
  the context's fields and keep `Valid()`.

The cryptography is not modelled. HMAC-SHA512, Base64 encoding and Base64
decoding are function values in a `Crypto` record. A `Lawful` predicate states
the three facts about them the proofs use:

- decoding inverts encoding;
- a non-empty byte string encodes to non-empty text;
- a digest has 64 bytes.

Some values are parameters of the operations: each random HMAC key,
`Guid.NewGuid()`, and the attempt date.

The legacy check `VerifyPasswordHashWithoutSalt` keys its HMAC with a fresh
random key (`legacyKey`), not a stored one. So whether a legacy login succeeds
depends on that key, and the model never claims it does.

## Model

| member | source | states |
|---|---|---|
| Common.Coalesce | Controllers/AuthController.cs:50 | `x ?? fallback` is the value when present and the fallback when null |
| Common.FirstIndex | Controllers/AssessmentsController.cs:341-343 | the index found is the first whose element satisfies the predicate; Null exactly when no element does |
| Common.FirstOrDefault | Controllers/AssessmentsController.cs:330-332 | Null exactly when nothing matches; otherwise the element at the first matching position |
| Common.FirstIsUnique | Controllers/AssessmentsController.cs:341-343 | the first matching position is unique |
| Common.FirstOrDefaultCons | Controllers/AssessmentsController.cs:330-332 | the first match of a non-empty sequence is its head when the head matches, and otherwise the first match of its tail |
| Formatting.NatToString | Controllers/AssessmentsController.cs:375 | the decimal text of a count is non-empty, all digits, and has no leading zero except for 0 |
| Formatting.NatToStringParses | Controllers/AssessmentsController.cs:375 | parsing the decimal text of n gives back n |
| Formatting.GuidToString | Controllers/AuthController.cs:162 | `Guid.ToString()` is 36 characters with hyphens at positions 8, 13, 18 and 23, and every other character a lower-case hexadecimal digit |
| Formatting.GuidToStringParses | Controllers/AuthController.cs:162 | parsing a Guid's text gives back the Guid |
| Formatting.GuidToStringInjective | Controllers/AuthController.cs:162 | two Guids with the same text are equal |
| Grading.GradeQuestion | Controllers/AssessmentsController.cs:339-363 | one graded entry per question. `SelectedOptionId` is the first matching answer's selection, and null exactly when the student has no answer. `IsCorrect` holds iff there is such an answer and the first option with the selected id is flagged correct. `SelectedOptionText` is the text of the first option with the selected id, and null exactly when there is no answer or no option has that id. The correct option is the first option flagged correct, or null. Ids and texts are copied |
| Grading.GradeAll | Controllers/AssessmentsController.cs:339-363 | one entry per question, in question order, each the grading of its question |
| Grading.CountCorrect | Controllers/AssessmentsController.cs:366 | the count of correct entries is at most the number of entries |
| Grading.CountCorrectIsCardinality | Controllers/AssessmentsController.cs:366 | the count equals the number of positions whose entry is correct |
| Grading.CountCorrectAllCorrect | Controllers/AssessmentsController.cs:366 | all entries correct gives a count equal to the number of entries |
| Grading.CountCorrectNoneCorrect | Controllers/AssessmentsController.cs:366 | no entry correct gives a count of 0 |
| Grading.ScoreTextParses | Controllers/AssessmentsController.cs:375 | `"{c}/{t}"` parses back to (c, t) |
| Grading.FormatScore | Controllers/AssessmentsController.cs:375 | the score text parses back to the two counts it was made from |
| Grading.GradeAssessment | Controllers/AssessmentsController.cs:339-378 | the report copies the assessment's id and title, the student id and the attempt date. It has one entry per question, in question order, each graded as GradeQuestion says. `TotalQuestions` is the number of questions. `CorrectAnswers` is the number of correct entries and at most `TotalQuestions`. `Score` is `"{c}/{t}"` and parses back to those counts |
| Grading.KeyIsGradedCorrect | Controllers/AssessmentsController.cs:341-353 | when option ids are distinct and the student's first answer selects an option flagged correct, the entry is correct |
| Grading.AnswerKeyScoresFull | Controllers/AssessmentsController.cs:339-375 | answering every question with its key gives CorrectAnswers = TotalQuestions |
| Grading.UnansweredScoresZero | Controllers/AssessmentsController.cs:339-366 | a result answering none of the questions gives CorrectAnswers = 0, and every selection is null |
| Assessments.AssessmentFromDto | Controllers/AssessmentsController.cs:161-218 | the built assessment takes id, course, title and max score from the DTO. It has one question per question DTO, each carrying the assessment's id. Projecting it back (the CreatedAtAction body) gives the DTO again |
| Assessments.BuildQuestions | Controllers/AssessmentsController.cs:112-132 | the nested loops produce, in order, one question per question DTO with the assessment's id, each owning one option per option DTO with its id, text and flag |
| Assessments.ToCreateDto | Controllers/AssessmentsController.cs:201-218 | the CreatedAtAction body carries the assessment's id, course, title and max score, and one entry per question with its id and one entry per option |
| Assessments.CreateDtoRoundTrip | Controllers/AssessmentsController.cs:161-218 | an assessment whose questions all refer to it is rebuilt exactly from its projection |
| Assessments.ResultsWithout | Controllers/AssessmentsController.cs:235-250 | a result is kept iff it is stored and belongs to another assessment; no result is added |
| Assessments.ResultsWithoutKeepsFirstMatch | Controllers/AssessmentsController.cs:235-250 | dropping the results of one assessment keeps the order of the others: for every other assessment and student the first matching result is the same |
| Assessments.AssessmentsController.GetAssessment | Controllers/AssessmentsController.cs:54-78 | Ok with the stored assessment iff the id is stored; otherwise a bare NotFound |
| Assessments.AssessmentsController.PutAssessment | Controllers/AssessmentsController.cs:80-153 | a route id different from the DTO's gives a bare BadRequest, and an absent id a bare NotFound; both leave the store unchanged. Otherwise NoContent: title, max score and course come from the DTO, and the question tree is replaced entirely by the DTO's, with every question carrying the id. Other assessments are unchanged and the store stays valid |
| Assessments.AssessmentsController.PostAssessment | Controllers/AssessmentsController.cs:155-225 | a new id stores the assessment the DTO describes and answers CreatedAt with a projection equal to the DTO; an existing id fails the save (500) and stores nothing |
| Assessments.AssessmentsController.DeleteAssessment | Controllers/AssessmentsController.cs:227-267 | an absent id gives NotFound("Assessment not found") and changes nothing. Otherwise NoContent: the assessment, its questions and options, and its results are removed, and every other row stays. Afterwards no student has a result for it, and every other assessment grades the same result for every student as before |
| Assessments.AssessmentsController.GetAssessmentsByCourse | Controllers/AssessmentsController.cs:274-313 | NotFound("Course not found") iff the course is absent. Otherwise exactly the course's assessments, each with its id, title, max score and question count |
| Assessments.AssessmentsController.GetAssessmentResult | Controllers/AssessmentsController.cs:315-379 | a missing assessment gives NotFound("Assessment not found"). No result for the pair gives NotFound("No result found ..."). Otherwise Ok with the graded report of the first result for that assessment and student in the store's row order |
| Auth.CreatePasswordHash | Controllers/AuthController.cs:181-188 | the salt is the 128-byte HMAC key, and the pair passes `VerifyPasswordHash` for the password it was made from |
| Auth.TokenClaims | Controllers/AuthController.cs:158-165 | exactly three claims: the name identifier (whose text parses back to the user id), the e-mail and the role |
| Auth.ClaimsIdentifyUser | Controllers/AuthController.cs:160-165 | two users with the same claims have the same id, e-mail and role |
| Auth.IssueToken | Controllers/AuthController.cs:127-146 | Ok iff the user has a role, with that user's claims and a view of their id, name, e-mail and role; a null role makes CreateToken throw, and the catch answers with the error BadRequest |
| Auth.Authenticate | Controllers/AuthController.cs:83-156 | only the hash and salt of the record can change, and the answer is Ok or BadRequest. No hash: "Invalid user account..." and no change. Salted: no change, and Ok iff both fields decode, the recomputed HMAC equals the stored hash and there is a role. Legacy: a successful check rewrites the record to a fresh salted pair and issues the token; a failed one changes nothing. A wrong password never changes the record |
| Auth.Migrated | Controllers/AuthController.cs:105-108 | the migration changes only the hash and salt; under `Lawful` the record is then salted and the same password matches it on the salted path |
| Auth.RegisteredUser | Controllers/AuthController.cs:43-53 | the stored record has the new id, the request's name and e-mail, the role `request.Role ?? "User"` and no courses; under `Lawful` it is salted and its own password matches it |
| Auth.RegisteredUserIsSalted | Controllers/AuthController.cs:43-53 | a registered record has a non-empty hash and salt. The salt decodes to the HMAC key and the hash decodes to HMAC(key, password). The role is the request's role, or "User" when null |
| Auth.RegisteredUserLogsIn | Controllers/AuthController.cs:43-127 | logging in with the password a record was registered with takes the salted path, succeeds with that user's token, and changes nothing |
| Auth.MigrationIsOneTime | Controllers/AuthController.cs:92-125 | after a successful legacy login the record is salted. The same password then succeeds on the salted path without further change, whatever random keys that login draws |
| Auth.AuthController.Register | Controllers/AuthController.cs:29-66 | an e-mail already stored gives BadRequest("User already exists") and no change. Otherwise Ok("User registered successfully") and exactly one new record, the salted one RegisteredUser describes, under the new id |
| Auth.AuthController.Login | Controllers/AuthController.cs:68-156 | an unknown e-mail gives BadRequest("User not found") and no change. Otherwise some record with that e-mail is chosen; the answer and its saved state are what Authenticate gives for it, and every other record stays |
| Auth.RegisterThenLogin | Controllers/AuthController.cs:29-156 | on a store without the e-mail, registering and then logging in with the same password both succeed, with the token and view of the registered user |
| Users.LinkedCourses | Controllers/UsersController.cs:174-183 | the linked courses are exactly the stored courses whose id is listed; none when the list is null or empty |
| Users.NewUser | Controllers/UsersController.cs:164-183 | a new record takes id, name, e-mail, role and hash from the DTO. It has no salt, and its courses are exactly LinkedCourses of the DTO's list |
| Users.UsersController.UserExists | Controllers/UsersController.cs:257-260 | true iff a user with that id is stored |
| Users.UsersController.GetUser | Controllers/UsersController.cs:57-83 | Ok with the stored user iff the id exists; otherwise a bare NotFound |
| Users.UsersController.PutUser | Controllers/UsersController.cs:85-152 | a route id different from the DTO's gives BadRequest, and an absent id NotFound, with no change. Otherwise NoContent: exactly name, e-mail, role and hash are overwritten, while courses, salt and every other user stay |
| Users.UsersController.PostUser | Controllers/UsersController.cs:154-220 | a new id stores NewUser and answers CreatedAt with it; an existing id answers Conflict and adds nothing |
| Users.UsersController.DeleteUser | Controllers/UsersController.cs:222-255 | an absent id gives NotFound and no change. Otherwise NoContent, and exactly that user is removed. Afterwards GetUser finds nothing |
| Users.PostThenGet | Controllers/UsersController.cs:57-220 | a user created under a new id reads back as created, without a salt |

## Left out

- Telemetry, logging and console output are not modelled: they have no effect on results or state.
- The `Program.cs` wiring and the telemetry services are not part of this model.
- `GetAssessments` and `GetUsers` return every row unchanged and are not modelled.
- Most of the controllers' generic `catch (Exception)` branches are not modelled:
  - some rethrow;
  - `DeleteAssessment` and `GetAssessmentsByCourse` answer 500 with the exception's message there.
- The exceptions the model does follow are these:
  - the save failure of `PostAssessment` on a duplicate id (500);
  - `Login`'s catch, which turns a Base64 `FormatException` and the null-role `Claim` exception into BadRequest("An error occurred during login. Please try again.");
  - `PostUser`'s `DbUpdateException` on a duplicate id, answered with Conflict.
- The `DbUpdateConcurrencyException` paths of `PutAssessment` and `PutUser` are races with other requests, and the model is sequential.
- EF Core's `Include`/`ThenInclude` and asynchronous saves are not modelled. The model keeps related rows inside their owner and treats each save as immediate.
- HMAC-SHA512, random key generation and Base64 are taken as given functions, constrained only by `Lawful`.
- The JWT's signing key, issuer, audience, serialisation and 30-minute expiry are not modelled. A token is its list of claims.
- Null `Name`, `Email` or `Password` in a request are not modelled. The strings are total, so the exceptions that would follow are not modelled either.
- Foreign keys are not enforced:
  - `PostAssessment` and `PutAssessment` accept any course id;
  - no cascade follows when a user is deleted.
- Auth.AuthController.Login: the store's `FirstOrDefault` by e-mail has no defined order, so the model chooses any record with that e-mail rather than one fixed record.
- Assessments.AssessmentsController.PostAssessment: the assessment id's uniqueness is the only failure modelled. Question or option ids that clash with stored rows, or with each other inside the DTO (two questions, or two options even under different questions, with one id), are not checked. In the source, `Assessments.Add` cannot track two instances with one key and throws, the catch rethrows, and the answer is 500; the model answers CreatedAt and stores them.
- Assessments.AssessmentsController.PutAssessment: question or option ids of the DTO that clash with rows of other assessments, or with each other inside the DTO, are not checked. There the save throws, the catch takes only `DbUpdateConcurrencyException`, and the source answers 500 where the model answers NoContent. A question or option that reuses an id the same assessment held before the update is treated as a plain replacement; the source still tracks the old row as deleted when the new one is attached, and how the change tracker resolves that is not modelled.
- Grading.GradeQuestion: questions, options and student answers are loaded with `Include`/`ThenInclude` and no `OrderBy`, so the source reads them back in whatever order the database provider returns. The model fixes that order as stored sequences, in DTO order after PutAssessment and PostAssessment. So it fixes the order of the report's `Answers` list, which of two answers to one question is graded, which of two options with the selected id is chosen, which option flagged correct is the key, and the question order `GetAssessment` returns.
- Assessments.AssessmentsController.GetAssessmentResult: the results query has no `OrderBy`, so which of several results for one student and assessment is graded is not defined by the source. The model fixes one row order, the sequence `results`, and grades the first match in it.
- Auth.AuthController.Register: `Guid.NewGuid()` is taken never to collide with a stored id (`newId !in db.users`).
- Auth.IssueToken: `CreateToken` is taken to fail only on a null role. A missing or too-short `Jwt:Key` setting would also throw inside the try and answer BadRequest; the configuration is not modelled. `RegisterThenLogin`'s successful login rests on this assumption and on the one above.
- Auth.EmailTaken: e-mails are compared by exact (ordinal) string equality, as the in-memory provider of the tests does. On SQL Server with its default case-insensitive collation, which also ignores trailing spaces, `Register` and `Login` would treat e-mails that differ only in case or trailing spaces as equal; the model does not capture that.
- Users.UsersController.PostUser: only an id clash is modelled as failing the save, followed by the `UserExists` check that answers Conflict.
- `VerifyPasswordHash` and `VerifyPasswordHashWithoutSalt` (Controllers/AuthController.cs:190-206) are predicates. Their content is the comparison they make, and their laws are the Auth lemmas above.
- The models and DTO classes of the source are not part of this model. Their fields are taken from the controllers and the tests.
- Course and result controllers are not part of this model.
