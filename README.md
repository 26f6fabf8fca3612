# Smart EdTech quiz server — a Dafny model

This project models the quiz and results logic of the Smart EdTech back end
(`backend/server.js`). The server is an Express application that keeps four
in-memory tables: students, teachers, quizzes and quiz results. It serves these
requests:

- logging in a student or a teacher by e-mail (ignoring case) and role;
- looking up students, teachers and a teacher's assigned students;
- creating quizzes, listing them with attempt counts, deleting them and ending them;
- listing the quizzes a student may still take, newest first;
- showing a quiz to a student without its answer key;
- grading a submission and storing its result;
- listing a student's results;
- the leaderboard: points per student, most points first, then least time taken.

Modules, in dependency order:

- `Wrappers` (`wrappers.dfy`): `Option`.
- `Seqs` (`seqs.dfy`): `Filter` and `FirstIndex`, the models of JavaScript's `Array.prototype.filter` and `find`.
- `StableSort` (`stable_sort.dfy`): a stable insertion sort on lexicographic integer ranks. It stands for `Array.prototype.sort`, which must be stable from ECMAScript 2019 on (section 22.1.3.27 of that edition).
- `Records` (`records.dfy`): the entities, the HTTP response (status and body), and the `find`-by-id lookups.
- `Accounts` (`accounts.dfy`): login and the student and teacher lookups.
- `Scoring` (`scoring.dfy`): the grading loop.
- `Availability` (`availability.dfy`): the student's quiz list and the student view of a quiz.
- `OrderedKeys` (`ordered_keys.dfy`): the order in which `Object.values` lists array-index keys. This is ascending numeric order, by section 10.1.11.1 of ECMAScript 2021 (OrdinaryOwnPropertyKeys).
- `Leaderboard` (`leaderboard.dfy`): the `playerStats` loop and the leaderboard ordering.
- `QuizServer` (`server.dfy`): class `Server`. Its fields `quizzes` and `quizResults` are the mutable module-level arrays. Its methods are the handlers that read or change them.

Clock values are parameters. These are `Date.now()`, the ISO strings from
`new Date().toISOString()`, and the `new Date()` used for comparisons. Each one
is an integer that orders like the instant it denotes. The handlers that only
read the student and teacher tables are functions of those tables (`Accounts`),
because the server never changes either table.

## Model

| member | source | states |
|---|---|---|
| Records.FindStudent | backend/server.js:43 | `students.find` by id: the index of the first student with that id; none exactly when no student has it |
| Records.FindTeacher | backend/server.js:47 | `teachers.find` by id: the first teacher with that id, or none exactly when no teacher has it |
| Records.FindQuiz | backend/server.js:115 | `quizzes.find` by id: the first quiz with that id, or none exactly when no quiz has it |
| Seqs.Filter | backend/server.js:102-103 | `filter` keeps exactly the elements satisfying the predicate and never lengthens the list |
| Seqs.FilterConcat | backend/server.js:90 | filtering a concatenation is the concatenation of the filtered parts (what a pushed result does to later filters) |
| Seqs.FilterKeepsAll | backend/server.js:105 | the filtered list is as long as the original exactly when every element passes, and is then the original |
| Seqs.FirstIndex | backend/server.js:115 | `find` yields the first index whose element satisfies the predicate, and none exactly when no element does |
| Accounts.Lower | backend/server.js:61 | `toLowerCase` keeps the length, leaves no ASCII capital, turns each capital into its small letter and keeps every other character |
| Accounts.LowerIdempotent | backend/server.js:61 | lower-casing twice is lower-casing once |
| Accounts.GetStudent | backend/server.js:42-45 | 200 with the first student with that id exactly when some student has the id, otherwise 404 with text "Student not found" |
| Accounts.GetTeacher | backend/server.js:46-49 | 200 with the first teacher with that id exactly when some teacher has the id, otherwise 404 with text "Teacher not found" |
| Accounts.AssignedStudents | backend/server.js:53 | a student is listed exactly when the teacher's `students` contains its id |
| Accounts.TeacherStudents | backend/server.js:50-55 | 404 "Teacher not found" exactly when no teacher has the id; otherwise 200 with exactly the assigned students of the first teacher with that id |
| Accounts.FindStudentByEmail | backend/server.js:61 | the first student whose e-mail equals the given one ignoring case; none exactly when no student's does |
| Accounts.FindTeacherByEmail | backend/server.js:63 | the first teacher whose e-mail equals the given one ignoring case; none exactly when no teacher's does |
| Accounts.Login | backend/server.js:56-73 | 400 "Email and role are required." exactly when either is empty; 200 exactly when the role is `student` or `teacher` and a user of that role has the e-mail ignoring case, and the body is that first user; otherwise 401 "Invalid credentials. User not found." |
| Accounts.LoginIgnoresCase | backend/server.js:61-63 | two e-mails that differ only in letter case log in identically |
| Scoring.PointsOf | backend/server.js:183 | `points \|\| 1`: a non-zero points value is kept, and a missing or zero one becomes 1 |
| Scoring.AnswerAt | backend/server.js:185 | `answers[index]` is the answer at that position, and `undefined` exactly past the end |
| Scoring.CorrectOption | backend/server.js:184 | the option at `correctAnswerIndex`, and `undefined` exactly when the index is missing or out of range |
| Scoring.AnsweredCorrectly | backend/server.js:185 | within the answers, correct exactly when the answer equals the indexed option; past the end, correct exactly when that option is `undefined` |
| Scoring.Grade | backend/server.js:180-188 | the loop's score and total equal `Earned` and `Possible`, the per-question sums of earned and possible points |
| Scoring.ScoreWithinTotal | backend/server.js:180-188 | with no negative points, the score lies between 0 and the total possible score |
| Scoring.TotalAtLeastQuestionCount | backend/server.js:183 | with no negative points, the total possible score is at least the number of questions |
| Scoring.AllCorrectFullMarks | backend/server.js:185-186 | answering every question correctly earns the full total |
| Scoring.NoneCorrectScoresZero | backend/server.js:185-186 | answering no question correctly earns 0 |
| Scoring.UnansweredMatchesMissingOption | backend/server.js:184-185 | a missing answer counts as correct when the answer key points at no option (`undefined === undefined`) |
| Availability.CompletedQuizIds | backend/server.js:131-133 | the ids listed are exactly those of quizzes for which the student has a result |
| Availability.Eligible | backend/server.js:144-152 | a quiz is kept exactly when it is active, inside its start and end times, and not completed by the student |
| Availability.NewestFirstIsComparator | backend/server.js:155 | the sort rank lets `a` precede `b` exactly when `b.createdOn - a.createdOn <= 0`, and ties exactly when it is 0 |
| Availability.AvailableQuizzes | backend/server.js:131-155 | a quiz is listed exactly when it is stored, active, inside its time window and not yet submitted by the student; the list is newest first and is a permutation of the filtered list |
| Availability.SameCreationKeepsStoreOrder | backend/server.js:155 | quizzes created at the same instant keep their store order (the sort is stable) |
| Availability.SubmittedQuizNotOffered | backend/server.js:149 | once a student's result is stored, that quiz is no longer offered to the student |
| Availability.StudentView | backend/server.js:164-165 | the copy has every quiz field and every question as before, except that no question has `correctAnswerIndex` |
| Availability.AnswerKey | backend/server.js:165 | the answer key has one entry per question |
| Availability.ViewLosesOnlyAnswerKey | backend/server.js:164-165 | putting the answer key back into the student view gives the original quiz |
| Availability.ViewIdempotent | backend/server.js:164-165 | hiding the answer key twice is hiding it once |
| OrderedKeys.InsertKey | backend/server.js:222 | inserting a key into an ascending key list keeps it strictly ascending and adds exactly that key |
| StableSort.Sort | backend/server.js:155 | the sorted list is a permutation of the input, ordered by the comparator's rank |
| StableSort.SortStable | backend/server.js:222-227 | elements of equal rank keep their input order (the sort is stable) |
| OrderedKeys.AscendingKeys | backend/server.js:222 | `Object.values` visits array-index keys in strictly ascending order, each key set once |
| Leaderboard.Tally | backend/server.js:213-220 | one entry per student with a result, each under its own id |
| Leaderboard.FirstNameExtend | backend/server.js:215-216 | a later result never changes a student's name; a student's first result sets it |
| Leaderboard.NotPlayerTotalsZero | backend/server.js:214-219 | a student without results has no points and no time |
| Leaderboard.EntryExtend | backend/server.js:214-219 | one more result adds its score and time to its own student's entry only |
| Leaderboard.CollectStats | backend/server.js:213-220 | the loop builds exactly `Tally`: per student, the first name seen, the sum of scores and the sum of times |
| Leaderboard.ObjectValues | backend/server.js:222 | the values of the stats object, one per key, in ascending key order |
| Leaderboard.ObjectValuesOfTally | backend/server.js:222 | the listed values are exactly the students' entries, in ascending id order |
| Leaderboard.DistinctCountsOnce | backend/server.js:222 | a list with strictly ascending ids holds each entry at most once |
| Leaderboard.PermutationKeepsIdsDistinct | backend/server.js:222-227 | sorting never duplicates a student |
| Leaderboard.PointsThenTimeIsComparator | backend/server.js:222-227 | the sort rank lets `a` precede `b` exactly when the comparator (points difference, else time difference) is at most 0, and ties exactly when it is 0 |
| Leaderboard.StandingsCoverPlayers | backend/server.js:222-227 | the sorted leaderboard lists every student with a result, once, with that student's totals |
| Leaderboard.StandingsTiesById | backend/server.js:222-227 | students with equal points and equal time come out in ascending id order |
| Leaderboard.Ranking | backend/server.js:212-229 | every student with a result appears exactly once, with total score, total time and first name; points descend, time ascends among equal points, and full ties are in ascending id order |
| Leaderboard.PermutationKeepsEntries | backend/server.js:222-227 | a permutation of the entries still carries each student's own totals and loses no student |
| Leaderboard.StudentResults | backend/server.js:206-210 | exactly the stored results of that student |
| Leaderboard.ResultsAddUpToPoints | backend/server.js:206-229 | a student's results add up to that student's leaderboard points |
| QuizServer.NewQuiz | backend/server.js:82 | the new quiz is active and created now; its id is the request's id when one is given, else the clock value; title, subject, teacher, start and end times and questions come from the request |
| QuizServer.EmptyQuestionListAccepted | backend/server.js:79 | the check is a truthiness test: a draft with a title, a teacher id and an empty question list passes |
| QuizServer.Ended | backend/server.js:117-118 | the quiz becomes inactive with end time now, and no other field changes |
| QuizServer.EndedNotOffered | backend/server.js:117-151 | an ended quiz is offered to no student at any time |
| QuizServer.WithoutQuiz | backend/server.js:102 | exactly the quizzes with a different id remain |
| QuizServer.WithoutResultsFor | backend/server.js:103 | exactly the results of other quizzes remain |
| QuizServer.ResultsFor | backend/server.js:90 | exactly the results of that quiz |
| QuizServer.DeleteRemovesAttempts | backend/server.js:90-103 | deleting a quiz removes as many results as the quiz's listed attempt count |
| QuizServer.SubmitAddsOneAttempt | backend/server.js:90-201 | a submission raises its quiz's attempt count by one and no other quiz's |
| QuizServer.Server.constructor | backend/server.js:18-33 | the store starts with the given tables and no results, which keeps every result tied to a stored quiz and a known student |
| QuizServer.Server.CreateQuiz | backend/server.js:77-86 | 400 "Invalid quiz data. Teacher ID is required." and nothing stored when title, questions or teacher id is missing; otherwise the new quiz is appended and returned with 201 "Quiz created successfully!" |
| QuizServer.Server.AllQuizzes | backend/server.js:88-97 | 200 and one entry per quiz, in store order, with the number of results for that quiz |
| QuizServer.Server.DeleteQuiz | backend/server.js:99-111 | the quiz and its results are removed; 200 "Quiz deleted successfully." exactly when some quiz had the id, else 404 "Quiz not found." |
| QuizServer.Server.EndQuiz | backend/server.js:113-124 | only the first quiz with the id becomes inactive and gets end time now, and it is returned with 200 "Quiz ended successfully"; no other quiz or result changes; 404 "Quiz not found" with nothing changed when no quiz has the id |
| QuizServer.Server.QuizzesFor | backend/server.js:128-158 | 404 "Student not found" for an unknown student; otherwise 200 with exactly the active, in-window, not-yet-submitted quizzes, newest first, as `AvailableQuizzes` lists them |
| QuizServer.Server.QuizForStudent | backend/server.js:160-170 | the first quiz with the id as the student view, in which no question carries its answer index; otherwise 404 "Quiz not found" |
| QuizServer.Server.Submit | backend/server.js:174-204 | 404 "Quiz or student not found." and nothing stored when either is unknown; otherwise exactly one result is appended with the graded score, question count, total possible score, student's name and quiz title, returned with 201; quizzes never change |
| QuizServer.Server.ResultsOf | backend/server.js:206-210 | 200 with exactly the stored results of that student, in store order |
| QuizServer.Server.GetLeaderboard | backend/server.js:212-229 | 200 with exactly one entry per student with a result, carrying that student's first name, total score and total time; points descend, time ascends among equal points, and full ties are in ascending id order; while every stored result names a known student, so does every entry |

## Left out

- The Express plumbing is not modelled: CORS, JSON body parsing, static files, the `/` greeting and `listen`. Neither is `console.log` output, since none of it affects state or responses.
- Passwords and the profile fields of the seeded users (grade, learning style, pace and the rest) are not modelled, because no handler inspects them. Neither is the seed data itself, since the constructor takes the tables as arguments.
- The room-presence and signalling features of the wider application are not part of this model; `backend/server.js` has no code for them.
- `averageScore` in `GET /api/quizzes/all` is floating-point arithmetic rounded with `toFixed(1)`. `QuizServer.Server.AllQuizzes` returns only each quiz and its attempt count.
- The clock is a parameter. `Date.now()`, `new Date().toISOString()` and the `Date` parsing of `startTime`, `endTime` and `createdOn` become integers that order as the instants do. An unparseable date (`Invalid Date`, whose comparisons are all false) is not modelled.
- QuizServer.Server.CreateQuiz: assumes `questions` is a list of question records, each with an `options` list. Line 79 only tests that `questions` is truthy, so a string, a number or `{}` is stored as well. So is a question that is `null` or has no `options`. Afterwards `QuizServer.Server.Submit` (lines 182-184) and `QuizServer.Server.QuizForStudent` (line 165) throw on that quiz; Express answers 500, and nothing is stored. The model's types cannot express such a quiz.
- QuizServer.Server.Submit: `answers` is always a list. A body without `answers` makes `answers[index]` throw for any quiz with a question, so Express answers 500 and nothing is stored; the model has no such path.
- Leaderboard.Ranking: every `timeTaken` is an integer. A submission without `timeTaken` stores `undefined`, which turns the student's `totalTimeTaken` into `NaN`; the comparator then treats that student as tied on time with everyone who has equal points. The model does not capture this.
- `parseInt` is not modelled. Path and body ids are integers. `NaN`, strings in `studentId`, `quizId` and `timeTaken`, and non-numeric `points` are outside the model.
- Leaderboard.ObjectValues: assumes every student id is a non-negative integer below 2^32 - 1 (an array-index key). Only such keys come first in ascending numeric order; other keys would follow in insertion order.
- Leaderboard.Ranking: the engine's sort algorithm is represented by a stable insertion sort. Stability and the comparator's order are what the model relies on, not the engine's particular algorithm.
- Scoring.ScoreWithinTotal: holds only when no question has negative points. The server does not validate points, so a question worth -5 earns 0 when answered wrongly, yet the total possible is -5 (`Scoring.NegativePointsExceedTotal`).
- Scoring.TotalAtLeastQuestionCount: holds only when no question has negative points, for the same reason.
- Accounts.Lower: ASCII letters only. `toLowerCase` also folds non-ASCII letters, which the model leaves unchanged.
- A request body whose `email` or `role` is missing is modelled as the empty string, because both are falsy in the same check.
- The deep copy with `JSON.parse(JSON.stringify(...))` in `QuizServer.Server.QuizForStudent` is modelled as a value copy. Value semantics already guarantee that the stored quiz keeps its answer key.
