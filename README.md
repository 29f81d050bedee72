# interview-hub: the question validator and the schema, in Dafny

interview-hub is a small Django REST service. Authenticated users write
questions and group them into interviews. Participants (candidates) answer
each question of an interview at most once. This project models the two parts of the
service that hold logic:

- **The question validator.** Before a question is created or updated, the
  serializer runs an object-level check on its validated attributes. A
  multiple-choice question must carry a list of at least two strings, and
  each must keep some character after whitespace is stripped. Otherwise the
  question is refused, with a fixed message and the offending value. A Scale
  question gets `scale_min = 1` and `scale_max = 5` added to its attributes.
  Every other question passes through unchanged. A type or option list left
  out of an update falls back to the stored question's value.
  `Serializers.Validate` models this as a pure function from an attribute
  map to `Result<map, ValidationError>`.
- **The schema and its rows.** The schema has two choice enumerations
  with their defaults and column bounds, and three records: Question,
  Interview and Submission. No two submissions share a
  (candidate, interview, question) triple, every listing is newest first,
  and deletes cascade along the foreign keys. `Store.Database` is a class
  that holds the users (by id) and the three tables as sequences, newest
  first. Its methods create and save rows and delete them with their
  cascades. Every method keeps the invariant `Store.DbOk`:
  - ids are unique;
  - each listing runs newest first;
  - submission triples are pairwise distinct;
  - every foreign key and association points at an existing row;
  - every column fits its bound.

Module layout:

| file | module | contents |
|---|---|---|
| wrappers.dfy | Wrappers | `Option`, `Result` |
| json.dfy | Json | JSON values, for the attribute map and the JSON columns |
| pystr.dfy | PyStr | Python's whitespace set and argument-less `strip` |
| models.dfy | Models | choices, defaults, bounds, record shapes |
| serializers.dfy | Serializers | the question validator and its properties |
| tables.dfy | Tables | filtering, first match and "pairwise" relations over rows |
| store.dfy | Store | the database invariant, the cascades, the `Database` class |

Modelling choices:

- **Timestamps.** `created_at`, `updated_at` and `submitted_at` are the
  value of one clock, a natural number. Every insert and every save
  advances the clock; creating a user and deleting rows leave it as it is.
  "Newest first" is therefore a strictly decreasing timestamp along each
  table.
- **Metric score.** `metric_score` is an optional integer count of
  hundredths. Fitting `decimal(5, 2)` means a magnitude of at most 99999.
- **Rows.** Each record is split into its client-writable columns (the
  `...Fields` datatypes, whose constructor defaults are the declared
  defaults) and the columns kept beside them: the ones the server sets (the
  id, the owner or candidate, and the timestamps) and, on a submission, the
  interview and question references, which the client supplies but which
  are keys and so sit outside `fields`. The two many-to-many associations of an interview (its
  questions, its allowed participants) are sets inside its row.
- **Cascades.** A delete is one pure function, `Store.Cascade`, applied to
  the deleted users, interviews and questions:
  - the rows themselves go;
  - interviews owned by a deleted user go;
  - submissions that refer to any deleted row go;
  - association entries that refer to a deleted row go.

  Deleting a user removes the interviews they own. That also removes every
  submission to those interviews, whoever made it, because those
  submissions lose their interview. Submissions by other users to
  interviews that survive stay.
- **Bounds.** The bounds on `title` and `project_code` are enforced when a
  row is written. In the service the serializer's field checks, generated
  from each column's `max_length`, refuse an over-long value before the
  object-level validator runs, and a PostgreSQL column would refuse it
  again; the in-memory SQLite database of the test settings does not
  enforce lengths. The model puts the refusal in the store's write: an
  over-long value is an error result and never a stored row.

## Model

| member | source | states |
|---|---|---|
| PyStr.IsSpace | interviewhub/serializers.py:15 | (a definition) exactly the characters Python's argument-less strip removes: tab to carriage return, the separators 0x1C-0x1F, space, 0x85, 0xA0, 0x1680, 0x2000-0x200A, 0x2028, 0x2029, 0x202F, 0x205F and 0x3000 |
| PyStr.LeadingSpaces | interviewhub/serializers.py:15 | the length of the longest all-whitespace prefix: every character before it is whitespace, the one at it is not |
| PyStr.TrailingSpaces | interviewhub/serializers.py:15 | the length of the longest all-whitespace suffix: every character in it is whitespace, the one before it is not |
| PyStr.Strip | interviewhub/serializers.py:15 | stripping never lengthens a string, and a non-empty result starts and ends with a non-whitespace character |
| PyStr.StripCutsOnlyWhitespace | interviewhub/serializers.py:15 | the strip of a string is one contiguous slice of it, and every character cut off before or after that slice is whitespace |
| PyStr.StripNonEmptyIff | interviewhub/serializers.py:15 | the truth test on a stripped option holds exactly when the option holds some non-whitespace character |
| PyStr.StripIdempotent | interviewhub/serializers.py:15 | stripping twice is the same as stripping once |
| Models.ParseQType | interviewhub/models.py:5-18 | the choices check of the qtype column: a stored code names the type whose code it is, and an unknown code names none (the display labels "Multiple Choice", "Open Ended", "Scale (1-5)" are the plain definition `QType.Label`) |
| Models.ParseConfidentiality | interviewhub/models.py:31-48 | the choices check of the confidentiality column, in the same two directions (the display labels "Public results", "Internal only", "Anonymous outputs" are the plain definition `Confidentiality.Label`) |
| Models.ChoicesRoundTrip | interviewhub/models.py:5-48 | every question type and every confidentiality parses back from its stored code, and every code fits the 16-character column |
| Models.MetricRange | interviewhub/models.py:66 | a score fits decimal(5, 2) exactly when it lies between -999.99 and 999.99, i.e. between -99999 and 99999 hundredths |
| Models.QuestionDefaults | interviewhub/models.py:16-20 | a question given only a title has an empty body, type "Open Ended", and empty tags and options lists |
| Models.InterviewDefaults | interviewhub/models.py:43-50 | an interview given only a title has an empty description and project code, no questions or participants, no schedule, is unpublished, and is "internal" |
| Models.SubmissionDefaults | interviewhub/models.py:65-69 | a submission given nothing has an empty answer, no score, is not anonymous, has no consent and an empty meta, and fits the score bound |
| Serializers.EffectiveQType | interviewhub/serializers.py:10 | the submitted type when there is one; otherwise, on an update, the stored type's code, which parses back to that type; otherwise none |
| Serializers.EffectiveOptions | interviewhub/serializers.py:11 | (a definition) the submitted options when there are any; otherwise the stored options on an update, and the empty list on a create |
| Serializers.McqOptionsOk | interviewhub/serializers.py:15 | (a definition) the options are a list of at least two elements, each a string whose strip is non-empty |
| Serializers.Validate | interviewhub/serializers.py:9-23 | an accepted question keeps every attribute it came with, and its keys are the input's plus at most scale_min and scale_max; only those two may change or be added |
| Serializers.LiteralsMatchModel | interviewhub/serializers.py:14-19 | the literals the validator compares against are the stored codes of the multiple-choice and scale types |
| Serializers.McqOptionsOkIff | interviewhub/serializers.py:15 | the option check holds exactly when the options are a list of at least two strings, each with a non-whitespace character |
| Serializers.McqAcceptedIff | interviewhub/serializers.py:14-16 | a multiple-choice question is accepted exactly when its effective options pass the check, and is then returned unchanged |
| Serializers.McqRejection | interviewhub/serializers.py:16 | a refused multiple-choice question's error has exactly the keys "options" (the fixed message) and "options values" (the effective options) |
| Serializers.OnlyMcqRefused | interviewhub/serializers.py:14-23 | only a multiple-choice question is ever refused |
| Serializers.CreateMcqWithoutOptionsRefused | interviewhub/serializers.py:10-16 | on create, a multiple-choice question without options is refused, and the echoed value is the empty list |
| Serializers.UpdateFallsBackToInstance | interviewhub/serializers.py:10-11 | an update that sends neither type nor options is judged on the stored type and options: refused exactly when the stored question is multiple-choice with bad options, and given bounds when stored as Scale |
| Serializers.ScaleSetsBounds | interviewhub/serializers.py:18-21 | a Scale question is accepted, its keys are the input's plus scale_min and scale_max, those are 1 and 5, and 1 < 5 |
| Serializers.OtherTypesUnchanged | interviewhub/serializers.py:14-23 | any other type is accepted unchanged, whatever its options |
| Serializers.ValidateIdempotent | interviewhub/serializers.py:9-23 | validating an accepted result again, with the same instance, yields the same result |
| Serializers.ScaleQuestionOfFlowAccepted | tests/test_flow.py:25-28 | the flow's "Leadership clarity" Scale question, sent without options, is accepted |
| Serializers.McqQuestionOfFlowAccepted | tests/test_flow.py:32-36 | the flow's "Preferred tool" question with options Jira, Confluence and Slack is accepted unchanged |
| Serializers.McqBlankOptionRefused | interviewhub/serializers.py:15-16 | a multiple-choice question whose second option is only whitespace is refused |
| Serializers.OpenEndedBlankOptionAccepted | interviewhub/serializers.py:14-23 | an open-ended question with one blank option is accepted |
| Store.DbOk | interviewhub/models.py:16-74 | (a definition) the schema's rules: every user, question, interview and submission id is below its sequence's next value; every interview's owner, questions and participants and every submission's candidate, interview and question exist; titles, project codes and scores fit their columns; timestamps are in the past and created_at <= updated_at; each table is strictly newest first with distinct ids, and submission triples are pairwise distinct |
| Store.Listings | interviewhub/models.py:24-74 | in a consistent database every table runs strictly newest first with unique ids (questions, interviews and submissions), and no two submissions share a triple |
| Store.Unlinked | interviewhub/models.py:45-50 | row by row and in the same order, each interview's question set loses exactly the deleted questions and its participant set exactly the deleted users, so neither meets a deleted row; its id, owner, timestamps and every other column are unchanged |
| Store.CascadeQuestions | interviewhub/models.py:4-25 | exactly the questions not deleted remain, and the id set shrinks by exactly the deleted ids |
| Store.CascadeInterviews | interviewhub/models.py:42-50 | exactly the interviews neither deleted nor owned by a deleted user remain, each unlinked from the deleted rows |
| Store.CascadeSubmissions | interviewhub/models.py:62-64 | exactly the submissions whose candidate, interview and question all survive remain |
| Store.Cascade | interviewhub/models.py:42-64 | after deleting users, interviews and questions: the users are the old ones less the deleted; exactly the undeleted questions remain; no remaining interview is deleted, owned by a deleted user, or linked to a deleted question or participant; exactly the submissions whose candidate, interview and question all survive remain |
| Store.CascadeInterviewIds | interviewhub/models.py:42 | when every interview of a deleted owner is deleted, the interview ids shrink by exactly the deleted ids |
| Store.CascadeKeepsOk | interviewhub/models.py:42-64 | after any cascade that includes the deleted users' interviews, the database is consistent again: no dangling key, order and uniqueness kept |
| Store.CascadeOfAbsentRows | interviewhub/models.py:42-64 | deleting rows that do not exist changes nothing |
| Store.AddUserKeepsOk | tests/test_flow.py:8-9 | a new user id is fresh, and adding it keeps the database consistent |
| Store.InsertQuestionKeepsOk | interviewhub/models.py:16-25 | a new question with a bounded title, at the front and with a fresh id, keeps the database consistent |
| Store.SaveQuestionKeepsOk | interviewhub/models.py:21-22 | rewriting a question's columns and refreshing updated_at in place keeps the database consistent |
| Store.InsertInterviewKeepsOk | interviewhub/models.py:42-55 | a new interview whose owner, questions and participants exist and whose columns fit keeps the database consistent |
| Store.SaveInterviewKeepsOk | interviewhub/models.py:51-52 | rewriting an interview's columns and refreshing updated_at in place keeps the database consistent |
| Store.InsertSubmissionKeepsOk | interviewhub/models.py:62-74 | a new submission with existing references and a free triple, at the front, keeps every triple distinct and the database consistent |
| Store.DeleteInterviewEffect | interviewhub/models.py:63 | deleting an interview removes exactly that interview and exactly the submissions to it; users and questions stay |
| Store.DeleteQuestionEffect | interviewhub/models.py:45-64 | deleting a question removes it and exactly the submissions to it; every interview stays in place and only loses that question |
| Store.DeleteUserEffect | interviewhub/models.py:42-62 | deleting a user removes the account and exactly the interviews they own; the submissions left are those by others to surviving interviews; no interview still lists the user |
| Store.Database.constructor | interviewhub/models.py:4-74 | an empty database is consistent |
| Store.Database.CreateUser | tests/test_flow.py:8-9 | a fresh user id is added and nothing else changes |
| Store.Database.InsertQuestion | interviewhub/models.py:16-22 | created exactly when the title fits 200 characters; the new row, stamped now, goes at the front under a fresh id; refused writes change nothing |
| Store.Database.SaveQuestion | interviewhub/models.py:21-22 | an unknown id or an over-long title is refused with no change; otherwise exactly that row gets the new columns and updated_at, and the order stays |
| Store.Database.InsertInterview | interviewhub/models.py:42-52 | created exactly when the owner, every question and every participant exist and the title and project code fit; the new row goes at the front under a fresh id; refused writes change nothing |
| Store.Database.SaveInterview | interviewhub/models.py:42-52 | accepted exactly when the interview exists and the new columns are writable for its owner; exactly that row changes, with a refreshed updated_at |
| Store.Database.InsertSubmission | interviewhub/models.py:62-74 | a submission with a taken triple is refused as a duplicate and the table is unchanged; a writable one with a free triple grows the table by exactly that row, in front |
| Store.Database.DeleteInterview | interviewhub/models.py:63 | the new state is the interview's cascade; deleting a missing interview changes nothing |
| Store.Database.DeleteQuestion | interviewhub/models.py:45-64 | the new state is the question's cascade; deleting a missing question changes nothing |
| Store.Database.DeleteUser | interviewhub/models.py:42-62 | the new state is the cascade of the user and the interviews they own; deleting a missing user changes nothing |

## Left out

- Views, routes, admin registration and settings: these are framework wiring with no logic, and urls.py names views not shown in views.py.
- Authentication (token issue, bearer credentials, staff flags): the user model is not part of this model, and a user is only an id.
- The user model and the flow test's end-to-end run over the store: the flow's two questions are checked against the validator (`Serializers.ScaleQuestionOfFlowAccepted`, `Serializers.McqQuestionOfFlowAccepted`). The flow's two submissions have distinct triples and exercise only the success direction of `Store.Database.InsertSubmission`; the refusal of a taken triple comes from the schema's unique constraint (interviewhub/models.py:73).
- Field-level serializer checks that run before the validator (type coercion, choices, required fields) and the normalisation of error details into lists: the validator sees already-typed attributes and raises the error map as written.
- Saving `scale_min`/`scale_max`: the Question model has no such columns, so only the validator's output map is modelled. The serializer has no create of its own, and the stock model-serializer create would hand both keys to the Question constructor, which has no such fields. As shown, a Scale question would then fail on create instead of returning the created row the flow test expects, unless a view not shown here drops the keys. This follows from reading the code; the model stops at the validator's output.
- Submission answer checks, question filtering and duplicate-answer error translation: none of them appears in the modelled files.
- Real datetimes and the wall clock: replaced by a monotone natural-number clock that every insert and save advances.
- Decimal arithmetic and decimal places: a score is an integer count of hundredths, so the two-decimal scale holds by construction.
- JSON numbers other than integers: `Json.Value` has integers only, because the validator never looks inside numbers.
- The contents of `meta`, `tags` and `body`: they are opaque values with no rules attached.
- Unicode beyond Python's whitespace set: strings are sequences of characters, with no normalisation or case rules.
- Database concurrency: writes happen one at a time, so two inserts of the same triple cannot race.
- The order of checks inside one write: when a write breaks several rules at once, the model reports the first in a fixed order. The database would report whichever constraint it meets first.
- Store.Database.SaveInterview: a save rewrites the client-writable columns only. Reassigning an interview's owner is not modelled, because no code in the modelled files does it.
