# Student validate-then-persist pipeline, in Dafny

This project models the student back end of a school-management application. A request payload goes through these steps:

1. It is parsed by a Zod object schema, which normalises blank text to `null` and collects every field's issue.
2. The service checks that the target student exists, for update, status and delete.
3. It checks that the e-mail is not already taken, for create and update.
4. It writes the record.
5. On create, it sends a verification e-mail on a best-effort basis.

Every failure inside an operation goes through one `catch` block that turns it into an `ApiError` with status 400, 404 or 500.

The project has four modules:

- `JsonValues` (json_values.dfy): the raw request values, which are `undefined`, `null`, a string, a boolean, a number or anything else, and the request object as a map from keys to values.
- `ZodTransform` (zod_transform.dfy): the subset of ECMAScript `String.prototype.trim`, and `emptyToNullTransform`.
- `StudentsSchema` (students_schema.dfy):
  - one `Rule` per Zod chain that occurs in the schemas;
  - the three schemas written as field tables (`StudentShape`, `UpdateShape`, `StatusShape`);
  - one generic object validator, `ParseShape`, that returns the normalised record or every issue message in field order;
  - the `YYYY-MM-DD` pattern and the (year, month, day) value read from it.
- `StudentsService` (students_service.dfy):
  - the thrown values and the `catch` classification;
  - `getAllStudents`;
  - a `StudentStore` class. It holds the students table, the users table (e-mail to user id), the next auto-increment id, and the log of repository and mail calls in the order they are issued. Its methods are the four state-changing operations; its functions are the lookups.

Zod's e-mail syntax check and JavaScript's `Number(x)` for strings and objects are not defined here. They are the two fields of an `Env` value that every parse takes as a parameter:
- an e-mail predicate;
- a coercion that yields an integer, or `None` for NaN.

`Number(x)` for `undefined`, `null`, booleans and numbers is fixed by JavaScript, and the model computes it (`ToNumber`): `undefined` is NaN and `null` is 0.

The schemas are modelled as Zod 3.23 and later parse them. In those versions a `message` parameter overrides `required_error` and `invalid_type_error`, so `gender` and `status` report their one `message` for every failure.

The repository outcomes are parameters of the methods: whether `addOrUpdateStudent` succeeded, threw or reported failure, the number of affected rows, and whether the verification e-mail was sent.

Facts about the code that the model keeps as written:
- **Length before blank-to-null.** The length check of an optional text field runs before the blank-to-null transform, so a whitespace-only string longer than the limit is rejected. A blank string within the limit becomes `null`.
- **`dob` is required.** It has no `.nullish()`, so a missing `dob` fails with Zod's `'Required'`.
- **Uniqueness against all users.** E-mail uniqueness is checked against the whole users table, not only against students.
- **Failed writes are 500.** A persist that reports failure, or a status or delete write that affects no rows, throws an `ApiError(400, …)` inside the `try`. Its own `catch` re-catches it and, because it carries no `validationError`, turns it into a 500 with the operation's fixed message. The 400 and its message never reach the caller.
- **Id messages that never surface.** `z.coerce.number` coerces first, so a missing id is already NaN, and the number check rejects NaN before `.refine` runs. Every id that is not a number, a missing one included, is reported with `invalid_type_error` ('User ID must be a number', 'Reviewer ID must be a number'). The ids' `required_error` texts and the refine text 'User ID must be a valid number' are never reported.
- **`status` has one message.** `'Status is required'` is reported for a missing `status` and for a non-boolean one alike; 'Status must be true or false' is never reported.

## Model

| member | source | states |
|---|---|---|
| ZodTransform.TrimEmptyIff | backend/src/utils/zod-transform.js:2 | `trim()` of a string is empty exactly when every character is ECMAScript white space or a line terminator |
| ZodTransform.EmptyToNull | backend/src/utils/zod-transform.js:1-7 | a blank (empty or whitespace-only) string becomes null; every other value comes back unchanged, including a non-blank string with surrounding spaces and every non-string |
| ZodTransform.EmptyStringToNull | backend/src/utils/zod-transform.js:2-3 | the empty string becomes null |
| ZodTransform.EmptyToNullIdempotent | backend/src/utils/zod-transform.js:1-7 | applying the transform twice equals applying it once |
| ZodTransform.EmptyToNullNeverBlank | backend/src/utils/zod-transform.js:2-6 | the result is never a blank string |
| StudentsSchema.CheckRequiredString | backend/src/modules/students/students-schema.js:5-10 | `name`: missing gives the required message, a non-string the type message, `''` the empty message, and any other string passes unchanged |
| StudentsSchema.CheckEmail | backend/src/modules/students/students-schema.js:11-16 | `email` passes exactly when it is a string accepted by the e-mail check; missing, non-string and malformed each give their own message |
| StudentsSchema.CheckGender | backend/src/modules/students/students-schema.js:17-21 | accepts exactly undefined, null, `'Male'` and `'Female'`; everything else, `''` and `'male'` included, fails with the enum's message |
| StudentsSchema.CheckOptionalText | backend/src/modules/students/students-schema.js:22-26 | undefined and null pass through; a string over the limit gives the too-long message; a string within it gives null when blank and itself otherwise; another type gives the field's type message or Zod's default |
| StudentsSchema.StudentTextFieldLimits | backend/src/modules/students/students-schema.js:22-90 | every optional text field has the limit of its key: 20 for the four phone fields, 50 for addresses, names, `class` and `section`, 30 for `relationOfGuardian` |
| StudentsSchema.StudentTextFieldsCovered | backend/src/modules/students/students-schema.js:22-90 | every key with a text limit is an optional text field of the student schema |
| StudentsSchema.CheckDateText | backend/src/modules/students/students-schema.js:27-34 | a present date passes exactly when it is a string matching four digits, `-`, two digits, `-`, two digits, and then yields the date read from those digits; otherwise it gives the pattern or the type message |
| StudentsSchema.MalformedDobRejected | backend/src/modules/students/students-schema.js:27-34 | a `dob` string in another format makes the student parse fail with the `YYYY-MM-DD` message |
| StudentsSchema.DateRoundTrip | backend/src/modules/students/students-schema.js:31-34 | writing back the date read from a matching string gives the same string |
| StudentsSchema.FormatDateParses | backend/src/modules/students/students-schema.js:31-34 | every date with a 4-digit year and 2-digit month and day is written as a matching string that reads back as that date |
| StudentsSchema.DateExamples | backend/src/modules/students/students-schema.js:31-32 | `"2025-09-19"` is 19 September 2025 and `"2025/09/19"` does not match |
| StudentsSchema.NullishPassesThrough | backend/src/modules/students/students-schema.js:17-26 | every `.nullish()` chain maps undefined to undefined and null to null |
| StudentsSchema.StudentOptionalFields | backend/src/modules/students/students-schema.js:4-101 | every student field except `name`, `email` and `dob` is nullish |
| StudentsSchema.CheckNumber | backend/src/modules/students/students-schema.js:104-111 | an id passes exactly when `Number(x)` is not NaN, and is then that number (0 for `null`); every failure, a missing id included, reports the type message |
| StudentsSchema.CheckOptionalNumber | backend/src/modules/students/students-schema.js:100 | undefined and null pass through before coercion; another value passes exactly when it coerces, as that number, and otherwise reports the type message |
| StudentsSchema.RollOutcome | backend/src/modules/students/students-schema.js:100 | `roll` passes exactly when undefined, null or coercible to a number, and otherwise fails with `'Roll must be a number'` |
| StudentsSchema.CheckOptionalBool | backend/src/modules/students/students-schema.js:80 | undefined, null and booleans pass, the boolean as itself; everything else reports the type message |
| StudentsSchema.SystemAccessOutcome | backend/src/modules/students/students-schema.js:80 | `systemAccess` passes exactly when undefined, null or a boolean, and otherwise fails with `'System access must be true or false'` |
| StudentsSchema.CheckRequiredDate | backend/src/modules/students/students-schema.js:27-34 | a date without `.nullish()`: missing gives the required message, and otherwise it passes exactly when it is a matching string |
| StudentsSchema.CheckOptionalDate | backend/src/modules/students/students-schema.js:91-99 | undefined and null pass through; a string passes exactly when it matches, as the date it spells; otherwise the pattern or the type message |
| StudentsSchema.AdmissionDateOutcome | backend/src/modules/students/students-schema.js:91-99 | `admissionDate` passes exactly when undefined, null or a matching string; a non-matching string and a non-string give the two admission-date messages |
| StudentsSchema.CheckStrictBool | backend/src/modules/students/students-schema.js:131-134 | only a boolean passes, as itself; a missing value and one of another type both report `message` |
| StudentsSchema.SchemaKeys | backend/src/modules/students/students-schema.js:4-135 | the keys of the three schemas in declaration order; the update schema's are the student keys followed by `userId` |
| StudentsSchema.StatusIssues | backend/src/modules/students/students-schema.js:114-135 | the status issues are the issues of `userId`, `reviewerId` and `status`, in that order, and each one is the ids' type message or `'Status is required'` |
| StudentsSchema.AbsentOptionalFieldsPass | backend/src/modules/students/students-schema.js:17-100 | in any schema, a `.nullish()` field whose key the input lacks yields undefined |
| StudentsSchema.AllFieldsPassParses | backend/src/modules/students/students-schema.js:4-101 | a schema parses successfully when every field passes |
| StudentsSchema.RuleOutputConforms | backend/src/modules/students/students-schema.js:4-135 | whatever a rule accepts is in normal form: a non-empty name, an accepted e-mail, no blank or over-long text, a digit-range date, a number or a boolean |
| StudentsSchema.ParseShape | backend/src/modules/students/students-schema.js:4-101 | the parse fails exactly when some field fails, and then lists at least one issue; on success it is the output record |
| StudentsSchema.ParsedValues | backend/src/modules/students/students-schema.js:4-101 | a parsed record has every schema key, undefined for a missing one, and under each key the value its (first) field yields |
| StudentsSchema.ParsedRecordConforms | backend/src/modules/students/students-schema.js:4-101 | every value of a parsed record is in its rule's normal form |
| StudentsSchema.IssuesAppend | backend/src/modules/students/students-schema.js:4-101 | the issues of two consecutive field lists are the first list's issues followed by the second's, so the parse never stops at the first failure |
| StudentsSchema.FieldIssueReported | backend/src/modules/students/students-schema.js:4-101 | a failing field makes the parse fail and its message is among the issues, whatever else fails |
| StudentsSchema.StudentKeysDistinct | backend/src/modules/students/students-schema.js:4-101 | no two fields of the student schema share a key |
| StudentsSchema.RequiredOnlyPayload | backend/src/modules/students/students-schema.js:4-101 | a payload with only a valid `name`, `email` and `dob` parses; those keep their values and every other field is undefined |
| StudentsSchema.ExtendShape | backend/src/modules/students/students-schema.js:103 | appending a field with a new key fails exactly when the base schema or the new field fails, lists the base issues first, and on success adds that field's value to the base record |
| StudentsSchema.UpdateExtendsStudent | backend/src/modules/students/students-schema.js:103-112 | the update schema is the student schema with `userId` appended: it fails exactly when either fails, with the student issues first, and on success adds the coerced `userId` |
| StudentsSchema.ExtraKeysDistinct | backend/src/modules/students/students-schema.js:103-135 | `userId` is not a student key, and the status schema's three keys are distinct |
| StudentsSchema.IdsMustBeNumbers | backend/src/modules/students/students-schema.js:115-130 | a `userId` or `reviewerId` that is not a number, a missing one included, fails the status schema with `'User ID must be a number'` or `'Reviewer ID must be a number'` |
| StudentsSchema.StatusMustBeBoolean | backend/src/modules/students/students-schema.js:131-134 | a non-boolean `status`, a missing one included, fails the status schema with `'Status is required'` |
| StudentsService.Classify | backend/src/modules/students/students-service.js:74-88 | a `ZodError` becomes 400 with all its messages; a non-empty `validationError` becomes that message, with status 400, or where the block reads the code, that code when it is non-zero and 400 otherwise; everything else becomes 500 with the fixed message |
| StudentsService.ClassifiedStatuses | backend/src/modules/students/students-service.js:113-127 | with the tags the service throws, the status is 400, 404 or 500; a list payload comes only from a `ZodError`; 404 only from a tag with a code |
| StudentsService.GetAllStudents | backend/src/modules/students/students-service.js:25-32 | an empty result gives 404 `'Students not found'`; otherwise the rows come back unchanged |
| StudentsService.ParsedEmail | backend/src/modules/students/students-service.js:52-53 | a parsed student or update payload carries the submitted e-mail, which the e-mail check accepted |
| StudentsService.DeleteIdOutcome | backend/src/modules/students/students-service.js:169-177 | the delete id passes exactly when it coerces to a number, as that number; otherwise the one issue is `'User ID must be a number'` |
| StudentsService.ParsedStatusPayload | backend/src/modules/students/students-service.js:132-137 | a parsed status payload carries the coerced `userId` and `reviewerId` and the submitted boolean `status` |
| StudentsService.StudentStore.GetStudentByEmail | backend/src/shared/repository/find-user-by-email.js:3-17 | finds the user, student or not, holding the e-mail, or nothing |
| StudentsService.StudentStore.CheckStudentId | backend/src/modules/students/students-service.js:13-18 | no error exactly when some user has the id, otherwise 404 `'Student not found'` |
| StudentsService.StudentStore.GetStudentDetail | backend/src/modules/students/students-service.js:34-43 | the stored row exactly when both the user lookup and the student lookup find the id, otherwise 404 `'Student not found'` |
| StudentsService.StudentStore.DetailOfStoredStudent | backend/src/modules/students/students-service.js:34-43 | in a consistent store every stored student passes both lookups |
| StudentsService.StudentStore.EmailsUnique | backend/src/modules/students/students-service.js:53-57 | the store invariant the operations keep implies that no two students share an e-mail |
| StudentsService.StudentStore.AddNewStudent | backend/src/modules/students/students-service.js:45-89 | these outcomes, in stage order, with the new state and call log of each: schema failure gives 400 with every issue and no call; a taken e-mail gives 400 `'Email already exists'` and no write; a failed or throwing persist gives 500 `'Unable to add student'`; otherwise the student is stored under the next id, its e-mail registered, and the message depends only on the mail outcome |
| StudentsService.StudentStore.Insert | backend/src/modules/students/students-service.js:59-63 | a new student is stored under the next id with empty status columns and its e-mail mapped to it, keeping the store consistent |
| StudentsService.StudentStore.UpdateStudent | backend/src/modules/students/students-service.js:91-128 | schema failure gives 400 with every issue and no call; an unknown `userId` gives 404 `'Student not found.'` before any e-mail lookup; an e-mail held by another id gives 400 `'Email already exists'` and no write; keeping one's own e-mail passes; a failed persist gives 500 `'Unable to update student'`; success returns the repository's message and replaces the record, keeping its status columns |
| StudentsService.StudentStore.Replace | backend/src/modules/students/students-service.js:106-112 | the record is replaced, status columns kept, and the user entry moves to the new e-mail, keeping the store consistent |
| StudentsService.StudentStore.UpdatePreservesValid | backend/src/modules/students/students-service.js:100-104 | moving a student to an e-mail no other user holds keeps the store consistent |
| StudentsService.StudentStore.SetStudentStatus | backend/src/modules/students/students-service.js:130-165 | schema failure gives 400 with every issue and no call; an unknown id gives 404 `'Student not found.'` before the write; with rows affected the status and reviewer are set, otherwise 500 `'Internal Server Error'` and nothing changes; users never change |
| StudentsService.StudentStore.DeleteStudent | backend/src/modules/students/students-service.js:167-207 | an id that fails the inline coercion gives 400 with its one message and no call; an unknown id gives 404 `'Student not found.'` before the write; with rows affected the student and its user entry are removed, otherwise 500 `'Internal Server Error'` and nothing changes |

## Left out

- Zod internals are not defined here: the e-mail syntax check and `Number(x)` for strings and objects are the two oracles of `Env`.
- `new Date(...)` is not modelled. A matched date string stands for the (year, month, day) triple of its digits, and calendar validity is not checked, as in the schema.
- `z.coerce.number` yields a JavaScript double; the model keeps only integers, so fractional and out-of-range ids are not modelled.
- `max(n)` counts UTF-16 code units; the model counts the characters of a Dafny string.
- Zod 3.22 and earlier, which ignore a `message` parameter, are not modelled. There, `gender` and `status` would report Zod's default messages.
- StudentsSchema.ReceivedType: Zod's received-type names are reduced to `undefined`, `null`, `string`, `boolean`, `number` and `object`; arrays, functions and the other JavaScript types all fall under the `Other` value.
- A request body that is not an object, and keys outside the schema, are not modelled. The input is always a key-to-value map, and Zod strips unknown keys.
- The students repository, the users repository and `sendAccountVerificationEmail` are I/O. They are stood in by the store's maps, its next id and the outcome parameters of each method. The SQL of `findUserByEmail` (backend/src/shared/repository/find-user-by-email.js) is reduced to a lookup in the users map.
- StudentsService.StudentStore.AddNewStudent: the repository's default values for the status columns are not visible, so a new row's status and reviewer are `None`.
- StudentsService.StudentStore.Insert: the model assumes that `addOrUpdateStudent` creates the user entry for the new e-mail. The repository's SQL is not part of this model.
- StudentsService.StudentStore.Replace: the model assumes that an update moves the student's user entry to the new e-mail. The repository's SQL is not part of this model.
- StudentsService.StudentStore.DeleteStudent: the model assumes that deleting a student also removes its user entry. The repository's SQL is not part of this model.
- StudentsService.StudentStore.GetStudentDetail: a raw string id in the route is not modelled, because ids are integers.
- A `findStudentDetail` or `findUserByEmail` call that throws is not modelled, because only the write calls have an outcome parameter. This affects `AddNewStudent`, `UpdateStudent`, `SetStudentStatus`, `DeleteStudent` and `GetStudentDetail`. In the four methods the source then gives a 500 with the operation's fixed message.
- StudentsSchema.ParsedValues: the output record has every schema key, with `Absent` for a key that was missing. Zod's output object leaves such a key out. The two differ in which keys exist, not in the value read under any key.
- The classification assumes that an `ApiError` carries no `validationError` field, and that repository ids compare equal to parsed numeric ids.
- `getAllStudents` filtering is reduced to the rows the repository returned: `findAllStudents` is not part of this model, so its result is a parameter.
- `students-controller.js` is left out: it is request glue.
- Also left out: `console.error`, async and promises, and the race between concurrent uniqueness checks and writes. These are I/O and concurrency.
