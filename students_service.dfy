/** The student service (backend/src/modules/students/students-service.js):
    each operation validates, checks existence, checks e-mail uniqueness,
    writes and (on create) sends a verification e-mail, in that order, and
    every failure inside an operation's `try` is classified by its `catch`. */
module StudentsService {
  import opened JsonValues
  import opened StudentsSchema

  /** The message of an `ApiError`: one string, or the list of a `ZodError`'s issues. */
  datatype Payload = Single(message: string) | Messages(messages: seq<string>)

  /** `new ApiError(statusCode, message)`, the only error the service lets escape. */
  datatype ApiError = ApiError(status: int, payload: Payload)

  /** What a service `try` block can throw: a `ZodError`, a plain object
      `{ validationError, code? }`, an `ApiError` (which carries no
      `validationError` field), or anything else (a driver failure). */
  datatype Thrown =
    | ZodErr(issues: seq<string>)
    | Tagged(validationError: string, code: Option<int>)
    | Api(error: ApiError)
    | Unexpected

  /** An operation's result: its value, or the `ApiError` it rejects with. */
  datatype Reply<+T> = Ok(value: T) | Err(error: ApiError)

  const AddFailed := "Unable to add student"
  const UpdateFailed := "Unable to update student"
  const InternalError := "Internal Server Error"
  const EmailExists := "Email already exists"
  const StudentNotFoundTagged := "Student not found."
  const StudentNotFound := "Student not found"
  const StudentsNotFound := "Students not found"
  const AddedAndSent := "Student added and verification email sent successfully."
  const AddedNotSent := "Student added, but failed to send verification email."
  const StatusChanged := "Student status changed successfully"
  const Deleted := "Student deleted successfully"

  /** `e?.code || 400`: an absent or zero code falls back to 400. */
  function CodeOr400(code: Option<int>): int
  {
    if code.Some? && code.value != 0 then code.value else 400
  }

  /** The shared `catch` block. A `ZodError` becomes a 400 listing every
      issue; an object with a non-empty `validationError` becomes an error
      with that message (status 400, or its own `code` where the block reads
      it: every operation but create); everything else, an `ApiError` thrown
      inside the same `try` included, becomes a 500 with the operation's
      fixed message, so the thrown status and message never reach the caller. */
  function Classify(e: Thrown, honourCode: bool, fallback: string): (r: ApiError)
    ensures e.ZodErr? ==> r == ApiError(400, Messages(e.issues))
    ensures e.Tagged? && e.validationError != "" ==>
      r == ApiError(if honourCode then CodeOr400(e.code) else 400, Single(e.validationError))
    ensures !e.ZodErr? && !(e.Tagged? && e.validationError != "") ==> r == ApiError(500, Single(fallback))
  {
    match e
    case ZodErr(issues) => ApiError(400, Messages(issues))
    case Tagged(msg, code) =>
      if msg != "" then ApiError(if honourCode then CodeOr400(code) else 400, Single(msg))
      else ApiError(500, Single(fallback))
    case _ => ApiError(500, Single(fallback))
  }

  /** With the tags the service throws (no code, or 404), the catch block
      yields only 400, 404 or 500; a list payload comes from a `ZodError`
      and from nothing else. */
  lemma ClassifiedStatuses(e: Thrown, honourCode: bool, fallback: string)
    requires e.Tagged? ==> e.code == None || e.code == Some(404)
    ensures Classify(e, honourCode, fallback).status in {400, 404, 500}
    ensures Classify(e, honourCode, fallback).payload.Messages? <==> e.ZodErr?
    ensures Classify(e, honourCode, fallback).status == 404 ==> honourCode && e.Tagged?
  {
  }

  /** `getAllStudents`: the rows the filtered query returned, or a 404 when
      there are none. */
  function GetAllStudents<T>(found: seq<T>): (r: Reply<seq<T>>)
    ensures r.Err? <==> |found| == 0
    ensures r.Ok? ==> r.value == found
    ensures r.Err? ==> r.error == ApiError(404, Single(StudentsNotFound))
  {
    if |found| <= 0 then Err(ApiError(404, Single(StudentsNotFound))) else Ok(found)
  }

  /** A stored student: the parsed record and its status columns. */
  datatype Row = Row(record: Record, status: Option<bool>, reviewer: Option<int>)

  /** The repository and mail calls an operation issues, in order. */
  datatype Call =
    | FindUserByEmail(email: string)
    | FindStudentDetail(id: int)
    | AddOrUpdateStudent(record: Record)
    | SendVerificationEmail(userId: int, userEmail: string)
    | FindStudentToSetStatus(id: int, status: bool, reviewerId: int)
    | FindStudentToDelete(id: int)

  /** What `addOrUpdateStudent` reports: `{ status, message }`, or it throws. */
  datatype PersistOutcome = Persisted(ok: bool, message: string) | PersistThrew

  /** What `findStudentToSetStatus` and `findStudentToDelete` report: the
      number of affected rows, or they throw. */
  datatype WriteOutcome = AffectedRows(count: int) | WriteThrew

  function EmailOf(rec: Record): string
  {
    if "email" in rec && rec["email"].Text? then rec["email"].text else ""
  }

  function NumberOf(v: Value): int
  {
    if v.Number? then v.number else 0
  }

  function NumberAt(rec: Record, key: string): int
  {
    if key in rec then NumberOf(rec[key]) else 0
  }

  function FlagAt(rec: Record, key: string): bool
  {
    key in rec && rec[key].Flag? && rec[key].flag
  }

  /** The e-mail the service checks and stores is the validated one. */
  lemma ParsedEmail(shape: Shape, input: Input, env: Env)
    requires shape == StudentShape || shape == UpdateShape
    requires ParseShape(shape, input, env).Success?
    ensures Get(input, "email").Str? && env.isEmail(Get(input, "email").s)
    ensures EmailOf(ParseShape(shape, input, env).value) == Get(input, "email").s
  {
    ParsedValues(shape, input, env);
    assert shape[1] == EmailField;
    assert KeyFirstAt(shape, 1);
    assert CheckField(shape[1], input, env).Pass?;
  }

  /** The identities the status schema yields are the coerced numbers. */
  lemma ParsedStatusPayload(input: Input, env: Env)
    requires ParseShape(StatusShape, input, env).Success?
    ensures ToNumber(Get(input, "userId"), env) == Some(NumberAt(ParseShape(StatusShape, input, env).value, "userId"))
    ensures ToNumber(Get(input, "reviewerId"), env) == Some(NumberAt(ParseShape(StatusShape, input, env).value, "reviewerId"))
    ensures Get(input, "status") == Bool(FlagAt(ParseShape(StatusShape, input, env).value, "status"))
  {
    ExtraKeysDistinct();
    ParsedValues(StatusShape, input, env);
    assert CheckField(StatusShape[0], input, env).Pass?;
    assert CheckField(StatusShape[1], input, env).Pass?;
    assert CheckField(StatusShape[2], input, env).Pass?;
  }

  /** The inline `z.coerce.number(...).refine(...)` that `deleteStudent` parses its id with. */
  const DeleteIdRule := CoercedNumber("User ID is required", "User ID must be a number", "User ID must be a valid number")

  /** The delete id passes exactly when it coerces to a number, and is then
      that number; otherwise, a missing id included, the one issue is
      `'User ID must be a number'`. */
  lemma DeleteIdOutcome(id: Json, env: Env)
    ensures ApplyRule(DeleteIdRule, id, env).Pass? <==> ToNumber(id, env).Some?
    ensures ApplyRule(DeleteIdRule, id, env).Pass? ==>
      ApplyRule(DeleteIdRule, id, env).value == Number(ToNumber(id, env).value)
    ensures ApplyRule(DeleteIdRule, id, env).Fail? ==>
      ApplyRule(DeleteIdRule, id, env).message == "User ID must be a number"
  {
  }

  /** The in-memory stand-in for the students table, the shared users table
      (e-mail to user id) and the auto-incremented id, with a log of the
      repository and mail calls in the order they were issued. */
  class StudentStore {
    var students: map<int, Row>
    var users: map<string, int>
    var nextId: int
    var trace: seq<Call>

    /** Ids below `nextId` are taken; every student's e-mail is a user
        e-mail that belongs to that student. */
    ghost predicate Valid()
      reads this
    {
      && (forall id :: id in students ==> id < nextId)
      && (forall e :: e in users ==> users[e] < nextId)
      && (forall id :: id in students ==> EmailOf(students[id].record) in users && users[EmailOf(students[id].record)] == id)
    }

    constructor (staff: map<string, int>, firstId: int)
      requires forall e :: e in staff ==> staff[e] < firstId
      ensures Valid()
      ensures students == map[] && users == staff && nextId == firstId && trace == []
    {
      students, users, nextId, trace := map[], staff, firstId, [];
    }

    /** No two students share an e-mail. */
    lemma EmailsUnique()
      requires Valid()
      ensures forall a, b :: a in students && b in students && a != b ==>
        EmailOf(students[a].record) != EmailOf(students[b].record)
    {
    }

    /** `getStudentByEmail`: the id of the user, student or not, holding the e-mail. */
    function GetStudentByEmail(email: string): (r: Option<int>)
      reads this
      ensures r.Some? <==> email in users
      ensures r.Some? ==> r.value == users[email]
    {
      if email in users then Some(users[email]) else None
    }

    /** `checkStudentId`: a 404 unless some user has the id. */
    function CheckStudentId(id: int): (r: Option<ApiError>)
      reads this
      ensures r.None? <==> exists e :: e in users && users[e] == id
      ensures r.Some? ==> r.value == ApiError(404, Single(StudentNotFound))
    {
      if id in users.Values then None else Some(ApiError(404, Single(StudentNotFound)))
    }

    /** `getStudentDetail`: the stored row when both the user and the
        student lookup find the id, a 404 otherwise. */
    function GetStudentDetail(id: int): (r: Reply<Row>)
      reads this
      ensures r.Ok? <==> (exists e :: e in users && users[e] == id) && id in students
      ensures r.Ok? ==> r.value == students[id]
      ensures r.Err? ==> r.error == ApiError(404, Single(StudentNotFound))
    {
      var check := CheckStudentId(id);
      if check.Some? then Err(check.value)
      else if id !in students then Err(ApiError(404, Single(StudentNotFound)))
      else Ok(students[id])
    }

    /** In a valid store every student passes both lookups of `getStudentDetail`. */
    lemma DetailOfStoredStudent(id: int)
      requires Valid() && id in students
      ensures GetStudentDetail(id) == Ok(students[id])
    {
      assert users[EmailOf(students[id].record)] == id;
    }

    /** `addNewStudent`. */
    method AddNewStudent(input: Input, env: Env, persist: PersistOutcome, mailSent: bool) returns (r: Reply<string>)
      requires Valid()
      modifies this
      ensures Valid()
      ensures var p := ParseShape(StudentShape, input, env);
        p.Failure? ==> r == Err(ApiError(400, Messages(p.issues))) && unchanged(this)
      ensures var p := ParseShape(StudentShape, input, env);
        p.Success? && EmailOf(p.value) in old(users) ==>
          && r == Err(ApiError(400, Single(EmailExists)))
          && students == old(students) && users == old(users) && nextId == old(nextId)
          && trace == old(trace) + [FindUserByEmail(EmailOf(p.value))]
      ensures var p := ParseShape(StudentShape, input, env);
        p.Success? && EmailOf(p.value) !in old(users) && !(persist.Persisted? && persist.ok) ==>
          && r == Err(ApiError(500, Single(AddFailed)))
          && students == old(students) && users == old(users) && nextId == old(nextId)
          && trace == old(trace) + [FindUserByEmail(EmailOf(p.value)), AddOrUpdateStudent(p.value)]
      ensures var p := ParseShape(StudentShape, input, env);
        p.Success? && EmailOf(p.value) !in old(users) && persist.Persisted? && persist.ok ==>
          && r == Ok(if mailSent then AddedAndSent else AddedNotSent)
          && students == old(students)[old(nextId) := Row(p.value, None, None)]
          && users == old(users)[EmailOf(p.value) := old(nextId)]
          && nextId == old(nextId) + 1
          && trace == old(trace) + [FindUserByEmail(EmailOf(p.value)), AddOrUpdateStudent(p.value),
                                    SendVerificationEmail(old(nextId), EmailOf(p.value))]
    {
      var parsed := ParseShape(StudentShape, input, env);
      if parsed.Failure? {
        return Err(Classify(ZodErr(parsed.issues), false, AddFailed));
      }
      var payload := parsed.value;
      var email := EmailOf(payload);
      trace := trace + [FindUserByEmail(email)];
      if GetStudentByEmail(email).Some? {
        return Err(Classify(Tagged(EmailExists, None), false, AddFailed));
      }
      trace := trace + [AddOrUpdateStudent(payload)];
      if persist.PersistThrew? {
        return Err(Classify(Unexpected, false, AddFailed));
      }
      if !persist.ok {
        return Err(Classify(Api(ApiError(400, Single(persist.message))), false, AddFailed));
      }
      var id := Insert(payload);
      // the verification e-mail is best effort: its failure only changes the message
      trace := trace + [SendVerificationEmail(id, email)];
      r := Ok(if mailSent then AddedAndSent else AddedNotSent);
    }

    /** Stores a new student under the next free id and registers its e-mail. */
    method Insert(rec: Record) returns (id: int)
      requires Valid() && EmailOf(rec) !in users
      modifies this
      ensures Valid()
      ensures id == old(nextId)
      ensures students == old(students)[id := Row(rec, None, None)]
      ensures users == old(users)[EmailOf(rec) := id]
      ensures nextId == old(nextId) + 1 && trace == old(trace)
    {
      id := nextId;
      students := students[id := Row(rec, None, None)];
      users := users[EmailOf(rec) := id];
      nextId := nextId + 1;
    }

    /** `updateStudent`. */
    method UpdateStudent(input: Input, env: Env, persist: PersistOutcome) returns (r: Reply<string>)
      requires Valid()
      modifies this
      ensures Valid()
      ensures var p := ParseShape(UpdateShape, input, env);
        p.Failure? ==> r == Err(ApiError(400, Messages(p.issues))) && unchanged(this)
      ensures var p := ParseShape(UpdateShape, input, env);
        p.Success? && NumberAt(p.value, "userId") !in old(students) ==>
          && r == Err(ApiError(404, Single(StudentNotFoundTagged)))
          && students == old(students) && users == old(users) && nextId == old(nextId)
          && trace == old(trace) + [FindStudentDetail(NumberAt(p.value, "userId"))]
      ensures var p := ParseShape(UpdateShape, input, env);
        p.Success? ==> var id, email := NumberAt(p.value, "userId"), EmailOf(p.value);
        id in old(students) && email in old(users) && old(users)[email] != id ==>
          && r == Err(ApiError(400, Single(EmailExists)))
          && students == old(students) && users == old(users) && nextId == old(nextId)
          && trace == old(trace) + [FindStudentDetail(id), FindUserByEmail(email)]
      ensures var p := ParseShape(UpdateShape, input, env);
        p.Success? ==> var id, email := NumberAt(p.value, "userId"), EmailOf(p.value);
        id in old(students) && (email in old(users) ==> old(users)[email] == id)
          && !(persist.Persisted? && persist.ok) ==>
          && r == Err(ApiError(500, Single(UpdateFailed)))
          && students == old(students) && users == old(users) && nextId == old(nextId)
          && trace == old(trace) + [FindStudentDetail(id), FindUserByEmail(email), AddOrUpdateStudent(p.value)]
      ensures var p := ParseShape(UpdateShape, input, env);
        p.Success? ==> var id, email := NumberAt(p.value, "userId"), EmailOf(p.value);
        id in old(students) && (email in old(users) ==> old(users)[email] == id)
          && persist.Persisted? && persist.ok ==>
          && r == Ok(persist.message)
          && students == old(students)[id := Row(p.value, old(students)[id].status, old(students)[id].reviewer)]
          && users == (old(users) - {EmailOf(old(students)[id].record)})[email := id]
          && nextId == old(nextId)
          && trace == old(trace) + [FindStudentDetail(id), FindUserByEmail(email), AddOrUpdateStudent(p.value)]
    {
      var parsed := ParseShape(UpdateShape, input, env);
      if parsed.Failure? {
        return Err(Classify(ZodErr(parsed.issues), true, UpdateFailed));
      }
      var payload := parsed.value;
      var id := NumberAt(payload, "userId");
      trace := trace + [FindStudentDetail(id)];
      if id !in students {
        return Err(Classify(Tagged(StudentNotFoundTagged, Some(404)), true, UpdateFailed));
      }
      var email := EmailOf(payload);
      trace := trace + [FindUserByEmail(email)];
      var holder := GetStudentByEmail(email);
      if holder.Some? && holder.value != id {
        return Err(Classify(Tagged(EmailExists, None), true, UpdateFailed));
      }
      trace := trace + [AddOrUpdateStudent(payload)];
      if persist.PersistThrew? {
        return Err(Classify(Unexpected, true, UpdateFailed));
      }
      if !persist.ok {
        return Err(Classify(Api(ApiError(400, Single(persist.message))), true, UpdateFailed));
      }
      Replace(id, payload);
      r := Ok(persist.message);
    }

    /** Overwrites a student's record, keeping its status columns, and moves
        its user entry to the new e-mail. */
    method Replace(id: int, rec: Record)
      requires Valid() && id in students
      requires EmailOf(rec) in users ==> users[EmailOf(rec)] == id
      modifies this
      ensures Valid()
      ensures students == old(students)[id := Row(rec, old(students)[id].status, old(students)[id].reviewer)]
      ensures users == (old(users) - {EmailOf(old(students)[id].record)})[EmailOf(rec) := id]
      ensures nextId == old(nextId) && trace == old(trace)
    {
      var row := students[id];
      UpdatePreservesValid(id, rec);
      students := students[id := Row(rec, row.status, row.reviewer)];
      users := (users - {EmailOf(row.record)})[EmailOf(rec) := id];
    }

    /** Re-pointing a student's e-mail to a new one that no other user holds keeps the store valid. */
    lemma UpdatePreservesValid(id: int, rec: Record)
      requires Valid() && id in students
      requires EmailOf(rec) in users ==> users[EmailOf(rec)] == id
      ensures var s' := students[id := Row(rec, students[id].status, students[id].reviewer)];
        var u' := (users - {EmailOf(students[id].record)})[EmailOf(rec) := id];
        && (forall k :: k in s' ==> k < nextId)
        && (forall e :: e in u' ==> u'[e] < nextId)
        && (forall k :: k in s' ==> EmailOf(s'[k].record) in u' && u'[EmailOf(s'[k].record)] == k)
    {
    }

    /** `setStudentStatus`. */
    method SetStudentStatus(userId: Json, reviewerId: Json, status: Json, env: Env, write: WriteOutcome)
      returns (r: Reply<string>)
      requires Valid()
      modifies this
      ensures Valid()
      ensures users == old(users) && nextId == old(nextId)
      ensures var p := ParseShape(StatusShape, map["userId" := userId, "reviewerId" := reviewerId, "status" := status], env);
        p.Failure? ==> r == Err(ApiError(400, Messages(p.issues))) && unchanged(this)
      ensures var p := ParseShape(StatusShape, map["userId" := userId, "reviewerId" := reviewerId, "status" := status], env);
        p.Success? ==> var id := NumberAt(p.value, "userId");
        id !in old(students) ==>
          && r == Err(ApiError(404, Single(StudentNotFoundTagged)))
          && students == old(students)
          && trace == old(trace) + [FindStudentDetail(id)]
      ensures var p := ParseShape(StatusShape, map["userId" := userId, "reviewerId" := reviewerId, "status" := status], env);
        p.Success? ==>
        var id, rev, flag := NumberAt(p.value, "userId"), NumberAt(p.value, "reviewerId"), FlagAt(p.value, "status");
        id in old(students) ==>
          && trace == old(trace) + [FindStudentDetail(id), FindStudentToSetStatus(id, flag, rev)]
          && (if write.AffectedRows? && write.count > 0 then
                && r == Ok(StatusChanged)
                && students == old(students)[id := old(students)[id].(status := Some(flag), reviewer := Some(rev))]
              else
                r == Err(ApiError(500, Single(InternalError))) && students == old(students))
    {
      var parsed := ParseShape(StatusShape, map["userId" := userId, "reviewerId" := reviewerId, "status" := status], env);
      if parsed.Failure? {
        return Err(Classify(ZodErr(parsed.issues), true, InternalError));
      }
      var payload := parsed.value;
      var id := NumberAt(payload, "userId");
      trace := trace + [FindStudentDetail(id)];
      if id !in students {
        return Err(Classify(Tagged(StudentNotFoundTagged, Some(404)), true, InternalError));
      }
      var flag, rev := FlagAt(payload, "status"), NumberAt(payload, "reviewerId");
      trace := trace + [FindStudentToSetStatus(id, flag, rev)];
      if write.WriteThrew? {
        return Err(Classify(Unexpected, true, InternalError));
      }
      if write.count <= 0 {
        return Err(Classify(Api(ApiError(400, Single("Unable to disable student"))), true, InternalError));
      }
      students := students[id := students[id].(status := Some(flag), reviewer := Some(rev))];
      r := Ok(StatusChanged);
    }

    /** `deleteStudent`. */
    method DeleteStudent(id: Json, env: Env, write: WriteOutcome) returns (r: Reply<string>)
      requires Valid()
      modifies this
      ensures Valid()
      ensures nextId == old(nextId)
      ensures var c := ApplyRule(DeleteIdRule, id, env);
        c.Fail? ==> r == Err(ApiError(400, Messages([c.message]))) && unchanged(this)
      ensures var c := ApplyRule(DeleteIdRule, id, env);
        c.Pass? && NumberOf(c.value) !in old(students) ==>
          && r == Err(ApiError(404, Single(StudentNotFoundTagged)))
          && students == old(students) && users == old(users)
          && trace == old(trace) + [FindStudentDetail(NumberOf(c.value))]
      ensures var c := ApplyRule(DeleteIdRule, id, env);
        c.Pass? ==> var n := NumberOf(c.value);
        n in old(students) ==>
          && trace == old(trace) + [FindStudentDetail(n), FindStudentToDelete(n)]
          && (if write.AffectedRows? && write.count > 0 then
                && r == Ok(Deleted)
                && students == old(students) - {n}
                && users == old(users) - {EmailOf(old(students)[n].record)}
              else
                r == Err(ApiError(500, Single(InternalError))) && students == old(students) && users == old(users))
    {
      var checked := ApplyRule(DeleteIdRule, id, env);
      if checked.Fail? {
        return Err(Classify(ZodErr([checked.message]), true, InternalError));
      }
      var n := NumberOf(checked.value);
      trace := trace + [FindStudentDetail(n)];
      if n !in students {
        return Err(Classify(Tagged(StudentNotFoundTagged, Some(404)), true, InternalError));
      }
      trace := trace + [FindStudentToDelete(n)];
      if write.WriteThrew? {
        return Err(Classify(Unexpected, true, InternalError));
      }
      if write.count <= 0 {
        return Err(Classify(Api(ApiError(400, Single("Unable to delete student"))), true, InternalError));
      }
      var email := EmailOf(students[n].record);
      students := students - {n};
      users := users - {email};
      r := Ok(Deleted);
    }
  }
}
