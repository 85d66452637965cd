/** The field rule tables `StudentSchema`, `UpdateStudentSchema` and
    `StatusStudentSchema` (backend/src/modules/students/students-schema.js),
    written as a table of per-field rules read by one generic validator that
    collects every field's issue, in field order, like a Zod object schema. */
module StudentsSchema {
  import opened JsonValues
  import opened ZodTransform

  /** The parts of Zod and JavaScript this model does not define: the
      `.email()` syntax check, and `Number(x)` for a string or an object,
      which is a number or NaN (`None`). */
  datatype Env = Env(isEmail: string -> bool, coerce: Json -> Option<int>)

  datatype Gender = Male | Female

  /** The value `new Date(s)` is built from: the digits of a matched
      `YYYY-MM-DD` string. */
  datatype Date = Date(year: int, month: int, day: int)

  /** A field of the parsed output object. `Absent` is `undefined`, `Nil` is `null`. */
  datatype Value =
    | Absent
    | Nil
    | Text(text: string)
    | Calendar(date: Date)
    | Choice(gender: Gender)
    | Flag(flag: bool)
    | Number(number: int)

  /** The parsed, normalised object that `parseAsync` resolves with. */
  type Record = map<string, Value>

  /** One field's outcome: its parsed value or its one issue message. */
  datatype Check<+T> = Pass(value: T) | Fail(message: string)

  /** Outcome of parsing an object: the record, or every issue message. */
  datatype Result<+T> = Success(value: T) | Failure(issues: seq<string>)

  /** The Zod rule chains that occur in the three schemas. */
  datatype Rule =
      /** `z.string({required_error, invalid_type_error}).min(1, …)` */
    | RequiredString(requiredMsg: string, typeMsg: string, emptyMsg: string)
      /** `z.string({required_error, invalid_type_error}).email(…)` */
    | EmailString(requiredMsg: string, typeMsg: string, formatMsg: string)
      /** `z.enum(['Male', 'Female'], {message}).nullish()` */
    | GenderEnum(msg: string)
      /** `z.string(…).max(n, …).transform(emptyToNullTransform).nullish()`;
          `None` stands for Zod's default type message. */
    | OptionalText(max: nat, tooLongMsg: string, customTypeMsg: Option<string>)
      /** `z.string({invalid_type_error}).regex(YYYY-MM-DD, …).transform(Date)` */
    | RequiredDate(requiredMsg: string, typeMsg: string, patternMsg: string)
      /** the same chain followed by `.nullish()` */
    | OptionalDate(typeMsg: string, patternMsg: string)
      /** `z.boolean({invalid_type_error}).nullish()` */
    | OptionalBool(typeMsg: string)
      /** `z.coerce.number({invalid_type_error}).nullish()` */
    | OptionalNumber(typeMsg: string)
      /** `z.coerce.number({required_error, invalid_type_error}).refine(!isNaN, …)`.
          Coercion runs first, so an absent value is already NaN when the
          number check rejects it with `typeMsg`, and the refinement never
          runs on NaN: `requiredMsg` and `nanMsg` are the schema's text,
          never reported. */
    | CoercedNumber(requiredMsg: string, typeMsg: string, nanMsg: string)
      /** `z.boolean({message, invalid_type_error})`: `message` overrides
          `invalid_type_error`, so `typeMsg` is never reported. */
    | StrictBool(message: string, typeMsg: string)

  datatype Field = Field(key: string, rule: Rule)

  /** An object schema: its fields in declaration order. */
  type Shape = seq<Field>

  // ---------------------------------------------------------------------
  // Messages Zod supplies itself where the schema gives none

  const ZodRequired := "Required"

  function ReceivedType(v: Json): string
  {
    match v
    case Missing => "undefined"
    case Null => "null"
    case Str(_) => "string"
    case Bool(_) => "boolean"
    case Num(_) => "number"
    case Other => "object"
  }

  function StringTypeMessage(custom: Option<string>, v: Json): string
  {
    match custom
    case Some(m) => m
    case None => "Expected string, received " + ReceivedType(v)
  }

  // ---------------------------------------------------------------------
  // The date pattern /^\d{4}-\d{2}-\d{2}$/

  predicate IsDigit(c: char)
  {
    '0' <= c <= '9'
  }

  /** `/^\d{4}-\d{2}-\d{2}$/.test(s)`: exactly ten characters, dashes at
      positions 4 and 7, ASCII digits everywhere else. */
  predicate MatchesDatePattern(s: string)
  {
    && |s| == 10
    && s[4] == '-' && s[7] == '-'
    && (forall i :: 0 <= i < 10 && i != 4 && i != 7 ==> IsDigit(s[i]))
  }

  function DigitValue(c: char): (d: int)
    requires IsDigit(c)
    ensures 0 <= d <= 9
  {
    c as int - '0' as int
  }

  /** The (year, month, day) read off a matched date string. */
  function DateOf(s: string): (d: Date)
    requires MatchesDatePattern(s)
    ensures DateInRange(d)
  {
    Date(DigitValue(s[0]) * 1000 + DigitValue(s[1]) * 100 + DigitValue(s[2]) * 10 + DigitValue(s[3]),
         DigitValue(s[5]) * 10 + DigitValue(s[6]),
         DigitValue(s[8]) * 10 + DigitValue(s[9]))
  }

  /** The dates a `YYYY-MM-DD` string can denote (calendar validity is not
      checked by the schema). */
  predicate DateInRange(d: Date)
  {
    0 <= d.year <= 9999 && 0 <= d.month <= 99 && 0 <= d.day <= 99
  }

  function DigitChar(n: int): (c: char)
    requires 0 <= n <= 9
    ensures IsDigit(c) && DigitValue(c) == n
  {
    ('0' as int + n) as char
  }

  /** The zero-padded `YYYY-MM-DD` text of a date. */
  function FormatDate(d: Date): (s: string)
    requires DateInRange(d)
  {
    [DigitChar(d.year / 1000), DigitChar(d.year / 100 % 10), DigitChar(d.year / 10 % 10), DigitChar(d.year % 10),
     '-', DigitChar(d.month / 10), DigitChar(d.month % 10),
     '-', DigitChar(d.day / 10), DigitChar(d.day % 10)]
  }

  lemma DivMod10(q: int, r: int)
    requires 0 <= r < 10
    ensures (10 * q + r) / 10 == q && (10 * q + r) % 10 == r
  {
  }

  lemma DivMod100(q: int, r: int)
    requires 0 <= r < 100
    ensures (100 * q + r) / 100 == q
  {
  }

  lemma DivMod1000(q: int, r: int)
    requires 0 <= r < 1000
    ensures (1000 * q + r) / 1000 == q
  {
  }

  /** Reading a matched date string and writing it back gives the same text. */
  lemma DateRoundTrip(s: string)
    requires MatchesDatePattern(s)
    ensures FormatDate(DateOf(s)) == s
  {
    var d := DateOf(s);
    var a, b, c, e := DigitValue(s[0]), DigitValue(s[1]), DigitValue(s[2]), DigitValue(s[3]);
    DivMod1000(a, b * 100 + c * 10 + e);
    DivMod100(a * 10 + b, c * 10 + e);
    DivMod10(a, b);
    DivMod10(a * 100 + b * 10 + c, e);
    DivMod10(a * 10 + b, c);
    DivMod10(DigitValue(s[5]), DigitValue(s[6]));
    DivMod10(DigitValue(s[8]), DigitValue(s[9]));
    var t := FormatDate(d);
    assert forall i :: 0 <= i < 10 ==> t[i] == s[i];
  }

  lemma YearDigits(y: int)
    requires 0 <= y <= 9999
    ensures y == y / 1000 * 1000 + y / 100 % 10 * 100 + y / 10 % 10 * 10 + y % 10
  {
    var a, h, t := y / 1000, y / 100, y / 10;
    assert 10 * a <= h < 10 * a + 10;
    assert h % 10 == h - 10 * a;
    assert 10 * h <= t < 10 * h + 10;
    assert t % 10 == t - 10 * h;
  }

  /** Every in-range date is written as a matching string that reads back as it. */
  lemma FormatDateParses(d: Date)
    requires DateInRange(d)
    ensures MatchesDatePattern(FormatDate(d))
    ensures DateOf(FormatDate(d)) == d
  {
    YearDigits(d.year);
    DivMod10(d.month / 10, d.month % 10);
    DivMod10(d.day / 10, d.day % 10);
  }

  // ---------------------------------------------------------------------
  // One function per rule chain

  function CheckRequiredString(requiredMsg: string, typeMsg: string, emptyMsg: string, v: Json): (r: Check<Value>)
    ensures v.Missing? ==> r == Fail(requiredMsg)
    ensures v.Str? && v.s == "" ==> r == Fail(emptyMsg)
    ensures v.Str? && v.s != "" ==> r == Pass(Text(v.s))
    ensures !v.Missing? && !v.Str? ==> r == Fail(typeMsg)
  {
    match v
    case Missing => Fail(requiredMsg)
    case Str(s) => if |s| < 1 then Fail(emptyMsg) else Pass(Text(s))
    case _ => Fail(typeMsg)
  }

  function CheckEmail(requiredMsg: string, typeMsg: string, formatMsg: string, v: Json, env: Env): (r: Check<Value>)
    ensures r.Pass? <==> v.Str? && env.isEmail(v.s)
    ensures r.Pass? ==> r.value == Text(v.s)
    ensures v.Missing? ==> r == Fail(requiredMsg)
    ensures v.Str? && !env.isEmail(v.s) ==> r == Fail(formatMsg)
    ensures !v.Missing? && !v.Str? ==> r == Fail(typeMsg)
  {
    match v
    case Missing => Fail(requiredMsg)
    case Str(s) => if env.isEmail(s) then Pass(Text(s)) else Fail(formatMsg)
    case _ => Fail(typeMsg)
  }

  function CheckGender(msg: string, v: Json): (r: Check<Value>)
    ensures r.Pass? <==> v in {Missing, Null, Str("Male"), Str("Female")}
    ensures r.Fail? ==> r.message == msg
    ensures v == Missing ==> r == Pass(Absent)
    ensures v == Null ==> r == Pass(Nil)
    ensures v == Str("Male") ==> r == Pass(Choice(Male))
    ensures v == Str("Female") ==> r == Pass(Choice(Female))
  {
    match v
    case Missing => Pass(Absent)
    case Null => Pass(Nil)
    case Str(s) =>
      if s == "Male" then Pass(Choice(Male))
      else if s == "Female" then Pass(Choice(Female))
      else Fail(msg)
    case _ => Fail(msg)
  }

  /** The `max` check runs before the blank-to-null transform, so an
      over-long whitespace-only string is rejected rather than nulled. */
  function CheckOptionalText(max: nat, tooLongMsg: string, typeMsg: Option<string>, v: Json): (r: Check<Value>)
    ensures r.Pass? <==> v.Missing? || v.Null? || (v.Str? && |v.s| <= max)
    ensures v.Missing? ==> r == Pass(Absent)
    ensures v.Null? ==> r == Pass(Nil)
    ensures v.Str? && |v.s| > max ==> r == Fail(tooLongMsg)
    ensures v.Str? && |v.s| <= max ==> r == Pass(if AllWhitespace(v.s) then Nil else Text(v.s))
    ensures !v.Missing? && !v.Null? && !v.Str? ==> r == Fail(StringTypeMessage(typeMsg, v))
  {
    match v
    case Missing => Pass(Absent)
    case Null => Pass(Nil)
    case Str(s) =>
      if |s| > max then Fail(tooLongMsg)
      else
        var t := EmptyToNull(v);
        if t == Null then Pass(Nil) else Pass(Text(t.s))
    case _ => Fail(StringTypeMessage(typeMsg, v))
  }

  function CheckDateText(typeMsg: string, patternMsg: string, v: Json): (r: Check<Value>)
    requires !v.Missing?
    ensures r.Pass? <==> v.Str? && MatchesDatePattern(v.s)
    ensures r.Pass? ==> r.value == Calendar(DateOf(v.s))
    ensures v.Str? && !MatchesDatePattern(v.s) ==> r == Fail(patternMsg)
    ensures !v.Str? ==> r == Fail(typeMsg)
  {
    match v
    case Str(s) => if MatchesDatePattern(s) then Pass(Calendar(DateOf(s))) else Fail(patternMsg)
    case _ => Fail(typeMsg)
  }

  /** `Number(v)` as `z.coerce.number` computes it: fixed by JavaScript for
      `undefined` (NaN), `null` (0), booleans and numbers. */
  function ToNumber(v: Json, env: Env): Option<int>
  {
    match v
    case Missing => None
    case Null => Some(0)
    case Bool(b) => Some(if b then 1 else 0)
    case Num(n) => Some(n)
    case _ => env.coerce(v)
  }

  /** The id chain: whatever does not coerce to a number, an absent value
      included, fails with the type message. */
  function CheckNumber(typeMsg: string, v: Json, env: Env): (r: Check<Value>)
    ensures r.Pass? <==> ToNumber(v, env).Some?
    ensures r.Pass? ==> r.value == Number(ToNumber(v, env).value)
    ensures r.Fail? ==> r.message == typeMsg
    ensures v.Missing? ==> r == Fail(typeMsg)
    ensures v.Null? ==> r == Pass(Number(0))
  {
    match ToNumber(v, env)
    case Some(n) => Pass(Number(n))
    case None => Fail(typeMsg)
  }

  /** `z.coerce.number(…).nullish()`: undefined and null pass through before
      any coercion. */
  function CheckOptionalNumber(typeMsg: string, v: Json, env: Env): (r: Check<Value>)
    ensures r.Pass? <==> v.Missing? || v.Null? || ToNumber(v, env).Some?
    ensures v.Missing? ==> r == Pass(Absent)
    ensures v.Null? ==> r == Pass(Nil)
    ensures !v.Missing? && !v.Null? && r.Pass? ==> r.value == Number(ToNumber(v, env).value)
    ensures r.Fail? ==> r.message == typeMsg
  {
    if v.Missing? then Pass(Absent)
    else if v.Null? then Pass(Nil)
    else CheckNumber(typeMsg, v, env)
  }

  /** `z.boolean({invalid_type_error}).nullish()` */
  function CheckOptionalBool(typeMsg: string, v: Json): (r: Check<Value>)
    ensures r.Pass? <==> v.Missing? || v.Null? || v.Bool?
    ensures v.Missing? ==> r == Pass(Absent)
    ensures v.Null? ==> r == Pass(Nil)
    ensures v.Bool? ==> r == Pass(Flag(v.b))
    ensures r.Fail? ==> r.message == typeMsg
  {
    match v
    case Missing => Pass(Absent)
    case Null => Pass(Nil)
    case Bool(b) => Pass(Flag(b))
    case _ => Fail(typeMsg)
  }

  /** `z.boolean({message, …})`: only a boolean passes, and `message` is
      reported for a missing value and for a value of another type alike. */
  function CheckStrictBool(message: string, v: Json): (r: Check<Value>)
    ensures r.Pass? <==> v.Bool?
    ensures v.Bool? ==> r == Pass(Flag(v.b))
    ensures r.Fail? ==> r.message == message
  {
    if v.Bool? then Pass(Flag(v.b)) else Fail(message)
  }

  /** A date chain without `.nullish()`: absent gives the required message. */
  function CheckRequiredDate(requiredMsg: string, typeMsg: string, patternMsg: string, v: Json): (r: Check<Value>)
    ensures r.Pass? <==> v.Str? && MatchesDatePattern(v.s)
    ensures r.Pass? ==> r.value == Calendar(DateOf(v.s))
    ensures v.Missing? ==> r == Fail(requiredMsg)
    ensures v.Str? && !MatchesDatePattern(v.s) ==> r == Fail(patternMsg)
    ensures !v.Missing? && !v.Str? ==> r == Fail(typeMsg)
  {
    if v.Missing? then Fail(requiredMsg) else CheckDateText(typeMsg, patternMsg, v)
  }

  /** A date chain with `.nullish()`: undefined and null pass through. */
  function CheckOptionalDate(typeMsg: string, patternMsg: string, v: Json): (r: Check<Value>)
    ensures r.Pass? <==> v.Missing? || v.Null? || (v.Str? && MatchesDatePattern(v.s))
    ensures v.Missing? ==> r == Pass(Absent)
    ensures v.Null? ==> r == Pass(Nil)
    ensures v.Str? && MatchesDatePattern(v.s) ==> r == Pass(Calendar(DateOf(v.s)))
    ensures v.Str? && !MatchesDatePattern(v.s) ==> r == Fail(patternMsg)
    ensures !v.Missing? && !v.Null? && !v.Str? ==> r == Fail(typeMsg)
  {
    if v.Missing? then Pass(Absent) else if v.Null? then Pass(Nil) else CheckDateText(typeMsg, patternMsg, v)
  }

  /** Applies one field's rule chain to the raw value found under its key. */
  function ApplyRule(rule: Rule, v: Json, env: Env): Check<Value>
  {
    match rule
    case RequiredString(req, ty, empty) => CheckRequiredString(req, ty, empty, v)
    case EmailString(req, ty, fmt) => CheckEmail(req, ty, fmt, v, env)
    case GenderEnum(msg) => CheckGender(msg, v)
    case OptionalText(max, tooLong, ty) => CheckOptionalText(max, tooLong, ty, v)
    case RequiredDate(req, ty, pat) => CheckRequiredDate(req, ty, pat, v)
    case OptionalDate(ty, pat) => CheckOptionalDate(ty, pat, v)
    case OptionalBool(ty) => CheckOptionalBool(ty, v)
    case OptionalNumber(ty) => CheckOptionalNumber(ty, v, env)
    case CoercedNumber(_, ty, _) => CheckNumber(ty, v, env)
    case StrictBool(msg, _) => CheckStrictBool(msg, v)
  }

  /** What a value accepted by a rule looks like: the normal form the
      schema guarantees to the persistence layer. */
  predicate Conforms(rule: Rule, x: Value, env: Env)
  {
    match rule
    case RequiredString(_, _, _) => x.Text? && x.text != ""
    case EmailString(_, _, _) => x.Text? && env.isEmail(x.text)
    case GenderEnum(_) => x.Absent? || x.Nil? || x.Choice?
    case OptionalText(max, _, _) =>
      x.Absent? || x.Nil? || (x.Text? && |x.text| <= max && !AllWhitespace(x.text))
    case RequiredDate(_, _, _) => x.Calendar? && DateInRange(x.date)
    case OptionalDate(_, _) => x.Absent? || x.Nil? || (x.Calendar? && DateInRange(x.date))
    case OptionalBool(_) => x.Absent? || x.Nil? || x.Flag?
    case OptionalNumber(_) => x.Absent? || x.Nil? || x.Number?
    case CoercedNumber(_, _, _) => x.Number?
    case StrictBool(_, _) => x.Flag?
  }

  /** Whatever a rule accepts is in its normal form; in particular an
      optional text field never yields a blank or over-long string. */
  lemma RuleOutputConforms(rule: Rule, v: Json, env: Env)
    ensures ApplyRule(rule, v, env).Pass? ==> Conforms(rule, ApplyRule(rule, v, env).value, env)
  {
  }

  // ---------------------------------------------------------------------
  // The generic object validator

  function CheckField(f: Field, input: Input, env: Env): Check<Value>
  {
    ApplyRule(f.rule, Get(input, f.key), env)
  }

  function IssueOf<T>(c: Check<T>): seq<string>
  {
    if c.Fail? then [c.message] else []
  }

  /** The issues of an object: every field's issue, in field order. */
  function Issues(shape: Shape, input: Input, env: Env): seq<string>
  {
    if shape == [] then [] else IssueOf(CheckField(shape[0], input, env)) + Issues(shape[1..], input, env)
  }

  /** The output object: each field's parsed value under its key. */
  function Output(shape: Shape, input: Input, env: Env): Record
  {
    if shape == [] then map[]
    else
      var c := CheckField(shape[0], input, env);
      Output(shape[1..], input, env)[shape[0].key := if c.Pass? then c.value else Absent]
  }

  /** Field `i` is the first one with its key (so its value is the one the
      output object keeps). */
  predicate KeyFirstAt(shape: Shape, i: int)
  {
    0 <= i < |shape| && forall j :: 0 <= j < i ==> shape[j].key != shape[i].key
  }

  predicate DistinctKeys(shape: Shape)
  {
    forall i :: 0 <= i < |shape| ==> KeyFirstAt(shape, i)
  }

  /** `schema.parseAsync(input)`: the normalised object when every field
      passes, otherwise all issues together (a `ZodError`). */
  function ParseShape(shape: Shape, input: Input, env: Env): (r: Result<Record>)
    ensures r.Failure? <==> exists i :: 0 <= i < |shape| && CheckField(shape[i], input, env).Fail?
    ensures r.Failure? ==> r.issues != [] && r.issues == Issues(shape, input, env)
    ensures r.Success? ==> r.value == Output(shape, input, env)
  {
    IssuesEmptyIff(shape, input, env);
    var issues := Issues(shape, input, env);
    if issues == [] then Success(Output(shape, input, env)) else Failure(issues)
  }

  /** On success the record has exactly the shape's keys, and the first
      field with each key supplies that key's parsed value. */
  lemma ParsedValues(shape: Shape, input: Input, env: Env)
    requires ParseShape(shape, input, env).Success?
    ensures ParseShape(shape, input, env).value.Keys == set i | 0 <= i < |shape| :: shape[i].key
    ensures forall i :: KeyFirstAt(shape, i) ==>
      shape[i].key in ParseShape(shape, input, env).value &&
      ParseShape(shape, input, env).value[shape[i].key] == CheckField(shape[i], input, env).value
  {
    OutputKeys(shape, input, env);
    IssuesEmptyIff(shape, input, env);
    OutputMatchesChecks(shape, input, env);
  }

  lemma {:induction false} IssuesEmptyIff(shape: Shape, input: Input, env: Env)
    ensures Issues(shape, input, env) == [] <==> forall i :: 0 <= i < |shape| ==> CheckField(shape[i], input, env).Pass?
  {
    if shape != [] {
      IssuesEmptyIff(shape[1..], input, env);
      assert forall i :: 1 <= i < |shape| ==> shape[i] == shape[1..][i - 1];
    }
  }

  lemma {:induction false} OutputKeys(shape: Shape, input: Input, env: Env)
    ensures Output(shape, input, env).Keys == set i | 0 <= i < |shape| :: shape[i].key
  {
    if shape != [] {
      OutputKeys(shape[1..], input, env);
      assert forall i :: 1 <= i < |shape| ==> shape[i] == shape[1..][i - 1];
      var ks := set i | 0 <= i < |shape| :: shape[i].key;
      var rest := set i | 0 <= i < |shape[1..]| :: shape[1..][i].key;
      assert ks == rest + {shape[0].key} by {
        forall k | k in ks ensures k in rest + {shape[0].key} {
          var i :| 0 <= i < |shape| && shape[i].key == k;
          if i > 0 { assert shape[1..][i - 1].key == k; }
        }
        forall k | k in rest ensures k in ks {
          var i :| 0 <= i < |shape[1..]| && shape[1..][i].key == k;
          assert shape[i + 1].key == k;
        }
      }
    }
  }

  lemma {:induction false} OutputAt(shape: Shape, input: Input, env: Env, i: int)
    requires KeyFirstAt(shape, i)
    requires CheckField(shape[i], input, env).Pass?
    ensures shape[i].key in Output(shape, input, env)
    ensures Output(shape, input, env)[shape[i].key] == CheckField(shape[i], input, env).value
  {
    if i > 0 {
      assert shape[1..][i - 1] == shape[i];
      assert KeyFirstAt(shape[1..], i - 1) by {
        forall j | 0 <= j < i - 1 ensures shape[1..][j].key != shape[1..][i - 1].key {
          assert shape[1..][j] == shape[j + 1];
        }
      }
      OutputAt(shape[1..], input, env, i - 1);
      assert shape[0].key != shape[i].key;
    }
  }

  lemma OutputMatchesChecks(shape: Shape, input: Input, env: Env)
    requires forall i :: 0 <= i < |shape| ==> CheckField(shape[i], input, env).Pass?
    ensures forall i :: KeyFirstAt(shape, i) ==>
      shape[i].key in Output(shape, input, env) &&
      Output(shape, input, env)[shape[i].key] == CheckField(shape[i], input, env).value
  {
    forall i | KeyFirstAt(shape, i)
      ensures shape[i].key in Output(shape, input, env)
      ensures Output(shape, input, env)[shape[i].key] == CheckField(shape[i], input, env).value
    {
      OutputAt(shape, input, env, i);
    }
  }

  /** Issues of consecutive field lists concatenate: parsing never stops
      at the first failing field. */
  lemma {:induction false} IssuesAppend(a: Shape, b: Shape, input: Input, env: Env)
    ensures Issues(a + b, input, env) == Issues(a, input, env) + Issues(b, input, env)
  {
    if a == [] {
      assert a + b == b;
    } else {
      assert (a + b)[0] == a[0];
      assert (a + b)[1..] == a[1..] + b;
      IssuesAppend(a[1..], b, input, env);
    }
  }

  /** Every failing field contributes its own message to the issue list. */
  lemma {:induction false} IssuesReportEveryFailure(shape: Shape, input: Input, env: Env, i: int)
    requires 0 <= i < |shape|
    requires CheckField(shape[i], input, env).Fail?
    ensures CheckField(shape[i], input, env).message in Issues(shape, input, env)
  {
    if i > 0 {
      assert shape[1..][i - 1] == shape[i];
      IssuesReportEveryFailure(shape[1..], input, env, i - 1);
    }
  }

  /** A successful parse yields every field in its normal form. */
  lemma ParsedRecordConforms(shape: Shape, input: Input, env: Env)
    requires ParseShape(shape, input, env).Success?
    ensures forall i :: KeyFirstAt(shape, i) ==>
      shape[i].key in ParseShape(shape, input, env).value &&
      Conforms(shape[i].rule, ParseShape(shape, input, env).value[shape[i].key], env)
  {
    ParsedValues(shape, input, env);
    forall i | KeyFirstAt(shape, i)
      ensures Conforms(shape[i].rule, ParseShape(shape, input, env).value[shape[i].key], env)
    {
      RuleOutputConforms(shape[i].rule, Get(input, shape[i].key), env);
    }
  }

  // ---------------------------------------------------------------------
  // The three schemas

  const NameField := Field("name", RequiredString("Name is required", "Name must be a string", "Name cannot be empty"))
  const EmailField := Field("email", EmailString("Email is required", "Email must be a string", "Invalid email address"))
  const GenderField := Field("gender", GenderEnum("Gender must be male, female"))
  const PhoneField := Field("phone",
    OptionalText(20, "Phone number cannot exceed 20 characters", Some("Phone number must be a string")))
  const DobField := Field("dob",
    RequiredDate(ZodRequired, "Date of birth must be a string in format YYYY-MM-DD",
                 "Date of birth must be in format YYYY-MM-DD (e.g. 2025-09-19)"))
  const CurrentAddressField := Field("currentAddress",
    OptionalText(50, "Current address cannot exceed 50 characters", None))
  const PermanentAddressField := Field("permanentAddress",
    OptionalText(50, "Permanent address cannot exceed 50 characters", None))
  const FatherNameField := Field("fatherName", OptionalText(50, "Father's name cannot exceed 50 characters", None))
  const FatherPhoneField := Field("fatherPhone", OptionalText(20, "Father's phone cannot exceed 20 characters", None))
  const MotherNameField := Field("motherName", OptionalText(50, "Mother's name cannot exceed 50 characters", None))
  const MotherPhoneField := Field("motherPhone", OptionalText(20, "Mother's phone cannot exceed 20 characters", None))
  const GuardianNameField := Field("guardianName",
    OptionalText(50, "Guardian's name cannot exceed 50 characters", None))
  const GuardianPhoneField := Field("guardianPhone",
    OptionalText(20, "Guardian's phone cannot exceed 20 characters", None))
  const RelationOfGuardianField := Field("relationOfGuardian",
    OptionalText(30, "Relation of guardian cannot exceed 30 characters", None))
  const SystemAccessField := Field("systemAccess", OptionalBool("System access must be true or false"))
  const ClassField := Field("class", OptionalText(50, "Class cannot exceed 50 characters", None))
  const SectionField := Field("section", OptionalText(50, "Section cannot exceed 50 characters", None))
  const AdmissionDateField := Field("admissionDate",
    OptionalDate("Admission date must be a string in format YYYY-MM-DD",
                 "Admission date must be in format YYYY-MM-DD (e.g. 2025-09-19)"))
  const RollField := Field("roll", OptionalNumber("Roll must be a number"))

  /** `StudentSchema`, field by field in declaration order. */
  const StudentShape: Shape := [
    NameField, EmailField, GenderField, PhoneField, DobField,
    CurrentAddressField, PermanentAddressField, FatherNameField, FatherPhoneField,
    MotherNameField, MotherPhoneField, GuardianNameField, GuardianPhoneField,
    RelationOfGuardianField, SystemAccessField, ClassField, SectionField,
    AdmissionDateField, RollField]

  const UserIdField := Field("userId",
    CoercedNumber("User ID is required", "User ID must be a number", "User ID must be a valid number"))

  /** `StudentSchema.extend({ userId })`: the extra key goes last. */
  const UpdateShape: Shape := StudentShape + [UserIdField]

  /** `StatusStudentSchema`; the reviewer's refine text names the user ID. */
  const ReviewerIdField := Field("reviewerId",
    CoercedNumber("Reviewer ID is required", "Reviewer ID must be a number", "User ID must be a valid number"))
  const StatusField := Field("status", StrictBool("Status is required", "Status must be true or false"))
  const StatusShape: Shape := [UserIdField, ReviewerIdField, StatusField]

  /** The keys of a shape, in field order. */
  function KeysOf(shape: Shape): seq<string>
  {
    seq(|shape|, i requires 0 <= i < |shape| => shape[i].key)
  }

  /** The keys of the three schemas in declaration order: the update schema
      adds `userId` after the student keys. */
  lemma SchemaKeys()
    ensures KeysOf(StudentShape) == ["name", "email", "gender", "phone", "dob", "currentAddress",
      "permanentAddress", "fatherName", "fatherPhone", "motherName", "motherPhone", "guardianName",
      "guardianPhone", "relationOfGuardian", "systemAccess", "class", "section", "admissionDate", "roll"]
    ensures KeysOf(UpdateShape) == KeysOf(StudentShape) + ["userId"]
    ensures KeysOf(StatusShape) == ["userId", "reviewerId", "status"]
  {
  }

  /** The maximum length of each optional text field. */
  const TextLimits: map<string, nat> := map[
    "phone" := 20, "fatherPhone" := 20, "motherPhone" := 20, "guardianPhone" := 20,
    "currentAddress" := 50, "permanentAddress" := 50, "fatherName" := 50, "motherName" := 50,
    "guardianName" := 50, "class" := 50, "section" := 50,
    "relationOfGuardian" := 30]

  /** Every optional text field of `StudentSchema` carries the limit
      `TextLimits` gives for its key. */
  lemma StudentTextFieldLimits()
    ensures forall i :: 0 <= i < |StudentShape| && StudentShape[i].rule.OptionalText? ==>
      StudentShape[i].key in TextLimits && StudentShape[i].rule.max == TextLimits[StudentShape[i].key]
  {
    forall i | 0 <= i < |StudentShape| && StudentShape[i].rule.OptionalText?
      ensures StudentShape[i].key in TextLimits && StudentShape[i].rule.max == TextLimits[StudentShape[i].key]
    {
      assert i in {3, 5, 6, 7, 8, 9, 10, 11, 12, 13, 15, 16};
    }
  }

  /** Every key of `TextLimits` is an optional text field of `StudentSchema`. */
  lemma StudentTextFieldsCovered()
    ensures forall k :: k in TextLimits ==>
      exists i :: 0 <= i < |StudentShape| && StudentShape[i].key == k && StudentShape[i].rule.OptionalText?
  {
    forall k | k in TextLimits
      ensures exists i :: 0 <= i < |StudentShape| && StudentShape[i].key == k && StudentShape[i].rule.OptionalText?
    {
      var i :=
        if k == "phone" then 3 else if k == "currentAddress" then 5 else if k == "permanentAddress" then 6
        else if k == "fatherName" then 7 else if k == "fatherPhone" then 8 else if k == "motherName" then 9
        else if k == "motherPhone" then 10 else if k == "guardianName" then 11 else if k == "guardianPhone" then 12
        else if k == "relationOfGuardian" then 13 else if k == "class" then 15 else 16;
      assert StudentShape[i].key == k && StudentShape[i].rule.OptionalText?;
    }
  }

  /** No two fields of `StudentSchema` share a key. */
  lemma StudentKeysDistinct()
    ensures DistinctKeys(StudentShape)
  {
    StudentKeysDistinctLow();
    StudentKeysDistinctHigh();
  }

  lemma StudentKeysDistinctLow()
    ensures forall i :: 0 <= i < 10 ==> KeyFirstAt(StudentShape, i)
  {
  }

  lemma StudentKeysDistinctHigh()
    ensures forall i :: 10 <= i < |StudentShape| ==> KeyFirstAt(StudentShape, i)
  {
  }

  /** `userId` is not a key of `StudentSchema`, and the status schema's keys are distinct. */
  lemma ExtraKeysDistinct()
    ensures forall i :: 0 <= i < |StudentShape| ==> StudentShape[i].key != UserIdField.key
    ensures DistinctKeys(StatusShape)
  {
  }

  lemma {:induction false} OutputAppend(a: Shape, b: Shape, input: Input, env: Env)
    ensures Output(a + b, input, env) == Output(b, input, env) + Output(a, input, env)
  {
    if a == [] {
      assert a + b == b;
    } else {
      assert (a + b)[0] == a[0];
      assert (a + b)[1..] == a[1..] + b;
      OutputAppend(a[1..], b, input, env);
    }
  }

  /** Appending a field with a new key to a shape: the result fails exactly
      when the shape or the field does, lists the shape's issues before the
      field's, and on success adds the field's value to the shape's record. */
  lemma ExtendShape(a: Shape, f: Field, input: Input, env: Env)
    requires forall i :: 0 <= i < |a| ==> a[i].key != f.key
    ensures ParseShape(a + [f], input, env).Failure? <==>
      ParseShape(a, input, env).Failure? || CheckField(f, input, env).Fail?
    ensures ParseShape(a + [f], input, env).Failure? ==>
      ParseShape(a + [f], input, env).issues == Issues(a, input, env) + IssueOf(CheckField(f, input, env))
    ensures ParseShape(a + [f], input, env).Success? ==>
      ParseShape(a + [f], input, env).value == ParseShape(a, input, env).value[f.key := CheckField(f, input, env).value]
  {
    ExtendIssues(a, f, input, env);
    if ParseShape(a + [f], input, env).Success? {
      ExtendOutput(a, f, input, env);
    }
  }

  lemma ExtendIssues(a: Shape, f: Field, input: Input, env: Env)
    ensures Issues(a + [f], input, env) == Issues(a, input, env) + IssueOf(CheckField(f, input, env))
  {
    IssuesAppend(a, [f], input, env);
    assert [f][1..] == [];
  }

  lemma ExtendOutput(a: Shape, f: Field, input: Input, env: Env)
    requires forall i :: 0 <= i < |a| ==> a[i].key != f.key
    requires CheckField(f, input, env).Pass?
    ensures Output(a + [f], input, env) == Output(a, input, env)[f.key := CheckField(f, input, env).value]
  {
    OutputAppend(a, [f], input, env);
    OutputKeys(a, input, env);
    assert [f][1..] == [];
    assert Output([f], input, env) == map[f.key := CheckField(f, input, env).value];
    assert f.key !in Output(a, input, env);
  }

  /** `UpdateStudentSchema` is `StudentSchema` with `userId` appended. */
  lemma UpdateExtendsStudent(input: Input, env: Env)
    ensures ParseShape(UpdateShape, input, env).Failure? <==>
      ParseShape(StudentShape, input, env).Failure? || CheckField(UserIdField, input, env).Fail?
    ensures ParseShape(UpdateShape, input, env).Failure? ==>
      ParseShape(UpdateShape, input, env).issues ==
        Issues(StudentShape, input, env) + IssueOf(CheckField(UserIdField, input, env))
    ensures ParseShape(UpdateShape, input, env).Success? ==>
      ParseShape(UpdateShape, input, env).value ==
        ParseShape(StudentShape, input, env).value["userId" := CheckField(UserIdField, input, env).value]
  {
    ExtraKeysDistinct();
    ExtendShape(StudentShape, UserIdField, input, env);
  }

  /** An issue of any field is reported however many other fields fail. */
  lemma FieldIssueReported(shape: Shape, i: int, input: Input, env: Env)
    requires 0 <= i < |shape|
    requires CheckField(shape[i], input, env).Fail?
    ensures ParseShape(shape, input, env).Failure?
    ensures CheckField(shape[i], input, env).message in ParseShape(shape, input, env).issues
  {
    IssuesReportEveryFailure(shape, input, env, i);
  }

  /** An id that does not coerce to a number, a missing one included, is
      reported with its type message. */
  lemma IdsMustBeNumbers(input: Input, env: Env)
    ensures ToNumber(Get(input, "userId"), env).None? ==>
      ParseShape(StatusShape, input, env).Failure? &&
      "User ID must be a number" in ParseShape(StatusShape, input, env).issues
    ensures ToNumber(Get(input, "reviewerId"), env).None? ==>
      ParseShape(StatusShape, input, env).Failure? &&
      "Reviewer ID must be a number" in ParseShape(StatusShape, input, env).issues
  {
    if ToNumber(Get(input, "userId"), env).None? {
      FieldIssueReported(StatusShape, 0, input, env);
    }
    if ToNumber(Get(input, "reviewerId"), env).None? {
      FieldIssueReported(StatusShape, 1, input, env);
    }
  }

  /** `status` must be a boolean: a missing one and a non-boolean one both
      fail the status schema with `'Status is required'`. */
  lemma StatusMustBeBoolean(input: Input, env: Env)
    requires !Get(input, "status").Bool?
    ensures ParseShape(StatusShape, input, env).Failure?
    ensures "Status is required" in ParseShape(StatusShape, input, env).issues
  {
    FieldIssueReported(StatusShape, 2, input, env);
  }

  /** The status schema's issues are its three fields' issues, in order, so
      the ids' required and refine messages and the status type message are
      never among them. */
  lemma StatusIssues(input: Input, env: Env)
    ensures Issues(StatusShape, input, env) ==
      IssueOf(CheckField(UserIdField, input, env)) + IssueOf(CheckField(ReviewerIdField, input, env))
        + IssueOf(CheckField(StatusField, input, env))
    ensures forall m :: m in Issues(StatusShape, input, env) ==>
      m in {"User ID must be a number", "Reviewer ID must be a number", "Status is required"}
  {
    var rest := [ReviewerIdField, StatusField];
    assert StatusShape[1..] == rest && rest[1..] == [StatusField] && [StatusField][1..] == [];
    assert Issues([StatusField], input, env) == IssueOf(CheckField(StatusField, input, env));
    assert Issues(rest, input, env) ==
      IssueOf(CheckField(ReviewerIdField, input, env)) + IssueOf(CheckField(StatusField, input, env));
  }

  /** `systemAccess`: undefined, null and booleans pass; anything else fails
      with its type message. */
  lemma SystemAccessOutcome(input: Input, env: Env)
    ensures StudentShape[14].key == "systemAccess"
    ensures CheckField(StudentShape[14], input, env).Pass? <==>
      Get(input, "systemAccess") in {Missing, Null} || Get(input, "systemAccess").Bool?
    ensures CheckField(StudentShape[14], input, env).Fail? ==>
      CheckField(StudentShape[14], input, env).message == "System access must be true or false"
  {
  }

  /** `admissionDate`: undefined and null pass; a string passes exactly when
      it matches `YYYY-MM-DD`, and yields the date it spells. */
  lemma AdmissionDateOutcome(input: Input, env: Env)
    ensures StudentShape[17].key == "admissionDate"
    ensures var v := Get(input, "admissionDate");
      CheckField(StudentShape[17], input, env).Pass? <==> v in {Missing, Null} || (v.Str? && MatchesDatePattern(v.s))
    ensures var v := Get(input, "admissionDate");
      v.Str? && MatchesDatePattern(v.s) ==> CheckField(StudentShape[17], input, env) == Pass(Calendar(DateOf(v.s)))
    ensures var v := Get(input, "admissionDate");
      v.Str? && !MatchesDatePattern(v.s) ==>
        (CheckField(StudentShape[17], input, env) ==
         Fail("Admission date must be in format YYYY-MM-DD (e.g. 2025-09-19)"))
    ensures var v := Get(input, "admissionDate");
      !v.Missing? && !v.Null? && !v.Str? ==>
        (CheckField(StudentShape[17], input, env) == Fail("Admission date must be a string in format YYYY-MM-DD"))
  {
  }

  /** `roll`: undefined and null pass through; any other value passes exactly
      when it coerces to a number, and otherwise fails with `'Roll must be a number'`. */
  lemma RollOutcome(input: Input, env: Env)
    ensures StudentShape[18].key == "roll"
    ensures var v := Get(input, "roll");
      CheckField(StudentShape[18], input, env).Pass? <==> v in {Missing, Null} || ToNumber(v, env).Some?
    ensures var v := Get(input, "roll");
      !v.Missing? && !v.Null? && ToNumber(v, env).Some? ==>
        CheckField(StudentShape[18], input, env) == Pass(Number(ToNumber(v, env).value))
    ensures CheckField(StudentShape[18], input, env).Fail? ==>
      CheckField(StudentShape[18], input, env).message == "Roll must be a number"
  {
  }

  /** A date of birth in another format than `YYYY-MM-DD` is rejected. */
  lemma MalformedDobRejected(input: Input, env: Env)
    requires Get(input, "dob").Str? && !MatchesDatePattern(Get(input, "dob").s)
    ensures ParseShape(StudentShape, input, env).Failure?
    ensures "Date of birth must be in format YYYY-MM-DD (e.g. 2025-09-19)" in ParseShape(StudentShape, input, env).issues
  {
    FieldIssueReported(StudentShape, 4, input, env);
  }

  /** Rules that accept an absent value (every `.nullish()` chain). */
  predicate AcceptsMissing(rule: Rule)
  {
    rule.GenderEnum? || rule.OptionalText? || rule.OptionalDate? || rule.OptionalBool? || rule.OptionalNumber?
  }

  /** Every `.nullish()` field passes `undefined` and `null` through. */
  lemma NullishPassesThrough(rule: Rule, env: Env)
    requires AcceptsMissing(rule)
    ensures ApplyRule(rule, Missing, env) == Pass(Absent)
    ensures ApplyRule(rule, Null, env) == Pass(Nil)
  {
  }

  /** Only `name`, `email` and `dob` are required by `StudentSchema`. */
  lemma StudentOptionalFields()
    ensures forall i :: 0 <= i < |StudentShape| && i != 0 && i != 1 && i != 4 ==>
      AcceptsMissing(StudentShape[i].rule) &&
      StudentShape[i].key != "name" && StudentShape[i].key != "email" && StudentShape[i].key != "dob"
  {
  }

  /** In any shape, a `.nullish()` field whose key the input lacks yields undefined. */
  lemma AbsentOptionalFieldsPass(shape: Shape, input: Input, env: Env)
    ensures forall i :: 0 <= i < |shape| && AcceptsMissing(shape[i].rule) && shape[i].key !in input ==>
      CheckField(shape[i], input, env) == Pass(Absent)
  {
    forall i | 0 <= i < |shape| && AcceptsMissing(shape[i].rule) && shape[i].key !in input
      ensures CheckField(shape[i], input, env) == Pass(Absent)
    {
      NullishPassesThrough(shape[i].rule, env);
    }
  }

  /** A payload with only `name`, `email` and `dob`, all valid, parses:
      those three fields keep their values and every other field is undefined. */
  lemma RequiredOnlyPayload(input: Input, env: Env)
    requires input.Keys == {"name", "email", "dob"}
    requires input["name"].Str? && input["name"].s != ""
    requires input["email"].Str? && env.isEmail(input["email"].s)
    requires input["dob"].Str? && MatchesDatePattern(input["dob"].s)
    ensures ParseShape(StudentShape, input, env).Success?
    ensures CheckField(StudentShape[0], input, env) == Pass(Text(input["name"].s))
    ensures CheckField(StudentShape[1], input, env) == Pass(Text(input["email"].s))
    ensures CheckField(StudentShape[4], input, env) == Pass(Calendar(DateOf(input["dob"].s)))
    ensures forall i :: 0 <= i < |StudentShape| && i != 0 && i != 1 && i != 4 ==>
      CheckField(StudentShape[i], input, env) == Pass(Absent)
  {
    StudentOptionalFields();
    AbsentOptionalFieldsPass(StudentShape, input, env);
    RequiredFieldsPass(input, env);
    AllFieldsPassParses(StudentShape, input, env);
  }

  lemma RequiredFieldsPass(input: Input, env: Env)
    requires "name" in input && input["name"].Str? && input["name"].s != ""
    requires "email" in input && input["email"].Str? && env.isEmail(input["email"].s)
    requires "dob" in input && input["dob"].Str? && MatchesDatePattern(input["dob"].s)
    ensures CheckField(StudentShape[0], input, env) == Pass(Text(input["name"].s))
    ensures CheckField(StudentShape[1], input, env) == Pass(Text(input["email"].s))
    ensures CheckField(StudentShape[4], input, env) == Pass(Calendar(DateOf(input["dob"].s)))
  {
  }

  /** A shape whose every field passes parses successfully. */
  lemma AllFieldsPassParses(shape: Shape, input: Input, env: Env)
    requires forall i :: 0 <= i < |shape| ==> CheckField(shape[i], input, env).Pass?
    ensures ParseShape(shape, input, env).Success?
  {
    IssuesEmptyIff(shape, input, env);
  }

  /** "2025-09-19" denotes 19 September 2025; "2025/09/19" does not match the pattern. */
  lemma DateExamples()
    ensures MatchesDatePattern("2025-09-19") && DateOf("2025-09-19") == Date(2025, 9, 19)
    ensures !MatchesDatePattern("2025/09/19")
  {
  }
}
