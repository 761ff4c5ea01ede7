/**
 * The part of the schema library the validation rules are built from:
 * issues and their messages, rule chains over one field, and the parsing of
 * an object schema.
 *
 * A schema is an ordered sequence of fields, each with a rule from the
 * field's value (or its absence) to an outcome. The library records issues
 * field by field in declaration order and, within a field, check by check;
 * every consumer here reads only the first issue, so a rule returns the
 * message of its first failing check and the object parse stops at the
 * first field that fails. Keys that the schema does not name are dropped
 * from the parsed data, which is the library's default for object schemas.
 */
module Zod {
  import opened Wrappers
  import opened Json
  import opened Text

  /** The issues the library reports with its own wording. */
  datatype IssueCode =
    | Required                                          // the value is undefined
    | InvalidType(expected: string, received: string)
    | InvalidEnumValue(options: seq<string>, received: string)
    | TooSmall(minimum: nat)                            // a string shorter than `minimum`
    | InvalidRegex                                      // a `regex` check without a message

  /** An issue message: the schema author's text, or the library's own for a built-in issue. */
  datatype Message = Custom(text: string) | Builtin(code: IssueCode)

  /** An issue: the keys leading to the offending value, and its message. */
  datatype Issue = Issue(path: seq<string>, message: Message)

  /** What a rule makes of one field: a value for the output, no output key, or the first issue's message. */
  datatype FieldOutcome = Keep(value: Value) | Omit | Reject(message: Message)

  /** An intermediate step of a chain over a string. */
  datatype Step = Pass(s: string) | Stop(message: Message)

  datatype Field = Field(name: string, rule: Option<Value> -> FieldOutcome)

  type Schema = seq<Field>

  /** The result of `safeParse`: the parsed data, or the first issue. */
  datatype Parsed = Parsed(data: map<string, Value>) | Rejected(issue: Issue)

  /** The library's English wording of a message (version 3 of the library). */
  function Render(m: Message): string {
    match m
    case Custom(text) => text
    case Builtin(Required) => "Required"
    case Builtin(InvalidType(expected, received)) => "Expected " + expected + ", received " + received
    case Builtin(InvalidEnumValue(options, received)) =>
      "Invalid enum value. Expected " + JoinOptions(options) + ", received '" + received + "'"
    case Builtin(TooSmall(minimum)) => "String must contain at least " + NatToString(minimum) + " character(s)"
    case Builtin(InvalidRegex) => "Invalid"
  }

  /** Enum options quoted and separated by ` | `. */
  function JoinOptions(options: seq<string>): string {
    if options == [] then []
    else if |options| == 1 then "'" + options[0] + "'"
    else "'" + options[0] + "' | " + JoinOptions(options[1..])
  }

  function NatToString(n: nat): string {
    var digit := ['0' + (n % 10) as char];
    if n < 10 then digit else NatToString(n / 10) + digit
  }

  /** The value under `key`, or `None` when the key is absent (undefined). */
  function Lookup(fields: map<string, Value>, key: string): Option<Value> {
    if key in fields then Some(fields[key]) else None
  }

  /** `z.string()`: the value must be a string. */
  function ExpectString(input: Option<Value>): (r: Step)
    ensures r.Pass? <==> input.Some? && input.value.JString?
    ensures r.Pass? ==> r.s == input.value.s
  {
    match input
    case None => Stop(Builtin(Required))
    case Some(JString(s)) => Pass(s)
    case Some(v) => Stop(Builtin(InvalidType("string", TypeName(v))))
  }

  /** The last step of a chain: the string becomes the field's value, a stop becomes its issue. */
  function Finish(step: Step): (r: FieldOutcome)
    ensures step.Pass? ==> r == Keep(JString(step.s))
    ensures step.Stop? ==> r == Reject(step.message)
  {
    match step
    case Pass(s) => Keep(JString(s))
    case Stop(m) => Reject(m)
  }

  /** `z.string().regex(/^\d+$/, message).transform(Number)`: a non-empty digit string, converted to its number. */
  function DigitString(input: Option<Value>, message: Message): (r: FieldOutcome)
    ensures r.Keep? <==> input.Some? && input.value.JString? && input.value.s != [] && AllDigits(input.value.s)
    ensures r.Keep? ==> r.value == JNumber(DigitsValue(input.value.s) as real)
    ensures input.Some? && input.value.JString? && !r.Keep? ==> r == Reject(message)
    ensures !r.Omit?
  {
    match ExpectString(input)
    case Stop(m) => Reject(m)
    case Pass(s) => if s != [] && AllDigits(s) then Keep(JNumber(DigitsValue(s) as real)) else Reject(message)
  }

  /**
   * `z.string().min(1, requiredMessage).transform(s => s.toUpperCase().trim())
   *  .refine(format, formatMessage)`: the emptiness check sees the raw
   * string, the format check sees the normalised one.
   */
  function RequiredUpperTrim(input: Option<Value>, requiredMessage: string, format: string -> bool, formatMessage: string): (r: FieldOutcome)
    ensures r.Keep? <==> input.Some? && input.value.JString? && input.value.s != [] && format(Trim(ToUpper(input.value.s)))
    ensures r.Keep? ==> r.value == JString(Trim(ToUpper(input.value.s)))
    ensures input == Some(JString("")) ==> r == Reject(Custom(requiredMessage))
    ensures input.Some? && input.value.JString? && input.value.s != [] && !r.Keep? ==> r == Reject(Custom(formatMessage))
    ensures !r.Omit?
  {
    match ExpectString(input)
    case Stop(m) => Reject(m)
    case Pass(s) =>
      if |s| < 1 then Reject(Custom(requiredMessage))
      else
        var normalised := Trim(ToUpper(s));
        if format(normalised) then Keep(JString(normalised)) else Reject(Custom(formatMessage))
  }

  /**
   * `z.string().min(1, minMessage).max(maxLength, maxMessage).trim()`: both
   * length checks see the raw string; the output is the trimmed string.
   */
  function BoundedTrimmed(input: Option<Value>, minMessage: string, maxLength: nat, maxMessage: string): (r: FieldOutcome)
    ensures r.Keep? <==> input.Some? && input.value.JString? && 1 <= |input.value.s| <= maxLength
    ensures r.Keep? ==> r.value == JString(Trim(input.value.s))
    ensures input == Some(JString("")) ==> r == Reject(Custom(minMessage))
    ensures input.Some? && input.value.JString? && |input.value.s| > maxLength >= 1 ==> r == Reject(Custom(maxMessage))
    ensures !r.Omit?
  {
    match ExpectString(input)
    case Stop(m) => Reject(m)
    case Pass(s) =>
      if |s| < 1 then Reject(Custom(minMessage))
      else if |s| > maxLength then Reject(Custom(maxMessage))
      else Keep(JString(Trim(s)))
  }

  /** `z.number()`: the value must be a number. */
  function ExpectNumber(input: Option<Value>): (r: Option<Message>)
    ensures r.None? <==> input.Some? && input.value.JNumber?
  {
    match input
    case None => Some(Builtin(Required))
    case Some(JNumber(_)) => None
    case Some(v) => Some(Builtin(InvalidType("number", TypeName(v))))
  }

  /**
   * `z.number().int(intMessage)`, followed by `.positive(positiveMessage)`
   * when one is given. The number is kept as it is; strings are not coerced.
   */
  function WholeNumber(input: Option<Value>, intMessage: string, positiveMessage: Option<string>): (r: FieldOutcome)
    ensures r.Keep? <==>
      input.Some? && input.value.JNumber? && IsInteger(input.value.n) && (positiveMessage.Some? ==> input.value.n > 0.0)
    ensures r.Keep? ==> r.value == input.value
    ensures input.Some? && input.value.JNumber? && !IsInteger(input.value.n) ==> r == Reject(Custom(intMessage))
    ensures !r.Omit?
  {
    match ExpectNumber(input)
    case Some(m) => Reject(m)
    case None =>
      var n := input.value.n;
      if !IsInteger(n) then Reject(Custom(intMessage))
      else if positiveMessage.Some? && !(n > 0.0) then Reject(Custom(positiveMessage.value))
      else Keep(input.value)
  }

  /**
   * `z.enum(options).optional().nullable()`: absent gives no key, `null` is
   * kept, otherwise the value must be one of the options.
   */
  function OptionalEnum(input: Option<Value>, options: seq<string>): (r: FieldOutcome)
    ensures input.None? <==> r.Omit?
    ensures r.Keep? <==> input == Some(JNull) || (input.Some? && input.value.JString? && input.value.s in options)
    ensures r.Keep? ==> r.value == input.value
  {
    match input
    case None => Omit
    case Some(JNull) => Keep(JNull)
    case Some(JString(s)) => if s in options then Keep(JString(s)) else Reject(Builtin(InvalidEnumValue(options, s)))
    case Some(v) => Reject(Builtin(InvalidType(JoinOptions(options), TypeName(v))))
  }

  /**
   * `z.string().max(maxLength, maxMessage).trim().optional().nullable()`:
   * absent gives no key, `null` is kept, a string must not be too long and
   * is trimmed.
   */
  function OptionalBoundedTrimmed(input: Option<Value>, maxLength: nat, maxMessage: string): (r: FieldOutcome)
    ensures input.None? <==> r.Omit?
    ensures r.Keep? <==> input == Some(JNull) || (input.Some? && input.value.JString? && |input.value.s| <= maxLength)
    ensures r.Keep? && input.value.JString? ==> r.value == JString(Trim(input.value.s))
    ensures input.Some? && input.value.JString? && |input.value.s| > maxLength ==> r == Reject(Custom(maxMessage))
  {
    match input
    case None => Omit
    case Some(JNull) => Keep(JNull)
    case Some(JString(s)) => if |s| > maxLength then Reject(Custom(maxMessage)) else Keep(JString(Trim(s)))
    case Some(v) => Reject(Builtin(InvalidType("string", TypeName(v))))
  }

  /** The outcome of field `i` of `schema` on the given keys. */
  function OutcomeAt(schema: Schema, fields: map<string, Value>, i: nat): FieldOutcome
    requires i < |schema|
  {
    schema[i].rule(Lookup(fields, schema[i].name))
  }

  /** The field names of a schema are distinct (they are the keys of an object literal). */
  ghost predicate DistinctNames(schema: Schema) {
    forall i, j :: 0 <= i < j < |schema| ==> schema[i].name != schema[j].name
  }

  /** `schema.safeParse(input)` for an object schema. */
  function ParseObject(schema: Schema, input: Option<Value>): (r: Parsed)
    ensures input.None? ==> r == Rejected(Issue([], Builtin(Required)))
    ensures input.Some? && !input.value.JObject? ==> r == Rejected(Issue([], Builtin(InvalidType("object", TypeName(input.value)))))
  {
    match input
    case None => Rejected(Issue([], Builtin(Required)))
    case Some(JObject(fields)) => ParseFields(schema, fields)
    case Some(v) => Rejected(Issue([], Builtin(InvalidType("object", TypeName(v)))))
  }

  /** The fields of an object parsed in declaration order, stopping at the first rejection. */
  function ParseFields(schema: Schema, fields: map<string, Value>): (r: Parsed)
    ensures r.Parsed? ==> r.data.Keys <= set i | 0 <= i < |schema| :: schema[i].name
    ensures r.Rejected? ==> |r.issue.path| == 1
  {
    if schema == [] then Parsed(map[])
    else
      match schema[0].rule(Lookup(fields, schema[0].name))
      case Reject(m) => Rejected(Issue([schema[0].name], m))
      case Omit => ParseFields(schema[1..], fields)
      case Keep(v) =>
        match ParseFields(schema[1..], fields)
        case Parsed(data) => Parsed(data[schema[0].name := v])
        case Rejected(issue) => Rejected(issue)
  }

  /**
   * The reported issue is the first failing field's: when field `i` rejects
   * and every earlier field accepts, parsing fails at `i` with `i`'s message,
   * however many later fields would fail too.
   */
  lemma {:induction false} FirstFailingFieldIsReported(schema: Schema, fields: map<string, Value>, i: nat)
    requires i < |schema| && OutcomeAt(schema, fields, i).Reject?
    requires forall j :: 0 <= j < i ==> !OutcomeAt(schema, fields, j).Reject?
    ensures ParseFields(schema, fields) == Rejected(Issue([schema[i].name], OutcomeAt(schema, fields, i).message))
  {
    if i > 0 {
      assert !OutcomeAt(schema, fields, 0).Reject?;
      forall j | 0 <= j < i - 1 ensures !OutcomeAt(schema[1..], fields, j).Reject? {
        assert OutcomeAt(schema[1..], fields, j) == OutcomeAt(schema, fields, j + 1);
      }
      assert OutcomeAt(schema[1..], fields, i - 1) == OutcomeAt(schema, fields, i);
      FirstFailingFieldIsReported(schema[1..], fields, i - 1);
    }
  }

  /** Two fields that both keep a value parse to exactly those two entries. */
  lemma TwoKeptFields(first: Field, second: Field, fields: map<string, Value>)
    requires first.rule(Lookup(fields, first.name)).Keep?
    requires second.rule(Lookup(fields, second.name)).Keep?
    ensures ParseFields([first, second], fields)
         == Parsed(map[second.name := second.rule(Lookup(fields, second.name)).value]
                      [first.name := first.rule(Lookup(fields, first.name)).value])
  {
    var v0 := first.rule(Lookup(fields, first.name)).value;
    var v1 := second.rule(Lookup(fields, second.name)).value;
    assert [second][1..] == [];
    assert ParseFields([second], fields) == Parsed(map[second.name := v1]);
    assert [first, second][1..] == [second];
  }

  /**
   * When the first two of three fields keep a value, the third decides: its
   * rejection is the reported issue, otherwise all three values are kept.
   */
  lemma ThirdFieldDecides(first: Field, second: Field, third: Field, fields: map<string, Value>)
    requires first.rule(Lookup(fields, first.name)).Keep?
    requires second.rule(Lookup(fields, second.name)).Keep?
    requires !third.rule(Lookup(fields, third.name)).Omit?
    ensures var last := third.rule(Lookup(fields, third.name));
      ParseFields([first, second, third], fields)
        == if last.Reject? then Rejected(Issue([third.name], last.message))
           else Parsed(map[third.name := last.value]
                          [second.name := second.rule(Lookup(fields, second.name)).value]
                          [first.name := first.rule(Lookup(fields, first.name)).value])
  {
    var last := third.rule(Lookup(fields, third.name));
    assert [third][1..] == [];
    assert ParseFields([third], fields)
        == if last.Reject? then Rejected(Issue([third.name], last.message)) else Parsed(map[third.name := last.value]);
    assert [second, third][1..] == [third];
    assert [first, second, third][1..] == [second, third];
  }

  /** Parsing fails only when some field rejects. */
  lemma {:induction false} RejectionNeedsFailingField(schema: Schema, fields: map<string, Value>)
    requires ParseFields(schema, fields).Rejected?
    ensures exists i :: 0 <= i < |schema| && OutcomeAt(schema, fields, i).Reject?
  {
    if !OutcomeAt(schema, fields, 0).Reject? {
      RejectionNeedsFailingField(schema[1..], fields);
      var i :| 0 <= i < |schema[1..]| && OutcomeAt(schema[1..], fields, i).Reject?;
      assert OutcomeAt(schema, fields, i + 1) == OutcomeAt(schema[1..], fields, i);
    }
  }

  /** Parsing succeeds only when no field rejects. */
  lemma {:induction false} ParsedHasNoRejection(schema: Schema, fields: map<string, Value>)
    requires ParseFields(schema, fields).Parsed?
    ensures forall i :: 0 <= i < |schema| ==> !OutcomeAt(schema, fields, i).Reject?
  {
    if schema != [] {
      ParsedHasNoRejection(schema[1..], fields);
      forall i | 1 <= i < |schema| ensures !OutcomeAt(schema, fields, i).Reject? {
        assert OutcomeAt(schema, fields, i) == OutcomeAt(schema[1..], fields, i - 1);
      }
    }
  }

  /**
   * When no field rejects, parsing succeeds: the output has a key exactly
   * for each field whose rule kept a value, holding that value; every other
   * key of the input is dropped.
   */
  lemma {:induction false} AcceptedFieldsAreKept(schema: Schema, fields: map<string, Value>)
    requires DistinctNames(schema)
    requires forall i :: 0 <= i < |schema| ==> !OutcomeAt(schema, fields, i).Reject?
    ensures ParseFields(schema, fields).Parsed?
    ensures forall k :: k in ParseFields(schema, fields).data <==>
      exists i :: 0 <= i < |schema| && schema[i].name == k && OutcomeAt(schema, fields, i).Keep?
    ensures forall i :: 0 <= i < |schema| && OutcomeAt(schema, fields, i).Keep? ==>
      ParseFields(schema, fields).data[schema[i].name] == OutcomeAt(schema, fields, i).value
  {
    if schema != [] {
      var rest := schema[1..];
      assert DistinctNames(rest) by {
        forall i, j | 0 <= i < j < |rest| ensures rest[i].name != rest[j].name {
          assert rest[i] == schema[i + 1] && rest[j] == schema[j + 1];
        }
      }
      forall i | 0 <= i < |rest| ensures OutcomeAt(rest, fields, i) == OutcomeAt(schema, fields, i + 1) {
        assert rest[i] == schema[i + 1];
      }
      assert !OutcomeAt(schema, fields, 0).Reject?;
      AcceptedFieldsAreKept(rest, fields);
      var data := ParseFields(schema, fields).data;
      var restData := ParseFields(rest, fields).data;
      forall k ensures k in data <==> exists i :: 0 <= i < |schema| && schema[i].name == k && OutcomeAt(schema, fields, i).Keep? {
        if k in restData {
          var i :| 0 <= i < |rest| && rest[i].name == k && OutcomeAt(rest, fields, i).Keep?;
          assert schema[i + 1].name == k && OutcomeAt(schema, fields, i + 1).Keep?;
        }
        if exists i :: 0 <= i < |schema| && schema[i].name == k && OutcomeAt(schema, fields, i).Keep? {
          var i :| 0 <= i < |schema| && schema[i].name == k && OutcomeAt(schema, fields, i).Keep?;
          if i > 0 {
            assert rest[i - 1].name == k && OutcomeAt(rest, fields, i - 1).Keep?;
          }
        }
      }
      forall i | 0 <= i < |schema| && OutcomeAt(schema, fields, i).Keep?
        ensures data[schema[i].name] == OutcomeAt(schema, fields, i).value
      {
        if i > 0 {
          assert schema[i].name != schema[0].name;
          assert rest[i - 1] == schema[i];
        }
      }
    }
  }

  /**
   * A schema whose fields carry the same names and whose rules differ only
   * where the stricter rule rejects gives the same result as the stricter
   * schema whenever the stricter one accepts.
   */
  lemma {:induction false} RelaxedSchemaAgrees(strict: Schema, relaxed: Schema, fields: map<string, Value>)
    requires |strict| == |relaxed|
    requires forall i :: 0 <= i < |strict| ==> strict[i].name == relaxed[i].name
    requires forall i :: 0 <= i < |strict| ==>
      OutcomeAt(strict, fields, i).Reject? || OutcomeAt(relaxed, fields, i) == OutcomeAt(strict, fields, i)
    requires ParseFields(strict, fields).Parsed?
    ensures ParseFields(relaxed, fields) == ParseFields(strict, fields)
  {
    if strict != [] {
      assert !OutcomeAt(strict, fields, 0).Reject?;
      assert OutcomeAt(relaxed, fields, 0) == OutcomeAt(strict, fields, 0);
      forall i | 0 <= i < |strict| - 1
        ensures OutcomeAt(strict[1..], fields, i) == OutcomeAt(strict, fields, i + 1)
        ensures OutcomeAt(relaxed[1..], fields, i) == OutcomeAt(relaxed, fields, i + 1)
      {
        assert strict[1..][i] == strict[i + 1] && relaxed[1..][i] == relaxed[i + 1];
      }
      RelaxedSchemaAgrees(strict[1..], relaxed[1..], fields);
    }
  }

  /** A key that names no field of the schema has no effect on the result, whatever its value. */
  lemma {:induction false} UnlistedKeyIgnored(schema: Schema, fields: map<string, Value>, key: string, v: Value)
    requires forall i :: 0 <= i < |schema| ==> schema[i].name != key
    ensures ParseFields(schema, fields[key := v]) == ParseFields(schema, fields)
    ensures ParseFields(schema, fields - {key}) == ParseFields(schema, fields)
  {
    if schema != [] {
      assert Lookup(fields[key := v], schema[0].name) == Lookup(fields, schema[0].name);
      assert Lookup(fields - {key}, schema[0].name) == Lookup(fields, schema[0].name);
      forall i | 0 <= i < |schema| - 1 ensures schema[1..][i].name != key { assert schema[1..][i] == schema[i + 1]; }
      UnlistedKeyIgnored(schema[1..], fields, key, v);
    }
  }
}
