/**
 * The course rules and schemas of the API service
 * (monash-api/src/validations/courseValidation.js).
 */
module CourseValidation {
  import opened Wrappers
  import opened Json
  import opened Text
  import opened Zod
  import Validator

  const IdMessage := "ID must be a number"
  const CodeRequired := "Course code is required"
  const CodeFormat := "Invalid course code format (2-4 uppercase letters, e.g., SE, LAW)"
  const CodeFormatShort := "Invalid course code format"
  const NameRequired := "Course name is required"
  const NameTooLong := "Course name must not exceed 100 characters"
  const IdNotInteger := "Course ID must be a number"
  const IdNotPositive := "Course ID must be positive"

  /** The pattern `^[A-Z]{2,4}$`. */
  predicate IsCourseCodeFormat(s: string) { 2 <= |s| <= 4 && AllUpper(s) }

  /** `courseIdParam`: a path parameter of digits, converted to a number. */
  function CourseIdParam(input: Option<Value>): FieldOutcome { DigitString(input, Custom(IdMessage)) }

  /** `courseCode`: required, upper-cased and trimmed, then two to four capitals. */
  function CourseCode(input: Option<Value>): FieldOutcome {
    RequiredUpperTrim(input, CodeRequired, IsCourseCodeFormat, CodeFormat)
  }

  /** The `course_code` rule of `getCourseByCodeSchema`: the same chain with a shorter format message. */
  function CourseCodeLookup(input: Option<Value>): FieldOutcome {
    RequiredUpperTrim(input, CodeRequired, IsCourseCodeFormat, CodeFormatShort)
  }

  /** `courseName`: one to one hundred characters, then trimmed. */
  function CourseName(input: Option<Value>): FieldOutcome { BoundedTrimmed(input, NameRequired, 100, NameTooLong) }

  /** `courseId`: a number that is an integer and positive. */
  function CourseId(input: Option<Value>): FieldOutcome { WholeNumber(input, IdNotInteger, Some(IdNotPositive)) }

  const GetCourseByCodeSchema: Schema := [Field("course_code", CourseCodeLookup)]
  const DeleteCourseSchema: Schema := [Field("course_id", CourseIdParam)]
  const CreateCourseSchema: Schema := [Field("course_code", CourseCode), Field("course_name", CourseName)]
  const UpdateCourseSchema: Schema :=
    [Field("course_code", CourseCode), Field("course_name", CourseName), Field("course_id", CourseId)]

  /** A string of ASCII letters of either case. */
  predicate AllLetters(s: string) { forall i :: 0 <= i < |s| ==> IsUpper(s[i]) || IsLower(s[i]) }

  /**
   * Upper-casing comes before the format check: two to four letters of any
   * case are accepted and stored in capitals, so "se" becomes "SE".
   */
  lemma LettersAreAcceptedInCapitals(s: string)
    requires 2 <= |s| <= 4 && AllLetters(s)
    ensures CourseCode(Some(JString(s))) == Keep(JString(ToUpper(s)))
    ensures Validator.ValidCourseCode(JString(ToUpper(s)))
  {
    var u := ToUpper(s);
    UpperOfLetters(s);
    TrimKeepsTrimmed(u);
    assert Trim(u) == u;
    assert IsCourseCodeFormat(u);
  }

  lemma UpperOfLetters(s: string)
    requires AllLetters(s)
    ensures AllUpper(ToUpper(s))
  {
    var u := ToUpper(s);
    forall i | 0 <= i < |u| ensures IsUpper(u[i]) { assert u[i] == UpperChar(s[i]); }
  }

  lemma LowerCaseCodeExample()
    ensures CourseCode(Some(JString("se"))) == Keep(JString("SE"))
  {
    LettersAreAcceptedInCapitals("se");
    var u := ToUpper("se");
    assert u[0] == 'S' && u[1] == 'E';
    assert u == "SE";
  }

  /** A code of white space only passes the emptiness check but fails the format check. */
  lemma BlankCodeFailsFormat(s: string)
    requires s != [] && AllWhitespace(s)
    ensures CourseCode(Some(JString(s))) == Reject(Custom(CodeFormat))
  {
    ToUpperKeepsWhitespace(s);
    TrimAllWhitespace(s);
  }

  /** Whatever the rule accepts is a valid course code for `validCourseCode`. */
  lemma AcceptedCodeIsValid(input: Option<Value>)
    requires CourseCode(input).Keep?
    ensures Validator.ValidCourseCode(CourseCode(input).value)
  {
  }

  /** A code that is already valid is accepted unchanged. */
  lemma ValidCodeIsKept(s: string)
    requires Validator.ValidCourseCode(JString(s))
    ensures CourseCode(Some(JString(s))) == Keep(JString(s))
  {
    var u := ToUpper(s);
    forall i | 0 <= i < |s| ensures u[i] == s[i] { assert IsUpper(s[i]); }
    assert u == s;
    LettersAreAcceptedInCapitals(s);
  }

  /** The lookup rule accepts and normalises exactly as `courseCode` does; only its format message differs. */
  lemma LookupAgreesWithCourseCode(input: Option<Value>)
    ensures CourseCodeLookup(input).Keep? <==> CourseCode(input).Keep?
    ensures CourseCodeLookup(input).Keep? ==> CourseCodeLookup(input) == CourseCode(input)
    ensures CourseCode(input) == Reject(Custom(CodeFormat)) <==> CourseCodeLookup(input) == Reject(Custom(CodeFormatShort))
  {
  }

  /**
   * The length checks run before trimming, so a name of white space only
   * passes "required" and is stored as the empty string.
   */
  lemma BlankNameIsKeptEmpty(s: string)
    requires 1 <= |s| <= 100 && AllWhitespace(s)
    ensures CourseName(Some(JString(s))) == Keep(JString(""))
  {
    TrimAllWhitespace(s);
  }

  /** The path parameter "12" becomes the number 12; a string with a non-digit fails with the id message. */
  lemma CourseIdParamExamples()
    ensures CourseIdParam(Some(JString("12"))) == Keep(JNumber(12.0))
    ensures CourseIdParam(Some(JString("1a"))) == Reject(Custom(IdMessage))
    ensures CourseIdParam(Some(JString(""))) == Reject(Custom(IdMessage))
  {
    assert AllDigits("12");
    assert "12"[..1] == "1" && "1"[..0] == [];
    assert !AllDigits("1a") by { assert !IsDigit("1a"[1]); }
  }

  /**
   * What `courseIdParam` keeps is the number `validId` reads from the same
   * text, and the text is a valid id exactly when that number is at least 1:
   * "0" passes the parameter rule but not `validId`.
   */
  lemma CourseIdParamAgreesWithValidId(s: string)
    requires CourseIdParam(Some(JString(s))).Keep?
    ensures Validator.NumberOfText(s) == Some(CourseIdParam(Some(JString(s))).value.n)
    ensures Validator.ValidId(s) <==> CourseIdParam(Some(JString(s))).value.n >= 1.0
  {
    Validator.ValidIdOfDigits(s);
  }

  /** The converse fails: `validId` accepts a positive id with a space in front, which the parameter rule rejects. */
  lemma PaddedIdSplitsRules(s: string)
    requires s != [] && AllDigits(s) && DigitsValue(s) >= 1
    ensures Validator.ValidId(" " + s)
    ensures CourseIdParam(Some(JString(" " + s))) == Reject(Custom(IdMessage))
  {
    assert Validator.ValidId(" " + s) by {
      assert IsDigit(s[0]) && IsDigit(s[|s| - 1]);
      Validator.ValidIdOfDigits(s);
      Validator.ValidIdIgnoresPadding(" ", s, "");
      assert " " + s + "" == " " + s;
    }
    assert !AllDigits(" " + s) by { assert !IsDigit((" " + s)[0]); }
  }

  /** The update id is not coerced: a numeric string fails as a non-number, zero and negatives as non-positive. */
  lemma CourseIdIsPositiveWholeNumber(n: real)
    ensures CourseId(Some(JString("5"))) == Reject(Builtin(InvalidType("number", "string")))
    ensures IsInteger(n) && n <= 0.0 ==> CourseId(Some(JNumber(n))) == Reject(Custom(IdNotPositive))
    ensures IsInteger(n) && n > 0.0 ==> CourseId(Some(JNumber(n))) == Keep(JNumber(n))
  {
  }

  /** The two keys of a created course give the same map in either order of update. */
  lemma CourseKeysCommute(code: Value, name: Value)
    ensures map["course_name" := name]["course_code" := code] == map["course_code" := code, "course_name" := name]
  {
    assert "course_code"[7] != "course_name"[7];
  }

  /** The `course_code` entry of a request, when two to four letters, is kept in capitals. */
  lemma CodeEntryKept(code: string, fields: map<string, Value>)
    requires Lookup(fields, "course_code") == Some(JString(code)) && 2 <= |code| <= 4 && AllLetters(code)
    ensures Field("course_code", CourseCode).rule(Lookup(fields, "course_code")) == Keep(JString(ToUpper(code)))
  {
    LettersAreAcceptedInCapitals(code);
  }

  /** The `course_name` entry of a request, when it has no surrounding white space, is kept as it is. */
  lemma NameEntryKept(name: string, fields: map<string, Value>)
    requires Lookup(fields, "course_name") == Some(JString(name))
    requires 1 <= |name| <= 100 && !IsWhitespace(name[0]) && !IsWhitespace(name[|name| - 1])
    ensures Field("course_name", CourseName).rule(Lookup(fields, "course_name")) == Keep(JString(name))
  {
    TrimKeepsTrimmed(name);
  }

  /**
   * A create request whose `course_code` is two to four letters and whose
   * `course_name` has no surrounding white space parses to the capitalised
   * code and the name as it was; any other key of the request is dropped.
   */
  lemma CreateCourseParses(code: string, name: string, fields: map<string, Value>)
    requires Lookup(fields, "course_code") == Some(JString(code)) && 2 <= |code| <= 4 && AllLetters(code)
    requires Lookup(fields, "course_name") == Some(JString(name))
    requires 1 <= |name| <= 100 && !IsWhitespace(name[0]) && !IsWhitespace(name[|name| - 1])
    ensures ParseObject(CreateCourseSchema, Some(JObject(fields)))
         == Parsed(map["course_code" := JString(ToUpper(code)), "course_name" := JString(name)])
  {
    var first, second := Field("course_code", CourseCode), Field("course_name", CourseName);
    CodeEntryKept(code, fields);
    NameEntryKept(name, fields);
    TwoKeptFields(first, second, fields);
    assert CreateCourseSchema == [first, second];
    CourseKeysCommute(JString(ToUpper(code)), JString(name));
  }

  /** With both fields missing, the report names `course_code`, the first declared field. */
  lemma MissingFieldsReportFirst()
    ensures ParseObject(CreateCourseSchema, Some(JObject(map[])))
         == Rejected(Issue(["course_code"], Builtin(Required)))
  {
  }
}
