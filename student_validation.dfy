/**
 * The student rules and schemas of the API service
 * (monash-api/src/utils/studentValidation.js), and the helper that reads
 * the course prefix off a student number.
 */
module StudentValidation {
  import opened Wrappers
  import opened Json
  import opened Text
  import opened Zod
  import Validator
  import opened Numbers

  const IdMessage := "ID must be a number"
  const NumberRequired := "Student number is required"
  const NumberFormat := "Invalid student number format (e.g., LAW0504, SE03001)"
  const MyKadLength := "MyKad number must be exactly 12 digits"
  const MyKadDigits := "MyKad number must contain only digits"
  const MyKadFormat := "Invalid MyKad number format (YYMMDDxxxxxx)"
  const EmailFormat := "Invalid email format"
  const NameRequired := "Student name is required"
  const NameTooLong := "Student name must not exceed 100 characters"
  const IdNotInteger := "Course ID must be an integer"
  const IdNotPositive := "Course ID must be positive"
  const AddressTooLong := "Address must not exceed 255 characters"
  const Genders: seq<string> := ["Male", "Female"]

  /**
   * `extractStudentNumberPrefix`: the match of `^([A-Z]{2,4})`, a greedy
   * run of two to four leading capitals, or `None` (null) when the string
   * does not start with two capitals.
   */
  function ExtractStudentNumberPrefix(studentNumber: string): (r: Option<string>)
    ensures r.Some? <==> |studentNumber| >= 2 && IsUpper(studentNumber[0]) && IsUpper(studentNumber[1])
    ensures r.Some? ==>
      2 <= |r.value| <= 4 && |r.value| <= |studentNumber| && r.value == studentNumber[..|r.value|] && AllUpper(r.value)
    ensures r.Some? && |r.value| < 4 ==> |r.value| == |studentNumber| || !IsUpper(studentNumber[|r.value|])
  {
    var k := Min(UpperRun(studentNumber), 4);
    if k < 2 then
      assert k < |studentNumber| ==> !IsUpper(studentNumber[k]);
      None
    else
      assert studentNumber[..k] == studentNumber[..UpperRun(studentNumber)][..k];
      Some(studentNumber[..k])
  }

  /** The pattern `^[A-Z]{2,4}[0-9]{4,5}$`. */
  predicate IsStudentNumberFormat(s: string) { LettersThenDigits(s, 4, 5) }

  /** `idParam`: a path parameter of digits, converted to a number. */
  function IdParam(input: Option<Value>): FieldOutcome { DigitString(input, Custom(IdMessage)) }

  /** `studentNumber`: required, upper-cased and trimmed, then capitals and four or five digits. */
  function StudentNumber(input: Option<Value>): FieldOutcome {
    RequiredUpperTrim(input, NumberRequired, IsStudentNumberFormat, NumberFormat)
  }

  /**
   * `myKadNumber`: the length check, then the digit pattern, then the month
   * and day refinement; only the first failing check is reported.
   */
  function MyKadNumber(input: Option<Value>): (r: FieldOutcome)
    ensures r.Keep? <==> input.Some? && input.value.JString? && Validator.ValidMyKadNumber(input.value.s)
    ensures r.Keep? ==> r.value == input.value
    ensures input.Some? && input.value.JString? && |input.value.s| != 12 ==> r == Reject(Custom(MyKadLength))
    ensures input.Some? && input.value.JString? && |input.value.s| == 12 && !AllDigits(input.value.s) ==>
      r == Reject(Custom(MyKadDigits))
    ensures !r.Omit?
  {
    match ExpectString(input)
    case Stop(m) => Reject(m)
    case Pass(s) =>
      if |s| != 12 then Reject(Custom(MyKadLength))
      else if !AllDigits(s) then Reject(Custom(MyKadDigits))
      else
        var month := DigitsValue(s[2..4]);
        var day := DigitsValue(s[4..6]);
        if 1 <= month <= 12 && 1 <= day <= 31 then Keep(JString(s)) else Reject(Custom(MyKadFormat))
  }

  /** The string `email` produces: trimmed, then lower-cased. */
  function NormaliseEmail(s: string): string { ToLower(Trim(s)) }

  /** `email`: trimmed and lower-cased, then it must match `^[^\s@]+@[^\s@]+\.[^\s@]+$`. */
  function Email(input: Option<Value>): (r: FieldOutcome)
    ensures r.Keep? <==> input.Some? && input.value.JString? && Validator.ValidEmail(NormaliseEmail(input.value.s))
    ensures r.Keep? ==> r.value == JString(NormaliseEmail(input.value.s))
    ensures input.Some? && input.value.JString? && !r.Keep? ==> r == Reject(Custom(EmailFormat))
    ensures !r.Omit?
  {
    match ExpectString(input)
    case Stop(m) => Reject(m)
    case Pass(s) =>
      var normalised := NormaliseEmail(s);
      if Validator.ValidEmail(normalised) then Keep(JString(normalised)) else Reject(Custom(EmailFormat))
  }

  /** `studentName`: one to one hundred characters, then trimmed. */
  function StudentName(input: Option<Value>): FieldOutcome { BoundedTrimmed(input, NameRequired, 100, NameTooLong) }

  /** `courseId` (also used for `student_id`): a number that is an integer and positive. */
  function CourseId(input: Option<Value>): FieldOutcome { WholeNumber(input, IdNotInteger, Some(IdNotPositive)) }

  /** `address`: optional and nullable, at most 255 characters, trimmed. */
  function Address(input: Option<Value>): FieldOutcome { OptionalBoundedTrimmed(input, 255, AddressTooLong) }

  /** `gender`: optional and nullable, one of "Male" and "Female". */
  function Gender(input: Option<Value>): FieldOutcome { OptionalEnum(input, Genders) }

  const GetStudentByIdSchema: Schema := [Field("studentId", IdParam)]
  const CreateStudentSchema: Schema :=
    [Field("student_number", StudentNumber), Field("mykad_number", MyKadNumber), Field("email", Email),
     Field("student_name", StudentName), Field("address", Address), Field("gender", Gender)]
  const UpdateStudentSchema: Schema :=
    [Field("student_id", CourseId), Field("mykad_number", MyKadNumber), Field("student_name", StudentName),
     Field("address", Address), Field("gender", Gender), Field("course_id", CourseId)]
  const DeleteStudentSchema: Schema := [Field("studentId", IdParam)]

  /** The prefix of "SE23001" is "SE" and that of "LAW0504" is "LAW"; "S1234" has none. */
  lemma PrefixExamples()
    ensures ExtractStudentNumberPrefix("SE23001") == Some("SE")
    ensures ExtractStudentNumberPrefix("LAW0504") == Some("LAW")
    ensures ExtractStudentNumberPrefix("S1234") == None
  {
    UpperRunOfSplit("SE23001", 2);
    assert "SE23001"[..2] == "SE";
    UpperRunOfSplit("LAW0504", 3);
    assert "LAW0504"[..3] == "LAW";
    UpperRunOfSplit("S1234", 1);
  }

  /**
   * The prefix of any student number the rule accepts is its run of
   * capitals, the letters in front of the digits.
   */
  lemma AcceptedNumberPrefixIsLetters(input: Option<Value>)
    requires StudentNumber(input).Keep?
    ensures var s := StudentNumber(input).value.s;
      ExtractStudentNumberPrefix(s) == Some(s[..UpperRun(s)])
  {
    var s := StudentNumber(input).value.s;
    var k := UpperRun(s);
    assert s[k..][0] == s[k] && IsDigit(s[k]);
  }

  /** The same holds for the numbers `validStudentNumber` accepts. */
  lemma ValidNumberPrefixIsLetters(studentNumber: Value)
    requires Validator.ValidStudentNumber(studentNumber)
    ensures var s := studentNumber.s; ExtractStudentNumberPrefix(s) == Some(s[..UpperRun(s)])
  {
    var s := studentNumber.s;
    assert s[UpperRun(s)..][0] == s[UpperRun(s)];
  }

  /** The schema rule is wider than `validStudentNumber`: it also accepts five digits, as in "SE03001". */
  lemma FiveDigitNumberSplitsValidators()
    ensures StudentNumber(Some(JString("SE03001"))) == Keep(JString("SE03001"))
    ensures !Validator.ValidStudentNumber(JString("SE03001"))
  {
    var s := "SE03001";
    assert UpperRun(s) == 2 && AllDigits(s[2..]) by {
      assert AllDigits(s[2..]);
      UpperRunOfSplit(s, 2);
    }
    assert ToUpper(s) == s by {
      forall i | 0 <= i < |s| ensures UpperChar(s[i]) == s[i] { assert !IsLower(s[i]); }
    }
    assert Trim(s) == s by { TrimKeepsTrimmed(s); }
    FiveDigitNumberKept(s);
  }

  /** A normalised number of two capitals and five digits passes the rule and fails `validStudentNumber`. */
  lemma FiveDigitNumberKept(s: string)
    requires |s| == 7 && UpperRun(s) == 2 && AllDigits(s[2..]) && ToUpper(s) == s && Trim(s) == s
    ensures StudentNumber(Some(JString(s))) == Keep(JString(s))
    ensures !Validator.ValidStudentNumber(JString(s))
  {
  }

  /** Every student number the rule accepts that has four digits is one `validStudentNumber` accepts. */
  lemma FourDigitNumbersAgree(input: Option<Value>)
    requires StudentNumber(input).Keep?
    requires var s := StudentNumber(input).value.s; |s| - UpperRun(s) == 4
    ensures Validator.ValidStudentNumber(StudentNumber(input).value)
  {
  }

  /** The MyKad rule accepts exactly the strings of MyKad shape: twelve digits with a valid month and day. */
  lemma MyKadRuleIsShape(s: string)
    ensures MyKadNumber(Some(JString(s))).Keep? <==> Validator.MyKadShape(s)
  {
    Validator.ValidMyKadNumberIsShape(s);
  }

  lemma LowerCharKeepsWhitespace(c: char)
    ensures IsWhitespace(LowerChar(c)) <==> IsWhitespace(c)
    ensures LowerChar(LowerChar(c)) == LowerChar(c)
  {
  }

  /** Lower-casing a string twice gives the same string as lower-casing it once. */
  lemma ToLowerIdempotent(v: string)
    ensures ToLower(ToLower(v)) == ToLower(v)
  {
    var w := ToLower(v);
    forall i | 0 <= i < |v| ensures ToLower(w)[i] == w[i] { LowerCharKeepsWhitespace(v[i]); }
  }

  /** Lower-casing a trimmed string leaves it trimmed. */
  lemma ToLowerKeepsTrimmed(t: string)
    requires t != [] ==> !IsWhitespace(t[0]) && !IsWhitespace(t[|t| - 1])
    ensures Trim(ToLower(t)) == ToLower(t)
  {
    if t != [] {
      LowerCharKeepsWhitespace(t[0]);
      LowerCharKeepsWhitespace(t[|t| - 1]);
    }
    TrimKeepsTrimmed(ToLower(t));
  }

  /** Normalising an address twice gives the same string as normalising it once. */
  lemma NormaliseEmailIdempotent(s: string)
    ensures NormaliseEmail(NormaliseEmail(s)) == NormaliseEmail(s)
  {
    var t := Trim(s);
    var v := ToLower(t);
    ToLowerKeepsTrimmed(t);
    ToLowerIdempotent(t);
    calc {
      NormaliseEmail(v);
      ToLower(Trim(v));
      ToLower(v);
      v;
    }
  }

  /** An accepted email address is stored in a form the rule accepts again unchanged. */
  lemma EmailIsIdempotent(input: Option<Value>)
    requires Email(input).Keep?
    ensures Email(Some(Email(input).value)) == Email(input)
  {
    NormaliseEmailIdempotent(input.value.s);
  }

  /** An accepted address is a valid address for `validEmail` and holds no capital letter. */
  lemma AcceptedEmailIsValidLowerCase(input: Option<Value>)
    requires Email(input).Keep?
    ensures Validator.ValidEmail(Email(input).value.s)
    ensures forall i :: 0 <= i < |Email(input).value.s| ==> !IsUpper(Email(input).value.s[i])
  {
  }

  /** A name of white space only passes the length checks and is stored as the empty string. */
  lemma BlankNameIsKeptEmpty(s: string)
    requires 1 <= |s| <= 100 && AllWhitespace(s)
    ensures StudentName(Some(JString(s))) == Keep(JString(""))
  {
    TrimAllWhitespace(s);
  }

  /** An absent gender or address adds no key; `null` is kept; a gender outside the two options is rejected. */
  lemma OptionalFieldsExamples(s: string)
    requires s != "Male" && s != "Female"
    ensures Gender(None) == Omit && Address(None) == Omit
    ensures Gender(Some(JNull)) == Keep(JNull) && Address(Some(JNull)) == Keep(JNull)
    ensures Gender(Some(JString(s))) == Reject(Builtin(InvalidEnumValue(Genders, s)))
  {
  }

  /**
   * The update schema has no `student_number` or `email` field: those keys
   * of a body, present or not, never change the result.
   */
  lemma UpdateIgnoresNumberAndEmail(fields: map<string, Value>, v: Value)
    ensures ParseFields(UpdateStudentSchema, fields["student_number" := v]) == ParseFields(UpdateStudentSchema, fields)
    ensures ParseFields(UpdateStudentSchema, fields["email" := v]) == ParseFields(UpdateStudentSchema, fields)
    ensures ParseFields(UpdateStudentSchema, fields - {"student_number", "email"}) == ParseFields(UpdateStudentSchema, fields)
  {
    UnlistedKeyIgnored(UpdateStudentSchema, fields, "student_number", v);
    UnlistedKeyIgnored(UpdateStudentSchema, fields, "email", v);
    UnlistedKeyIgnored(UpdateStudentSchema, fields - {"student_number"}, "email", v);
    assert fields - {"student_number", "email"} == fields - {"student_number"} - {"email"};
  }
}
