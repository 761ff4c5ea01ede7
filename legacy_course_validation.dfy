/**
 * The older copy of the course rules (monash-api/src/utils/courseValidation.js).
 * Its id parameter, code, lookup-code and name rules, and its lookup,
 * delete and create schemas, have the same text as the newer copy and are
 * taken from `CourseValidation`; its `courseId` lacks the sign check.
 */
module LegacyCourseValidation {
  import opened Wrappers
  import opened Json
  import opened Zod
  import CV = CourseValidation

  /** `courseId` of this copy: a whole number of any sign. */
  function CourseId(input: Option<Value>): FieldOutcome { WholeNumber(input, CV.IdNotInteger, None) }

  const GetCourseByCodeSchema: Schema := CV.GetCourseByCodeSchema
  const DeleteCourseSchema: Schema := CV.DeleteCourseSchema
  const CreateCourseSchema: Schema := CV.CreateCourseSchema
  const UpdateCourseSchema: Schema :=
    [Field("course_code", CV.CourseCode), Field("course_name", CV.CourseName), Field("course_id", CourseId)]

  /**
   * This copy's `courseId` accepts exactly the whole numbers; it agrees with
   * the newer rule on every input except a whole number that is not
   * positive, which only the newer rule rejects.
   */
  lemma CourseIdDropsSignCheck(input: Option<Value>)
    ensures CourseId(input).Keep? <==> input.Some? && input.value.JNumber? && IsInteger(input.value.n)
    ensures CourseId(input) != CV.CourseId(input) <==>
      input.Some? && input.value.JNumber? && IsInteger(input.value.n) && input.value.n <= 0.0
    ensures CourseId(input) != CV.CourseId(input) ==>
      CourseId(input) == Keep(input.value) && CV.CourseId(input) == Reject(Custom(CV.IdNotPositive))
  {
  }

  /** Whenever the newer update schema accepts a body, this copy accepts it with the same result. */
  lemma UpdateAcceptsWhatNewerAccepts(fields: map<string, Value>)
    requires ParseFields(CV.UpdateCourseSchema, fields).Parsed?
    ensures ParseFields(UpdateCourseSchema, fields) == ParseFields(CV.UpdateCourseSchema, fields)
  {
    forall i | 0 <= i < 3
      ensures OutcomeAt(CV.UpdateCourseSchema, fields, i).Reject?
           || OutcomeAt(UpdateCourseSchema, fields, i) == OutcomeAt(CV.UpdateCourseSchema, fields, i)
    {
      if i == 2 { CourseIdDropsSignCheck(Lookup(fields, "course_id")); }
    }
    RelaxedSchemaAgrees(CV.UpdateCourseSchema, UpdateCourseSchema, fields);
  }

  /** The three field names of the update schemas are distinct. */
  lemma UpdateNamesDistinct()
    ensures DistinctNames(UpdateCourseSchema) && DistinctNames(CV.UpdateCourseSchema)
  {
    assert "course_code"[7] != "course_name"[7];
    assert "course_code"[7] != "course_id"[7];
    assert "course_name"[7] != "course_id"[7];
  }

  /**
   * An update body with a valid code and name and a `course_id` of zero or
   * less is accepted here, keeping the id, while the newer schema reports
   * `course_id` as not positive.
   */
  lemma NonPositiveIdSplitsUpdateSchemas(fields: map<string, Value>, n: real)
    requires CV.CourseCode(Lookup(fields, "course_code")).Keep?
    requires CV.CourseName(Lookup(fields, "course_name")).Keep?
    requires Lookup(fields, "course_id") == Some(JNumber(n)) && IsInteger(n) && n <= 0.0
    ensures ParseFields(UpdateCourseSchema, fields).Parsed?
    ensures var data := ParseFields(UpdateCourseSchema, fields).data; "course_id" in data && data["course_id"] == JNumber(n)
    ensures ParseFields(CV.UpdateCourseSchema, fields) == Rejected(Issue(["course_id"], Custom(CV.IdNotPositive)))
  {
    LegacyKeepsNonPositiveId(fields, n);
    NewerRejectsNonPositiveId(fields, n);
  }

  lemma NewerRejectsNonPositiveId(fields: map<string, Value>, n: real)
    requires CV.CourseCode(Lookup(fields, "course_code")).Keep?
    requires CV.CourseName(Lookup(fields, "course_name")).Keep?
    requires Lookup(fields, "course_id") == Some(JNumber(n)) && IsInteger(n) && n <= 0.0
    ensures ParseFields(CV.UpdateCourseSchema, fields) == Rejected(Issue(["course_id"], Custom(CV.IdNotPositive)))
  {
    ThirdFieldDecides(Field("course_code", CV.CourseCode), Field("course_name", CV.CourseName),
                      Field("course_id", CV.CourseId), fields);
  }

  lemma LegacyKeepsNonPositiveId(fields: map<string, Value>, n: real)
    requires CV.CourseCode(Lookup(fields, "course_code")).Keep?
    requires CV.CourseName(Lookup(fields, "course_name")).Keep?
    requires Lookup(fields, "course_id") == Some(JNumber(n)) && IsInteger(n)
    ensures ParseFields(UpdateCourseSchema, fields).Parsed?
    ensures var data := ParseFields(UpdateCourseSchema, fields).data; "course_id" in data && data["course_id"] == JNumber(n)
  {
    ThirdFieldDecides(Field("course_code", CV.CourseCode), Field("course_name", CV.CourseName),
                      Field("course_id", CourseId), fields);
    UpdateNamesDistinct();
    assert UpdateCourseSchema[0].name != UpdateCourseSchema[2].name && UpdateCourseSchema[1].name != UpdateCourseSchema[2].name;
  }
}
