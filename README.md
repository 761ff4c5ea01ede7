# Request and response normalisation of an Express/MySQL CRUD service

This project models the part of the service that needs no database, HTTP or UI. That part:

- clamps pagination requests and builds the page metadata;
- checks fields with the hand-written validators and the zod rule chains for courses, students and the environment;
- runs the validation gate `validateZod`, which answers with the first issue or replaces the request part with the parsed data;
- builds the two generations of response envelope;
- classifies thrown errors, in both the newer and the older error handler.

Module by module:

- **`Pagination`, `ApiPagination`** model `paginate` in its two copies.
  - The two awaited database calls are function parameters.
  - The model sends each call exactly the query text and bound values the source sends.
  - A database error in either call propagates unchanged.
  - The second copy is proved equal to the first on every input.
- **`Validator`** models the regular-expression and range checks of `validator.js`.
  - Each pattern is written as character-class predicates.
  - Each one is proved equal to an independent statement of the pattern.
- **`Zod`** models the slice of zod the schemas use:
  - string, number, regex, length, enum, `optional().nullable()` and defaults;
  - transforms and refinements;
  - object parsing.
  Object parsing is fail-fast, which matches what the gate reads. The gate reads only `issues[0]`. zod orders issues by field declaration, then by check order. So the first failing check of the first failing field is exactly `issues[0]`, and a parse succeeds exactly when no field fails.
- **`CourseValidation`, `LegacyCourseValidation`, `StudentValidation`, `EnvSchema`** are the rule chains and schemas, each written with those building blocks.
- **`ValidateZod`** is the gate. It is a method on a mutable `Request` object and may replace one of its parts.
- **`Response`, `LegacyResponse`** are the two envelope builders. Each is written as the field-by-field method of the source and proved equal to a function that states which keys appear.
- **`ErrorHandler`, `LegacyErrorHandler`** are the error classification:
  - the lazy `Duplicate entry '(.+?)'` match;
  - the MySQL table;
  - the dispatch order;
  - the in-place defaulting of `err.statusCode`.

Behaviour worth noting:

- Keys a schema does not name are dropped from the parsed data, which is zod's default. They are not passed through (`Zod.UnlistedKeyIgnored`, `Zod.AcceptedFieldsAreKept`).
- `min`/`max` length checks run before `.trim()`. So a course or student name of blanks is accepted and stored empty (`CourseValidation.BlankNameIsKeptEmpty`).
- The update `course_id` is `z.number()`. A numeric string is rejected, not coerced (`CourseValidation.CourseIdIsPositiveWholeNumber`).
- The newer handler's generic fallback answers with `err.statusCode`, which is 500 only when the error had none. It does not always answer 500 (`ErrorHandler.MysqlBeforeFallback`).
- The success envelope sends `data` as given. No key-case transformation happens in `response` (`Response.Envelope`).

## Model

| member | source | states |
|---|---|---|
| Pagination.ClampPage | src/utils/pagination.js:7 | the page is at least 1; it is the requested page when that is at least 1, and 1 when it is missing, NaN, zero or negative |
| Pagination.ClampLimit | src/utils/pagination.js:8 | the page size lies in 1..100; a missing, NaN or zero size gives 10, a negative one 1, one above 100 gives 100, any other is kept |
| Pagination.Offset | src/utils/pagination.js:9 | the offset is non-negative, a multiple of the page size, and skips exactly `page - 1` pages |
| Pagination.TotalPages | src/utils/pagination.js:21 | `Math.ceil(total / limit)`: the pages cover all rows, and one page fewer would not |
| Pagination.Meta | src/utils/pagination.js:21-33 | the metadata echoes page, size and total; `has_next` holds exactly when rows remain beyond this page's window; `has_prev` holds exactly when the page is past the first |
| Pagination.HasNextMeansRowsRemain | src/utils/pagination.js:30 | `page < total_pages` is equivalent to `page * limit < total` |
| Pagination.Paginate | src/utils/pagination.js:5-34 | runs the count query (the wrapped text with the caller's values), then the window query (the caller's values followed by limit and offset); a failure of either is returned unchanged; otherwise the rows are returned as fetched, with consistent metadata |
| Pagination.EmptyResultHasNoPages | src/utils/pagination.js:21-32 | with no rows there are no pages and no next page, and a previous page exactly past page 1 |
| Pagination.PastLastPageHasNoNext | src/utils/pagination.js:30 | a page at or past the last never reports a next page |
| Pagination.TwentyFiveRowsInPagesOfTen | src/utils/pagination.js:21-32 | 25 rows at 10 per page make 3 pages; page 1 has only a next page, page 3 only a previous one |
| ApiPagination.Paginate | monash-api/src/utils/pagination.js:2-28 | the second copy returns the same result as the first on every input |
| Validator.ValidMyKadNumber | monash-api/src/utils/validator.js:1-19 | twelve digits, then month 1..12 and day 1..31, each failing by an early return; `ValidMyKadNumberIsShape` proves it equal to the character-level shape |
| Validator.ValidMyKadNumberIsShape | monash-api/src/utils/validator.js:1-19 | a MyKad number is valid exactly when it is 12 digits with month 01-12 and day 01-31 |
| Validator.MyKadYearIsUnconstrained | monash-api/src/utils/validator.js:5-16 | replacing the two year digits by any digits does not change validity |
| Validator.ValidEmailMatchesPattern | monash-api/src/utils/validator.js:22-24 | the email check holds exactly when the string splits as local `@` domain `.` suffix, with non-empty parts free of blanks and `@` |
| Validator.ValidEmail | monash-api/src/utils/validator.js:22-24 | the left-to-right matcher: a non-empty local part up to the first `@`, then a domain free of blanks and `@` with a `.` neither first nor last; `ValidEmailMatchesPattern` proves it equal to the pattern |
| Validator.UnsignedDecimal | monash-api/src/utils/validator.js:27 | `Number` of unsigned decimal text: digits with at most one point; the value is never negative; anything else is not a finite number |
| Validator.PointValue | monash-api/src/utils/validator.js:27 | a decimal with a point denotes its whole part when every digit after the point is 0, and no integer otherwise |
| Validator.NumberOfText | monash-api/src/utils/validator.js:27 | `Number(id)` of decimal text: surrounding blanks ignored, empty text 0, an optional sign |
| Validator.ValidId | monash-api/src/utils/validator.js:26-29 | the route parameter's `Number` is an integer above zero; its lemmas below state which texts that is |
| Validator.ValidIdOfDigits | monash-api/src/utils/validator.js:26-29 | a digit string reads as the number it denotes and is valid exactly when that number is at least 1 |
| Validator.ValidIdIgnoresPadding | monash-api/src/utils/validator.js:27 | blanks around an id change neither its number nor its validity |
| Validator.BlankIdIsInvalid | monash-api/src/utils/validator.js:27-28 | an empty or blank id reads as 0 and is not valid |
| Validator.NegativeIdIsInvalid | monash-api/src/utils/validator.js:28 | an id starting with `-` is never valid |
| Validator.ValidIdWithZeroFraction | monash-api/src/utils/validator.js:27-28 | zeros after a point change nothing: `12.00` reads and validates as `12` |
| Validator.ValidIdWithNonZeroFraction | monash-api/src/utils/validator.js:28 | a non-zero digit after the point makes the id invalid |
| Validator.ValidCourseCode | monash-api/src/utils/validator.js:31-33 | a string of two to four capitals; `CourseValidation.AcceptedCodeIsValid` and `ValidCodeIsKept` relate it to the zod rule |
| Validator.ValidStudentNumber | monash-api/src/utils/validator.js:35-42 | a string whose leading capital run has 2 to 4 letters followed by exactly 4 digits; `ValidStudentNumberShape` proves it equal to the pattern |
| Validator.ValidStudentNumberShape | monash-api/src/utils/validator.js:35-42 | `validStudentNumber` holds exactly for strings matching `^[A-Z]{2,4}[0-9]{4}$`, and those have 6 to 8 characters |
| Zod.DigitString | monash-api/src/validations/courseValidation.js:6-8 | a digit-string parameter is kept exactly when it is a non-empty string of digits, converted to its number; any other string fails with the rule's message |
| Zod.RequiredUpperTrim | monash-api/src/validations/courseValidation.js:10-15 | the emptiness check sees the raw string and the format check the upper-cased, trimmed one; the kept value is the normalised string |
| Zod.BoundedTrimmed | monash-api/src/validations/courseValidation.js:17-20 | accepted exactly when the raw string has 1 to the maximum characters; the kept value is trimmed; an empty or over-long string fails with its own message |
| Zod.WholeNumber | monash-api/src/validations/courseValidation.js:22-24 | accepted exactly when the value is a number, whole and, if required, positive; the number is kept unchanged and strings are not coerced |
| Zod.OptionalBoundedTrimmed | monash-api/src/utils/studentValidation.js:61 | an absent value gives no key and `null` is kept; a string must not be over-long and is trimmed |
| Zod.OptionalEnum | monash-api/src/utils/studentValidation.js:62 | an absent value gives no key and `null` is kept; otherwise the value must be one of the options |
| Zod.ParseObject | monash-api/src/middleware/validateZod.middleware.js:7-8 | a missing part fails as Required on the whole object; a value that is not an object fails with the object type message |
| Zod.ParseFields | monash-api/src/middleware/validateZod.middleware.js:8-11 | parsed data has only keys of the schema, and a rejection names one field |
| Zod.FirstFailingFieldIsReported | monash-api/src/middleware/validateZod.middleware.js:10-11 | the reported issue is the first failing field's, with that field's message, however many later fields fail |
| Zod.RejectionNeedsFailingField | monash-api/src/middleware/validateZod.middleware.js:10 | a parse fails only if some field rejects |
| Zod.ParsedHasNoRejection | monash-api/src/middleware/validateZod.middleware.js:10 | a parse succeeds only if no field rejects |
| Zod.AcceptedFieldsAreKept | monash-api/src/middleware/validateZod.middleware.js:18 | when no field rejects, the data holds exactly the kept fields with their values, and nothing else |
| Zod.UnlistedKeyIgnored | monash-api/src/middleware/validateZod.middleware.js:18 | adding or removing a key the schema does not name leaves the result unchanged |
| Zod.TwoKeptFields | monash-api/src/validations/courseValidation.js:40-43 | two fields that both keep a value parse to exactly those two entries |
| Zod.ThirdFieldDecides | monash-api/src/validations/courseValidation.js:45-49 | when the first two of three fields keep a value, the third's rejection is the issue, or all three values are kept |
| Zod.RelaxedSchemaAgrees | monash-api/src/utils/courseValidation.js:44-48 | a schema whose rules differ only where the stricter one rejects gives the stricter one's result whenever that one accepts |
| CourseValidation.CourseIdParam | monash-api/src/validations/courseValidation.js:6-8 | a non-empty digit string, kept as its number; anything else fails with the id message (the contract of `Zod.DigitString`) |
| CourseValidation.CourseCode | monash-api/src/validations/courseValidation.js:10-15 | required, upper-cased and trimmed, then two to four capitals; see the lemmas below |
| CourseValidation.CourseCodeLookup | monash-api/src/validations/courseValidation.js:27-34 | the same chain as `courseCode` with the shorter format message |
| CourseValidation.CourseName | monash-api/src/validations/courseValidation.js:17-20 | 1 to 100 characters before trimming, then trimmed (the contract of `Zod.BoundedTrimmed`) |
| CourseValidation.CourseId | monash-api/src/validations/courseValidation.js:22-24 | a number that is an integer and positive, with no string coercion (the contract of `Zod.WholeNumber`) |
| CourseValidation.GetCourseByCodeSchema | monash-api/src/validations/courseValidation.js:27-34 | one field, `course_code`, under the lookup rule |
| CourseValidation.DeleteCourseSchema | monash-api/src/validations/courseValidation.js:36-38 | one field, `course_id`, under the path-parameter rule |
| CourseValidation.CreateCourseSchema | monash-api/src/validations/courseValidation.js:40-43 | `course_code` then `course_name`, in that order; `CreateCourseParses` and `MissingFieldsReportFirst` state its results |
| CourseValidation.UpdateCourseSchema | monash-api/src/validations/courseValidation.js:45-49 | `course_code`, `course_name` and `course_id`, in that order |
| CourseValidation.CourseIdParamAgreesWithValidId | monash-api/src/validations/courseValidation.js:6-8 | the number the parameter rule keeps is the number `validId` reads, and the text is a valid id exactly when it is at least 1 |
| CourseValidation.PaddedIdSplitsRules | monash-api/src/validations/courseValidation.js:6-8 | `validId` accepts a positive id with a leading space, which the parameter rule rejects |
| CourseValidation.CourseIdParamExamples | monash-api/src/validations/courseValidation.js:6-8 | "12" becomes the number 12; "1a" and "" fail with the id message |
| CourseValidation.LettersAreAcceptedInCapitals | monash-api/src/validations/courseValidation.js:10-15 | two to four letters of either case are accepted and kept in capitals, which `validCourseCode` accepts |
| CourseValidation.LowerCaseCodeExample | monash-api/src/validations/courseValidation.js:12-15 | the code "se" is kept as "SE" |
| CourseValidation.BlankCodeFailsFormat | monash-api/src/validations/courseValidation.js:10-15 | a code of blanks passes the emptiness check but fails the format check |
| CourseValidation.AcceptedCodeIsValid | monash-api/src/validations/courseValidation.js:13-15 | every code the rule keeps satisfies `validCourseCode` |
| CourseValidation.ValidCodeIsKept | monash-api/src/utils/validator.js:31-33 | every code `validCourseCode` accepts is kept unchanged by the rule |
| CourseValidation.LookupAgreesWithCourseCode | monash-api/src/validations/courseValidation.js:27-34 | the lookup rule keeps and normalises exactly as `courseCode` does; only its format message differs |
| CourseValidation.BlankNameIsKeptEmpty | monash-api/src/validations/courseValidation.js:17-20 | a name of 1 to 100 blanks is accepted and stored as the empty string |
| CourseValidation.CourseIdIsPositiveWholeNumber | monash-api/src/validations/courseValidation.js:22-24 | "5" fails as a string where a number is expected; whole numbers up to 0 fail as not positive; positive whole numbers are kept |
| CourseValidation.CreateCourseParses | monash-api/src/validations/courseValidation.js:40-43 | a create body with a 2-4 letter code and a name without surrounding blanks parses to exactly the capitalised code and the name; other keys are dropped |
| CourseValidation.MissingFieldsReportFirst | monash-api/src/validations/courseValidation.js:40-43 | an empty create body is reported on `course_code` as Required |
| LegacyCourseValidation.CourseId | monash-api/src/utils/courseValidation.js:22-23 | a number that is an integer, without the sign check; `CourseIdDropsSignCheck` compares it with the newer rule |
| LegacyCourseValidation.UpdateCourseSchema | monash-api/src/utils/courseValidation.js:44-48 | `course_code`, `course_name` and the older `course_id`, in that order |
| LegacyCourseValidation.CourseIdDropsSignCheck | monash-api/src/utils/courseValidation.js:22-23 | the older `courseId` keeps exactly the whole numbers; it differs from the newer rule exactly on whole numbers up to 0, which the newer rule rejects as not positive |
| LegacyCourseValidation.UpdateAcceptsWhatNewerAccepts | monash-api/src/utils/courseValidation.js:44-48 | every update body the newer schema accepts, the older accepts with the same data |
| LegacyCourseValidation.NonPositiveIdSplitsUpdateSchemas | monash-api/src/utils/courseValidation.js:44-48 | a valid update with `course_id` at most 0 is accepted by the older schema, keeping the id, and rejected by the newer on `course_id` |
| StudentValidation.ExtractStudentNumberPrefix | monash-api/src/utils/studentValidation.js:4-7 | a prefix exists exactly when the number starts with two capitals; it is the longest run of leading capitals, cut at 4 |
| StudentValidation.PrefixExamples | monash-api/src/utils/studentValidation.js:3-7 | "SE23001" gives "SE", "LAW0504" gives "LAW", "S1234" gives none |
| StudentValidation.AcceptedNumberPrefixIsLetters | monash-api/src/utils/studentValidation.js:4-19 | the prefix of an accepted student number is exactly its leading capitals |
| StudentValidation.ValidNumberPrefixIsLetters | monash-api/src/utils/studentValidation.js:4-7 | the prefix of a number `validStudentNumber` accepts is its leading capitals |
| StudentValidation.FiveDigitNumberSplitsValidators | monash-api/src/utils/studentValidation.js:14-19 | "SE03001" is accepted by the zod rule and rejected by `validStudentNumber` |
| StudentValidation.FourDigitNumbersAgree | monash-api/src/utils/studentValidation.js:14-19 | an accepted number with four digits also satisfies `validStudentNumber` |
| StudentValidation.IdParam | monash-api/src/utils/studentValidation.js:10-12 | a non-empty digit string, kept as its number; anything else fails with the id message |
| StudentValidation.StudentNumber | monash-api/src/utils/studentValidation.js:14-19 | required, upper-cased and trimmed, then 2 to 4 capitals and 4 or 5 digits; see the prefix and validator lemmas |
| StudentValidation.MyKadNumber | monash-api/src/utils/studentValidation.js:21-32 | kept exactly when `validMyKadNumber` holds; a wrong length fails with the length message and non-digits with the digits message |
| StudentValidation.MyKadRuleIsShape | monash-api/src/utils/studentValidation.js:21-32 | the rule keeps exactly the 12-digit strings with a valid month and day |
| StudentValidation.NormaliseEmail | monash-api/src/utils/studentValidation.js:35-36 | trim, then lower-case; `NormaliseEmailIdempotent` shows a second pass changes nothing |
| StudentValidation.Email | monash-api/src/utils/studentValidation.js:34-39 | kept exactly when the trimmed, lower-cased string passes `validEmail`; the kept value is that string; any other string fails with the format message |
| StudentValidation.ToLowerIdempotent | monash-api/src/utils/studentValidation.js:35-36 | lower-casing an address a second time changes nothing |
| StudentValidation.ToLowerKeepsTrimmed | monash-api/src/utils/studentValidation.js:35-36 | lower-casing a trimmed address leaves nothing for a second trim to remove |
| StudentValidation.NormaliseEmailIdempotent | monash-api/src/utils/studentValidation.js:35-36 | trimming and lower-casing twice gives the same string as once |
| StudentValidation.EmailIsIdempotent | monash-api/src/utils/studentValidation.js:34-39 | a kept email passed through the rule again is kept unchanged |
| StudentValidation.AcceptedEmailIsValidLowerCase | monash-api/src/utils/studentValidation.js:34-39 | a kept email passes `validEmail` and has no capitals |
| StudentValidation.StudentName | monash-api/src/utils/studentValidation.js:41-44 | 1 to 100 characters before trimming, then trimmed |
| StudentValidation.CourseId | monash-api/src/utils/studentValidation.js:46-48 | a number that is an integer and positive, with the student messages |
| StudentValidation.Address | monash-api/src/utils/studentValidation.js:61 | absent gives no key, null is kept, otherwise at most 255 characters, then trimmed |
| StudentValidation.Gender | monash-api/src/utils/studentValidation.js:62 | absent gives no key, null is kept, otherwise Male or Female |
| StudentValidation.GetStudentByIdSchema | monash-api/src/utils/studentValidation.js:51-53 | one field, `studentId`, under the path-parameter rule |
| StudentValidation.CreateStudentSchema | monash-api/src/utils/studentValidation.js:56-63 | the six create fields in declaration order |
| StudentValidation.UpdateStudentSchema | monash-api/src/utils/studentValidation.js:65-72 | the six update fields in declaration order, without `student_number` and `email` |
| StudentValidation.DeleteStudentSchema | monash-api/src/utils/studentValidation.js:74-76 | one field, `studentId`, under the path-parameter rule |
| StudentValidation.BlankNameIsKeptEmpty | monash-api/src/utils/studentValidation.js:41-44 | a student name of 1 to 100 blanks is stored as the empty string |
| StudentValidation.OptionalFieldsExamples | monash-api/src/utils/studentValidation.js:61-62 | absent gender and address give no key, `null` is kept, and a gender other than Male or Female fails with the enum message |
| StudentValidation.UpdateIgnoresNumberAndEmail | monash-api/src/utils/studentValidation.js:65-72 | the update schema ignores `student_number` and `email` entirely |
| Response.ErrorsArray | monash-api/src/utils/response.js:28 | an array of errors is sent as it is; any other value is wrapped in a one-element array |
| Response.Envelope | monash-api/src/utils/response.js:3-28 | the body always has status, success and message; data appears exactly on a success with non-null data; a failure has exactly error code, timestamp and errors added |
| Response.Respond | monash-api/src/utils/response.js:3-41 | the body built step by step equals the envelope, and the HTTP status is the status code |
| Response.FailureHasNoData | monash-api/src/utils/response.js:20-22 | a failure never carries data, whatever data is passed |
| Response.SuccessIgnoresErrorArguments | monash-api/src/utils/response.js:12-28 | a success body ignores the error code, errors and time, and has 3 keys, or 4 with data |
| Response.FailureBodyShape | monash-api/src/utils/response.js:25-28 | a failure body has exactly six keys; one error and the one-element array holding it give the same body |
| LegacyResponse.LegacyEnvelope | monash-api/utils/response.js:9-17 | the body always has status, success, message and payload; metadata and error code appear exactly when truthy |
| LegacyResponse.LegacyRespond | monash-api/utils/response.js:1-20 | the body built by conditional assignment equals the legacy envelope |
| LegacyResponse.LegacyDefaults | monash-api/utils/response.js:1-14 | with the defaults the body has exactly the four base keys and a null payload |
| LegacyResponse.ErrorCodeIndependentOfSuccess | monash-api/utils/response.js:11-17 | the legacy error code appears whenever truthy, even on success, where the newer envelope drops it |
| LegacyResponse.GenerationsAgreeOnCommonKeys | monash-api/utils/response.js:9-14 | both envelopes agree on status, success and message |
| ValidateZod.Request.Set | monash-api/src/middleware/validateZod.middleware.js:18 | the chosen part of the request becomes the value, and the other parts are unchanged |
| ValidateZod.FieldName | monash-api/src/middleware/validateZod.middleware.js:12 | the field is the first path element, or "field" when it is missing or empty |
| ValidateZod.ErrorCodeFor | monash-api/src/middleware/validateZod.middleware.js:13 | the code is `INVALID_`, the upper-cased field name and `_400` |
| ValidateZod.EmailErrorCode | monash-api/src/middleware/validateZod.middleware.js:13 | an issue on `email` gives INVALID_EMAIL_400 |
| ValidateZod.WholeObjectErrorCode | monash-api/src/middleware/validateZod.middleware.js:12-13 | an issue with an empty path gives INVALID_FIELD_400 |
| ValidateZod.ErrorCodeDeterminesField | monash-api/src/middleware/validateZod.middleware.js:13 | two issues give the same code exactly when their field names agree up to letter case |
| ValidateZod.ValidateZod | monash-api/src/middleware/validateZod.middleware.js:4-21 | on a failed parse it answers 400 with the first issue's message and code and leaves the request unchanged; otherwise it replaces only the chosen part with the parsed data and passes on |
| ValidateZod.RejectionReplyShape | monash-api/src/middleware/validateZod.middleware.js:10-15 | a rejection reply is a failure without data, carrying the issue's code and message and an empty error list |
| ValidateZod.MissingBodyIsFieldError | monash-api/src/middleware/validateZod.middleware.js:7-13 | a missing part fails as Required with the code INVALID_FIELD_400 |
| ErrorHandler.DuplicateValue | monash-api/src/middleware/errorHandler.middleware.js:8-9 | an extracted value is the group of a match of `Duplicate entry '(.+?)'` in the message |
| ErrorHandler.MatchAtFinds | monash-api/src/middleware/errorHandler.middleware.js:8 | where a match starts, the lazy group is determined and is found |
| ErrorHandler.DuplicateValueIsLeftmost | monash-api/src/middleware/errorHandler.middleware.js:8 | the extracted value is the group of the leftmost match |
| ErrorHandler.NoDuplicateValueIffNoMatch | monash-api/src/middleware/errorHandler.middleware.js:8-9 | no value is extracted exactly when the pattern matches nowhere |
| ErrorHandler.DuplicateEntryRoundTrip | monash-api/src/middleware/errorHandler.middleware.js:8-9 | a message `Duplicate entry '<v>'...` gives back `v` when `v` is non-empty with no quote or line end |
| ErrorHandler.DuplicateMessage | monash-api/src/middleware/errorHandler.middleware.js:9-13 | the message quotes the extracted value, or `Record` when there is none, followed by "already exists" |
| ErrorHandler.MysqlHandler | monash-api/src/middleware/errorHandler.middleware.js:5-29 | the table answers exactly the three MySQL codes, always with a failure status and a string code; the four lemmas below give each entry's status, message and code through the dispatch |
| ErrorHandler.Classify | monash-api/src/middleware/errorHandler.middleware.js:59-79 | the dispatch: an `AppError` first, then the not-found code, then the table, then the generic answer with the error's own status; the dispatch lemmas below state each step |
| ErrorHandler.DuplicateKeyAnswer | monash-api/src/middleware/errorHandler.middleware.js:7-16 | any error other than an `AppError` or a not-found one, with code ER_DUP_ENTRY and message `Duplicate entry '<v>'...`, is answered 409, `'<v>' already exists`, DUPLICATE_RECORD_409 |
| ErrorHandler.DuplicateKeyWithoutValueAnswer | monash-api/src/middleware/errorHandler.middleware.js:7-16 | a duplicate-key message the pattern does not match is answered 409, `'Record' already exists`, DUPLICATE_RECORD_409 |
| ErrorHandler.MissingReferenceAnswer | monash-api/src/middleware/errorHandler.middleware.js:18-22 | ER_NO_REFERENCED_ROW_2 is answered 400, "Referenced record does not exist", INVALID_REFERENCE_400, whatever the status and message |
| ErrorHandler.RecordInUseAnswer | monash-api/src/middleware/errorHandler.middleware.js:24-28 | ER_ROW_IS_REFERENCED_2 is answered 409 with the in-use message and RECORD_IN_USE_409, whatever the status and message |
| ErrorHandler.DefaultStatus | monash-api/src/middleware/errorHandler.middleware.js:32 | a missing or zero status becomes 500, and any other is kept |
| ErrorHandler.DefaultStatusIdempotent | monash-api/src/middleware/errorHandler.middleware.js:32 | defaulting an already defaulted status changes nothing |
| ErrorHandler.AppErrorTakesPrecedence | monash-api/src/middleware/errorHandler.middleware.js:60-62 | an `AppError` is answered with its own status, message and code, whatever its MySQL code |
| ErrorHandler.NotFoundBeforeMysql | monash-api/src/middleware/errorHandler.middleware.js:65 | any other error marked not-found is answered 404 whatever its status, message and MySQL code |
| ErrorHandler.MysqlBeforeFallback | monash-api/src/middleware/errorHandler.middleware.js:67-79 | a known MySQL code is answered from the table whatever the status; otherwise the error keeps its status with the generic message and code |
| ErrorHandler.RawMessageNeverSent | monash-api/src/middleware/errorHandler.middleware.js:65-79 | apart from an `AppError`, the message sent is a fixed text or, for a duplicate key, the quoted value taken from it |
| ErrorHandler.Handle | monash-api/src/middleware/errorHandler.middleware.js:31-81 | the error's status is defaulted in place, and the reply is the envelope of the classification, with no data |
| LegacyErrorHandler.CallResponse | monash-api/src/utils/response.js:3-41 | a call of `response` throws exactly when its first argument is not the response object; otherwise it sends the envelope |
| LegacyErrorHandler.LegacyClassify | monash-api/src/middleware/errorHandler.js:7-17 | depending only on `err.code`: a duplicate key gives 409 with DUPLICATE_ENTRY, anything else 500 with INTERNAL_ERROR |
| LegacyErrorHandler.AsWrittenHandle | monash-api/src/middleware/errorHandler.js:7-17 | `errorHandler` with its calls as written, status first and the response object as data; `AsWrittenHandlersThrow` shows it always throws |
| LegacyErrorHandler.AsWrittenNotFound | monash-api/src/middleware/errorHandler.js:23-25 | `notFoundHandler` with its call as written; `AsWrittenHandlersThrow` shows it always throws |
| LegacyErrorHandler.Handle | monash-api/src/middleware/errorHandler.js:7-17 | `errorHandler` with the response object first; `HandleSendsClassification` states the reply |
| LegacyErrorHandler.NotFound | monash-api/src/middleware/errorHandler.js:23-25 | `notFoundHandler` with the response object first; `NotFoundSendsRouteNotFound` states the reply |
| LegacyErrorHandler.AsWrittenHandlersThrow | monash-api/src/middleware/errorHandler.js:12-24 | as written, both older handlers throw on every input instead of replying |
| LegacyErrorHandler.HandleSendsClassification | monash-api/src/middleware/errorHandler.js:11-16 | with its arguments in order, the handler sends a failure with the intended status, message and code, and no data |
| LegacyErrorHandler.NotFoundSendsRouteNotFound | monash-api/src/middleware/errorHandler.js:23-25 | with its arguments in order, an unknown route gets 404 "Route not found" with ROUTE_NOT_FOUND |
| LegacyErrorHandler.GenerationsOnMysqlCodes | monash-api/src/middleware/errorHandler.js:11-16 | both handlers answer a duplicate key with 409; the other two MySQL codes give 500 in the older handler and less in the newer |
| EnvSchema.PortText | monash-api/src/config/env.js:6 | a port is accepted exactly when it is a non-empty digit string, converted to its number; otherwise the regex issue |
| EnvSchema.Port | monash-api/src/config/env.js:6 | a missing port becomes 4000 |
| EnvSchema.Mode | monash-api/src/config/env.js:7 | `NODE_ENV` is kept exactly when missing (becoming "development") or one of the three modes; otherwise the enum issue |
| EnvSchema.Setting | monash-api/src/config/env.js:8-11 | a database setting is kept exactly when present and non-empty; missing is Required and empty is too small |
| EnvSchema.Password | monash-api/src/config/env.js:10 | the password is any string, empty when missing |
| EnvSchema.EnvFields | monash-api/src/config/env.js:14 | the environment becomes an object of string values under the same names |
| EnvSchema.Acceptable | monash-api/src/config/env.js:5-12 | port absent or digits, mode absent or one of the three, and the three database settings present and non-empty |
| EnvSchema.LoadConfig | monash-api/src/config/env.js:14-34 | the parsed configuration, or none when the parse fails and the process exits; the lemmas below state when it loads and what it holds |
| EnvSchema.NoRejectionIffAcceptable | monash-api/src/config/env.js:5-12 | no rule rejects exactly when the environment is acceptable |
| EnvSchema.LoadSucceedsIffAcceptable | monash-api/src/config/env.js:14-31 | the configuration loads exactly when the environment is acceptable; otherwise the process exits |
| EnvSchema.AllKept | monash-api/src/config/env.js:5-12 | in an acceptable environment every setting keeps a value (defaults fill the optional ones) |
| EnvSchema.KeptSetting | monash-api/src/config/env.js:5-14 | each setting of an acceptable environment is in the loaded configuration, holding the value its rule produced |
| EnvSchema.LoadedConfigKeys | monash-api/src/config/env.js:5-12 | a loaded configuration has exactly the six settings |
| EnvSchema.LoadedConfigDefaults | monash-api/src/config/env.js:6-10 | the port is a number, 4000 when missing; the mode is development when missing; the password is empty when missing |
| EnvSchema.LoadedConfigSettings | monash-api/src/config/env.js:8-11 | the three database settings are the environment's values as given |
| EnvSchema.UnrelatedVariableIgnored | monash-api/src/config/env.js:5-14 | variables the schema does not name have no effect on the configuration |

## Left out

- Key-case conversion (`caseTransform.js`) and the `transformRequest` middleware are not part of this model. Neither are controllers, services, routes, `app.js`, the server files, the connection pool, the logger and `logDbError`. They are I/O, wiring or outside the core.
- Logging is left out everywhere: in `response`, in both error handlers and in `env.js`. Writing the HTTP reply is represented by the returned `Reply`.
- `env.js` lines 14-32: printing the issues, appending to `logs/error.log` and `process.exit(1)` are represented only by `LoadConfig` returning `None`.
- The front end (`monash-web`) is not part of this model.
- The current time and `new Date().toISOString()` are the input `timestamp`.
- Numbers are exact reals and integers. IEEE doubles are not modelled. So `Number` of a digit string longer than 15 digits, and `Math.ceil` on rounded quotients, are exact here.
- Validator.ValidId: the route parameter is taken as a string, which Express always gives. `Number` is modelled for decimal text only. Exponents ("1e2"), hexadecimal, octal and binary literals ("0x1A") are read as NaN here, so `validId` is false on them where JavaScript may answer true. Blanks (" 12 "), the empty text (""), signs, points and `Infinity` are modelled.
- `parseInt` is taken as already applied. A page request is an `Option<int>`, with `None` for NaN. Parsing of strings such as "2abc" is not modelled.
- `toUpperCase`, `toLowerCase` and string lengths are modelled on ASCII letters and on characters. Non-ASCII case mappings (for example one letter becoming two) and UTF-16 lengths are not modelled.
- The zod messages are those of zod version 3. Issues after the first are not computed, since the gate reads only the first. A parse succeeds exactly when there are none.
- A request part is one of body, params and query. `undefined` is `None`, and properties other than the ones modelled do not exist.
- `MYSQL_ERRORS[err.code]` also finds the functions every object inherits (for example for the code "toString"). The model treats only the three listed codes as entries.
- `err.message` is always a string here. An error without a message would make `.match` throw.
- `err.statusCode` is a missing value or an integer. Falsy values other than 0 are treated as missing.
- Pagination.Paginate: the model does not state that at most `limit` rows come back, because the database decides what the window query returns.
- Pagination.Paginate: the count and the rows may disagree under concurrent writes. The model takes both results as given.
- Calls of `response` with more arguments than it declares (for example monash-api/src/controllers/courses.controller.js:9) are not modelled. JavaScript ignores the extra arguments, and `Response.Envelope` has no place for them.
- Concrete examples over whole literal request objects are not stated. The general lemmas (`CourseValidation.CreateCourseParses`, `ErrorHandler.DuplicateEntryRoundTrip`) cover them for every input.

## Findings

| source | as written | input that shows it | evidently intended | confidence | as-written member | corrected member |
|---|---|---|---|---|---|---|
| monash-api/src/middleware/errorHandler.js:12-16 | `response(409, null, 'Duplicate entry detected', res, 'DUPLICATE_ENTRY')` and the 500 call pass the status where `response` expects the response object, so `res.status` is called on a number and throws | any error, for example one with code `ER_DUP_ENTRY` | a 409 or 500 failure envelope with the message and code given | high, not executed | LegacyErrorHandler.AsWrittenHandle | LegacyErrorHandler.Handle |
| monash-api/src/middleware/errorHandler.js:24 | `response(404, null, 'Route not found', res, 'ROUTE_NOT_FOUND')` has the same argument order and throws | any request to an unknown route | a 404 failure envelope with ROUTE_NOT_FOUND | high, not executed | LegacyErrorHandler.AsWrittenNotFound | LegacyErrorHandler.NotFound |
