/**
 * The global error handler of the API service
 * (monash-api/src/middleware/errorHandler.middleware.js): the table of
 * MySQL error codes it recognises, and the order in which it classifies a
 * thrown error — an `AppError` first, then the not-found code, then a MySQL
 * code, then a generic 500-style answer that never repeats the raw message.
 */
module ErrorHandler {
  import opened Wrappers
  import opened Json
  import opened Text
  import opened Response

  /** The text that precedes the duplicated value in a MySQL duplicate-key message. */
  const DuplicatePrefix: string := "Duplicate entry '"

  /** No character of `v` ends a line, so `.` matches each of them. */
  predicate NoLineTerminator(v: string) { forall t :: 0 <= t < |v| ==> !IsLineTerminator(v[t]) }

  /**
   * `/Duplicate entry '(.+?)'/` matches at position `i` with `v` as its
   * group: at least one character, none of them ending a line, and, the
   * group being lazy, no quote after its first character.
   */
  ghost predicate IsMatchAt(s: string, i: nat, v: string) {
    && 1 <= |v| && i + |DuplicatePrefix| + |v| < |s|
    && s[i..i + |DuplicatePrefix|] == DuplicatePrefix
    && s[i + |DuplicatePrefix|..i + |DuplicatePrefix| + |v|] == v
    && s[i + |DuplicatePrefix| + |v|] == '\''
    && NoLineTerminator(v)
    && forall t :: 1 <= t < |v| ==> v[t] != '\''
  }

  /** The first quote at or after `j`, provided no line ends before it. */
  function ClosingQuote(s: string, j: nat): (r: Option<nat>)
    requires j <= |s|
    decreases |s| - j
    ensures r.Some? ==>
      && j <= r.value < |s| && s[r.value] == '\''
      && forall t :: j <= t < r.value ==> s[t] != '\'' && !IsLineTerminator(s[t])
  {
    if j == |s| then None
    else if s[j] == '\'' then Some(j)
    else if IsLineTerminator(s[j]) then None
    else ClosingQuote(s, j + 1)
  }

  lemma {:induction false} ClosingQuoteFinds(s: string, j: nat, k: nat)
    requires j <= k < |s| && s[k] == '\''
    requires forall t :: j <= t < k ==> s[t] != '\'' && !IsLineTerminator(s[t])
    ensures ClosingQuote(s, j) == Some(k)
    decreases k - j
  {
    if j < k {
      ClosingQuoteFinds(s, j + 1, k);
    }
  }

  /** The group of a match of the pattern that starts exactly at `i`, if one does. */
  function MatchAt(s: string, i: nat): (r: Option<string>)
    requires i <= |s|
    ensures r.Some? ==> IsMatchAt(s, i, r.value)
  {
    var p := i + |DuplicatePrefix|;
    if p < |s| && s[i..p] == DuplicatePrefix && !IsLineTerminator(s[p]) then
      match ClosingQuote(s, p + 1)
      case Some(k) => Some(s[p..k])
      case None => None
    else None
  }

  /** A match at `i` is the one `MatchAt` finds: the lazy group is determined by where the match starts. */
  lemma MatchAtFinds(s: string, i: nat, v: string)
    requires i <= |s| && IsMatchAt(s, i, v)
    ensures MatchAt(s, i) == Some(v)
  {
    var p := i + |DuplicatePrefix|;
    forall t | p + 1 <= t < p + |v|
      ensures s[t] != '\'' && !IsLineTerminator(s[t])
    {
      assert s[t] == v[t - p];
    }
    ClosingQuoteFinds(s, p + 1, p + |v|);
    assert s[p] == v[0];
  }

  /** The group of the leftmost match at or after `i`. */
  function FirstMatch(s: string, i: nat): (r: Option<string>)
    requires i <= |s|
    decreases |s| - i
    ensures r.Some? ==> exists k: nat :: i <= k <= |s| && IsMatchAt(s, k, r.value)
  {
    match MatchAt(s, i)
    case Some(v) => Some(v)
    case None => if i == |s| then None else FirstMatch(s, i + 1)
  }

  /** `err.message.match(/Duplicate entry '(.+?)'/)`, giving the first group, or `None` when nothing matches. */
  function DuplicateValue(message: string): (r: Option<string>)
    ensures r.Some? ==> exists i: nat :: i <= |message| && IsMatchAt(message, i, r.value)
  {
    FirstMatch(message, 0)
  }

  lemma {:induction false} FirstMatchLeftmost(s: string, j: nat, i: nat, v: string)
    requires j <= i <= |s| && IsMatchAt(s, i, v)
    requires forall k: nat, w :: j <= k < i ==> !IsMatchAt(s, k, w)
    ensures FirstMatch(s, j) == Some(v)
    decreases i - j
  {
    if j == i {
      MatchAtFinds(s, i, v);
    } else {
      FirstMatchLeftmost(s, j + 1, i, v);
    }
  }

  /** When the pattern matches first at `i`, the value extracted is the group of that match. */
  lemma DuplicateValueIsLeftmost(s: string, i: nat, v: string)
    requires i <= |s| && IsMatchAt(s, i, v)
    requires forall k: nat, w :: k < i ==> !IsMatchAt(s, k, w)
    ensures DuplicateValue(s) == Some(v)
  {
    FirstMatchLeftmost(s, 0, i, v);
  }

  lemma {:induction false} FirstMatchNone(s: string, j: nat)
    requires j <= |s| && FirstMatch(s, j).None?
    ensures forall k: nat, w :: j <= k <= |s| ==> !IsMatchAt(s, k, w)
    decreases |s| - j
  {
    if j < |s| {
      FirstMatchNone(s, j + 1);
    }
    assert MatchAt(s, j).None?;
    forall k: nat, w | j <= k <= |s|
      ensures !IsMatchAt(s, k, w)
    {
      if k == j && IsMatchAt(s, k, w) {
        MatchAtFinds(s, k, w);
      }
    }
  }

  /** No value is extracted exactly when the pattern matches nowhere in the message. */
  lemma NoDuplicateValueIffNoMatch(s: string)
    ensures DuplicateValue(s).None? <==> forall k: nat, w :: k <= |s| ==> !IsMatchAt(s, k, w)
  {
    if DuplicateValue(s).None? {
      FirstMatchNone(s, 0);
    }
  }

  /**
   * A message of the MySQL form `Duplicate entry '<v>'…` gives back `v`,
   * whatever follows, when `v` is non-empty and holds no quote and no line
   * end.
   */
  lemma DuplicateEntryRoundTrip(v: string, rest: string)
    requires 1 <= |v| && NoLineTerminator(v) && forall t :: 0 <= t < |v| ==> v[t] != '\''
    ensures DuplicateValue(DuplicatePrefix + v + "'" + rest) == Some(v)
  {
    var s := DuplicatePrefix + v + "'" + rest;
    assert s[..|DuplicatePrefix|] == DuplicatePrefix;
    assert s[|DuplicatePrefix|..|DuplicatePrefix| + |v|] == v;
    assert IsMatchAt(s, 0, v);
    DuplicateValueIsLeftmost(s, 0, v);
  }

  /** The message of a duplicate-key error: the extracted value, or `Record` when there is none, in quotes. */
  function DuplicateMessage(message: string): (r: string)
    ensures DuplicateValue(message).Some? ==> r == "'" + DuplicateValue(message).value + "' already exists"
    ensures DuplicateValue(message).None? ==> r == "'Record' already exists"
  {
    "'" + DuplicateValue(message).GetOr("Record") + "' already exists"
  }

  /** A status, message and error code to answer with. */
  datatype Classified = Classified(status: int, message: string, errorCode: Value)

  const DuplicateCode: string := "ER_DUP_ENTRY"
  const NoReferencedRowCode: string := "ER_NO_REFERENCED_ROW_2"
  const RowIsReferencedCode: string := "ER_ROW_IS_REFERENCED_2"
  /** The MySQL codes `MYSQL_ERRORS` has an entry for. */
  const MysqlCodes: set<string> := {DuplicateCode, NoReferencedRowCode, RowIsReferencedCode}

  const NotFoundCode: string := "RESOURCE_NOT_FOUND_404"
  const ReferenceMessage: string := "Referenced record does not exist"
  const InUseMessage: string := "Cannot delete this record because it is being used by other data"
  const NotFoundMessage: string := "Resource not found"
  const GenericMessage: string := "Internal Server Error"
  const GenericCode: string := "INTERNAL_SERVER_ERROR_500"

  /** `MYSQL_ERRORS[err.code]` applied to the error, when the table has an entry for its code. */
  function MysqlHandler(code: Option<string>, message: string): (r: Option<Classified>)
    ensures r.Some? <==> code.Some? && code.value in MysqlCodes
    ensures r.Some? ==> r.value.status >= 400 && r.value.errorCode.JString?
  {
    if code == Some(DuplicateCode) then
      Some(Classified(409, DuplicateMessage(message), JString("DUPLICATE_RECORD_409")))
    else if code == Some(NoReferencedRowCode) then
      Some(Classified(400, ReferenceMessage, JString("INVALID_REFERENCE_400")))
    else if code == Some(RowIsReferencedCode) then
      Some(Classified(409, InUseMessage, JString("RECORD_IN_USE_409")))
    else None
  }

  /** `err.statusCode || 500`: a missing or zero status becomes 500. */
  function DefaultStatus(statusCode: Option<int>): (r: int)
    ensures r != 0
    ensures statusCode.Some? && statusCode.value != 0 ==> r == statusCode.value
    ensures statusCode.None? || statusCode == Some(0) ==> r == 500
  {
    if statusCode.Some? && statusCode.value != 0 then statusCode.value else 500
  }

  /** Defaulting a status a second time changes nothing, so handling the same error twice sends the same status. */
  lemma DefaultStatusIdempotent(statusCode: Option<int>)
    ensures DefaultStatus(Some(DefaultStatus(statusCode))) == DefaultStatus(statusCode)
  {
  }

  /** A string property that may be undefined, as a JSON value. */
  function OptionalString(s: Option<string>): (v: Value)
    ensures s.Some? ==> v == JString(s.value)
    ensures s.None? ==> v == JNull
  {
    match s
    case Some(x) => JString(x)
    case None => JNull
  }

  /**
   * The dispatch of `errorHandler`, for a status already defaulted: an
   * `AppError` answers with its own status, message and code; otherwise the
   * not-found code, then a known MySQL code, then the generic answer.
   */
  function Classify(isAppError: bool, statusCode: int, message: string, errorCode: Option<string>,
                    code: Option<string>): Classified
  {
    if isAppError then Classified(statusCode, message, OptionalString(errorCode))
    else if errorCode == Some(NotFoundCode) then Classified(404, NotFoundMessage, JString(NotFoundCode))
    else match MysqlHandler(code, message)
      case Some(c) => c
      case None => Classified(statusCode, GenericMessage, JString(GenericCode))
  }

  /** An `AppError` is answered with its own status, message and code, whatever its MySQL code. */
  lemma AppErrorTakesPrecedence(statusCode: int, message: string, errorCode: Option<string>, code: Option<string>)
    ensures Classify(true, statusCode, message, errorCode, code)
         == Classify(true, statusCode, message, errorCode, None)
    ensures var c := Classify(true, statusCode, message, errorCode, code);
      c.status == statusCode && c.message == message && (c.errorCode == JNull <==> errorCode.None?)
  {
  }

  /**
   * Any other error carrying the not-found code is answered 404 whatever
   * its status, message and MySQL code.
   */
  lemma NotFoundBeforeMysql(statusCode: int, message: string, code: Option<string>,
                            otherStatus: int, otherMessage: string, otherCode: Option<string>)
    ensures Classify(false, statusCode, message, Some(NotFoundCode), code)
         == Classify(false, otherStatus, otherMessage, Some(NotFoundCode), otherCode)
    ensures Classify(false, statusCode, message, Some(NotFoundCode), code).status == 404
  {
  }

  /**
   * Below the not-found code, an error with a known MySQL code is answered
   * from the table, whatever its status; an error without one keeps its
   * status and gets the generic message.
   */
  lemma MysqlBeforeFallback(statusCode: int, message: string, errorCode: Option<string>, code: Option<string>)
    requires errorCode != Some(NotFoundCode)
    ensures var c := Classify(false, statusCode, message, errorCode, code);
      if code.Some? && code.value in MysqlCodes then
        c == MysqlHandler(code, message).value && c == Classify(false, 500, message, None, code)
      else
        c == Classified(statusCode, GenericMessage, JString(GenericCode))
  {
  }

  /**
   * An error that is not an `AppError` never has its raw message sent: the
   * message is one of the fixed texts, or, for a duplicate key, the quoted
   * value pulled out of it.
   */
  lemma RawMessageNeverSent(statusCode: int, message: string, errorCode: Option<string>, code: Option<string>)
    ensures var c := Classify(false, statusCode, message, errorCode, code);
      || c.message in {ReferenceMessage, InUseMessage, NotFoundMessage, GenericMessage}
      || (code == Some(DuplicateCode) && c.message == DuplicateMessage(message))
  {
  }

  /**
   * A duplicate-key error that is not an `AppError` nor marked not found,
   * whose message names the value in MySQL's form, is answered 409 with
   * that value quoted and DUPLICATE_RECORD_409, whatever its status.
   */
  lemma DuplicateKeyAnswer(statusCode: int, errorCode: Option<string>, v: string, rest: string)
    requires errorCode != Some(NotFoundCode)
    requires 1 <= |v| && NoLineTerminator(v) && forall t :: 0 <= t < |v| ==> v[t] != '\''
    ensures Classify(false, statusCode, DuplicatePrefix + v + "'" + rest, errorCode, Some(DuplicateCode))
         == Classified(409, "'" + v + "' already exists", JString("DUPLICATE_RECORD_409"))
  {
    DuplicateEntryRoundTrip(v, rest);
  }

  /** A duplicate-key error whose message names no value is answered 409 for `'Record'`. */
  lemma DuplicateKeyWithoutValueAnswer(statusCode: int, errorCode: Option<string>, message: string)
    requires errorCode != Some(NotFoundCode)
    requires forall k: nat, w :: k <= |message| ==> !IsMatchAt(message, k, w)
    ensures Classify(false, statusCode, message, errorCode, Some(DuplicateCode))
         == Classified(409, "'Record' already exists", JString("DUPLICATE_RECORD_409"))
  {
    NoDuplicateValueIffNoMatch(message);
  }

  /** A missing foreign-key target is answered 400 with INVALID_REFERENCE_400, whatever the status and message. */
  lemma MissingReferenceAnswer(statusCode: int, message: string, errorCode: Option<string>)
    requires errorCode != Some(NotFoundCode)
    ensures Classify(false, statusCode, message, errorCode, Some(NoReferencedRowCode))
         == Classified(400, "Referenced record does not exist", JString("INVALID_REFERENCE_400"))
  {
  }

  /** Deleting a row still referenced elsewhere is answered 409 with RECORD_IN_USE_409, whatever the status and message. */
  lemma RecordInUseAnswer(statusCode: int, message: string, errorCode: Option<string>)
    requires errorCode != Some(NotFoundCode)
    ensures Classify(false, statusCode, message, errorCode, Some(RowIsReferencedCode))
         == Classified(409, "Cannot delete this record because it is being used by other data",
                       JString("RECORD_IN_USE_409"))
  {
  }

  /** The two `err` properties the dispatch tests. */
  datatype ErrorKind = AppError | OtherError

  /** A thrown error as the handler sees it; `statusCode` is the one property the handler writes. */
  class ThrownError {
    const kind: ErrorKind
    var statusCode: Option<int>
    const message: string
    const errorCode: Option<string>
    /** The MySQL driver's error code, when the error came from the database. */
    const code: Option<string>

    constructor(kind: ErrorKind, statusCode: Option<int>, message: string, errorCode: Option<string>,
                code: Option<string>)
      ensures this.kind == kind && this.statusCode == statusCode && this.message == message
      ensures this.errorCode == errorCode && this.code == code
    {
      this.kind := kind;
      this.statusCode := statusCode;
      this.message := message;
      this.errorCode := errorCode;
      this.code := code;
    }
  }

  /**
   * `errorHandler(err, req, res, next)`: defaults `err.statusCode` in
   * place, then answers through `response` with null data. The timestamp
   * of the reply is an input; logging is left out.
   */
  method Handle(err: ThrownError, timestamp: string) returns (reply: Reply)
    modifies err
    ensures err.statusCode == Some(DefaultStatus(old(err.statusCode)))
    ensures var c := Classify(err.kind == AppError, DefaultStatus(old(err.statusCode)), err.message,
                              err.errorCode, err.code);
      reply == Reply(c.status, Envelope(c.status, c.message, JNull, c.errorCode, JArray([]), timestamp))
    ensures "data" !in reply.body
  {
    err.statusCode := Some(if err.statusCode.Some? && err.statusCode.value != 0 then err.statusCode.value else 500);
    if err.kind == AppError {
      reply := Respond(timestamp, err.statusCode.value, err.message, JNull, OptionalString(err.errorCode));
      return;
    }
    if err.errorCode == Some(NotFoundCode) {
      reply := Respond(timestamp, 404, NotFoundMessage, JNull, JString(NotFoundCode));
      return;
    }
    var mysql := MysqlHandler(err.code, err.message);
    if mysql.Some? {
      reply := Respond(timestamp, mysql.value.status, mysql.value.message, JNull, mysql.value.errorCode);
      return;
    }
    reply := Respond(timestamp, err.statusCode.value, GenericMessage, JNull, JString(GenericCode));
  }
}
