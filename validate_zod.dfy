/**
 * The validation gate of the API service
 * (monash-api/src/middleware/validateZod.middleware.js): it parses one part
 * of the request with a schema; on failure it answers 400 with the first
 * issue, on success it replaces that part with the parsed data and lets the
 * request through.
 */
module ValidateZod {
  import opened Wrappers
  import opened Json
  import opened Text
  import opened Zod
  import opened Response

  /** The part of the request a gate reads. */
  datatype Source = Body | Params | Query

  /** The parts of an incoming request the gate reads and rewrites; `None` is an undefined part. */
  class Request {
    var body: Option<Value>
    var params: Option<Value>
    var query: Option<Value>

    constructor(body: Option<Value>, params: Option<Value>, query: Option<Value>)
      ensures this.body == body && this.params == params && this.query == query
    {
      this.body := body;
      this.params := params;
      this.query := query;
    }

    /** `request[source]`. */
    function Get(source: Source): Option<Value>
      reads this
    {
      match source
      case Body => body
      case Params => params
      case Query => query
    }

    /** `request[source] = value`: only that part changes. */
    method Set(source: Source, value: Value)
      modifies this
      ensures Get(source) == Some(value)
      ensures forall other :: other != source ==> Get(other) == old(Get(other))
    {
      match source
      case Body => body := Some(value);
      case Params => params := Some(value);
      case Query => query := Some(value);
    }
  }

  /** The outcome of the gate: the request goes on to the controller, or the gate has answered. */
  datatype GateOutcome = Next | Responded(reply: Reply)

  /** `firstIssue.path[0] || 'field'`: the first path element, unless it is missing or empty. */
  function FieldName(path: seq<string>): (r: string)
    ensures path != [] && path[0] != "" ==> r == path[0]
    ensures path == [] || path[0] == "" ==> r == "field"
    ensures r != ""
  {
    if path != [] && path[0] != "" then path[0] else "field"
  }

  /** `INVALID_<FIELD>_400`, the field name upper-cased. */
  function ErrorCodeFor(path: seq<string>): (r: string)
    ensures |r| == |FieldName(path)| + 12
    ensures r[..8] == "INVALID_" && r[|r| - 4..] == "_400"
    ensures r[8..|r| - 4] == ToUpper(FieldName(path))
  {
    var code := "INVALID_" + ToUpper(FieldName(path)) + "_400";
    assert code[8..|code| - 4] == ToUpper(FieldName(path));
    code
  }

  /** An issue on `email` gives INVALID_EMAIL_400. */
  lemma EmailErrorCode()
    ensures ErrorCodeFor(["email"]) == "INVALID_EMAIL_400"
  {
    var e := ToUpper("email");
    assert e[0] == 'E' && e[1] == 'M' && e[2] == 'A' && e[3] == 'I' && e[4] == 'L';
    assert e == "EMAIL";
  }

  /** An issue on the whole object, with an empty path, gives INVALID_FIELD_400. */
  lemma WholeObjectErrorCode()
    ensures ErrorCodeFor([]) == "INVALID_FIELD_400"
  {
    var f := ToUpper("field");
    assert f[0] == 'F' && f[1] == 'I' && f[2] == 'E' && f[3] == 'L' && f[4] == 'D';
    assert f == "FIELD";
  }

  /** Field names that differ only in letter case give the same error code; other names give different codes. */
  lemma ErrorCodeDeterminesField(a: seq<string>, b: seq<string>)
    ensures ErrorCodeFor(a) == ErrorCodeFor(b) <==> ToUpper(FieldName(a)) == ToUpper(FieldName(b))
  {
    var ra, rb := ErrorCodeFor(a), ErrorCodeFor(b);
    if ra == rb {
      assert ToUpper(FieldName(a)) == ra[8..|ra| - 4];
    } else {
      assert ra == "INVALID_" + ToUpper(FieldName(a)) + "_400";
      assert rb == "INVALID_" + ToUpper(FieldName(b)) + "_400";
    }
  }

  /**
   * `validateZod(schema, source = 'body')` applied to a request. The
   * timestamp of a failure reply is an input.
   */
  method ValidateZod(schema: Schema, request: Request, timestamp: string, source: Source := Body)
    returns (outcome: GateOutcome)
    modifies request
    ensures match ParseObject(schema, old(request.Get(source)))
      case Rejected(issue) =>
        && outcome == Responded(Reply(400, Envelope(400, Render(issue.message), JNull,
                                                    JString(ErrorCodeFor(issue.path)), JArray([]), timestamp)))
        && unchanged(request)
      case Parsed(data) =>
        && outcome == Next
        && request.Get(source) == Some(JObject(data))
        && forall other :: other != source ==> request.Get(other) == old(request.Get(other))
  {
    var data := request.Get(source);
    var result := ParseObject(schema, data);
    if result.Rejected? {
      var firstIssue := result.issue;
      var errorCode := ErrorCodeFor(firstIssue.path);
      var reply := Respond(timestamp, 400, Render(firstIssue.message), JNull, JString(errorCode));
      return Responded(reply);
    }
    request.Set(source, JObject(result.data));
    return Next;
  }

  /**
   * A rejection reply is a 400 failure without data whose error code names
   * the first failing field and whose message is that field's message.
   */
  lemma RejectionReplyShape(schema: Schema, input: Option<Value>, timestamp: string)
    requires ParseObject(schema, input).Rejected?
    ensures var issue := ParseObject(schema, input).issue;
      var body := Envelope(400, Render(issue.message), JNull, JString(ErrorCodeFor(issue.path)), JArray([]), timestamp);
      && body["success"] == JBool(false)
      && "data" !in body
      && body["errorCode"] == JString(ErrorCodeFor(issue.path))
      && body["message"] == JString(Render(issue.message))
      && body["errors"] == JArray([])
  {
  }

  /** A body that is missing altogether is rejected on the whole object, so the code is INVALID_FIELD_400. */
  lemma MissingBodyIsFieldError(schema: Schema)
    ensures ParseObject(schema, None) == Rejected(Issue([], Builtin(Required)))
    ensures ErrorCodeFor(ParseObject(schema, None).issue.path) == "INVALID_FIELD_400"
  {
    WholeObjectErrorCode();
  }
}
