/**
 * The older error handlers (monash-api/src/middleware/errorHandler.js): a
 * duplicate-key error is answered 409, any other error 500, and an unknown
 * route 404. Both handlers call `response` of monash-api/src/utils/response.js,
 * whose first parameter is the response object, with the status first; the
 * model keeps that call as written next to the call the handlers evidently
 * mean.
 */
module LegacyErrorHandler {
  import opened Wrappers
  import opened Json
  import opened Response
  import EH = ErrorHandler

  /** An argument passed to `response`: the Express response object or a JSON value. */
  datatype Argument = ResponseObject | Json(value: Value)

  /** What a call of `response` does: it throws, or it sends a reply. */
  datatype Outcome = Threw | Sent(reply: Reply)

  /**
   * `response(res, statusCode, message, data, errorCode)` with the errors
   * left to their default. Its last step, `res.status(statusCode)`, throws
   * when `res` is not the response object (a failure also reads
   * `res.req` before that, which throws as well). With the response object
   * in first place, the arguments are those of `Response.Respond`.
   */
  function CallResponse(res: Argument, statusCode: Argument, message: Argument, data: Argument, errorCode: Value,
                        timestamp: string): (o: Outcome)
    requires res == ResponseObject ==>
      && statusCode.Json? && statusCode.value.JNumber? && IsInteger(statusCode.value.n)
      && message.Json? && message.value.JString? && data.Json?
    ensures o == Threw <==> res != ResponseObject
    ensures o.Sent? ==>
      var status := statusCode.value.n.Floor;
      o.reply == Reply(status, Envelope(status, message.value.s, data.value, errorCode, JArray([]), timestamp))
  {
    if res != ResponseObject then Threw
    else
      var status := statusCode.value.n.Floor;
      Sent(Reply(status, Envelope(status, message.value.s, data.value, errorCode, JArray([]), timestamp)))
  }

  const DuplicateMessage: string := "Duplicate entry detected"
  const GenericMessage: string := "Internal server error"
  const RouteMessage: string := "Route not found"

  /** The status, message and error code the older `errorHandler` means to send: it looks only at `err.code`. */
  function LegacyClassify(code: Option<string>): (c: EH.Classified)
    ensures c.status == 409 <==> code == Some(EH.DuplicateCode)
    ensures code == Some(EH.DuplicateCode) ==> c == EH.Classified(409, DuplicateMessage, JString("DUPLICATE_ENTRY"))
    ensures code != Some(EH.DuplicateCode) ==> c == EH.Classified(500, GenericMessage, JString("INTERNAL_ERROR"))
  {
    if code == Some(EH.DuplicateCode) then EH.Classified(409, DuplicateMessage, JString("DUPLICATE_ENTRY"))
    else EH.Classified(500, GenericMessage, JString("INTERNAL_ERROR"))
  }

  /** What `notFoundHandler` means to send. */
  const RouteNotFound: EH.Classified := EH.Classified(404, RouteMessage, JString("ROUTE_NOT_FOUND"))

  /**
   * `errorHandler` as written: `response(status, null, message, res, code)`,
   * so `response` receives the status as its response object, `null` as its
   * status and the response object as its data.
   */
  function AsWrittenHandle(code: Option<string>, timestamp: string): Outcome
  {
    var c := LegacyClassify(code);
    CallResponse(Json(JNumber(c.status as real)), Json(JNull), Json(JString(c.message)), ResponseObject,
                 c.errorCode, timestamp)
  }

  /** `notFoundHandler` as written, with the same argument order. */
  function AsWrittenNotFound(timestamp: string): Outcome
  {
    CallResponse(Json(JNumber(404.0)), Json(JNull), Json(JString(RouteMessage)), ResponseObject,
                 RouteNotFound.errorCode, timestamp)
  }

  /** As written, both handlers throw on every error and every unknown route: no JSON reply is ever sent. */
  lemma AsWrittenHandlersThrow(code: Option<string>, timestamp: string)
    ensures AsWrittenHandle(code, timestamp) == Threw
    ensures AsWrittenNotFound(timestamp) == Threw
  {
  }

  /** The call the handler evidently means: the response object first, then status, message, no data and the code. */
  function Handle(code: Option<string>, timestamp: string): Outcome
  {
    var c := LegacyClassify(code);
    CallResponse(ResponseObject, Json(JNumber(c.status as real)), Json(JString(c.message)), Json(JNull),
                 c.errorCode, timestamp)
  }

  /** `notFoundHandler` with its arguments in the intended order. */
  function NotFound(timestamp: string): Outcome
  {
    CallResponse(ResponseObject, Json(JNumber(404.0)), Json(JString(RouteMessage)), Json(JNull),
                 RouteNotFound.errorCode, timestamp)
  }

  /**
   * With its arguments in order the handler sends a failure reply carrying
   * the intended status, message and error code, and no data.
   */
  lemma HandleSendsClassification(code: Option<string>, timestamp: string)
    ensures var c := LegacyClassify(code);
      && Handle(code, timestamp).Sent?
      && Handle(code, timestamp).reply.status == c.status
      && !IsSuccess(c.status)
      && Handle(code, timestamp).reply.body["message"] == JString(c.message)
      && Handle(code, timestamp).reply.body["errorCode"] == c.errorCode
      && "data" !in Handle(code, timestamp).reply.body
  {
    var c := LegacyClassify(code);
    assert (c.status as real).Floor == c.status;
  }

  /** With its arguments in order, an unknown route gets a 404 failure reply with ROUTE_NOT_FOUND. */
  lemma NotFoundSendsRouteNotFound(timestamp: string)
    ensures NotFound(timestamp).Sent? && NotFound(timestamp).reply.status == 404
    ensures NotFound(timestamp).reply.body["errorCode"] == JString("ROUTE_NOT_FOUND")
    ensures NotFound(timestamp).reply.body["message"] == JString(RouteMessage)
  {
    assert (404.0).Floor == 404;
  }

  /**
   * Against the newer handler, for an error that is neither an `AppError`
   * nor marked not-found: both answer a duplicate key with 409, while the
   * two other MySQL codes the newer handler knows fall to 500 here.
   */
  lemma GenerationsOnMysqlCodes(statusCode: int, message: string, errorCode: Option<string>, code: Option<string>)
    requires errorCode != Some(EH.NotFoundCode)
    ensures code == Some(EH.DuplicateCode) ==>
      EH.Classify(false, statusCode, message, errorCode, code).status == LegacyClassify(code).status
    ensures code.Some? && code.value in EH.MysqlCodes - {EH.DuplicateCode} ==>
      LegacyClassify(code).status == 500 && EH.Classify(false, statusCode, message, errorCode, code).status < 500
  {
  }
}
