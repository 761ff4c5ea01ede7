/**
 * The response envelope of the API service (monash-api/src/utils/response.js):
 * every reply carries its status code, a success flag and a message; a
 * success may carry data, a failure carries an error code, a timestamp and
 * a list of errors.
 */
module Response {
  import opened Json

  /** What is written to the client: the HTTP status and the JSON body. */
  datatype Reply = Reply(status: int, body: map<string, Value>)

  /** The keys every envelope has. */
  const BaseKeys: set<string> := {"statusCode", "success", "message"}
  /** The keys only a failure envelope has. */
  const ErrorKeys: set<string> := {"errorCode", "timestamp", "errors"}

  /** A status below 400 is a success. */
  predicate IsSuccess(statusCode: int) { statusCode < 400 }

  /** `errors` as sent: an array stays as it is, any other value is wrapped in a one-element array. */
  function ErrorsArray(errors: Value): (r: seq<Value>)
    ensures errors.JArray? ==> r == errors.items
    ensures !errors.JArray? ==> r == [errors]
  {
    if errors.JArray? then errors.items else [errors]
  }

  /**
   * The body `response` sends. `timestamp` stands for the ISO 8601 time of
   * the call, which is an input here.
   */
  function Envelope(statusCode: int, message: string, data: Value, errorCode: Value, errors: Value, timestamp: string)
    : (body: map<string, Value>)
    ensures BaseKeys <= body.Keys <= BaseKeys + {"data"} + ErrorKeys
    ensures body["statusCode"] == JNumber(statusCode as real)
    ensures body["success"] == JBool(IsSuccess(statusCode)) && body["message"] == JString(message)
    ensures "data" in body <==> IsSuccess(statusCode) && data != JNull
    ensures "data" in body ==> body["data"] == data
    ensures IsSuccess(statusCode) ==> body.Keys !! ErrorKeys
    ensures !IsSuccess(statusCode) ==>
      ErrorKeys <= body.Keys && body["errorCode"] == errorCode && body["timestamp"] == JString(timestamp)
      && body["errors"] == JArray(ErrorsArray(errors))
  {
    var base := map["statusCode" := JNumber(statusCode as real), "success" := JBool(IsSuccess(statusCode)),
                     "message" := JString(message)];
    if IsSuccess(statusCode) then
      if data != JNull then base["data" := data] else base
    else
      base["errorCode" := errorCode]["timestamp" := JString(timestamp)]["errors" := JArray(ErrorsArray(errors))]
  }

  /**
   * `response(res, statusCode, message = "", data = null, errorCode = null,
   * errors = [])`: builds the body field by field and replies with
   * `statusCode` as the HTTP status. The logging of failures is left out.
   */
  method Respond(timestamp: string, statusCode: int, message: string := "", data: Value := JNull,
                 errorCode: Value := JNull, errors: Value := JArray([]))
    returns (reply: Reply)
    ensures reply == Reply(statusCode, Envelope(statusCode, message, data, errorCode, errors, timestamp))
  {
    var success := statusCode < 400;
    var resBody := map["statusCode" := JNumber(statusCode as real), "success" := JBool(success),
                       "message" := JString(message)];
    if success && data != JNull {
      resBody := resBody["data" := data];
    }
    if !success {
      resBody := resBody["errorCode" := errorCode];
      resBody := resBody["timestamp" := JString(timestamp)];
      resBody := resBody["errors" := if errors.JArray? then errors else JArray([errors])];
    }
    reply := Reply(statusCode, resBody);
  }

  /** A failure never carries data, whatever data the caller passed. */
  lemma FailureHasNoData(statusCode: int, message: string, data: Value, errorCode: Value, errors: Value, timestamp: string)
    requires statusCode >= 400
    ensures "data" !in Envelope(statusCode, message, data, errorCode, errors, timestamp)
    ensures Envelope(statusCode, message, data, errorCode, errors, timestamp)
         == Envelope(statusCode, message, JNull, errorCode, errors, timestamp)
  {
  }

  /**
   * A success body depends only on the status, message and data: the
   * error code, errors and time the caller passes are dropped.
   */
  lemma SuccessIgnoresErrorArguments(statusCode: int, message: string, data: Value,
                                     errorCode: Value, errors: Value, timestamp: string)
    requires statusCode < 400
    ensures Envelope(statusCode, message, data, errorCode, errors, timestamp)
         == Envelope(statusCode, message, data, JNull, JArray([]), "")
    ensures |Envelope(statusCode, message, data, errorCode, errors, timestamp)| == if data == JNull then 3 else 4
  {
    var body := Envelope(statusCode, message, data, errorCode, errors, timestamp);
    if data == JNull {
      assert body.Keys == BaseKeys;
    } else {
      assert body.Keys == BaseKeys + {"data"};
    }
  }

  /**
   * A failure body has exactly the six keys, and passing one error or the
   * one-element array holding it sends the same body.
   */
  lemma FailureBodyShape(statusCode: int, message: string, data: Value, errorCode: Value, errors: Value, timestamp: string)
    requires statusCode >= 400
    ensures Envelope(statusCode, message, data, errorCode, errors, timestamp).Keys == BaseKeys + ErrorKeys
    ensures !errors.JArray? ==>
      Envelope(statusCode, message, data, errorCode, JArray([errors]), timestamp)
        == Envelope(statusCode, message, data, errorCode, errors, timestamp)
  {
  }
}
