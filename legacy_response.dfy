/**
 * The older response envelope (monash-api/utils/response.js): the payload
 * is always sent, and metadata and an error code are added only when they
 * are truthy.
 */
module LegacyResponse {
  import opened Json
  import opened Response

  /** The keys every legacy envelope has. */
  const LegacyBaseKeys: set<string> := {"statusCode", "success", "message", "payload"}

  /** The body the legacy `response` sends. */
  function LegacyEnvelope(statusCode: int, payload: Value, message: string, errorCode: Value, metadata: Value)
    : (body: map<string, Value>)
    ensures LegacyBaseKeys <= body.Keys <= LegacyBaseKeys + {"metadata", "errorCode"}
    ensures body["statusCode"] == JNumber(statusCode as real) && body["success"] == JBool(IsSuccess(statusCode))
    ensures body["message"] == JString(message) && body["payload"] == payload
    ensures "metadata" in body <==> Truthy(metadata)
    ensures "metadata" in body ==> body["metadata"] == metadata
    ensures "errorCode" in body <==> Truthy(errorCode)
    ensures "errorCode" in body ==> body["errorCode"] == errorCode
  {
    var base := map["statusCode" := JNumber(statusCode as real), "success" := JBool(IsSuccess(statusCode)),
                     "message" := JString(message), "payload" := payload];
    var withMetadata := if Truthy(metadata) then base["metadata" := metadata] else base;
    if Truthy(errorCode) then withMetadata["errorCode" := errorCode] else withMetadata
  }

  /**
   * `response(res, statusCode, payload = null, message = "", errorCode = null,
   * metadata = null)`: the body is created, then metadata and the error
   * code are assigned onto it when truthy.
   */
  method LegacyRespond(statusCode: int, payload: Value := JNull, message: string := "",
                       errorCode: Value := JNull, metadata: Value := JNull)
    returns (reply: Reply)
    ensures reply == Reply(statusCode, LegacyEnvelope(statusCode, payload, message, errorCode, metadata))
  {
    var resBody := map["statusCode" := JNumber(statusCode as real), "success" := JBool(statusCode < 400),
                       "message" := JString(message), "payload" := payload];
    if Truthy(metadata) {
      resBody := resBody["metadata" := metadata];
    }
    if Truthy(errorCode) {
      resBody := resBody["errorCode" := errorCode];
    }
    reply := Reply(statusCode, resBody);
  }

  /**
   * With every optional argument left out, the body holds exactly the four
   * base keys, the payload being `null` and the message empty.
   */
  lemma LegacyDefaults(statusCode: int)
    ensures LegacyEnvelope(statusCode, JNull, "", JNull, JNull).Keys == LegacyBaseKeys
    ensures LegacyEnvelope(statusCode, JNull, "", JNull, JNull)["payload"] == JNull
  {
  }

  /**
   * Unlike the newer envelope, the error code does not depend on success:
   * a truthy code appears on a success, and a failure without a code has no
   * `errorCode` key. An empty string or zero counts as no code.
   */
  lemma ErrorCodeIndependentOfSuccess(statusCode: int, payload: Value, message: string, errorCode: Value)
    ensures "errorCode" in LegacyEnvelope(statusCode, payload, message, errorCode, JNull) <==> Truthy(errorCode)
    ensures "errorCode" !in LegacyEnvelope(statusCode, payload, message, JString(""), JNull)
    ensures statusCode < 400 && Truthy(errorCode) ==>
      "errorCode" in LegacyEnvelope(statusCode, payload, message, errorCode, JNull)
      && "errorCode" !in Envelope(statusCode, message, payload, errorCode, JArray([]), "")
  {
  }

  /** Both generations agree on the status, the success flag and the message. */
  lemma GenerationsAgreeOnCommonKeys(statusCode: int, payload: Value, message: string, errorCode: Value,
                                     metadata: Value, errors: Value, timestamp: string)
    ensures var legacy := LegacyEnvelope(statusCode, payload, message, errorCode, metadata);
      var current := Envelope(statusCode, message, payload, errorCode, errors, timestamp);
      forall k :: k in BaseKeys ==> k in legacy && k in current && legacy[k] == current[k]
  {
  }
}
