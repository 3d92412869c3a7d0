/** The uniform reply every endpoint returns: a dictionary with a `status`
    of "success", "info" or "error" and optional `message`, `data`,
    `error_code` and `details`, plus the HTTP status code written to the
    framework's per-request response object. */
module Response {
  import opened Common

  /** The framework's per-request response object; only its status code is written. */
  class HttpReply {
    var statusCode: int

    constructor ()
      ensures statusCode == 200
    {
      statusCode := 200;
    }
  }

  /** The keys a reply dictionary can hold. */
  predicate WellShaped(response: map<string, Json>)
  {
    response.Keys <= {"status", "message", "data", "error_code", "details"}
    && "status" in response && response["status"].JStr?
  }

  /** `_build_response`. A message, error code or details text that is empty
      counts as absent (Python truthiness); `data` is absent only when it is
      `None`, so an empty list or dictionary is kept. Details are only
      disclosed in developer mode. */
  method BuildResponse(reply: HttpReply, status: string, message: string, data: Json, errorCode: string,
                       details: string, developerMode: bool, httpStatusCode: int)
    returns (response: map<string, Json>)
    modifies reply
    ensures WellShaped(response) && response["status"] == JStr(status)
    ensures ("message" in response <==> message != "") && ("message" in response ==> response["message"] == JStr(message))
    ensures ("data" in response <==> data != JNull) && ("data" in response ==> response["data"] == data)
    ensures ("error_code" in response <==> errorCode != "") && ("error_code" in response ==> response["error_code"] == JStr(errorCode))
    ensures ("details" in response <==> details != "" && developerMode) && ("details" in response ==> response["details"] == JStr(details))
    ensures reply.statusCode == httpStatusCode
  {
    response := map["status" := JStr(status)];
    if message != "" {
      response := response["message" := JStr(message)];
    }
    if data != JNull {
      response := response["data" := data];
    }
    if errorCode != "" {
      response := response["error_code" := JStr(errorCode)];
    }
    if details != "" && developerMode {
      response := response["details" := JStr(details)];
    }
    reply.statusCode := httpStatusCode;
  }

  /** `success_response`: status "success", HTTP 200, never an error code or details. */
  method SuccessResponse(reply: HttpReply, data: Json, message: string) returns (response: map<string, Json>)
    modifies reply
    ensures WellShaped(response) && response["status"] == JStr("success")
    ensures ("data" in response <==> data != JNull) && ("data" in response ==> response["data"] == data)
    ensures ("message" in response <==> message != "") && ("message" in response ==> response["message"] == JStr(message))
    ensures "error_code" !in response && "details" !in response
    ensures reply.statusCode == 200
  {
    response := BuildResponse(reply, "success", message, data, "", "", false, 200);
  }

  /** `info_response`: status "info", HTTP 200, never an error code or details. */
  method InfoResponse(reply: HttpReply, message: string, data: Json) returns (response: map<string, Json>)
    modifies reply
    ensures WellShaped(response) && response["status"] == JStr("info")
    ensures ("data" in response <==> data != JNull) && ("data" in response ==> response["data"] == data)
    ensures ("message" in response <==> message != "") && ("message" in response ==> response["message"] == JStr(message))
    ensures "error_code" !in response && "details" !in response
    ensures reply.statusCode == 200
  {
    response := BuildResponse(reply, "info", message, data, "", "", false, 200);
  }

  /** `error_response`: status "error", never a `data` entry, HTTP 400 unless
      the caller passes another code. */
  method ErrorResponse(reply: HttpReply, message: string, errorCode: string, details: string,
                       developerMode: bool, httpStatusCode: int := 400)
    returns (response: map<string, Json>)
    modifies reply
    ensures WellShaped(response) && response["status"] == JStr("error")
    ensures "data" !in response
    ensures ("message" in response <==> message != "") && ("message" in response ==> response["message"] == JStr(message))
    ensures ("error_code" in response <==> errorCode != "") && ("error_code" in response ==> response["error_code"] == JStr(errorCode))
    ensures ("details" in response <==> details != "" && developerMode) && ("details" in response ==> response["details"] == JStr(details))
    ensures reply.statusCode == httpStatusCode
  {
    response := BuildResponse(reply, "error", message, JNull, errorCode, details, developerMode, httpStatusCode);
  }
}
