/**
 * The part of `Response` (ResponseJSON.php) the authorization gate drives:
 * a phase label, and the single response that ends the request, either an
 * error or a success. Sending the response (`http_response_code`,
 * `header`, `exit`, the timestamp) is not modelled; the response is
 * recorded instead.
 */
module ResponseJson {
  import opened Results
  import opened Jwt

  /** A PHP `Exception`: a message and a code. */
  datatype Exception = Exception(message: string, code: int)

  /** The response a request ends with. */
  datatype Ending =
    | ErrorEnding(status: int, code: int, message: string, phase: string)
    | SuccessEnding(status: int, data: Json)

  /**
   * `error(e, http)`: the status is `http` when given, else the exception's
   * code; the body's error code is the exception's code, or 1000 when that is 0.
   */
  function ErrorResponse(e: Exception, http: Option<int>, phase: string): (r: Ending)
    ensures r.ErrorEnding? && r.code != 0 && r.message == e.message && r.phase == phase
    ensures r.status == (if http.Some? then http.value else e.code)
    ensures e.code != 0 ==> r.code == e.code
  {
    ErrorEnding(if http.Some? then http.value else e.code, if e.code != 0 then e.code else 1000, e.message, phase)
  }

  /** `success(data)`: status 201 for a POST request, else PHP's default 200. */
  function SuccessResponse(verb: string, data: Json): (r: Ending)
    ensures r.SuccessEnding? && r.data == data
    ensures r.status == 201 <==> verb == "post"
  {
    SuccessEnding(if verb == "post" then 201 else 200, data)
  }

  class Response {
    const verb: string
    var phase: string
    var ending: Option<Ending>

    /** A response after request validation passed: the phase is `[0] Unknown`. */
    constructor(verb: string)
      ensures this.verb == verb && phase == "[0] Unknown" && ending.None?
    {
      this.verb := verb;
      phase := "[0] Unknown";
      ending := None;
    }

    /** `phase(name)`. */
    method Phase(name: string)
      modifies this
      ensures phase == name && ending == old(ending)
    {
      phase := name;
    }

    /** `error(e, http)`: ends the request with the current phase. */
    method Error(e: Exception, http: Option<int>)
      requires ending.None?
      modifies this
      ensures ending == Some(ErrorResponse(e, http, phase)) && phase == old(phase)
    {
      ending := Some(ErrorResponse(e, http, phase));
    }

    /** `success(data)`: ends the request. */
    method Success(data: Json)
      requires ending.None?
      modifies this
      ensures ending == Some(SuccessResponse(verb, data)) && phase == old(phase)
    {
      ending := Some(SuccessResponse(verb, data));
    }
  }
}
