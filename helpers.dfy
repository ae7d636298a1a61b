/**
 * The response envelope every API action answers with:
 * `{success, status_code, message, data}` on success and
 * `{success, status_code, message, errors}` on failure, sent with the HTTP
 * status equal to `status_code`.
 */
module Envelope {
  import opened Wrappers
  import opened Json

  /** An HTTP response: its status and its JSON body. */
  datatype Response = Response(status: int, body: Json)

  /**
   * What an action hands back to the framework: a response, or an exception
   * the framework renders itself (`validate()` failing, `findOrFail` and
   * `firstOrFail` finding nothing).
   */
  datatype Reply = Sent(response: Response) | Thrown(exception: Exception)

  datatype Exception = ValidationFailed | ModelNotFound

  /** The envelope a client reads out of a body. */
  datatype Payload = Data(data: Json) | Errors(errors: Json)

  datatype Envelope = Envelope(success: bool, statusCode: int, message: string, payload: Payload)

  /**
   * Reads a body as an envelope: exactly four keys in the documented order,
   * the payload key being `data` when `success` is true and `errors` when it
   * is false. Anything else is not an envelope.
   */
  function Read(body: Json): (e: Option<Envelope>)
    ensures e.Some? ==> body.JObj? && |body.fields| == 4
    ensures e.Some? ==> body.fields[3].0 == (if e.value.success then "data" else "errors")
  {
    match body
    case JObj(f) =>
      if |f| == 4 && f[0].0 == "success" && f[0].1.JBool? && f[1].0 == "status_code" && f[1].1.JInt?
         && f[2].0 == "message" && f[2].1.JStr?
      then
        var ok := f[0].1.b;
        if ok && f[3].0 == "data" then Some(Envelope(true, f[1].1.n, f[2].1.s, Data(f[3].1)))
        else if !ok && f[3].0 == "errors" then Some(Envelope(false, f[1].1.n, f[2].1.s, Errors(f[3].1)))
        else None
      else None
    case _ => None
  }

  /** `success_res` (defaults 200, 'Success', an empty array). */
  function SuccessRes(statusCode: int := 200, message: string := "Success", data: Json := JArr([])): (r: Response)
    ensures r.status == statusCode
    ensures Read(r.body) == Some(Envelope(true, statusCode, message, Data(data)))
  {
    Response(statusCode, JObj([("success", JBool(true)), ("status_code", JInt(statusCode)),
                               ("message", JStr(message)), ("data", data)]))
  }

  /** `error_res` (defaults 400, 'Error', an empty array). */
  function ErrorRes(statusCode: int := 400, message: string := "Error", errors: Json := JArr([])): (r: Response)
    ensures r.status == statusCode
    ensures Read(r.body) == Some(Envelope(false, statusCode, message, Errors(errors)))
  {
    Response(statusCode, JObj([("success", JBool(false)), ("status_code", JInt(statusCode)),
                               ("message", JStr(message)), ("errors", errors)]))
  }

  /** The body's keys, in order. */
  function Keys(body: Json): seq<string>
  {
    if body.JObj? then seq(|body.fields|, i requires 0 <= i < |body.fields| => body.fields[i].0) else []
  }

  /**
   * Both constructors build a body with exactly four distinct keys; a success
   * body never carries `errors` and an error body never carries `data`.
   */
  lemma FourKeys(statusCode: int, message: string, payload: Json)
    ensures Keys(SuccessRes(statusCode, message, payload).body) == ["success", "status_code", "message", "data"]
    ensures Keys(ErrorRes(statusCode, message, payload).body) == ["success", "status_code", "message", "errors"]
  {
  }

  /** Two bodies that read as the same envelope are the same body: `Read` loses nothing of an envelope. */
  lemma ReadDeterminesBody(r1: Response, r2: Response)
    requires Read(r1.body).Some? && Read(r1.body) == Read(r2.body)
    ensures r1.body == r2.body
  {
    var f1, f2 := r1.body.fields, r2.body.fields;
    assert f1[0] == f2[0] && f1[1] == f2[1] && f1[2] == f2[2] && f1[3] == f2[3];
    assert f1 == [f1[0], f1[1], f1[2], f1[3]];
    assert f2 == [f2[0], f2[1], f2[2], f2[3]];
  }

  /** Called without arguments, the helpers give 200 / `Success` / `[]` and 400 / `Error` / `[]`. */
  lemma DefaultEnvelopes()
    ensures SuccessRes().status == 200 && Read(SuccessRes().body) == Some(Envelope(true, 200, "Success", Data(JArr([]))))
    ensures ErrorRes().status == 400 && Read(ErrorRes().body) == Some(Envelope(false, 400, "Error", Errors(JArr([]))))
  {
  }
}
