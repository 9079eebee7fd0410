/** The blocking client's variant (src/blocking.rs). Its captured response
    stores the same two fields and its `bytes`, `text`, `into_json` and
    `into_result` are the same expressions, so it reuses `Lib`'s datatype
    and decoders; its capture is written out again, the body read blocking
    the caller instead of suspending. */
module Blocking {
  import opened Prelude
  import opened Http
  import opened Json
  import Lib

  /** `TypedResponse::try_from_response` of the blocking variant. */
  function TryFromResponse(r: Response): (res: Result<Lib.TypedResponse, TransportError>)
    ensures IsServerError(r.status) && r.escalate.Some? ==> res == Err(r.escalate.value)
    ensures !IsServerError(r.status) ==>
      (r.readBody.Err? ==> res == Err(r.readBody.error)) &&
      (r.readBody.Ok? ==> res.Ok? && res.value.body == r.readBody.value)
    ensures res.Ok? ==> (res.value.disposition == Lib.Success <==> 200 <= r.status <= 299)
    // the same outcome as the asynchronous capture on the same response
    ensures res == Lib.TryFromResponse(r)
  {
    var disposition := Lib.DispositionOf(r.status);
    if IsServerError(r.status) && ErrorForStatusRef(r).Err? then
      Err(ErrorForStatusRef(r).error)
    else
      match r.readBody
      case Err(e) => Err(e)
      case Ok(body) => Ok(Lib.TypedResponse(body, disposition))
  }

  /** `ResponseExt::try_from_response` on the blocking response type. */
  function ExtTryFromResponse(r: Response): (res: Result<Lib.TypedResponse, TransportError>)
    ensures res == TryFromResponse(r)
    ensures res.Err? ==> Some(res.error) == r.escalate || Err(res.error) == r.readBody
  {
    TryFromResponse(r)
  }

  /** With the client's documented check, a blocking capture of a 5xx
      response fails with the status error and reads no body. */
  lemma ServerErrorEscalated(r: Response, b: Result<ByteString, TransportError>)
    requires Conforms(r) && IsServerError(r.status)
    ensures TryFromResponse(r) == Err(StatusError(r.status))
    ensures TryFromResponse(r.(readBody := b)) == TryFromResponse(r)
  {
  }

  /** Outside 5xx the blocking capture ignores the escalation check. */
  lemma EscalationUnconsulted(r: Response, e: Option<TransportError>)
    requires !IsServerError(r.status)
    ensures TryFromResponse(r.(escalate := e)) == TryFromResponse(r)
  {
  }

  /** After a blocking capture, `bytes()` and `text()` see exactly the
      bytes that were read, and the disposition is the one the status
      implied. */
  lemma AccessorsAfterCapture(r: Response, lossy: ByteString -> string)
    requires TryFromResponse(r).Ok?
    ensures r.readBody.Ok?
    ensures Lib.Bytes(TryFromResponse(r).value) == r.readBody.value
    ensures Lib.Text(TryFromResponse(r).value, lossy) == lossy(r.readBody.value)
    ensures TryFromResponse(r).value.disposition == Lib.DispositionOf(r.status)
  {
  }

  /** `into_json()` after a blocking capture: a parsed value lands in `Ok`
      exactly for a 2xx status and in `Err` otherwise, and a parse failure
      gives the error string for every status. */
  lemma IntoJsonAfterCapture(r: Response, parse: Parser<Value>)
    requires TryFromResponse(r).Ok?
    ensures var j := Lib.IntoJson(TryFromResponse(r).value, parse);
      match parse(r.readBody.value)
      case Ok(v) => j == (if IsSuccess(r.status) then Ok(v) else Err(v))
      case Err(e) => j == Err(String(e.message))
  {
  }

  /** `into_result()` after a blocking capture: `Ok(t)` for a 2xx status
      whose body parses as `T`, `Err(e)` for another status whose body
      parses as `E`, and the converted parse error in `Err` otherwise. */
  lemma IntoResultAfterCapture<T, E>(r: Response, parseT: Parser<T>, parseE: Parser<E>,
                                     fromError: ParseError -> E)
    requires TryFromResponse(r).Ok?
    ensures var x := Lib.IntoResult(TryFromResponse(r).value, parseT, parseE, fromError);
      var b := r.readBody.value;
      if IsSuccess(r.status) then
        x == (match parseT(b) case Ok(v) => Ok(v) case Err(e) => Err(fromError(e)))
      else
        x == (match parseE(b) case Ok(v) => Err(v) case Err(e) => Err(fromError(e)))
  {
  }
}
