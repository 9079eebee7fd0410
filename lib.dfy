/** The captured response of the asynchronous client (src/lib.rs): the
    stored body and disposition, the capture operation, the four decoders
    and the extension method on the client's response type.
    The blocking variant (src/blocking.rs) stores and decodes exactly the
    same way and reuses the datatype and decoders defined here. */
module Lib {
  import opened Prelude
  import opened Http
  import opened Json

  /** Which variant the body is to be decoded into; fixed at capture. */
  datatype Disposition = Success | Failure

  /** The raw body and the disposition derived from the status code.
      The two decode target types are not stored. */
  datatype TypedResponse = TypedResponse(body: ByteString, disposition: Disposition)

  /** The disposition a status code implies. */
  function DispositionOf(s: StatusCode): (d: Disposition)
  {
    if IsSuccess(s) then Success else Failure
  }

  /** `TypedResponse::try_from_response`: derive the disposition, let the
      escalation check bail out on a server error before anything else, then
      read the body once. The awaited read is represented by its outcome. */
  function TryFromResponse(r: Response): (res: Result<TypedResponse, TransportError>)
    // a server error the check reports is returned as is, the body unread
    ensures IsServerError(r.status) && r.escalate.Some? ==> res == Err(r.escalate.value)
    // otherwise the outcome is that of the body read
    ensures !(IsServerError(r.status) && r.escalate.Some?) ==>
      (res.Ok? <==> r.readBody.Ok?) &&
      (r.readBody.Err? ==> res == Err(r.readBody.error))
    // a captured response stores exactly the bytes read ...
    ensures res.Ok? ==> r.readBody.Ok? && res.value.body == r.readBody.value
    // ... and is a success exactly when the status is 2xx
    ensures res.Ok? ==> (res.value.disposition == Success <==> 200 <= r.status <= 299)
  {
    var disposition := DispositionOf(r.status);
    if IsServerError(r.status) && ErrorForStatusRef(r).Err? then
      Err(ErrorForStatusRef(r).error)
    else
      match r.readBody
      case Err(e) => Err(e)
      case Ok(body) => Ok(TypedResponse(body, disposition))
  }

  /** `bytes()`: the raw body, whatever the disposition. */
  function Bytes(t: TypedResponse): (b: ByteString)
    ensures b == t.body
  {
    t.body
  }

  /** `text()`: the body through the standard library's lossy UTF-8
      conversion, a total function here. */
  function Text(t: TypedResponse, lossy: ByteString -> string): (s: string)
    // the conversion of the stored body, whatever the disposition
    ensures s == lossy(t.body)
  {
    lossy(t.body)
  }

  /** What a deserialisation error becomes in `into_json`: a JSON string
      holding its message. */
  function ErrorValue(e: ParseError): (v: Value)
    // a JSON string carrying the message, not an object
    ensures v.String? && v.s == e.message
  {
    String(e.message)
  }

  /** `into_json()`: parse the body as a generic value and put it in the
      channel of the disposition. A parse error leaves through the early
      return of the error channel, whatever the disposition. */
  function IntoJson(t: TypedResponse, parse: Parser<Value>): (r: Result<Value, Value>)
    ensures r.Ok? <==> t.disposition == Success && parse(t.body).Ok?
    ensures r.Ok? ==> parse(t.body) == Ok(r.value)
    ensures t.disposition == Failure && parse(t.body).Ok? ==> r == Err(parse(t.body).value)
    ensures parse(t.body).Err? ==> r == Err(String(parse(t.body).error.message))
  {
    match t.disposition
    case Success =>
      (match parse(t.body)
       case Ok(v) => Ok(v)
       case Err(e) => Err(ErrorValue(e)))
    case Failure =>
      (match parse(t.body)
       case Ok(v) => Err(v)
       case Err(e) => Err(ErrorValue(e)))
  }

  /** `into_result()`: parse the body as `T` for a success and as `E` for a
      failure. A parse error on either path is converted by `E`'s
      conversion from a deserialisation error and returned in `Err`. */
  function IntoResult<T, E>(t: TypedResponse, parseT: Parser<T>, parseE: Parser<E>,
                            fromError: ParseError -> E): (r: Result<T, E>)
    ensures r.Ok? <==> t.disposition == Success && parseT(t.body).Ok?
    ensures r.Ok? ==> parseT(t.body) == Ok(r.value)
    ensures t.disposition == Success && parseT(t.body).Err? ==>
      r == Err(fromError(parseT(t.body).error))
    ensures t.disposition == Failure && parseE(t.body).Ok? ==> r == Err(parseE(t.body).value)
    ensures t.disposition == Failure && parseE(t.body).Err? ==>
      r == Err(fromError(parseE(t.body).error))
  {
    match t.disposition
    case Success =>
      (match parseT(t.body)
       case Ok(v) => Ok(v)
       case Err(e) => Err(fromError(e)))
    case Failure =>
      (match parseE(t.body)
       case Ok(v) => Err(v)
       case Err(e) => Err(fromError(e)))
  }

  /** `ResponseExt::try_from_response` on the client's response type. */
  function ExtTryFromResponse(r: Response): (res: Result<TypedResponse, TransportError>)
    ensures res == TryFromResponse(r)
    // no failure mode of its own: every error comes from the client
    ensures res.Err? ==> Some(res.error) == r.escalate || Err(res.error) == r.readBody
  {
    TryFromResponse(r)
  }

  // ---------------------------------------------------------------------
  // Capture

  /** Statuses outside 5xx never consult the escalation check: its outcome
      can be anything without changing the capture. */
  lemma EscalationUnconsulted(r: Response, e: Option<TransportError>)
    requires !IsServerError(r.status)
    ensures TryFromResponse(r.(escalate := e)) == TryFromResponse(r)
  {
  }

  /** When the check reports a server error, the body is not consulted:
      any read outcome gives the same capture. */
  lemma BodyUnreadOnEscalation(r: Response, b: Result<ByteString, TransportError>)
    requires IsServerError(r.status) && r.escalate.Some?
    ensures TryFromResponse(r.(readBody := b)) == TryFromResponse(r)
  {
  }

  /** With the client's documented check, no 5xx response is ever
      captured: capture fails with the status error. */
  lemma ServerErrorNeverCaptured(r: Response)
    requires Conforms(r) && IsServerError(r.status)
    ensures TryFromResponse(r) == Err(StatusError(r.status))
  {
  }

  /** A 4xx response is not escalated: whatever the check would say, its
      body is captured with a failure disposition, or its read error
      returned. */
  lemma ClientErrorCaptured(r: Response)
    requires IsClientError(r.status)
    ensures r.readBody.Ok? ==> TryFromResponse(r) == Ok(TypedResponse(r.readBody.value, Failure))
    ensures r.readBody.Err? ==> TryFromResponse(r) == Err(r.readBody.error)
  {
  }

  /** Every stored pair of body and disposition is the capture of some
      response whose escalation check behaves as documented; a failure
      pair is, for one, the capture of a 4xx response, which the check
      would reject but capture does not escalate. */
  lemma CaptureOnto(body: ByteString, d: Disposition)
    ensures exists r ::
              Conforms(r) && (d == Failure ==> IsClientError(r.status)) &&
              TryFromResponse(r) == Ok(TypedResponse(body, d))
  {
    var status: StatusCode := if d == Success then 200 else 404;
    var r := Response(status, if d == Success then None else Some(StatusError(status)), Ok(body));
    assert Conforms(r) && (d == Failure ==> IsClientError(r.status)) &&
      TryFromResponse(r) == Ok(TypedResponse(body, d));
  }

  /** Under the documented check, the statuses a failure disposition is
      captured from are exactly those outside 2xx and 5xx: 1xx, 3xx, 4xx
      and the unclassed 600 to 999. */
  lemma FailureStatuses(r: Response)
    requires Conforms(r) && r.readBody.Ok?
    ensures TryFromResponse(r).Ok? && TryFromResponse(r).value.disposition == Failure
      <==> !(200 <= r.status <= 299) && !(500 <= r.status <= 599)
  {
  }

  // ---------------------------------------------------------------------
  // Accessors

  /** After capture, `bytes()` returns exactly the bytes that were read,
      `text()` their lossy conversion, and the disposition is the one the
      status implied. */
  lemma BytesAfterCapture(r: Response, lossy: ByteString -> string)
    requires TryFromResponse(r).Ok?
    ensures r.readBody.Ok? && Bytes(TryFromResponse(r).value) == r.readBody.value
    ensures Text(TryFromResponse(r).value, lossy) == lossy(r.readBody.value)
    ensures TryFromResponse(r).value.disposition == DispositionOf(r.status)
  {
  }

  /** `text()` depends on the body alone, not on the disposition. That it
      gives the same result on every call holds by construction, as for
      every function here. */
  lemma TextOfBody(t1: TypedResponse, t2: TypedResponse, lossy: ByteString -> string)
    requires t1.body == t2.body
    ensures Text(t1, lossy) == Text(t2, lossy)
  {
  }

  // ---------------------------------------------------------------------
  // Decoders

  /** A body that does not parse never gives `Ok` and never a JSON object:
      it gives an error string, for both dispositions. */
  lemma IntoJsonUnparsable(t: TypedResponse, parse: Parser<Value>)
    requires parse(t.body).Err?
    ensures IntoJson(t, parse).Err? && IntoJson(t, parse).error.String?
    ensures IntoJson(t, parse) == IntoJson(t.(disposition := Success), parse)
  {
  }

  /** `into_json` is `into_result` at the generic value for both variants,
      with the error-to-string conversion. */
  lemma IntoJsonIsIntoResult(t: TypedResponse, parse: Parser<Value>)
    ensures IntoJson(t, parse) == IntoResult(t, parse, parse, ErrorValue)
  {
  }

  /** The decoders read only the body and the disposition fixed at
      capture: decoding a captured response routes by the status. */
  lemma IntoResultAfterCapture<T, E>(r: Response, parseT: Parser<T>, parseE: Parser<E>,
                                     fromError: ParseError -> E)
    requires TryFromResponse(r).Ok?
    ensures IntoResult(TryFromResponse(r).value, parseT, parseE, fromError).Ok?
      <==> IsSuccess(r.status) && parseT(r.readBody.value).Ok?
  {
  }
}
