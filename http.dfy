/** The HTTP client collaborator, reduced to what capture observes of a
    response handle: its status code, the outcome of the status escalation
    check and the outcome of reading the whole body. */
module Http {
  import opened Prelude

  /** A status code as the client represents it: a three-digit number. */
  type StatusCode = s: int | 100 <= s <= 999 witness 200

  /** The success class, 2xx (section 15.3 of RFC 9110). */
  predicate IsSuccess(s: StatusCode) { 200 <= s <= 299 }

  /** The client error class, 4xx (section 15.5 of RFC 9110). */
  predicate IsClientError(s: StatusCode) { 400 <= s <= 499 }

  /** The server error class, 5xx (section 15.6 of RFC 9110). */
  predicate IsServerError(s: StatusCode) { 500 <= s <= 599 }

  /** An error raised by the client; opaque to the wrapper, which only
      passes it on. */
  datatype TransportError =
    | StatusError(status: StatusCode)   // raised by the status escalation check
    | BodyError(detail: string)         // raised while the body is retrieved

  /** A response handle, blocking or suspending alike.
      `escalate` is what the status escalation check would report, and
      `readBody` is the outcome of retrieving the body, once it completes. */
  datatype Response = Response(
    status: StatusCode,
    escalate: Option<TransportError>,
    readBody: Result<ByteString, TransportError>)

  /** The status escalation check, run on a reference to the handle: it
      fails with the reported error, or lets the handle through. */
  function ErrorForStatusRef(r: Response): (res: Result<(), TransportError>)
  {
    match r.escalate
    case None => Ok(())
    case Some(e) => Err(e)
  }

  /** The documented behaviour of the client's escalation check: it fails,
      with a status error, exactly on client and server error statuses. */
  predicate Conforms(r: Response)
  {
    r.escalate ==
      if IsClientError(r.status) || IsServerError(r.status)
      then Some(StatusError(r.status))
      else None
  }
}
