# TypedResponse: capture and deferred decoding of an HTTP response

This project models the `TypedResponse` wrapper of the `reqwest` response extension in Dafny.
A `TypedResponse` keeps a response's raw body and a two-valued disposition (success or failure).
The disposition is derived once from the HTTP status when the response is captured.
The caller later decodes the body into a generic JSON value or into a success type `T` or a failure type `E`, routed by that disposition.
The crate has two copies of this logic: an asynchronous one in `src/lib.rs` and a blocking one in `src/blocking.rs`.

Modules:

- `Prelude` (`prelude.dfy`): Rust's `Option` and `Result`, and the byte buffer.
- `Http` (`http.dfy`): the client's response handle as an abstract record. It holds the status code, what the status escalation check (`error_for_status_ref`) reports, and the outcome of reading the body. It also gives the status classes of RFC 9110 and `Conforms`, the client's documented escalation behaviour: an error on exactly the 4xx and 5xx statuses.
- `Json` (`json.dfy`): the generic JSON value, the deserialisation error, and the type of a deserialiser.
- `Lib` (`lib.dfy`): the captured response, capture, the four decoders and the extension method of `src/lib.rs`, plus lemmas.
- `Blocking` (`blocking.dfy`): the blocking capture and its extension method of `src/blocking.rs`, plus lemmas. The blocking `TypedResponse` stores the same two fields, and its accessors are the same expressions, so it reuses `Lib`'s datatype and decoders. Only capture differs, by `.await`, so it is written out again and proved to give the same outcome.

The JSON library's deserialisers and `E`'s conversion from a deserialisation error are function-typed parameters of the decoders. So is the lossy UTF-8 conversion used by `text()`. A parameter of total function type cannot fail and gives the same answer on every call.

The model follows the code where its documentation says otherwise. The doc comment at `src/lib.rs:76-79` says that `into_json` "creates a JSON object" when the body is not valid JSON. The code builds the JSON *string* of the error message with `json!{ e.to_string() }`. Then the `?` operator returns it early through the `Err` channel. So a body that does not parse yields `Err(String(message))` even when the disposition is a success; it is never `Ok`, and never an object. `Lib.IntoJson` and `Lib.IntoJsonUnparsable` state this behaviour. Likewise in `into_result`, a parse failure on the success path does not escape as a separate error. `?` converts it with `E::from` and returns it as `Err`.

## Model

| member | source | states |
|---|---|---|
| `Lib.TryFromResponse` | src/lib.rs:48-62 | A 5xx status whose escalation check fails returns that error without reading the body. Otherwise the outcome is the body read's: its error is passed on unchanged, or the captured response holds exactly the bytes read. Its disposition is Success iff the status is 200 to 299. |
| `Lib.ExtTryFromResponse` | src/lib.rs:108-116 | The extension method returns exactly what `TypedResponse::try_from_response` returns. Every error it returns comes from the escalation check or the body read. |
| `Lib.EscalationUnconsulted` | src/lib.rs:54-61 | For a status outside 5xx, capture does not depend on what the escalation check would report. |
| `Lib.BodyUnreadOnEscalation` | src/lib.rs:54-59 | When a 5xx check reports an error, capture does not depend on the body read's outcome. |
| `Lib.ServerErrorNeverCaptured` | src/lib.rs:54-57 | With the client's documented check, every 5xx capture fails with the status error. |
| `Lib.ClientErrorCaptured` | src/lib.rs:49-61 | A 4xx response is never escalated. Its body is captured with disposition Failure, or its read error is returned. |
| `Lib.CaptureOnto` | src/lib.rs:48-62 | Every pair of body and disposition is the capture of some response whose check behaves as documented. For a Failure pair that response can be taken with a 4xx status: the check would reject it, but capture does not escalate it. |
| `Lib.FailureStatuses` | src/lib.rs:49-61 | Under the documented check, and when the read succeeds, capture yields Failure exactly for statuses outside 2xx and 5xx. |
| `Lib.BytesAfterCapture` | src/lib.rs:59-74 | After capture, `bytes()` returns exactly the bytes read and `text()` their lossy conversion. The disposition is the one the status implied. |
| `Lib.TextOfBody` | src/lib.rs:72-74 | `text()` depends only on the body, not on the disposition. Repeated calls agree by construction. |
| `Lib.Bytes` | src/lib.rs:66-68 | `bytes()` is the stored body, unchanged, for either disposition. It is also the blocking `bytes()` at src/blocking.rs:37-39. |
| `Lib.Text` | src/lib.rs:72-74 | `text()` is the lossy UTF-8 conversion of the stored body, for either disposition. It is also the blocking `text()` at src/blocking.rs:43-45. |
| `Lib.ErrorValue` | src/lib.rs:82 | The `json_err` closure turns a deserialisation error into a JSON string holding its message, not an object. |
| `Lib.IntoJson` | src/lib.rs:81-87 | The result is `Ok` iff the disposition is Success and the body parses; `Ok` carries the parsed value. Failure with a parsed value gives `Err(value)`. Any parse failure gives `Err` of the JSON string of the error message. |
| `Lib.IntoJsonUnparsable` | src/lib.rs:81-86 | On a parse failure, `into_json` is an `Err` holding a JSON string, not an object. It is the same for both dispositions. |
| `Lib.IntoJsonIsIntoResult` | src/lib.rs:81-97 | `into_json` equals `into_result` with the generic value as both `T` and `E`, and the error-to-string conversion as `E::from`. |
| `Lib.IntoResult` | src/lib.rs:92-97 | Success with a body that parses as `T` gives `Ok(t)`. Failure with a body that parses as `E` gives `Err(e)`. A parse failure on either path gives `Err(E::from(err))`. The result is `Ok` only on Success with a parsed `T`. |
| `Lib.IntoResultAfterCapture` | src/lib.rs:89-97 | Decoding a captured response gives `Ok` iff the status was 2xx and the body parses as `T`. |
| `Blocking.TryFromResponse` | src/blocking.rs:19-33 | For a 5xx status, an error from the escalation check is returned without reading the body. Outside 5xx, a read error is passed on unchanged, and otherwise the read bytes are captured. The disposition is Success iff the status is 2xx. The outcome equals the asynchronous capture's outcome on the same response. |
| `Blocking.ExtTryFromResponse` | src/blocking.rs:78-85 | The blocking extension method returns exactly what the blocking `try_from_response` returns. It has no failure mode of its own. |
| `Blocking.ServerErrorEscalated` | src/blocking.rs:25-28 | With the documented check, a blocking 5xx capture fails with the status error, whatever the body read would have given. |
| `Blocking.EscalationUnconsulted` | src/blocking.rs:26-30 | Outside 5xx, the blocking capture does not depend on the escalation check. |
| `Blocking.AccessorsAfterCapture` | src/blocking.rs:30-45 | After a blocking capture, `bytes()` is exactly the bytes read and `text()` is their lossy conversion. The disposition is the one the status implied. |
| `Blocking.IntoJsonAfterCapture` | src/blocking.rs:52-57 | After a blocking capture, a parsed value goes to `Ok` for a 2xx status and to `Err` otherwise. A parse failure gives `Err` of the error string for every status. |
| `Blocking.IntoResultAfterCapture` | src/blocking.rs:60-67 | After a blocking capture, a 2xx status gives `Ok(t)` or `Err(E::from(err))`. Any other status gives `Err(e)` or `Err(E::from(err))`. |

## Left out

- The HTTP transport: `status()`, `error_for_status_ref()` and the body read are fields of the abstract `Http.Response` record. They hold the values those calls would return.
- The suspension point at `src/lib.rs:59` and the async trait machinery: the awaited read is represented only by its outcome. Cancellation is not modelled.
- JSON parsing (`serde_json::from_slice`) and the rendering of a deserialisation error as text: a parser is a function-typed parameter, and `Json.ParseError` carries its rendered message.
- The lossy UTF-8 conversion inside `text()`: a total function-typed parameter. The replacement of invalid sequences is not modelled.
- Consumption of the response handle: the response is a value, so nothing stops capture being applied to it twice. Rust's ownership forbids that, and the single-read rule is not stated.
- Sharing of the reference-counted body buffer, the type markers for `T` and `E`, the `Clone`/`Debug` derives, the lint attributes and the feature gate: they have no behaviour to model.
