/**
 * The per-request service closure of `main`: it calls the forwarder under a
 * fresh correlation id and turns every failure into the same plain 500
 * response naming that id, so no internal detail reaches the client.
 */
module Service {
  import opened Wrappers
  import opened Headers
  import opened Forwarder
  import Config

  const InternalServerError: nat := 500

  const ErrorPrefix: string := "An unhandled error occurred, error identifier "

  /** `Response::new(format!(...))` with its status set to `INTERNAL_SERVER_ERROR`. */
  function ErrorResponse(id: string): Response {
    Response(InternalServerError, [], ErrorPrefix + id)
  }

  /** `unwrap_or_else` on the forwarder's result: relay a response, or answer the error response. */
  function Respond(r: Result<Response, ForwardError>, id: string): Response {
    match r
    case Ok(res) => res
    case Err(_) => ErrorResponse(id)
  }

  /**
   * The error response is a 500 whose body is the fixed sentence followed by
   * the correlation id, and the id can be read back from it.
   */
  lemma ErrorResponseCarriesId(id: string, other: string)
    ensures ErrorResponse(id).status == 500 && ErrorResponse(id).headers == []
    ensures var body := ErrorResponse(id).body;
      |body| == |ErrorPrefix| + |id| && body[..|ErrorPrefix|] == ErrorPrefix && body[|ErrorPrefix|..] == id
    ensures ErrorResponse(other) == ErrorResponse(id) ==> other == id
  {
    if ErrorResponse(other) == ErrorResponse(id) {
      assert other == (ErrorPrefix + other)[|ErrorPrefix|..];
    }
  }

  /**
   * Every failure, whatever its kind, yields the same error response; a
   * success is relayed unchanged.
   */
  lemma RespondHidesErrors(r: Result<Response, ForwardError>, e: ForwardError, id: string)
    ensures r.Err? ==> Respond(r, id) == Respond(Err(e), id) && Respond(r, id).status == 500
    ensures r.Ok? ==> Respond(r, id) == r.value
  {
  }

  /** A request without the smuggle header is answered with the error response and is never sent upstream. */
  lemma MissingSmuggleHeaderAnswers500(app: Config.App, m: Message, dispatch: Message -> Result<Response, string>, id: string)
    requires ValuesOf(m.headers, app.smuggleHeader) == []
    ensures Forward(app, m, dispatch) == Err(MissingSmuggleHeader(app.smuggleHeader))
    ensures Respond(Forward(app, m, dispatch), id) == ErrorResponse(id)
  {
    MissingSmuggleHeaderIff(app, m);
  }

  /** The service closure for one request, with `id` the correlation id it drew. */
  method Serve(app: Config.App, id: string, req: Request, dispatch: Message -> Result<Response, string>)
    returns (res: Response)
    modifies req`headers, req`uri
    ensures res == Respond(Forward(app, old(req.Value()), dispatch), id)
  {
    var r := HandleRequest(app, req, dispatch);
    match r {
      case Ok(upstream) =>
        res := upstream;
      case Err(_) =>
        res := ErrorResponse(id);
    }
  }
}
