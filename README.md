# smuggle-host request forwarder, modelled in Dafny

smuggle-host is a single-hop HTTP reverse proxy. It sends every inbound
request to one fixed upstream `desthost:destport`. A front end that cannot set
`Host` itself puts the intended host in a "smuggle header" (`X-Smuggle-Host`
by default). For each request, `App::handle_request` does four things:

1. It strips the hop-by-hop headers of section 13.5.1 of RFC 2068: `Connection`,
   `Keep-alive`, `Public`, `Proxy-Authenticate`, `Transfer-Encoding` and `Upgrade`.
2. It removes the smuggle header and keeps its first value. If the header is
   absent, the request is refused.
3. It writes that value as the single `Host` header.
4. It retargets the request to `http://desthost:destport`. The inbound path and
   query are kept.

It then passes the request to the HTTP client. The service closure around it
draws a correlation id for each request. Any failure becomes a 500 response
whose body is `An unhandled error occurred, error identifier <id>`.

Modules:

- `Wrappers` (wrappers.dfy): `Option` and `Result`.
- `Headers` (headers.dfy): the header multimap, as a sequence of (name,
  value) entries. Names compare without regard to ASCII case. It provides
  `ValuesOf` (all values under a name, in order), `Get` (the value
  `remove` returns), `Remove` and `Insert`.
- `Uris` (uri.dfy): the request target and `Uri::from_parts`.
- `Config` (config.dfy): the options the forwarder uses, `App::new` and the
  destination authority text `desthost ":" destport`.
- `Forwarder` (forward.dfy): the request is a class with mutable headers and
  target. `HandleRequest` rewrites it in place, following the source. `Rewrite`
  and `Forward` are the same pipeline stated as functions on request values.
  The lemmas state what the pipeline guarantees.
- `ForwarderExample` (forward.dfy): one concrete request taken through the
  whole rewrite.
- `Service` (service.dfy): the error response and the service closure.

## Model

| member | source | states |
|---|---|---|
| `Headers.Get` | src/main.rs:79-81 | The value `remove` hands back is absent exactly when no header has the name. Otherwise it is the first value under that name. |
| `Headers.Remove` | src/main.rs:76 | After `remove`, no entry has the name. Every other name keeps its values in order, and every remaining entry was already there. |
| `Headers.Insert` | src/main.rs:88 | After `insert`, the name holds exactly the one inserted value. Every other name keeps its values. |
| `Uris.FromParts` | src/main.rs:90-94 | Assembling a target succeeds exactly when a scheme comes with both an authority and a path, and an authority with a path comes with a scheme. On success the parts are kept as given. |
| `Config.Decimal` | src/main.rs:58 | The port's text is a non-empty string of decimal digits with no leading zero. |
| `Config.DecimalRoundTrip` | src/main.rs:58 | The port's decimal text reads back as the port. |
| `Config.AuthorityNamesDestination` | src/main.rs:58 | The authority text is the destination host, then ':', then digits that read back as the destination port. The ':' is the last one, so the host is everything before it. |
| `Config.NewApp` | src/main.rs:56-66 | Start-up succeeds exactly when `desthost:destport` parses as an authority. On success the app holds that authority and the configured smuggle header. On failure the error is the fixed "cannot parse the authority" error. |
| `Forwarder.Request.RemoveHeader` | src/main.rs:79-81 | The request's headers become `Remove` of the old headers, and the call returns `Get` of them. |
| `Forwarder.Request.InsertHeader` | src/main.rs:88 | The request's headers become `Insert` of the old headers. |
| `Forwarder.Request.RemoveHopByHops` | src/main.rs:75-77 | The stripping loop leaves exactly the headers with all six hop-by-hop names removed. |
| `Forwarder.StripAllKeepsOthers` | src/main.rs:75-77 | Removing names one after another equals filtering out, in one pass, every entry that matches any of them. |
| `Forwarder.StripHopByHopsCorrect` | src/main.rs:105-112 | After stripping, no header matches a hop-by-hop name in any letter case. Every other entry survives unchanged and in order, so every other name keeps exactly its inbound values. |
| `Forwarder.HostIsNotHopByHop` | src/main.rs:105-112 | `Host` is not one of the hop-by-hop names. |
| `Forwarder.MissingSmuggleHeaderIff` | src/main.rs:75-87 | The request is refused for a missing smuggle header exactly when it carries no such header, or the smuggle header has a hop-by-hop name. |
| `Forwarder.HopByHopSmuggleHeaderAlwaysMissing` | src/main.rs:75-87 | A smuggle header configured with a hop-by-hop name refuses every request, because stripping runs first. |
| `Forwarder.RewriteOutcome` | src/main.rs:79-94 | The rewrite succeeds exactly when the smuggle header survives stripping and the inbound target has a path. Building the target fails, with a missing path as the reason, exactly when the header is present but the path is not. |
| `Forwarder.RewriteSuccess` | src/main.rs:74-94 | After a successful rewrite: the smuggle header is gone, unless it is `Host` itself; `Host` holds exactly the smuggle header's first inbound value; no hop-by-hop header is left; every other header keeps its inbound values; the target is `http` at the configured authority with the inbound path and query; method and body are unchanged. |
| `Forwarder.RefusedRequestNeverDispatched` | src/main.rs:79-98 | A refused request ends with the rewrite's error whatever the HTTP client would do, so the upstream is never consulted. |
| `Forwarder.HandleRequest` | src/main.rs:68-99 | The in-place rewrite returns `Forward` of the inbound request. Method and body never change. On success the request becomes the rewritten one. On a missing smuggle header only the stripping has happened. When the target cannot be built, the headers are rewritten but the target is not. |
| `ForwarderExample.ForwardsExampleRequest` | src/main.rs:74-94 | `GET /foo?x=1` with `X-Smuggle-Host: example.com` and `Connection: keep-alive`, sent to `127.0.0.1:9000`, leaves as `GET http://127.0.0.1:9000/foo?x=1` with the single header `host: example.com`. |
| `Service.ErrorResponseCarriesId` | src/main.rs:137-141 | The error response has status 500, no headers and the body `An unhandled error occurred, error identifier ` followed by the id. The id can be read back from the body, and distinct ids give distinct responses. |
| `Service.RespondHidesErrors` | src/main.rs:135-143 | Every failure kind yields the same 500 response, so no error detail reaches the client. A successful upstream response is relayed unchanged. |
| `Service.MissingSmuggleHeaderAnswers500` | src/main.rs:131-143 | A request without the smuggle header gets the error response for its id. |
| `Service.Serve` | src/main.rs:129-145 | The service closure answers with the upstream response on success and with the error response for its id on any failure. |

## Left out

- The HTTP client call `client.request(req).await` is the function parameter `dispatch`. The forwarder returns its response unmodified and wraps its error. Connection handling and cancellation are not modelled.
- `main`, `Server::bind`, `make_service_fn`, `service_fn` and the tokio runtime are not modelled. They are concurrency and socket plumbing. Requests share no mutable state, so one request is modelled at a time.
- Command-line parsing (`Opt::parse`), `--bind`, `--verbose` and `init_logger` are not modelled. They are start-up glue.
- `uuid::Uuid::new_v4()` is random generation. The correlation id is the parameter `id` of `Serve`.
- Parsing `Authority`: the `http` crate decides which texts are authorities. `NewApp` receives that decision as the predicate `isAuthority`.
- Validating `HeaderName` and `HeaderValue`: the smuggle header name is assumed already valid, and header values are copied verbatim, as the source does.
- `Uris.FromParts` checks only the structure of `Uri::from_parts` (which components must appear together). It does not re-parse the components.
- Header order: the model keeps every surviving entry in its original position. hyper's `HeaderMap` only guarantees the order of values under one name. Removing a name may reorder the entries of other names. Every property stated with `ValuesOf` holds for both. `StripAllKeepsOthers` and `StripHopByHopsCorrect` also state the model's order across names.
- Bodies are plain strings. The source's bodies are byte streams, which the forwarder never reads.
- Logging (`log::debug!`, `log::error!`) has no behavioural contract and is not modelled.
- Only the six names of `HOP_BY_HOPS` are stripped, as in the code. Extra names listed in an inbound `Connection` header are forwarded. So are the later hop-by-hop headers `TE`, `Trailer` and `Proxy-Authorization`. Responses from upstream are relayed without any stripping.
