/**
 * The request forwarder, `App::handle_request`: it strips the hop-by-hop
 * headers, takes the smuggle header out, writes its value as `Host`, points
 * the request at the fixed destination and hands it to the HTTP client.
 */
module Forwarder {
  import opened Wrappers
  import opened Headers
  import opened Uris
  import opened Config

  /**
   * `HOP_BY_HOPS`: the connection-scoped headers of section 13.5.1 of
   * RFC 2068, which a proxy must not pass on.
   */
  const HopByHops: seq<string> :=
    ["Connection", "Keep-alive", "Public", "Proxy-Authenticate", "Transfer-Encoding", "Upgrade"]

  /** hyper's `HOST` header name. */
  const HostName: string := "host"

  /** What the source's errors report (the `anyhow` contexts of `handle_request`). */
  datatype ForwardError =
    | MissingSmuggleHeader(header: string)
    | UriConstructionError(reason: InvalidUriParts)
    | UpstreamDispatchError(cause: string)

  /** The parts of a response the proxy produces or relays. */
  datatype Response = Response(status: nat, headers: seq<Header>, body: string)

  /** The value of a request: its method, target, headers and body. */
  datatype Message = Message(verb: string, uri: Uri, headers: seq<Header>, body: string)

  /** `Request<Body>`, which `handle_request` rewrites in place. */
  class Request {
    var verb: string
    var uri: Uri
    var headers: seq<Header>
    var body: string

    constructor (m: Message)
      ensures Value() == m
    {
      verb, uri, headers, body := m.verb, m.uri, m.headers, m.body;
    }

    function Value(): Message
      reads this
    {
      Message(verb, uri, headers, body)
    }

    /** `headers_mut().remove(key)`. */
    method RemoveHeader(key: string) returns (v: Option<string>)
      modifies this`headers
      ensures v == Get(old(headers), key)
      ensures headers == Remove(old(headers), key)
    {
      v := Get(headers, key);
      headers := Remove(headers, key);
    }

    /** The loop over `HOP_BY_HOPS` at the start of `handle_request`. */
    method RemoveHopByHops()
      modifies this`headers
      ensures headers == StripHopByHops(old(headers))
    {
      for i := 0 to |HopByHops|
        invariant headers == StripAll(old(headers), HopByHops[..i])
      {
        assert HopByHops[..i + 1][..i] == HopByHops[..i];
        var _ := RemoveHeader(HopByHops[i]);
      }
      assert HopByHops[..|HopByHops|] == HopByHops;
    }

    /** `headers_mut().insert(key, v)`. */
    method InsertHeader(key: string, v: string)
      modifies this`headers
      ensures headers == Insert(old(headers), key, v)
    {
      headers := Insert(headers, key, v);
    }
  }

  /** A name matching one of `keys`. */
  predicate MatchesAny(name: string, keys: seq<string>) {
    exists k :: 0 <= k < |keys| && NameEq(name, keys[k])
  }

  /** The headers left after removing each of `keys` in turn, as the stripping loop does. */
  function StripAll(h: seq<Header>, keys: seq<string>): seq<Header> {
    if keys == [] then h else Remove(StripAll(h, keys[..|keys| - 1]), keys[|keys| - 1])
  }

  /** Independently: the entries of `h` whose name matches none of `keys`, in their original order. */
  function KeepOthers(h: seq<Header>, keys: seq<string>): seq<Header> {
    if h == [] then []
    else (if MatchesAny(h[0].name, keys) then [] else [h[0]]) + KeepOthers(h[1..], keys)
  }

  lemma {:induction false} KeepNothingMatched(h: seq<Header>)
    ensures KeepOthers(h, []) == h
  {
    if h != [] {
      KeepNothingMatched(h[1..]);
    }
  }

  lemma MatchesAnyAppend(name: string, keys: seq<string>, key: string)
    ensures MatchesAny(name, keys + [key]) <==> MatchesAny(name, keys) || NameEq(name, key)
  {
    var ks := keys + [key];
    if NameEq(name, key) {
      assert ks[|keys|] == key;
    }
    if MatchesAny(name, keys) {
      var k :| 0 <= k < |keys| && NameEq(name, keys[k]);
      assert ks[k] == keys[k];
    }
    if MatchesAny(name, ks) {
      var k :| 0 <= k < |ks| && NameEq(name, ks[k]);
      if k < |keys| { assert ks[k] == keys[k]; }
    }
  }

  lemma {:induction false} RemoveFromKept(h: seq<Header>, keys: seq<string>, key: string)
    ensures Remove(KeepOthers(h, keys), key) == KeepOthers(h, keys + [key])
  {
    if h != [] {
      var t := KeepOthers(h[1..], keys);
      var t' := KeepOthers(h[1..], keys + [key]);
      RemoveFromKept(h[1..], keys, key);
      MatchesAnyAppend(h[0].name, keys, key);
      if MatchesAny(h[0].name, keys) {
        assert KeepOthers(h, keys) == t;
        assert KeepOthers(h, keys + [key]) == t';
      } else {
        var ht := [h[0]] + t;
        assert KeepOthers(h, keys) == ht;
        assert ht[0] == h[0] && ht[1..] == t;
        if NameEq(h[0].name, key) {
          assert Remove(ht, key) == Remove(t, key);
          assert KeepOthers(h, keys + [key]) == t';
        } else {
          assert Remove(ht, key) == [h[0]] + Remove(t, key);
          assert KeepOthers(h, keys + [key]) == [h[0]] + t';
        }
      }
    }
  }

  /** Removing the keys one by one keeps exactly the entries that match none of them, in order. */
  lemma {:induction false} StripAllKeepsOthers(h: seq<Header>, keys: seq<string>)
    ensures StripAll(h, keys) == KeepOthers(h, keys)
  {
    if keys == [] {
      KeepNothingMatched(h);
    } else {
      var init := keys[..|keys| - 1];
      StripAllKeepsOthers(h, init);
      RemoveFromKept(h, init, keys[|keys| - 1]);
      assert init + [keys[|keys| - 1]] == keys;
    }
  }

  lemma {:induction false} KeptEntries(h: seq<Header>, keys: seq<string>)
    ensures forall i :: 0 <= i < |KeepOthers(h, keys)| ==>
      KeepOthers(h, keys)[i] in h && !MatchesAny(KeepOthers(h, keys)[i].name, keys)
  {
    if h != [] {
      KeptEntries(h[1..], keys);
    }
  }

  lemma {:induction false} KeptValues(h: seq<Header>, keys: seq<string>, n: string)
    requires !MatchesAny(n, keys)
    ensures ValuesOf(KeepOthers(h, keys), n) == ValuesOf(h, n)
  {
    if h != [] {
      KeptValues(h[1..], keys, n);
      var t := KeepOthers(h[1..], keys);
      if MatchesAny(h[0].name, keys) {
        var k :| 0 <= k < |keys| && NameEq(h[0].name, keys[k]);
        assert !NameEq(n, keys[k]);
        assert !NameEq(h[0].name, n);
        assert KeepOthers(h, keys) == t;
      } else {
        assert ([h[0]] + t)[1..] == t;
      }
    }
  }

  /** The hop-by-hop stripping of `handle_request`. */
  function StripHopByHops(h: seq<Header>): seq<Header> {
    StripAll(h, HopByHops)
  }

  /**
   * After stripping, no header is named (in any case) after a hop-by-hop
   * header; every other entry survives, value and relative order unchanged,
   * so the values under any other name are those of the inbound request.
   */
  lemma StripHopByHopsCorrect(h: seq<Header>)
    ensures var r := StripHopByHops(h);
      && r == KeepOthers(h, HopByHops)
      && (forall i, k :: 0 <= i < |r| && 0 <= k < |HopByHops| ==> !NameEq(r[i].name, HopByHops[k]))
      && (forall i :: 0 <= i < |r| ==> r[i] in h)
      && (forall n :: !MatchesAny(n, HopByHops) ==> ValuesOf(r, n) == ValuesOf(h, n))
  {
    StripAllKeepsOthers(h, HopByHops);
    KeptEntries(h, HopByHops);
    forall n | !MatchesAny(n, HopByHops)
      ensures ValuesOf(StripHopByHops(h), n) == ValuesOf(h, n)
    {
      KeptValues(h, HopByHops, n);
    }
  }

  /** No hop-by-hop name denotes the `Host` header. */
  lemma HostIsNotHopByHop()
    ensures !MatchesAny(HostName, HopByHops)
  {
    forall k | 0 <= k < |HopByHops|
      ensures !NameEq(HostName, HopByHops[k])
    {
      assert |Lower(HostName)| != |Lower(HopByHops[k])|;
    }
  }

  /** The outbound request target: scheme `http`, the fixed authority, the inbound path and query. */
  function DestinationParts(app: App, inbound: Uri): Parts {
    DefaultParts.(scheme := Some("http"), authority := Some(app.authority), pathAndQuery := inbound.pathAndQuery)
  }

  /** Steps 1 to 4 of `handle_request` on the value of a request. */
  function Rewrite(app: App, m: Message): Result<Message, ForwardError> {
    var stripped := StripHopByHops(m.headers);
    match Get(stripped, app.smuggleHeader)
    case None => Err(MissingSmuggleHeader(app.smuggleHeader))
    case Some(host) =>
      var headers := Insert(Remove(stripped, app.smuggleHeader), HostName, host);
      match FromParts(DestinationParts(app, m.uri))
      case Err(e) => Err(UriConstructionError(e))
      case Ok(uri) => Ok(m.(uri := uri, headers := headers))
  }

  /** All of `handle_request`: the rewrite, then `client.request`, here the function `dispatch`. */
  function Forward(app: App, m: Message, dispatch: Message -> Result<Response, string>): Result<Response, ForwardError> {
    match Rewrite(app, m)
    case Err(e) => Err(e)
    case Ok(out) =>
      match dispatch(out)
      case Ok(res) => Ok(res)
      case Err(cause) => Err(UpstreamDispatchError(cause))
  }

  /**
   * The smuggle header is missing, so the request is refused, exactly when
   * the inbound request carries no such header or the header is one of the
   * hop-by-hop headers, which stripping removed first.
   */
  lemma MissingSmuggleHeaderIff(app: App, m: Message)
    ensures Rewrite(app, m) == Err(MissingSmuggleHeader(app.smuggleHeader))
        <==> MatchesAny(app.smuggleHeader, HopByHops) || ValuesOf(m.headers, app.smuggleHeader) == []
  {
    StripHopByHopsCorrect(m.headers);
    var stripped := StripHopByHops(m.headers);
    if MatchesAny(app.smuggleHeader, HopByHops) {
      var k :| 0 <= k < |HopByHops| && NameEq(app.smuggleHeader, HopByHops[k]);
      ValuesOfEmpty(stripped, app.smuggleHeader);
    }
  }

  /** A smuggle header named like a hop-by-hop header can never get through. */
  lemma HopByHopSmuggleHeaderAlwaysMissing(app: App, m: Message)
    requires MatchesAny(app.smuggleHeader, HopByHops)
    ensures Rewrite(app, m) == Err(MissingSmuggleHeader(app.smuggleHeader))
  {
    MissingSmuggleHeaderIff(app, m);
  }

  /**
   * The rewrite succeeds exactly when the smuggle header survives stripping
   * and the inbound target has a path; it fails to build the target exactly
   * when the header is there but the path is not (an authority-form target).
   */
  lemma RewriteOutcome(app: App, m: Message)
    ensures Rewrite(app, m).Ok?
        <==> !MatchesAny(app.smuggleHeader, HopByHops) && ValuesOf(m.headers, app.smuggleHeader) != []
             && m.uri.pathAndQuery.Some?
    ensures Rewrite(app, m) == Err(UriConstructionError(PathAndQueryMissing))
        <==> !MatchesAny(app.smuggleHeader, HopByHops) && ValuesOf(m.headers, app.smuggleHeader) != []
             && m.uri.pathAndQuery.None?
  {
    MissingSmuggleHeaderIff(app, m);
  }

  /**
   * What a successful rewrite sends upstream: the smuggle header is gone
   * (unless it is `Host` itself), there is exactly one `Host`, holding the
   * first value the smuggle header carried, no hop-by-hop header is left,
   * every other header keeps its values, the target is `http` at the fixed
   * authority with the inbound path and query, and method and body are as
   * they came in.
   */
  lemma RewriteSuccess(app: App, m: Message, out: Message)
    requires Rewrite(app, m) == Ok(out)
    ensures !NameEq(app.smuggleHeader, HostName) ==> ValuesOf(out.headers, app.smuggleHeader) == []
    ensures ValuesOf(m.headers, app.smuggleHeader) != []
    ensures ValuesOf(out.headers, HostName) == [ValuesOf(m.headers, app.smuggleHeader)[0]]
    ensures forall k :: 0 <= k < |HopByHops| ==> ValuesOf(out.headers, HopByHops[k]) == []
    ensures forall n :: !MatchesAny(n, HopByHops) && !NameEq(n, app.smuggleHeader) && !NameEq(n, HostName)
                        ==> ValuesOf(out.headers, n) == ValuesOf(m.headers, n)
    ensures out.uri == Uri(Some("http"), Some(app.authority), m.uri.pathAndQuery)
    ensures out.uri.pathAndQuery.Some?
    ensures out.verb == m.verb && out.body == m.body
  {
    var s := app.smuggleHeader;
    StripHopByHopsCorrect(m.headers);
    MissingSmuggleHeaderIff(app, m);
    HostIsNotHopByHop();
    var stripped := StripHopByHops(m.headers);
    var removed := Remove(stripped, s);
    assert ValuesOf(stripped, s) == ValuesOf(m.headers, s);
    forall k | 0 <= k < |HopByHops|
      ensures ValuesOf(out.headers, HopByHops[k]) == []
    {
      var hop := HopByHops[k];
      ValuesOfEmpty(stripped, hop);
      assert !NameEq(hop, HostName);
      if !NameEq(hop, s) {
        assert ValuesOf(removed, hop) == ValuesOf(stripped, hop);
      }
    }
  }

  /**
   * The upstream is contacted only when the rewrite succeeds: on a refused
   * request the outcome is the same whatever the HTTP client would have done.
   */
  lemma RefusedRequestNeverDispatched(app: App, m: Message, d1: Message -> Result<Response, string>, d2: Message -> Result<Response, string>)
    requires Rewrite(app, m).Err?
    ensures Forward(app, m, d1) == Forward(app, m, d2) == Err(Rewrite(app, m).error)
  {
  }

  /**
   * `App::handle_request`, rewriting `req` in place. On a missing smuggle
   * header only the stripping has happened; when the target cannot be built
   * the headers are rewritten but the target is not; method and body never
   * change.
   */
  method HandleRequest(app: App, req: Request, dispatch: Message -> Result<Response, string>)
    returns (r: Result<Response, ForwardError>)
    modifies req`headers, req`uri
    ensures r == Forward(app, old(req.Value()), dispatch)
    ensures req.verb == old(req.verb) && req.body == old(req.body)
    ensures Rewrite(app, old(req.Value())).Ok? ==> req.Value() == Rewrite(app, old(req.Value())).value
    ensures r == Err(MissingSmuggleHeader(app.smuggleHeader))
            ==> req.headers == StripHopByHops(old(req.headers)) && req.uri == old(req.uri)
    ensures r.Err? && r.error.UriConstructionError?
            ==> req.headers == Insert(Remove(StripHopByHops(old(req.headers)), app.smuggleHeader), HostName,
                                      Get(StripHopByHops(old(req.headers)), app.smuggleHeader).value)
                && req.uri == old(req.uri)
  {
    ghost var m := req.Value();
    ghost var stripped := StripHopByHops(m.headers);
    req.RemoveHopByHops();

    var host := req.RemoveHeader(app.smuggleHeader);
    if host.None? {
      RemoveAbsent(stripped, app.smuggleHeader);
      assert Rewrite(app, m) == Err(MissingSmuggleHeader(app.smuggleHeader));
      return Err(MissingSmuggleHeader(app.smuggleHeader));
    }
    req.InsertHeader(HostName, host.value);
    ghost var headers := req.headers;
    assert headers == Insert(Remove(stripped, app.smuggleHeader), HostName, host.value);

    var parts := DefaultParts;
    parts := parts.(scheme := Some("http"));
    parts := parts.(authority := Some(app.authority));
    parts := parts.(pathAndQuery := req.uri.pathAndQuery);
    assert parts == DestinationParts(app, m.uri);
    var uri := FromParts(parts);
    if uri.Err? {
      assert Rewrite(app, m) == Err(UriConstructionError(uri.error));
      return Err(UriConstructionError(uri.error));
    }
    req.uri := uri.value;
    assert Rewrite(app, m) == Ok(req.Value());

    var response := dispatch(req.Value());
    if response.Err? {
      return Err(UpstreamDispatchError(response.error));
    }
    return Ok(response.value);
  }
}

/** A worked request through the forwarder. */
module ForwarderExample {
  import opened Wrappers
  import opened Headers
  import opened Uris
  import opened Config
  import opened Forwarder

  /**
   * `GET /foo?x=1` carrying `X-Smuggle-Host: example.com` and
   * `Connection: keep-alive`, sent to a proxy for `127.0.0.1:9000` whose
   * smuggle header is `X-Smuggle-Host` (`x-smuggle-host` once parsed as a
   * `HeaderName`), leaves as
   * `GET http://127.0.0.1:9000/foo?x=1` with the single header
   * `host: example.com`.
   */
  lemma ForwardsExampleRequest()
    ensures Rewrite(App("x-smuggle-host", DestAuthority("127.0.0.1", 9000)),
                    Message("GET", Uri(None, None, Some("/foo?x=1")), ExampleHeaders(), ""))
         == Ok(Message("GET", Uri(Some("http"), Some("127.0.0.1:9000"), Some("/foo?x=1")),
                       [Header("host", "example.com")], ""))
  {
    var app := App("x-smuggle-host", DestAuthority("127.0.0.1", 9000));
    var m := Message("GET", Uri(None, None, Some("/foo?x=1")), ExampleHeaders(), "");
    ExampleAuthority();
    ExampleHeadersRewritten();
    assert FromParts(DestinationParts(app, m.uri)) == Ok(Uri(Some("http"), Some("127.0.0.1:9000"), Some("/foo?x=1")));
  }

  lemma ExampleAuthority()
    ensures DestAuthority("127.0.0.1", 9000) == "127.0.0.1:9000"
  {
    assert Decimal(9) == "9";
    assert Decimal(90) == "90";
    assert Decimal(900) == "900";
  }

  /** The example's smuggled value becomes its only header, `host`. */
  lemma ExampleHeadersRewritten()
    ensures Get(StripHopByHops(ExampleHeaders()), "x-smuggle-host") == Some("example.com")
    ensures Insert(Remove(StripHopByHops(ExampleHeaders()), "x-smuggle-host"), HostName, "example.com")
         == [Header("host", "example.com")]
  {
    ExampleStripped();
    ExampleSmuggleTaken();
    ExampleHostInserted();
  }

  lemma ExampleSmuggleTaken()
    ensures Get([Header("x-smuggle-host", "example.com")], "x-smuggle-host") == Some("example.com")
    ensures Remove([Header("x-smuggle-host", "example.com")], "x-smuggle-host") == []
  {
    assert NameEq("x-smuggle-host", "x-smuggle-host");
  }

  lemma ExampleHostInserted()
    ensures Insert([], HostName, "example.com") == [Header("host", "example.com")]
  {
    assert Lower(HostName) == "host";
  }

  function ExampleHeaders(): seq<Header> {
    [Header("x-smuggle-host", "example.com"), Header("connection", "keep-alive")]
  }

  /** Stripping the example's headers drops `Connection` and keeps the smuggle header. */
  lemma ExampleStripped()
    ensures StripHopByHops(ExampleHeaders()) == [Header("x-smuggle-host", "example.com")]
  {
    var smuggle := Header("x-smuggle-host", "example.com");
    var conn := Header("connection", "keep-alive");
    var h := ExampleHeaders();
    assert NameEq(conn.name, HopByHops[0]);
    forall k | 0 <= k < |HopByHops|
      ensures !NameEq(smuggle.name, HopByHops[k])
    {
      assert Lower(smuggle.name)[0] != Lower(HopByHops[k])[0] || |smuggle.name| != |HopByHops[k]|;
    }
    assert MatchesAny(conn.name, HopByHops);
    assert !MatchesAny(smuggle.name, HopByHops);
    StripAllKeepsOthers(h, HopByHops);
    assert KeepOthers(h[1..], HopByHops) == [] by {
      assert h[1..][1..] == [];
    }
  }
}
