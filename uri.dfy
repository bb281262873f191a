/**
 * Request targets (the `http` crate's `Uri`) and their assembly from parts.
 * Only the three components the forwarder reads or writes are modelled; each
 * may be absent, as `Uri::scheme`, `Uri::authority` and `Uri::path_and_query`
 * return options.
 */
module Uris {
  import opened Wrappers

  datatype Uri = Uri(scheme: Option<string>, authority: Option<string>, pathAndQuery: Option<string>)

  /** `uri::Parts`; `Parts::default()` has every component absent. */
  datatype Parts = Parts(scheme: Option<string>, authority: Option<string>, pathAndQuery: Option<string>)

  const DefaultParts := Parts(None, None, None)

  /** The reasons `Uri::from_parts` gives for refusing a set of parts. */
  datatype InvalidUriParts = AuthorityMissing | PathAndQueryMissing | SchemeMissing

  /**
   * `Uri::from_parts`: a scheme needs both an authority and a path, and an
   * authority with a path needs a scheme; otherwise the parts are taken as
   * they are. The checks the component parsers already made are not repeated.
   */
  function FromParts(p: Parts): (r: Result<Uri, InvalidUriParts>)
    ensures r.Ok? <==> (p.scheme.Some? ==> p.authority.Some? && p.pathAndQuery.Some?)
                       && (p.scheme.None? ==> p.authority.None? || p.pathAndQuery.None?)
    ensures r.Ok? ==> r.value == Uri(p.scheme, p.authority, p.pathAndQuery)
  {
    if p.scheme.Some? && p.authority.None? then Err(AuthorityMissing)
    else if p.scheme.Some? && p.pathAndQuery.None? then Err(PathAndQueryMissing)
    else if p.scheme.None? && p.authority.Some? && p.pathAndQuery.Some? then Err(SchemeMissing)
    else Ok(Uri(p.scheme, p.authority, p.pathAndQuery))
  }
}
