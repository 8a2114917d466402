/**
 * The `filterSerializedResponseHeaders` option of src/hooks.server.ts:
 * SvelteKit drops every header of a server-side fetch response from the
 * serialized page unless this allow-list accepts its name.
 */
module ResponseHeaders {

  /** The two headers the backend client library needs on the client. */
  const AllowedHeaders: set<string> := {"content-range", "x-supabase-api-version"}

  /** Accepts a header name exactly when it is one of the allowed names,
      compared case-sensitively. */
  function FilterSerializedResponseHeaders(name: string): (pass: bool)
    ensures pass <==> name in AllowedHeaders
  {
    name == "content-range" || name == "x-supabase-api-version"
  }

  /** Exactly two names pass, and the comparison is exact: another spelling
      of an allowed name is dropped. */
  lemma {:induction false} AllowListIsExact()
    ensures |set n | n in AllowedHeaders && FilterSerializedResponseHeaders(n)| == 2
    ensures !FilterSerializedResponseHeaders("Content-Range")
    ensures !FilterSerializedResponseHeaders("content-range ")
  {
    assert (set n | n in AllowedHeaders && FilterSerializedResponseHeaders(n)) == AllowedHeaders;
    assert "content-range" != "x-supabase-api-version";
    assert "Content-Range"[0] != "content-range"[0];
  }
}
