/** The parts of an HTTP request that the clients build (hyper's
    `Request<Body>`), as a value. */
module Http {
  import opened Primitives

  datatype Method = Get | Post

  datatype Header = Header(name: string, value: string)

  /** A request as it is handed to the transport: method (`verb`), target, the header
      list in the order it was added, and the body bytes. */
  datatype HttpRequest = HttpRequest(verb: Method, uri: string, headers: seq<Header>, body: seq<Byte>)

  /** Whether `str::parse::<Uri>` accepts a text. URI syntax is not part of
      this model: the builders take it as a parameter. */
  type UriCheck = string -> bool

  /** What `HeaderValue::from_str` accepts: every byte a visible ASCII
      character, a space, a tab, or part of a non-ASCII character. */
  predicate ValidHeaderValue(s: string) {
    forall i :: 0 <= i < |s| ==> (s[i] as int >= 0x20 && s[i] as int != 0x7F) || s[i] == '\t'
  }

  /** The panic of `.unwrap()` on a request builder that holds a bad header
      value, and of `.parse().unwrap()` on a bad URI. */
  const BadHeaderPanic: string := "called `Result::unwrap()` on an `Err` value: InvalidHeaderValue"
  const BadUriPanic: string := "called `Result::unwrap()` on an `Err` value: InvalidUri"

  /** `USER_AGENT` of both clients: the crate name and its version. */
  function UserAgent(crateVersion: string): (s: string)
    ensures |s| == 19 + |crateVersion|
    ensures s[..19] == "demo-gemini-client/" && s[19..] == crateVersion
  {
    "demo-gemini-client/" + crateVersion
  }
}
