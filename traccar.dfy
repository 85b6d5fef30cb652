/** `TraccarExporter`: the connection settings for one tracking server. Only
    the constructor is modelled; the HTTP calls are not. */
module Traccar {

  /** `s.rstrip('/')`. */
  function TrimTrailingSlashes(s: string): (r: string)
    ensures r <= s
    ensures r == [] || r[|r| - 1] != '/'
    ensures forall k :: |r| <= k < |s| ==> s[k] == '/'
  {
    if |s| > 0 && s[|s| - 1] == '/' then TrimTrailingSlashes(s[..|s| - 1]) else s
  }

  /** The trimmed URL is the only prefix of `s` that does not end in '/' and is
      followed in `s` by slashes alone: `rstrip` removes every trailing slash,
      and nothing else. */
  lemma TrimUnique(s: string, a: string)
    requires a <= s
    requires a == [] || a[|a| - 1] != '/'
    requires forall k :: |a| <= k < |s| ==> s[k] == '/'
    ensures TrimTrailingSlashes(s) == a
  {
  }

  /** Trimming twice is trimming once. */
  lemma TrimIdempotent(s: string)
    ensures TrimTrailingSlashes(TrimTrailingSlashes(s)) == TrimTrailingSlashes(s)
  {
    var r := TrimTrailingSlashes(s);
    TrimUnique(r, r);
  }

  /** Appending slashes to a URL does not change it once trimmed, so
      "https://host", "https://host/" and "https://host//" are one server. */
  lemma TrimIgnoresAddedSlashes(s: string, slashes: string)
    requires forall k :: 0 <= k < |slashes| ==> slashes[k] == '/'
    ensures TrimTrailingSlashes(s + slashes) == TrimTrailingSlashes(s)
  {
    var r := TrimTrailingSlashes(s);
    assert r <= s + slashes;
    forall k | |r| <= k < |s + slashes|
      ensures (s + slashes)[k] == '/'
    {
      if k >= |s| {
        assert (s + slashes)[k] == slashes[k - |s|];
      }
    }
    TrimUnique(s + slashes, r);
  }

  class TraccarExporter {
    var serverUrl: string
    var email: string
    var password: string

    /** The stored server URL has every trailing '/' removed, so request paths
        appended to it start with exactly one '/'. */
    constructor (serverUrl: string, email: string, password: string)
      ensures this.serverUrl == TrimTrailingSlashes(serverUrl)
      ensures this.serverUrl == [] || this.serverUrl[|this.serverUrl| - 1] != '/'
      ensures this.email == email && this.password == password
    {
      this.serverUrl := TrimTrailingSlashes(serverUrl);
      this.email := email;
      this.password := password;
    }
  }
}
