/**
 * The three fields the monitor reads from a WHATWG `new URL(...)` object:
 * `protocol` (the scheme with its colon), `host` and `pathname`. The parser
 * below is a simplified stand-in for the WHATWG algorithm: it splits the
 * string at its scheme, authority and path, and fails when there is no
 * scheme, or a special scheme lacks `//` or a host. Its accepted set is not
 * the constructor's: it strips no leading or trailing spaces and controls,
 * removes no tabs or newlines, keeps the scheme's case, treats `\` as an
 * ordinary character, requires `//` after a special scheme (the constructor
 * accepts `http:host/path`), and checks no host code points or port (the
 * constructor rejects `http://cdn example/`).
 */
module Url {
  import opened Strings

  datatype UrlParts = UrlParts(protocol: string, host: string, pathname: string)

  predicate IsAlpha(ch: char) {
    ('a' <= ch <= 'z') || ('A' <= ch <= 'Z')
  }

  /** Scheme characters after the first (section 3.1 of RFC 3986). */
  predicate IsSchemeChar(ch: char) {
    IsAlpha(ch) || IsDigit(ch) || ch == '+' || ch == '-' || ch == '.'
  }

  /** A protocol as `URL.protocol` reports it: a scheme followed by one colon. */
  predicate IsProtocol(p: string) {
    && |p| >= 2
    && IsAlpha(p[0])
    && p[|p| - 1] == ':'
    && forall k :: 1 <= k < |p| - 1 ==> IsSchemeChar(p[k])
  }

  /** Schemes the WHATWG parser treats as special: they always have a host. */
  predicate IsSpecial(protocol: string) {
    protocol in {"http:", "https:", "ws:", "wss:", "ftp:"}
  }

  /** The longest prefix of `s` containing none of `stops`. */
  function TakeUntil(s: string, stops: set<char>): (r: string)
    ensures |r| <= |s| && r == s[..|r|]
    ensures forall k :: 0 <= k < |r| ==> r[k] !in stops
    ensures |r| < |s| ==> s[|r|] in stops
  {
    if s != [] && s[0] !in stops then [s[0]] + TakeUntil(s[1..], stops) else []
  }

  const HostStops: set<char> := {'/', '?', '#'}
  const PathStops: set<char> := {'?', '#'}

  /** What the parser guarantees about the parts it returns. */
  predicate WellFormed(u: UrlParts) {
    && IsProtocol(u.protocol)
    && (forall k :: 0 <= k < |u.host| ==> u.host[k] !in HostStops)
    && (forall k :: 0 <= k < |u.pathname| ==> u.pathname[k] !in PathStops)
    && (IsSpecial(u.protocol) ==> u.host != "" && StartsWith(u.pathname, "/"))
  }

  /**
   * `new URL(s)`: `None` where the constructor throws. Special schemes need
   * `//` and a non-empty host, and an empty path reads as `/`.
   */
  function ParseUrl(s: string): (r: Option<UrlParts>)
    ensures r.Some? ==> WellFormed(r.value)
  {
    var colon := IndexOf(s, ':');
    if colon < 1 || !IsProtocol(s[..colon + 1]) then None
    else
      var protocol := s[..colon + 1];
      var rest := s[colon + 1..];
      if StartsWith(rest, "//") then
        var host := TakeUntil(rest[2..], HostStops);
        var path := TakeUntil(rest[2 + |host|..], PathStops);
        if IsSpecial(protocol) && host == "" then None
        else if IsSpecial(protocol) && path == "" then Some(UrlParts(protocol, host, "/"))
        else if IsSpecial(protocol) && path[0] != '/' then None
        else Some(UrlParts(protocol, host, path))
      else if IsSpecial(protocol) then None
      else Some(UrlParts(protocol, "", TakeUntil(rest, PathStops)))
  }

  /**
   * Writing the parts of a parsed URL back as `protocol//host` followed by an
   * absolute path (no query, no fragment) and parsing that again gives the
   * same parts.
   */
  lemma ParseOfFormat(u: UrlParts, path: string)
    requires WellFormed(u)
    requires StartsWith(path, "/")
    requires forall k :: 0 <= k < |path| ==> path[k] !in PathStops
    ensures ParseUrl(u.protocol + "//" + u.host + path) == Some(UrlParts(u.protocol, u.host, path))
  {
    var rest := "//" + u.host + path;
    assert u.protocol + "//" + u.host + path == u.protocol + rest;
    ProtocolPrefix(u.protocol, rest);
    AuthorityParts(u.host, path);
    assert IsSpecial(u.protocol) ==> u.host != "";
    assert path != [] && path[0] == '/';
  }

  /** After `//`, a stop-free host and then an absolute, stop-free path read back as themselves. */
  lemma AuthorityParts(host: string, path: string)
    requires forall k :: 0 <= k < |host| ==> host[k] !in HostStops
    requires StartsWith(path, "/")
    requires forall k :: 0 <= k < |path| ==> path[k] !in PathStops
    ensures var rest := "//" + host + path;
      && StartsWith(rest, "//")
      && TakeUntil(rest[2..], HostStops) == host
      && TakeUntil(rest[2 + |host|..], PathStops) == path
  {
    var rest := "//" + host + path;
    assert rest[..2] == "//";
    assert rest[2..] == host + path;
    TakeUntilPrefix(host, path, HostStops);
    assert rest[2 + |host|..] == path;
    TakeUntilAll(path, PathStops);
  }

  /** The first colon of a string that starts with a protocol is the protocol's own. */
  lemma ProtocolPrefix(protocol: string, rest: string)
    requires IsProtocol(protocol)
    ensures IndexOf(protocol + rest, ':') == |protocol| - 1
    ensures (protocol + rest)[..|protocol|] == protocol
    ensures (protocol + rest)[|protocol|..] == rest
  {
    var s := protocol + rest;
    var n := |protocol|;
    forall k | 0 <= k < n - 1
      ensures s[k] != ':'
    {
      assert s[k] == protocol[k];
      if k > 0 {
        assert IsSchemeChar(protocol[k]);
      }
    }
    IndexOfAt(s, ':', n - 1);
  }

  /** A stop character right after a stop-free prefix ends the prefix there. */
  lemma {:induction false} TakeUntilPrefix(a: string, b: string, stops: set<char>)
    requires forall k :: 0 <= k < |a| ==> a[k] !in stops
    requires b != [] && b[0] in stops
    ensures TakeUntil(a + b, stops) == a
  {
    if a != [] {
      assert (a + b)[1..] == a[1..] + b;
      TakeUntilPrefix(a[1..], b, stops);
    }
  }

  lemma {:induction false} TakeUntilAll(a: string, stops: set<char>)
    requires forall k :: 0 <= k < |a| ==> a[k] !in stops
    ensures TakeUntil(a, stops) == a
  {
    if a != [] {
      TakeUntilAll(a[1..], stops);
    }
  }
}
