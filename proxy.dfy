/** `FabricGitLocalHostProxySelector`: requests for the fabric git servlet are routed
    by the git proxy settings, every other request by the selector it replaced. */
module Proxy {
  import opened Wrappers
  import opened Text

  /** Requests whose path starts with this go through the proxy settings. */
  const GIT_FABRIC_PATH: string := "/git/fabric/"

  /** The delimiter between the patterns of the non-proxy hosts setting. */
  const NON_PROXY_DELIMITER: char := '|'

  /** The largest port `InetSocketAddress` accepts. */
  const MAX_PORT: int := 0xFFFF

  /** `Proxy.NO_PROXY` or an HTTP proxy at an unresolved address. */
  datatype Route = Direct | Http(host: string, port: int)

  /** The parts of a request URI the selector looks at; either may be undefined. */
  datatype Uri = Uri(host: Option<string>, path: Option<string>)

  /** The non-proxy patterns: the setting split on `|`, empty stretches skipped. */
  function Patterns(nonProxy: Option<string>): seq<string> {
    if nonProxy.Some? then Tokens(nonProxy.value, NON_PROXY_DELIMITER) else []
  }

  /** What `doSelect` answers, stated declaratively: a request to an undefined host
      fails as soon as there is a pattern to match it against; a host matching some
      pattern goes direct; otherwise it goes through the proxy host when one is set
      (which needs a valid port) and direct when none is. `matches` stands for
      `String.matches`. */
  function SelectFor(host: Option<string>, nonProxy: Option<string>, proxyHost: Option<string>, proxyPort: int,
                     matches: (string, string) -> bool): Result<seq<Route>, string>
  {
    var patterns := Patterns(nonProxy);
    if patterns != [] && host.None? then Failure("NullPointerException: no host")
    else if exists i :: 0 <= i < |patterns| && matches(host.value, patterns[i]) then Success([Direct])
    else if proxyHost.None? then Success([Direct])
    else if 0 <= proxyPort <= MAX_PORT then Success([Http(proxyHost.value, proxyPort)])
    else Failure("IllegalArgumentException: port out of range")
  }

  /** `doSelect`: tries the non-proxy patterns in order and goes direct on the first
      match; otherwise uses the proxy setting. */
  method DoSelect(host: Option<string>, nonProxy: Option<string>, proxyHost: Option<string>, proxyPort: int,
                  matches: (string, string) -> bool) returns (r: Result<seq<Route>, string>)
    ensures r == SelectFor(host, nonProxy, proxyHost, proxyPort, matches)
  {
    if nonProxy.Some? {
      var tokens := Tokens(nonProxy.value, NON_PROXY_DELIMITER);
      var i := 0;
      while i < |tokens|
        invariant 0 <= i <= |tokens|
        invariant i > 0 ==> host.Some?
        invariant host.Some? ==> forall j :: 0 <= j < i ==> !matches(host.value, tokens[j])
      {
        if host.None? {
          return Failure("NullPointerException: no host");
        }
        if matches(host.value, tokens[i]) {
          assert tokens == Patterns(nonProxy);
          return Success([Direct]);
        }
        i := i + 1;
      }
    }
    if proxyHost.Some? {
      if !(0 <= proxyPort <= MAX_PORT) {
        return Failure("IllegalArgumentException: port out of range");
      }
      return Success([Http(proxyHost.value, proxyPort)]);
    }
    return Success([Direct]);
  }

  /** `select`: requests for the fabric git servlet are routed by `doSelect`, all
      others by the previous selector `delegate`. */
  method Select(uri: Uri, nonProxy: Option<string>, proxyHost: Option<string>, proxyPort: int,
                matches: (string, string) -> bool, delegate: Uri -> seq<Route>) returns (r: Result<seq<Route>, string>)
    ensures uri.path.Some? && StartsWith(uri.path.value, GIT_FABRIC_PATH) ==>
      r == SelectFor(uri.host, nonProxy, proxyHost, proxyPort, matches)
    ensures !(uri.path.Some? && StartsWith(uri.path.value, GIT_FABRIC_PATH)) ==> r == Success(delegate(uri))
  {
    if uri.path.Some? && StartsWith(uri.path.value, GIT_FABRIC_PATH) {
      r := DoSelect(uri.host, nonProxy, proxyHost, proxyPort, matches);
    } else {
      r := Success(delegate(uri));
    }
  }

  /** A host named by a non-proxy pattern is reached directly, whatever the proxy
      setting; with no proxy host set, every host that can be matched at all is. */
  lemma NonProxyHostsGoDirect(host: string, nonProxy: Option<string>, proxyHost: Option<string>, proxyPort: int,
                              matches: (string, string) -> bool)
    ensures (exists t :: t in Patterns(nonProxy) && matches(host, t)) ==>
      SelectFor(Some(host), nonProxy, proxyHost, proxyPort, matches) == Success([Direct])
    ensures proxyHost.None? ==> SelectFor(Some(host), nonProxy, proxyHost, proxyPort, matches) == Success([Direct])
  {
    var patterns := Patterns(nonProxy);
    if t :| t in patterns && matches(host, t) {
      var i :| 0 <= i < |patterns| && patterns[i] == t;
    }
  }

  /** The proxy is used exactly when a proxy host is set, the port is valid and no
      pattern matches; the route then names that host and port. */
  lemma ProxiedExactly(host: string, nonProxy: Option<string>, proxyHost: Option<string>, proxyPort: int,
                       matches: (string, string) -> bool)
    ensures var r := SelectFor(Some(host), nonProxy, proxyHost, proxyPort, matches);
      (r.Success? && r.value != [Direct]) <==>
        (proxyHost.Some? && 0 <= proxyPort <= MAX_PORT && forall t :: t in Patterns(nonProxy) ==> !matches(host, t))
    ensures var r := SelectFor(Some(host), nonProxy, proxyHost, proxyPort, matches);
      r.Success? && r.value != [Direct] ==> r.value == [Http(proxyHost.value, proxyPort)]
  {
    var patterns := Patterns(nonProxy);
    if t :| t in patterns && matches(host, t) {
      var i :| 0 <= i < |patterns| && patterns[i] == t;
    }
  }

  /** Blank stretches between delimiters are skipped: `a||b` and `a|b` route alike. */
  lemma EmptyPatternsSkipped(host: Option<string>, a: string, b: string, proxyHost: Option<string>, proxyPort: int,
                             matches: (string, string) -> bool)
    requires a != "" && b != "" && NON_PROXY_DELIMITER !in a && NON_PROXY_DELIMITER !in b
    ensures SelectFor(host, Some(a + "||" + b), proxyHost, proxyPort, matches)
         == SelectFor(host, Some(a + "|" + b), proxyHost, proxyPort, matches)
  {
    PatternsOfDoubled(a, b);
    PatternsOfSingle(a, b);
  }

  lemma PatternsOfDoubled(a: string, b: string)
    requires a != "" && b != "" && NON_PROXY_DELIMITER !in a && NON_PROXY_DELIMITER !in b
    ensures Patterns(Some(a + "||" + b)) == [a, b]
  {
    var d := NON_PROXY_DELIMITER;
    assert Join([a, "", b], d) == a + "||" + b by {
      assert [a, "", b][1..] == ["", b] && ["", b][1..] == [b];
      assert Join([b], d) == b;
      assert Join(["", b], d) == [d] + b;
      assert Join([a, "", b], d) == a + [d] + ([d] + b);
    }
    PiecesOfJoin([a, "", b], d);
    assert NonEmpty([a, "", b]) == [a, b] by {
      assert [a, "", b][1..] == ["", b] && ["", b][1..] == [b] && [b][1..] == [];
      assert NonEmpty([b]) == [b] + NonEmpty([]);
      assert NonEmpty(["", b]) == [] + NonEmpty([b]);
      assert NonEmpty([a, "", b]) == [a] + NonEmpty(["", b]);
    }
  }

  lemma PatternsOfSingle(a: string, b: string)
    requires a != "" && b != "" && NON_PROXY_DELIMITER !in a && NON_PROXY_DELIMITER !in b
    ensures Patterns(Some(a + "|" + b)) == [a, b]
  {
    var d := NON_PROXY_DELIMITER;
    assert Join([a, b], d) == a + "|" + b by {
      assert [a, b][1..] == [b];
    }
    TokensOfJoin([a, b], d);
  }
}
