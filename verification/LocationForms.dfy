/**
  Locations of each shape, and what the rules make of them, written out.
 */
module LocationForms {
  import opened Basics
  import opened Text
  import opened PercentEscapes
  import opened Location
  import opened LocationIdempotence
  import opened LocationIdentity

  // ----- URLs -------------------------------------------------------------------------------

  /** A URL as text. */
  function Web(scheme: string, authority: string, path: string): string {
    scheme + [':'] + (['/', '/'] + (authority + path))
  }

  /** A plain host name or address, and a path from the root. */
  predicate PlainHost(host: string, path: string) {
    && host != "" && Free(host, {':', '[', '@'} + AUTHORITY_END + REMOVED)
    && Rooted(path) && Free(path, {'?', '#'} + REMOVED)
  }

  lemma {:induction false} WebSplits(scheme: string, authority: string, path: string, accepts: string -> bool)
    requires IsHttp(scheme) && authority != "" && Free(authority, AUTHORITY_END + REMOVED) && accepts(authority)
    requires Rooted(path) && Free(path, {'?', '#'} + REMOVED)
    ensures HttpParts(Web(scheme, authority, path), accepts) == Some(Parts(scheme, authority, path, ""))
    ensures NormalizeUrl(Web(scheme, authority, path), accepts) ==
            Web(scheme, AuthoritySpec(authority, DefaultPort(scheme)), LowerEscapes(path))
  {
    var p := Parts(scheme, authority, path, "");
    HttpIsPlain(scheme);
    assert path + "" == path;
    Resplit(p, accepts);
    UrlTwice(Web(scheme, authority, path), accepts);
    FoldLength(path);
    var folded := LowerEscapes(path);
    assert folded + "" == folded;
  }

  lemma {:induction false} PortedHost(host: string, port: string, default: nat)
    requires host != "" && Free(host, {':', '[', '@'}) && (forall i | 0 <= i < |port| :: IsDigit(port[i]))
    ensures NormalizeHostPart(host, default) == Lower(host)
    ensures NormalizeHostPart(WithPort(host, port), default) ==
            if port == "" || DigitsValue(port) == default then Lower(host) else WithPort(Lower(host), port)
  {
    RPartitionNone(host, ':');
    RPartitionIs(host, ':', port);
    assert WithPort(host, port)[0] == host[0];
    assert Lower(host) + ([':'] + port) == WithPort(Lower(host), port);
    assert Lower(host) + "" == Lower(host);
  }

  lemma {:induction false} PortedAuthority(host: string, port: string, default: nat)
    requires host != "" && Free(host, {':', '[', '@'}) && (forall i | 0 <= i < |port| :: IsDigit(port[i]))
    ensures AuthoritySpec(host, default) == Lower(host)
    ensures AuthoritySpec(WithPort(host, port), default) ==
            if port == "" || DigitsValue(port) == default then Lower(host) else WithPort(Lower(host), port)
  {
    PortedHost(host, port, default);
    RPartitionNone(host, '@');
    RPartitionNone(WithPort(host, port), '@');
  }

  lemma {:induction false} WellKnownPorts()
    ensures DigitsValue("80") == 80 && DigitsValue("443") == 443
  {
    assert "80"[..1] == "8" && "8"[..0] == "" && DigitsValue("8") == 8;
    assert "443"[..2] == "44" && "44"[..1] == "4" && "4"[..0] == "" && DigitsValue("4") == 4 && DigitsValue("44") == 44;
  }

  /** A numeric port is left out exactly if it is empty, 80 of http or 443 of https; any other is kept
      and tells two endpoints apart. */
  lemma {:induction false} PortsByNumber(scheme: string, host: string, port: string, path: string,
                                         accepts: string -> bool)
    requires scheme in {"http", "https"} && PlainHost(host, path) && (forall i | 0 <= i < |port| :: IsDigit(port[i]))
    requires accepts(host) && accepts(WithPort(host, port))
    ensures var without := NormalizeUrl(Web(scheme, host, path), accepts);
      var ported := NormalizeUrl(Web(scheme, WithPort(host, port), path), accepts);
      && without == Web(scheme, Lower(host), LowerEscapes(path))
      && if port == "" || DigitsValue(port) == (if scheme == "http" then 80 else 443) then ported == without
         else ported == Web(scheme, WithPort(Lower(host), port), LowerEscapes(path)) != without
  {
    assert Free(WithPort(host, port), AUTHORITY_END + REMOVED);
    WebSplits(scheme, host, path, accepts);
    WebSplits(scheme, WithPort(host, port), path, accepts);
    PortedAuthority(host, port, DefaultPort(scheme));
    WebDiffers(scheme, Lower(host), WithPort(Lower(host), port), LowerEscapes(path));
  }

  lemma {:induction false} WebDiffers(scheme: string, a: string, b: string, path: string)
    requires |a| < |b|
    ensures Web(scheme, a, path) != Web(scheme, b, path)
  {
  }

  /** So `http://h:80/` is `http://h/` and `https://h:443/` is `https://h/`, and with the ports the other
      way round they are not. */
  lemma {:induction false} PortsByName(host: string, path: string, accepts: string -> bool)
    requires PlainHost(host, path) && accepts(host) && accepts(WithPort(host, "80")) && accepts(WithPort(host, "443"))
    ensures var form := (scheme, authority) => NormalizeUrl(Web(scheme, authority, path), accepts);
      && form("http", WithPort(host, "80")) == form("http", host)
      && form("https", WithPort(host, "443")) == form("https", host)
      && form("http", WithPort(host, "443")) != form("http", host)
      && form("https", WithPort(host, "80")) != form("https", host)
  {
    WellKnownPorts();
    PortsByNumber("http", host, "80", path, accepts);
    PortsByNumber("https", host, "443", path, accepts);
    PortsByNumber("http", host, "443", path, accepts);
    PortsByNumber("https", host, "80", path, accepts);
  }

  // ----- any http(s) URL --------------------------------------------------------------------

  function Suffix(c: char, text: Option<string>): string {
    if text.Some? then [c] + text.value else ""
  }

  /** A URL with its query and its fragment, where it has them. */
  function Address(scheme: string, authority: string, path: string, query: Option<string>, fragment: Option<string>)
    : string
  {
    scheme + [':'] + (['/', '/'] + (authority + (path + Suffix('?', query) + Suffix('#', fragment))))
  }

  lemma {:induction false} LeadingIsDropped(lead: string, url: string)
    requires (forall i | 0 <= i < |lead| :: lead[i] <= ' ') && url != "" && url[0] > ' '
    ensures DropLeading(lead + url) == url
  {
    if lead == "" {
      assert lead + url == url;
    } else {
      assert (lead + url)[1..] == lead[1..] + url;
      LeadingIsDropped(lead[1..], url);
    }
  }

  lemma {:induction false} AnyCaseOfHttp(scheme: string)
    requires Lower(scheme) in {"http", "https"}
    ensures SchemeText(scheme) && Lacks(scheme, ':') && Free(scheme, REMOVED) && scheme[0] > ' '
  {
    var l := Lower(scheme);
    forall i | 0 <= i < |scheme|
      ensures IsAlpha(scheme[i])
    {
      assert l[i] == ToLower(scheme[i]) && 'a' <= l[i] <= 'z';
    }
  }

  lemma {:induction false} TailSplits(scheme: string, authority: string, path: string, query: Option<string>,
                                      fragment: Option<string>)
    requires Free(path, {'?', '#'}) && Free(TextOr(query), {'#'})
    ensures SplitTail(scheme, authority, path + Suffix('?', query) + Suffix('#', fragment)) ==
            Parts(scheme, authority, path, TextOr(query))
  {
    var body := path + Suffix('?', query);
    assert Rejoin(path, '?', query) == body;
    assert Rejoin(body, '#', fragment) == body + Suffix('#', fragment);
    PartitionIs(body, '#', fragment);
    PartitionIs(path, '?', query);
  }

  /** The authority ends where path, query or fragment begin. */
  lemma {:induction false} RestSplits(scheme: string, authority: string, path: string, query: Option<string>,
                                      fragment: Option<string>, accepts: string -> bool)
    requires Free(authority, AUTHORITY_END) && accepts(authority)
    requires (path == "" || Rooted(path)) && Free(path, {'?', '#'}) && Free(TextOr(query), {'#'})
    ensures SplitRest(scheme, ['/', '/'] + (authority + (path + Suffix('?', query) + Suffix('#', fragment))), accepts)
            == Some(Parts(scheme, authority, path, TextOr(query)))
  {
    var tail := path + Suffix('?', query) + Suffix('#', fragment);
    var after := authority + tail;
    assert (['/', '/'] + after)[2..] == after;
    SpanJoin(authority, tail, AUTHORITY_END);
    assert after[..|authority|] == authority && after[|authority|..] == tail;
    TailSplits(scheme, authority, path, query, fragment);
  }

  lemma {:induction false} AddressIsFree(scheme: string, authority: string, path: string, query: Option<string>,
                                         fragment: Option<string>)
    requires Free(scheme, REMOVED) && Free(authority, REMOVED) && Free(path, REMOVED)
    requires Free(TextOr(query), REMOVED) && Free(TextOr(fragment), REMOVED)
    ensures Free(Address(scheme, authority, path, query, fragment), REMOVED)
  {
    var tail := path + Suffix('?', query) + Suffix('#', fragment);
    TailIsFree(path, query, fragment);
    JoinFree(authority, tail, REMOVED);
    JoinFree(['/', '/'], authority + tail, REMOVED);
    JoinFree(scheme, [':'], REMOVED);
    JoinFree(scheme + [':'], ['/', '/'] + (authority + tail), REMOVED);
  }

  /** Whatever stands before it that is no visible character, however its scheme is written, with or
      without query and fragment: how a URL is split. */
  lemma {:induction false} AddressSplits(lead: string, scheme: string, authority: string, path: string,
                                         query: Option<string>, fragment: Option<string>, accepts: string -> bool)
    requires (forall i | 0 <= i < |lead| :: lead[i] <= ' ') && Lower(scheme) in {"http", "https"}
    requires Free(authority, AUTHORITY_END + REMOVED) && authority != "" && accepts(authority)
    requires (path == "" || Rooted(path)) && Free(path, {'?', '#'} + REMOVED)
    requires Free(TextOr(query), {'#'} + REMOVED) && Free(TextOr(fragment), REMOVED)
    ensures HttpParts(lead + Address(scheme, authority, path, query, fragment), accepts) ==
            Some(Parts(Lower(scheme), authority, path, TextOr(query)))
  {
    var rest := ['/', '/'] + (authority + (path + Suffix('?', query) + Suffix('#', fragment)));
    var u := Address(scheme, authority, path, query, fragment);
    AnyCaseOfHttp(scheme);
    AddressIsFree(scheme, authority, path, query, fragment);
    LeadingIsDropped(lead, u);
    NothingRemoved(u);
    PartitionIs(scheme, ':', Some(rest));
    RestSplits(Lower(scheme), authority, path, query, fragment, accepts);
  }

  lemma {:induction false} TailIsFree(path: string, query: Option<string>, fragment: Option<string>)
    requires Free(path, REMOVED) && Free(TextOr(query), REMOVED) && Free(TextOr(fragment), REMOVED)
    ensures Free(path + Suffix('?', query) + Suffix('#', fragment), REMOVED)
  {
    JoinFree(['?'], TextOr(query), REMOVED);
    JoinFree(['#'], TextOr(fragment), REMOVED);
    JoinFree(path, Suffix('?', query), REMOVED);
    JoinFree(path + Suffix('?', query), Suffix('#', fragment), REMOVED);
  }

  /** And its form: the scheme folded, the authority by its own rule, the path from the root, escapes
      folded in path and query, an empty query and any fragment left out. */
  lemma {:induction false} UrlsAsWritten(lead: string, scheme: string, authority: string, path: string,
                                         query: Option<string>, fragment: Option<string>, accepts: string -> bool)
    requires (forall i | 0 <= i < |lead| :: lead[i] <= ' ') && Lower(scheme) in {"http", "https"}
    requires Free(authority, AUTHORITY_END + REMOVED) && authority != "" && accepts(authority)
    requires (path == "" || Rooted(path)) && Free(path, {'?', '#'} + REMOVED)
    requires Free(TextOr(query), {'#'} + REMOVED) && Free(TextOr(fragment), REMOVED)
    ensures NormalizeUrl(lead + Address(scheme, authority, path, query, fragment), accepts) ==
            Web(Lower(scheme), AuthoritySpec(authority, if Lower(scheme) == "http" then 80 else 443),
                (if path == "" then "/" else LowerEscapes(path))
                + (if TextOr(query) == "" then "" else ['?'] + LowerEscapes(query.value)))
  {
    AddressSplits(lead, scheme, authority, path, query, fragment, accepts);
    UrlTwice(lead + Address(scheme, authority, path, query, fragment), accepts);
    FoldLength(path);
    FoldLength(TextOr(query));
  }

  // ----- authorities ------------------------------------------------------------------------

  /** Credentials stay as they are, whatever they hold. */
  lemma {:induction false} CredentialsAreKept(user: string, host: string, default: nat)
    requires Lacks(host, '@')
    ensures AuthoritySpec(user + ['@'] + host, default) == user + ['@'] + NormalizeHostPart(host, default)
    ensures AuthoritySpec(host, default) == NormalizeHostPart(host, default)
  {
    RPartitionIs(user, '@', host);
    RPartitionNone(host, '@');
  }

  /** In brackets the host is folded, and a port after them, with or without its colon, is kept unless it
      is empty or the default. */
  lemma {:induction false} BracketsAsWritten(inside: string, port: string, default: nat)
    requires Lacks(inside, ']') && forall i | 0 <= i < |port| :: IsDigit(port[i])
    ensures var host := ['['] + inside + [']'];
      && NormalizeHostPart(host, default) == ['['] + Lower(inside) + [']']
      && NormalizeHostPart(host + [':'] + port, default) ==
         ['['] + Lower(inside) + [']'] + (if port == "" || DigitsValue(port) == default then "" else [':'] + port)
      && NormalizeHostPart(host + port, default) == NormalizeHostPart(host + [':'] + port, default)
  {
    var open := ['['] + inside;
    PartitionIs(open, ']', Some(""));
    PartitionIs(open, ']', Some([':'] + port));
    PartitionIs(open, ']', Some(port));
    assert open + [']'] + port == ['['] + inside + [']'] + port;
    assert open + [']'] + "" == ['['] + inside + [']'];
    assert open + [']'] + ([':'] + port) == ['['] + inside + [']'] + [':'] + port;
    assert Lower(open) == ['['] + Lower(inside);
  }

  // ----- host and port ----------------------------------------------------------------------

  /** Without a scheme only the host is folded: all before the first colon, or the brackets. */
  lemma {:induction false} HostPortsAsWritten(host: string, rest: string)
    ensures Lacks(host, ':') && !Bracketed(host) ==>
      && NormalizeHostPort(host) == Lower(host)
      && NormalizeHostPort(host + [':'] + rest) == Lower(host) + [':'] + rest
    ensures Lacks(host, ']') ==>
      && NormalizeHostPort(['['] + host) == ['['] + host
      && NormalizeHostPort(['['] + host + [']'] + rest) == ['['] + Lower(host) + [']'] + rest
  {
    if Lacks(host, ':') && !Bracketed(host) {
      PartitionIs(host, ':', None);
      PartitionIs(host, ':', Some(rest));
      assert (host + [':'] + rest)[0] == if host == "" then ':' else host[0];
    }
    if Lacks(host, ']') {
      PartitionIs(['['] + host, ']', None);
      PartitionIs(['['] + host, ']', Some(rest));
      assert Lower(['['] + host) == ['['] + Lower(host);
    }
  }

  // ----- source locations -------------------------------------------------------------------

  const WHITESPACE := {' ', '\t', '\n', 11 as char, 12 as char, '\r', 28 as char, 29 as char, 30 as char, 31 as char}

  /** `path:line` or `path:line:col`. */
  predicate SourceShape(path: string, line: string, col: Option<string>) {
    && Free(path, WHITESPACE + {':'}) && (exists i | 0 <= i < |path| :: path[i] == '/' || path[i] == '\\')
    && line != "" && (forall i | 0 <= i < |line| :: '0' <= line[i] <= '9')
    && (col.Some? ==> col.value != "" && forall i | 0 <= i < |col.value| :: '0' <= col.value[i] <= '9')
  }

  lemma {:induction false} WhitespaceIs(path: string)
    ensures NoSpace(path) <==> Free(path, WHITESPACE)
  {
    assert forall c: char :: IsSpace(c) <==> c in WHITESPACE;
  }

  lemma {:induction false} LineEndsInADigit(line: string, col: Option<string>)
    requires AllDigits(line) && (col.Some? ==> AllDigits(col.value))
    ensures var text := Rejoin(line, ':', col); text != "" && IsDigit(text[|text| - 1])
    ensures Lacks(line, ':')
  {
    var text := Rejoin(line, ':', col);
    if col.Some? {
      assert text[|text| - 1] == col.value[|col.value| - 1];
      assert IsDigit(col.value[|col.value| - 1]);
    } else {
      assert IsDigit(line[|line| - 1]);
    }
    assert forall i | 0 <= i < |line| :: IsDigit(line[i]);
  }

  lemma {:induction false} ShapeMatches(value: string, path: string, line: string, col: Option<string>)
    requires SourceShape(path, line, col)
    requires value == RenderSource(path, line, col) || value == RenderSource(path, line, col) + ['\n']
    ensures MatchSource(value) == Some(SourceRef(path, line, col))
  {
    var rest := Rejoin(line, ':', col);
    var text := path + [':'] + rest;
    assert text == RenderSource(path, line, col);
    WhitespaceIs(path);
    LineEndsInADigit(line, col);
    assert text[|text| - 1] == rest[|rest| - 1];
    assert Chomp(value) == text;
    PartitionIs(path, ':', Some(rest));
    PartitionIs(line, ':', col);
    assert HasSeparator(path);
  }

  lemma {:induction false} MatchHasShape(value: string)
    requires MatchSource(value).Some?
    ensures var m := MatchSource(value).value;
      && SourceShape(m.path, m.line, m.col)
      && (value == RenderSource(m.path, m.line, m.col) || value == RenderSource(m.path, m.line, m.col) + ['\n'])
  {
    var m := MatchSource(value).value;
    var (path, rest) := Partition(Chomp(value), ':');
    WhitespaceIs(path);
    PartitionSplits(Chomp(value), ':');
    PartitionSplits(rest.value, ':');
    assert forall i | 0 <= i < |m.line| :: IsDigit(m.line[i]);
    assert RenderSource(m.path, m.line, m.col) == Chomp(value);
    assert value == Chomp(value) || value == Chomp(value) + ['\n'];
  }

  /** A location is read as a source location exactly if it is one, up to a final line feed. */
  lemma {:induction false} SourcesAsWritten(value: string, path: string, line: string, col: Option<string>)
    ensures MatchSource(value) == Some(SourceRef(path, line, col)) <==>
      && SourceShape(path, line, col)
      && (value == RenderSource(path, line, col) || value == RenderSource(path, line, col) + ['\n'])
  {
    if MatchSource(value).Some? {
      MatchHasShape(value);
    }
    if SourceShape(path, line, col)
       && (value == RenderSource(path, line, col) || value == RenderSource(path, line, col) + ['\n']) {
      ShapeMatches(value, path, line, col);
    }
  }

  function Dots(n: nat): string {
    if n == 0 then "" else ['.', '/'] + Dots(n - 1)
  }

  /** What is stripped is every leading "./" and nothing else, after backslashes have become slashes. */
  lemma {:induction false} StripsDots(path: string) returns (n: nat)
    ensures path == Dots(n) + StripDotSlash(path)
    ensures var r := StripDotSlash(path); !(|r| >= 2 && r[0] == '.' && r[1] == '/')
  {
    n := 0;
    if |path| >= 2 && path[0] == '.' && path[1] == '/' {
      n := StripsDots(path[2..]);
      n := n + 1;
      assert path == ['.', '/'] + path[2..];
      assert Dots(n) + StripDotSlash(path) == ['.', '/'] + (Dots(n - 1) + StripDotSlash(path));
    } else {
      assert Dots(0) + StripDotSlash(path) == StripDotSlash(path);
    }
  }

  // ----- which rule -------------------------------------------------------------------------

  predicate SchemeMark(value: string, i: nat) {
    i + 3 <= |value| && value[i..i + 3] == [':', '/', '/']
  }

  /** A location with "://" goes by the rule of URLs, else one that is a source location by that rule, and
      any other is a host, with or without a port. */
  lemma {:induction false} RuleByShape(value: string, accepts: string -> bool)
    ensures (exists i: nat :: SchemeMark(value, i)) ==>
      NormalizeLocation(value, accepts) == NormalizeUrl(value, accepts)
    ensures (forall i: nat :: !SchemeMark(value, i)) ==>
      NormalizeLocation(value, accepts) ==
      match MatchSource(value)
      case Some(m) => RenderSource(StripDotSlash(Slashes(m.path)), m.line, m.col)
      case None => NormalizeHostPort(value)
  {
    if i: nat :| SchemeMark(value, i) {
      var mark := value[i..i + 3];
      assert value[i] == mark[0] && value[i + 1] == mark[1] && value[i + 2] == mark[2];
      assert SchemeEndsAt(value, i);
    } else if HasScheme(value) {
      var i :| 0 <= i <= |value| - 3 && SchemeEndsAt(value, i);
      assert SchemeMark(value, i);
    }
  }
}
