/**
  Normalisation of the location strings that finding fingerprints are built from.

  `accepts` is the check `urlsplit` makes of a bracketed authority, which differs between
  library versions; every result holds for any such check.
 */
module Location {
  import opened Basics
  import opened Text
  import opened PercentEscapes

  // ----- urlsplit and urlunsplit ------------------------------------------------------------

  /** A split URL; the fragment is never kept. */
  datatype Parts = Parts(scheme: string, netloc: string, path: string, query: string)

  const REMOVED := {'\t', '\r', '\n'}
  const AUTHORITY_END := {'/', '?', '#'}

  function DropLeading(s: string): string {
    if s != "" && s[0] <= ' ' then DropLeading(s[1..]) else s
  }

  function Remove(s: string): (r: string)
    ensures Free(r, REMOVED)
  {
    if s == "" then ""
    else if s[0] in REMOVED then Remove(s[1..])
    else [s[0]] + Remove(s[1..])
  }

  predicate IsAlpha(c: char) {
    'a' <= c <= 'z' || 'A' <= c <= 'Z'
  }

  predicate IsSchemeChar(c: char) {
    IsAlpha(c) || IsDigit(c) || c == '+' || c == '-' || c == '.'
  }

  predicate SchemeText(s: string) {
    s != "" && IsAlpha(s[0]) && forall i | 0 <= i < |s| :: IsSchemeChar(s[i])
  }

  function TextOr(t: Option<string>): string {
    if t.Some? then t.value else ""
  }

  function SplitTail(scheme: string, netloc: string, tail: string): Parts {
    var unfragmented := Partition(tail, '#').0;
    var (path, query) := Partition(unfragmented, '?');
    Parts(scheme, netloc, path, TextOr(query))
  }

  /** The part of `urlsplit` after the scheme; None where it raises ValueError. */
  function SplitRest(scheme: string, rest: string, accepts: string -> bool): Option<Parts> {
    if |rest| >= 2 && rest[0] == '/' && rest[1] == '/' then
      var after := rest[2..];
      var n := Span(after, AUTHORITY_END);
      if accepts(after[..n]) then Some(SplitTail(scheme, after[..n], after[n..])) else None
    else Some(SplitTail(scheme, "", rest))
  }

  function UrlSplit(url: string, accepts: string -> bool): Option<Parts> {
    var u := Remove(DropLeading(url));
    var (scheme, rest) := Partition(u, ':');
    if rest.Some? && SchemeText(scheme) then SplitRest(Lower(scheme), rest.value, accepts)
    else SplitRest("", u, accepts)
  }

  function QueryText(query: string): string {
    if query != "" then ['?'] + query else ""
  }

  predicate Rooted(path: string) {
    path != "" && path[0] == '/'
  }

  /** `urlunsplit` with an empty fragment, for a scheme in its list of hierarchical schemes. */
  function UrlUnsplit(p: Parts): string {
    var hierarchical :=
      if p.netloc != "" then
        ['/', '/'] + (p.netloc + (if p.path != "" && p.path[0] != '/' then ['/'] + p.path else p.path))
      else if p.path == "" || Rooted(p.path) then ['/', '/'] + p.path
      else p.path;
    p.scheme + ([':'] + (hierarchical + QueryText(p.query)))
  }

  // ----- the URL rules ----------------------------------------------------------------------

  predicate IsHttp(scheme: string) {
    scheme == "http" || scheme == "https"
  }

  function DefaultPort(scheme: string): nat {
    if scheme == "http" then 80 else 443
  }

  /** A port the rules leave out: none at all, or the scheme's default. */
  predicate Dropped(port: string, default: nat) {
    port == "" || (AllDigits(port) && DigitsValue(port) == default)
  }

  function PortSuffix(port: string, default: nat): string {
    if Dropped(port, default) then "" else [':'] + port
  }

  predicate Bracketed(hostport: string) {
    hostport != "" && hostport[0] == '['
  }

  /** After the closing bracket, a port with or without its colon. */
  function AfterBracket(rest: string): string {
    if rest != "" && rest[0] == ':' then rest[1..] else rest
  }

  function NormalizeHostPart(hostport: string, default: nat): string {
    if Bracketed(hostport) then
      match Partition(hostport, ']')
      case (_, None) => hostport
      case (host, Some(rest)) => Lower(host) + [']'] + PortSuffix(AfterBracket(rest), default)
    else
      var (host, port) := RPartition(hostport, ':');
      Lower(host) + PortSuffix(TextOr(port), default)
  }

  function AuthoritySpec(netloc: string, default: nat): string {
    match RPartition(netloc, '@')
    case (userinfo, Some(hostport)) => userinfo + ['@'] + NormalizeHostPart(hostport, default)
    case (hostport, None) => NormalizeHostPart(hostport, default)
  }

  /** The source's own statement sequence, rebinding its variables step by step. */
  method NormalizeAuthority(netloc: string, default: nat) returns (r: string)
    ensures r == AuthoritySpec(netloc, default)
  {
    var userinfo, hostport := "", netloc;
    var (head, tail) := RPartition(netloc, '@');
    RPartitionSplits(netloc, '@');
    if tail.Some? {
      userinfo, hostport := head, tail.value;
      userinfo := userinfo + ['@'];
    }
    var normalized := NormalizeHostAndPort(hostport, default);
    r := userinfo + normalized;
  }

  method NormalizeHostAndPort(hostport: string, default: nat) returns (r: string)
    ensures r == NormalizeHostPart(hostport, default)
  {
    var host, port := hostport, "";
    if Bracketed(hostport) {
      var (inside, rest) := Partition(hostport, ']');
      if rest.None? {
        return hostport;
      }
      host := Lower(inside) + [']'];
      port := if rest.value != "" && rest.value[0] == ':' then rest.value[1..] else rest.value;
    } else {
      var (head, tail) := RPartition(hostport, ':');
      if tail.Some? {
        host, port := head, tail.value;
      } else {
        RPartitionSplits(hostport, ':');
      }
      host := Lower(host);
    }
    assert NormalizeHostPart(hostport, default) == host + PortSuffix(port, default);
    if port != "" && AllDigits(port) && DigitsValue(port) == default {
      port := "";
    }
    r := host + (if port != "" then [':'] + port else "");
  }

  function PathOrRoot(path: string): string {
    if LowerEscapes(path) == "" then "/" else LowerEscapes(path)
  }

  function NormalizedParts(p: Parts): Parts {
    Parts(p.scheme, AuthoritySpec(p.netloc, DefaultPort(p.scheme)), PathOrRoot(p.path), LowerEscapes(p.query))
  }

  /** The parts the URL rules apply to; None for a value they return as it is. */
  function HttpParts(value: string, accepts: string -> bool): Option<Parts> {
    match UrlSplit(value, accepts)
    case Some(p) => if IsHttp(p.scheme) && p.netloc != "" then Some(p) else None
    case None => None
  }

  function NormalizeUrl(value: string, accepts: string -> bool): string {
    match HttpParts(value, accepts)
    case Some(p) => UrlUnsplit(NormalizedParts(p))
    case None => value
  }

  // ----- host:port --------------------------------------------------------------------------

  function NormalizeHostPort(value: string): string {
    if Bracketed(value) then
      match Partition(value, ']')
      case (_, None) => value
      case (host, Some(rest)) => Lower(host) + [']'] + rest
    else
      var (host, port) := Partition(value, ':');
      Rejoin(Lower(host), ':', port)
  }

  // ----- source-code locations --------------------------------------------------------------

  datatype SourceRef = SourceRef(path: string, line: string, col: Option<string>)

  predicate IsSpace(c: char) {
    '\t' <= c <= '\r' || 28 as char <= c <= ' '
  }

  predicate HasSeparator(s: string) {
    exists i | 0 <= i < |s| :: s[i] == '/' || s[i] == '\\'
  }

  predicate NoSpace(s: string) {
    forall i | 0 <= i < |s| :: !IsSpace(s[i])
  }

  function Chomp(value: string): string {
    if value != "" && value[|value| - 1] == '\n' then value[..|value| - 1] else value
  }

  /** The `line` or `line:col` part of the pattern. */
  function MatchLine(path: string, rest: string): Option<SourceRef> {
    var (line, col) := Partition(rest, ':');
    if AllDigits(line) && (col.Some? ==> AllDigits(col.value)) then Some(SourceRef(path, line, col)) else None
  }

  /** The source-location pattern; its `$` also matches before one final newline. */
  function MatchSource(value: string): Option<SourceRef> {
    var (path, rest) := Partition(Chomp(value), ':');
    if rest.Some? && NoSpace(path) && HasSeparator(path) then MatchLine(path, rest.value) else None
  }

  function Slashes(s: string): (r: string)
    ensures |r| == |s| && forall i | 0 <= i < |s| :: r[i] == if s[i] == '\\' then '/' else s[i]
  {
    seq(|s|, i requires 0 <= i < |s| => if s[i] == '\\' then '/' else s[i])
  }

  predicate DotSlash(path: string) {
    |path| >= 2 && path[0] == '.' && path[1] == '/'
  }

  function StripDotSlash(path: string): string {
    if DotSlash(path) then StripDotSlash(path[2..]) else path
  }

  function RenderSource(path: string, line: string, col: Option<string>): string {
    path + [':'] + Rejoin(line, ':', col)
  }

  function SourceSpec(value: string): string {
    match MatchSource(value)
    case Some(m) => RenderSource(StripDotSlash(Slashes(m.path)), m.line, m.col)
    case None => value
  }

  method NormalizeSourceLocation(value: string) returns (r: string)
    ensures r == SourceSpec(value)
  {
    var m := MatchSource(value);
    if m.None? {
      return value;
    }
    var path := Slashes(m.value.path);
    while DotSlash(path)
      invariant StripDotSlash(path) == StripDotSlash(Slashes(m.value.path))
      decreases |path|
    {
      path := path[2..];
    }
    r := RenderSource(path, m.value.line, m.value.col);
  }

  // ----- the entry point --------------------------------------------------------------------

  predicate HasScheme(value: string) {
    exists i | 0 <= i <= |value| - 3 :: SchemeEndsAt(value, i)
  }

  predicate SchemeEndsAt(value: string, i: nat)
    requires i <= |value| - 3
  {
    value[i] == ':' && value[i + 1] == '/' && value[i + 2] == '/'
  }

  function NormalizeLocation(value: string, accepts: string -> bool): string {
    if value == "" then value
    else if HasScheme(value) then NormalizeUrl(value, accepts)
    else if MatchSource(value).Some? then SourceSpec(value)
    else NormalizeHostPort(value)
  }
}
