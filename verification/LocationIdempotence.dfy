/**
  When is normalising a URL twice the same as normalising it once?
 */
module LocationIdempotence {
  import opened Basics
  import opened Text
  import opened PercentEscapes
  import opened Location

  // ----- the host part ----------------------------------------------------------------------

  /** Ends in a colon and a port the rules leave out. */
  predicate EndsDropped(hostport: string, default: nat) {
    var port := RPartition(hostport, ':').1;
    port.Some? && Dropped(port.value, default)
  }

  /** The last two colon-separated fields of an unbracketed host part are both left out by the
      rules, so that each pass removes one of them: `h:443:443`, `h::443`, `h::`. */
  predicate TwoPortsDropped(hostport: string, default: nat) {
    && !Bracketed(hostport)
    && EndsDropped(hostport, default)
    && EndsDropped(RPartition(hostport, ':').0, default)
  }

  lemma {:induction false} EndsDroppedLower(hp: string, default: nat)
    ensures EndsDropped(Lower(hp), default) <==> EndsDropped(hp, default)
  {
    RPartitionLower(hp, ':');
    var port := RPartition(hp, ':').1;
    if port.Some? {
      LowerDigits(port.value);
    }
  }

  lemma {:induction false} HeadBracket(hp: string)
    requires !Bracketed(hp)
    ensures !Bracketed(RPartition(hp, ':').0) && !Bracketed(Lower(hp))
  {
    RPartitionSplits(hp, ':');
    var (host, port) := RPartition(hp, ':');
    if host != "" {
      assert host[0] == hp[0];
    }
  }

  /** A folded, unbracketed host part is left alone exactly when it has no port to drop. */
  lemma {:induction false} FoldedIsFixed(hp: string, default: nat)
    requires !Bracketed(hp) && Lower(hp) == hp
    ensures NormalizeHostPart(hp, default) == hp <==> !EndsDropped(hp, default)
  {
    RPartitionSplits(hp, ':');
    RPartitionLower(hp, ':');
    var (host, port) := RPartition(hp, ':');
    if port.Some? {
      assert hp == host + ([':'] + port.value);
    }
  }

  lemma {:induction false} KeptPortIsFixed(host: string, port: string, default: nat)
    requires !Dropped(port, default) && Lacks(port, ':') && !Bracketed(host) && Lower(host) == host
    ensures NormalizeHostPart(host + ([':'] + port), default) == host + ([':'] + port)
  {
    var r := host + [':'] + port;
    assert r == host + ([':'] + port);
    RPartitionIs(host, ':', port);
    assert r[0] == if host == "" then ':' else host[0];
  }

  lemma {:induction false} DroppedPortCase(hp: string, default: nat)
    requires !Bracketed(hp) && Dropped(TextOr(RPartition(hp, ':').1), default)
    ensures var r := NormalizeHostPart(hp, default);
            NormalizeHostPart(r, default) == r <==> !TwoPortsDropped(hp, default)
  {
    var (host, port) := RPartition(hp, ':');
    assert NormalizeHostPart(hp, default) == Lower(host);
    HeadBracket(hp);
    HeadBracket(host);
    LowerTwice(host);
    FoldedIsFixed(Lower(host), default);
    EndsDroppedLower(host, default);
    RPartitionSplits(hp, ':');
    if port.None? {
      RPartitionNone(hp, ':');
    }
  }

  lemma {:induction false} KeptPortCase(hp: string, default: nat)
    requires !Bracketed(hp) && !Dropped(TextOr(RPartition(hp, ':').1), default)
    ensures var r := NormalizeHostPart(hp, default); NormalizeHostPart(r, default) == r
  {
    var (host, port) := RPartition(hp, ':');
    HeadBracket(hp);
    HeadBracket(host);
    RPartitionSplits(hp, ':');
    LowerTwice(host);
    KeptPortIsFixed(Lower(host), port.value, default);
  }

  lemma {:induction false} BracketedIdempotent(hp: string, default: nat)
    requires Bracketed(hp)
    ensures var r := NormalizeHostPart(hp, default); NormalizeHostPart(r, default) == r
  {
    var (host, rest) := Partition(hp, ']');
    PartitionSplits(hp, ']');
    if rest.Some? {
      var suffix := PortSuffix(AfterBracket(rest.value), default);
      var r := Lower(host) + [']'] + suffix;
      PartitionIs(Lower(host), ']', Some(suffix));
      LowerTwice(host);
      assert host != "" && r[0] == ToLower(hp[0]);
    }
  }

  lemma {:induction false} HostPartIdempotent(hp: string, default: nat)
    ensures var r := NormalizeHostPart(hp, default);
            NormalizeHostPart(r, default) == r <==> !TwoPortsDropped(hp, default)
  {
    if Bracketed(hp) {
      BracketedIdempotent(hp, default);
    } else {
      if Dropped(TextOr(RPartition(hp, ':').1), default) {
        DroppedPortCase(hp, default);
      } else {
        KeptPortCase(hp, default);
      }
    }
  }

  // ----- characters a rule cannot introduce -------------------------------------------------

  predicate Inert(stops: set<char>) {
    ':' !in stops && ']' !in stops && forall c | c in stops :: CaseFree(c)
  }

  lemma {:induction false} LowerFree(s: string, stops: set<char>)
    requires Free(s, stops) && Inert(stops)
    ensures Free(Lower(s), stops)
  {
    forall i | 0 <= i < |s|
      ensures Lower(s)[i] !in stops
    {
      assert s[i] !in stops;
    }
  }

  lemma {:induction false} PiecesFree(head: string, c: char, tail: Option<string>, stops: set<char>)
    requires Free(Rejoin(head, c, tail), stops)
    ensures Free(head, stops) && Free(TextOr(tail), stops)
  {
    var s := Rejoin(head, c, tail);
    assert forall i | 0 <= i < |head| :: s[i] == head[i];
    if tail.Some? {
      assert forall i | 0 <= i < |tail.value| :: s[|head| + 1 + i] == tail.value[i];
    }
  }

  lemma {:induction false} JoinFree(a: string, b: string, stops: set<char>)
    ensures Free(a + b, stops) <==> Free(a, stops) && Free(b, stops)
  {
    assert forall i | 0 <= i < |a| :: (a + b)[i] == a[i];
    assert forall i | 0 <= i < |b| :: (a + b)[|a| + i] == b[i];
  }

  lemma {:induction false} SuffixFree(port: string, default: nat, stops: set<char>)
    requires Free(port, stops) && Inert(stops)
    ensures Free(PortSuffix(port, default), stops)
  {
    JoinFree([':'], port, stops);
  }

  lemma {:induction false} HostPartFree(hp: string, default: nat, stops: set<char>)
    requires Free(hp, stops) && Inert(stops)
    ensures Free(NormalizeHostPart(hp, default), stops)
  {
    if Bracketed(hp) {
      var (host, rest) := Partition(hp, ']');
      PartitionSplits(hp, ']');
      PiecesFree(host, ']', rest, stops);
      LowerFree(host, stops);
      if rest.Some? {
        SuffixFree(AfterBracket(rest.value), default, stops);
        JoinFree(Lower(host), [']'], stops);
        JoinFree(Lower(host) + [']'], PortSuffix(AfterBracket(rest.value), default), stops);
      }
    } else {
      var (host, port) := RPartition(hp, ':');
      RPartitionSplits(hp, ':');
      PiecesFree(host, ':', port, stops);
      LowerFree(host, stops);
      SuffixFree(TextOr(port), default, stops);
      JoinFree(Lower(host), PortSuffix(TextOr(port), default), stops);
    }
  }

  lemma {:induction false} FreeLacks(s: string, c: char)
    ensures Free(s, {c}) <==> Lacks(s, c)
  {
  }

  lemma {:induction false} AuthorityFree(netloc: string, default: nat, stops: set<char>)
    requires Free(netloc, stops) && Inert(stops) && '@' !in stops
    ensures Free(AuthoritySpec(netloc, default), stops)
  {
    var (userinfo, hostport) := RPartition(netloc, '@');
    RPartitionSplits(netloc, '@');
    PiecesFree(userinfo, '@', hostport, stops);
    HostPartFree(HostPart(netloc), default, stops);
  }

  // ----- the authority ----------------------------------------------------------------------

  function HostPart(netloc: string): string {
    match RPartition(netloc, '@')
    case (_, Some(hostport)) => hostport
    case (hostport, None) => hostport
  }

  function UserInfo(netloc: string): Option<string> {
    match RPartition(netloc, '@')
    case (userinfo, Some(_)) => Some(userinfo)
    case (_, None) => None
  }

  lemma {:induction false} AuthorityParts(netloc: string, default: nat)
    ensures var n := AuthoritySpec(netloc, default);
            UserInfo(n) == UserInfo(netloc) && HostPart(n) == NormalizeHostPart(HostPart(netloc), default)
  {
    RPartitionSplits(netloc, '@');
    var r := NormalizeHostPart(HostPart(netloc), default);
    FreeLacks(HostPart(netloc), '@');
    HostPartFree(HostPart(netloc), default, {'@'});
    FreeLacks(r, '@');
    match UserInfo(netloc)
    case Some(u) => RPartitionIs(u, '@', r);
    case None => RPartitionNone(r, '@');
  }

  lemma {:induction false} AuthorityIdempotent(netloc: string, default: nat)
    ensures var n := AuthoritySpec(netloc, default);
            AuthoritySpec(n, default) == n <==> !TwoPortsDropped(HostPart(netloc), default)
  {
    AuthorityParts(netloc, default);
    HostPartIdempotent(HostPart(netloc), default);
    match UserInfo(netloc)
    case Some(u) => SameTail(u + ['@'], NormalizeHostPart(HostPart(AuthoritySpec(netloc, default)), default),
                             HostPart(AuthoritySpec(netloc, default)));
    case None =>
  }

  lemma {:induction false} SameTail(head: string, a: string, b: string)
    ensures head + a == head + b <==> a == b
  {
    if head + a == head + b {
      assert a == (head + a)[|head|..] && b == (head + b)[|head|..];
    }
  }

  // ----- splitting a URL the rules have put together ----------------------------------------

  /** What the parts of a split http(s) URL look like. */
  predicate WellSplit(p: Parts) {
    && Free(p.netloc, AUTHORITY_END + REMOVED)
    && Free(p.path, {'?', '#'} + REMOVED) && (p.path == "" || Rooted(p.path))
    && Free(p.query, {'#'} + REMOVED)
  }

  lemma {:induction false} TailFacts(scheme: string, netloc: string, tail: string)
    requires Free(netloc, AUTHORITY_END + REMOVED) && Free(tail, REMOVED)
    requires tail == "" || tail[0] in AUTHORITY_END
    ensures WellSplit(SplitTail(scheme, netloc, tail))
  {
    var (body, fragment) := Partition(tail, '#');
    PartitionSplits(tail, '#');
    PiecesFree(body, '#', fragment, REMOVED);
    FreeLacks(body, '#');
    var (path, query) := Partition(body, '?');
    PartitionSplits(body, '?');
    PiecesFree(path, '?', query, REMOVED);
    PiecesFree(path, '?', query, {'#'});
    FreeLacks(path, '?');
    if path != "" {
      assert path[0] == body[0] == tail[0];
    }
  }

  lemma {:induction false} RestFacts(scheme: string, rest: string, accepts: string -> bool)
    requires Free(rest, REMOVED)
    ensures var p := SplitRest(scheme, rest, accepts);
            p.Some? && p.value.netloc != "" ==> WellSplit(p.value) && accepts(p.value.netloc)
  {
    if |rest| >= 2 && rest[0] == '/' && rest[1] == '/' {
      var after := rest[2..];
      var n := Span(after, AUTHORITY_END);
      SpanStops(after, AUTHORITY_END);
      TailFacts(scheme, after[..n], after[n..]);
    }
  }

  lemma {:induction false} SplitFacts(url: string, accepts: string -> bool)
    requires HttpParts(url, accepts).Some?
    ensures WellSplit(HttpParts(url, accepts).value)
  {
    var u := Remove(DropLeading(url));
    var (scheme, rest) := Partition(u, ':');
    PartitionSplits(u, ':');
    PiecesFree(scheme, ':', rest, REMOVED);
    RestFacts("", u, accepts);
    if rest.Some? {
      RestFacts(Lower(scheme), rest.value, accepts);
    }
  }

  /** A scheme `urlsplit` finds again at the head of a URL. */
  predicate PlainScheme(scheme: string) {
    SchemeText(scheme) && Lower(scheme) == scheme
  }

  lemma {:induction false} HttpIsPlain(scheme: string)
    requires IsHttp(scheme)
    ensures PlainScheme(scheme)
  {
  }

  function Assembled(p: Parts): string {
    p.scheme + [':'] + AfterScheme(p)
  }

  function AfterScheme(p: Parts): string {
    ['/', '/'] + (p.netloc + (p.path + QueryText(p.query)))
  }

  lemma {:induction false} UnsplitIsAssembled(p: Parts)
    requires Rooted(p.path)
    ensures UrlUnsplit(p) == Assembled(p)
  {
    var q := QueryText(p.query);
    if p.netloc != "" {
      assert ['/', '/'] + (p.netloc + p.path) + q == ['/', '/'] + (p.netloc + (p.path + q));
      assert UrlUnsplit(p) == p.scheme + ([':'] + AfterScheme(p));
    } else {
      EmptyNetloc(p);
    }
  }

  lemma {:induction false} EmptyNetloc(p: Parts)
    requires Rooted(p.path) && p.netloc == ""
    ensures UrlUnsplit(p) == Assembled(p)
  {
    var q := QueryText(p.query);
    assert AfterScheme(p) == ['/', '/'] + p.path + q;
    assert p.scheme + ([':'] + AfterScheme(p)) == p.scheme + [':'] + AfterScheme(p);
  }

  lemma {:induction false} NothingRemoved(s: string)
    requires Free(s, REMOVED)
    ensures Remove(s) == s
  {
    if s != "" {
      NothingRemoved(s[1..]);
    }
  }

  lemma {:induction false} ResplitTail(scheme: string, netloc: string, path: string, query: string)
    requires Free(path, {'?', '#'}) && Free(query, {'#'})
    ensures SplitTail(scheme, netloc, path + QueryText(query)) == Parts(scheme, netloc, path, query)
  {
    var tail := path + QueryText(query);
    PartitionIs(tail, '#', None);
    PartitionIs(path, '?', if query != "" then Some(query) else None);
    if query != "" {
      assert tail == path + ['?'] + query;
    } else {
      assert tail == path;
    }
  }

  lemma {:induction false} ResplitRest(p: Parts, accepts: string -> bool)
    requires WellSplit(p) && Rooted(p.path)
    ensures SplitRest(p.scheme, AfterScheme(p), accepts) == if accepts(p.netloc) then Some(p) else None
  {
    var tail := p.path + QueryText(p.query);
    var after := p.netloc + tail;
    assert AfterScheme(p)[2..] == after;
    SpanJoin(p.netloc, tail, AUTHORITY_END);
    assert after[..|p.netloc|] == p.netloc && after[|p.netloc|..] == tail;
    ResplitTail(p.scheme, p.netloc, p.path, p.query);
  }

  lemma {:induction false} AssembledFree(p: Parts)
    requires PlainScheme(p.scheme) && WellSplit(p)
    ensures Free(Assembled(p), REMOVED) && Assembled(p)[0] > ' '
  {
    assert forall i | 0 <= i < |p.scheme| :: IsSchemeChar(p.scheme[i]);
    assert Free(p.scheme, REMOVED) && Free(AfterScheme(p), REMOVED);
    assert Assembled(p)[0] == p.scheme[0];
  }

  lemma {:induction false} Resplit(p: Parts, accepts: string -> bool)
    requires PlainScheme(p.scheme) && WellSplit(p) && Rooted(p.path)
    ensures UrlSplit(Assembled(p), accepts) == if accepts(p.netloc) then Some(p) else None
  {
    AssembledFree(p);
    NothingRemoved(Assembled(p));
    assert Lacks(p.scheme, ':') by {
      assert forall i | 0 <= i < |p.scheme| :: IsSchemeChar(p.scheme[i]);
    }
    PartitionIs(p.scheme, ':', Some(AfterScheme(p)));
    ResplitRest(p, accepts);
  }

  lemma {:induction false} NormalizedIsWellSplit(p: Parts)
    requires WellSplit(p)
    ensures WellSplit(NormalizedParts(p)) && Rooted(NormalizedParts(p).path)
  {
    AuthorityFree(p.netloc, DefaultPort(p.scheme), AUTHORITY_END + REMOVED);
    FoldFree(p.path, {'?', '#'} + REMOVED);
    FoldFree(p.query, {'#'} + REMOVED);
    FoldLength(p.path);
    if p.path != "" {
      FoldKeepsHead(p.path);
    }
  }

  /** Normalising normalised parts changes at most the authority. */
  lemma {:induction false} NormalizedTwice(p: Parts)
    ensures NormalizedParts(NormalizedParts(p)) ==
            NormalizedParts(p).(netloc := AuthoritySpec(NormalizedParts(p).netloc, DefaultPort(p.scheme)))
  {
    FoldIdempotent(p.path);
    FoldIdempotent(p.query);
    FoldLength(p.path);
    NothingToFold("/");
  }

  /** What normalising a normalised http(s) URL does. */
  lemma {:induction false} UrlTwice(value: string, accepts: string -> bool)
    requires HttpParts(value, accepts).Some?
    ensures var p := HttpParts(value, accepts).value;
            var np := NormalizedParts(p);
            && NormalizeUrl(value, accepts) == Assembled(np)
            && NormalizeUrl(Assembled(np), accepts) ==
                 if np.netloc != "" && accepts(np.netloc)
                 then Assembled(np.(netloc := AuthoritySpec(np.netloc, DefaultPort(p.scheme))))
                 else Assembled(np)
  {
    SplitFacts(value, accepts);
    var p := HttpParts(value, accepts).value;
    var np := NormalizedParts(p);
    NormalizedIsWellSplit(p);
    UnsplitIsAssembled(np);
    HttpIsPlain(p.scheme);
    Resplit(np, accepts);
    NormalizedTwice(p);
    NormalizedIsWellSplit(np);
    UnsplitIsAssembled(NormalizedParts(np));
  }

  // ----- the exact domain -------------------------------------------------------------------

  /** The URLs on which a second pass finds a second port to drop. */
  predicate UrlUnsettled(value: string, accepts: string -> bool) {
    var p := HttpParts(value, accepts);
    && p.Some?
    && TwoPortsDropped(HostPart(p.value.netloc), DefaultPort(p.value.scheme))
    && accepts(AuthoritySpec(p.value.netloc, DefaultPort(p.value.scheme)))
  }

  lemma {:induction false} TwoPortsLeaveAColon(netloc: string, default: nat)
    requires TwoPortsDropped(HostPart(netloc), default)
    ensures AuthoritySpec(netloc, default) != ""
  {
    var hp := HostPart(netloc);
    RPartitionSplits(RPartition(hp, ':').0, ':');
    assert NormalizeHostPart(hp, default) == Lower(RPartition(hp, ':').0);
  }

  lemma {:induction false} SameAuthority(p: Parts, netloc: string)
    ensures Assembled(p.(netloc := netloc)) == Assembled(p) <==> netloc == p.netloc
  {
    var a, b := Assembled(p.(netloc := netloc)), Assembled(p);
    if a == b {
      var n := |p.scheme| + 3;
      assert |netloc| == |p.netloc|;
      assert netloc == a[n..n + |netloc|];
      assert p.netloc == b[n..n + |netloc|];
    }
  }

  /** A second pass changes the authority exactly when it has a second port to drop. */
  lemma {:induction false} SecondPass(p: Parts, accepted: bool)
    ensures var np := NormalizedParts(p);
            (np.netloc != "" && accepted
             ==> Assembled(np.(netloc := AuthoritySpec(np.netloc, DefaultPort(p.scheme)))) == Assembled(np))
            <==> !(TwoPortsDropped(HostPart(p.netloc), DefaultPort(p.scheme)) && accepted)
  {
    var np := NormalizedParts(p);
    AuthorityIdempotent(p.netloc, DefaultPort(p.scheme));
    SameAuthority(np, AuthoritySpec(np.netloc, DefaultPort(p.scheme)));
    if TwoPortsDropped(HostPart(p.netloc), DefaultPort(p.scheme)) {
      TwoPortsLeaveAColon(p.netloc, DefaultPort(p.scheme));
    }
  }

  lemma {:induction false} UrlIdempotent(value: string, accepts: string -> bool)
    ensures var out := NormalizeUrl(value, accepts);
            NormalizeUrl(out, accepts) == out <==> !UrlUnsettled(value, accepts)
  {
    if HttpParts(value, accepts).Some? {
      UrlTwice(value, accepts);
      var p := HttpParts(value, accepts).value;
      SecondPass(p, accepts(AuthoritySpec(p.netloc, DefaultPort(p.scheme))));
    }
  }
}
