/**
  What two URLs must share to be normalised to one string.  Only a second port, left to be dropped,
  can hide another difference than the rules' own equivalences.
 */
module LocationIdentity {
  import opened Basics
  import opened Text
  import opened PercentEscapes
  import opened Location
  import opened LocationIdempotence

  /** The host of a host part, case folded; an unclosed bracket is left as it is. */
  function HostOf(hp: string): string {
    if Bracketed(hp) then
      match Partition(hp, ']')
      case (_, None) => hp
      case (host, Some(_)) => Lower(host) + [']']
    else Lower(RPartition(hp, ':').0)
  }

  /** The port it names explicitly; None for no port, and for the default one. */
  function PortOf(hp: string, default: nat): Option<string> {
    var text :=
      if Bracketed(hp) then AfterBracket(TextOr(Partition(hp, ']').1))
      else TextOr(RPartition(hp, ':').1);
    if Dropped(text, default) then None else Some(text)
  }

  /** At most one colon outside the brackets. */
  predicate OneColon(hp: string) {
    Bracketed(hp) || Lacks(RPartition(hp, ':').0, ':')
  }

  lemma {:induction false} HostPartIs(hp: string, default: nat)
    ensures NormalizeHostPart(hp, default) == Rejoin(HostOf(hp), ':', PortOf(hp, default))
  {
    assert Dropped("", default);
  }

  /** A port other than the default is never dropped. */
  lemma {:induction false} ExplicitPortIsKept(hp: string, default: nat)
    requires PortOf(hp, default).Some?
    ensures NormalizeHostPart(hp, default) == HostOf(hp) + [':'] + PortOf(hp, default).value
    ensures PortOf(hp, default).value != "" && !Dropped(PortOf(hp, default).value, default)
  {
    HostPartIs(hp, default);
  }

  lemma {:induction false} HeadKept(hp: string, default: nat)
    ensures Bracketed(NormalizeHostPart(hp, default)) <==> Bracketed(hp)
    ensures Bracketed(HostOf(hp)) <==> Bracketed(hp)
  {
    HostPartIs(hp, default);
    var r := Rejoin(HostOf(hp), ':', PortOf(hp, default));
    assert HostOf(hp) != "" ==> r[0] == HostOf(hp)[0];
    assert HostOf(hp) == "" && r != "" ==> r[0] == ':';
    if Bracketed(hp) {
      PartitionSplits(hp, ']');
      var (host, rest) := Partition(hp, ']');
      assert rest.Some? ==> host != "" && HostOf(hp)[0] == ToLower(hp[0]);
    } else {
      HeadBracket(hp);
      HeadBracket(RPartition(hp, ':').0);
    }
  }

  lemma {:induction false} RejoinUnique(a: string, p: Option<string>, b: string, q: Option<string>, c: char)
    requires Lacks(a, c) && Lacks(b, c) && Rejoin(a, c, p) == Rejoin(b, c, q)
    ensures a == b && p == q
  {
    PartitionIs(a, c, p);
    PartitionIs(b, c, q);
  }

  /** The host is all before the last colon if a port is named, and all there is if none is. */
  lemma {:induction false} UnbracketedUnique(a: string, b: string, default: nat)
    requires !Bracketed(a) && !Bracketed(b) && (PortOf(a, default).Some? <==> PortOf(b, default).Some?)
    requires NormalizeHostPart(a, default) == NormalizeHostPart(b, default)
    ensures HostOf(a) == HostOf(b) && PortOf(a, default) == PortOf(b, default)
  {
    HostPartIs(a, default);
    HostPartIs(b, default);
    if PortOf(a, default).Some? {
      RPartitionSplits(a, ':');
      RPartitionSplits(b, ':');
      RPartitionIs(HostOf(a), ':', PortOf(a, default).value);
      RPartitionIs(HostOf(b), ':', PortOf(b, default).value);
    }
  }

  /** With at most one colon each, one form is enough: both name a port or neither does. */
  lemma {:induction false} OneColonNamesItsPort(a: string, b: string, default: nat)
    requires OneColon(a) && OneColon(b)
    requires NormalizeHostPart(a, default) == NormalizeHostPart(b, default)
    ensures PortOf(a, default).Some? <==> PortOf(b, default).Some?
  {
    HeadKept(a, default);
    HeadKept(b, default);
    if Bracketed(a) {
      BracketedUnique(a, b, default);
    } else {
      HostPartIs(a, default);
      HostPartIs(b, default);
      LowerLacksColon(RPartition(a, ':').0);
      LowerLacksColon(RPartition(b, ':').0);
      RejoinUnique(HostOf(a), PortOf(a, default), HostOf(b), PortOf(b, default), ':');
    }
  }

  lemma {:induction false} LowerLacksColon(s: string)
    requires Lacks(s, ':')
    ensures Lacks(Lower(s), ':')
  {
    forall i | 0 <= i < |s|
      ensures Lower(s)[i] != ':'
    {
      assert s[i] != ':';
    }
  }

  /** Cut at its first ']', a normalised bracketed part gives back its host and port suffix. */
  lemma {:induction false} BracketedCut(hp: string, default: nat)
    requires Bracketed(hp)
    ensures Partition(NormalizeHostPart(hp, default), ']') ==
            match Partition(hp, ']')
            case (_, None) => (hp, None)
            case (host, Some(rest)) => (Lower(host), Some(PortSuffix(AfterBracket(rest), default)))
  {
    var (host, rest) := Partition(hp, ']');
    PartitionSplits(hp, ']');
    if rest.Some? {
      forall i | 0 <= i < |host|
        ensures Lower(host)[i] != ']'
      {
        assert host[i] != ']';
      }
      PartitionIs(Lower(host), ']', Some(PortSuffix(AfterBracket(rest.value), default)));
    }
  }

  lemma {:induction false} BracketedUnique(a: string, b: string, default: nat)
    requires Bracketed(a) && Bracketed(b)
    requires NormalizeHostPart(a, default) == NormalizeHostPart(b, default)
    ensures HostOf(a) == HostOf(b) && PortOf(a, default) == PortOf(b, default)
  {
    BracketedCut(a, default);
    BracketedCut(b, default);
    SuffixUnique(AfterBracket(TextOr(Partition(a, ']').1)), AfterBracket(TextOr(Partition(b, ']').1)), default);
    PartitionSplits(a, ']');
    PartitionSplits(b, ']');
  }

  lemma {:induction false} SuffixUnique(p: string, q: string, default: nat)
    ensures PortSuffix(p, default) == PortSuffix(q, default) <==>
            (if Dropped(p, default) then None else Some(p)) == (if Dropped(q, default) then None else Some(q))
  {
    assert !Dropped(p, default) ==> PortSuffix(p, default)[1..] == p;
    assert !Dropped(q, default) ==> PortSuffix(q, default)[1..] == q;
  }

  lemma {:induction false} HostPartUnique(a: string, b: string, default: nat)
    requires PortOf(a, default).Some? <==> PortOf(b, default).Some?
    requires NormalizeHostPart(a, default) == NormalizeHostPart(b, default)
    ensures HostOf(a) == HostOf(b) && PortOf(a, default) == PortOf(b, default)
  {
    HeadKept(a, default);
    HeadKept(b, default);
    if Bracketed(a) {
      BracketedUnique(a, b, default);
    } else {
      UnbracketedUnique(a, b, default);
    }
  }

  lemma {:induction false} AssembledUnique(a: Parts, b: Parts)
    requires PlainScheme(a.scheme) && WellSplit(a) && Rooted(a.path)
    requires PlainScheme(b.scheme) && WellSplit(b) && Rooted(b.path)
    requires Assembled(a) == Assembled(b)
    ensures a == b
  {
    Resplit(a, (s: string) => true);
    Resplit(b, (s: string) => true);
  }

  lemma {:induction false} AuthorityUnique(a: string, b: string, default: nat)
    requires PortOf(HostPart(a), default).Some? <==> PortOf(HostPart(b), default).Some?
    requires AuthoritySpec(a, default) == AuthoritySpec(b, default)
    ensures UserInfo(a) == UserInfo(b) && HostOf(HostPart(a)) == HostOf(HostPart(b))
    ensures PortOf(HostPart(a), default) == PortOf(HostPart(b), default)
  {
    AuthorityParts(a, default);
    AuthorityParts(b, default);
    HostPartUnique(HostPart(a), HostPart(b), default);
  }

  /** Two URLs name the same place: scheme, credentials, folded host, effective port, and path
      and query up to the case of escapes, an empty path being "/". */
  predicate SamePlace(p: Parts, q: Parts) {
    && p.scheme == q.scheme && UserInfo(p.netloc) == UserInfo(q.netloc)
    && HostOf(HostPart(p.netloc)) == HostOf(HostPart(q.netloc))
    && PortOf(HostPart(p.netloc), DefaultPort(p.scheme)) == PortOf(HostPart(q.netloc), DefaultPort(q.scheme))
    && PathOrRoot(p.path) == PathOrRoot(q.path) && LowerEscapes(p.query) == LowerEscapes(q.query)
  }

  /** The URL names a port that the rules keep. */
  predicate NamesPort(p: Parts) {
    PortOf(HostPart(p.netloc), DefaultPort(p.scheme)).Some?
  }

  lemma {:induction false} SamePlaceExactly(p: Parts, q: Parts)
    requires IsHttp(p.scheme) && WellSplit(p) && IsHttp(q.scheme) && WellSplit(q)
    ensures SamePlace(p, q) <==>
            Assembled(NormalizedParts(p)) == Assembled(NormalizedParts(q)) && (NamesPort(p) <==> NamesPort(q))
  {
    HostPartIs(HostPart(p.netloc), DefaultPort(p.scheme));
    HostPartIs(HostPart(q.netloc), DefaultPort(q.scheme));
    if Assembled(NormalizedParts(p)) == Assembled(NormalizedParts(q)) && (NamesPort(p) <==> NamesPort(q)) {
      NormalizedIsWellSplit(p);
      NormalizedIsWellSplit(q);
      HttpIsPlain(p.scheme);
      HttpIsPlain(q.scheme);
      AssembledUnique(NormalizedParts(p), NormalizedParts(q));
      AuthorityUnique(p.netloc, q.netloc, DefaultPort(p.scheme));
    }
  }

  /** Two http(s) URLs name the same place exactly when they get one normal form and both name a port
      or neither does. */
  lemma {:induction false} OneFormForOnePlace(u: string, v: string, accepts: string -> bool)
    requires HttpParts(u, accepts).Some? && HttpParts(v, accepts).Some?
    ensures var p, q := HttpParts(u, accepts).value, HttpParts(v, accepts).value;
            SamePlace(p, q) <==>
            NormalizeUrl(u, accepts) == NormalizeUrl(v, accepts) && (NamesPort(p) <==> NamesPort(q))
  {
    UrlTwice(u, accepts);
    UrlTwice(v, accepts);
    SplitFacts(u, accepts);
    SplitFacts(v, accepts);
    SamePlaceExactly(HttpParts(u, accepts).value, HttpParts(v, accepts).value);
  }

  /** So with at most one colon outside brackets the form decides alone. */
  lemma {:induction false} OneColonDecides(u: string, v: string, accepts: string -> bool)
    requires HttpParts(u, accepts).Some? && HttpParts(v, accepts).Some?
    requires OneColon(HostPart(HttpParts(u, accepts).value.netloc))
    requires OneColon(HostPart(HttpParts(v, accepts).value.netloc))
    ensures SamePlace(HttpParts(u, accepts).value, HttpParts(v, accepts).value) <==>
            NormalizeUrl(u, accepts) == NormalizeUrl(v, accepts)
  {
    var p, q := HttpParts(u, accepts).value, HttpParts(v, accepts).value;
    OneFormForOnePlace(u, v, accepts);
    if NormalizeUrl(u, accepts) == NormalizeUrl(v, accepts) {
      OneFormOneAuthority(u, v, accepts);
      OneColonNamesItsPort(HostPart(p.netloc), HostPart(q.netloc), DefaultPort(p.scheme));
    }
  }

  lemma {:induction false} OneFormOneAuthority(u: string, v: string, accepts: string -> bool)
    requires HttpParts(u, accepts).Some? && HttpParts(v, accepts).Some?
    requires NormalizeUrl(u, accepts) == NormalizeUrl(v, accepts)
    ensures var p, q := HttpParts(u, accepts).value, HttpParts(v, accepts).value;
            && p.scheme == q.scheme
            && NormalizeHostPart(HostPart(p.netloc), DefaultPort(p.scheme))
               == NormalizeHostPart(HostPart(q.netloc), DefaultPort(q.scheme))
  {
    var p, q := HttpParts(u, accepts).value, HttpParts(v, accepts).value;
    UrlTwice(u, accepts);
    UrlTwice(v, accepts);
    SplitFacts(u, accepts);
    SplitFacts(v, accepts);
    NormalizedIsWellSplit(p);
    NormalizedIsWellSplit(q);
    HttpIsPlain(p.scheme);
    HttpIsPlain(q.scheme);
    AssembledUnique(NormalizedParts(p), NormalizedParts(q));
    AuthorityParts(p.netloc, DefaultPort(p.scheme));
    AuthorityParts(q.netloc, DefaultPort(q.scheme));
  }

  // ----- a second port hides the first ------------------------------------------------------

  function WithPort(s: string, port: string): string {
    s + [':'] + port
  }

  lemma {:induction false} PortJoinsTheHost(netloc: string, port: string)
    requires Lacks(port, '@')
    ensures HostPart(WithPort(netloc, port)) == WithPort(HostPart(netloc), port)
    ensures UserInfo(WithPort(netloc, port)) == UserInfo(netloc)
  {
    var (userinfo, rest) := RPartition(netloc, '@');
    var hp := WithPort(HostPart(netloc), port);
    RPartitionSplits(netloc, '@');
    assert Lacks(hp, '@');
    if rest.Some? {
      assert WithPort(netloc, port) == userinfo + ['@'] + hp;
      RPartitionIs(userinfo, '@', hp);
    } else {
      RPartitionNone(hp, '@');
    }
  }

  lemma {:induction false} DroppedIsPlain(port: string, default: nat)
    requires Dropped(port, default)
    ensures forall i | 0 <= i < |port| :: IsDigit(port[i])
  {
  }

  lemma {:induction false} SecondPortIsDropped(hp: string, port: string, default: nat)
    requires !Bracketed(hp) && PortOf(hp, default).Some? && Dropped(port, default)
    requires Lower(PortOf(hp, default).value) == PortOf(hp, default).value
    ensures NormalizeHostPart(WithPort(hp, port), default) == NormalizeHostPart(hp, default)
    ensures PortOf(WithPort(hp, port), default).None? && HostOf(WithPort(hp, port)) != HostOf(hp)
  {
    DroppedIsPlain(port, default);
    HostPartIs(hp, default);
    RPartitionSplits(hp, ':');
    RPartitionLower(hp, ':');
    RPartitionSplits(Lower(hp), ':');
    RPartitionIs(hp, ':', port);
    assert WithPort(hp, port)[0] == hp[0];
    assert |HostOf(hp)| < |hp|;
  }

  /** To a URL that names a port, `http://h:81/`, add the default one, `http://h:81:80/`: the form is
      the same, the host and the port are not. */
  lemma {:induction false} SecondPortHidesTheFirst(u: string, port: string, accepts: string -> bool)
    returns (v: string)
    requires HttpParts(u, accepts).Some?
    requires var p := HttpParts(u, accepts).value;
      var named := PortOf(HostPart(p.netloc), DefaultPort(p.scheme));
      && !Bracketed(HostPart(p.netloc)) && named.Some? && Lower(named.value) == named.value
      && Dropped(port, DefaultPort(p.scheme)) && accepts(WithPort(p.netloc, port))
    ensures HttpParts(v, accepts).Some?
    ensures var p, q := HttpParts(u, accepts).value, HttpParts(v, accepts).value;
            && q.netloc == WithPort(p.netloc, port)
            && NormalizeUrl(v, accepts) == NormalizeUrl(u, accepts) && !SamePlace(p, q)
  {
    var p := HttpParts(u, accepts).value;
    var q := Ported(p, port);
    v := Assembled(q);
    SplitFacts(u, accepts);
    PortedIsWellSplit(p, port);
    HttpIsPlain(p.scheme);
    Resplit(q, accepts);
    UrlTwice(u, accepts);
    UrlTwice(v, accepts);
    PortedForm(p, port);
  }

  /** The parts with one more port, and with the path that the rules would give them. */
  function Ported(p: Parts, port: string): Parts {
    p.(netloc := WithPort(p.netloc, port), path := if p.path == "" then "/" else p.path)
  }

  lemma {:induction false} PortedIsWellSplit(p: Parts, port: string)
    requires WellSplit(p) && Dropped(port, DefaultPort(p.scheme))
    ensures WellSplit(Ported(p, port)) && Rooted(Ported(p, port).path)
  {
    DroppedIsPlain(port, DefaultPort(p.scheme));
  }

  lemma {:induction false} PortedForm(p: Parts, port: string)
    requires !Bracketed(HostPart(p.netloc)) && NamesPort(p) && Dropped(port, DefaultPort(p.scheme))
    requires var named := PortOf(HostPart(p.netloc), DefaultPort(p.scheme)).value; Lower(named) == named
    ensures NormalizedParts(Ported(p, port)) == NormalizedParts(p) && !SamePlace(p, Ported(p, port))
  {
    DroppedIsPlain(port, DefaultPort(p.scheme));
    PortJoinsTheHost(p.netloc, port);
    SecondPortIsDropped(HostPart(p.netloc), port, DefaultPort(p.scheme));
    SameAuthoritySpec(p.netloc, WithPort(p.netloc, port), DefaultPort(p.scheme));
    NothingToFold("/");
  }

  lemma {:induction false} SameAuthoritySpec(a: string, b: string, default: nat)
    requires UserInfo(a) == UserInfo(b)
    requires NormalizeHostPart(HostPart(a), default) == NormalizeHostPart(HostPart(b), default)
    ensures AuthoritySpec(a, default) == AuthoritySpec(b, default)
  {
  }

  /** And one place has one meaning on the wire: equal decoded path and query. */
  lemma {:induction false} SamePlaceSameRequest(p: Parts, q: Parts)
    requires SamePlace(p, q)
    ensures Decode(p.query) == Decode(q.query)
    ensures p.path != "" && q.path != "" ==> Decode(p.path) == Decode(q.path)
  {
    FoldPreservesMeaning(p.query);
    FoldPreservesMeaning(q.query);
    FoldPreservesMeaning(p.path);
    FoldPreservesMeaning(q.path);
    FoldLength(p.path);
    FoldLength(q.path);
  }

  /** With at most one colon outside brackets nothing is left for a second pass to drop. */
  lemma {:induction false} OneColonSettles(hp: string, default: nat)
    requires OneColon(hp)
    ensures !TwoPortsDropped(hp, default)
  {
    if !Bracketed(hp) {
      RPartitionNone(RPartition(hp, ':').0, ':');
    }
  }
}
