/**
  What the origin tier names, in terms of the assets alone: their normalised values, their origins
  and their types.
 */
module OriginTheorems {
  import opened Basics
  import opened Text
  import opened Location
  import opened LocationIdempotence
  import opened LocationIdentity
  import opened LocationForms
  import opened ClaimIndex
  import opened OriginIndex

  /** The location is the origin followed by nothing but slashes. */
  predicate Bare(location: string, origin: string) {
    && |location| >= |origin| && location[..|origin|] == origin
    && forall i | |origin| <= i < |location| :: location[i] == '/'
  }

  /** What counts of an asset: its origin, if it has one, and its normalised value. */
  datatype Spot = Spot(origin: Option<string>, location: string)

  function Spots(assets: seq<seq<Asset>>, accepts: string -> bool): seq<seq<Spot>> {
    seq(|assets|, t requires 0 <= t < |assets| =>
      seq(|assets[t]|, k requires 0 <= k < |assets[t]| =>
        Spot(FindingOrigin(assets[t][k].value, accepts), NormalizeUrl(assets[t][k].value, accepts))))
  }

  /** The asset lies under the origin. */
  predicate Under(spots: seq<seq<Spot>>, origin: string, t: nat, k: nat) {
    t < |spots| && k < |spots[t]| && spots[t][k].origin == Some(origin)
  }

  /** The asset is the origin itself. */
  predicate IsTheOrigin(spots: seq<seq<Spot>>, origin: string, t: nat, k: nat) {
    Under(spots, origin, t, k) && Bare(spots[t][k].location, origin)
  }

  /** Of the assets that are the origin, or if none is of those under it, one of the first type that
      has one. */
  ghost predicate Decides(spots: seq<seq<Spot>>, origin: string, t: nat, k: nat) {
    if exists u: nat, l: nat :: IsTheOrigin(spots, origin, u, l) then
      && IsTheOrigin(spots, origin, t, k)
      && forall u: nat, l: nat | IsTheOrigin(spots, origin, u, l) :: t <= u
    else
      && Under(spots, origin, t, k)
      && forall u: nat, l: nat | Under(spots, origin, u, l) :: t <= u
  }

  /** The assets that decide are at two locations. */
  ghost predicate Undecided(spots: seq<seq<Spot>>, origin: string) {
    exists t: nat, k: nat, u: nat, l: nat ::
      && Decides(spots, origin, t, k) && Decides(spots, origin, u, l)
      && spots[t][k].location != spots[u][l].location
  }

  // ----- origins by name --------------------------------------------------------------------

  lemma {:induction false} OriginOfSplit(location: string, p: Parts, accepts: string -> bool)
    requires HttpParts(location, accepts) == Some(p) && accepts(AuthoritySpec(p.netloc, DefaultPort(p.scheme)))
    requires NormalizeHostPart(HostPart(p.netloc), DefaultPort(p.scheme)) != ""
    ensures FindingOrigin(location, accepts) ==
            Some(Web(p.scheme, NormalizeHostPart(HostPart(p.netloc), DefaultPort(p.scheme)), ""))
  {
    UrlTwice(location, accepts);
    SplitFacts(location, accepts);
    NormalizedIsWellSplit(p);
    HttpIsPlain(p.scheme);
    Resplit(NormalizedParts(p), accepts);
    AuthorityParts(p.netloc, DefaultPort(p.scheme));
    RPartitionNone("", '@');
    WebIsOriginText(p.scheme, NormalizeHostPart(HostPart(p.netloc), DefaultPort(p.scheme)));
  }

  lemma {:induction false} WebIsOriginText(scheme: string, host: string)
    ensures OriginText(scheme, host) == Web(scheme, host, "")
  {
    assert host + "" == host;
  }

  /** The origin is scheme, folded host and port, the port as in the normal form; credentials, path, query
      and fragment do not matter. */
  lemma {:induction false} OriginsAsWritten(scheme: string, user: string, host: string, port: string, path: string,
                                            query: Option<string>, fragment: Option<string>, accepts: string -> bool)
    requires Lower(scheme) in {"http", "https"} && host != "" && Free(host, {':', '[', '@'} + AUTHORITY_END + REMOVED)
    requires Free(user, AUTHORITY_END + REMOVED) && forall i | 0 <= i < |port| :: IsDigit(port[i])
    requires (path == "" || Rooted(path)) && Free(path, {'?', '#'} + REMOVED)
    requires Free(TextOr(query), {'#'} + REMOVED) && Free(TextOr(fragment), REMOVED)
    requires accepts(user + ['@'] + WithPort(host, port))
    requires accepts(user + ['@'] + WithPort(Lower(host), port)) && accepts(user + ['@'] + Lower(host))
    ensures FindingOrigin(Address(scheme, user + ['@'] + WithPort(host, port), path, query, fragment), accepts) ==
            Some(Web(Lower(scheme),
                     if port == "" || DigitsValue(port) == (if Lower(scheme) == "http" then 80 else 443)
                     then Lower(host) else WithPort(Lower(host), port), ""))
  {
    var authority := user + ['@'] + WithPort(host, port);
    var url := Address(scheme, authority, path, query, fragment);
    PlainAuthority(user, host, port, DefaultPort(Lower(scheme)));
    AddressSplits("", scheme, authority, path, query, fragment, accepts);
    assert "" + url == url;
    OriginOfSplit(url, Parts(Lower(scheme), authority, path, TextOr(query)), accepts);
  }

  lemma {:induction false} AuthorityIsFree(user: string, host: string)
    requires Free(user, AUTHORITY_END + REMOVED) && Free(host, AUTHORITY_END + REMOVED)
    ensures Free(user + ['@'] + host, AUTHORITY_END + REMOVED)
  {
    JoinFree(user, ['@'], AUTHORITY_END + REMOVED);
    JoinFree(user + ['@'], host, AUTHORITY_END + REMOVED);
  }

  lemma {:induction false} HostAfterCredentials(user: string, host: string)
    requires Lacks(host, '@')
    ensures HostPart(user + ['@'] + host) == host
  {
    RPartitionIs(user, '@', host);
  }

  lemma {:induction false} PlainAuthority(user: string, host: string, port: string, default: nat)
    requires host != "" && Free(host, {':', '[', '@'} + AUTHORITY_END + REMOVED)
    requires Free(user, AUTHORITY_END + REMOVED) && forall i | 0 <= i < |port| :: IsDigit(port[i])
    ensures var authority := user + ['@'] + WithPort(host, port);
      && Free(authority, AUTHORITY_END + REMOVED) && HostPart(authority) == WithPort(host, port)
      && AuthoritySpec(authority, default) == user + ['@'] + NormalizeHostPart(WithPort(host, port), default)
    ensures NormalizeHostPart(WithPort(host, port), default) ==
            if port == "" || DigitsValue(port) == default then Lower(host) else WithPort(Lower(host), port)
  {
    PortedHostIsFree(host, port);
    AuthorityIsFree(user, WithPort(host, port));
    HostAfterCredentials(user, WithPort(host, port));
    CredentialsAreKept(user, WithPort(host, port), default);
    PortedHost(host, port, default);
  }

  lemma {:induction false} PortedHostIsFree(host: string, port: string)
    requires Free(host, {'@'} + AUTHORITY_END + REMOVED) && forall i | 0 <= i < |port| :: IsDigit(port[i])
    ensures Free(WithPort(host, port), AUTHORITY_END + REMOVED) && Lacks(WithPort(host, port), '@')
  {
    var stops := {'@'} + AUTHORITY_END + REMOVED;
    JoinFree(host, [':'], stops);
    JoinFree(host + [':'], port, stops);
  }

  // ----- stripping slashes ------------------------------------------------------------------

  lemma {:induction false} StrippedIsBare(location: string, origin: string)
    requires origin != "" && origin[|origin| - 1] != '/'
    ensures RStripSlash(location) == origin <==> Bare(location, origin)
  {
    if location != "" && location[|location| - 1] == '/' {
      var shorter := location[..|location| - 1];
      StrippedIsBare(shorter, origin);
      if Bare(location, origin) {
        assert |location| > |origin|;
        assert shorter[..|origin|] == location[..|origin|];
      }
      if Bare(shorter, origin) {
        assert shorter[..|origin|] == location[..|origin|];
      }
    } else if Bare(location, origin) {
      assert |location| == |origin|;
    }
  }

  lemma {:induction false} OriginIsOfAHost(location: string, accepts: string -> bool) returns (p: Parts)
    requires FindingOrigin(location, accepts).Some?
    ensures FindingOrigin(location, accepts) == Some(OriginText(p.scheme, HostPart(p.netloc)))
    ensures HostPart(p.netloc) != "" && Free(p.netloc, AUTHORITY_END + REMOVED)
  {
    OriginOfParts(location, accepts);
    UrlTwice(location, accepts);
    SplitFacts(location, accepts);
    p := NormalizedParts(HttpParts(location, accepts).value);
    NormalizedIsWellSplit(HttpParts(location, accepts).value);
    HttpIsPlain(p.scheme);
    Resplit(p, accepts);
  }

  lemma {:induction false} OriginEndsInTheHost(location: string, accepts: string -> bool)
    requires FindingOrigin(location, accepts).Some?
    ensures var origin := FindingOrigin(location, accepts).value;
      origin != "" && origin[|origin| - 1] != '/'
  {
    var p := OriginIsOfAHost(location, accepts);
    var host := HostPart(p.netloc);
    HostIsFree(p.netloc);
    LastOfOrigin(p.scheme, host);
    assert host[|host| - 1] != '/';
  }

  lemma {:induction false} LastOfOrigin(scheme: string, host: string)
    requires host != ""
    ensures var origin := OriginText(scheme, host); origin != "" && origin[|origin| - 1] == host[|host| - 1]
  {
  }

  lemma {:induction false} HostIsFree(netloc: string)
    requires Free(netloc, AUTHORITY_END + REMOVED)
    ensures Free(HostPart(netloc), AUTHORITY_END + REMOVED)
  {
    var (head, tail) := RPartition(netloc, '@');
    RPartitionSplits(netloc, '@');
    PiecesFree(head, '@', tail, AUTHORITY_END + REMOVED);
  }

  // ----- claims and assets ------------------------------------------------------------------

  /** The table of claims says of the assets what counts. */
  predicate Told(table: Table, spots: seq<seq<Spot>>) {
    && |table| == |spots|
    && (forall t | 0 <= t < |table| :: |table[t]| == |spots[t]|)
    && (forall t, k | 0 <= t < |table| && 0 <= k < |table[t]| :: ToldOf(table[t][k], spots[t][k], t))
  }

  predicate ToldOf(claim: Option<Claim>, spot: Spot, kind: nat) {
    match spot.origin
    case None => claim.None?
    case Some(origin) =>
      && claim.Some? && claim.value.origin == origin && claim.value.kind == kind
      && claim.value.rank == (if Bare(spot.location, origin) then 0 else 1) && claim.value.location == spot.location
  }

  lemma {:induction false} TableTells(assets: seq<seq<Asset>>, accepts: string -> bool)
    ensures Told(TableOf(assets, accepts), Spots(assets, accepts))
  {
    var table, spots := TableOf(assets, accepts), Spots(assets, accepts);
    forall t: nat, k: nat | t < |table| && k < |table[t]|
      ensures ToldOf(table[t][k], spots[t][k], t)
    {
      if spots[t][k].origin.Some? {
        OriginEndsInTheHost(assets[t][k].value, accepts);
        StrippedIsBare(spots[t][k].location, spots[t][k].origin.value);
      }
    }
  }

  lemma {:induction false} SpotIsClaim(table: Table, spots: seq<seq<Spot>>, origin: string, t: nat, k: nat)
    returns (j: nat)
    requires Told(table, spots) && Under(spots, origin, t, k)
    ensures j < |AllClaims(table)| && table[t][k] == Some(AllClaims(table)[j])
    ensures ToldOf(table[t][k], spots[t][k], t)
  {
    ReadHas(table, |table|, 0, t, k);
    j :| 0 <= j < |AllClaims(table)| && AllClaims(table)[j] == table[t][k].value;
  }

  /** The leader of the claims to an origin is an asset that decides. */
  lemma {:induction false} LeaderDecides(table: Table, spots: seq<seq<Spot>>, f: nat, t: nat, k: nat)
    requires Told(table, spots) && Leads(AllClaims(table), f)
    requires t < |table| && k < |table[t]| && table[t][k] == Some(AllClaims(table)[f])
    ensures Decides(spots, AllClaims(table)[f].origin, t, k)
  {
    var cs := AllClaims(table);
    var origin := cs[f].origin;
    assert ToldOf(table[t][k], spots[t][k], t);
    forall u: nat, l: nat | Under(spots, origin, u, l)
      ensures IsTheOrigin(spots, origin, u, l) ==> IsTheOrigin(spots, origin, t, k)
      ensures (IsTheOrigin(spots, origin, u, l) <==> IsTheOrigin(spots, origin, t, k)) ==> t <= u
    {
      var j := SpotIsClaim(table, spots, origin, u, l);
      assert !Better(cs[j], cs[f]);
    }
  }

  lemma {:induction false} SameGroup(spots: seq<seq<Spot>>, origin: string, t: nat, k: nat, u: nat, l: nat)
    requires Decides(spots, origin, t, k) && Under(spots, origin, u, l)
    ensures Decides(spots, origin, u, l) <==>
            u == t && (IsTheOrigin(spots, origin, u, l) <==> IsTheOrigin(spots, origin, t, k))
  {
  }

  /** And the assets that decide are those of the leader's group. */
  lemma {:induction false} TiedIsUndecided(table: Table, spots: seq<seq<Spot>>, f: nat, t: nat, k: nat)
    requires Told(table, spots) && f < |AllClaims(table)|
    requires t < |table| && k < |table[t]| && table[t][k] == Some(AllClaims(table)[f])
    requires Decides(spots, AllClaims(table)[f].origin, t, k)
    ensures Tied(AllClaims(table), f) <==> Undecided(spots, AllClaims(table)[f].origin)
  {
    var cs := AllClaims(table);
    var origin := cs[f].origin;
    assert ToldOf(table[t][k], spots[t][k], t);
    if Tied(cs, f) {
      var j :| 0 <= j < |cs| && Rivals(cs[j], cs[f]) && cs[j].location != cs[f].location;
      var u, l := ReadFrom(table, |table|, 0, cs[j]);
      assert ToldOf(table[u][l], spots[u][l], u);
      SameGroup(spots, origin, t, k, u, l);
    }
    if Undecided(spots, origin) {
      var t': nat, k': nat, u: nat, l: nat :| Decides(spots, origin, t', k') && Decides(spots, origin, u, l)
        && spots[t'][k'].location != spots[u][l].location;
      var _ := OtherLocation(table, spots, f, t, k, t', k', u, l);
    }
  }

  lemma {:induction false} OtherLocation(table: Table, spots: seq<seq<Spot>>, f: nat, t: nat, k: nat, t': nat,
                                         k': nat, u: nat, l: nat) returns (j: nat)
    requires Told(table, spots) && f < |AllClaims(table)|
    requires t < |table| && k < |table[t]| && table[t][k] == Some(AllClaims(table)[f])
    requires var origin := AllClaims(table)[f].origin;
      Decides(spots, origin, t, k) && Decides(spots, origin, t', k') && Decides(spots, origin, u, l)
    requires spots[t'][k'].location != spots[u][l].location
    ensures j < |AllClaims(table)| && Rivals(AllClaims(table)[j], AllClaims(table)[f])
    ensures AllClaims(table)[j].location != AllClaims(table)[f].location
  {
    var origin := AllClaims(table)[f].origin;
    assert ToldOf(table[t][k], spots[t][k], t);
    SameGroup(spots, origin, t, k, u, l);
    SameGroup(spots, origin, t, k, t', k');
    if spots[u][l].location != AllClaims(table)[f].location {
      j := SpotIsClaim(table, spots, origin, u, l);
    } else {
      j := SpotIsClaim(table, spots, origin, t', k');
    }
  }

  /** Without an exact match the origin itself is named before a page under it, the first type before
      a later one, and nothing if no asset is under the origin or those that decide are at two
      locations. */
  lemma {:induction false} OriginDecides(assets: seq<seq<Asset>>, location: string, accepts: string -> bool,
                                         id: Option<AssetId>)
    requires DistinctAssets(assets) && Resolves(assets, location, accepts, id)
    requires NoExact(assets, RStripSlash(location)) && FindingOrigin(location, accepts).Some?
    ensures var origin, spots := FindingOrigin(location, accepts).value, Spots(assets, accepts);
      && (id.None? <==> (forall t: nat, k: nat :: !Under(spots, origin, t, k)) || Undecided(spots, origin))
      && (id.Some? ==> exists t: nat, k: nat :: Decides(spots, origin, t, k) && assets[t][k].id == id.value)
  {
    var origin, spots := FindingOrigin(location, accepts).value, Spots(assets, accepts);
    var table := TableOf(assets, accepts);
    var cs := AllClaims(table);
    TableTells(assets, accepts);
    TableWellFormed(assets, accepts);
    ReadIsOrdered(table, |table|, 0);
    var f := HolderIsTheLeader(cs, origin);
    if Claimed(cs, origin) {
      var t, k := ReadFrom(table, |table|, 0, cs[f]);
      assert table[t][k] == ClaimOf(assets[t][k], t, accepts);
      ClaimFields(assets[t][k], t, accepts);
      LeaderDecides(table, spots, f, t, k);
      TiedIsUndecided(table, spots, f, t, k);
      assert Under(spots, origin, t, k);
    } else {
      forall t: nat, k: nat
        ensures !Under(spots, origin, t, k)
      {
        if Under(spots, origin, t, k) {
          var j := SpotIsClaim(table, spots, origin, t, k);
        }
      }
    }
  }
}
