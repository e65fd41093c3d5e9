/**
  Attribution of a finding to the asset it was observed at: the one-pass origin index, and the
  hierarchical resolution that consults it.
 */
module OriginIndex {
  import opened Basics
  import opened Text
  import opened Location
  import opened LocationIdempotence
  import opened LocationIdentity
  import opened ClaimIndex

  /** An asset of the scan's target.  Its type is its position in the source's type list. */
  datatype Asset = Asset(id: AssetId, value: string, firstSeen: int)

  // ----- origins ----------------------------------------------------------------------------

  function OriginText(scheme: string, host: string): string {
    scheme + [':'] + (['/', '/'] + host)
  }

  /** `scheme://host[:port]` of an http(s) location, without credentials. */
  function FindingOrigin(location: string, accepts: string -> bool): Option<string> {
    match UrlSplit(NormalizeUrl(location, accepts), accepts)
    case None => None
    case Some(p) =>
      if !IsHttp(p.scheme) || p.netloc == "" || HostPart(p.netloc) == "" then None
      else Some(OriginText(p.scheme, HostPart(p.netloc)))
  }

  function RStripSlash(s: string): string {
    if s != "" && s[|s| - 1] == '/' then RStripSlash(s[..|s| - 1]) else s
  }

  /** An origin is read off the normalised parts of a URL the rules understand. */
  lemma {:induction false} OriginOfParts(location: string, accepts: string -> bool)
    requires FindingOrigin(location, accepts).Some?
    ensures HttpParts(location, accepts).Some?
    ensures var p := HttpParts(location, accepts).value;
            FindingOrigin(location, accepts) ==
            Some(OriginText(p.scheme, NormalizeHostPart(HostPart(p.netloc), DefaultPort(p.scheme))))
  {
    if HttpParts(location, accepts).Some? {
      UrlTwice(location, accepts);
      SplitFacts(location, accepts);
      var p := HttpParts(location, accepts).value;
      NormalizedIsWellSplit(p);
      HttpIsPlain(p.scheme);
      Resplit(NormalizedParts(p), accepts);
      AuthorityParts(p.netloc, DefaultPort(p.scheme));
    }
  }

  lemma {:induction false} OriginTextUnique(s: string, h: string, t: string, k: string)
    requires IsHttp(s) && IsHttp(t) && OriginText(s, h) == OriginText(t, k)
    ensures s == t && h == k
  {
    HttpIsPlain(s);
    HttpIsPlain(t);
    assert forall i | 0 <= i < |s| :: IsSchemeChar(s[i]);
    assert forall i | 0 <= i < |t| :: IsSchemeChar(t[i]);
    PartitionIs(s, ':', Some(['/', '/'] + h));
    PartitionIs(t, ':', Some(['/', '/'] + k));
    assert h == (['/', '/'] + h)[2..] && k == (['/', '/'] + k)[2..];
  }

  /** Two locations of one origin share the scheme, and host and effective port exactly when both name
      a port or neither does. */
  lemma {:induction false} OneOriginIsOneEndpoint(a: string, b: string, accepts: string -> bool)
    requires FindingOrigin(a, accepts).Some? && FindingOrigin(b, accepts) == FindingOrigin(a, accepts)
    ensures HttpParts(a, accepts).Some? && HttpParts(b, accepts).Some?
    ensures var p, q := HttpParts(a, accepts).value, HttpParts(b, accepts).value;
            && p.scheme == q.scheme
            && ((NamesPort(p) <==> NamesPort(q)) <==>
                  && HostOf(HostPart(p.netloc)) == HostOf(HostPart(q.netloc))
                  && PortOf(HostPart(p.netloc), DefaultPort(p.scheme))
                     == PortOf(HostPart(q.netloc), DefaultPort(q.scheme)))
  {
    OriginOfParts(a, accepts);
    OriginOfParts(b, accepts);
    var p, q := HttpParts(a, accepts).value, HttpParts(b, accepts).value;
    OriginTextUnique(p.scheme, NormalizeHostPart(HostPart(p.netloc), DefaultPort(p.scheme)),
                     q.scheme, NormalizeHostPart(HostPart(q.netloc), DefaultPort(q.scheme)));
    if NamesPort(p) <==> NamesPort(q) {
      HostPartUnique(HostPart(p.netloc), HostPart(q.netloc), DefaultPort(p.scheme));
    }
  }

  /** With at most one colon outside brackets they always do. */
  lemma {:induction false} OneColonIsOneEndpoint(a: string, b: string, accepts: string -> bool)
    requires FindingOrigin(a, accepts).Some? && FindingOrigin(b, accepts) == FindingOrigin(a, accepts)
    requires HttpParts(a, accepts).Some? && OneColon(HostPart(HttpParts(a, accepts).value.netloc))
    requires HttpParts(b, accepts).Some? && OneColon(HostPart(HttpParts(b, accepts).value.netloc))
    ensures var p, q := HttpParts(a, accepts).value, HttpParts(b, accepts).value;
            && HostOf(HostPart(p.netloc)) == HostOf(HostPart(q.netloc))
            && PortOf(HostPart(p.netloc), DefaultPort(p.scheme)) == PortOf(HostPart(q.netloc), DefaultPort(q.scheme))
  {
    var p, q := HttpParts(a, accepts).value, HttpParts(b, accepts).value;
    OneOriginIsOneEndpoint(a, b, accepts);
    OriginOfParts(a, accepts);
    OriginOfParts(b, accepts);
    OriginTextUnique(p.scheme, NormalizeHostPart(HostPart(p.netloc), DefaultPort(p.scheme)),
                     q.scheme, NormalizeHostPart(HostPart(q.netloc), DefaultPort(q.scheme)));
    OneColonNamesItsPort(HostPart(p.netloc), HostPart(q.netloc), DefaultPort(p.scheme));
  }

  // ----- the index of a target --------------------------------------------------------------

  function ClaimOf(a: Asset, kind: nat, accepts: string -> bool): Option<Claim> {
    match FindingOrigin(a.value, accepts)
    case None => None
    case Some(origin) =>
      var location := NormalizeUrl(a.value, accepts);
      Some(Claim(origin, kind, if RStripSlash(location) == origin then 0 else 1, location, a.id))
  }

  function TableOf(assets: seq<seq<Asset>>, accepts: string -> bool): Table {
    seq(|assets|, t requires 0 <= t < |assets| =>
      seq(|assets[t]|, k requires 0 <= k < |assets[t]| => ClaimOf(assets[t][k], t, accepts)))
  }

  /** Asset ids are primary keys. */
  predicate DistinctAssets(assets: seq<seq<Asset>>) {
    forall t, k, u, l | 0 <= t < |assets| && 0 <= k < |assets[t]| && 0 <= u < |assets| && 0 <= l < |assets[u]|
      :: assets[t][k].id == assets[u][l].id ==> t == u && k == l
  }

  lemma {:induction false} ClaimFields(a: Asset, kind: nat, accepts: string -> bool)
    ensures ClaimOf(a, kind, accepts).Some? ==>
              ClaimOf(a, kind, accepts).value.kind == kind && ClaimOf(a, kind, accepts).value.id == a.id
  {
  }

  lemma {:induction false} TableWellFormed(assets: seq<seq<Asset>>, accepts: string -> bool)
    requires DistinctAssets(assets)
    ensures WellFormed(TableOf(assets, accepts))
  {
    var table: Table := TableOf(assets, accepts);
    forall t: nat, k: nat | t < |table| && k < |table[t]|
      ensures table[t][k].Some? ==> table[t][k].value.kind == t && table[t][k].value.id == assets[t][k].id
    {
      ClaimFields(assets[t][k], t, accepts);
    }
  }

  /** The pass over every row of every type: the result is the meaning of all claims. */
  method BuildOriginIndex(assets: seq<seq<Asset>>, accepts: string -> bool) returns (index: Index)
    requires DistinctAssets(assets)
    ensures Means(AllClaims(TableOf(assets, accepts)), index)
  {
    ghost var table := TableOf(assets, accepts);
    index := map[];
    var claimedBy: map<string, (nat, nat)> := map[];
    var claimedValue: map<(string, nat), string> := map[];
    for kind := 0 to |assets|
      invariant Agree(Read(table, kind, 0), index, claimedBy, claimedValue)
    {
      var rows := assets[kind];
      for k := 0 to |rows|
        invariant Agree(Read(table, kind, k), index, claimedBy, claimedValue)
      {
        assert table[kind][k] == ClaimOf(rows[k], kind, accepts);
        var origin := FindingOrigin(rows[k].value, accepts);
        if origin.Some? {
          var normalized := NormalizeUrl(rows[k].value, accepts);
          var rank := if RStripSlash(normalized) == origin.value then 0 else 1;
          index, claimedBy, claimedValue :=
            Record(origin.value, kind, rank, normalized, rows[k].id, index, claimedBy, claimedValue,
                   Read(table, kind, k));
        }
      }
    }
    TableWellFormed(assets, accepts);
    AgreeMeans(table, index, claimedBy, claimedValue);
  }

  // ----- resolution -------------------------------------------------------------------------

  predicate Exact(assets: seq<seq<Asset>>, value: string, t: nat, k: nat) {
    t < |assets| && k < |assets[t]| && assets[t][k].value == value
  }

  ghost predicate NoExact(assets: seq<seq<Asset>>, value: string) {
    forall t: nat, k: nat :: !Exact(assets, value, t, k)
  }

  /** The exact match is ordered by type, then age, then id. */
  predicate NotAfter(assets: seq<seq<Asset>>, t: nat, k: nat, u: nat, l: nat)
    requires t < |assets| && k < |assets[t]| && u < |assets| && l < |assets[u]|
  {
    var a, b := assets[t][k], assets[u][l];
    t < u || (t == u && (a.firstSeen < b.firstSeen || (a.firstSeen == b.firstSeen && a.id <= b.id)))
  }

  ghost predicate BestExact(assets: seq<seq<Asset>>, value: string, t: nat, k: nat) {
    && Exact(assets, value, t, k)
    && forall u: nat, l: nat | Exact(assets, value, u, l) :: NotAfter(assets, t, k, u, l)
  }

  /** The first row of the ordered exact match among the rows before row `k` of type `t`. */
  function FirstExact(assets: seq<seq<Asset>>, value: string, t: nat, k: nat): (found: Option<(nat, nat)>)
    requires if t < |assets| then k <= |assets[t]| else t == |assets| && k == 0
    ensures found.Some? ==> Exact(assets, value, found.value.0, found.value.1)
    decreases t, k
  {
    if k > 0 then
      var found := FirstExact(assets, value, t, k - 1);
      if assets[t][k - 1].value == value
         && (found.None? || !NotAfter(assets, found.value.0, found.value.1, t, k - 1))
      then Some((t, k - 1)) else found
    else if t > 0 then FirstExact(assets, value, t - 1, |assets[t - 1]|)
    else None
  }

  lemma {:induction false} FirstExactIsFirst(assets: seq<seq<Asset>>, value: string, t: nat, k: nat, u: nat, l: nat)
    requires if t < |assets| then k <= |assets[t]| else t == |assets| && k == 0
    requires Exact(assets, value, u, l) && (u < t || (u == t && l < k))
    ensures var found := FirstExact(assets, value, t, k);
            found.Some? && NotAfter(assets, found.value.0, found.value.1, u, l)
    decreases t, k
  {
    if k > 0 {
      if (u, l) != (t, k - 1) {
        FirstExactIsFirst(assets, value, t, k - 1, u, l);
      }
    } else {
      FirstExactIsFirst(assets, value, t - 1, |assets[t - 1]|, u, l);
    }
  }

  lemma {:induction false} FirstExactIsBest(assets: seq<seq<Asset>>, value: string)
    ensures match FirstExact(assets, value, |assets|, 0)
            case None => NoExact(assets, value)
            case Some((t, k)) => BestExact(assets, value, t, k)
  {
    forall u: nat, l: nat | Exact(assets, value, u, l)
      ensures var found := FirstExact(assets, value, |assets|, 0);
              found.Some? && NotAfter(assets, found.value.0, found.value.1, u, l)
    {
      FirstExactIsFirst(assets, value, |assets|, 0, u, l);
    }
  }

  /** Of the exact matches the one of the first type, of these the oldest, and of these the one with the
      least id. */
  lemma {:induction false} BestExactAsWritten(assets: seq<seq<Asset>>, value: string, t: nat, k: nat)
    ensures BestExact(assets, value, t, k) <==>
      && t < |assets| && k < |assets[t]| && assets[t][k].value == value
      && forall u: nat, l: nat | u < |assets| && l < |assets[u]| && assets[u][l].value == value ::
           var a, b := assets[t][k], assets[u][l];
           && t <= u
           && (t == u ==> a.firstSeen <= b.firstSeen)
           && (t == u && a.firstSeen == b.firstSeen ==> a.id <= b.id)
  {
    if BestExact(assets, value, t, k) {
      forall u: nat, l: nat | u < |assets| && l < |assets[u]| && assets[u][l].value == value
        ensures NotAfter(assets, t, k, u, l)
      {
        assert Exact(assets, value, u, l);
      }
    }
  }

  method ResolveAssetId(assets: seq<seq<Asset>>, matchedAt: Option<string>, accepts: string -> bool)
    returns (id: Option<AssetId>)
    requires DistinctAssets(assets)
    ensures TextOr(matchedAt) == "" ==> id == None
    ensures TextOr(matchedAt) != "" ==> Resolves(assets, matchedAt.value, accepts, id)
  {
    if matchedAt.None? || matchedAt.value == "" {
      return None;
    }
    var exact := FirstExact(assets, RStripSlash(matchedAt.value), |assets|, 0);
    FirstExactIsBest(assets, RStripSlash(matchedAt.value));
    if exact.Some? {
      return Some(assets[exact.value.0][exact.value.1].id);
    }
    var origin := FindingOrigin(matchedAt.value, accepts);
    if origin.None? {
      return None;
    }
    var index := BuildOriginIndex(assets, accepts);
    id := if origin.value in index then index[origin.value] else None;
  }

  /** The hierarchy: the best exact match; otherwise whatever the finding's origin means. */
  ghost predicate Resolves(assets: seq<seq<Asset>>, location: string, accepts: string -> bool, id: Option<AssetId>) {
    var value := RStripSlash(location);
    var cs := AllClaims(TableOf(assets, accepts));
    && (forall t: nat, k: nat | BestExact(assets, value, t, k) :: id == Some(assets[t][k].id))
    && (NoExact(assets, value) ==>
          match FindingOrigin(location, accepts)
          case None => id == None
          case Some(origin) =>
            && (!Claimed(cs, origin) ==> id == None)
            && (forall f: nat | Leads(cs, f) && cs[f].origin == origin ::
                  id == if Tied(cs, f) then None else Some(cs[f].id)))
  }

  /** No asset is named but one whose value is the finding's location, or one of the finding's
      own origin. */
  lemma {:induction false} AttributionIsSound(assets: seq<seq<Asset>>, location: string, accepts: string -> bool,
                                              id: AssetId)
    returns (t: nat, k: nat)
    requires DistinctAssets(assets) && Resolves(assets, location, accepts, Some(id))
    ensures t < |assets| && k < |assets[t]| && assets[t][k].id == id
    ensures assets[t][k].value == RStripSlash(location)
            || (FindingOrigin(location, accepts).Some?
                && FindingOrigin(assets[t][k].value, accepts) == FindingOrigin(location, accepts))
  {
    var found := FirstExact(assets, RStripSlash(location), |assets|, 0);
    FirstExactIsBest(assets, RStripSlash(location));
    if found.Some? {
      t, k := found.value.0, found.value.1;
    } else {
      var table := TableOf(assets, accepts);
      var cs := AllClaims(table);
      var origin := FindingOrigin(location, accepts).value;
      TableWellFormed(assets, accepts);
      ReadIsOrdered(table, |table|, 0);
      var f := HolderIsTheLeader(cs, origin);
      t, k := ReadFrom(table, |table|, 0, cs[f]);
      assert table[t][k] == ClaimOf(assets[t][k], t, accepts);
      ClaimFields(assets[t][k], t, accepts);
    }
  }
}
