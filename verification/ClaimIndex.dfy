/**
  Rival claims to the origins of one target, and the single pass that settles them.

  `table[t][k]` is the claim of the k-th asset row of the t-th type, if its value has an
  origin; the pass reads type by type, row by row.
 */
module ClaimIndex {
  import opened Basics

  type AssetId = nat
  type Table = seq<seq<Option<Claim>>>

  /** One asset's claim to an origin: rank 0 if the asset is the origin, 1 if it lies under it. */
  datatype Claim = Claim(origin: string, kind: nat, rank: nat, location: string, id: AssetId)

  /** Rows know their type, and their ids are primary keys. */
  predicate WellFormed(table: Table) {
    && (forall t, k | 0 <= t < |table| && 0 <= k < |table[t]| && table[t][k].Some? :: table[t][k].value.kind == t)
    && (forall t, k, u, l | 0 <= t < |table| && 0 <= k < |table[t]| && 0 <= u < |table| && 0 <= l < |table[u]|
          :: SameId(table[t][k], table[u][l]) ==> t == u && k == l)
  }

  predicate SameId(c: Option<Claim>, d: Option<Claim>) {
    c.Some? && d.Some? && c.value.id == d.value.id
  }

  predicate Place(table: Table, t: nat, k: nat) {
    if t < |table| then k <= |table[t]| else t == |table| && k == 0
  }

  /** The claims read before row `k` of type `t`. */
  function Read(table: Table, t: nat, k: nat): seq<Claim>
    requires Place(table, t, k)
    decreases t, k
  {
    if k > 0 then
      match table[t][k - 1]
      case Some(c) => Read(table, t, k - 1) + [c]
      case None => Read(table, t, k - 1)
    else if t > 0 then Read(table, t - 1, |table[t - 1]|)
    else []
  }

  function AllClaims(table: Table): seq<Claim> {
    Read(table, |table|, 0)
  }

  // ----- what the index means ---------------------------------------------------------------

  predicate Better(a: Claim, b: Claim) {
    a.rank < b.rank || (a.rank == b.rank && a.kind < b.kind)
  }

  predicate Rivals(a: Claim, b: Claim) {
    a.origin == b.origin && a.kind == b.kind && a.rank == b.rank
  }

  predicate Claimed(cs: seq<Claim>, origin: string) {
    exists j | 0 <= j < |cs| :: cs[j].origin == origin
  }

  /** `f` is the first claim of the best group for its origin. */
  predicate Leads(cs: seq<Claim>, f: nat) {
    && f < |cs|
    && (forall j | 0 <= j < |cs| && cs[j].origin == cs[f].origin :: !Better(cs[j], cs[f]))
    && (forall j | 0 <= j < f :: !Rivals(cs[j], cs[f]))
  }

  /** The group of `f` holds another location. */
  predicate Tied(cs: seq<Claim>, f: nat)
    requires f < |cs|
  {
    exists j | 0 <= j < |cs| :: Rivals(cs[j], cs[f]) && cs[j].location != cs[f].location
  }

  predicate DistinctIds(cs: seq<Claim>) {
    forall i, j | 0 <= i < j < |cs| :: cs[i].id != cs[j].id
  }

  /** Types are read in order of preference. */
  predicate KindsInOrder(cs: seq<Claim>) {
    forall i, j | 0 <= i < j < |cs| :: cs[i].kind <= cs[j].kind
  }

  type Index = map<string, Option<AssetId>>

  /** An index says of each claimed origin what its best group says: the asset of the group's
      first claim, or None when the group names two locations. */
  ghost predicate Means(cs: seq<Claim>, index: Index) {
    && (forall origin :: origin in index <==> Claimed(cs, origin))
    && (forall f: nat | Leads(cs, f) ::
          && cs[f].origin in index
          && index[cs[f].origin] == if Tied(cs, f) then None else Some(cs[f].id))
  }

  // ----- one pass ---------------------------------------------------------------------------

  /** Who holds an entry after some claims: the group, the location that claimed it and its
      asset, and whether a rival at another location has voided it. */
  datatype Holder = Holder(kind: nat, rank: nat, location: string, id: AssetId, tied: bool)

  function Merge(held: Option<Holder>, c: Claim): Holder {
    match held
    case None => Holder(c.kind, c.rank, c.location, c.id, false)
    case Some(h) =>
      if c.rank < h.rank then Holder(c.kind, c.rank, c.location, c.id, false)
      else if h.kind == c.kind && h.rank == c.rank && (h.tied || h.id != c.id) then
        if h.location != c.location then h.(tied := true) else h
      else h
  }

  function HolderOf(cs: seq<Claim>, origin: string): Option<Holder> {
    if cs == [] then None else
      var held := HolderOf(cs[..|cs| - 1], origin);
      var c := cs[|cs| - 1];
      if c.origin == origin then Some(Merge(held, c)) else held
  }

  function EntryOf(h: Holder): Option<AssetId> {
    if h.tied then None else Some(h.id)
  }

  /** The three dictionaries of the source agree with the holders. */
  ghost predicate Agree(cs: seq<Claim>, index: Index, claimedBy: map<string, (nat, nat)>,
                        claimedValue: map<(string, nat), string>)
  {
    forall origin ::
      match HolderOf(cs, origin)
      case None => origin !in index && origin !in claimedBy
      case Some(h) =>
        && origin in index && index[origin] == EntryOf(h)
        && origin in claimedBy && claimedBy[origin] == (h.kind, h.rank)
        && (origin, h.rank) in claimedValue && claimedValue[(origin, h.rank)] == h.location
  }

  lemma {:induction false} HolderAfter(cs: seq<Claim>, c: Claim, origin: string)
    ensures HolderOf(cs + [c], origin) ==
            if c.origin == origin then Some(Merge(HolderOf(cs, origin), c)) else HolderOf(cs, origin)
  {
    assert (cs + [c])[..|cs|] == cs;
  }

  datatype Tables = Tables(index: Index, claimedBy: map<string, (nat, nat)>, claimedValue: map<(string, nat), string>)

  /** The claim takes the entry. */
  function Taken(t: Tables, c: Claim): Tables {
    Tables(t.index[c.origin := Some(c.id)], t.claimedBy[c.origin := (c.kind, c.rank)],
           t.claimedValue[(c.origin, c.rank) := c.location])
  }

  ghost predicate AgreeTables(cs: seq<Claim>, t: Tables) {
    Agree(cs, t.index, t.claimedBy, t.claimedValue)
  }

  lemma {:induction false} AgreeTaken(cs: seq<Claim>, t: Tables, c: Claim)
    requires AgreeTables(cs, t)
    requires c.origin !in t.claimedBy || c.rank < t.claimedBy[c.origin].1
    ensures AgreeTables(cs + [c], Taken(t, c))
  {
    forall other { HolderAfter(cs, c, other); }
  }

  lemma {:induction false} AgreeKept(cs: seq<Claim>, t: Tables, c: Claim)
    requires AgreeTables(cs, t)
    requires c.origin in t.claimedBy && t.claimedBy[c.origin].1 <= c.rank
    ensures var (o, h) := (c.origin, HolderOf(cs, c.origin).value);
            AgreeTables(cs + [c], if Merge(Some(h), c).tied then t.(index := t.index[o := None]) else t)
  {
    forall other { HolderAfter(cs, c, other); }
  }

  /** The branches for one row. */
  method Record(origin: string, kind: nat, rank: nat, normalized: string, id: AssetId, index: Index,
                claimedBy: map<string, (nat, nat)>, claimedValue: map<(string, nat), string>, ghost cs: seq<Claim>)
    returns (index': Index, claimedBy': map<string, (nat, nat)>, claimedValue': map<(string, nat), string>)
    requires Agree(cs, index, claimedBy, claimedValue)
    ensures Agree(cs + [Claim(origin, kind, rank, normalized, id)], index', claimedBy', claimedValue')
  {
    index', claimedBy', claimedValue' := index, claimedBy, claimedValue;
    ghost var t := Tables(index, claimedBy, claimedValue);
    ghost var c := Claim(origin, kind, rank, normalized, id);
    if origin !in claimedBy || rank < claimedBy[origin].1 {
      claimedBy' := claimedBy[origin := (kind, rank)];
      claimedValue' := claimedValue[(origin, rank) := normalized];
      index' := index[origin := Some(id)];
      AgreeTaken(cs, t, c);
    } else {
      AgreeKept(cs, t, c);
      if claimedBy[origin] == (kind, rank) && index[origin] != Some(id) {
        if claimedValue[(origin, rank)] != normalized {
          index' := index[origin := None];
        }
      }
      assert index[origin] == None ==> index[origin := None] == index;
    }
  }

  // ----- the pass computes its meaning ------------------------------------------------------

  lemma {:induction false} LeadsStill(cs: seq<Claim>, c: Claim, f: nat)
    requires Leads(cs, f) && !(c.origin == cs[f].origin && Better(c, cs[f]))
    ensures Leads(cs + [c], f)
  {
  }

  lemma {:induction false} TiedAfter(cs: seq<Claim>, c: Claim, f: nat)
    requires f < |cs|
    ensures Tied(cs + [c], f) <==> Tied(cs, f) || (Rivals(c, cs[f]) && c.location != cs[f].location)
  {
    var cs' := cs + [c];
    if Tied(cs', f) {
      var j :| 0 <= j < |cs'| && Rivals(cs'[j], cs'[f]) && cs'[j].location != cs'[f].location;
      assert j < |cs| ==> cs'[j] == cs[j];
    }
    if Tied(cs, f) {
      var j :| 0 <= j < |cs| && Rivals(cs[j], cs[f]) && cs[j].location != cs[f].location;
      assert cs'[j] == cs[j];
    }
    assert cs'[|cs|] == c;
  }

  lemma {:induction false} NewLeader(cs: seq<Claim>, c: Claim)
    requires forall j | 0 <= j < |cs| && cs[j].origin == c.origin :: Better(c, cs[j])
    ensures Leads(cs + [c], |cs|) && !Tied(cs + [c], |cs|)
  {
  }

  /** What the single pass holds for an origin is what the claims mean, taken together: the
      first claim of the least (rank, type) group, void exactly when that group names two
      locations. */
  lemma {:induction false} HolderIsTheLeader(cs: seq<Claim>, origin: string)
    returns (f: nat)
    requires KindsInOrder(cs) && DistinctIds(cs)
    ensures HolderOf(cs, origin).Some? <==> Claimed(cs, origin)
    ensures Claimed(cs, origin) ==> Leads(cs, f) && cs[f].origin == origin
    ensures Claimed(cs, origin) ==>
              HolderOf(cs, origin) == Some(Holder(cs[f].kind, cs[f].rank, cs[f].location, cs[f].id, Tied(cs, f)))
  {
    f := 0;
    if cs != [] {
      var cs', c := cs[..|cs| - 1], cs[|cs| - 1];
      assert cs == cs' + [c];
      f := HolderIsTheLeader(cs', origin);
      if Claimed(cs', origin) {
        assert Claimed(cs, origin) by {
          assert cs[f].origin == origin;
        }
        if c.origin == origin && c.rank < cs'[f].rank {
          NewLeader(cs', c);
          f := |cs'|;
        } else {
          assert cs[f].kind <= c.kind;
          LeadsStill(cs', c, f);
          TiedAfter(cs', c, f);
        }
      } else if c.origin == origin {
        assert cs[|cs'|].origin == origin;
        NewLeader(cs', c);
        f := |cs'|;
      } else {
        assert forall j | 0 <= j < |cs'| :: cs[j] == cs'[j];
      }
    }
  }

  lemma {:induction false} LeaderUnique(cs: seq<Claim>, f: nat, g: nat)
    requires Leads(cs, f) && Leads(cs, g) && cs[f].origin == cs[g].origin
    ensures f == g
  {
    assert Rivals(cs[f], cs[g]) && Rivals(cs[g], cs[f]);
  }

  // ----- the order of reading ---------------------------------------------------------------

  lemma {:induction false} ReadFrom(table: Table, t: nat, k: nat, c: Claim) returns (u: nat, l: nat)
    requires Place(table, t, k) && c in Read(table, t, k)
    ensures u < |table| && l < |table[u]| && table[u][l] == Some(c)
    ensures u < t || (u == t && l < k)
    decreases t, k
  {
    if k > 0 {
      if table[t][k - 1] == Some(c) {
        u, l := t, k - 1;
      } else {
        u, l := ReadFrom(table, t, k - 1, c);
      }
    } else {
      u, l := ReadFrom(table, t - 1, |table[t - 1]|, c);
    }
  }

  lemma {:induction false} ReadHas(table: Table, t: nat, k: nat, u: nat, l: nat)
    requires Place(table, t, k)
    requires u < |table| && l < |table[u]| && table[u][l].Some? && (u < t || (u == t && l < k))
    ensures table[u][l].value in Read(table, t, k)
    decreases t, k
  {
    if k > 0 {
      if !(u == t && l == k - 1) {
        ReadHas(table, t, k - 1, u, l);
      }
    } else {
      ReadHas(table, t - 1, |table[t - 1]|, u, l);
    }
  }

  lemma {:induction false} ReadIsOrdered(table: Table, t: nat, k: nat)
    requires Place(table, t, k) && WellFormed(table)
    ensures KindsInOrder(Read(table, t, k)) && DistinctIds(Read(table, t, k))
    decreases t, k
  {
    if k > 0 {
      ReadIsOrdered(table, t, k - 1);
      var earlier := Read(table, t, k - 1);
      match table[t][k - 1]
      case None =>
      case Some(d) =>
        forall j | 0 <= j < |earlier|
          ensures earlier[j].kind <= d.kind && earlier[j].id != d.id
        {
          var u, l := ReadFrom(table, t, k - 1, earlier[j]);
          assert table[t][k - 1].value.kind == t && table[u][l].value.kind == u;
          assert !SameId(table[u][l], table[t][k - 1]);
        }
    } else if t > 0 {
      ReadIsOrdered(table, t - 1, |table[t - 1]|);
    }
  }

  lemma {:induction false} AgreeMeans(table: Table, index: Index, claimedBy: map<string, (nat, nat)>,
                                      claimedValue: map<(string, nat), string>)
    requires WellFormed(table) && Agree(AllClaims(table), index, claimedBy, claimedValue)
    ensures Means(AllClaims(table), index)
  {
    var cs := AllClaims(table);
    ReadIsOrdered(table, |table|, 0);
    forall origin
      ensures origin in index <==> Claimed(cs, origin)
    {
      var _ := HolderIsTheLeader(cs, origin);
    }
    forall f: nat | Leads(cs, f)
      ensures cs[f].origin in index && index[cs[f].origin] == if Tied(cs, f) then None else Some(cs[f].id)
    {
      assert Claimed(cs, cs[f].origin);
      var g := HolderIsTheLeader(cs, cs[f].origin);
      LeaderUnique(cs, f, g);
    }
  }

  // ----- row order does not matter ----------------------------------------------------------

  /** The same rows, type by type, in whatever order. */
  predicate SameRows(a: Table, b: Table) {
    |a| == |b| && forall t | 0 <= t < |a| :: SameMembers(a[t], b[t])
  }

  predicate SameMembers(a: seq<Option<Claim>>, b: seq<Option<Claim>>) {
    (forall x | x in a :: x in b) && (forall x | x in b :: x in a)
  }

  lemma {:induction false} SameClaims(a: Table, b: Table, c: Claim)
    requires SameRows(a, b) && c in AllClaims(a)
    ensures c in AllClaims(b)
  {
    var u, l := ReadFrom(a, |a|, 0, c);
    assert SameMembers(a[u], b[u]) && a[u][l] in b[u];
    var m: nat :| m < |b[u]| && b[u][m] == a[u][l];
    ReadHas(b, |b|, 0, u, m);
  }

  lemma {:induction false} SameLeader(cs: seq<Claim>, ds: seq<Claim>, f: nat, g: nat)
    requires Leads(cs, f) && Leads(ds, g) && cs[f].origin == ds[g].origin
    requires forall c :: c in cs <==> c in ds
    ensures Rivals(cs[f], ds[g])
    ensures Tied(cs, f) ==> Tied(ds, g)
    ensures !Tied(cs, f) ==> cs[f].location == ds[g].location
  {
    assert cs[f] in ds && ds[g] in cs;
    var f' :| 0 <= f' < |ds| && ds[f'] == cs[f];
    var g' :| 0 <= g' < |cs| && cs[g'] == ds[g];
    assert !Better(ds[f'], ds[g]) && !Better(cs[g'], cs[f]);
    if Tied(cs, f) {
      var j :| 0 <= j < |cs| && Rivals(cs[j], cs[f]) && cs[j].location != cs[f].location;
      assert cs[j] in ds;
      var j' :| 0 <= j' < |ds| && ds[j'] == cs[j];
      assert Rivals(ds[j'], ds[g]) && Rivals(ds[f'], ds[g]);
    }
  }

  /** However the database orders its rows, an origin gets the same verdict, and the same
      location when it gets one. */
  lemma {:induction false} RowOrderIsIrrelevant(a: Table, b: Table, ia: Index, ib: Index, f: nat, g: nat)
    requires SameRows(a, b)
    requires Means(AllClaims(a), ia) && Means(AllClaims(b), ib)
    requires Leads(AllClaims(a), f) && Leads(AllClaims(b), g)
    requires AllClaims(a)[f].origin == AllClaims(b)[g].origin
    ensures var origin := AllClaims(a)[f].origin;
            && (ia[origin].None? <==> ib[origin].None?)
            && (ia[origin].Some? ==> AllClaims(a)[f].location == AllClaims(b)[g].location)
  {
    var cs, ds := AllClaims(a), AllClaims(b);
    forall c
      ensures c in cs <==> c in ds
    {
      if c in cs { SameClaims(a, b, c); }
      if c in ds { SameClaims(b, a, c); }
    }
    SameLeader(cs, ds, f, g);
    SameLeader(ds, cs, g, f);
  }
}
