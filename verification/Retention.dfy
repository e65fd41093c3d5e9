/**
  Retention by age with a protected newest few: ranked eligibility and batch deletion as set
  comprehensions, and what any number of purges keeps and drains.
 */
module Retention {
  import opened Basics

  type Id = nat

  /** A row of any swept table.  `ts` is the column the sweep ranks by, for a scan its completion
      or else creation time; `sweepable` the table's own filter: a finished scan, an issued
      assessment.  The other columns belong to reports. */
  datatype Row = Row(id: Id, ts: Option<int>, sweepable: bool, uri: Option<string>, cites: set<Id>, scansPurged: bool)

  datatype Policy = Policy(cutoff: int, minKeep: nat, batch: nat)

  /** A negative window counts as none. */
  function Window(window: int): nat {
    if window < 0 then 0 else window
  }

  function Cutoff(now: int, window: int): int {
    now - Window(window)
  }

  predicate Keyed(rows: set<Row>) {
    forall a, b | a in rows && b in rows :: a.id == b.id ==> a == b
  }

  /** `ORDER BY ts DESC, id DESC`, NULLs last. */
  predicate Newer(a: Row, b: Row) {
    match (a.ts, b.ts)
    case (Some(s), Some(t)) => s > t || (s == t && a.id > b.id)
    case (Some(_), None) => true
    case (None, Some(_)) => false
    case (None, None) => a.id > b.id
  }

  function NewerThan(rows: set<Row>, r: Row): set<Row> {
    set x | x in rows && x.sweepable && Newer(x, r)
  }

  /** Among the newest `minKeep` of those the sweep ranks. */
  predicate Protected(rows: set<Row>, minKeep: nat, r: Row) {
    |NewerThan(rows, r)| < minKeep
  }

  /** `rn > min_keep AND ts IS NOT NULL AND ts < cutoff`. */
  function Eligible(rows: set<Row>, p: Policy): set<Row> {
    set r | r in rows && r.sweepable && !Protected(rows, p.minKeep, r) && r.ts.Some? && r.ts.value < p.cutoff
  }

  function OlderIn(rows: set<Row>, r: Row): set<Row> {
    set x | x in rows && Newer(r, x)
  }

  /** `ORDER BY ts ASC, id ASC LIMIT batch`. */
  function Oldest(rows: set<Row>, batch: nat): set<Row> {
    set r | r in rows && |OlderIn(rows, r)| < batch
  }

  function Batch(rows: set<Row>, p: Policy): set<Row> {
    Oldest(Eligible(rows, p), p.batch)
  }

  function Purged(rows: set<Row>, p: Policy): set<Row> {
    rows - Batch(rows, p)
  }

  // ----- one purge --------------------------------------------------------------------------

  lemma {:induction false} NewerIsAnOrder(a: Row, b: Row, c: Row)
    ensures Newer(a, b) && Newer(b, c) ==> Newer(a, c)
    ensures !(Newer(a, b) && Newer(b, a))
    ensures a.id != b.id ==> Newer(a, b) || Newer(b, a)
  {
  }

  lemma {:induction false} SubsetSize(a: set<Row>, b: set<Row>)
    requires a <= b
    ensures |a| <= |b| && (|a| == |b| ==> a == b)
  {
    assert b == a + (b - a);
    assert |b| == |a| + |b - a|;
  }

  /** A batch is an end of the order: what is older than one of its rows is in it too. */
  lemma {:induction false} BatchIsTheOldEnd(rows: set<Row>, batch: nat, r: Row, x: Row)
    requires r in Oldest(rows, batch) && x in rows && Newer(r, x)
    ensures x in Oldest(rows, batch)
  {
    forall y | y in OlderIn(rows, x)
      ensures y in OlderIn(rows, r)
    {
      NewerIsAnOrder(r, x, y);
    }
    SubsetSize(OlderIn(rows, x), OlderIn(rows, r));
  }

  /** Deleting a batch leaves exactly the remaining eligible rows eligible: none is lost, and no
      protected row becomes one. */
  lemma {:induction false} PurgeLeavesTheRestEligible(rows: set<Row>, p: Policy)
    ensures Eligible(Purged(rows, p), p) == Eligible(rows, p) - Batch(rows, p)
  {
    var left := Purged(rows, p);
    forall r | r in left
      ensures r in Eligible(left, p) <==> r in Eligible(rows, p)
    {
      assert NewerThan(left, r) <= NewerThan(rows, r);
      SubsetSize(NewerThan(left, r), NewerThan(rows, r));
      if r in Eligible(rows, p) {
        forall x | x in NewerThan(rows, r)
          ensures x in NewerThan(left, r)
        {
          if x in Batch(rows, p) {
            BatchIsTheOldEnd(Eligible(rows, p), p.batch, x, r);
          }
        }
        assert NewerThan(left, r) == NewerThan(rows, r);
      }
    }
  }

  // ----- how much a batch takes -------------------------------------------------------------

  lemma {:induction false} NewestExists(rows: set<Row>) returns (m: Row)
    requires rows != {} && Keyed(rows)
    ensures m in rows && forall x | x in rows && x != m :: Newer(m, x)
    decreases |rows|
  {
    m :| m in rows;
    if rows != {m} {
      var rest := rows - {m};
      var n := NewestExists(rest);
      NewerIsAnOrder(m, n, m);
      if Newer(n, m) {
        m := n;
      } else {
        forall x | x in rows && x != m
          ensures Newer(m, x)
        {
          NewerIsAnOrder(m, n, x);
        }
      }
    }
  }

  lemma {:induction false} OldestSize(rows: set<Row>, batch: nat)
    requires Keyed(rows)
    ensures |Oldest(rows, batch)| == if |rows| < batch then |rows| else batch
    decreases |rows|
  {
    if rows != {} {
      var m := NewestExists(rows);
      var rest := rows - {m};
      OldestSize(rest, batch);
      assert OlderIn(rows, m) == rest by {
        NewerIsAnOrder(m, m, m);
      }
      forall r | r in rest
        ensures OlderIn(rows, r) == OlderIn(rest, r)
      {
        NewerIsAnOrder(m, r, m);
      }
      assert Oldest(rows, batch) == Oldest(rest, batch) + if |rest| < batch then {m} else {};
    } else {
      assert Oldest(rows, batch) == {};
    }
  }

  // ----- by row number ----------------------------------------------------------------------

  /** The rows that the sweep ranks, each once, newest first, ties by id and the undated last. */
  ghost predicate Ranking(rows: set<Row>, ranked: seq<Row>) {
    && (forall r :: r in ranked <==> r in rows && r.sweepable)
    && (forall i, j | 0 <= i < j < |ranked| :: Precedes(ranked[i], ranked[j]))
  }

  predicate Precedes(a: Row, b: Row) {
    && (b.ts.Some? ==> a.ts.Some? && a.ts.value >= b.ts.value)
    && (a.ts == b.ts ==> a.id > b.id)
  }

  lemma {:induction false} NewerByNumber(ranked: seq<Row>, i: nat)
    requires i < |ranked| && forall k, l | 0 <= k < l < |ranked| :: Precedes(ranked[k], ranked[l])
    requires forall k | 0 <= k < |ranked| :: ranked[k].sweepable
    ensures |set x | x in ranked && Newer(x, ranked[i])| == i
  {
    assert forall k | 0 <= k < |ranked| :: Newer(ranked[k], ranked[i]) <==> k < i;
    PrefixSize(ranked, i);
    assert (set x | x in ranked && Newer(x, ranked[i])) == Members(ranked[..i]);
  }

  function Members(s: seq<Row>): set<Row> {
    set x | x in s
  }

  lemma {:induction false} PrefixSize(ranked: seq<Row>, n: nat)
    requires n <= |ranked| && forall k, l | 0 <= k < l < |ranked| :: ranked[k] != ranked[l]
    ensures |Members(ranked[..n])| == n
  {
    if n == 0 {
      assert Members(ranked[..0]) == {};
    } else {
      PrefixSize(ranked, n - 1);
      assert ranked[n - 1] !in ranked[..n - 1];
      assert Members(ranked[..n]) == Members(ranked[..n - 1]) + {ranked[n - 1]};
    }
  }

  /** Eligible are, by their number in the ranking, the rows after the first `minKeep` that are dated
      before the cutoff. */
  lemma {:induction false} EligibleByNumber(rows: set<Row>, ranked: seq<Row>, p: Policy, i: nat)
    requires Ranking(rows, ranked) && i < |ranked|
    ensures ranked[i] in Eligible(rows, p) <==> i >= p.minKeep && ranked[i].ts.Some? && ranked[i].ts.value < p.cutoff
  {
    NewerByNumber(ranked, i);
    assert NewerThan(rows, ranked[i]) == set x | x in ranked && Newer(x, ranked[i]);
  }

  /** And of those a batch takes the ones with fewer than a batch after them. */
  lemma {:induction false} BatchByNumber(rows: set<Row>, ranked: seq<Row>, p: Policy, i: nat)
    requires Ranking(rows, ranked) && i < |ranked| && ranked[i] in Eligible(rows, p)
    ensures ranked[i] in Batch(rows, p) <==>
            |Eligible(rows, p) * Members(ranked[i + 1..])| < p.batch
  {
    var eligible := Eligible(rows, p);
    assert forall k | 0 <= k < |ranked| :: Newer(ranked[i], ranked[k]) <==> i < k;
    forall x | x in eligible
      ensures Newer(ranked[i], x) <==> x in ranked[i + 1..]
    {
      assert x in ranked;
      var k :| 0 <= k < |ranked| && ranked[k] == x;
      assert i < k ==> ranked[i + 1..][k - i - 1] == x;
    }
    assert OlderIn(eligible, ranked[i]) == eligible * Members(ranked[i + 1..]);
  }

  // ----- any number of purges ---------------------------------------------------------------

  /** The table after each of a sequence of purges, with cutoffs and batches of their own. */
  function AfterPurges(rows: set<Row>, ps: seq<Policy>): set<Row> {
    if ps == [] then rows else AfterPurges(Purged(rows, ps[0]), ps[1..])
  }

  /** The newest `minKeep` rows survive any number of purges, whatever their cutoffs. */
  lemma {:induction false} NewestSurvive(rows: set<Row>, ps: seq<Policy>, minKeep: nat, r: Row)
    requires r in rows && Protected(rows, minKeep, r)
    requires forall i | 0 <= i < |ps| :: ps[i].minKeep == minKeep
    ensures r in AfterPurges(rows, ps)
  {
    if ps != [] {
      var left := Purged(rows, ps[0]);
      assert NewerThan(left, r) <= NewerThan(rows, r);
      SubsetSize(NewerThan(left, r), NewerThan(rows, r));
      NewestSurvive(left, ps[1..], minKeep, r);
    }
  }

  /** So do rows that are not old enough, without a timestamp, or not the sweep's to take. */
  lemma {:induction false} OthersSurvive(rows: set<Row>, ps: seq<Policy>, r: Row)
    requires r in rows
    requires forall i | 0 <= i < |ps| :: !r.sweepable || r.ts.None? || r.ts.value >= ps[i].cutoff
    ensures r in AfterPurges(rows, ps)
  {
    if ps != [] {
      OthersSurvive(Purged(rows, ps[0]), ps[1..], r);
    }
  }

  function Repeated(p: Policy, n: nat): seq<Policy> {
    seq(n, _ => p)
  }

  /** What `n` full batches hold. */
  function Full(n: nat, batch: nat): nat {
    if n == 0 then 0 else Full(n - 1, batch) + batch
  }

  /** Each purge takes a full batch while there is one: after `n` of them exactly this many
      eligible rows are left. */
  lemma {:induction false} EligibleLeft(rows: set<Row>, p: Policy, n: nat)
    requires Keyed(rows)
    ensures var before := |Eligible(rows, p)|;
      |Eligible(AfterPurges(rows, Repeated(p, n)), p)| ==
      if before < Full(n, p.batch) then 0 else before - Full(n, p.batch)
    decreases n
  {
    if n > 0 {
      var left := Purged(rows, p);
      assert Repeated(p, n)[0] == p && Repeated(p, n)[1..] == Repeated(p, n - 1);
      OldestSize(Eligible(rows, p), p.batch);
      PurgeLeavesTheRestEligible(rows, p);
      EligibleLeft(left, p, n - 1);
    }
  }

  lemma {:induction false} FullIsProduct(n: nat, batch: nat)
    ensures Full(n, batch) == n * batch
  {
    if n > 0 {
      FullIsProduct(n - 1, batch);
    }
  }

  /** The table drains in exactly ceil(eligible / batch) purges: the least number whose full
      batches hold them all. */
  lemma {:induction false} DrainsInCeilPurges(rows: set<Row>, p: Policy, n: nat)
    requires Keyed(rows)
    ensures Eligible(AfterPurges(rows, Repeated(p, n)), p) == {} <==> n * p.batch >= |Eligible(rows, p)|
  {
    EligibleLeft(rows, p, n);
    FullIsProduct(n, p.batch);
  }
}
