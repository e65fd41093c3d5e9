/**
  Grouping findings by a model's reply: whatever it says, the groups partition the findings.
 */
module Correlator {
  import opened Basics
  import opened StableSort

  /** A proposed group: its ids as strings, what iterating them gives; or what has no such ids, not an
      object or with something there that cannot be iterated. */
  datatype Proposal = Malformed | Ids(ids: seq<string>)

  /** The reply's groups; or what is not an object or has something there that cannot be iterated. */
  datatype Reply = NoGroups | Groups(groups: seq<Proposal>)

  /** Reading such a reply raises. */
  predicate Raises(reply: Reply) {
    reply.NoGroups? || exists i | 0 <= i < |reply.groups| :: reply.groups[i].Malformed?
  }

  /** The ids of the groups, in their order. */
  function Proposed(proposals: seq<Proposal>, n: nat): seq<seq<string>>
    requires n <= |proposals|
    ensures |Proposed(proposals, n)| == n
  {
    if n == 0 then [] else Proposed(proposals, n - 1) + [IdsOf(proposals[n - 1])]
  }

  function IdsOf(p: Proposal): seq<string> {
    match p
    case Ids(ids) => ids
    case Malformed => []
  }

  /** The ids of a proposed group, less those unknown or already placed. */
  function Placeable(ids: seq<string>, n: nat, known: set<string>, taken: set<string>): seq<string>
    requires n <= |ids|
  {
    if n == 0 then []
    else if ids[n - 1] in known && ids[n - 1] !in taken
    then Placeable(ids, n - 1, known, taken) + [ids[n - 1]]
    else Placeable(ids, n - 1, known, taken)
  }

  function Elements(s: seq<string>): set<string> {
    set i | 0 <= i < |s| :: s[i]
  }

  /** All ids of the first `n` groups. */
  function Union(groups: seq<seq<string>>, n: nat): set<string>
    requires n <= |groups|
  {
    if n == 0 then {} else Union(groups, n - 1) + Elements(groups[n - 1])
  }

  predicate Disjoint(groups: seq<seq<string>>) {
    forall i, j | 0 <= i < j < |groups| :: Elements(groups[i]) !! Elements(groups[j])
  }

  predicate NonEmpty(groups: seq<seq<string>>) {
    forall i | 0 <= i < |groups| :: groups[i] != []
  }

  /** No id of the first `n` that the model left out occurs among them twice. */
  predicate RestIsDistinct(s: seq<string>, n: nat, taken: set<string>)
    requires n <= |s|
  {
    forall i, j | 0 <= i < j < n :: s[i] !in taken ==> s[i] != s[j]
  }

  lemma {:induction false} PlaceableHolds(ids: seq<string>, n: nat, known: set<string>, taken: set<string>)
    requires n <= |ids|
    ensures Elements(Placeable(ids, n, known, taken)) == (Elements(ids[..n]) * known) - taken
  {
    if n > 0 {
      PlaceableHolds(ids, n - 1, known, taken);
      var before := Placeable(ids, n - 1, known, taken);
      ElementsOfSnoc(ids[..n - 1], ids[n - 1]);
      ElementsOfSnoc(before, ids[n - 1]);
      assert ids[..n] == ids[..n - 1] + [ids[n - 1]];
    } else {
      assert ids[..0] == [];
    }
  }

  lemma {:induction false} ElementsOfSnoc(s: seq<string>, x: string)
    ensures Elements(s + [x]) == Elements(s) + {x}
  {
    forall y | y in Elements(s) + {x}
      ensures y in Elements(s + [x])
    {
      if y == x {
        assert (s + [x])[|s|] == x;
      } else {
        var i :| 0 <= i < |s| && s[i] == y;
        assert (s + [x])[i] == y;
      }
    }
  }

  lemma {:induction false} UnionOfSnoc(groups: seq<seq<string>>, n: nat, more: seq<string>)
    requires n <= |groups|
    ensures Union(groups + [more], n) == Union(groups, n)
  {
    if n > 0 {
      UnionOfSnoc(groups, n - 1, more);
    }
  }

  lemma {:induction false} GroupIsInUnion(groups: seq<seq<string>>, n: nat, i: nat)
    requires i < n <= |groups|
    ensures Elements(groups[i]) <= Union(groups, n)
  {
    if i < n - 1 {
      GroupIsInUnion(groups, n - 1, i);
    }
  }

  /** Adding a group of ids not placed before keeps the groups apart. */
  lemma {:induction false} OneMoreGroup(groups: seq<seq<string>>, group: seq<string>)
    requires Disjoint(groups) && Elements(group) !! Union(groups, |groups|)
    ensures Disjoint(groups + [group])
    ensures Union(groups + [group], |groups| + 1) == Union(groups, |groups|) + Elements(group)
  {
    UnionOfSnoc(groups, |groups|, group);
    forall i | 0 <= i < |groups|
      ensures Elements(groups[i]) !! Elements(group)
    {
      GroupIsInUnion(groups, |groups|, i);
    }
  }

  lemma {:induction false} UnionHasGroup(groups: seq<seq<string>>, n: nat, id: string) returns (i: nat)
    requires n <= |groups| && id in Union(groups, n)
    ensures i < n && id in Elements(groups[i])
  {
    i := n - 1;
    if id !in Elements(groups[i]) {
      i := UnionHasGroup(groups, n - 1, id);
    }
  }

  lemma {:induction false} MoreDisjoint(groups: seq<seq<string>>, id: string)
    ensures Disjoint(groups + [[id]]) <==> Disjoint(groups) && id !in Union(groups, |groups|)
  {
    var more := groups + [[id]];
    SingletonElements(id);
    if Disjoint(groups) && id !in Union(groups, |groups|) {
      OneMoreGroup(groups, [id]);
    }
    assert forall i | 0 <= i < |groups| :: more[i] == groups[i];
    if id in Union(groups, |groups|) {
      var i := UnionHasGroup(groups, |groups|, id);
      assert id in Elements(more[i]) * Elements(more[|groups|]);
    }
  }

  /** Some group holds both. */
  predicate Together(groups: seq<seq<string>>, x: string, y: string) {
    exists i | 0 <= i < |groups| :: x in Elements(groups[i]) && y in Elements(groups[i])
  }

  /** Proposal `n` is the first to name the id. */
  predicate FirstNamed(proposals: seq<Proposal>, n: nat, id: string) {
    n < |proposals| && id in IdsOf(proposals[n]) && forall m | 0 <= m < n :: id !in IdsOf(proposals[m])
  }

  /** One of the first `n` proposals is the first to name either. */
  predicate NamedTogether(proposals: seq<Proposal>, n: nat, x: string, y: string)
    requires n <= |proposals|
  {
    exists k | 0 <= k < n :: FirstNamed(proposals, k, x) && FirstNamed(proposals, k, y)
  }

  lemma {:induction false} UnionNames(proposals: seq<Proposal>, n: nat, id: string)
    requires n <= |proposals|
    ensures id in Union(Proposed(proposals, n), n) <==> exists m | 0 <= m < n :: id in IdsOf(proposals[m])
  {
    if n > 0 {
      UnionNames(proposals, n - 1, id);
      ProposedSplits(proposals, n - 1, n);
      assert id in Elements(IdsOf(proposals[n - 1])) <==> id in IdsOf(proposals[n - 1]);
    }
  }

  lemma {:induction false} TogetherOfSnoc(groups: seq<seq<string>>, group: seq<string>, x: string, y: string)
    ensures Together(groups + [group], x, y) <==>
            Together(groups, x, y) || (x in Elements(group) && y in Elements(group))
  {
    var more := groups + [group];
    assert forall i | 0 <= i < |groups| :: more[i] == groups[i];
    assert more[|groups|] == group;
    if Together(groups, x, y) {
      var i :| 0 <= i < |groups| && x in Elements(groups[i]) && y in Elements(groups[i]);
      assert x in Elements(more[i]) && y in Elements(more[i]);
    }
  }

  /** A proposal places together the known ids that it is the first to name. */
  lemma {:induction false} OneMoreProposal(proposals: seq<Proposal>, n: nat, groups: seq<seq<string>>,
                                           ids: seq<string>, known: set<string>, taken: set<string>, x: string,
                                           y: string)
    requires n < |proposals| && taken == Union(Proposed(proposals, n), n) * known && x in known && y in known
    requires Elements(ids) == (Elements(IdsOf(proposals[n])) * known) - taken
    requires Together(groups, x, y) <==> NamedTogether(proposals, n, x, y)
    ensures Together(groups + [ids], x, y) <==> NamedTogether(proposals, n + 1, x, y)
  {
    TogetherOfSnoc(groups, ids, x, y);
    UnionNames(proposals, n, x);
    UnionNames(proposals, n, y);
    assert x in Elements(ids) <==> FirstNamed(proposals, n, x);
    assert y in Elements(ids) <==> FirstNamed(proposals, n, y);
  }

  /** Known ids are together exactly if the first `n` proposals put them together. */
  ghost predicate Follows(groups: seq<seq<string>>, proposals: seq<Proposal>, n: nat, known: set<string>)
    requires n <= |proposals|
  {
    forall x, y | x in known && y in known :: Together(groups, x, y) <==> NamedTogether(proposals, n, x, y)
  }

  lemma {:induction false} FollowsOneMore(proposals: seq<Proposal>, n: nat, groups: seq<seq<string>>,
                                          ids: seq<string>, known: set<string>, taken: set<string>)
    requires n < |proposals| && taken == Union(Proposed(proposals, n), n) * known
    requires Elements(ids) == (Elements(IdsOf(proposals[n])) * known) - taken
    requires Follows(groups, proposals, n, known)
    ensures Follows(groups + [ids], proposals, n + 1, known)
    ensures ids == [] ==> Follows(groups, proposals, n + 1, known)
  {
    forall x, y | x in known && y in known
      ensures Together(groups + [ids], x, y) <==> NamedTogether(proposals, n + 1, x, y)
      ensures ids == [] ==> (Together(groups + [ids], x, y) <==> Together(groups, x, y))
    {
      OneMoreProposal(proposals, n, groups, ids, known, taken, x, y);
      TogetherOfSnoc(groups, ids, x, y);
    }
  }

  /** `correlate`: it raises exactly if there are two findings or more and the reply is malformed.
      Otherwise every finding is in some group and no group is empty; two are in one group exactly if
      one proposal is the first to name either; and the groups are apart exactly if no id that the
      model leaves out was given twice, as with distinct ids. */
  method Correlate(inputIds: seq<string>, reply: Reply) returns (result: Option<seq<seq<string>>>)
    ensures result.None? <==> |inputIds| > 1 && Raises(reply)
    ensures result.Some? ==> Union(result.value, |result.value|) == Elements(inputIds) && NonEmpty(result.value)
    ensures result.Some? && |inputIds| > 1 ==>
      var n := |reply.groups|;
      Disjoint(result.value) <==> RestIsDistinct(inputIds, |inputIds|, Union(Proposed(reply.groups, n), n))
    ensures result.Some? && Distinct(inputIds) ==> Disjoint(result.value)
    ensures result.Some? && |inputIds| > 1 ==>
      forall x, y | x in inputIds && y in inputIds && x != y ::
        Together(result.value, x, y) <==> NamedTogether(reply.groups, |reply.groups|, x, y)
    ensures |inputIds| <= 1 ==> result == Some(if inputIds == [] then [] else [inputIds])
  {
    if |inputIds| <= 1 {
      return Some(if inputIds == [] then [] else [inputIds]);
    }
    var placed := PlaceReply(inputIds, reply);
    if placed.None? {
      return None;
    }
    var groups := PlaceRest(inputIds, placed.value.0, placed.value.1);
    return Some(groups);
  }

  lemma {:induction false} ProposedSplits(proposals: seq<Proposal>, n: nat, m: nat)
    requires n <= m <= |proposals|
    ensures Union(Proposed(proposals, m), n) == Union(Proposed(proposals, n), n)
    decreases m
  {
    if n < m {
      ProposedSplits(proposals, n, m - 1);
      UnionOfSnoc(Proposed(proposals, m - 1), n, IdsOf(proposals[m - 1]));
    }
  }

  /** What the first `n` proposals have made of the known ids. */
  ghost predicate Placed(groups: seq<seq<string>>, taken: set<string>, proposals: seq<Proposal>, n: nat,
                         known: set<string>)
    requires n <= |proposals|
  {
    && taken == Union(groups, |groups|) && taken == Union(Proposed(proposals, n), n) * known
    && NonEmpty(groups) && Disjoint(groups) && Follows(groups, proposals, n, known)
  }

  /** The model's groups, cut down to input ids not yet placed, and the ids placed in them. */
  method PlaceReply(inputIds: seq<string>, reply: Reply) returns (placed: Option<(seq<seq<string>>, set<string>)>)
    ensures placed.None? <==> Raises(reply)
    ensures placed.Some? ==>
      Placed(placed.value.0, placed.value.1, reply.groups, |reply.groups|, Elements(inputIds))
  {
    if reply.NoGroups? {
      return None;
    }
    var known := Elements(inputIds);
    var groups: seq<seq<string>>, taken: set<string> := [], {};
    for n := 0 to |reply.groups|
      invariant forall i | 0 <= i < n :: reply.groups[i].Ids?
      invariant Placed(groups, taken, reply.groups, n, known)
    {
      if reply.groups[n].Malformed? {
        return None;
      }
      groups, taken := PlaceProposal(reply.groups[n].ids, groups, taken, known, reply.groups, n);
    }
    return Some((groups, taken));
  }

  method PlaceProposal(named: seq<string>, groups: seq<seq<string>>, taken: set<string>, known: set<string>,
                       ghost proposals: seq<Proposal>, ghost n: nat)
    returns (groups': seq<seq<string>>, taken': set<string>)
    requires n < |proposals| && proposals[n] == Ids(named) && Placed(groups, taken, proposals, n, known)
    ensures Placed(groups', taken', proposals, n + 1, known)
  {
    var ids := Placeable(named, |named|, known, taken);
    PlaceableHolds(named, |named|, known, taken);
    assert named[..|named|] == named;
    ProposedSplits(proposals, n, n + 1);
    assert Union(Proposed(proposals, n + 1), n + 1) * known == taken + Elements(ids);
    FollowsOneMore(proposals, n, groups, ids, known, taken);
    if ids == [] {
      assert Elements(ids) == {};
      return groups, taken;
    }
    OneMoreGroup(groups, ids);
    return groups + [ids], taken + Elements(ids);
  }

  /** A group of its own for every id the model did not place. */
  method PlaceRest(inputIds: seq<string>, placed: seq<seq<string>>, taken: set<string>)
    returns (groups: seq<seq<string>>)
    requires taken == Union(placed, |placed|) && taken <= Elements(inputIds) && NonEmpty(placed) && Disjoint(placed)
    ensures Union(groups, |groups|) == Elements(inputIds) && NonEmpty(groups)
    ensures Disjoint(groups) <==> RestIsDistinct(inputIds, |inputIds|, taken)
    ensures forall x, y | x != y :: Together(groups, x, y) <==> Together(placed, x, y)
  {
    groups := placed;
    for n := 0 to |inputIds|
      invariant NonEmpty(groups) && Union(groups, |groups|) == taken + Elements(inputIds[..n])
      invariant Disjoint(groups) <==> RestIsDistinct(inputIds, n, taken)
      invariant forall x, y | x != y :: Together(groups, x, y) <==> Together(placed, x, y)
    {
      var id := inputIds[n];
      assert inputIds[..n + 1] == inputIds[..n] + [id];
      ElementsOfSnoc(inputIds[..n], id);
      if id !in taken {
        SingletonElements(id);
        UnionOfSnoc(groups, |groups|, [id]);
        MoreDisjoint(groups, id);
        forall x, y | x != y
          ensures Together(groups + [[id]], x, y) <==> Together(groups, x, y)
        {
          TogetherOfSnoc(groups, [id], x, y);
        }
        groups := groups + [[id]];
      }
    }
    assert inputIds[..|inputIds|] == inputIds;
  }

  lemma {:induction false} SingletonElements(id: string)
    ensures Elements([id]) == {id}
  {
    assert [id][0] == id;
  }
}
