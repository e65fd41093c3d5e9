/**
  Updates of the attack graph over time: what each keeps, and when a node was first and last
  seen.
 */
module AttackGraphUpdates {
  import opened Basics
  import opened AttackGraph

  // ----- counts -----------------------------------------------------------------------------

  function CategoryOf(id: Id): Category {
    match id
    case AssetId(_) => Assets
    case ServiceId(_) => Services
    case FindingId(_) => Findings
    case TechniqueId(_) => Techniques
    case AccessId(_) => Accesses
  }

  function CountOf(nodes: seq<Node>, n: nat, c: Category): nat
    requires n <= |nodes|
  {
    if n == 0 then 0 else CountOf(nodes, n - 1, c) + if CategoryOf(nodes[n - 1].id) == c then 1 else 0
  }

  function Get(counts: map<Category, nat>, c: Category): nat {
    if c in counts then counts[c] else 0
  }

  method Counts(nodes: seq<Node>) returns (counts: map<Category, nat>)
    ensures forall c :: Get(counts, c) == CountOf(nodes, |nodes|, c)
  {
    counts := map[];
    for n := 0 to |nodes|
      invariant forall c :: Get(counts, c) == CountOf(nodes, n, c)
    {
      var c := CategoryOf(nodes[n].id);
      counts := counts[c := Get(counts, c) + 1];
    }
  }

  /** The counts add up to the number of nodes. */
  lemma {:induction false} CountsAddUp(nodes: seq<Node>, n: nat)
    requires n <= |nodes|
    ensures CountOf(nodes, n, Assets) + CountOf(nodes, n, Services) + CountOf(nodes, n, Findings)
            + CountOf(nodes, n, Techniques) + CountOf(nodes, n, Accesses) == n
  {
    if n > 0 {
      CountsAddUp(nodes, n - 1);
    }
  }

  // ----- merging ----------------------------------------------------------------------------

  /** When a node, or an edge, of an earlier graph was first seen; the last entry for an id wins. */
  function NodeSeen(nodes: seq<Node>, n: nat, id: Id): Option<Time>
    requires n <= |nodes|
  {
    if n == 0 then None
    else if nodes[n - 1].id == id then Some(nodes[n - 1].firstSeen)
    else NodeSeen(nodes, n - 1, id)
  }

  function EdgeSeen(edges: seq<Edge>, n: nat, key: Key): Option<Time>
    requires n <= |edges|
  {
    if n == 0 then None
    else if edges[n - 1].key == key then Some(edges[n - 1].firstSeen)
    else EdgeSeen(edges, n - 1, key)
  }

  function Or(seen: Option<Time>, now: Time): Time {
    if seen.Some? then seen.value else now
  }

  function Carried(existing: Graph, n: Node, now: Time): Node {
    n.(firstSeen := Or(NodeSeen(existing.nodes, |existing.nodes|, n.id), n.firstSeen), lastSeen := now)
  }

  function CarriedEdge(existing: Graph, e: Edge): Edge {
    e.(firstSeen := Or(EdgeSeen(existing.edges, |existing.edges|, e.key), e.firstSeen))
  }

  /** `merge_graph`: the fresh graph, with the first-seen times of the existing one. */
  method MergeGraph(existing: Graph, nodes: seq<Node>, edges: seq<Edge>, now: Time) returns (g: Graph)
    ensures |g.nodes| == |nodes| && forall i | 0 <= i < |nodes| :: g.nodes[i] == Carried(existing, nodes[i], now)
    ensures |g.edges| == |edges| && forall i | 0 <= i < |edges| :: g.edges[i] == CarriedEdge(existing, edges[i])
    ensures forall c :: Get(g.counts, c) == CountOf(g.nodes, |g.nodes|, c)
    ensures g.extra == existing.extra
  {
    var seen: map<Id, Time> := map[];
    for n := 0 to |existing.nodes|
      invariant forall id :: (if id in seen then Some(seen[id]) else None) == NodeSeen(existing.nodes, n, id)
    {
      seen := seen[existing.nodes[n].id := existing.nodes[n].firstSeen];
    }
    var merged := nodes;
    for i := 0 to |nodes|
      invariant |merged| == |nodes|
      invariant forall j | 0 <= j < i :: merged[j] == Carried(existing, nodes[j], now)
      invariant forall j | i <= j < |nodes| :: merged[j] == nodes[j]
    {
      var id := merged[i].id;
      assert (if id in seen then Some(seen[id]) else None) == NodeSeen(existing.nodes, |existing.nodes|, id);
      if id in seen {
        merged := merged[i := merged[i].(firstSeen := seen[id])];
      }
      merged := merged[i := merged[i].(lastSeen := now)];
    }
    var links := MergeEdges(existing, edges);
    var counts := Counts(merged);
    g := Graph(merged, links, counts, existing.extra);
  }

  method MergeEdges(existing: Graph, edges: seq<Edge>) returns (links: seq<Edge>)
    ensures |links| == |edges| && forall i | 0 <= i < |edges| :: links[i] == CarriedEdge(existing, edges[i])
  {
    var seen: map<Key, Time> := map[];
    for n := 0 to |existing.edges|
      invariant forall key :: (if key in seen then Some(seen[key]) else None) == EdgeSeen(existing.edges, n, key)
    {
      seen := seen[existing.edges[n].key := existing.edges[n].firstSeen];
    }
    links := edges;
    for i := 0 to |edges|
      invariant |links| == |edges|
      invariant forall j | 0 <= j < i :: links[j] == CarriedEdge(existing, edges[j])
      invariant forall j | i <= j < |edges| :: links[j] == edges[j]
    {
      var key := links[i].key;
      assert (if key in seen then Some(seen[key]) else None) == EdgeSeen(existing.edges, |existing.edges|, key);
      if key in seen {
        links := links[i := links[i].(firstSeen := seen[key])];
      }
    }
  }

  // ----- one update -------------------------------------------------------------------------

  /** What an update makes of an existing graph: exactly what the evidence supports, everything
      seen now, and first seen when the existing graph says or else now. */
  ghost predicate Updated(existing: Graph, ev: Evidence, now: Time, g: Graph) {
    && Supported(ev, g.nodes, g.edges)
    && (forall i | 0 <= i < |g.nodes| :: g.nodes[i].lastSeen == now
         && g.nodes[i].firstSeen == Or(NodeSeen(existing.nodes, |existing.nodes|, g.nodes[i].id), now))
    && (forall i | 0 <= i < |g.edges| ::
         g.edges[i].firstSeen == Or(EdgeSeen(existing.edges, |existing.edges|, g.edges[i].key), now))
    && (forall c :: Get(g.counts, c) == CountOf(g.nodes, |g.nodes|, c))
    && g.extra == existing.extra
  }

  method UpdateGraph(existing: Graph, ev: Evidence, now: Time) returns (g: Graph)
    ensures Updated(existing, ev, now, g)
  {
    var nodes, edges := BuildGraph(ev, now);
    g := MergeGraph(existing, nodes, edges, now);
    SameIds(nodes, edges, g.nodes, g.edges);
  }

  lemma {:induction false} SameIds(nodes: seq<Node>, edges: seq<Edge>, nodes': seq<Node>, edges': seq<Edge>)
    requires |nodes'| == |nodes| && forall i | 0 <= i < |nodes| :: nodes'[i].id == nodes[i].id
    requires |edges'| == |edges| && forall i | 0 <= i < |edges| :: edges'[i].key == edges[i].key
    ensures forall id :: HasNode(nodes', id) <==> HasNode(nodes, id)
    ensures forall key :: HasEdge(edges', key) <==> HasEdge(edges, key)
  {
    forall id
      ensures HasNode(nodes', id) <==> HasNode(nodes, id)
    {
      if i: nat :| i < |nodes| && nodes[i].id == id {
        assert nodes'[i].id == id;
      }
    }
    forall key
      ensures HasEdge(edges', key) <==> HasEdge(edges, key)
    {
      if i: nat :| i < |edges| && edges[i].key == key {
        assert edges'[i].key == key;
      }
    }
  }

  // ----- growing evidence -------------------------------------------------------------------

  predicate Grows(a: Evidence, b: Evidence) {
    && (forall i | 0 <= i < |a.assets| :: a.assets[i] in b.assets)
    && (forall i | 0 <= i < |a.findings| :: a.findings[i] in b.findings)
    && (forall i | 0 <= i < |a.access| :: a.access[i] in b.access)
  }

  lemma {:induction false} NodesGrow(a: Evidence, b: Evidence, id: Id)
    requires Grows(a, b)
    ensures Present(a)(id) ==> Present(b)(id)
    ensures SupportsNode(a, id) ==> SupportsNode(b, id)
  {
    if NodeFromAssets(a.assets, |a.assets|, id) {
      var i :| 0 <= i < |a.assets| && id in AssetNodes(a.assets[i]);
      var j :| 0 <= j < |b.assets| && b.assets[j] == a.assets[i];
    }
    if NodeFromFindings(a.findings, |a.findings|, id) {
      var i :| 0 <= i < |a.findings| && FindingNode(a.findings[i], id);
      var j :| 0 <= j < |b.findings| && b.findings[j] == a.findings[i];
    }
    if NodeFromAccess(a.access, |a.access|, id) {
      var i :| 0 <= i < |a.access| && id in AccessNodes(a.access[i]);
      var j :| 0 <= j < |b.access| && b.access[j] == a.access[i];
    }
  }

  /** Exposes, maps-to and granted edges only grow. */
  lemma {:induction false} EdgesGrow(a: Evidence, b: Evidence, key: Key)
    requires Grows(a, b) && !key.rel.HasFinding? && SupportsEdge(a, key)
    ensures SupportsEdge(b, key)
  {
    if EdgeFromAssets(a.assets, |a.assets|, key) {
      var i :| 0 <= i < |a.assets| && key in AssetEdges(a.assets[i]);
      var j :| 0 <= j < |b.assets| && b.assets[j] == a.assets[i];
    } else if EdgeFromFindings(a.findings, |a.findings|, Present(a), key) {
      var i :| 0 <= i < |a.findings| && FindingEdge(a.findings[i], Present(a), key);
      var j :| 0 <= j < |b.findings| && b.findings[j] == a.findings[i];
      assert FindingEdge(b.findings[j], Present(b), key);
    } else {
      var i :| 0 <= i < |a.access| && key in AccessEdges(a.access[i], Present(a));
      var j :| 0 <= j < |b.access| && b.access[j] == a.access[i];
      NodesGrow(a, b, key.source);
      assert key in AccessEdges(b.access[j], Present(b));
    }
  }

  /** A finding keeps its place, unless that was a host and the service it was resolved to has
      since become a node: then it moves there. */
  lemma {:induction false} PlaceMovesOnlyToTheService(a: Evidence, b: Evidence, f: Finding)
    requires Grows(a, b) && Place(f, Present(a)).Some?
    ensures Place(f, Present(b)) ==
      if Present(b)(ServiceId(f.service)) then Some(ServiceId(f.service)) else Place(f, Present(a))
  {
    NodesGrow(a, b, ServiceId(f.service));
    if f.host.Some? {
      NodesGrow(a, b, AssetId(f.host.value));
    }
  }

  /** So a has-finding edge can disappear: one finding on a host, then its service. */
  lemma {:induction false} HostEdgeIsReplaced(f: Finding, host: Asset, service: Asset)
    requires f.fingerprint != "" && f.service != "" && f.host == Some(host.value)
    requires host.kind.Host? && host.value != "" && service.kind.Service? && service.value == f.service
    ensures var a, b := Evidence([host], [f], []), Evidence([host, service], [f], []);
      var onHost := Key(AssetId(host.value), FindingId(f.fingerprint), HasFinding);
      var onService := Key(ServiceId(f.service), FindingId(f.fingerprint), HasFinding);
      && Grows(a, b) && SupportsEdge(a, onHost) && !SupportsEdge(b, onHost) && SupportsEdge(b, onService)
  {
    var a, b := Evidence([host], [f], []), Evidence([host, service], [f], []);
    assert a.assets[0] == b.assets[0] == host && b.assets[1] == service;
    assert a.findings[0] == b.findings[0] == f;
    assert AssetId(host.value) in AssetNodes(host) && ServiceId(f.service) in AssetNodes(service);
    assert Present(a)(AssetId(host.value)) && !Present(a)(ServiceId(f.service)) && Present(b)(ServiceId(f.service));
    assert FindingEdge(a.findings[0], Present(a), Key(AssetId(host.value), FindingId(f.fingerprint), HasFinding));
    assert FindingEdge(b.findings[0], Present(b), Key(ServiceId(f.service), FindingId(f.fingerprint), HasFinding));
  }

  // ----- along a run of updates -------------------------------------------------------------

  datatype Step = Step(ev: Evidence, now: Time)

  /** Graph `i + 1` is what update `i` made of graph `i`, starting without nodes or edges. */
  ghost predicate History(steps: seq<Step>, graphs: seq<Graph>) {
    && |graphs| == |steps| + 1 && graphs[0].nodes == [] && graphs[0].edges == []
    && (forall i | 0 <= i < |steps| :: Updated(graphs[i], steps[i].ev, steps[i].now, graphs[i + 1]))
    && (forall i | 0 < i < |steps| :: Grows(steps[i - 1].ev, steps[i].ev))
  }

  /** Step `k` is the first whose evidence supports the node. */
  predicate FirstSupport(steps: seq<Step>, k: nat, id: Id) {
    k < |steps| && SupportsNode(steps[k].ev, id) && forall j | 0 <= j < k :: !SupportsNode(steps[j].ev, id)
  }

  predicate FirstEdgeSupport(steps: seq<Step>, k: nat, key: Key) {
    k < |steps| && SupportsEdge(steps[k].ev, key) && forall j | 0 <= j < k :: !SupportsEdge(steps[j].ev, key)
  }

  lemma {:induction false} NodeSeenFinds(nodes: seq<Node>, n: nat, id: Id)
    requires n <= |nodes|
    ensures NodeSeen(nodes, n, id).None? <==> forall i | 0 <= i < n :: nodes[i].id != id
    ensures NodeSeen(nodes, n, id).Some? ==>
      exists i | 0 <= i < n :: nodes[i].id == id && NodeSeen(nodes, n, id) == Some(nodes[i].firstSeen)
  {
    if n > 0 {
      NodeSeenFinds(nodes, n - 1, id);
    }
  }

  lemma {:induction false} EdgeSeenFinds(edges: seq<Edge>, n: nat, key: Key)
    requires n <= |edges|
    ensures EdgeSeen(edges, n, key).None? <==> forall i | 0 <= i < n :: edges[i].key != key
    ensures EdgeSeen(edges, n, key).Some? ==>
      exists i | 0 <= i < n :: edges[i].key == key && EdgeSeen(edges, n, key) == Some(edges[i].firstSeen)
  {
    if n > 0 {
      EdgeSeenFinds(edges, n - 1, key);
    }
  }

  /** Every node of every graph of a run was first seen at the first update whose evidence
      supported it, and last seen at the latest. */
  lemma {:induction false} NodeTimes(steps: seq<Step>, graphs: seq<Graph>, n: nat, i: nat) returns (k: nat)
    requires History(steps, graphs) && n < |steps| && i < |graphs[n + 1].nodes|
    ensures k <= n && FirstSupport(steps, k, graphs[n + 1].nodes[i].id)
    ensures graphs[n + 1].nodes[i].firstSeen == steps[k].now && graphs[n + 1].nodes[i].lastSeen == steps[n].now
  {
    var node := graphs[n + 1].nodes[i];
    var before := graphs[n].nodes;
    assert Updated(graphs[n], steps[n].ev, steps[n].now, graphs[n + 1]);
    assert HasNode(graphs[n + 1].nodes, node.id);
    NodeSeenFinds(before, |before|, node.id);
    var seen := NodeSeen(before, |before|, node.id);
    if seen.Some? {
      var j :| 0 <= j < |before| && before[j].id == node.id && seen == Some(before[j].firstSeen);
      k := NodeTimes(steps, graphs, n - 1, j);
    } else {
      k := n;
      NotYetSupported(steps, graphs, n, node.id);
    }
  }

  lemma {:induction false} NotYetSupported(steps: seq<Step>, graphs: seq<Graph>, n: nat, id: Id)
    requires History(steps, graphs) && n <= |steps| && !HasNode(graphs[n].nodes, id)
    ensures forall j | 0 <= j < n :: !SupportsNode(steps[j].ev, id)
  {
    if n > 0 {
      assert Updated(graphs[n - 1], steps[n - 1].ev, steps[n - 1].now, graphs[n]);
      if n > 1 {
        assert Updated(graphs[n - 2], steps[n - 2].ev, steps[n - 2].now, graphs[n - 1]);
        assert Grows(steps[n - 2].ev, steps[n - 1].ev);
        NodesGrow(steps[n - 2].ev, steps[n - 1].ev, id);
      }
      NotYetSupported(steps, graphs, n - 1, id);
    }
  }

  /** Node ids only grow along a run. */
  lemma {:induction false} NodeIdsOnlyGrow(steps: seq<Step>, graphs: seq<Graph>, n: nat, id: Id)
    requires History(steps, graphs) && n < |steps| && HasNode(graphs[n].nodes, id)
    ensures HasNode(graphs[n + 1].nodes, id)
  {
    assert Updated(graphs[n], steps[n].ev, steps[n].now, graphs[n + 1]);
    if n > 0 {
      assert Updated(graphs[n - 1], steps[n - 1].ev, steps[n - 1].now, graphs[n]);
      assert Grows(steps[n - 1].ev, steps[n].ev);
      NodesGrow(steps[n - 1].ev, steps[n].ev, id);
    }
  }

  /** The same for every edge that is not a has-finding one. */
  lemma {:induction false} EdgeTimes(steps: seq<Step>, graphs: seq<Graph>, n: nat, i: nat) returns (k: nat)
    requires History(steps, graphs) && n < |steps| && i < |graphs[n + 1].edges|
    requires !graphs[n + 1].edges[i].key.rel.HasFinding?
    ensures k <= n && FirstEdgeSupport(steps, k, graphs[n + 1].edges[i].key)
    ensures graphs[n + 1].edges[i].firstSeen == steps[k].now
  {
    var edge := graphs[n + 1].edges[i];
    var before := graphs[n].edges;
    assert Updated(graphs[n], steps[n].ev, steps[n].now, graphs[n + 1]);
    assert HasEdge(graphs[n + 1].edges, edge.key);
    EdgeSeenFinds(before, |before|, edge.key);
    var seen := EdgeSeen(before, |before|, edge.key);
    if seen.Some? {
      var j :| 0 <= j < |before| && before[j].key == edge.key && seen == Some(before[j].firstSeen);
      k := EdgeTimes(steps, graphs, n - 1, j);
    } else {
      k := n;
      EdgeNotYetSupported(steps, graphs, n, edge.key);
    }
  }

  lemma {:induction false} EdgeNotYetSupported(steps: seq<Step>, graphs: seq<Graph>, n: nat, key: Key)
    requires History(steps, graphs) && n <= |steps| && !key.rel.HasFinding? && !HasEdge(graphs[n].edges, key)
    ensures forall j | 0 <= j < n :: !SupportsEdge(steps[j].ev, key)
  {
    if n > 0 {
      assert Updated(graphs[n - 1], steps[n - 1].ev, steps[n - 1].now, graphs[n]);
      if n > 1 {
        assert Updated(graphs[n - 2], steps[n - 2].ev, steps[n - 2].now, graphs[n - 1]);
        assert Grows(steps[n - 2].ev, steps[n - 1].ev);
        if SupportsEdge(steps[n - 2].ev, key) {
          EdgesGrow(steps[n - 2].ev, steps[n - 1].ev, key);
        }
      }
      EdgeNotYetSupported(steps, graphs, n - 1, key);
    }
  }
}
