/**
  The evidence-driven attack graph: rebuilt from all accumulated evidence at every update and
  merged onto what was there.
 */
module AttackGraph {
  import opened Basics

  type Time = int

  // ----- evidence ---------------------------------------------------------------------------

  datatype Kind = Service | Host | Unmodeled

  /** `host` is what the host helpers derive from the value or the metadata, if anything. */
  datatype Asset = Asset(kind: Kind, value: string, host: Option<string>, tool: string)

  datatype Technique = Technique(id: string, name: string)

  /** A malformed technique tuple is None; a finding resolved to no asset has an empty service. */
  datatype Finding = Finding(fingerprint: string, title: string, techniques: seq<Option<Technique>>, service: string,
                             host: Option<string>, tool: string)

  datatype Access = Access(target: string, accessType: string, host: Option<string>)

  datatype Evidence = Evidence(assets: seq<Asset>, findings: seq<Finding>, access: seq<Access>)

  // ----- graphs -----------------------------------------------------------------------------

  datatype Id =
    | ServiceId(value: string) | AssetId(host: string) | FindingId(fingerprint: string)
    | TechniqueId(technique: string) | AccessId(text: string)

  datatype Node = Node(id: Id, text: string, tool: string, firstSeen: Time, lastSeen: Time)

  datatype Rel = Exposes | HasFinding | MapsTo | Granted

  datatype Key = Key(source: Id, target: Id, rel: Rel)

  datatype Edge = Edge(key: Key, firstSeen: Time)

  /** `extra` holds the keys that are not the graph's own. */
  datatype Graph = Graph(nodes: seq<Node>, edges: seq<Edge>, counts: map<Category, nat>, extra: map<string, string>)

  datatype Category = Assets | Services | Findings | Techniques | Accesses

  predicate HasNode(nodes: seq<Node>, id: Id) {
    exists i | 0 <= i < |nodes| :: nodes[i].id == id
  }

  predicate HasEdge(edges: seq<Edge>, key: Key) {
    exists i | 0 <= i < |edges| :: edges[i].key == key
  }

  predicate UniqueNodes(nodes: seq<Node>) {
    forall i, j | 0 <= i < j < |nodes| :: nodes[i].id != nodes[j].id
  }

  predicate UniqueEdges(edges: seq<Edge>) {
    forall i, j | 0 <= i < j < |edges| :: edges[i].key != edges[j].key
  }

  // ----- what the evidence supports ---------------------------------------------------------

  function AssetNodes(a: Asset): set<Id> {
    if a.value == "" then {}
    else match a.kind
      case Service => {ServiceId(a.value)} + if a.host.Some? then {AssetId(a.host.value)} else {}
      case Host => {AssetId(a.value)}
      case Unmodeled => {}
  }

  function AssetEdges(a: Asset): set<Key> {
    if a.value != "" && a.kind.Service? && a.host.Some?
    then {Key(AssetId(a.host.value), ServiceId(a.value), Exposes)} else {}
  }

  predicate Usable(t: Option<Technique>) {
    t.Some? && t.value.id != ""
  }

  predicate Maps(f: Finding, n: nat, technique: string)
    requires n <= |f.techniques|
  {
    exists i | 0 <= i < n :: Usable(f.techniques[i]) && f.techniques[i].value.id == technique
  }

  /** The technique nodes, and the edges to them, of the first `n` techniques. */
  predicate Mapped(f: Finding, n: nat, id: Id)
    requires n <= |f.techniques|
  {
    id.TechniqueId? && Maps(f, n, id.technique)
  }

  predicate MappedEdge(f: Finding, n: nat, key: Key)
    requires n <= |f.techniques|
  {
    key.rel.MapsTo? && key.source == FindingId(f.fingerprint) && Mapped(f, n, key.target)
  }

  lemma {:induction false} MapsOneMore(f: Finding, n: nat)
    requires n < |f.techniques|
    ensures forall id :: Mapped(f, n + 1, id) <==>
      Mapped(f, n, id) || (Usable(f.techniques[n]) && id == TechniqueId(f.techniques[n].value.id))
  {
  }

  predicate FindingNode(f: Finding, id: Id) {
    f.fingerprint != "" && (id == FindingId(f.fingerprint) || Mapped(f, |f.techniques|, id))
  }

  /** The place a finding hangs on: the service it was seen at if that is a node, else the host
      if that is one. */
  function Place(f: Finding, present: Id -> bool): Option<Id> {
    if f.service == "" then None
    else if present(ServiceId(f.service)) then Some(ServiceId(f.service))
    else if f.host.Some? && present(AssetId(f.host.value)) then Some(AssetId(f.host.value))
    else None
  }

  predicate FindingEdge(f: Finding, present: Id -> bool, key: Key) {
    f.fingerprint != "" &&
    (|| (key.rel.HasFinding? && key.target == FindingId(f.fingerprint) && Place(f, present) == Some(key.source))
     || MappedEdge(f, |f.techniques|, key))
  }

  function AccessText(ac: Access): string {
    ac.target + ":" + (if ac.accessType == "" then "access" else ac.accessType)
  }

  function AccessNodes(ac: Access): set<Id> {
    if ac.target == "" then {} else {AccessId(AccessText(ac))}
  }

  function AccessEdges(ac: Access, present: Id -> bool): set<Key> {
    if ac.target != "" && ac.host.Some? && present(AssetId(ac.host.value))
    then {Key(AssetId(ac.host.value), AccessId(AccessText(ac)), Granted)} else {}
  }

  /** Some asset of the evidence is, or stands on, the node. */
  function Present(ev: Evidence): Id -> bool {
    (id: Id) => NodeFromAssets(ev.assets, |ev.assets|, id)
  }

  predicate NodeFromAssets(assets: seq<Asset>, n: nat, id: Id)
    requires n <= |assets|
  {
    exists i | 0 <= i < n :: id in AssetNodes(assets[i])
  }

  predicate EdgeFromAssets(assets: seq<Asset>, n: nat, key: Key)
    requires n <= |assets|
  {
    exists i | 0 <= i < n :: key in AssetEdges(assets[i])
  }

  predicate NodeFromFindings(findings: seq<Finding>, n: nat, id: Id)
    requires n <= |findings|
  {
    exists i | 0 <= i < n :: FindingNode(findings[i], id)
  }

  predicate EdgeFromFindings(findings: seq<Finding>, n: nat, present: Id -> bool, key: Key)
    requires n <= |findings|
  {
    exists i | 0 <= i < n :: FindingEdge(findings[i], present, key)
  }

  predicate NodeFromAccess(access: seq<Access>, n: nat, id: Id)
    requires n <= |access|
  {
    exists i | 0 <= i < n :: id in AccessNodes(access[i])
  }

  predicate EdgeFromAccess(access: seq<Access>, n: nat, present: Id -> bool, key: Key)
    requires n <= |access|
  {
    exists i | 0 <= i < n :: key in AccessEdges(access[i], present)
  }

  predicate SupportsNode(ev: Evidence, id: Id) {
    || NodeFromAssets(ev.assets, |ev.assets|, id)
    || NodeFromFindings(ev.findings, |ev.findings|, id)
    || NodeFromAccess(ev.access, |ev.access|, id)
  }

  predicate SupportsEdge(ev: Evidence, key: Key) {
    || EdgeFromAssets(ev.assets, |ev.assets|, key)
    || EdgeFromFindings(ev.findings, |ev.findings|, Present(ev), key)
    || EdgeFromAccess(ev.access, |ev.access|, Present(ev), key)
  }

  // ----- what the nodes carry ---------------------------------------------------------------

  /** A node that the evidence names, with the text and the tool it would carry. */
  datatype Mention = Mention(id: Id, text: string, tool: string)

  const LABEL_LENGTH := 160

  function Label(text: string): string {
    if |text| > LABEL_LENGTH then text[..LABEL_LENGTH] else text
  }

  /** The first mention of an id makes its node. */
  function With(nodes: seq<Node>, m: Mention, now: Time): seq<Node> {
    if HasNode(nodes, m.id) then nodes else nodes + [Node(m.id, Label(m.text), m.tool, now, now)]
  }

  function ServiceMention(a: Asset): Mention {
    Mention(ServiceId(a.value), a.value, a.tool)
  }

  function HostMention(host: string, tool: string): Mention {
    Mention(AssetId(host), host, tool)
  }

  function FindingMention(f: Finding): Mention {
    Mention(FindingId(f.fingerprint), if f.title == "" then f.fingerprint else f.title, f.tool)
  }

  function TechniqueMention(t: Technique): Mention {
    Mention(TechniqueId(t.id), if t.name == "" then t.id else t.name, "")
  }

  function AccessMention(ac: Access): Mention {
    Mention(AccessId(AccessText(ac)), if ac.accessType == "" then "access" else ac.accessType, "")
  }

  function WithAsset(nodes: seq<Node>, a: Asset, now: Time): seq<Node> {
    if a.value == "" then nodes
    else match a.kind
      case Service =>
        var more := With(nodes, ServiceMention(a), now);
        if a.host.Some? then With(more, HostMention(a.host.value, a.tool), now) else more
      case Host => With(nodes, HostMention(a.value, a.tool), now)
      case Unmodeled => nodes
  }

  function WithTechniques(nodes: seq<Node>, f: Finding, n: nat, now: Time): seq<Node>
    requires n <= |f.techniques|
  {
    if n == 0 then nodes
    else
      var before, t := WithTechniques(nodes, f, n - 1, now), f.techniques[n - 1];
      if Usable(t) then With(before, TechniqueMention(t.value), now) else before
  }

  function WithFinding(nodes: seq<Node>, f: Finding, now: Time): seq<Node> {
    if f.fingerprint == "" then nodes
    else WithTechniques(With(nodes, FindingMention(f), now), f, |f.techniques|, now)
  }

  function WithAccess(nodes: seq<Node>, ac: Access, now: Time): seq<Node> {
    if ac.target == "" then nodes else With(nodes, AccessMention(ac), now)
  }

  function WithAssets(nodes: seq<Node>, assets: seq<Asset>, n: nat, now: Time): seq<Node>
    requires n <= |assets|
  {
    if n == 0 then nodes else WithAsset(WithAssets(nodes, assets, n - 1, now), assets[n - 1], now)
  }

  function WithFindings(nodes: seq<Node>, findings: seq<Finding>, n: nat, now: Time): seq<Node>
    requires n <= |findings|
  {
    if n == 0 then nodes else WithFinding(WithFindings(nodes, findings, n - 1, now), findings[n - 1], now)
  }

  function WithAccesses(nodes: seq<Node>, access: seq<Access>, n: nat, now: Time): seq<Node>
    requires n <= |access|
  {
    if n == 0 then nodes else WithAccess(WithAccesses(nodes, access, n - 1, now), access[n - 1], now)
  }

  // ----- building ---------------------------------------------------------------------------

  class Builder {
    const now: Time
    var nodes: seq<Node>
    var edges: seq<Edge>

    constructor (now: Time)
      ensures this.now == now && nodes == [] && edges == []
    {
      this.now, nodes, edges := now, [], [];
    }

    ghost predicate Valid()
      reads this
    {
      && UniqueNodes(nodes) && UniqueEdges(edges)
      && (forall i | 0 <= i < |nodes| :: nodes[i].firstSeen == now)
      && (forall i | 0 <= i < |edges| :: edges[i].firstSeen == now)
      && (forall i | 0 <= i < |edges| :: HasNode(nodes, edges[i].key.source) && HasNode(nodes, edges[i].key.target))
    }

    /** `_node`: the first mention wins. */
    method AddNode(id: Id, text: string, tool: string)
      requires Valid()
      modifies this`nodes
      ensures Valid()
      ensures nodes == With(old(nodes), Mention(id, text, tool), now)
      ensures forall x :: HasNode(nodes, x) <==> old(HasNode(nodes, x)) || x == id
    {
      if !HasNode(nodes, id) {
        nodes := nodes + [Node(id, Label(text), tool, now, now)];
        assert nodes[|nodes| - 1].id == id;
        assert forall i | 0 <= i < |old(nodes)| :: nodes[i] == old(nodes)[i];
      }
    }

    /** `_edge`: only between nodes that both exist. */
    method AddEdge(key: Key)
      requires Valid()
      modifies this`edges
      ensures Valid()
      ensures forall x :: HasEdge(edges, x) <==>
        old(HasEdge(edges, x)) || (x == key && HasNode(nodes, key.source) && HasNode(nodes, key.target))
    {
      if !HasEdge(edges, key) && HasNode(nodes, key.source) && HasNode(nodes, key.target) {
        edges := edges + [Edge(key, now)];
        assert edges[|edges| - 1].key == key;
        assert forall i | 0 <= i < |old(edges)| :: edges[i] == old(edges)[i];
      }
    }

    method AddAsset(a: Asset)
      requires Valid()
      modifies this`nodes, this`edges
      ensures Valid()
      ensures nodes == WithAsset(old(nodes), a, now)
      ensures forall id :: HasNode(nodes, id) <==> old(HasNode(nodes, id)) || id in AssetNodes(a)
      ensures forall key :: HasEdge(edges, key) <==> old(HasEdge(edges, key)) || key in AssetEdges(a)
    {
      if a.value == "" {
        return;
      }
      match a.kind {
        case Service =>
          AddNode(ServiceId(a.value), a.value, a.tool);
          if a.host.Some? {
            AddNode(AssetId(a.host.value), a.host.value, a.tool);
            AddEdge(Key(AssetId(a.host.value), ServiceId(a.value), Exposes));
          }
        case Host => AddNode(AssetId(a.value), a.value, a.tool);
        case Unmodeled =>
      }
    }

    /** `present` is what the assets put into the graph. */
    method AddFinding(f: Finding, present: Id -> bool)
      requires Valid() && forall id: Id | id.ServiceId? || id.AssetId? :: HasNode(nodes, id) <==> present(id)
      modifies this`nodes, this`edges
      ensures Valid()
      ensures nodes == WithFinding(old(nodes), f, now)
      ensures forall id :: HasNode(nodes, id) <==> old(HasNode(nodes, id)) || FindingNode(f, id)
      ensures forall key :: HasEdge(edges, key) <==> old(HasEdge(edges, key)) || FindingEdge(f, present, key)
    {
      if f.fingerprint == "" {
        return;
      }
      var fid := FindingId(f.fingerprint);
      AddNode(fid, if f.title == "" then f.fingerprint else f.title, f.tool);
      if f.service != "" {
        if HasNode(nodes, ServiceId(f.service)) {
          AddEdge(Key(ServiceId(f.service), fid, HasFinding));
        } else if f.host.Some? && HasNode(nodes, AssetId(f.host.value)) {
          AddEdge(Key(AssetId(f.host.value), fid, HasFinding));
        }
      }
      AddTechniques(f);
    }

    method AddTechnique(fid: Id, technique: Option<Technique>)
      requires Valid() && HasNode(nodes, fid)
      modifies this`nodes, this`edges
      ensures Valid()
      ensures nodes == if Usable(technique) then With(old(nodes), TechniqueMention(technique.value), now)
                       else old(nodes)
      ensures forall id :: HasNode(nodes, id) <==>
        old(HasNode(nodes, id)) || (Usable(technique) && id == TechniqueId(technique.value.id))
      ensures forall key :: HasEdge(edges, key) <==>
        old(HasEdge(edges, key)) || (Usable(technique) && key == Key(fid, TechniqueId(technique.value.id), MapsTo))
    {
      if Usable(technique) {
        var t := technique.value;
        AddNode(TechniqueId(t.id), if t.name == "" then t.id else t.name, "");
        AddEdge(Key(fid, TechniqueId(t.id), MapsTo));
      }
    }

    method AddTechniques(f: Finding)
      requires Valid() && HasNode(nodes, FindingId(f.fingerprint))
      modifies this`nodes, this`edges
      ensures Valid()
      ensures nodes == WithTechniques(old(nodes), f, |f.techniques|, now)
      ensures forall id :: HasNode(nodes, id) <==> old(HasNode(nodes, id)) || Mapped(f, |f.techniques|, id)
      ensures forall key :: HasEdge(edges, key) <==> old(HasEdge(edges, key)) || MappedEdge(f, |f.techniques|, key)
    {
      for n := 0 to |f.techniques|
        invariant Valid() && HasNode(nodes, FindingId(f.fingerprint))
        invariant nodes == WithTechniques(old(nodes), f, n, now)
        invariant forall id :: HasNode(nodes, id) <==> old(HasNode(nodes, id)) || Mapped(f, n, id)
        invariant forall key :: HasEdge(edges, key) <==> old(HasEdge(edges, key)) || MappedEdge(f, n, key)
      {
        MapsOneMore(f, n);
        AddTechnique(FindingId(f.fingerprint), f.techniques[n]);
      }
    }

    method AddAccess(ac: Access, present: Id -> bool)
      requires Valid() && forall id: Id | id.AssetId? :: HasNode(nodes, id) <==> present(id)
      modifies this`nodes, this`edges
      ensures Valid()
      ensures nodes == WithAccess(old(nodes), ac, now)
      ensures forall id :: HasNode(nodes, id) <==> old(HasNode(nodes, id)) || id in AccessNodes(ac)
      ensures forall key :: HasEdge(edges, key) <==> old(HasEdge(edges, key)) || key in AccessEdges(ac, present)
    {
      if ac.target == "" {
        return;
      }
      var aid := AccessId(AccessText(ac));
      AddNode(aid, if ac.accessType == "" then "access" else ac.accessType, "");
      if ac.host.Some? && HasNode(nodes, AssetId(ac.host.value)) {
        AddEdge(Key(AssetId(ac.host.value), aid, Granted));
      }
    }

    method AddAssets(assets: seq<Asset>)
      requires Valid() && nodes == [] && edges == []
      modifies this`nodes, this`edges
      ensures Valid()
      ensures nodes == WithAssets([], assets, |assets|, now)
      ensures forall id :: HasNode(nodes, id) <==> NodeFromAssets(assets, |assets|, id)
      ensures forall key :: HasEdge(edges, key) <==> EdgeFromAssets(assets, |assets|, key)
    {
      for n := 0 to |assets|
        invariant Valid()
        invariant nodes == WithAssets([], assets, n, now)
        invariant forall id :: HasNode(nodes, id) <==> NodeFromAssets(assets, n, id)
        invariant forall key :: HasEdge(edges, key) <==> EdgeFromAssets(assets, n, key)
      {
        AddAsset(assets[n]);
      }
    }

    method AddFindings(findings: seq<Finding>, present: Id -> bool)
      requires Valid() && forall id: Id | id.ServiceId? || id.AssetId? :: HasNode(nodes, id) <==> present(id)
      modifies this`nodes, this`edges
      ensures Valid()
      ensures nodes == WithFindings(old(nodes), findings, |findings|, now)
      ensures forall id :: HasNode(nodes, id) <==> old(HasNode(nodes, id)) || NodeFromFindings(findings, |findings|, id)
      ensures forall key :: HasEdge(edges, key) <==>
        old(HasEdge(edges, key)) || EdgeFromFindings(findings, |findings|, present, key)
    {
      for n := 0 to |findings|
        invariant Valid()
        invariant nodes == WithFindings(old(nodes), findings, n, now)
        invariant forall id :: HasNode(nodes, id) <==> old(HasNode(nodes, id)) || NodeFromFindings(findings, n, id)
        invariant forall key :: HasEdge(edges, key) <==>
          old(HasEdge(edges, key)) || EdgeFromFindings(findings, n, present, key)
      {
        FindingsAddNoPlace(findings, n);
        OneMoreFinding(findings, n, present);
        AddFinding(findings[n], present);
      }
    }

    method AddAccesses(access: seq<Access>, present: Id -> bool)
      requires Valid() && forall id: Id | id.AssetId? :: HasNode(nodes, id) <==> present(id)
      modifies this`nodes, this`edges
      ensures Valid()
      ensures nodes == WithAccesses(old(nodes), access, |access|, now)
      ensures forall id :: HasNode(nodes, id) <==> old(HasNode(nodes, id)) || NodeFromAccess(access, |access|, id)
      ensures forall key :: HasEdge(edges, key) <==>
        old(HasEdge(edges, key)) || EdgeFromAccess(access, |access|, present, key)
    {
      for n := 0 to |access|
        invariant Valid()
        invariant nodes == WithAccesses(old(nodes), access, n, now)
        invariant forall id :: HasNode(nodes, id) <==> old(HasNode(nodes, id)) || NodeFromAccess(access, n, id)
        invariant forall key :: HasEdge(edges, key) <==>
          old(HasEdge(edges, key)) || EdgeFromAccess(access, n, present, key)
      {
        OneMoreAccess(access, n, present);
        AddAccess(access[n], present);
      }
    }
  }

  lemma {:induction false} OneMoreFinding(findings: seq<Finding>, n: nat, present: Id -> bool)
    requires n < |findings|
    ensures forall id :: NodeFromFindings(findings, n + 1, id) <==>
      NodeFromFindings(findings, n, id) || FindingNode(findings[n], id)
    ensures forall key :: EdgeFromFindings(findings, n + 1, present, key) <==>
      EdgeFromFindings(findings, n, present, key) || FindingEdge(findings[n], present, key)
  {
  }

  lemma {:induction false} OneMoreAccess(access: seq<Access>, n: nat, present: Id -> bool)
    requires n < |access|
    ensures forall id :: NodeFromAccess(access, n + 1, id) <==>
      NodeFromAccess(access, n, id) || id in AccessNodes(access[n])
    ensures forall key :: EdgeFromAccess(access, n + 1, present, key) <==>
      EdgeFromAccess(access, n, present, key) || key in AccessEdges(access[n], present)
  {
  }

  /** Findings add findings and techniques only. */
  lemma {:induction false} FindingsAddNoPlace(findings: seq<Finding>, n: nat)
    requires n <= |findings|
    ensures forall id: Id | id.ServiceId? || id.AssetId? :: !NodeFromFindings(findings, n, id)
  {
  }

  /** The nodes and edges are exactly those the evidence supports, each once, with no edge to a
      missing node. */
  ghost predicate Supported(ev: Evidence, nodes: seq<Node>, edges: seq<Edge>) {
    && UniqueNodes(nodes) && UniqueEdges(edges)
    && (forall i | 0 <= i < |edges| :: HasNode(nodes, edges[i].key.source) && HasNode(nodes, edges[i].key.target))
    && (forall id :: HasNode(nodes, id) <==> SupportsNode(ev, id))
    && (forall key :: HasEdge(edges, key) <==> SupportsEdge(ev, key))
  }

  method BuildGraph(ev: Evidence, now: Time) returns (nodes: seq<Node>, edges: seq<Edge>)
    ensures Supported(ev, nodes, edges)
    ensures nodes == FirstMentions(Mentions(ev), now)
    ensures forall i | 0 <= i < |nodes| :: nodes[i].firstSeen == now
    ensures forall i | 0 <= i < |edges| :: edges[i].firstSeen == now
  {
    var b := new Builder(now);
    b.AddAssets(ev.assets);
    b.AddFindings(ev.findings, Present(ev));
    FindingsAddNoPlace(ev.findings, |ev.findings|);
    b.AddAccesses(ev.access, Present(ev));
    nodes, edges := b.nodes, b.edges;
    ReadInOrder(ev, now);
  }

  // ----- the nodes of the whole graph -------------------------------------------------------

  function AssetMentions(a: Asset): seq<Mention> {
    if a.value == "" then []
    else match a.kind
      case Service =>
        [ServiceMention(a)] + if a.host.Some? then [HostMention(a.host.value, a.tool)] else []
      case Host => [HostMention(a.value, a.tool)]
      case Unmodeled => []
  }

  function FindingMentions(f: Finding): seq<Mention> {
    if f.fingerprint == "" then [] else [FindingMention(f)] + Joined(f.techniques, TechniqueMentions)
  }

  function TechniqueMentions(t: Option<Technique>): seq<Mention> {
    if Usable(t) then [TechniqueMention(t.value)] else []
  }

  function AccessMentions(ac: Access): seq<Mention> {
    if ac.target == "" then [] else [AccessMention(ac)]
  }

  /** The mentions of the elements, one element after the other. */
  function Joined<T>(s: seq<T>, mentions: T -> seq<Mention>): seq<Mention> {
    if s == [] then [] else Joined(s[..|s| - 1], mentions) + mentions(s[|s| - 1])
  }

  /** What the evidence mentions, in the order in which it is read. */
  function Mentions(ev: Evidence): seq<Mention> {
    Joined(ev.assets, AssetMentions) + Joined(ev.findings, FindingMentions) + Joined(ev.access, AccessMentions)
  }

  function WithAll(nodes: seq<Node>, ms: seq<Mention>, now: Time): seq<Node> {
    if ms == [] then nodes else With(WithAll(nodes, ms[..|ms| - 1], now), ms[|ms| - 1], now)
  }

  function FirstMentions(ms: seq<Mention>, now: Time): seq<Node> {
    WithAll([], ms, now)
  }

  lemma {:induction false} WithAllJoins(nodes: seq<Node>, a: seq<Mention>, b: seq<Mention>, now: Time)
    ensures WithAll(nodes, a + b, now) == WithAll(WithAll(nodes, a, now), b, now)
    decreases |b|
  {
    if b == [] {
      assert a + b == a;
    } else {
      var last := |b| - 1;
      WithAllJoins(nodes, a, b[..last], now);
      assert (a + b)[..|a| + last] == a + b[..last];
    }
  }

  lemma {:induction false} WithOne(nodes: seq<Node>, m: Mention, now: Time)
    ensures WithAll(nodes, [m], now) == With(nodes, m, now)
  {
    assert [m][..0] == [];
  }

  lemma {:induction false} AssetInOrder(nodes: seq<Node>, a: Asset, now: Time)
    ensures WithAsset(nodes, a, now) == WithAll(nodes, AssetMentions(a), now)
  {
    WithOne(nodes, ServiceMention(a), now);
    WithOne(nodes, HostMention(a.value, a.tool), now);
    if a.host.Some? {
      var host := HostMention(a.host.value, a.tool);
      WithOne(With(nodes, ServiceMention(a), now), host, now);
      WithAllJoins(nodes, [ServiceMention(a)], [host], now);
    } else {
      assert [ServiceMention(a)] + [] == [ServiceMention(a)];
    }
  }

  lemma {:induction false} TechniquesInOrder(nodes: seq<Node>, f: Finding, n: nat, now: Time)
    requires n <= |f.techniques|
    ensures WithTechniques(nodes, f, n, now) == WithAll(nodes, Joined(f.techniques[..n], TechniqueMentions), now)
  {
    if n > 0 {
      TechniquesInOrder(nodes, f, n - 1, now);
      var t := f.techniques[n - 1];
      assert f.techniques[..n][..n - 1] == f.techniques[..n - 1];
      WithAllJoins(nodes, Joined(f.techniques[..n - 1], TechniqueMentions), TechniqueMentions(t), now);
      if Usable(t) {
        WithOne(WithTechniques(nodes, f, n - 1, now), TechniqueMention(t.value), now);
      }
    }
  }

  lemma {:induction false} FindingInOrder(nodes: seq<Node>, f: Finding, now: Time)
    ensures WithFinding(nodes, f, now) == WithAll(nodes, FindingMentions(f), now)
  {
    var m := FindingMention(f);
    assert f.techniques[..|f.techniques|] == f.techniques;
    WithOne(nodes, m, now);
    TechniquesInOrder(With(nodes, m, now), f, |f.techniques|, now);
    WithAllJoins(nodes, [m], Joined(f.techniques, TechniqueMentions), now);
  }

  lemma {:induction false} AccessInOrder(nodes: seq<Node>, ac: Access, now: Time)
    ensures WithAccess(nodes, ac, now) == WithAll(nodes, AccessMentions(ac), now)
  {
    WithOne(nodes, AccessMention(ac), now);
  }

  lemma {:induction false} AssetsInOrder(nodes: seq<Node>, assets: seq<Asset>, n: nat, now: Time)
    requires n <= |assets|
    ensures WithAssets(nodes, assets, n, now) == WithAll(nodes, Joined(assets[..n], AssetMentions), now)
  {
    if n > 0 {
      AssetsInOrder(nodes, assets, n - 1, now);
      assert assets[..n][..n - 1] == assets[..n - 1];
      AssetInOrder(WithAssets(nodes, assets, n - 1, now), assets[n - 1], now);
      WithAllJoins(nodes, Joined(assets[..n - 1], AssetMentions), AssetMentions(assets[n - 1]), now);
    }
  }

  lemma {:induction false} FindingsInOrder(nodes: seq<Node>, findings: seq<Finding>, n: nat, now: Time)
    requires n <= |findings|
    ensures WithFindings(nodes, findings, n, now) == WithAll(nodes, Joined(findings[..n], FindingMentions), now)
  {
    if n > 0 {
      FindingsInOrder(nodes, findings, n - 1, now);
      assert findings[..n][..n - 1] == findings[..n - 1];
      FindingInOrder(WithFindings(nodes, findings, n - 1, now), findings[n - 1], now);
      WithAllJoins(nodes, Joined(findings[..n - 1], FindingMentions), FindingMentions(findings[n - 1]), now);
    }
  }

  lemma {:induction false} AccessesInOrder(nodes: seq<Node>, access: seq<Access>, n: nat, now: Time)
    requires n <= |access|
    ensures WithAccesses(nodes, access, n, now) == WithAll(nodes, Joined(access[..n], AccessMentions), now)
  {
    if n > 0 {
      AccessesInOrder(nodes, access, n - 1, now);
      assert access[..n][..n - 1] == access[..n - 1];
      AccessInOrder(WithAccesses(nodes, access, n - 1, now), access[n - 1], now);
      WithAllJoins(nodes, Joined(access[..n - 1], AccessMentions), AccessMentions(access[n - 1]), now);
    }
  }

  lemma {:induction false} ReadInOrder(ev: Evidence, now: Time)
    ensures var assets := WithAssets([], ev.assets, |ev.assets|, now);
      var findings := WithFindings(assets, ev.findings, |ev.findings|, now);
      WithAccesses(findings, ev.access, |ev.access|, now) == FirstMentions(Mentions(ev), now)
  {
    var assets := WithAssets([], ev.assets, |ev.assets|, now);
    var findings := WithFindings(assets, ev.findings, |ev.findings|, now);
    assert ev.assets[..|ev.assets|] == ev.assets && ev.findings[..|ev.findings|] == ev.findings;
    assert ev.access[..|ev.access|] == ev.access;
    AssetsInOrder([], ev.assets, |ev.assets|, now);
    FindingsInOrder(assets, ev.findings, |ev.findings|, now);
    AccessesInOrder(findings, ev.access, |ev.access|, now);
    WithAllJoins([], Joined(ev.assets, AssetMentions), Joined(ev.findings, FindingMentions), now);
    WithAllJoins([], Joined(ev.assets, AssetMentions) + Joined(ev.findings, FindingMentions),
                 Joined(ev.access, AccessMentions), now);
  }

  /** Every node carries the text and the tool of the first mention of its id, whatever later
      evidence says of it. */
  lemma {:induction false} FirstMentionWins(ms: seq<Mention>, now: Time, i: nat) returns (k: nat)
    requires i < |FirstMentions(ms, now)|
    ensures k < |ms| && forall j | 0 <= j < k :: ms[j].id != ms[k].id
    ensures FirstMentions(ms, now)[i] == Node(ms[k].id, Label(ms[k].text), ms[k].tool, now, now)
  {
    var before, last := ms[..|ms| - 1], |ms| - 1;
    if i < |FirstMentions(before, now)| {
      k := FirstMentionWins(before, now, i);
    } else {
      k := last;
      forall j | 0 <= j < last
        ensures ms[j].id != ms[k].id
      {
        MentionedIsNode(before, now, j);
        assert before[j] == ms[j];
      }
    }
  }

  lemma {:induction false} MentionedIsNode(ms: seq<Mention>, now: Time, j: nat)
    requires j < |ms|
    ensures HasNode(FirstMentions(ms, now), ms[j].id)
  {
    var before, nodes := ms[..|ms| - 1], FirstMentions(ms, now);
    if j < |ms| - 1 {
      MentionedIsNode(before, now, j);
      var earlier := FirstMentions(before, now);
      var i :| 0 <= i < |earlier| && earlier[i].id == before[j].id;
      assert nodes[i] == earlier[i];
    } else if !HasNode(FirstMentions(before, now), ms[j].id) {
      assert nodes[|nodes| - 1].id == ms[j].id;
    }
  }
}
