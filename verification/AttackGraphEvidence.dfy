/**
  The nodes, edges, texts and counts of the attack graph, read directly off the evidence.
 */
module AttackGraphEvidence {
  import opened Basics
  import opened AttackGraph
  import opened AttackGraphUpdates

  // ----- nodes and edges --------------------------------------------------------------------

  ghost predicate HasService(ev: Evidence, value: string) {
    value != "" && exists i | 0 <= i < |ev.assets| :: ev.assets[i].kind == Service && ev.assets[i].value == value
  }

  /** A host is an asset of its own, or what some service is exposed on. */
  ghost predicate HasHost(ev: Evidence, host: string) {
    exists i | 0 <= i < |ev.assets| ::
      && ev.assets[i].value != ""
      && ((ev.assets[i].kind == Host && ev.assets[i].value == host)
          || (ev.assets[i].kind == Service && ev.assets[i].host == Some(host)))
  }

  ghost predicate HasTechnique(f: Finding, technique: string) {
    f.fingerprint != "" && technique != "" && exists i | 0 <= i < |f.techniques| ::
      f.techniques[i].Some? && f.techniques[i].value.id == technique
  }

  /** `target:type`, the type being "access" where none is given. */
  predicate Grants(ac: Access, text: string) {
    && ac.target != ""
    && (ac.accessType != "" ==> text == ac.target + ":" + ac.accessType)
    && (ac.accessType == "" ==> text == ac.target + ":access")
  }

  /** Which nodes the graph has: those named in well-formed evidence. */
  lemma {:induction false} NodesAsWritten(ev: Evidence, id: Id)
    ensures SupportsNode(ev, id) <==>
      match id
      case ServiceId(value) => HasService(ev, value)
      case AssetId(host) => HasHost(ev, host)
      case FindingId(fingerprint) =>
        fingerprint != "" && exists i | 0 <= i < |ev.findings| :: ev.findings[i].fingerprint == fingerprint
      case TechniqueId(technique) => exists i | 0 <= i < |ev.findings| :: HasTechnique(ev.findings[i], technique)
      case AccessId(text) => exists i | 0 <= i < |ev.access| :: Grants(ev.access[i], text)
  {
    PlacesAsWritten(ev, id);
    forall ac: Access, text
      ensures AccessId(text) in AccessNodes(ac) <==> Grants(ac, text)
    {
      assert ac.accessType == "" ==> ac.target + ":access" == ac.target + ":" + "access";
    }
    forall f: Finding, technique
      ensures FindingNode(f, TechniqueId(technique)) <==> HasTechnique(f, technique)
    {
    }
  }

  lemma {:induction false} PlacesAsWritten(ev: Evidence, id: Id)
    ensures Present(ev)(id) <==> match id
      case ServiceId(value) => HasService(ev, value)
      case AssetId(host) => HasHost(ev, host)
      case _ => false
  {
  }

  /** Which edges it has, and from where to where. */
  lemma {:induction false} EdgesAsWritten(ev: Evidence, key: Key)
    ensures SupportsEdge(ev, key) <==>
      match key.rel
      case Exposes => exists i | 0 <= i < |ev.assets| :: ExposesService(ev.assets[i], key.source, key.target)
      case HasFinding => exists i | 0 <= i < |ev.findings| :: HangsOn(ev, ev.findings[i], key.source, key.target)
      case MapsTo => exists i | 0 <= i < |ev.findings| :: MapsToTechnique(ev.findings[i], key.source, key.target)
      case Granted => exists i | 0 <= i < |ev.access| :: GrantedOn(ev, ev.access[i], key.source, key.target)
  {
    if key.source.AssetId? {
      PlacesAsWritten(ev, key.source);
    }
    forall f: Finding
      ensures MappedEdge(f, |f.techniques|, key) && f.fingerprint != "" <==>
              key.rel.MapsTo? && MapsToTechnique(f, key.source, key.target)
    {
    }
    forall f | f in ev.findings
      ensures FindingEdge(f, Present(ev), key) && key.rel.HasFinding? <==>
              key.rel.HasFinding? && HangsOn(ev, f, key.source, key.target)
    {
      HangsAsWritten(ev, f, key.source, key.target);
    }
    forall ac | ac in ev.access
      ensures key in AccessEdges(ac, Present(ev)) <==> key.rel.Granted? && GrantedOn(ev, ac, key.source, key.target)
    {
      assert ac.accessType == "" ==> ac.target + ":access" == ac.target + ":" + "access";
    }
  }

  /** From the host to the service. */
  predicate ExposesService(a: Asset, source: Id, target: Id) {
    && a.kind == Service && a.value != "" && a.host.Some?
    && source == AssetId(a.host.value) && target == ServiceId(a.value)
  }

  /** From the service it was seen at if the graph has it, else from its host if the graph has that. */
  ghost predicate HangsOn(ev: Evidence, f: Finding, source: Id, target: Id) {
    && f.fingerprint != "" && f.service != "" && target == FindingId(f.fingerprint)
    && if HasService(ev, f.service) then source == ServiceId(f.service)
       else f.host.Some? && HasHost(ev, f.host.value) && source == AssetId(f.host.value)
  }

  ghost predicate MapsToTechnique(f: Finding, source: Id, target: Id) {
    source == FindingId(f.fingerprint) && target.TechniqueId? && HasTechnique(f, target.technique)
  }

  ghost predicate GrantedOn(ev: Evidence, ac: Access, source: Id, target: Id) {
    && ac.host.Some? && HasHost(ev, ac.host.value) && source == AssetId(ac.host.value)
    && target.AccessId? && Grants(ac, target.text)
  }

  lemma {:induction false} HangsAsWritten(ev: Evidence, f: Finding, source: Id, target: Id)
    ensures FindingEdge(f, Present(ev), Key(source, target, HasFinding)) <==> HangsOn(ev, f, source, target)
  {
    PlacesAsWritten(ev, ServiceId(f.service));
    if f.host.Some? {
      PlacesAsWritten(ev, AssetId(f.host.value));
    }
  }

  // ----- texts ------------------------------------------------------------------------------

  /** At most 160 characters of the text, from its start. */
  predicate Cut(shown: string, text: string) {
    if |text| <= 160 then shown == text else |shown| == 160 && shown == text[..160]
  }

  lemma {:induction false} MentionOf<T>(s: seq<T>, mentions: T -> seq<Mention>, m: Mention) returns (i: nat)
    requires m in Joined(s, mentions)
    ensures i < |s| && m in mentions(s[i])
  {
    i := |s| - 1;
    if m !in mentions(s[i]) {
      i := MentionOf(s[..i], mentions, m);
    }
  }

  lemma {:induction false} AssetTexts(ev: Evidence, m: Mention)
    requires m in Joined(ev.assets, AssetMentions)
    ensures (m.id.ServiceId? && m.text == m.id.value) || (m.id.AssetId? && m.text == m.id.host)
    ensures exists a :: a in ev.assets && a.tool == m.tool
  {
    var i := MentionOf(ev.assets, AssetMentions, m);
    assert ev.assets[i] in ev.assets;
  }

  lemma {:induction false} FindingTexts(ev: Evidence, m: Mention)
    requires m in Joined(ev.findings, FindingMentions)
    ensures m.id.FindingId? || m.id.TechniqueId?
    ensures m.id.FindingId? ==>
      exists f :: (f in ev.findings && f.fingerprint == m.id.fingerprint && m.tool == f.tool
                   && m.text == (if f.title != "" then f.title else f.fingerprint))
    ensures m.id.TechniqueId? ==> m.tool == ""
    ensures m.id.TechniqueId? ==>
      exists f, t :: (f in ev.findings && Some(t) in f.techniques && t.id == m.id.technique
                      && m.text == (if t.name != "" then t.name else t.id))
  {
    var i := MentionOf(ev.findings, FindingMentions, m);
    var f := ev.findings[i];
    assert f in ev.findings;
    if m != FindingMention(f) {
      assert m in Joined(f.techniques, TechniqueMentions);
      var j := MentionOf(f.techniques, TechniqueMentions, m);
      var t := f.techniques[j].value;
      assert Some(t) in f.techniques && m == TechniqueMention(t);
    }
  }

  lemma {:induction false} AccessTexts(ev: Evidence, m: Mention)
    requires m in Joined(ev.access, AccessMentions)
    ensures m.id.AccessId? && m.tool == ""
    ensures exists ac :: (ac in ev.access && Grants(ac, m.id.text)
                          && m.text == (if ac.accessType != "" then ac.accessType else "access"))
  {
    var i := MentionOf(ev.access, AccessMentions, m);
    var ac := ev.access[i];
    assert ac in ev.access;
    assert ac.accessType == "" ==> ac.target + ":access" == ac.target + ":" + "access";
    assert Grants(ac, m.id.text);
  }

  /** What a node is called, and the tool it names. */
  lemma {:induction false} TextsAsWritten(ev: Evidence, m: Mention)
    requires m in Mentions(ev)
    ensures Cut(Label(m.text), m.text)
    ensures m.id.ServiceId? ==> m.text == m.id.value
    ensures m.id.AssetId? ==> m.text == m.id.host
    ensures m.id.ServiceId? || m.id.AssetId? ==> exists a :: a in ev.assets && a.tool == m.tool
    ensures m.id.FindingId? ==>
      exists f :: (f in ev.findings && f.fingerprint == m.id.fingerprint && m.tool == f.tool
                   && m.text == (if f.title != "" then f.title else f.fingerprint))
    ensures m.id.TechniqueId? || m.id.AccessId? ==> m.tool == ""
    ensures m.id.TechniqueId? ==>
      exists f, t :: (f in ev.findings && Some(t) in f.techniques && t.id == m.id.technique
                      && m.text == (if t.name != "" then t.name else t.id))
    ensures m.id.AccessId? ==>
      exists ac :: (ac in ev.access && Grants(ac, m.id.text)
                    && m.text == (if ac.accessType != "" then ac.accessType else "access"))
  {
    if m in Joined(ev.assets, AssetMentions) {
      AssetTexts(ev, m);
    } else if m in Joined(ev.findings, FindingMentions) {
      FindingTexts(ev, m);
    } else {
      AccessTexts(ev, m);
    }
  }

  // ----- counts -----------------------------------------------------------------------------

  function Where(nodes: seq<Node>, n: nat, p: Id -> bool): set<nat>
    requires n <= |nodes|
  {
    set i: nat | i < n && p(nodes[i].id)
  }

  lemma {:induction false} CountOneKind(nodes: seq<Node>, n: nat, c: Category, p: Id -> bool)
    requires n <= |nodes| && forall id :: CategoryOf(id) == c <==> p(id)
    ensures CountOf(nodes, n, c) == |Where(nodes, n, p)|
  {
    if n > 0 {
      CountOneKind(nodes, n - 1, c, p);
      assert Where(nodes, n, p) == Where(nodes, n - 1, p) + if p(nodes[n - 1].id) then {n - 1} else {};
    } else {
      assert Where(nodes, n, p) == {};
    }
  }

  /** The counts are of the ids of each kind. */
  lemma {:induction false} CountsAsWritten(nodes: seq<Node>, n: nat, hosts: Id -> bool, services: Id -> bool,
                                           findings: Id -> bool, techniques: Id -> bool, accesses: Id -> bool)
    requires n <= |nodes|
    requires forall id: Id :: hosts(id) <==> id.AssetId?
    requires forall id: Id :: services(id) <==> id.ServiceId?
    requires forall id: Id :: findings(id) <==> id.FindingId?
    requires forall id: Id :: techniques(id) <==> id.TechniqueId?
    requires forall id: Id :: accesses(id) <==> id.AccessId?
    ensures CountOf(nodes, n, Assets) == |Where(nodes, n, hosts)|
    ensures CountOf(nodes, n, Services) == |Where(nodes, n, services)|
    ensures CountOf(nodes, n, Findings) == |Where(nodes, n, findings)|
    ensures CountOf(nodes, n, Techniques) == |Where(nodes, n, techniques)|
    ensures CountOf(nodes, n, Accesses) == |Where(nodes, n, accesses)|
  {
    CountOneKind(nodes, n, Assets, hosts);
    CountOneKind(nodes, n, Services, services);
    CountOneKind(nodes, n, Findings, findings);
    CountOneKind(nodes, n, Techniques, techniques);
    CountOneKind(nodes, n, Accesses, accesses);
  }
}
