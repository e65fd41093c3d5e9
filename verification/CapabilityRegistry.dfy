/**
  What the decision layers may ask for (a capability) and which tool the registry answers with:
  the first implementation by pipeline phase that the engagement admits and that has not run.
 */
module CapabilityRegistry {
  import opened Basics
  import opened StableSort

  // ----- safety tiers and rules of engagement -----------------------------------------------

  datatype Tier = Passive | ActiveSafe | Intrusive | Simulated | Unlisted(text: string)

  function TierRank(tier: Tier, default: int): int {
    match tier
    case Passive => 0
    case ActiveSafe => 1
    case Intrusive => 2
    case _ => default
  }

  /** An unknown tier is above every ceiling, an unknown ceiling below every tier. */
  predicate TierAtMost(tier: Tier, ceiling: Tier) {
    TierRank(tier, 99) <= TierRank(ceiling, -1)
  }

  datatype Rules = Rules(maxTier: Tier, exploitation: bool)

  /** The scan's own configuration against the deployment's settings. */
  function RulesFromConfig(requested: Option<Tier>, exploit: bool, ceiling: Tier, exploitEnabled: bool): Rules {
    var tier := if requested.Some? then requested.value else ceiling;
    Rules(if TierAtMost(tier, ceiling) then tier else ceiling, exploit && exploitEnabled)
  }

  /** A scan can restrict what the deployment allows, never widen it. */
  lemma {:induction false} RulesNeverExceedTheDeployment(requested: Option<Tier>, exploit: bool, ceiling: Tier,
                                                         exploitEnabled: bool)
    ensures var rules := RulesFromConfig(requested, exploit, ceiling, exploitEnabled);
      && (forall tier | TierAtMost(tier, rules.maxTier) :: TierAtMost(tier, ceiling))
      && (rules.exploitation ==> exploitEnabled)
      && (requested.Some? && TierAtMost(requested.value, ceiling) ==> rules.maxTier == requested.value)
  {
  }

  /** The gate before every action. */
  predicate ActionAllowed(tier: Tier, rules: Rules) {
    tier.Simulated? || (TierAtMost(tier, rules.maxTier) && (tier.Intrusive? ==> rules.exploitation))
  }

  /** Passive is below active, active below intrusive; a simulated or unknown tier is within no ceiling,
      and nothing is within a ceiling of that kind. */
  lemma {:induction false} TiersAsWritten(tier: Tier, ceiling: Tier)
    ensures TierAtMost(tier, ceiling) <==>
      match ceiling
      case Passive => tier == Passive
      case ActiveSafe => tier == Passive || tier == ActiveSafe
      case Intrusive => tier == Passive || tier == ActiveSafe || tier == Intrusive
      case Simulated => false
      case Unlisted(_) => false
  {
  }

  /** What the gate lets through under each ceiling: intrusive actions only where they are enabled as
      well, simulated ones always. */
  lemma {:induction false} GateAsWritten(tier: Tier, rules: Rules)
    ensures ActionAllowed(tier, rules) <==>
      match tier
      case Passive => rules.maxTier in {Passive, ActiveSafe, Intrusive}
      case ActiveSafe => rules.maxTier in {ActiveSafe, Intrusive}
      case Intrusive => rules.maxTier == Intrusive && rules.exploitation
      case Simulated => true
      case Unlisted(_) => false
  {
  }

  /** A scan asks for a tier within the ceiling and gets it, or gets the ceiling. */
  lemma {:induction false} RulesAsWritten(requested: Option<Tier>, exploit: bool, ceiling: Tier, exploitEnabled: bool)
    ensures var rules := RulesFromConfig(requested, exploit, ceiling, exploitEnabled);
      && (rules.exploitation <==> exploit && exploitEnabled)
      && (requested.None? || requested == Some(ceiling) ==> rules.maxTier == ceiling)
      && (requested == Some(Passive) && ceiling in {ActiveSafe, Intrusive} ==> rules.maxTier == Passive)
      && (requested == Some(ActiveSafe) && ceiling == Intrusive ==> rules.maxTier == ActiveSafe)
      && (requested == Some(ActiveSafe) && ceiling == Passive ==> rules.maxTier == Passive)
      && (requested == Some(Intrusive) && ceiling in {Passive, ActiveSafe} ==> rules.maxTier == ceiling)
      && (requested.Some? && requested.value !in {Passive, ActiveSafe, Intrusive} ==> rules.maxTier == ceiling)
  {
  }

  // ----- the registry -----------------------------------------------------------------------

  /** `targets` is None for a tool that applies to every target type. */
  datatype Tool = Tool(name: string, capability: string, phase: int, tier: Tier, targets: Option<set<string>>,
                       needsActive: bool)

  /** Tools in registration order; names are dictionary keys. */
  type Registry = r: seq<Tool> | forall i, j | 0 <= i < j < |r| :: r[i].name != r[j].name
    witness []

  datatype Scope = Scope(targetType: string, active: bool, ceiling: Tier)

  predicate Admitted(tool: Tool, scope: Scope, alreadyRun: set<string>) {
    && tool.name !in alreadyRun
    && (tool.targets.Some? ==> scope.targetType in tool.targets.value)
    && TierAtMost(tool.tier, scope.ceiling)
    && (tool.needsActive ==> scope.active)
  }

  function Named(name: string): Tool -> bool {
    (tool: Tool) => tool.name == name
  }

  predicate ByPhase(a: Tool, b: Tool) {
    a.phase <= b.phase
  }

  /** Those of the first `n` elements whose key is `k`, in order. */
  function Selected<T, K(==)>(s: seq<T>, n: nat, key: T -> K, k: K): seq<T>
    requires n <= |s|
  {
    if n == 0 then []
    else if key(s[n - 1]) == k then Selected(s, n - 1, key, k) + [s[n - 1]]
    else Selected(s, n - 1, key, k)
  }

  /** `out.setdefault(key(x), []).append(x)` over a list: the dictionary and the order of its
      keys. */
  method GroupBy<T, K(==)>(s: seq<T>, key: T -> K) returns (order: seq<K>, groups: map<K, seq<T>>)
    ensures Distinct(order) && forall k :: k in order <==> k in groups
    ensures forall k :: k in groups <==> exists i | 0 <= i < |s| :: key(s[i]) == k
    ensures forall k | k in groups :: groups[k] == Selected(s, |s|, key, k)
  {
    order, groups := [], map[];
    for n := 0 to |s|
      invariant Distinct(order) && forall k :: k in order <==> k in groups
      invariant forall k :: k in groups <==> exists i | 0 <= i < n :: key(s[i]) == k
      invariant forall k | k in groups :: groups[k] == Selected(s, n, key, k)
      invariant forall k | k !in groups :: Selected(s, n, key, k) == []
    {
      var k := key(s[n]);
      if k in groups {
        groups := groups[k := groups[k] + [s[n]]];
      } else {
        order := order + [k];
        groups := groups[k := [s[n]]];
        assert Selected(s, n + 1, key, k) == [s[n]];
      }
    }
  }

  lemma {:induction false} SelectedHolds<T, K>(s: seq<T>, n: nat, key: T -> K, k: K)
    requires n <= |s|
    ensures forall x :: x in Selected(s, n, key, k) <==> x in s[..n] && key(x) == k
    ensures Distinct(s) ==> Distinct(Selected(s, n, key, k))
  {
    if n > 0 {
      SelectedHolds(s, n - 1, key, k);
      assert s[..n] == s[..n - 1] + [s[n - 1]];
    }
  }

  function CapabilityOf(tool: Tool): string {
    tool.capability
  }

  function ToolsFor(reg: Registry, capability: string): seq<Tool> {
    var sorted := Sort(reg, ByPhase);
    Selected(sorted, |sorted|, CapabilityOf, capability)
  }

  predicate Known(tools: seq<Tool>, capability: string) {
    exists i | 0 <= i < |tools| :: CapabilityOf(tools[i]) == capability
  }

  /** `capability_registry`. */
  method Index(reg: Registry) returns (order: seq<string>, index: map<string, seq<Tool>>)
    ensures Distinct(order) && forall c :: c in order <==> Known(reg, c)
    ensures forall c :: c in index <==> Known(reg, c)
    ensures forall c | c in index :: index[c] == ToolsFor(reg, c)
  {
    var sorted := Sort(reg, ByPhase);
    order, index := GroupBy(sorted, CapabilityOf);
    forall c
      ensures Known(reg, c) <==> Known(sorted, c)
    {
      SortKeepsKnown(reg, c);
    }
  }

  lemma {:induction false} SortKeepsKnown(reg: Registry, c: string)
    ensures Known(Sort(reg, ByPhase), c) <==> Known(reg, c)
  {
    var sorted := Sort(reg, ByPhase);
    SortHolds(reg, ByPhase);
    if Known(reg, c) {
      var i :| 0 <= i < |reg| && CapabilityOf(reg[i]) == c;
      assert reg[i] in sorted;
    }
    if Known(sorted, c) {
      var i :| 0 <= i < |sorted| && CapabilityOf(sorted[i]) == c;
      assert sorted[i] in reg;
    }
  }

  /** The tools of a capability are the registered ones that name it. */
  lemma {:induction false} ToolsForAsWritten(reg: Registry, c: string)
    ensures forall tool :: tool in ToolsFor(reg, c) <==> tool in reg && tool.capability == c
    ensures ToolsFor(reg, c) == [] <==> forall j | 0 <= j < |reg| :: reg[j].capability != c
  {
    var sorted := Sort(reg, ByPhase);
    SortHolds(reg, ByPhase);
    SelectedHolds(sorted, |sorted|, CapabilityOf, c);
    assert sorted[..|sorted|] == sorted;
    if ToolsFor(reg, c) != [] {
      assert ToolsFor(reg, c)[0] in ToolsFor(reg, c);
    }
    if j: nat :| j < |reg| && reg[j].capability == c {
      assert reg[j] in ToolsFor(reg, c);
    }
  }

  // ----- resolution -------------------------------------------------------------------------

  function Admits(scope: Scope, alreadyRun: set<string>): Tool -> bool {
    (tool: Tool) => Admitted(tool, scope, alreadyRun)
  }

  function Serves(capability: string, scope: Scope, alreadyRun: set<string>): Tool -> bool {
    (tool: Tool) => tool.capability == capability && Admitted(tool, scope, alreadyRun)
  }

  /** `resolve_capability`. */
  function Resolve(reg: Registry, capability: string, scope: Scope, alreadyRun: set<string>): Option<Tool> {
    First(ToolsFor(reg, capability), Admits(scope, alreadyRun))
  }

  lemma {:induction false} FirstOfSnoc<T(!new)>(s: seq<T>, x: T, p: T -> bool)
    ensures First(s + [x], p) == if First(s, p).Some? then First(s, p) else if p(x) then Some(x) else None
  {
    if s == [] {
      assert (s + [x])[1..] == [];
    } else {
      assert (s + [x])[1..] == s[1..] + [x];
      FirstOfSnoc(s[1..], x, p);
    }
  }

  lemma {:induction false} FirstSelected(tools: seq<Tool>, n: nat, c: string, scope: Scope, alreadyRun: set<string>)
    requires n <= |tools|
    ensures First(Selected(tools, n, CapabilityOf, c), Admits(scope, alreadyRun)) ==
            First(tools[..n], Serves(c, scope, alreadyRun))
  {
    if n > 0 {
      FirstSelected(tools, n - 1, c, scope, alreadyRun);
      assert tools[..n] == tools[..n - 1] + [tools[n - 1]];
      FirstOfSnoc(tools[..n - 1], tools[n - 1], Serves(c, scope, alreadyRun));
      if tools[n - 1].capability == c {
        FirstOfSnoc(Selected(tools, n - 1, CapabilityOf, c), tools[n - 1], Admits(scope, alreadyRun));
      }
    }
  }

  /** The registry answers exactly with the admitted implementation of least phase, the one
      registered first among equals, and with nothing only if none is admitted. */
  lemma {:induction false} ResolveLeads(reg: Registry, c: string, scope: Scope, alreadyRun: set<string>)
    ensures Resolve(reg, c, scope, alreadyRun).None? <==>
              forall i | 0 <= i < |reg| :: !Serves(c, scope, alreadyRun)(reg[i])
    ensures forall tool :: Resolve(reg, c, scope, alreadyRun) == Some(tool) <==>
              exists i | 0 <= i < |reg| :: Leads(reg, ByPhase, Serves(c, scope, alreadyRun), i) && reg[i] == tool
  {
    var sorted := Sort(reg, ByPhase);
    FirstSelected(sorted, |sorted|, c, scope, alreadyRun);
    assert sorted[..|sorted|] == sorted;
    var i := FirstOfSorted(reg, ByPhase, Serves(c, scope, alreadyRun));
  }

  /** What a tool on offer is. */
  lemma {:induction false} ResolvedIsAdmitted(reg: Registry, c: string, scope: Scope, alreadyRun: set<string>)
    ensures var tool := Resolve(reg, c, scope, alreadyRun);
      tool.Some? ==> tool.value in reg && tool.value.capability == c && Admitted(tool.value, scope, alreadyRun)
  {
    ResolveLeads(reg, c, scope, alreadyRun);
    var tool := Resolve(reg, c, scope, alreadyRun);
    if tool.Some? {
      var i :| 0 <= i < |reg| && Leads(reg, ByPhase, Serves(c, scope, alreadyRun), i) && reg[i] == tool.value;
      assert Serves(c, scope, alreadyRun)(reg[i]);
    }
  }

  /** The tool may serve the capability now. */
  predicate Serving(tool: Tool, c: string, scope: Scope, alreadyRun: set<string>) {
    && tool.capability == c && tool.name !in alreadyRun
    && (tool.targets == None || scope.targetType in tool.targets.value) && (scope.active || !tool.needsActive)
    && (match scope.ceiling
        case Passive => tool.tier == Passive
        case ActiveSafe => tool.tier in {Passive, ActiveSafe}
        case Intrusive => tool.tier in {Passive, ActiveSafe, Intrusive}
        case _ => false)
  }

  /** The answer, tool by tool: of those that may serve, one of the least phase, and among these the
      one registered first. */
  lemma {:induction false} ResolveAsWritten(reg: Registry, c: string, scope: Scope, alreadyRun: set<string>, i: nat)
    requires i < |reg|
    ensures Resolve(reg, c, scope, alreadyRun) == Some(reg[i]) <==>
      && Serving(reg[i], c, scope, alreadyRun)
      && forall j | 0 <= j < |reg| && Serving(reg[j], c, scope, alreadyRun) ::
           reg[i].phase < reg[j].phase || (reg[i].phase == reg[j].phase && i <= j)
    ensures Resolve(reg, c, scope, alreadyRun) == None <==>
      forall j | 0 <= j < |reg| :: !Serving(reg[j], c, scope, alreadyRun)
  {
    ResolveLeads(reg, c, scope, alreadyRun);
    forall j | 0 <= j < |reg|
      ensures Serves(c, scope, alreadyRun)(reg[j]) <==> Serving(reg[j], c, scope, alreadyRun)
    {
      TiersAsWritten(reg[j].tier, scope.ceiling);
    }
    if Leads(reg, ByPhase, Serves(c, scope, alreadyRun), i) {
      assert Resolve(reg, c, scope, alreadyRun) == Some(reg[i]);
    }
  }

  // ----- categories -------------------------------------------------------------------------

  function CategoryOf(table: map<string, string>, capability: string): string {
    if capability in table then table[capability] else "uncategorized"
  }

  /** `category_tree`: every capability with a tool stands under exactly one category. */
  method CategoryTree(reg: Registry, table: map<string, string>)
    returns (order: seq<string>, tree: map<string, seq<string>>)
    ensures Distinct(order) && forall cat :: cat in order <==> cat in tree
    ensures forall cat | cat in tree :: Distinct(tree[cat])
    ensures forall cat | cat in tree :: forall c :: c in tree[cat] <==>
      Known(reg, c) && cat == (if c in table then table[c] else "uncategorized")
    ensures forall c | Known(reg, c) :: (if c in table then table[c] else "uncategorized") in tree
  {
    var capabilities, index := Index(reg);
    order, tree := GroupBy(capabilities, c => CategoryOf(table, c));
    forall cat | cat in tree
      ensures Distinct(tree[cat]) && forall c :: c in tree[cat] <==> c in capabilities && CategoryOf(table, c) == cat
    {
      SelectedHolds(capabilities, |capabilities|, c => CategoryOf(table, c), cat);
      assert capabilities[..|capabilities|] == capabilities;
    }
  }

  // ----- the allowlist ----------------------------------------------------------------------

  /** The tool is the registry's answer for its own capability. */
  predicate Offered(reg: Registry, scope: Scope, alreadyRun: set<string>, tool: Tool) {
    Resolve(reg, tool.capability, scope, alreadyRun) == Some(tool)
  }

  /** `available_tools`: one tool for each capability that has one, by phase. */
  method AvailableTools(reg: Registry, table: map<string, string>, scope: Scope, alreadyRun: set<string>)
    returns (tools: seq<Tool>)
    ensures forall tool :: tool in tools <==> Offered(reg, scope, alreadyRun, tool)
    ensures Distinct(tools) && Sorted(tools, ByPhase)
  {
    var order, tree := CategoryTree(reg, table);
    var out: seq<Tool> := [];
    ghost var done: set<string> := {};
    for a := 0 to |order|
      invariant Distinct(out)
      invariant forall tool :: tool in out <==> tool.capability in done && Offered(reg, scope, alreadyRun, tool)
      invariant forall c :: c in done <==> Known(reg, c) && CategoryOf(table, c) in order[..a]
    {
      var branch := tree[order[a]];
      assert order[..a + 1] == order[..a] + [order[a]];
      assert order[a] !in order[..a];
      for b := 0 to |branch|
        invariant Distinct(out)
        invariant forall tool :: tool in out <==> tool.capability in done && Offered(reg, scope, alreadyRun, tool)
        invariant forall c :: c in done <==>
          (Known(reg, c) && CategoryOf(table, c) in order[..a]) || c in branch[..b]
      {
        assert branch[..b + 1] == branch[..b] + [branch[b]];
        assert branch[b] in branch && branch[b] !in branch[..b];
        ResolvedIsAdmitted(reg, branch[b], scope, alreadyRun);
        var tool := Resolve(reg, branch[b], scope, alreadyRun);
        if tool.Some? {
          assert tool.value !in out;
          out := out + [tool.value];
        }
        done := done + {branch[b]};
      }
      assert branch[..|branch|] == branch;
    }
    assert order[..|order|] == order;
    tools := Sort(out, ByPhase);
    SortHolds(out, ByPhase);
    forall tool | Offered(reg, scope, alreadyRun, tool)
      ensures tool.capability in done
    {
      ResolvedIsAdmitted(reg, tool.capability, scope, alreadyRun);
      assert Known(reg, tool.capability);
    }
  }

  // ----- counting runs ----------------------------------------------------------------------

  function Names(tools: seq<Tool>): set<string> {
    set i | 0 <= i < |tools| :: tools[i].name
  }

  /** Registered tools that run at most once each are no more than are registered. */
  lemma {:induction false} DistinctNamesFit(tools: seq<Tool>, all: seq<Tool>)
    requires forall i, j | 0 <= i < j < |tools| :: tools[i].name != tools[j].name
    requires forall i | 0 <= i < |tools| :: tools[i] in all
    ensures |tools| <= |all|
  {
    if tools != [] {
      var last := tools[|tools| - 1];
      var k :| 0 <= k < |all| && all[k] == last;
      var rest := all[..k] + all[k + 1..];
      forall i | 0 <= i < |tools| - 1
        ensures tools[i] in rest
      {
        var j :| 0 <= j < |all| && all[j] == tools[i];
        assert j != k;
        assert rest[if j < k then j else j - 1] == tools[i];
      }
      DistinctNamesFit(tools[..|tools| - 1], rest);
    }
  }
}
