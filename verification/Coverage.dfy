/**
  Which discovered surface was reached, and which still awaits the capability the pipeline
  would point at it.
 */
module Coverage {
  import opened Basics
  import opened StableSort
  import opened CapabilityRegistry

  datatype AssetType = Subdomain | HttpService | Service | Port | Url | OtherAsset(text: string)

  /** What the projection reads of a finding; `behindAuth` when an uncrossed boundary was seen. */
  datatype Finding = Finding(asset: AssetType, value: string, inScope: bool, behindAuth: bool, hasParams: bool,
                             isApi: bool)

  datatype RunStatus = Completed | CompletedWithErrors | PartlyDone | Failed | Abandoned | OtherStatus(text: string)

  datatype Outcome = Outcome(tool: string, status: RunStatus)

  datatype State =
    | Discovered | OutOfScope | Unsupported | AttemptedFailed | Partial | Covered | Verified | RequiresAuth

  datatype Surface = Surface(finding: Finding, expected: Option<string>, state: State)

  /** Findings without a type or a value are skipped. */
  predicate Blank(f: Finding) {
    f.value == "" || f.asset == OtherAsset("")
  }

  const WEB_SERVICE_DISCOVERY := "web_service_discovery"
  const WEB_CRAWLING := "web_crawling"
  const SERVICE_FINGERPRINTING := "service_fingerprinting"
  const PARAMETER_DISCOVERY := "parameter_discovery"
  const DAST_FUZZING := "dast_fuzzing"

  function ExpectedCapability(f: Finding): Option<string> {
    match f.asset
    case Subdomain => Some(WEB_SERVICE_DISCOVERY)
    case HttpService => Some(WEB_CRAWLING)
    case Service | Port => Some(SERVICE_FINGERPRINTING)
    case Url => Some(if '?' in f.value then DAST_FUZZING else PARAMETER_DISCOVERY)
    case OtherAsset(_) => None
  }

  // ----- what became of a capability --------------------------------------------------------

  /** The run was of a tool that implements the capability. */
  predicate RunOf(reg: Registry, capability: string, o: Outcome) {
    var tool := First(reg, Named(o.tool));
    tool.Some? && tool.value.capability == capability
  }

  predicate Complete(o: Outcome) {
    o.status.Completed? || o.status.CompletedWithErrors?
  }

  predicate Fruitless(o: Outcome) {
    o.status.Failed? || o.status.Abandoned?
  }

  /** `_capability_run_state`: the strongest outcome wins. */
  function CapabilityRunState(reg: Registry, capability: string, outcomes: seq<Outcome>): State {
    if ToolsFor(reg, capability) == [] then Unsupported
    else if forall i | 0 <= i < |outcomes| :: !RunOf(reg, capability, outcomes[i]) then Discovered
    else if exists i | 0 <= i < |outcomes| :: RunOf(reg, capability, outcomes[i]) && Complete(outcomes[i]) then Covered
    else if exists i | 0 <= i < |outcomes| :: RunOf(reg, capability, outcomes[i]) && outcomes[i].status.PartlyDone?
    then Partial
    else if forall i | 0 <= i < |outcomes| :: RunOf(reg, capability, outcomes[i]) ==> Fruitless(outcomes[i])
    then AttemptedFailed
    else Discovered
  }

  // ----- the projection ---------------------------------------------------------------------

  /** The one state of a surface. */
  function StateOf(reg: Registry, outcomes: seq<Outcome>, verified: set<string>, f: Finding): State {
    if !f.inScope then OutOfScope
    else if f.value in verified then Verified
    else if f.behindAuth then RequiresAuth
    else if ExpectedCapability(f).None? then Unsupported
    else CapabilityRunState(reg, ExpectedCapability(f).value, outcomes)
  }

  function SurfaceOf(reg: Registry, outcomes: seq<Outcome>, verified: set<string>, f: Finding): Surface {
    Surface(f, ExpectedCapability(f), StateOf(reg, outcomes, verified, f))
  }

  predicate InDebt(s: Surface) {
    s.finding.inScope && s.expected.Some? && (s.state.Discovered? || s.state.AttemptedFailed?)
  }

  /** The surfaces of the first `n` findings, in order. */
  function Surfaces(reg: Registry, outcomes: seq<Outcome>, verified: set<string>, findings: seq<Finding>, n: nat)
    : seq<Surface>
    requires n <= |findings|
  {
    if n == 0 then []
    else if Blank(findings[n - 1]) then Surfaces(reg, outcomes, verified, findings, n - 1)
    else Surfaces(reg, outcomes, verified, findings, n - 1) + [SurfaceOf(reg, outcomes, verified, findings[n - 1])]
  }

  function Debt(surfaces: seq<Surface>, n: nat): seq<Surface>
    requires n <= |surfaces|
  {
    if n == 0 then []
    else if InDebt(surfaces[n - 1]) then Debt(surfaces, n - 1) + [surfaces[n - 1]]
    else Debt(surfaces, n - 1)
  }

  /** The surface is judged by the runs of its capability, not by scope, boundary or type. */
  predicate JudgedByRuns(verified: set<string>, f: Finding) {
    !Blank(f) && f.inScope && f.value !in verified && !f.behindAuth && ExpectedCapability(f).Some?
  }

  /** Some of the first `n` findings is judged by the runs of this capability. */
  predicate Judged(verified: set<string>, findings: seq<Finding>, n: nat, capability: string)
    requires n <= |findings|
  {
    exists i | 0 <= i < n :: JudgedByRuns(verified, findings[i]) && ExpectedCapability(findings[i]) == Some(capability)
  }

  /** `build_coverage`.  Each capability's state is worked out once and cached; the cache is
      returned beside the surfaces and the debt. */
  method BuildCoverage(reg: Registry, findings: seq<Finding>, outcomes: seq<Outcome>, verified: set<string>)
    returns (surfaces: seq<Surface>, debt: seq<Surface>, capabilityStates: map<string, State>)
    ensures surfaces == Surfaces(reg, outcomes, verified, findings, |findings|)
    ensures debt == Debt(surfaces, |surfaces|)
    ensures forall c | c in capabilityStates :: capabilityStates[c] == CapabilityRunState(reg, c, outcomes)
    ensures forall c :: c in capabilityStates <==> Judged(verified, findings, |findings|, c)
  {
    surfaces, capabilityStates := [], map[];
    for n := 0 to |findings|
      invariant surfaces == Surfaces(reg, outcomes, verified, findings, n)
      invariant forall c | c in capabilityStates :: capabilityStates[c] == CapabilityRunState(reg, c, outcomes)
      invariant forall c :: c in capabilityStates <==> Judged(verified, findings, n, c)
    {
      var f := findings[n];
      if Blank(f) {
        continue;
      }
      var expected := ExpectedCapability(f);
      var state;
      if !f.inScope {
        state := OutOfScope;
      } else if f.value in verified {
        state := Verified;
      } else if f.behindAuth {
        state := RequiresAuth;
      } else if expected.None? {
        state := Unsupported;
      } else {
        if expected.value !in capabilityStates {
          capabilityStates := capabilityStates[expected.value := CapabilityRunState(reg, expected.value, outcomes)];
        }
        state := capabilityStates[expected.value];
      }
      surfaces := surfaces + [Surface(f, expected, state)];
    }
    debt := [];
    for n := 0 to |surfaces|
      invariant debt == Debt(surfaces, n)
    {
      if InDebt(surfaces[n]) {
        debt := debt + [surfaces[n]];
      }
    }
  }

  // ----- states as the findings and runs have them ------------------------------------------

  predicate ToolNamed(reg: Registry, c: string, name: string) {
    exists j | 0 <= j < |reg| :: reg[j].name == name && reg[j].capability == c
  }

  /** Some tool of the capability ran and ended like this. */
  predicate RanTo(reg: Registry, c: string, outcomes: seq<Outcome>, statuses: RunStatus -> bool) {
    exists i | 0 <= i < |outcomes| :: statuses(outcomes[i].status) && ToolNamed(reg, c, outcomes[i].tool)
  }

  lemma {:induction false} RunOfAsWritten(reg: Registry, c: string, o: Outcome)
    ensures RunOf(reg, c, o) <==> ToolNamed(reg, c, o.tool)
  {
    FirstFinds(reg, Named(o.tool));
  }

  /** A capability is unsupported without a tool, covered if a run of it completed, else partial if one
      got part of the way, else attempted if there were runs and all failed or were abandoned. */
  lemma {:induction false} RunStateAsWritten(reg: Registry, c: string, outcomes: seq<Outcome>)
    ensures var state := CapabilityRunState(reg, c, outcomes);
      var supported := exists j | 0 <= j < |reg| :: reg[j].capability == c;
      var complete := RanTo(reg, c, outcomes, (s: RunStatus) => s in {Completed, CompletedWithErrors});
      var partly := RanTo(reg, c, outcomes, (s: RunStatus) => s == PartlyDone);
      var fruitless := RanTo(reg, c, outcomes, (s: RunStatus) => s in {Failed, Abandoned});
      var unclear := RanTo(reg, c, outcomes, (s: RunStatus) => s.OtherStatus?);
      && (state == Unsupported <==> !supported)
      && (state == Covered <==> supported && complete)
      && (state == Partial <==> supported && !complete && partly)
      && (state == AttemptedFailed <==> supported && !complete && !partly && fruitless && !unclear)
      && (state == Discovered <==> supported && !complete && !partly && (!fruitless || unclear))
  {
    ToolsForAsWritten(reg, c);
    forall i | 0 <= i < |outcomes|
      ensures RunOf(reg, c, outcomes[i]) <==> ToolNamed(reg, c, outcomes[i].tool)
    {
      RunOfAsWritten(reg, c, outcomes[i]);
    }
  }

  /** What a surface is expected to meet next, and which comes first of scope, proof, boundary, type
      and runs. */
  lemma {:induction false} SurfaceAsWritten(reg: Registry, outcomes: seq<Outcome>, verified: set<string>, f: Finding)
    ensures var s := SurfaceOf(reg, outcomes, verified, f);
      && s.expected == (match f.asset
                        case Subdomain => Some("web_service_discovery")
                        case HttpService => Some("web_crawling")
                        case Service => Some("service_fingerprinting")
                        case Port => Some("service_fingerprinting")
                        case Url => Some(if exists i | 0 <= i < |f.value| :: f.value[i] == '?' then "dast_fuzzing"
                                         else "parameter_discovery")
                        case OtherAsset(_) => None)
      && (!f.inScope ==> s.state == OutOfScope)
      && (f.inScope && f.value in verified ==> s.state == Verified)
      && (f.inScope && f.value !in verified && f.behindAuth ==> s.state == RequiresAuth)
      && (f.inScope && f.value !in verified && !f.behindAuth ==>
            s.state == if s.expected.None? then Unsupported else CapabilityRunState(reg, s.expected.value, outcomes))
  {
  }

  /** The surfaces are those of the findings with a type and a value, in order. */
  lemma {:induction false} SurfacesAsWritten(reg: Registry, outcomes: seq<Outcome>, verified: set<string>,
                                             findings: seq<Finding>, n: nat) returns (from: seq<nat>)
    requires n <= |findings|
    ensures var s := Surfaces(reg, outcomes, verified, findings, n);
      && |from| == |s|
      && forall k | 0 <= k < |from| :: from[k] < n && s[k] == SurfaceOf(reg, outcomes, verified, findings[from[k]])
    ensures forall k, l | 0 <= k < l < |from| :: from[k] < from[l]
    ensures forall i | 0 <= i < n :: i in from <==> findings[i].value != "" && findings[i].asset != OtherAsset("")
  {
    from := [];
    if n > 0 {
      from := SurfacesAsWritten(reg, outcomes, verified, findings, n - 1);
      if !Blank(findings[n - 1]) {
        from := from + [n - 1];
      }
    }
  }

  /** And the debt is those of them that are in debt, in order. */
  lemma {:induction false} DebtAsWritten(surfaces: seq<Surface>, n: nat) returns (from: seq<nat>)
    requires n <= |surfaces|
    ensures |from| == |Debt(surfaces, n)|
    ensures forall k | 0 <= k < |from| :: from[k] < n && Debt(surfaces, n)[k] == surfaces[from[k]]
    ensures forall k, l | 0 <= k < l < |from| :: from[k] < from[l]
    ensures forall i | 0 <= i < n :: i in from <==>
      surfaces[i].finding.inScope && surfaces[i].expected != None && surfaces[i].state in {Discovered, AttemptedFailed}
  {
    from := [];
    if n > 0 {
      from := DebtAsWritten(surfaces, n - 1);
      if InDebt(surfaces[n - 1]) {
        from := from + [n - 1];
      }
    }
  }

  // ----- debt and runs ----------------------------------------------------------------------

  /** Some run of the capability ended in a usable state. */
  predicate Reached(reg: Registry, capability: string, outcomes: seq<Outcome>) {
    exists i | 0 <= i < |outcomes| ::
      RunOf(reg, capability, outcomes[i]) && (Complete(outcomes[i]) || outcomes[i].status.PartlyDone?)
  }

  /** In scope, reachable, and some tool implements what comes next. */
  predicate Testable(reg: Registry, verified: set<string>, f: Finding) {
    && f.inScope && f.value !in verified && !f.behindAuth
    && ExpectedCapability(f).Some? && ToolsFor(reg, ExpectedCapability(f).value) != []
  }

  /** The meaning of debt: an in-scope, supported surface whose expected capability was never
      exercised to a usable state. */
  lemma {:induction false} DebtIsWhatWasNeverReached(reg: Registry, outcomes: seq<Outcome>, verified: set<string>,
                                                     f: Finding)
    ensures InDebt(SurfaceOf(reg, outcomes, verified, f)) <==>
              Testable(reg, verified, f) && !Reached(reg, ExpectedCapability(f).value, outcomes)
  {
    if Testable(reg, verified, f) {
      var c := ExpectedCapability(f).value;
      if Reached(reg, c, outcomes) {
        var i :| 0 <= i < |outcomes| && RunOf(reg, c, outcomes[i])
                 && (Complete(outcomes[i]) || outcomes[i].status.PartlyDone?);
      }
    }
  }

  lemma {:induction false} ReachedOfAppend(reg: Registry, c: string, outcomes: seq<Outcome>, more: seq<Outcome>)
    ensures Reached(reg, c, outcomes + more) <==> Reached(reg, c, outcomes) || Reached(reg, c, more)
  {
    var all := outcomes + more;
    assert forall i | 0 <= i < |outcomes| :: all[i] == outcomes[i];
    assert forall i | 0 <= i < |more| :: all[|outcomes| + i] == more[i];
    if Reached(reg, c, all) {
      var i :| 0 <= i < |all| && RunOf(reg, c, all[i]) && (Complete(all[i]) || all[i].status.PartlyDone?);
      assert if i < |outcomes| then all[i] == outcomes[i] else all[i] == more[i - |outcomes|];
    }
  }

  /** More runs never put a surface into debt, and take it out exactly if one of them reached its
      capability. */
  lemma {:induction false} RunsOnlyPayDebt(reg: Registry, outcomes: seq<Outcome>, more: seq<Outcome>,
                                           verified: set<string>, f: Finding)
    ensures InDebt(SurfaceOf(reg, outcomes + more, verified, f)) <==>
              InDebt(SurfaceOf(reg, outcomes, verified, f)) && !Reached(reg, ExpectedCapability(f).value, more)
  {
    DebtIsWhatWasNeverReached(reg, outcomes, verified, f);
    DebtIsWhatWasNeverReached(reg, outcomes + more, verified, f);
    if ExpectedCapability(f).Some? {
      ReachedOfAppend(reg, ExpectedCapability(f).value, outcomes, more);
    }
  }

  /** A covered capability stays covered, and a partial one can only improve. */
  lemma {:induction false} CoverageIsNeverLost(reg: Registry, c: string, outcomes: seq<Outcome>, more: seq<Outcome>)
    ensures var before, after := CapabilityRunState(reg, c, outcomes), CapabilityRunState(reg, c, outcomes + more);
      && (before.Covered? ==> after.Covered?)
      && (before.Partial? ==> after.Partial? || after.Covered?)
      && (before.Unsupported? <==> after.Unsupported?)
  {
    var all := outcomes + more;
    assert forall i | 0 <= i < |outcomes| :: all[i] == outcomes[i];
    var before := CapabilityRunState(reg, c, outcomes);
    if before.Covered? {
      var i :| 0 <= i < |outcomes| && RunOf(reg, c, outcomes[i]) && Complete(outcomes[i]);
      assert RunOf(reg, c, all[i]) && Complete(all[i]);
    }
    if before.Partial? {
      var i :| 0 <= i < |outcomes| && RunOf(reg, c, outcomes[i]) && outcomes[i].status.PartlyDone?;
      assert RunOf(reg, c, all[i]) && all[i].status.PartlyDone?;
    }
  }

  /** Within debt the order can fail: a failed attempt turns back into a surface never tried if and
      only if none of the later runs of its capability was of use and one of them, merely skipped
      or still running, did not even fail. */
  lemma {:induction false} FailedAttemptIsForgottenExactlyIf(reg: Registry, c: string, outcomes: seq<Outcome>,
                                                             more: seq<Outcome>)
    requires CapabilityRunState(reg, c, outcomes) == AttemptedFailed
    ensures CapabilityRunState(reg, c, outcomes + more) == Discovered <==>
              && !Reached(reg, c, more)
              && exists i | 0 <= i < |more| :: RunOf(reg, c, more[i]) && !Fruitless(more[i])
  {
    var all := outcomes + more;
    assert forall i | 0 <= i < |outcomes| :: all[i] == outcomes[i];
    assert forall i | 0 <= i < |more| :: all[|outcomes| + i] == more[i];
    ReachedOfAppend(reg, c, outcomes, more);
    ReachedMeansUseful(reg, c, outcomes);
    ReachedMeansUseful(reg, c, all);
    var k :| 0 <= k < |outcomes| && RunOf(reg, c, outcomes[k]);
    assert RunOf(reg, c, all[k]);
    if i: nat :| i < |more| && RunOf(reg, c, more[i]) && !Fruitless(more[i]) {
      assert RunOf(reg, c, all[|outcomes| + i]) && !Fruitless(all[|outcomes| + i]);
    }
    if forall j | 0 <= j < |more| :: RunOf(reg, c, more[j]) ==> Fruitless(more[j]) {
      forall i | 0 <= i < |all| && RunOf(reg, c, all[i])
        ensures Fruitless(all[i])
      {
        assert all[i] == if i < |outcomes| then outcomes[i] else more[i - |outcomes|];
      }
    }
  }

  lemma {:induction false} ReachedMeansUseful(reg: Registry, c: string, outcomes: seq<Outcome>)
    requires ToolsFor(reg, c) != []
    ensures Reached(reg, c, outcomes) <==>
      CapabilityRunState(reg, c, outcomes) == Covered || CapabilityRunState(reg, c, outcomes) == Partial
  {
    if Reached(reg, c, outcomes) {
      var i :| 0 <= i < |outcomes| && RunOf(reg, c, outcomes[i])
               && (Complete(outcomes[i]) || outcomes[i].status.PartlyDone?);
    }
  }
}
