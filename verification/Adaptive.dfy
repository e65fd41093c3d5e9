/**
  The deterministic selector of next steps: which discovered web surface still has untested
  potential, and with which tool.
 */
module Adaptive {
  import opened Basics
  import opened StableSort
  import opened CapabilityRegistry
  import opened Coverage

  // ----- reasons ----------------------------------------------------------------------------

  datatype Reason =
    | DiscoveredParameter | ApiSurface | LiveWebService | IncompleteCoverage | FailedUpstream | PartialUpstream

  /** Smaller is stronger. */
  function Rank(reason: Reason): nat {
    match reason
    case DiscoveredParameter => 0
    case ApiSurface => 1
    case LiveWebService => 2
    case IncompleteCoverage => 3
    case FailedUpstream => 4
    case PartialUpstream => 5
  }

  function Strongest(reasons: seq<Reason>): (rank: nat)
    ensures rank <= 6 && forall i | 0 <= i < |reasons| :: rank <= Rank(reasons[i])
    ensures rank < 6 ==> exists i | 0 <= i < |reasons| :: rank == Rank(reasons[i])
  {
    if reasons == [] then 6
    else
      var rest := Strongest(reasons[1..]);
      assert forall i | 0 < i < |reasons| :: reasons[i] == reasons[1..][i - 1];
      if Rank(reasons[0]) < rest then Rank(reasons[0]) else rest
  }

  function CoverageReason(state: State): Reason {
    match state
    case AttemptedFailed => FailedUpstream
    case Partial => PartialUpstream
    case _ => IncompleteCoverage
  }

  predicate HasParam(f: Finding) {
    f.hasParams || '?' in f.value
  }

  /** The capability a surface of this kind is a candidate for. */
  function Wanted(f: Finding): Option<string> {
    match f.asset
    case Url => Some(if HasParam(f) then DAST_FUZZING else PARAMETER_DISCOVERY)
    case HttpService => Some(WEB_CRAWLING)
    case _ => None
  }

  /** The decision trace, written out. */
  function Reasons(f: Finding, state: State): seq<Reason> {
    var api := if f.isApi then [ApiSurface] else [];
    if f.asset.HttpService? then [LiveWebService, CoverageReason(state)]
    else if HasParam(f) then [DiscoveredParameter] + api + [CoverageReason(state)]
    else if CoverageReason(state).IncompleteCoverage? then api + [IncompleteCoverage]
    else api + [IncompleteCoverage, CoverageReason(state)]
  }

  /** Drops repeats, keeping the order; here only the last entry can be one. */
  method DropRepeat(all: seq<Reason>) returns (kept: seq<Reason>)
    requires all != [] && Distinct(all[..|all| - 1])
    ensures kept == if all[|all| - 1] in all[..|all| - 1] then all[..|all| - 1] else all
  {
    var seen: set<Reason> := {};
    kept := [];
    for i := 0 to |all|
      invariant forall r :: r in seen <==> r in all[..i]
      invariant i < |all| ==> kept == all[..i]
      invariant i == |all| ==> kept == if all[i - 1] in all[..i - 1] then all[..i - 1] else all
    {
      assert all[..i + 1] == all[..i] + [all[i]];
      assert i + 1 < |all| ==> all[i] == all[..|all| - 1][i] && all[..i] == all[..|all| - 1][..i];
      if all[i] !in seen {
        seen := seen + {all[i]};
        kept := kept + [all[i]];
      }
    }
  }

  /** `_url_reasons`: collect, then drop repeats keeping the order. */
  method UrlReasons(f: Finding, state: State) returns (capability: string, reasons: seq<Reason>)
    requires f.asset.Url?
    ensures Wanted(f) == Some(capability)
    ensures reasons == Reasons(f, state)
  {
    var all: seq<Reason> := [];
    if f.isApi {
      all := all + [ApiSurface];
    }
    if HasParam(f) {
      all := [DiscoveredParameter] + all;
      capability := DAST_FUZZING;
    } else {
      capability := PARAMETER_DISCOVERY;
      all := all + [IncompleteCoverage];
    }
    all := all + [CoverageReason(state)];
    reasons := DropRepeat(all);
  }

  // ----- candidates and their order ---------------------------------------------------------

  datatype Candidate = Candidate(capability: string, tool: Tool, target: string, reasons: seq<Reason>)

  predicate Before(a: string, b: string) {
    a == "" || (b != "" && (a[0] < b[0] || (a[0] == b[0] && Before(a[1..], b[1..]))))
  }

  lemma {:induction false} BeforeIsAnOrder(a: string, b: string, c: string)
    ensures Before(a, b) || Before(b, a)
    ensures Before(a, b) && Before(b, a) ==> a == b
    ensures Before(a, b) && Before(b, c) ==> Before(a, c)
    decreases |a| + |b| + |c|
  {
    if a != "" && b != "" && a[0] == b[0] {
      BeforeIsAnOrder(a[1..], b[1..], if c == "" then c else c[1..]);
      assert a == [a[0]] + a[1..] && b == [b[0]] + b[1..];
    }
  }

  /** Phase, then the strongest reason, then the target, then the capability. */
  predicate ByKey(a: Candidate, b: Candidate) {
    if a.tool.phase != b.tool.phase then a.tool.phase < b.tool.phase
    else if Strongest(a.reasons) != Strongest(b.reasons) then Strongest(a.reasons) < Strongest(b.reasons)
    else if a.target != b.target then Before(a.target, b.target)
    else Before(a.capability, b.capability)
  }

  lemma {:induction false} ByKeyIsAnOrder()
    ensures TotalPreorder(ByKey)
    ensures forall a, b :: ByKey(a, b) && ByKey(b, a) ==> a.target == b.target && a.capability == b.capability
  {
    forall a: Candidate, b: Candidate
      ensures ByKey(a, b) || ByKey(b, a)
      ensures ByKey(a, b) && ByKey(b, a) ==> a.target == b.target && a.capability == b.capability
    {
      BeforeIsAnOrder(a.target, b.target, "");
      BeforeIsAnOrder(a.capability, b.capability, "");
    }
    forall a: Candidate, b: Candidate, c: Candidate | ByKey(a, b) && ByKey(b, c)
      ensures ByKey(a, c)
    {
      BeforeIsAnOrder(a.target, b.target, c.target);
      BeforeIsAnOrder(b.target, a.target, c.target);
      BeforeIsAnOrder(a.capability, b.capability, c.capability);
    }
  }

  // ----- selection --------------------------------------------------------------------------

  /** `inScope` is the verdict of the scope guard, constantly true where it is not enforced. */
  datatype Query = Query(reg: Registry, findings: seq<Finding>, outcomes: seq<Outcome>, scope: Scope,
                         alreadyRun: set<string>, inScope: Finding -> bool)

  /** The last of the first `n` findings with a value. */
  function LastWith(findings: seq<Finding>, n: nat, value: string): Option<Finding>
    requires n <= |findings|
  {
    if n == 0 then None
    else if !Blank(findings[n - 1]) && findings[n - 1].value == value then Some(findings[n - 1])
    else LastWith(findings, n - 1, value)
  }

  /** The state a value is looked up with: that of its last surface, whatever its type. */
  function StateFor(q: Query, value: string): State {
    var f := LastWith(q.findings, |q.findings|, value);
    if f.None? then Discovered else StateOf(q.reg, q.outcomes, {}, f.value)
  }

  predicate Actionable(state: State) {
    state.Discovered? || state.AttemptedFailed? || state.Partial?
  }

  /** Everything that must hold of a finding for it to yield a candidate. */
  predicate Eligible(q: Query, f: Finding) {
    && !Blank(f) && Actionable(StateFor(q, f.value)) && q.inScope(f) && Wanted(f).Some?
    && Resolve(q.reg, Wanted(f).value, q.scope, q.alreadyRun).Some?
  }

  function CandidateFor(q: Query, f: Finding): Candidate
    requires Eligible(q, f)
  {
    var capability := Wanted(f).value;
    Candidate(capability, Resolve(q.reg, capability, q.scope, q.alreadyRun).value, f.value,
              Reasons(f, StateFor(q, f.value)))
  }

  predicate Backed(q: Query, n: nat, c: Candidate)
    requires n <= |q.findings|
  {
    exists i | 0 <= i < n :: FirstOfItsKind(q, i) && c == CandidateFor(q, q.findings[i])
  }

  /** No eligible finding before it wants the same capability for the same value. */
  predicate FirstOfItsKind(q: Query, i: nat)
    requires i < |q.findings|
  {
    && Eligible(q, q.findings[i])
    && forall j | 0 <= j < i && Eligible(q, q.findings[j]) ::
         !(Wanted(q.findings[j]) == Wanted(q.findings[i]) && q.findings[j].value == q.findings[i].value)
  }

  predicate Listed(candidates: seq<Candidate>, capability: string, target: string) {
    exists c | c in candidates :: c.capability == capability && c.target == target
  }

  predicate OnePerTarget(candidates: seq<Candidate>) {
    forall a, b | a in candidates && b in candidates :: a.capability == b.capability && a.target == b.target ==> a == b
  }

  function LastState(surfaces: seq<Surface>, n: nat, value: string): Option<State>
    requires n <= |surfaces|
  {
    if n == 0 then None
    else if surfaces[n - 1].finding.value == value then Some(surfaces[n - 1].state)
    else LastState(surfaces, n - 1, value)
  }

  lemma {:induction false} LastStatePrefix(s: seq<Surface>, t: seq<Surface>, n: nat, value: string)
    requires n <= |s| && n <= |t| && forall i | 0 <= i < n :: s[i] == t[i]
    ensures LastState(s, n, value) == LastState(t, n, value)
  {
    if n > 0 {
      LastStatePrefix(s, t, n - 1, value);
    }
  }

  lemma {:induction false} LastStateIsTheLastFinding(q: Query, n: nat, value: string)
    requires n <= |q.findings|
    ensures var s := Surfaces(q.reg, q.outcomes, {}, q.findings, n); var f := LastWith(q.findings, n, value);
      LastState(s, |s|, value) == if f.None? then None else Some(StateOf(q.reg, q.outcomes, {}, f.value))
  {
    if n > 0 {
      LastStateIsTheLastFinding(q, n - 1, value);
      var before := Surfaces(q.reg, q.outcomes, {}, q.findings, n - 1);
      LastStatePrefix(before, Surfaces(q.reg, q.outcomes, {}, q.findings, n), |before|, value);
    }
  }

  /** `{s.value: s.state for s in projection.surfaces}`. */
  method StateByValue(q: Query) returns (states: map<string, State>)
    ensures forall v :: (if v in states then states[v] else Discovered) == StateFor(q, v)
  {
    var surfaces, _, _ := BuildCoverage(q.reg, q.findings, q.outcomes, {});
    states := map[];
    for n := 0 to |surfaces|
      invariant forall v :: v in states <==> LastState(surfaces, n, v).Some?
      invariant forall v | v in states :: LastState(surfaces, n, v) == Some(states[v])
    {
      states := states[surfaces[n].finding.value := surfaces[n].state];
    }
    forall v
      ensures (if v in states then states[v] else Discovered) == StateFor(q, v)
    {
      LastStateIsTheLastFinding(q, |q.findings|, v);
    }
  }

  /** `select_adaptive_candidates`: exactly one candidate for each capability and target that
      some finding justifies, made from the first such finding, in strictly increasing order of the
      key. */
  method Select(q: Query) returns (candidates: seq<Candidate>)
    ensures forall i, j | 0 <= i < j < |candidates| ::
      ByKey(candidates[i], candidates[j]) && !ByKey(candidates[j], candidates[i])
    ensures OnePerTarget(candidates)
    ensures forall c | c in candidates :: Backed(q, |q.findings|, c)
    ensures forall f | f in q.findings && Eligible(q, f) :: Listed(candidates, Wanted(f).value, f.value)
  {
    var states := StateByValue(q);
    var out: seq<Candidate> := [];
    var seen: set<(string, string)> := {};
    for n := 0 to |q.findings|
      invariant forall key :: key in seen <==> Listed(out, key.0, key.1)
      invariant OnePerTarget(out) && Distinct(out)
      invariant forall c | c in out :: Backed(q, n, c)
      invariant forall i | 0 <= i < n && Eligible(q, q.findings[i]) ::
        Listed(out, Wanted(q.findings[i]).value, q.findings[i].value)
    {
      var f := q.findings[n];
      ghost var before := out;
      if Blank(f) {
        continue;
      }
      var state := if f.value in states then states[f.value] else Discovered;
      if !Actionable(state) || !q.inScope(f) {
        continue;
      }
      var capability, reasons;
      if f.asset.Url? {
        capability, reasons := UrlReasons(f, state);
      } else if f.asset.HttpService? {
        capability, reasons := WEB_CRAWLING, [LiveWebService, CoverageReason(state)];
      } else {
        continue;
      }
      var tool := Resolve(q.reg, capability, q.scope, q.alreadyRun);
      if tool.None? || (capability, f.value) in seen {
        continue;
      }
      var c := Candidate(capability, tool.value, f.value, reasons);
      assert FirstOfItsKind(q, n) && c == CandidateFor(q, f);
      ListedOfSnoc(out, c);
      seen := seen + {(capability, f.value)};
      out := out + [c];
    }
    candidates := Sort(out, ByKey);
    SortHolds(out, ByKey);
    ByKeyIsAnOrder();
  }

  lemma {:induction false} ListedOfSnoc(out: seq<Candidate>, c: Candidate)
    ensures forall capability, target :: Listed(out + [c], capability, target) <==>
      Listed(out, capability, target) || (c.capability == capability && c.target == target)
  {
    assert c in out + [c];
  }

  // ----- candidates as the findings have them -----------------------------------------------

  predicate QueryOrParams(f: Finding) {
    f.hasParams || exists i | 0 <= i < |f.value| :: f.value[i] == '?'
  }

  /** A URL with a parameter is to be fuzzed, one without searched for parameters, a live service
      crawled; and each reason stands for one observation. */
  lemma {:induction false} CandidateAsWritten(q: Query, f: Finding)
    requires Eligible(q, f)
    ensures f.asset.Url? || f.asset.HttpService?
    ensures var c, state := CandidateFor(q, f), StateFor(q, f.value);
      var fuzz := f.asset.Url? && QueryOrParams(f);
      && c.target == f.value && Distinct(c.reasons)
      && c.capability == (if f.asset.HttpService? then "web_crawling"
                          else if fuzz then "dast_fuzzing" else "parameter_discovery")
      && (DiscoveredParameter in c.reasons <==> fuzz)
      && (ApiSurface in c.reasons <==> f.asset.Url? && f.isApi)
      && (LiveWebService in c.reasons <==> f.asset.HttpService?)
      && (FailedUpstream in c.reasons <==> state == AttemptedFailed)
      && (PartialUpstream in c.reasons <==> state == Partial)
      && (IncompleteCoverage in c.reasons <==> state == Discovered || (f.asset.Url? && !fuzz))
  {
    assert HasParam(f) <==> QueryOrParams(f);
  }

  /** The state of a value is that of its last finding, and where it has none yet to be found out. */
  lemma {:induction false} StateIsOfTheLast(q: Query, value: string, i: nat)
    requires i < |q.findings| && q.findings[i].value == value && !Blank(q.findings[i])
    requires forall j | i < j < |q.findings| :: q.findings[j].value != value || Blank(q.findings[j])
    ensures StateFor(q, value) == SurfaceOf(q.reg, q.outcomes, {}, q.findings[i]).state
  {
    LastWithFinds(q.findings, |q.findings|, value, i);
  }

  lemma {:induction false} LastWithFinds(findings: seq<Finding>, n: nat, value: string, i: nat)
    requires i < n <= |findings| && findings[i].value == value && !Blank(findings[i])
    requires forall j | i < j < n :: findings[j].value != value || Blank(findings[j])
    ensures LastWith(findings, n, value) == Some(findings[i])
  {
    if i < n - 1 {
      LastWithFinds(findings, n - 1, value, i);
    }
  }

  /** Which findings yield a candidate: typed, named, in scope, with something left to find out, and
      with a tool that may serve now. */
  lemma {:induction false} EligibleAsWritten(q: Query, f: Finding)
    ensures Eligible(q, f) <==>
      var c := if f.asset.HttpService? then "web_crawling"
               else if QueryOrParams(f) then "dast_fuzzing" else "parameter_discovery";
      && (f.asset.Url? || f.asset.HttpService?) && f.value != "" && q.inScope(f)
      && StateFor(q, f.value) in {Discovered, AttemptedFailed, Partial}
      && exists j | 0 <= j < |q.reg| :: Serving(q.reg[j], c, q.scope, q.alreadyRun)
  {
    assert HasParam(f) <==> QueryOrParams(f);
    if Wanted(f).Some? && q.reg != [] {
      ResolveAsWritten(q.reg, Wanted(f).value, q.scope, q.alreadyRun, 0);
    }
    if Wanted(f).Some? {
      ResolveLeads(q.reg, Wanted(f).value, q.scope, q.alreadyRun);
    }
  }

  const STRENGTH :=
    [DiscoveredParameter, ApiSurface, LiveWebService, IncompleteCoverage, FailedUpstream, PartialUpstream]

  /** A candidate's reasons stand strongest first. */
  lemma {:induction false} StrongestReasonFirst(q: Query, f: Finding, k: nat, l: nat, i: nat, j: nat)
    requires Eligible(q, f) && k < l < |STRENGTH|
    requires i < |CandidateFor(q, f).reasons| && CandidateFor(q, f).reasons[i] == STRENGTH[k]
    requires j < |CandidateFor(q, f).reasons| && CandidateFor(q, f).reasons[j] == STRENGTH[l]
    ensures i < j
  {
  }

  /** Within a phase the candidate with the stronger reason comes first, whatever its target. */
  lemma {:induction false} StrongerReasonFirst(a: Candidate, b: Candidate, k: nat)
    requires a.tool.phase == b.tool.phase && k < |STRENGTH| && STRENGTH[k] in a.reasons
    requires forall j | 0 <= j <= k :: STRENGTH[j] !in b.reasons
    ensures ByKey(a, b) && !ByKey(b, a)
  {
    assert forall r: Reason :: STRENGTH[Rank(r)] == r;
    assert Strongest(a.reasons) <= k;
  }

  /** Before all the phase decides, the earlier first. */
  lemma {:induction false} EarlierPhaseFirst(a: Candidate, b: Candidate)
    requires a.tool.phase < b.tool.phase
    ensures ByKey(a, b) && !ByKey(b, a)
  {
  }

  /** Texts are in the order of a dictionary: by their first difference, a shorter one before what it
      begins. */
  lemma {:induction false} BeforeAsWritten(common: string, x: char, y: char, a: string, b: string)
    ensures Before(common, common + a) && (a != "" ==> !Before(common + a, common))
    ensures x < y ==> Before(common + [x] + a, common + [y] + b) && !Before(common + [y] + b, common + [x] + a)
  {
    if common != "" {
      BeforeAsWritten(common[1..], x, y, a, b);
      assert (common + a)[1..] == common[1..] + a;
      assert (common + [x] + a)[1..] == common[1..] + [x] + a;
      assert (common + [y] + b)[1..] == common[1..] + [y] + b;
    }
  }

  /** And without any such difference the target decides, then the capability. */
  lemma {:induction false} SameStrengthByTarget(a: Candidate, b: Candidate)
    requires a.tool.phase == b.tool.phase && forall r :: r in a.reasons <==> r in b.reasons
    ensures ByKey(a, b) <==>
            if a.target != b.target then Before(a.target, b.target) else Before(a.capability, b.capability)
  {
    NoStrongerThan(a.reasons, b.reasons);
    NoStrongerThan(b.reasons, a.reasons);
  }

  lemma {:induction false} NoStrongerThan(a: seq<Reason>, b: seq<Reason>)
    requires forall r | r in a :: r in b
    ensures Strongest(b) <= Strongest(a)
  {
    if Strongest(a) < 6 {
      var i :| 0 <= i < |a| && Strongest(a) == Rank(a[i]);
      assert a[i] in b;
    }
  }

  // ----- select, run, select again ----------------------------------------------------------

  /** Every tool was on offer when it ran, given those that ran before it. */
  predicate Iteration(reg: Registry, scope: Scope, alreadyRun: set<string>, runs: seq<Tool>) {
    forall i | 0 <= i < |runs| :: Offered(reg, scope, alreadyRun + Names(runs[..i]), runs[i])
  }

  lemma {:induction false} CandidateIsOffered(q: Query, c: Candidate)
    requires Backed(q, |q.findings|, c)
    ensures Offered(q.reg, q.scope, q.alreadyRun, c.tool) && c.tool.capability == c.capability
  {
    ResolvedIsAdmitted(q.reg, c.capability, q.scope, q.alreadyRun);
  }

  /** Selecting again after every remembered run comes to an end: each run uses up a tool. */
  lemma {:induction false} IterationEnds(reg: Registry, scope: Scope, alreadyRun: set<string>, runs: seq<Tool>)
    requires Iteration(reg, scope, alreadyRun, runs)
    ensures |runs| <= |reg|
    ensures forall i, j | 0 <= i < j < |runs| :: runs[i].name != runs[j].name
  {
    forall i | 0 <= i < |runs|
      ensures runs[i] in reg && runs[i].name !in Names(runs[..i])
    {
      ResolvedIsAdmitted(reg, runs[i].capability, scope, alreadyRun + Names(runs[..i]));
    }
    forall i, j | 0 <= i < j < |runs|
      ensures runs[i].name != runs[j].name
    {
      assert runs[..j][i] == runs[i];
    }
    DistinctNamesFit(runs, reg);
  }

  /** The runs that `build_scan_next_steps` remembers. */
  function Remembered(outcomes: seq<Outcome>): set<string> {
    set i | 0 <= i < |outcomes| && (Complete(outcomes[i]) || outcomes[i].status.PartlyDone?) :: outcomes[i].tool
  }

  /** The run is remembered: it ended in a usable state. */
  predicate Usable(status: RunStatus) {
    status.Completed? || status.CompletedWithErrors? || status.PartlyDone?
  }

  lemma {:induction false} RememberedOfAppend(outcomes: seq<Outcome>, o: Outcome)
    ensures Remembered(outcomes + [o]) == Remembered(outcomes) + if Usable(o.status) then {o.tool} else {}
  {
    var all := outcomes + [o];
    assert forall i | 0 <= i < |outcomes| :: all[i] == outcomes[i];
    assert all[|outcomes|] == o;
    forall name | name in Remembered(outcomes)
      ensures name in Remembered(all)
    {
      var i :| 0 <= i < |outcomes| && Usable(outcomes[i].status) && outcomes[i].tool == name;
      assert Usable(all[i].status) && all[i].tool == name;
    }
    if Usable(o.status) {
      assert Usable(all[|outcomes|].status);
    }
  }

  lemma {:induction false} ActionableMeansNeverCompleted(reg: Registry, c: string, outcomes: seq<Outcome>)
    ensures Actionable(CapabilityRunState(reg, c, outcomes)) <==>
      && ToolsFor(reg, c) != []
      && forall i | 0 <= i < |outcomes| :: !(RunOf(reg, c, outcomes[i]) && Complete(outcomes[i]))
  {
  }

  /** The query after one more run has been persisted. */
  function After(q: Query, o: Outcome): Query {
    q.(outcomes := q.outcomes + [o], alreadyRun := Remembered(q.outcomes + [o]))
  }

  /** A run that is not remembered, failed, abandoned or skipped, settles nothing: the same findings
      are eligible, with the same tools. */
  lemma {:induction false} UnrememberedRunChangesNothing(q: Query, o: Outcome, f: Finding)
    requires !Usable(o.status) && q.alreadyRun == Remembered(q.outcomes)
    ensures After(q, o).alreadyRun == q.alreadyRun
    ensures Eligible(After(q, o), f) <==> Eligible(q, f)
    ensures Eligible(q, f) ==> CandidateFor(After(q, o), f).tool == CandidateFor(q, f).tool
  {
    var outcomes := q.outcomes + [o];
    RememberedOfAppend(q.outcomes, o);
    assert forall i | 0 <= i < |q.outcomes| :: outcomes[i] == q.outcomes[i];
    assert outcomes[|q.outcomes|] == o;
    var last := LastWith(q.findings, |q.findings|, f.value);
    if last.Some? && ExpectedCapability(last.value).Some? {
      var c := ExpectedCapability(last.value).value;
      ActionableMeansNeverCompleted(q.reg, c, q.outcomes);
      ActionableMeansNeverCompleted(q.reg, c, outcomes);
    }
  }

  // ----- rounds of select and run -----------------------------------------------------------

  /** One round: the findings by then, the one selected, and how the run of its tool ended. */
  datatype Round = Round(findings: seq<Finding>, finding: Finding, status: RunStatus)

  function Facing(q: Query, findings: seq<Finding>): Query {
    q.(findings := findings)
  }

  /** The selected finding is on offer. */
  predicate OnOffer(q: Query, r: Round) {
    r.finding in r.findings && Eligible(Facing(q, r.findings), r.finding)
  }

  function RunOutcome(q: Query, r: Round): Outcome
    requires OnOffer(q, r)
  {
    Outcome(CandidateFor(Facing(q, r.findings), r.finding).tool.name, r.status)
  }

  /** What can be run in a round is what a selection from its findings lists. */
  lemma {:induction false} OnOfferIsSelected(q: Query, findings: seq<Finding>, status: RunStatus,
                                             candidates: seq<Candidate>, c: Candidate)
    requires forall c | c in candidates :: Backed(q.(findings := findings), |findings|, c)
    requires forall f | f in findings && Eligible(q.(findings := findings), f) ::
      Listed(candidates, Wanted(f).value, f.value)
    ensures c in candidates ==>
      exists f :: (OnOffer(q, Round(findings, f, status)) && f.value == c.target
                   && RunOutcome(q, Round(findings, f, status)) == Outcome(c.tool.name, status))
    ensures forall f | OnOffer(q, Round(findings, f, status)) :: Listed(candidates, Wanted(f).value, f.value)
  {
    if c in candidates {
      var i :| 0 <= i < |findings| && FirstOfItsKind(q.(findings := findings), i)
        && c == CandidateFor(q.(findings := findings), findings[i]);
      assert OnOffer(q, Round(findings, findings[i], status));
    }
  }

  function AfterRound(q: Query, r: Round): Query
    requires OnOffer(q, r)
  {
    After(Facing(q, r.findings), RunOutcome(q, r))
  }

  /** Each round runs the tool of a candidate that is on offer when it is its turn. */
  predicate Playable(q: Query, rounds: seq<Round>)
    decreases |rounds|
  {
    rounds == [] || (OnOffer(q, rounds[0]) && Playable(AfterRound(q, rounds[0]), rounds[1..]))
  }

  function Played(q: Query, rounds: seq<Round>): Query
    requires Playable(q, rounds)
    decreases |rounds|
  {
    if rounds == [] then q else Played(AfterRound(q, rounds[0]), rounds[1..])
  }

  function UsableRounds(rounds: seq<Round>): nat {
    if rounds == [] then 0 else (if Usable(rounds[0].status) then 1 else 0) + UsableRounds(rounds[1..])
  }

  /** The registered tools not remembered yet. */
  function Left(q: Query): set<string> {
    Names(q.reg) - q.alreadyRun
  }

  lemma {:induction false} NamesFit(tools: seq<Tool>)
    ensures |Names(tools)| <= |tools|
  {
    if tools == [] {
      assert Names(tools) == {};
    } else {
      var n := |tools| - 1;
      NamesFit(tools[..n]);
      assert Names(tools) <= Names(tools[..n]) + {tools[n].name} by {
        forall name | name in Names(tools)
          ensures name in Names(tools[..n]) + {tools[n].name}
        {
          var i :| 0 <= i < |tools| && tools[i].name == name;
          assert i < n ==> tools[..n][i].name == name;
        }
      }
      SubsetIsNoLarger(Names(tools), Names(tools[..n]) + {tools[n].name});
    }
  }

  lemma {:induction false} SubsetIsNoLarger(a: set<string>, b: set<string>)
    requires a <= b
    ensures |a| <= |b|
  {
    assert b == a + (b - a);
  }

  lemma {:induction false} SelectedToolIsLeft(q: Query, f: Finding)
    requires Eligible(q, f)
    ensures CandidateFor(q, f).tool.name in Left(q)
  {
    var tool := CandidateFor(q, f).tool;
    ResolvedIsAdmitted(q.reg, Wanted(f).value, q.scope, q.alreadyRun);
    var i :| 0 <= i < |q.reg| && q.reg[i] == tool;
    assert q.reg[i].name in Names(q.reg);
  }

  /** However runs end and whatever findings each brings, no more rounds end usably than tools are
      registered. */
  lemma {:induction false} UsableRoundsAreBounded(q: Query, rounds: seq<Round>)
    requires q.alreadyRun == Remembered(q.outcomes) && Playable(q, rounds)
    ensures UsableRounds(rounds) <= |Left(q)| <= |q.reg|
    decreases |rounds|
  {
    NamesFit(q.reg);
    SubsetIsNoLarger(Left(q), Names(q.reg));
    if rounds != [] {
      var o := RunOutcome(q, rounds[0]);
      SelectedToolIsLeft(Facing(q, rounds[0].findings), rounds[0].finding);
      RememberedOfAppend(q.outcomes, o);
      UsableRoundsAreBounded(AfterRound(q, rounds[0]), rounds[1..]);
      if Usable(o.status) {
        assert Left(AfterRound(q, rounds[0])) == Left(q) - {o.tool};
      }
    }
  }

  /** Rounds of which none ends usably change nothing: whatever findings the next round brings, the
      same of them are eligible, with the same tools, as if those rounds had not been. */
  lemma {:induction false} UnusableRoundsChangeNothing(q: Query, rounds: seq<Round>, findings: seq<Finding>, f: Finding)
    requires q.alreadyRun == Remembered(q.outcomes) && Playable(q, rounds) && UsableRounds(rounds) == 0
    ensures Played(q, rounds).alreadyRun == q.alreadyRun
    ensures |Played(q, rounds).outcomes| == |q.outcomes| + |rounds|
    ensures Eligible(Facing(Played(q, rounds), findings), f) <==> Eligible(Facing(q, findings), f)
    ensures Eligible(Facing(q, findings), f) ==>
      CandidateFor(Facing(Played(q, rounds), findings), f).tool == CandidateFor(Facing(q, findings), f).tool
    decreases |rounds|
  {
    if rounds != [] {
      var o := RunOutcome(q, rounds[0]);
      UnrememberedRunChangesNothing(Facing(q, findings), o, f);
      assert Facing(AfterRound(q, rounds[0]), findings) == After(Facing(q, findings), o);
      UnusableRoundsChangeNothing(AfterRound(q, rounds[0]), rounds[1..], findings, f);
    }
  }

  function Retries(r: Round, n: nat): seq<Round> {
    if n == 0 then [] else [r] + Retries(r, n - 1)
  }

  /** And such rounds can go on for ever: whatever is eligible once can be selected, and fail, any
      number of times over. */
  lemma {:induction false} UnusableRoundsGoOn(q: Query, r: Round, n: nat)
    requires q.alreadyRun == Remembered(q.outcomes) && !Usable(r.status)
    requires OnOffer(q, r)
    ensures Playable(q, Retries(r, n)) && UsableRounds(Retries(r, n)) == 0 && |Retries(r, n)| == n
    decreases n
  {
    if n > 0 {
      UnrememberedRunChangesNothing(Facing(q, r.findings), RunOutcome(q, r), r.finding);
      UnusableRoundsGoOn(AfterRound(q, r), r, n - 1);
      assert Retries(r, n)[1..] == Retries(r, n - 1);
    }
  }
}
