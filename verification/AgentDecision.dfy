/**
  One decision of the autonomous agent: the model proposes, the code vets, ranks and selects.
  The reply is any value at all.
 */
module AgentDecision {
  import opened Basics
  import opened StableSort
  import opened CapabilityRegistry

  datatype Grade = Low | Medium | High

  /** A confidence as the model wrote it.  NaN passes the parser; an integer too large for a float
      passes it too, and makes the conversion raise. */
  datatype RawNumber = Unparsable | NaN | TooLarge | Number(x: real)

  /** One proposed action; a label that is not one of the three grades is None. */
  datatype Proposal = Proposal(tool: Option<string>, confidence: RawNumber, value: Option<Grade>, risk: Option<Grade>)

  datatype Action = SaysFinish | SaysRunTool | SaysOther

  /** The client's answer.  `proposals` is None without a list of candidate actions, and an entry
      of that list is None if it is not an object. */
  datatype Reply =
    | NoReply
    | NotAnObject
    | Object(action: Action, proposals: Option<seq<Option<Proposal>>>, flat: Proposal, stop: Option<string>)

  datatype Candidate = Candidate(tool: Tool, confidence: real, value: Grade, risk: Grade)

  // ----- vetting ----------------------------------------------------------------------------

  /** `max(0.0, min(1.0, x))`, which sends NaN to 1.0. */
  function Clamp(raw: RawNumber): (c: real)
    requires !raw.TooLarge?
    ensures 0.0 <= c <= 1.0
  {
    match raw
    case Unparsable => 0.5
    case NaN => 1.0
    case Number(x) => if x < 0.0 then 0.0 else if x > 1.0 then 1.0 else x
  }

  function GradeOr(grade: Option<Grade>): Grade {
    if grade.Some? then grade.value else Medium
  }

  /** The tool a proposal names, if it is on the allowlist. */
  function AllowedTool(item: Option<Proposal>, available: seq<Tool>): Option<Tool> {
    if item.None? || item.value.tool.None? then None else First(available, Named(item.value.tool.value))
  }

  /** Only the confidence of an allowed tool is ever converted. */
  predicate Raises(item: Option<Proposal>, available: seq<Tool>) {
    AllowedTool(item, available).Some? && item.value.confidence.TooLarge?
  }

  /** A proposal survives only if its tool is on the allowlist. */
  function Vet(item: Option<Proposal>, available: seq<Tool>): Option<Candidate> {
    var tool := AllowedTool(item, available);
    if tool.None? || item.value.confidence.TooLarge? then None
    else Some(Candidate(tool.value, Clamp(item.value.confidence), GradeOr(item.value.value), GradeOr(item.value.risk)))
  }

  /** The proposals to vet: the list, or the older flat form, whose labels are ignored. */
  function Items(reply: Reply): seq<Option<Proposal>>
    requires reply.Object?
  {
    if reply.proposals.Some? then reply.proposals.value
    else if reply.action.SaysRunTool? then [Some(reply.flat.(value := None, risk := None))]
    else []
  }

  predicate Passes(c: Candidate, floor: real) {
    floor > 0.0 ==> c.confidence >= floor
  }

  predicate Eligible(item: Option<Proposal>, available: seq<Tool>, floor: real) {
    Vet(item, available).Some? && Passes(Vet(item, available).value, floor)
  }

  // ----- ranking ----------------------------------------------------------------------------

  function Weight(value: Grade): real {
    match value case Low => 1.0 case Medium => 1.15 case High => 1.3
  }

  function Penalty(risk: Grade): real {
    match risk case Low => 0.0 case Medium => 0.1 case High => 0.2
  }

  function Score(c: Candidate): real {
    c.confidence * Weight(c.value) - Penalty(c.risk)
  }

  predicate ByScore(a: Candidate, b: Candidate) {
    Score(a) >= Score(b)
  }

  /** One candidate outranks another whatever their labels exactly when its confidence exceeds
      the other's by this much; confidence alone does not decide. */
  lemma {:induction false} WhenConfidenceDecides(x: real, y: real, a: Tool, b: Tool)
    requires 0.0 <= x <= 1.0 && 0.0 <= y <= 1.0
    ensures (forall v, r, w, q :: ByScore(Candidate(a, x, v, r), Candidate(b, y, w, q))) <==> x - 0.2 >= 1.3 * y
  {
    if x - 0.2 < 1.3 * y {
      assert !ByScore(Candidate(a, x, Low, High), Candidate(b, y, High, Low));
    }
  }

  /** The candidates of the first `n` proposals that survive vetting and the floor. */
  function Kept(items: seq<Option<Proposal>>, n: nat, available: seq<Tool>, floor: real): seq<Candidate>
    requires n <= |items|
  {
    if n == 0 then []
    else if Eligible(items[n - 1], available, floor)
    then Kept(items, n - 1, available, floor) + [Vet(items[n - 1], available).value]
    else Kept(items, n - 1, available, floor)
  }

  /** `_parse_candidates`: vet in a loop, drop what is below the floor, rank; None is a raise. */
  method ParseCandidates(reply: Reply, available: seq<Tool>, floor: real) returns (ranked: Option<seq<Candidate>>)
    requires reply.Object?
    ensures ranked.None? <==> exists i | 0 <= i < |Items(reply)| :: Raises(Items(reply)[i], available)
    ensures ranked.Some? ==> ranked.value == Sort(Kept(Items(reply), |Items(reply)|, available, floor), ByScore)
  {
    var items := Items(reply);
    var out: seq<Candidate> := [];
    for n := 0 to |items|
      invariant out == Kept(items, n, available, 0.0)
      invariant forall i | 0 <= i < n :: !Raises(items[i], available)
    {
      if Raises(items[n], available) {
        return None;
      }
      var c := Vet(items[n], available);
      if c.Some? {
        out := out + [c.value];
      }
    }
    if floor > 0.0 {
      var above: seq<Candidate> := [];
      for k := 0 to |out|
        invariant above == Above(out, k, floor)
      {
        if out[k].confidence >= floor {
          above := above + [out[k]];
        }
      }
      FloorAfterVetting(items, |items|, available, floor);
      out := above;
    } else {
      FloorOff(items, |items|, available, floor);
    }
    ranked := Some(Sort(out, ByScore));
  }

  function Above(s: seq<Candidate>, n: nat, floor: real): seq<Candidate>
    requires n <= |s|
  {
    if n == 0 then []
    else if s[n - 1].confidence >= floor then Above(s, n - 1, floor) + [s[n - 1]]
    else Above(s, n - 1, floor)
  }

  lemma {:induction false} AbovePrefix(s: seq<Candidate>, t: seq<Candidate>, n: nat, floor: real)
    requires n <= |s| && n <= |t| && s[..n] == t[..n]
    ensures Above(s, n, floor) == Above(t, n, floor)
  {
    if n > 0 {
      assert s[n - 1] == s[..n][n - 1] == t[n - 1];
      assert s[..n - 1] == s[..n][..n - 1] == t[..n - 1];
      AbovePrefix(s, t, n - 1, floor);
    }
  }

  lemma {:induction false} FloorAfterVetting(items: seq<Option<Proposal>>, n: nat, available: seq<Tool>, floor: real)
    requires n <= |items| && floor > 0.0
    ensures var all := Kept(items, n, available, 0.0);
      Above(all, |all|, floor) == Kept(items, n, available, floor)
  {
    if n > 0 {
      FloorAfterVetting(items, n - 1, available, floor);
      var before, after := Kept(items, n - 1, available, 0.0), Kept(items, n, available, 0.0);
      AbovePrefix(before, after, |before|, floor);
    }
  }

  lemma {:induction false} FloorOff(items: seq<Option<Proposal>>, n: nat, available: seq<Tool>, floor: real)
    requires n <= |items| && floor <= 0.0
    ensures Kept(items, n, available, 0.0) == Kept(items, n, available, floor)
  {
    if n > 0 {
      FloorOff(items, n - 1, available, floor);
    }
  }

  // ----- the selection, declaratively -------------------------------------------------------

  /** No eligible proposal scores higher, and none before it scores as high. */
  predicate Best(items: seq<Option<Proposal>>, available: seq<Tool>, floor: real, i: nat) {
    && i < |items| && Eligible(items[i], available, floor)
    && forall j | 0 <= j < |items| && Eligible(items[j], available, floor) ::
         && Score(Vet(items[i], available).value) >= Score(Vet(items[j], available).value)
         && (j < i ==> Score(Vet(items[i], available).value) > Score(Vet(items[j], available).value))
  }

  /** Which proposal each kept candidate came from. */
  ghost function Sources(items: seq<Option<Proposal>>, n: nat, available: seq<Tool>, floor: real): (r: seq<nat>)
    requires n <= |items|
    ensures |r| == |Kept(items, n, available, floor)|
    ensures forall k | 0 <= k < |r| :: r[k] < n && Eligible(items[r[k]], available, floor)
                                      && Kept(items, n, available, floor)[k] == Vet(items[r[k]], available).value
    ensures forall k, l | 0 <= k < l < |r| :: r[k] < r[l]
    ensures forall i | 0 <= i < n && Eligible(items[i], available, floor) :: i in r
  {
    if n == 0 then []
    else if Eligible(items[n - 1], available, floor) then Sources(items, n - 1, available, floor) + [n - 1]
    else Sources(items, n - 1, available, floor)
  }

  function Anything(): Candidate -> bool {
    (c: Candidate) => true
  }

  /** The head of the ranking is the best proposal, and the ranking is empty only if none is
      eligible. */
  lemma {:induction false} RankingLeads(items: seq<Option<Proposal>>, available: seq<Tool>, floor: real)
    ensures var ranked := Sort(Kept(items, |items|, available, floor), ByScore);
      && (ranked == [] <==> forall i | 0 <= i < |items| :: !Eligible(items[i], available, floor))
      && (ranked != [] ==>
            exists i: nat :: Best(items, available, floor, i) && ranked[0] == Vet(items[i], available).value)
  {
    var kept := Kept(items, |items|, available, floor);
    var sources := Sources(items, |items|, available, floor);
    SortHolds(kept, ByScore);
    if kept != [] {
      var k := FirstOfSorted(kept, ByScore, Anything());
      assert First(Sort(kept, ByScore), Anything()) == Some(Sort(kept, ByScore)[0]);
      forall j | 0 <= j < |items| && Eligible(items[j], available, floor)
        ensures Score(kept[k]) >= Score(Vet(items[j], available).value)
        ensures j < sources[k] ==> Score(kept[k]) > Score(Vet(items[j], available).value)
      {
        var l :| 0 <= l < |sources| && sources[l] == j;
        assert ByScore(kept[k], kept[l]) && (l < k ==> !ByScore(kept[l], kept[k]));
      }
      assert Best(items, available, floor, sources[k]);
    }
  }

  // ----- proposals as they were written -----------------------------------------------------

  /** An allowed proposal carries the confidence it was written with, pulled into the range from
      nought to one; what is no number counts as a half, and NaN as one. */
  lemma {:induction false} ConfidenceAsWritten(p: Proposal, available: seq<Tool>, k: nat)
    requires k < |available| && p.tool == Some(available[k].name) && !p.confidence.TooLarge?
    ensures Vet(Some(p), available).Some?
    ensures var c := Vet(Some(p), available).value.confidence;
      match p.confidence
      case Unparsable => c == 0.5
      case NaN => c == 1.0
      case TooLarge => true
      case Number(x) => (x <= 0.0 ==> c == 0.0) && (0.0 <= x <= 1.0 ==> c == x) && (x >= 1.0 ==> c == 1.0)
    ensures var c := Vet(Some(p), available).value;
      && c.tool in available && c.tool.name == available[k].name
      && c.value == (if p.value == Some(Low) then Low else if p.value == Some(High) then High else Medium)
      && c.risk == (if p.risk == Some(Low) then Low else if p.risk == Some(High) then High else Medium)
  {
    var named := Named(available[k].name);
    FirstFinds(available, named);
    assert named(available[k]);
  }

  /** So which proposals are eligible can be told from what the model wrote. */
  lemma {:induction false} EligibleAsWritten(item: Option<Proposal>, available: seq<Tool>, floor: real)
    ensures Eligible(item, available, floor) <==>
      && item.Some? && item.value.tool.Some?
      && (exists k :: 0 <= k < |available| && available[k].name == item.value.tool.value)
      && match item.value.confidence
         case Unparsable => floor <= 0.5
         case NaN => floor <= 1.0
         case TooLarge => false
         case Number(x) => floor <= 0.0 || (floor <= x && floor <= 1.0)
  {
    if item.Some? && item.value.tool.Some? {
      FirstFinds(available, Named(item.value.tool.value));
    }
  }

  /** A decision raises over a proposal exactly if it names an allowed tool with a confidence too large
      for a float. */
  lemma {:induction false} RaisesAsWritten(item: Option<Proposal>, available: seq<Tool>)
    ensures Raises(item, available) <==>
      && item.Some? && item.value.tool.Some? && item.value.confidence == TooLarge
      && exists k :: 0 <= k < |available| && available[k].name == item.value.tool.value
  {
    if item.Some? && item.value.tool.Some? {
      FirstFinds(available, Named(item.value.tool.value));
    }
  }

  /** The older flat form stands for a list of one proposal without labels if it says to run a tool,
      and for an empty list if it does not; a list takes precedence over it. */
  lemma {:induction false} FlatIsAListOfOne(action: Action, flat: Proposal, stop: Option<string>,
                                            proposals: seq<Option<Proposal>>)
    ensures Items(Object(SaysRunTool, None, flat, stop)) == [Some(Proposal(flat.tool, flat.confidence, None, None))]
    ensures action != SaysRunTool ==> Items(Object(action, None, flat, stop)) == []
    ensures Items(Object(action, Some(proposals), flat, stop)) == proposals
  {
  }

  /** The score by steps of the labels: each step of value is worth fifteen hundredths of the
      confidence, and each step of risk costs a tenth. */
  lemma {:induction false} ScoreBySteps(c: Candidate, value: nat, risk: nat)
    requires value <= 2 && c.value == [Low, Medium, High][value]
    requires risk <= 2 && c.risk == [Low, Medium, High][risk]
    ensures Score(c) == c.confidence * (1.0 + 0.15 * value as real) - 0.1 * risk as real
  {
  }

  /** Of two proposals with the same labels the one written with less confidence is never the best,
      unless both lie beyond the same end of the range. */
  lemma {:induction false} LessConfidentIsNotBest(items: seq<Option<Proposal>>, available: seq<Tool>, floor: real,
                                                  i: nat, j: nat, x: real, y: real)
    requires i < |items| && j < |items| && Eligible(items[i], available, floor) && Eligible(items[j], available, floor)
    requires items[i].value.confidence == Number(x) && items[j].value.confidence == Number(y)
    requires items[i].value.value == items[j].value.value && items[i].value.risk == items[j].value.risk
    requires x < y && x < 1.0 && y > 0.0
    ensures !Best(items, available, floor, i)
  {
    var a, b := Vet(items[i], available).value, Vet(items[j], available).value;
    assert a.confidence < b.confidence && a.value == b.value && a.risk == b.risk;
    assert Weight(a.value) > 0.0;
    MoreTimesPositive(a.confidence, b.confidence, Weight(a.value));
  }

  lemma {:induction false} MoreTimesPositive(x: real, y: real, w: real)
    requires x < y && w > 0.0
    ensures x * w < y * w
  {
    assert (y - x) * w > 0.0;
  }

  /** And the best is one proposal only. */
  lemma {:induction false} BestIsUnique(items: seq<Option<Proposal>>, available: seq<Tool>, floor: real, i: nat, j: nat)
    requires Best(items, available, floor, i) && Best(items, available, floor, j)
    ensures i == j
  {
  }

  // ----- decide -----------------------------------------------------------------------------

  datatype Stop =
    | NoAvailableTools | AiUnavailable | BadAiOutput | BelowConfidenceFloor | NoCandidates
    | Said(text: string)
    | AiCallBudget | TimeBudget | NoProgress

  /** `Finish` or `RunTool`, with the ranking kept for the audit; or an exception. */
  datatype Decision =
    | Finish(stop: Stop, ranked: seq<Candidate>)
    | RunTool(tool: Tool, ranked: seq<Candidate>)
    | Raised

  /** Why a decision to finish is one; `unranked` when no candidate survived. */
  function StopFor(reply: Reply, available: seq<Tool>, floor: real, unranked: bool): Stop {
    if available == [] then NoAvailableTools
    else match reply
      case NoReply => AiUnavailable
      case NotAnObject => BadAiOutput
      case Object(_, _, _, stop) =>
        if stop.Some? then Said(stop.value) else if floor > 0.0 && unranked then BelowConfidenceFloor else NoCandidates
  }

  /** The decision as a function of the reply. */
  function DecisionOf(reply: Reply, available: seq<Tool>, floor: real): Decision {
    if available == [] then Finish(NoAvailableTools, [])
    else if !reply.Object? then Finish(StopFor(reply, available, floor, true), [])
    else if exists i | 0 <= i < |Items(reply)| :: Raises(Items(reply)[i], available) then Raised
    else
      var ranked := Sort(Kept(Items(reply), |Items(reply)|, available, floor), ByScore);
      if reply.action.SaysFinish? || ranked == [] then Finish(StopFor(reply, available, floor, ranked == []), ranked)
      else RunTool(ranked[0].tool, ranked)
  }

  /** `decide`: whatever the reply, a tool is named only if it is the best eligible proposal, and
      the decision is to finish when there is none or the model says so; except that a confidence
      too large for a float, on a proposal of an allowed tool, makes it raise. */
  method Decide(reply: Reply, available: seq<Tool>, floor: real) returns (d: Decision)
    ensures d == DecisionOf(reply, available, floor)
    ensures d.Raised? <==>
      available != [] && reply.Object? && exists i | 0 <= i < |Items(reply)| :: Raises(Items(reply)[i], available)
    ensures d.RunTool? <==>
      && !d.Raised? && available != [] && reply.Object? && !reply.action.SaysFinish?
      && exists i | 0 <= i < |Items(reply)| :: Eligible(Items(reply)[i], available, floor)
    ensures d.RunTool? ==> d.tool in available
    ensures d.RunTool? ==>
      exists i: nat :: Best(Items(reply), available, floor, i) && Vet(Items(reply)[i], available).value.tool == d.tool
    ensures available == [] ==> d == Finish(NoAvailableTools, [])
    ensures available != [] && reply.NoReply? ==> d == Finish(AiUnavailable, [])
    ensures available != [] && reply.NotAnObject? ==> d == Finish(BadAiOutput, [])
    ensures d.Finish? && available != [] && reply.Object? ==>
      var none := forall i | 0 <= i < |Items(reply)| :: !Eligible(Items(reply)[i], available, floor);
      && (none <==> d.ranked == [])
      && d.stop == (if reply.stop.Some? then Said(reply.stop.value)
                    else if floor > 0.0 && none then BelowConfidenceFloor else NoCandidates)
    ensures !d.Raised? ==> forall k | 0 <= k < |d.ranked| :: d.ranked[k].tool in available && Passes(d.ranked[k], floor)
    ensures !d.Raised? ==> Sorted(d.ranked, ByScore)
    ensures d.RunTool? ==> d.ranked != [] && d.ranked[0].tool == d.tool
  {
    if available == [] {
      return Finish(NoAvailableTools, []);
    }
    match reply {
      case NoReply => return Finish(AiUnavailable, []);
      case NotAnObject => return Finish(BadAiOutput, []);
      case Object(action, _, _, _) =>
        var parsed := ParseCandidates(reply, available, floor);
        if parsed.None? {
          return Raised;
        }
        var ranked := parsed.value;
        RankingLeads(Items(reply), available, floor);
        RankedIsVetted(Items(reply), available, floor);
        if action.SaysFinish? || ranked == [] {
          return Finish(StopFor(reply, available, floor, ranked == []), ranked);
        }
        return RunTool(ranked[0].tool, ranked);
    }
  }

  lemma {:induction false} RankedIsVetted(items: seq<Option<Proposal>>, available: seq<Tool>, floor: real)
    ensures var ranked := Sort(Kept(items, |items|, available, floor), ByScore);
      && Sorted(ranked, ByScore)
      && forall k | 0 <= k < |ranked| :: ranked[k].tool in available && Passes(ranked[k], floor)
  {
    var kept := Kept(items, |items|, available, floor);
    var ranked := Sort(kept, ByScore);
    var sources := Sources(items, |items|, available, floor);
    SortHolds(kept, ByScore);
    forall k | 0 <= k < |ranked|
      ensures ranked[k].tool in available && Passes(ranked[k], floor)
    {
      assert ranked[k] in kept;
      var l :| 0 <= l < |kept| && kept[l] == ranked[k];
      FirstFinds(available, Named(items[sources[l]].value.tool.value));
    }
  }
}
