/**
  The autonomous engagement: rounds of decisions against a model, a clock, a scan row and tools
  that may answer anything at any moment.  What is proved ranges over every such world.
 */
module AgentLoop {
  import opened Basics
  import opened StableSort
  import opened CapabilityRegistry
  import opened AgentDecision

  /** Zero switches a budget off; `maxSteps` is never off. */
  datatype Limits = Limits(maxSteps: int, floor: real, timeBudget: real, maxAiCalls: int, stallLimit: int,
                           maxRounds: int)

  datatype Setup = Setup(reg: Registry, categories: map<string, string>, targetType: string, active: bool,
                         rules: Rules, limits: Limits)
  {
    function Grant(): Scope {
      Scope(targetType, active, rules.maxTier)
    }
  }

  // ----- the outside world, moment by moment ------------------------------------------------

  datatype Signal = Continue | Cancelled | Superseded

  datatype Outcome = Revoked | Ran(status: string, findings: nat)

  /** `access` counts the newly confirmed accesses of an exploitation phase. */
  datatype World = World(stop: nat -> Signal, clock: nat -> real, reply: nat -> Reply, outcome: nat -> Outcome,
                         access: nat -> nat)

  // ----- the persisted decisions ------------------------------------------------------------

  datatype Event =
    | RanTool(tool: Tool, status: string, findings: nat)
    | BlockedTool(tool: Tool)
    | Finished(stop: Stop)
    | OutOfBudget(stop: Stop)

  /** A decision row: its step number, the moment it was taken at, the ranking it was selected
      from and what came of it. */
  datatype Entry = Entry(step: nat, now: nat, ranked: seq<Candidate>, event: Event)

  datatype Log = Start | Then(before: Log, entry: Entry)

  function Length(log: Log): nat {
    match log case Start => 0 case Then(before, _) => Length(before) + 1
  }

  /** Names of the tools run or blocked. */
  function Consumed(log: Log): set<string> {
    match log
    case Start => {}
    case Then(before, Entry(_, _, _, RanTool(tool, _, _))) => Consumed(before) + {tool.name}
    case Then(before, Entry(_, _, _, BlockedTool(tool))) => Consumed(before) + {tool.name}
    case Then(before, _) => Consumed(before)
  }

  /** Tools executed, in order. */
  function Executed(log: Log): seq<Tool> {
    match log
    case Start => []
    case Then(before, Entry(_, _, _, RanTool(tool, _, _))) => Executed(before) + [tool]
    case Then(before, _) => Executed(before)
  }

  function Statuses(log: Log): seq<string> {
    match log
    case Start => []
    case Then(before, Entry(_, _, _, RanTool(_, status, _))) => Statuses(before) + [status]
    case Then(before, _) => Statuses(before)
  }

  /** Decisions for which the model was asked. */
  function AiCalls(log: Log): nat {
    match log
    case Start => 0
    case Then(before, entry) => AiCalls(before) + if entry.event.OutOfBudget? then 0 else 1
  }

  /** Runs without a finding since the last one that had any. */
  function Stall(log: Log): nat {
    match log
    case Start => 0
    case Then(before, Entry(_, _, _, RanTool(_, _, findings))) => if findings == 0 then Stall(before) + 1 else 0
    case Then(before, _) => Stall(before)
  }

  /** Decisions that ended a round. */
  function Conclusions(log: Log): nat {
    match log
    case Start => 0
    case Then(before, entry) => Conclusions(before) + if entry.event.Finished? || entry.event.OutOfBudget? then 1 else 0
  }

  // ----- what makes a log lawful ------------------------------------------------------------

  /** `_budget_stop_reason`, in its order of precedence. */
  function BudgetStop(limits: Limits, aiCalls: nat, elapsed: real, stall: nat): Option<Stop> {
    if limits.maxAiCalls != 0 && aiCalls >= limits.maxAiCalls then Some(AiCallBudget)
    else if limits.timeBudget != 0.0 && elapsed >= limits.timeBudget then Some(TimeBudget)
    else if limits.stallLimit != 0 && stall >= limits.stallLimit then Some(NoProgress)
    else None
  }

  /** The tool heads a ranking in which every candidate was on offer and above the floor. */
  predicate Chosen(setup: Setup, consumed: set<string>, ranked: seq<Candidate>, tool: Tool) {
    && ranked != [] && ranked[0].tool == tool && Sorted(ranked, ByScore)
    && forall k | 0 <= k < |ranked| ::
         Offered(setup.reg, setup.Grant(), consumed, ranked[k].tool) && Passes(ranked[k], setup.limits.floor)
  }

  /** The list of exactly the tools on offer, by phase. */
  ghost predicate Allowlist(setup: Setup, consumed: set<string>, available: seq<Tool>) {
    && (forall tool :: tool in available <==> Offered(setup.reg, setup.Grant(), consumed, tool))
    && Distinct(available) && Sorted(available, ByPhase)
  }

  /** The decision is the one that the reply calls for, given the tools on offer. */
  ghost predicate CalledFor(setup: Setup, consumed: set<string>, reply: Reply, decision: Decision) {
    exists available :: Allowlist(setup, consumed, available)
      && decision == DecisionOf(reply, available, setup.limits.floor)
  }

  /** What the decisions before it and the world at its moment entitle a decision to be. */
  ghost predicate Justified(setup: Setup, world: World, before: Log, entry: Entry) {
    && entry.step == Length(before) < setup.limits.maxSteps
    && (before.Then? ==> before.entry.now < entry.now)
    && world.stop(entry.now).Continue?
    && var budget := BudgetStop(setup.limits, AiCalls(before), world.clock(entry.now), Stall(before));
       match entry.event
       case RanTool(tool, status, findings) =>
         && budget.None? && Chosen(setup, Consumed(before), entry.ranked, tool)
         && CalledFor(setup, Consumed(before), world.reply(entry.now), RunTool(tool, entry.ranked))
         && ActionAllowed(tool.tier, setup.rules) && world.outcome(entry.now) == Ran(status, findings)
       case BlockedTool(tool) =>
         && budget.None? && Chosen(setup, Consumed(before), entry.ranked, tool)
         && CalledFor(setup, Consumed(before), world.reply(entry.now), RunTool(tool, entry.ranked))
         && !ActionAllowed(tool.tier, setup.rules)
       case Finished(stop) =>
         budget.None? && CalledFor(setup, Consumed(before), world.reply(entry.now), Finish(stop, entry.ranked))
       case OutOfBudget(stop) => budget == Some(stop)
  }

  ghost predicate Lawful(setup: Setup, world: World, log: Log) {
    match log
    case Start => true
    case Then(before, entry) => Lawful(setup, world, before) && Justified(setup, world, before, entry)
  }

  predicate Extends(log: Log, earlier: Log) {
    log == earlier || (log.Then? && Extends(log.before, earlier))
  }

  /** One decision cycle: compute the allowlist, ask the model, select. */
  method Propose(setup: Setup, alreadyRun: set<string>, reply: Reply) returns (decision: Decision)
    ensures decision.RunTool? ==> Chosen(setup, alreadyRun, decision.ranked, decision.tool)
    ensures CalledFor(setup, alreadyRun, reply, decision)
  {
    var available := AvailableTools(setup.reg, setup.categories, setup.Grant(), alreadyRun);
    assert Allowlist(setup, alreadyRun, available);
    decision := Decide(reply, available, setup.limits.floor);
  }

  lemma {:induction false} ExtendsFurther(log: Log, middle: Log, earlier: Log)
    requires Extends(log, middle) && Extends(middle, earlier)
    ensures Extends(log, earlier)
  {
    if log != middle {
      ExtendsFurther(log.before, middle, earlier);
    }
  }

  // ----- the engagement ---------------------------------------------------------------------

  /** `Lost` and `Broken` are exceptions: another execution has taken over, or the decision raised. */
  datatype RoundEnd = OutOfSteps | Halted | Lost | Broken | Concluded

  class Engagement {
    const setup: Setup
    const world: World
    var stepNo: nat
    var aiCalls: nat
    var stall: nat
    var alreadyRun: set<string>
    var toolStatuses: seq<string>
    var log: Log
    var moment: nat
    var exploitations: nat
    ghost var gains: seq<nat>  // the newly confirmed accesses of each completed round

    constructor (setup: Setup, world: World)
      ensures this.setup == setup && this.world == world && log == Start && exploitations == 0 && gains == []
      ensures Valid()
    {
      this.setup, this.world := setup, world;
      stepNo, aiCalls, stall, alreadyRun, toolStatuses, log := 0, 0, 0, {}, [], Start;
      moment, exploitations, gains := 0, 0, [];
    }

    /** Every counter says what the persisted decisions say. */
    ghost predicate Valid()
      reads this
    {
      && Lawful(setup, world, log) && (log.Then? ==> log.entry.now < moment)
      && stepNo == Length(log)
      && aiCalls == AiCalls(log) && stall == Stall(log)
      && alreadyRun == Consumed(log) && toolStatuses == Statuses(log)
    }

    /** `_record` and `_persist_decision`: every persisted decision consumes a step number. */
    method Record(now: nat, ranked: seq<Candidate>, event: Event)
      requires Lawful(setup, world, log) && stepNo == Length(log)
      requires Justified(setup, world, log, Entry(stepNo, now, ranked, event))
      modifies this`stepNo, this`log
      ensures log == Then(old(log), Entry(old(stepNo), now, ranked, event))
      ensures Lawful(setup, world, log) && stepNo == Length(log)
    {
      log := Then(log, Entry(stepNo, now, ranked, event));
      stepNo := stepNo + 1;
    }

    /** The safety gate and the run of a selected tool. */
    method Act(now: nat, tool: Tool, ranked: seq<Candidate>) returns (lost: bool)
      requires Lawful(setup, world, log) && stepNo == Length(log) < setup.limits.maxSteps
      requires aiCalls == AiCalls(log) + 1 && stall == Stall(log)
      requires alreadyRun == Consumed(log) && toolStatuses == Statuses(log)
      requires (log.Then? ==> log.entry.now < now) && now < moment && world.stop(now).Continue?
      requires BudgetStop(setup.limits, AiCalls(log), world.clock(now), Stall(log)).None?
      requires Chosen(setup, Consumed(log), ranked, tool)
      requires CalledFor(setup, Consumed(log), world.reply(now), RunTool(tool, ranked))
      modifies this`stepNo, this`stall, this`alreadyRun, this`toolStatuses, this`log
      ensures lost ==> log == old(log)
      ensures !lost ==> Valid() && log.Then? && log.before == old(log)
      ensures !lost ==> log.entry.event.RanTool? || log.entry.event.BlockedTool?
      ensures lost <==> ActionAllowed(tool.tier, setup.rules) && world.outcome(now).Revoked?
    {
      if !ActionAllowed(tool.tier, setup.rules) {
        Record(now, ranked, BlockedTool(tool));
        alreadyRun := alreadyRun + {tool.name};
        return false;
      }
      var outcome := world.outcome(now);
      if outcome.Revoked? {
        return true;
      }
      toolStatuses := toolStatuses + [outcome.status];
      alreadyRun := alreadyRun + {tool.name};
      stall := if outcome.findings == 0 then stall + 1 else 0;
      Record(now, ranked, RanTool(tool, outcome.status, outcome.findings));
      return false;
    }

    /** One pass of the loop; None means go on. */
    method Turn() returns (end: Option<RoundEnd>)
      requires Valid() && stepNo < setup.limits.maxSteps
      modifies this`stepNo, this`aiCalls, this`stall, this`alreadyRun, this`toolStatuses, this`log, this`moment
      ensures Lawful(setup, world, log) && (end == Some(Lost) || Valid())
      ensures end != Some(OutOfSteps) && (end == Some(Halted) ==> moment > 0 && world.stop(moment - 1).Cancelled?)
      ensures end in {Some(Halted), Some(Lost), Some(Broken)} ==> log == old(log)
      ensures end in {None, Some(Concluded)} ==> log.Then? && log.before == old(log)
      ensures end == Some(Concluded) ==> log.entry.event.Finished? || log.entry.event.OutOfBudget?
      ensures end == None ==> log.entry.event.RanTool? || log.entry.event.BlockedTool?
      ensures Extends(log, old(log))
      ensures Conclusions(log) == old(Conclusions(log)) + if end == Some(Concluded) then 1 else 0
    {
      var now := moment;
      moment := moment + 1;
      var signal := world.stop(now);
      if signal.Cancelled? {
        return Some(Halted);
      }
      if signal.Superseded? {
        return Some(Lost);
      }
      var budget := BudgetStop(setup.limits, aiCalls, world.clock(now), stall);
      if budget.Some? {
        Record(now, [], OutOfBudget(budget.value));
        return Some(Concluded);
      }
      var decision := Propose(setup, alreadyRun, world.reply(now));
      if decision.Raised? {
        return Some(Broken);
      }
      aiCalls := aiCalls + 1;
      if decision.Finish? {
        Record(now, decision.ranked, Finished(decision.stop));
        return Some(Concluded);
      }
      var lost := Act(now, decision.tool, decision.ranked);
      return if lost then Some(Lost) else None;
    }

    /** One reasoning round. */
    method DecisionLoop() returns (end: RoundEnd)
      requires Valid()
      modifies this`stepNo, this`aiCalls, this`stall, this`alreadyRun, this`toolStatuses, this`log, this`moment
      ensures Lawful(setup, world, log) && Extends(log, old(log))
      ensures end.Lost? || Valid()
      ensures end.Halted? ==> moment > 0 && world.stop(moment - 1).Cancelled?
      ensures end.OutOfSteps? ==> stepNo >= setup.limits.maxSteps
      ensures Conclusions(log) == old(Conclusions(log)) + if end.Concluded? then 1 else 0
    {
      while stepNo < setup.limits.maxSteps
        invariant Valid() && Extends(log, old(log)) && Conclusions(log) == old(Conclusions(log))
        decreases setup.limits.maxSteps - stepNo
      {
        ghost var before := log;
        var stop := Turn();
        ExtendsFurther(log, before, old(log));
        if stop.Some? {
          return stop.value;
        }
      }
      return OutOfSteps;
    }

    /** The rounds.  `prior` holds the tool statuses of an earlier run of the same scan, which is
        reused instead of asking the model again.  None is an exception.  Where exploitation is
        enabled its phase follows each round however that ended, a cancellation included, and another
        round follows exactly if it gained an access and one is left. */
    method Run(prior: Option<seq<string>>) returns (result: Option<seq<string>>)
      requires Valid() && log == Start && exploitations == 0 && gains == []
      modifies this
      ensures Lawful(setup, world, log)
      ensures setup.limits.maxRounds <= 0 ==> log == Start && gains == []
      ensures setup.limits.maxRounds > 0 ==> Conclusions(log) <= setup.limits.maxRounds
      ensures !setup.rules.exploitation ==> Conclusions(log) <= 1
      ensures prior.Some? ==> log == Start && result == Some(Unskipped(prior.value, |prior.value|))
      ensures prior.None? && result.Some? ==> result.value == Statuses(log)
      ensures exploitations == if setup.rules.exploitation then |gains| else 0
      ensures !setup.rules.exploitation ==> forall i | 0 <= i < |gains| :: gains[i] == 0
      ensures forall i | 0 <= i < |gains| - 1 :: gains[i] > 0
      ensures prior.None? && result.Some? && setup.limits.maxRounds > 0 ==>
        gains != [] && (gains[|gains| - 1] == 0 || |gains| == setup.limits.maxRounds)
    {
      if prior.Some? {
        var kept := [];
        for i := 0 to |prior.value|
          invariant kept == Unskipped(prior.value, i)
        {
          if prior.value[i] != "skipped_unauthorized" {
            kept := kept + [prior.value[i]];
          }
        }
        return Some(kept);
      }
      var round := 0;
      while round < setup.limits.maxRounds
        invariant Valid() && Conclusions(log) <= round == |gains|
        invariant exploitations == if setup.rules.exploitation then round else 0
        invariant forall i | 0 <= i < |gains| :: gains[i] > 0
        invariant round == 0 || (setup.rules.exploitation && round < setup.limits.maxRounds)
        invariant round == 0 ==> log == Start
      {
        var end := DecisionLoop();
        if end.Lost? || end.Broken? {
          return None;
        }
        var newAccess := 0;
        if setup.rules.exploitation {
          exploitations := exploitations + 1;
          newAccess := world.access(moment);
          moment := moment + 1;
        }
        round := round + 1;
        gains := gains + [newAccess];
        if newAccess == 0 || round >= setup.limits.maxRounds {
          break;
        }
      }
      return Some(toolStatuses);
    }
  }

  /** The first `n` statuses less those of runs that were never authorized. */
  function Unskipped(statuses: seq<string>, n: nat): seq<string>
    requires n <= |statuses|
  {
    if n == 0 then []
    else if statuses[n - 1] == "skipped_unauthorized" then Unskipped(statuses, n - 1)
    else Unskipped(statuses, n - 1) + [statuses[n - 1]]
  }

  // ----- what every lawful log keeps --------------------------------------------------------

  predicate Steps(log: Log, n: nat) {
    match log case Start => n == 0 case Then(before, entry) => n > 0 && entry.step == n - 1 && Steps(before, n - 1)
  }

  /** Step numbers count up from zero without gap or repeat, never beyond the ceiling. */
  lemma {:induction false} StepsCountUp(setup: Setup, world: World, log: Log)
    requires Lawful(setup, world, log)
    ensures Steps(log, Length(log)) && (log.Start? || Length(log) <= setup.limits.maxSteps)
  {
    if log.Then? {
      StepsCountUp(setup, world, log.before);
    }
  }

  /** No tool runs twice, in any round; each that runs is a registered tool that the scope admits
      given those before it, and passes the safety gate. */
  lemma {:induction false} NoToolRunsTwice(setup: Setup, world: World, log: Log)
    requires Lawful(setup, world, log)
    ensures forall i, j | 0 <= i < j < |Executed(log)| :: Executed(log)[i].name != Executed(log)[j].name
    ensures forall i | 0 <= i < |Executed(log)| ::
      && Executed(log)[i] in setup.reg && Admitted(Executed(log)[i], setup.Grant(), Names(Executed(log)[..i]))
      && ActionAllowed(Executed(log)[i].tier, setup.rules)
    ensures Names(Executed(log)) <= Consumed(log)
  {
    if log.Then? {
      NoToolRunsTwice(setup, world, log.before);
      if log.entry.event.RanTool? {
        var tools, tool := Executed(log.before), log.entry.event.tool;
        assert Executed(log) == tools + [tool];
        ResolvedIsAdmitted(setup.reg, tool.capability, setup.Grant(), Consumed(log.before));
        forall i | 0 <= i < |tools|
          ensures tools[i].name != tool.name && (tools + [tool])[..i] == tools[..i]
        {
          assert tools[i].name in Names(tools);
        }
        assert (tools + [tool])[..|tools|] == tools;
      }
    }
  }

  /** Whatever the scan's configuration asks for, every tool that runs is within the deployment's
      ceiling, and an intrusive one runs only if both deployment and scan enable exploitation. */
  lemma {:induction false} ExecutedStayWithinTheDeployment(setup: Setup, world: World, log: Log,
                                                           requested: Option<Tier>, exploit: bool, ceiling: Tier,
                                                           exploitEnabled: bool)
    requires Lawful(setup, world, log)
    requires setup.rules == RulesFromConfig(requested, exploit, ceiling, exploitEnabled)
    ensures forall i | 0 <= i < |Executed(log)| ::
      && TierAtMost(Executed(log)[i].tier, ceiling)
      && (Executed(log)[i].tier.Intrusive? ==> exploit && exploitEnabled)
  {
    NoToolRunsTwice(setup, world, log);
    RulesNeverExceedTheDeployment(requested, exploit, ceiling, exploitEnabled);
  }

  /** So an engagement runs no more tools than are registered. */
  lemma {:induction false} RunsAreBoundedByTheRegistry(setup: Setup, world: World, log: Log)
    requires Lawful(setup, world, log)
    ensures |Executed(log)| <= |setup.reg|
  {
    NoToolRunsTwice(setup, world, log);
    DistinctNamesFit(Executed(log), setup.reg);
  }

  /** A decision is a budget stop exactly if a budget that is switched on is used up, the model's calls
      before the time and the time before the stall. */
  lemma {:induction false} WhyARoundStops(setup: Setup, world: World, log: Log)
    requires Lawful(setup, world, log) && log.Then?
    ensures var limits, event := setup.limits, log.entry.event;
      var asked := limits.maxAiCalls != 0 && AiCalls(log.before) >= limits.maxAiCalls;
      var late := limits.timeBudget != 0.0 && world.clock(log.entry.now) >= limits.timeBudget;
      var idle := limits.stallLimit != 0 && Stall(log.before) >= limits.stallLimit;
      && (event == OutOfBudget(AiCallBudget) <==> asked)
      && (event == OutOfBudget(TimeBudget) <==> late && !asked)
      && (event == OutOfBudget(NoProgress) <==> idle && !late && !asked)
      && (event.OutOfBudget? <==> asked || late || idle)
  {
  }

  /** The tool on offer that a proposal names with a confidence that reaches the floor. */
  ghost predicate Heard(setup: Setup, consumed: set<string>, item: Option<Proposal>, tool: Tool) {
    && item.Some? && item.value.tool == Some(tool.name) && Offered(setup.reg, setup.Grant(), consumed, tool)
    && match item.value.confidence
       case Unparsable => setup.limits.floor <= 0.5
       case NaN => setup.limits.floor <= 1.0
       case TooLarge => false
       case Number(x) => setup.limits.floor <= 0.0 || (setup.limits.floor <= x && setup.limits.floor <= 1.0)
  }

  /** A round is brought to an end by the model exactly as it replied: because nothing is on offer, it
      gave no object, it said to finish, or none of its proposals names a tool on offer with enough
      confidence. */
  lemma {:induction false} WhyTheModelEndsARound(setup: Setup, world: World, log: Log)
    requires Lawful(setup, world, log) && log.Then? && log.entry.event.Finished?
    ensures var reply, consumed := world.reply(log.entry.now), Consumed(log.before);
      || (forall tool :: !Offered(setup.reg, setup.Grant(), consumed, tool))
      || reply.NoReply? || reply.NotAnObject? || reply.action.SaysFinish?
      || (forall i, tool | 0 <= i < |Items(reply)| :: !Heard(setup, consumed, Items(reply)[i], tool))
  {
    var reply, consumed := world.reply(log.entry.now), Consumed(log.before);
    var available :| Allowlist(setup, consumed, available)
      && Finish(log.entry.event.stop, log.entry.ranked) == DecisionOf(reply, available, setup.limits.floor);
    if available != [] && reply.Object? && !reply.action.SaysFinish? {
      RankingLeads(Items(reply), available, setup.limits.floor);
      forall i, tool | 0 <= i < |Items(reply)|
        ensures !Heard(setup, consumed, Items(reply)[i], tool)
      {
        EligibleAsWritten(Items(reply)[i], available, setup.limits.floor);
        assert tool in available <==> Offered(setup.reg, setup.Grant(), consumed, tool);
      }
    } else if available == [] {
      forall tool
        ensures !Offered(setup.reg, setup.Grant(), consumed, tool)
      {
        assert tool !in available;
      }
    }
  }

  /** And a tool is run, or blocked, only because a proposal of that very reply names it with enough
      confidence, and the reply does not say to finish. */
  lemma {:induction false} OnlyProposalsAreRun(setup: Setup, world: World, log: Log)
    requires Lawful(setup, world, log) && log.Then? && (log.entry.event.RanTool? || log.entry.event.BlockedTool?)
    ensures var reply := world.reply(log.entry.now);
      && reply.Object? && !reply.action.SaysFinish?
      && exists i | 0 <= i < |Items(reply)| ::
           Heard(setup, Consumed(log.before), Items(reply)[i], log.entry.event.tool)
  {
    var reply, consumed, floor := world.reply(log.entry.now), Consumed(log.before), setup.limits.floor;
    var available :| Allowlist(setup, consumed, available)
      && RunTool(log.entry.event.tool, log.entry.ranked) == DecisionOf(reply, available, floor);
    RankingLeads(Items(reply), available, floor);
    var i: nat :| Best(Items(reply), available, floor, i)
      && log.entry.ranked[0] == Vet(Items(reply)[i], available).value;
    EligibleAsWritten(Items(reply)[i], available, floor);
    FirstFinds(available, Named(Items(reply)[i].value.tool.value));
    assert Heard(setup, consumed, Items(reply)[i], log.entry.event.tool);
  }

  /** No decision is written once a cancellation or a takeover is seen: at the moment of each the scan
      was to go on. */
  lemma {:induction false} DecidedWhileRunning(setup: Setup, world: World, log: Log, earlier: Log)
    requires Lawful(setup, world, log) && Extends(log, earlier) && earlier.Then?
    ensures world.stop(earlier.entry.now).Continue?
  {
    if log != earlier {
      DecidedWhileRunning(setup, world, log.before, earlier);
    }
  }

  /** A blocked tool was on offer and the best of its ranking, as one that runs is, and exactly the
      safety gate tells them apart. */
  lemma {:induction false} GateTellsThemApart(setup: Setup, world: World, log: Log)
    requires Lawful(setup, world, log) && log.Then? && (log.entry.event.RanTool? || log.entry.event.BlockedTool?)
    ensures var tool := log.entry.event.tool;
      && tool in setup.reg && Admitted(tool, setup.Grant(), Consumed(log.before))
      && log.entry.ranked != [] && log.entry.ranked[0].tool == tool
      && (log.entry.event.RanTool? <==> ActionAllowed(tool.tier, setup.rules))
  {
    ResolvedIsAdmitted(setup.reg, log.entry.event.tool.capability, setup.Grant(), Consumed(log.before));
  }

  /** Neither budget is ever overrun, across all rounds. */
  lemma {:induction false} BudgetsAreNeverOverrun(setup: Setup, world: World, log: Log)
    requires Lawful(setup, world, log)
    ensures setup.limits.maxAiCalls > 0 ==> AiCalls(log) <= setup.limits.maxAiCalls
    ensures setup.limits.stallLimit > 0 ==> Stall(log) <= setup.limits.stallLimit
  {
    if log.Then? {
      BudgetsAreNeverOverrun(setup, world, log.before);
    }
  }

  ghost predicate TimeFlows(world: World) {
    forall m, n | m <= n :: world.clock(m) <= world.clock(n)
  }

  predicate StoppedOnBudget(log: Log) {
    log.Then? && (log.entry.event.OutOfBudget? || StoppedOnBudget(log.before))
  }

  /** Once a budget has stopped a round, every decision of every later round is a budget stop:
      no tool runs and the model is not asked again. */
  lemma {:induction false} BudgetStopIsFinal(setup: Setup, world: World, log: Log)
    requires Lawful(setup, world, log) && TimeFlows(world) && StoppedOnBudget(log)
    ensures log.entry.event.OutOfBudget?
  {
    if StoppedOnBudget(log.before) {
      BudgetStopIsFinal(setup, world, log.before);
      assert Justified(setup, world, log.before.before, log.before.entry);
      assert world.clock(log.before.entry.now) <= world.clock(log.entry.now);
    }
  }
}
