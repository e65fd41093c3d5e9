/**
  What the counters of an engagement count, read off the list of its decisions.
 */
module AgentLog {
  import opened Basics
  import opened CapabilityRegistry
  import opened AgentLoop

  /** The decisions in the order in which they were taken. */
  function Entries(log: Log): seq<Entry> {
    match log case Start => [] case Then(before, entry) => Entries(before) + [entry]
  }

  /** From position `k` on, those of which it holds. */
  function Where(es: seq<Entry>, k: nat, p: Event -> bool): set<nat> {
    set i: nat | k <= i < |es| && p(es[i].event)
  }

  lemma {:induction false} WhereOfSnoc(es: seq<Entry>, e: Entry, k: nat, p: Event -> bool)
    requires k <= |es|
    ensures |Where(es + [e], k, p)| == |Where(es, k, p)| + if p(e.event) then 1 else 0
  {
    var more := es + [e];
    assert forall i | 0 <= i < |es| :: more[i] == es[i];
    assert more[|es|] == e;
    assert Where(more, k, p) == Where(es, k, p) + if p(e.event) then {|es|} else {};
  }

  /** The numbers of decisions, of model calls and of decisions that ended a round: all but the budget
      stops ask the model. */
  lemma {:induction false} CountersAsWritten(log: Log, asked: Event -> bool, ended: Event -> bool)
    requires forall e: Event :: asked(e) <==> e.RanTool? || e.BlockedTool? || e.Finished?
    requires forall e: Event :: ended(e) <==> e.Finished? || e.OutOfBudget?
    ensures Length(log) == |Entries(log)|
    ensures AiCalls(log) == |Where(Entries(log), 0, asked)|
    ensures Conclusions(log) == |Where(Entries(log), 0, ended)|
  {
    if log.Then? {
      CountersAsWritten(log.before, asked, ended);
      WhereOfSnoc(Entries(log.before), log.entry, 0, asked);
      WhereOfSnoc(Entries(log.before), log.entry, 0, ended);
    } else {
      assert Where([], 0, asked) == {} && Where([], 0, ended) == {};
    }
  }

  predicate Found(e: Event) {
    e.RanTool? && e.findings > 0
  }

  /** The stall is the number of tools run since the last that found anything. */
  lemma {:induction false} StallAsWritten(log: Log, fruitless: Event -> bool) returns (k: nat)
    requires forall e: Event :: fruitless(e) <==> e.RanTool? && e.findings == 0
    ensures k <= |Entries(log)| && (k > 0 ==> Found(Entries(log)[k - 1].event))
    ensures forall i | k <= i < |Entries(log)| :: !Found(Entries(log)[i].event)
    ensures Stall(log) == |Where(Entries(log), k, fruitless)|
  {
    k := 0;
    if log.Then? {
      k := StallAsWritten(log.before, fruitless);
      var es := Entries(log.before);
      WhereOfSnoc(es, log.entry, k, fruitless);
      if Found(log.entry.event) {
        k := |es| + 1;
        assert Where(es + [log.entry], k, fruitless) == {};
      }
    } else {
      assert Where([], 0, fruitless) == {};
    }
  }

  /** The tools executed and their statuses are those of the runs, in order. */
  lemma {:induction false} RunsAsWritten(log: Log) returns (from: seq<nat>)
    ensures |from| == |Executed(log)| == |Statuses(log)|
    ensures forall k | 0 <= k < |from| ::
      && from[k] < |Entries(log)| && Entries(log)[from[k]].event.RanTool?
      && Executed(log)[k] == Entries(log)[from[k]].event.tool && Statuses(log)[k] == Entries(log)[from[k]].event.status
    ensures forall k, l | 0 <= k < l < |from| :: from[k] < from[l]
    ensures forall i | 0 <= i < |Entries(log)| :: i in from <==> Entries(log)[i].event.RanTool?
  {
    from := [];
    if log.Then? {
      from := RunsAsWritten(log.before);
      if log.entry.event.RanTool? {
        from := from + [|Entries(log.before)|];
      }
    }
  }

  /** Used up are the names of the tools run and of those blocked. */
  lemma {:induction false} ConsumedAsWritten(log: Log, name: string)
    ensures name in Consumed(log) <==> exists i | 0 <= i < |Entries(log)| :: Uses(Entries(log)[i].event, name)
  {
    if log.Then? {
      ConsumedAsWritten(log.before, name);
      var es, n := Entries(log), |Entries(log.before)|;
      assert forall i | 0 <= i < n :: es[i] == Entries(log.before)[i];
      assert es[n] == log.entry;
    }
  }

  predicate Uses(e: Event, name: string) {
    (e.RanTool? && e.tool.name == name) || (e.BlockedTool? && e.tool.name == name)
  }

  /** The step numbers are the positions. */
  lemma {:induction false} StepsAsWritten(setup: Setup, world: World, log: Log)
    requires Lawful(setup, world, log)
    ensures forall i | 0 <= i < |Entries(log)| :: Entries(log)[i].step == i
    ensures Entries(log) != [] ==> |Entries(log)| <= setup.limits.maxSteps
  {
    if log.Then? {
      StepsAsWritten(setup, world, log.before);
      LengthIsSize(log.before);
    }
  }

  lemma {:induction false} LengthIsSize(log: Log)
    ensures Length(log) == |Entries(log)|
  {
    if log.Then? {
      LengthIsSize(log.before);
    }
  }

  /** Reused of an earlier run are its statuses but for the unauthorized ones, in order. */
  lemma {:induction false} UnskippedAsWritten(statuses: seq<string>, n: nat) returns (from: seq<nat>)
    requires n <= |statuses|
    ensures |from| == |Unskipped(statuses, n)|
    ensures forall k | 0 <= k < |from| :: from[k] < n && Unskipped(statuses, n)[k] == statuses[from[k]]
    ensures forall k, l | 0 <= k < l < |from| :: from[k] < from[l]
    ensures forall i | 0 <= i < n :: i in from <==> statuses[i] != "skipped_unauthorized"
  {
    from := [];
    if n > 0 {
      from := UnskippedAsWritten(statuses, n - 1);
      if statuses[n - 1] != "skipped_unauthorized" {
        from := from + [n - 1];
      }
    }
  }
}
