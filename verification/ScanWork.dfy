/**
  Who works on a scan: what an execution does with the answer to its claim and to each stop check.
 */
module ScanWork {
  import opened Basics
  import opened ScanTable
  import opened ScanProtocol
  import opened ScanSafety

  /** The token has won a claim. */
  ghost predicate HasWon(log: seq<Entry>, t: Token) {
    exists k :: 0 <= k < |log| && log[k].fact.ClaimWon? && log[k].fact.token == t
  }

  /** Between its claim and its end. */
  predicate AtWork(p: Pc) {
    p == ClaimAnswered(true) || p.Working? || p.Finishing? || p.Written? || p.Refreshed? || p.Announcing?
  }

  ghost predicate WorkersWon(w: World) {
    forall t | t in w.executions ::
      && (AtWork(w.executions[t].pc) ==> HasWon(w.log, t))
      && (w.executions[t].pc in {Loaded, ClaimAnswered(false)} ==> !HasWon(w.log, t))
  }

  lemma {:induction false} WonAfter(log: seq<Entry>, e: Entry, t: Token)
    ensures HasWon(log + [e], t) <==> HasWon(log, t) || (e.fact.ClaimWon? && e.fact.token == t)
  {
    var log' := log + [e];
    assert log'[|log|] == e;
    if HasWon(log, t) {
      var k :| 0 <= k < |log| && log[k].fact.ClaimWon? && log[k].fact.token == t;
      assert log'[k] == log[k];
    }
  }

  lemma {:induction false} WorkersWonStep(w: World, m: Move)
    requires WorkersWon(w) && Enabled(w, m) && ClaimsAreKnown(w)
    ensures WorkersWon(Apply(w, m)) && ClaimsAreKnown(Apply(w, m))
  {
    var hit := Statement(w.row, m.at, m.act);
    if hit.Some? {
      var e := Entry(m.at, hit.value.1);
      forall t {
        WonAfter(w.log, e, t);
      }
    }
  }

  /** Only a token that some execution minted can have won. */
  ghost predicate ClaimsAreKnown(w: World) {
    forall t | HasWon(w.log, t) :: t in w.executions
  }

  lemma {:induction false} WorkersWonRun(w: World, ms: seq<Move>)
    requires WorkersWon(w) && ClaimsAreKnown(w) && Legal(w, ms)
    ensures WorkersWon(Run(w, ms)) && ClaimsAreKnown(Run(w, ms))
    decreases |ms|
  {
    if ms != [] {
      WorkersWonStep(w, ms[0]);
      WorkersWonRun(Apply(w, ms[0]), ms[1..]);
    }
  }

  /** In every interleaving an execution that is anywhere between its claim and its end has won a
      claim, so a duplicate delivery never works on a scan. */
  lemma {:induction false} OnlyWinnersWork(row: Row, ms: seq<Move>, t: Token)
    requires Unowned(row) && Legal(Init(row), ms) && t in Run(Init(row), ms).executions
    ensures AtWork(Run(Init(row), ms).executions[t].pc) ==> HasWon(Run(Init(row), ms).log, t)
  {
    WorkersWonRun(Init(row), ms);
  }

  /** The step after the claim lets exactly the winner go to work, and ends any other execution. */
  lemma {:induction false} ClaimDecidesWhoWorks(row: Row, ms: seq<Move>, m: Move, t: Token)
    requires Unowned(row) && Legal(Init(row), ms) && Enabled(Run(Init(row), ms), m) && m.act == ActOnClaim(t)
    ensures var w := Run(Init(row), ms);
            Apply(w, m).executions[t].pc == if HasWon(w.log, t) then Working else Ended
  {
    WorkersWonRun(Init(row), ms);
  }

  /** The check before each tool lets exactly the owner go on; a cancelled scan's execution goes on to
      its end with the status so far, and any other has ended. */
  lemma {:induction false} StopCheckStopsOthers(row: Row, ms: seq<Move>, m: Move, t: Token)
    requires Unowned(row) && Legal(Init(row), ms) && Enabled(Run(Init(row), ms), m)
    requires m.act.StopCheck? && m.act.token == t
    ensures var w := Run(Init(row), ms);
            Apply(w, m).executions[t].pc ==
              if OwnsAfter(w.log, t) then Working
              else if w.row.status == Cancelled then Finishing(m.act.ifCancelled, false)
              else Ended
  {
    StopCheckKnowsTheOwner(row, ms, t);
    InvInit(row);
    InvRun(Init(row), ms);
  }

  // ----- the statements ---------------------------------------------------------------------

  /** A time without its fraction of a second. */
  lemma {:induction false} SecondsAsWritten(seconds: int, fraction: int)
    requires 0 <= fraction < 1_000_000
    ensures WholeSecond(1_000_000 * seconds + fraction) == 1_000_000 * seconds
  {
  }

  /** What each step makes of the row, column by column, and of which rows. */
  lemma {:induction false} StatementsAsWritten(w: World, m: Move)
    requires Enabled(w, m)
    ensures var r, at, second := w.row, m.at, m.at - m.at % 1_000_000;
      Apply(w, m).row ==
      match m.act
      case Claim(t) =>
        if r.status == Queued || r.status == Failed
        then Row(Running, Some(t), Some(second), r.heartbeatAt, r.queuedAt, r.completedAt, r.taskId) else r
      case Heartbeat(t) =>
        if r.status == Running && r.token == Some(t)
        then Row(Running, Some(t), r.startedAt, Some(at), r.queuedAt, r.completedAt, r.taskId) else r
      case Finalize(t, target) =>
        if r.status == Running && r.token == Some(t)
        then Row(target, None, r.startedAt, r.heartbeatAt, r.queuedAt, Some(second), r.taskId) else r
      case TimeoutWrite(t) =>
        if r.status == Running && r.token == Some(t)
        then Row(Failed, None, r.startedAt, r.heartbeatAt, r.queuedAt, Some(second), r.taskId) else r
      case Reap(limits) =>
        if r.status == Running && (if r.heartbeatAt.Some? then r.heartbeatAt.value < at - limits.stale
                                   else r.startedAt.Some? && r.startedAt.value < at - limits.age)
        then Row(Failed, None, r.startedAt, r.heartbeatAt, r.queuedAt, Some(at), r.taskId) else r
      case Requeue =>
        if r.status == Running
        then Row(Queued, None, None, r.heartbeatAt, Some(second), r.completedAt, None) else r
      case Cancel =>
        if r.status == Queued || r.status == Running
        then Row(Cancelled, None, r.startedAt, r.heartbeatAt, r.queuedAt, Some(at), r.taskId) else r
      case TeardownWrite => Row(Cancelled, r.token, r.startedAt, r.heartbeatAt, r.queuedAt, Some(at), r.taskId)
      case _ => r
  {
  }

  // ----- what can happen, and when ----------------------------------------------------------

  /** Any moment is one for the reaper, a requeue, a user's cancel, and for a crash of an execution that
      has not ended; the time limit strikes between the claim and the end. */
  lemma {:induction false} AnythingCanInterrupt(w: World, at: Time, limits: Limits, t: Token)
    requires w.clock <= at
    ensures Enabled(w, Move(at, Reap(limits))) && Enabled(w, Move(at, Requeue)) && Enabled(w, Move(at, Cancel))
    ensures Enabled(w, Move(at, TeardownRead)) <==> w.row.status == Queued || w.row.status == Running
    ensures Enabled(w, Move(at, TeardownWrite)) <==> w.teardownArmed
    ensures Enabled(w, Move(at, Crash(t))) <==>
      t in w.executions && w.executions[t].pc != Ended && w.executions[t].pc != EndedByTimeout
    ensures Enabled(w, Move(at, SoftTimeout(t))) <==>
      && t in w.executions
      && var p := w.executions[t].pc;
         p.ClaimAnswered? || p.Working? || p.Finishing? || p.Written? || p.Refreshed? || p.Announcing?
  {
  }

  /** And an execution left alone always has a next step: none waits for another. */
  lemma {:induction false} NothingIsStuck(w: World, at: Time, t: Token, aggregate: Status)
    requires w.clock <= at && t in w.executions && aggregate in {Completed, CompletedWithErrors, Failed}
    ensures match w.executions[t].pc
      case Loaded => Enabled(w, Move(at, Claim(t)))
      case ClaimAnswered(_) => Enabled(w, Move(at, ActOnClaim(t)))
      case Working =>
        && Enabled(w, Move(at, Heartbeat(t))) && Enabled(w, Move(at, StopCheck(t, aggregate)))
        && Enabled(w, Move(at, FinishBody(t, aggregate))) && Enabled(w, Move(at, RaiseInBody(t)))
      case Finishing(target, _) => Enabled(w, Move(at, Finalize(t, target)))
      case Written(_, _, _) => Enabled(w, Move(at, Refresh(t)))
      case Refreshed(_, _, _, _) => Enabled(w, Move(at, Decide(t)))
      case Announcing(_) => Enabled(w, Move(at, Publish(t)))
      case TimedOut => Enabled(w, Move(at, TimeoutWrite(t)))
      case TimeoutWritten(_) => Enabled(w, Move(at, TimeoutDecide(t)))
      case Ended => true
      case EndedByTimeout => true
      case Crashed => true
  {
  }

  /** A crash is the end of an execution, and a workspace deletion writes once for each time it read. */
  lemma {:induction false} InterruptionsAsWritten(w: World, at: Time, t: Token)
    requires w.clock <= at
    ensures Enabled(w, Move(at, Crash(t))) ==> Apply(w, Move(at, Crash(t))).executions[t].pc == Crashed
    ensures Enabled(w, Move(at, TeardownRead)) ==> Apply(w, Move(at, TeardownRead)).teardownArmed
    ensures Enabled(w, Move(at, TeardownWrite)) ==> !Apply(w, Move(at, TeardownWrite)).teardownArmed
    ensures t in w.executions && w.executions[t].pc == Crashed ==>
      forall m | Enabled(w, m) && Actor(m.act) == Some(t) :: m.act == Crash(t)
  {
  }

  /** A time limit stores a failure exactly if the execution still owns the scan, and counts one exactly
      if it stored it. */
  lemma {:induction false} TimeoutsAsWritten(w: World, m: Move, t: Token)
    requires Enabled(w, m) && t in w.executions
    ensures m.act == TimeoutWrite(t) ==>
      var e, owned := w.executions[t], w.row.status == Running && w.row.token == Some(t);
      Apply(w, m).executions[t] ==
      Execution(TimeoutWritten(owned), if owned then Some(Failed) else e.wrote, e.metrics, e.events)
    ensures m.act == TimeoutDecide(t) ==>
      var e := w.executions[t];
      && e.pc.TimeoutWritten?
      && Apply(w, m).executions[t] ==
         Execution(EndedByTimeout, e.wrote, if e.pc.won then e.metrics + [Failed] else e.metrics, e.events)
  {
  }

  /** Extends a run, of this execution alone, by one step of it. */
  lemma {:induction false} Next(w0: World, ms: seq<Move>, w: World, at: Time, act: Action, t: Token)
    returns (ms': seq<Move>, w': World)
    requires Legal(w0, ms) && Run(w0, ms) == w && Enabled(w, Move(at, act)) && Actor(act) == Some(t)
    requires forall i | 0 <= i < |ms| :: Actor(ms[i].act) == Some(t)
    ensures w' == Apply(w, Move(at, act)) && Legal(w0, ms') && Run(w0, ms') == w'
    ensures forall i | 0 <= i < |ms'| :: Actor(ms'[i].act) == Some(t)
  {
    Then(w0, ms, Move(at, act));
    ms', w' := ms + [Move(at, act)], Apply(w, Move(at, act));
  }

  lemma {:induction false} WriteUndisturbed(w: World, t: Token, at: Time, raised: bool, aggregate: Status)
    returns (ms: seq<Move>, w': World)
    requires w.clock <= at && t in w.executions && OwnedBy(w.row, t) && aggregate in AGGREGATES
    requires w.executions[t] == Execution(Working, None, [], [])
    ensures Legal(w, ms) && Run(w, ms) == w' && w'.clock == at && t in w'.executions
    ensures forall i | 0 <= i < |ms| :: Actor(ms[i].act) == Some(t)
    ensures var result := if raised then Failed else aggregate;
      && w'.row == w.row.(status := result, token := None, completedAt := Some(WholeSecond(at)))
      && w'.executions[t] == Execution(Written(result, raised, true), Some(result), [], [])
  {
    var result := if raised then Failed else aggregate;
    ms, w' := Next(w, [], w, at, if raised then RaiseInBody(t) else FinishBody(t, aggregate), t);
    ms, w' := Next(w, ms, w', at, Finalize(t, result), t);
  }

  lemma {:induction false} ReadBack(w0: World, ms: seq<Move>, w: World, t: Token, at: Time, raised: bool)
    returns (ms': seq<Move>, w': World)
    requires Legal(w0, ms) && Run(w0, ms) == w && w.clock == at && t in w.executions
    requires forall i | 0 <= i < |ms| :: Actor(ms[i].act) == Some(t)
    requires w.row.status in AGGREGATES && (raised ==> w.row.status == Failed)
    requires w.executions[t] == Execution(Written(w.row.status, raised, true), Some(w.row.status), [], [])
    ensures Legal(w0, ms') && Run(w0, ms') == w' && w'.clock == at && w'.row == w.row && t in w'.executions
    ensures forall i | 0 <= i < |ms'| :: Actor(ms'[i].act) == Some(t)
    ensures w'.executions[t] == Execution(Announcing(w.row), Some(w.row.status), [w.row.status], [])
  {
    ms', w' := Next(w0, ms, w, at, Refresh(t), t);
    ms', w' := Next(w0, ms', w', at, Decide(t), t);
  }

  /** The owner of a scan that comes to its end undisturbed stores its result, gives the scan up and
      reports that result once each way: failed if it raised, and else the status of its tools. */
  lemma {:induction false} UndisturbedEnd(w: World, t: Token, at: Time, raised: bool, aggregate: Status)
    returns (ms: seq<Move>, w': World)
    requires w.clock <= at && t in w.executions && OwnedBy(w.row, t) && aggregate in AGGREGATES
    requires w.executions[t] == Execution(Working, None, [], [])
    ensures Legal(w, ms) && Run(w, ms) == w' && t in w'.executions
    ensures forall i | 0 <= i < |ms| :: Actor(ms[i].act) == Some(t)
    ensures var result := if raised then Failed else aggregate;
      && w'.row == w.row.(status := result, token := None, completedAt := Some(WholeSecond(at)))
      && w'.executions[t] == Execution(Ended, Some(result), [result], [result])
  {
    ms, w' := WriteUndisturbed(w, t, at, raised, aggregate);
    ms, w' := ReadBack(w, ms, w', t, at, raised);
    ms, w' := Next(w, ms, w', at, Publish(t), t);
  }

  lemma {:induction false} FailUndisturbed(w: World, t: Token, at: Time) returns (ms: seq<Move>, w': World)
    requires w.clock <= at && t in w.executions && OwnedBy(w.row, t)
    requires w.executions[t] == Execution(Working, None, [], [])
    ensures Legal(w, ms) && Run(w, ms) == w' && w'.clock == at && t in w'.executions
    ensures forall i | 0 <= i < |ms| :: Actor(ms[i].act) == Some(t)
    ensures w'.row == w.row.(status := Failed, token := None, completedAt := Some(WholeSecond(at)))
    ensures w'.executions[t] == Execution(TimeoutWritten(true), Some(Failed), [], [])
  {
    ms, w' := Next(w, [], w, at, SoftTimeout(t), t);
    ms, w' := Next(w, ms, w', at, TimeoutWrite(t), t);
  }

  /** One that its time limit stops stores and counts a failure, and publishes nothing. */
  lemma {:induction false} UndisturbedTimeout(w: World, t: Token, at: Time) returns (ms: seq<Move>, w': World)
    requires w.clock <= at && t in w.executions && OwnedBy(w.row, t)
    requires w.executions[t] == Execution(Working, None, [], [])
    ensures Legal(w, ms) && Run(w, ms) == w' && t in w'.executions
    ensures forall i | 0 <= i < |ms| :: Actor(ms[i].act) == Some(t)
    ensures w'.row == w.row.(status := Failed, token := None, completedAt := Some(WholeSecond(at)))
    ensures w'.executions[t] == Execution(EndedByTimeout, Some(Failed), [Failed], [])
  {
    ms, w' := FailUndisturbed(w, t, at);
    ms, w' := Next(w, ms, w', at, TimeoutDecide(t), t);
  }
}
