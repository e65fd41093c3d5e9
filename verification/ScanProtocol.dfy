/**
  The scan ownership protocol: any number of executions of one scan, the orphan reaper, the
  shutdown requeue, a user's cancel and a workspace deletion, all interleaving on one row.

  A UPDATE, the `db.refresh` after it, the metric and the published event of `run_scan` are
  separate steps of an execution, so anything may happen between two of them.  An execution is
  named by its token, which is minted fresh.  The log is a history of the statements that
  matched the row; no step reads it.
 */
module ScanProtocol {
  import opened Basics
  import opened ScanTable

  /** Where one execution of `run_scan` stands. */
  datatype Pc =
    | Loaded                                                        // token minted, claim not issued
    | ClaimAnswered(claimed: bool)                                  // claim committed, not yet acted on
    | Working                                                       // inside the scan
    | Finishing(target: Status, raised: bool)                       // about to issue its terminal UPDATE
    | Written(target: Status, raised: bool, won: bool)              // UPDATE committed, refresh pending
    | Refreshed(target: Status, raised: bool, won: bool, seen: Row) // row re-read, decision pending
    | Announcing(seen: Row)                                         // metric recorded, event pending
    | TimedOut                                                      // soft time limit fired
    | TimeoutWritten(won: bool)                                     // the Celery wrapper's UPDATE committed
    | Ended
    | EndedByTimeout
    | Crashed

  datatype Execution = Execution(
    pc: Pc,
    wrote: Option<Status>,   // the terminal status its own UPDATE stored, if one matched
    metrics: seq<Status>,    // record_scan_result calls
    events: seq<Status>)     // ScanCompleted events

  datatype Fact =
    | ClaimWon(token: Token, inherited: Option<Time>)  // with the heartbeat the row carried over
    | Beat
    | FinalWon(stored: Status)
    | WasReaped
    | WasRequeued
    | WasCancelled
    | WasTornDown

  datatype Entry = Entry(at: Time, fact: Fact)

  datatype World = World(row: Row, executions: map<Token, Execution>, log: seq<Entry>, clock: Time,
                         teardownArmed: bool) // a workspace deletion has read the row as active, not yet written it

  datatype Action =
    | Start(token: Token)
    | Claim(token: Token)
    | ActOnClaim(token: Token)
    | Heartbeat(token: Token)
    | StopCheck(token: Token, ifCancelled: Status)   // the status the tools so far would aggregate to
    | FinishBody(token: Token, target: Status)
    | RaiseInBody(token: Token)
    | Finalize(token: Token, target: Status)
    | Refresh(token: Token)
    | Decide(token: Token)
    | Publish(token: Token)
    | SoftTimeout(token: Token)
    | TimeoutWrite(token: Token)
    | TimeoutDecide(token: Token)
    | Crash(token: Token)
    | Reap(limits: Limits)
    | Requeue
    | Cancel
    | TeardownRead
    | TeardownWrite

  datatype Move = Move(at: Time, act: Action)

  const AGGREGATES := {Completed, CompletedWithErrors, Failed}

  // ----- steps ------------------------------------------------------------------------------

  function Init(row: Row): World {
    World(row, map[], [], 0, false)
  }

  /** A row nobody owns: never run, or left by an earlier run. */
  predicate Unowned(row: Row) {
    row.status != Running && row.token == None
  }

  /** The execution that takes the step, if an execution does. */
  function Actor(act: Action): Option<Token> {
    match act
    case Reap(_) => None
    case Requeue => None
    case Cancel => None
    case TeardownRead => None
    case TeardownWrite => None
    case _ => Some(act.token)
  }

  predicate Interruptible(p: Pc) {
    p.ClaimAnswered? || p.Working? || p.Finishing? || p.Written? || p.Refreshed? || p.Announcing?
  }

  /** Can an execution at `p` take this step? */
  predicate Ready(p: Pc, act: Action) {
    match act
    case Claim(_) => p.Loaded?
    case ActOnClaim(_) => p.ClaimAnswered?
    case Heartbeat(_) => p.Working?
    case StopCheck(_, target) => p.Working? && target in AGGREGATES
    case FinishBody(_, target) => p.Working? && target in AGGREGATES
    case RaiseInBody(_) => p.Working?
    case Finalize(_, target) => p.Finishing? && p.target == target
    case Refresh(_) => p.Written?
    case Decide(_) => p.Refreshed?
    case Publish(_) => p.Announcing?
    case SoftTimeout(_) => Interruptible(p)
    case TimeoutWrite(_) => p.TimedOut?
    case TimeoutDecide(_) => p.TimeoutWritten?
    case Crash(_) => !p.Ended? && !p.EndedByTimeout?
    case _ => false
  }

  predicate Enabled(w: World, m: Move) {
    && w.clock <= m.at
    && match Actor(m.act)
       case Some(t) =>
         if m.act.Start? then t !in w.executions
         else t in w.executions && Ready(w.executions[t].pc, m.act)
       case None =>
         && (m.act.TeardownRead? ==> w.row.status == Queued || w.row.status == Running)
         && (m.act.TeardownWrite? ==> w.teardownArmed)
  }

  /** The statement a step issues, and what it does to the row if its WHERE clause matches. */
  function Statement(row: Row, at: Time, act: Action): Option<(Row, Fact)> {
    match act
    case Claim(t) =>
      if Claimable(row) then Some((Claimed(row, t, at), ClaimWon(t, row.heartbeatAt))) else None
    case Heartbeat(t) => if OwnedBy(row, t) then Some((Beaten(row, at), Beat)) else None
    case Finalize(t, target) =>
      if OwnedBy(row, t) then Some((Finalized(row, target, at), FinalWon(target))) else None
    case TimeoutWrite(t) =>
      if OwnedBy(row, t) then Some((Finalized(row, Failed, at), FinalWon(Failed))) else None
    case Reap(limits) => if Orphaned(row, at, limits) then Some((Reaped(row, at), WasReaped)) else None
    case Requeue => if row.status == Running then Some((Requeued(row, at), WasRequeued)) else None
    case Cancel => if row.status !in TERMINAL then Some((UserCancelled(row, at), WasCancelled)) else None
    case TeardownWrite => Some((TornDown(row, at), WasTornDown))
    case _ => None
  }

  /** Does this execution go on to report an outcome?  The two tests of `run_scan`: the normal
      path asks only whether its UPDATE matched; the exception path asks what the refreshed row
      says and falls through to reporting otherwise. */
  predicate Reports(t: Token, raised: bool, won: bool, seen: Row) {
    if !raised then won else
      && !(!won && seen.status != Cancelled && seen.token != Some(t))
      && !(!won && seen.status == Cancelled)
  }

  /** What the step does to the execution that takes it; `row` is the row before the step. */
  function Advanced(row: Row, e: Execution, act: Action): Execution
    requires Ready(e.pc, act)
  {
    match act
    case Claim(t) => e.(pc := ClaimAnswered(Claimable(row)))
    case ActOnClaim(t) => e.(pc := if e.pc.claimed then Working else Ended)
    case StopCheck(t, target) =>
      (match StopReasonFor(row, t)
       case KeepGoing => e
       case StopCancelled => e.(pc := Finishing(target, false))
       case StopRevoked => e.(pc := Ended))
    case FinishBody(t, target) => e.(pc := Finishing(target, false))
    case RaiseInBody(t) => e.(pc := Finishing(Failed, true))
    case Finalize(t, target) =>
      var won := OwnedBy(row, t);
      e.(pc := Written(target, e.pc.raised, won), wrote := if won then Some(target) else None)
    case Refresh(t) => e.(pc := Refreshed(e.pc.target, e.pc.raised, e.pc.won, row))
    case Decide(t) =>
      if Reports(t, e.pc.raised, e.pc.won, e.pc.seen) then
        e.(pc := Announcing(e.pc.seen),
           metrics := e.metrics + [if e.pc.raised then Failed else e.pc.seen.status])
      else e.(pc := Ended)
    case Publish(t) => e.(pc := Ended, events := e.events + [e.pc.seen.status])
    case SoftTimeout(t) => e.(pc := TimedOut)
    case TimeoutWrite(t) =>
      var won := OwnedBy(row, t);
      e.(pc := TimeoutWritten(won), wrote := if won then Some(Failed) else e.wrote)
    case TimeoutDecide(t) =>
      e.(pc := EndedByTimeout, metrics := if e.pc.won then e.metrics + [Failed] else e.metrics)
    case Crash(t) => e.(pc := Crashed)
    case _ => e
  }

  function Apply(w: World, m: Move): World
    requires Enabled(w, m)
  {
    var hit := Statement(w.row, m.at, m.act);
    World(
      if hit.Some? then hit.value.0 else w.row,
      match Actor(m.act)
      case Some(t) =>
        w.executions[t := if m.act.Start? then Execution(Loaded, None, [], [])
                          else Advanced(w.row, w.executions[t], m.act)]
      case None => w.executions,
      if hit.Some? then w.log + [Entry(m.at, hit.value.1)] else w.log,
      m.at,
      if m.act.TeardownRead? then true else if m.act.TeardownWrite? then false else w.teardownArmed)
  }

  predicate Legal(w: World, ms: seq<Move>)
    decreases |ms|
  {
    ms == [] || (Enabled(w, ms[0]) && Legal(Apply(w, ms[0]), ms[1..]))
  }

  function Run(w: World, ms: seq<Move>): World
    requires Legal(w, ms)
    decreases |ms|
  {
    if ms == [] then w else Run(Apply(w, ms[0]), ms[1..])
  }

  // ----- ownership, read off the history ----------------------------------------------------

  /** `t` won the latest claim, and nothing but heartbeats has matched the row since: no
      requeue, reap, cancel, teardown or terminal write. */
  ghost predicate OwnsAfter(log: seq<Entry>, t: Token) {
    exists k :: OwnsSince(log, t, k)
  }

  predicate OwnsSince(log: seq<Entry>, t: Token, k: int) {
    && 0 <= k < |log|
    && log[k].fact.ClaimWon? && log[k].fact.token == t
    && forall j | k < j < |log| :: log[j].fact.Beat?
  }

  predicate NoTeardown(log: seq<Entry>) {
    forall i | 0 <= i < |log| :: !log[i].fact.WasTornDown?
  }

  lemma {:induction false} OwnsAfterGrows(log: seq<Entry>, e: Entry, t: Token)
    ensures OwnsAfter(log + [e], t) <==>
              if e.fact.ClaimWon? then e.fact.token == t
              else e.fact.Beat? && OwnsAfter(log, t)
  {
    var log' := log + [e];
    if OwnsAfter(log', t) {
      var k :| OwnsSince(log', t, k);
      if k < |log| {
        assert log'[|log|].fact.Beat?;
        assert forall j | k < j < |log| :: log'[j] == log[j];
        assert OwnsSince(log, t, k);
      }
    }
    if e.fact.ClaimWon? && e.fact.token == t {
      assert OwnsSince(log', t, |log|);
    }
    if e.fact.Beat? && OwnsAfter(log, t) {
      var k :| OwnsSince(log, t, k);
      assert OwnsSince(log', t, k);
    }
  }

  // ----- the invariant ----------------------------------------------------------------------

  /** No later row can make an execution that lost this row its owner again. */
  predicate Lost(row: Row, t: Token) {
    row.token != Some(t) || row.status == Cancelled
  }

  /** A token on the row belongs to a claim that was issued, and means running or cancelled. */
  predicate RowOk(w: World) {
    && (w.row.status == Running ==> w.row.token.Some?)
    && (w.row.token.Some? ==>
          && (w.row.status == Running || w.row.status == Cancelled)
          && w.row.token.value in w.executions
          && w.executions[w.row.token.value].pc != Loaded)
  }

  ghost predicate LogOk(w: World) {
    forall t :: OwnedBy(w.row, t) <==> OwnsAfter(w.log, t)
  }

  predicate Silent(e: Execution) {
    e.metrics == [] && e.events == []
  }

  predicate Spoke(e: Execution, metrics: nat, events: nat) {
    |e.metrics| == metrics && |e.events| == events
  }

  /** How far reporting may have got, by program counter. */
  predicate ReportOk(t: Token, e: Execution) {
    match e.pc
    case Loaded => e.wrote == None && Silent(e)
    case ClaimAnswered(_) => e.wrote == None && Silent(e)
    case Working => e.wrote == None && Silent(e)
    case Finishing(target, raised) =>
      e.wrote == None && Silent(e) && target in AGGREGATES && (raised ==> target == Failed)
    case Written(target, raised, won) =>
      && Silent(e) && e.wrote == (if won then Some(target) else None)
      && target in AGGREGATES && (raised ==> target == Failed)
    case Refreshed(target, raised, won, seen) =>
      && Silent(e) && e.wrote == (if won then Some(target) else None)
      && target in AGGREGATES && (raised ==> target == Failed)
      && (!won ==> Lost(seen, t))
    case Announcing(_) => e.wrote.Some? && Spoke(e, 1, 0)
    case Ended => if e.wrote.Some? then Spoke(e, 1, 1) else Silent(e)
    case TimedOut => AtMostOnce(e)
    case TimeoutWritten(won) => AtMostOnce(e) && (won ==> e.wrote == Some(Failed) && Silent(e))
    case EndedByTimeout => AtMostOnce(e)
    case Crashed => AtMostOnce(e)
  }

  predicate AtMostOnce(e: Execution) {
    |e.events| <= |e.metrics| <= if e.wrote.Some? then 1 else 0
  }

  /** An execution that is past its terminal UPDATE no longer owns the row, won or lost. */
  predicate PastWrite(e: Execution) {
    e.wrote.Some? || e.pc.Written? || e.pc.Refreshed?
  }

  /** What an execution reported is what it stored, when what it stored can only be undone by a
      workspace deletion. */
  predicate StableOutcome(w: World, e: Execution) {
    (e.wrote.Some? && e.wrote.value in {Completed, CompletedWithErrors} && NoTeardown(w.log)) ==>
      && w.row.status == e.wrote.value
      && (e.pc.Refreshed? ==> e.pc.seen.status == e.wrote.value && !e.pc.raised)
      && (e.pc.Announcing? ==> e.pc.seen.status == e.wrote.value)
      && (forall i | 0 <= i < |e.metrics| :: e.metrics[i] == e.wrote.value)
      && (forall i | 0 <= i < |e.events| :: e.events[i] == e.wrote.value)
  }

  predicate ExecutionsOk(w: World) {
    forall t | t in w.executions :: ExecutionOk(w, t, w.executions[t])
  }

  predicate ExecutionOk(w: World, t: Token, e: Execution) {
    && ReportOk(t, e)
    && (PastWrite(e) ==> Lost(w.row, t))
    && StableOutcome(w, e)
  }

  ghost predicate Inv(w: World) {
    RowOk(w) && LogOk(w) && ExecutionsOk(w)
  }

  lemma {:induction false} InvInit(row: Row)
    requires Unowned(row)
    ensures Inv(Init(row))
  {
    assert forall t :: !OwnsAfter([], t);
  }

  lemma {:induction false} RowOkStep(w: World, m: Move)
    requires Inv(w) && Enabled(w, m)
    ensures RowOk(Apply(w, m))
  {
  }

  lemma {:induction false} LogOkStep(w: World, m: Move)
    requires Inv(w) && Enabled(w, m)
    ensures LogOk(Apply(w, m))
  {
    var w' := Apply(w, m);
    forall t
      ensures OwnedBy(w'.row, t) <==> OwnsAfter(w'.log, t)
    {
      assert OwnedBy(w.row, t) <==> OwnsAfter(w.log, t);
      var hit := Statement(w.row, m.at, m.act);
      if hit.Some? {
        OwnsAfterGrows(w.log, Entry(m.at, hit.value.1), t);
      }
    }
  }

  /** Losing the row is for ever: the only token a step can put on the row is one whose claim
      has not been issued yet. */
  lemma {:induction false} LostIsStable(w: World, m: Move, t: Token)
    requires Enabled(w, m)
    requires t in w.executions && w.executions[t].pc != Loaded
    requires Lost(w.row, t)
    ensures Lost(Apply(w, m).row, t)
  {
  }

  /** A stored result stays, unless a workspace deletion overwrites it. */
  lemma {:induction false} DoneIsStable(w: World, m: Move)
    requires RowOk(w) && Enabled(w, m)
    requires w.row.status in {Completed, CompletedWithErrors}
    ensures m.act.TeardownWrite? || Apply(w, m).row == w.row
  {
  }

  /** The history only grows. */
  lemma {:induction false} NoTeardownBefore(w: World, m: Move)
    requires Enabled(w, m) && NoTeardown(Apply(w, m).log)
    ensures NoTeardown(w.log) && !m.act.TeardownWrite?
  {
    var log' := Apply(w, m).log;
    assert forall i | 0 <= i < |w.log| :: log'[i] == w.log[i];
    assert log' != [] ==> !log'[|log'| - 1].fact.WasTornDown?;
  }

  lemma {:induction false} ReportOkStep(row: Row, t: Token, e: Execution, act: Action)
    requires ReportOk(t, e) && Ready(e.pc, act) && Actor(act) == Some(t)
    requires PastWrite(e) ==> Lost(row, t)
    ensures ReportOk(t, Advanced(row, e, act))
  {
  }

  lemma {:induction false} WriteLoses(w: World, m: Move, t: Token)
    requires RowOk(w) && Enabled(w, m) && Actor(m.act) == Some(t) && t in w.executions
    requires PastWrite(w.executions[t]) ==> Lost(w.row, t)
    requires ReportOk(t, w.executions[t])
    ensures PastWrite(Apply(w, m).executions[t]) ==> Lost(Apply(w, m).row, t)
  {
    if w.executions[t].pc != Loaded && Lost(w.row, t) {
      LostIsStable(w, m, t);
    }
  }

  lemma {:induction false} OutcomeStep(w: World, m: Move, t: Token)
    requires RowOk(w) && Enabled(w, m) && Actor(m.act) == Some(t) && t in w.executions
    requires ExecutionOk(w, t, w.executions[t])
    ensures StableOutcome(Apply(w, m), Apply(w, m).executions[t])
  {
    var w', e := Apply(w, m), w.executions[t];
    if NoTeardown(w'.log) {
      NoTeardownBefore(w, m);
      if e.wrote.Some? && e.wrote.value in {Completed, CompletedWithErrors} {
        DoneIsStable(w, m);
      }
    }
  }

  lemma {:induction false} BystanderOk(w: World, m: Move, t: Token)
    requires RowOk(w) && Enabled(w, m) && Actor(m.act) != Some(t) && t in w.executions
    requires ExecutionOk(w, t, w.executions[t])
    ensures ExecutionOk(Apply(w, m), t, w.executions[t])
  {
    var w', e := Apply(w, m), w.executions[t];
    if PastWrite(e) {
      LostIsStable(w, m, t);
    }
    if NoTeardown(w'.log) {
      NoTeardownBefore(w, m);
      if e.wrote.Some? && e.wrote.value in {Completed, CompletedWithErrors} {
        DoneIsStable(w, m);
      }
    }
  }

  lemma {:induction false} InvStep(w: World, m: Move)
    requires Inv(w) && Enabled(w, m)
    ensures Inv(Apply(w, m))
  {
    RowOkStep(w, m);
    LogOkStep(w, m);
    var w' := Apply(w, m);
    forall t | t in w'.executions
      ensures ExecutionOk(w', t, w'.executions[t])
    {
      if t in w.executions {
        assert ExecutionOk(w, t, w.executions[t]);
        if Actor(m.act) == Some(t) {
          ReportOkStep(w.row, t, w.executions[t], m.act);
          WriteLoses(w, m, t);
          OutcomeStep(w, m, t);
        } else {
          BystanderOk(w, m, t);
        }
      }
    }
  }

  lemma {:induction false} InvRun(w: World, ms: seq<Move>)
    requires Inv(w) && Legal(w, ms)
    ensures Inv(Run(w, ms))
    decreases |ms|
  {
    if ms != [] {
      InvStep(w, ms[0]);
      InvRun(Apply(w, ms[0]), ms[1..]);
    }
  }
}
